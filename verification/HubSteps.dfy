/** SendToUser at the grain at which goroutines interleave: look the client up, try the send,
    and when the buffer is full delete the user from the map and close the channel. Sending on
    a closed channel and closing one twice are Go panics. */
module HubSteps {
  import opened Models
  import opened H = Hub

  type SendId = nat

  datatype Pc =
    | LookedUp(user: UserId, c: ClientId)
    | FoundFull(user: UserId, c: ClientId)
    | Unmapped(user: UserId, c: ClientId)

  /** `userOf` records every client ever registered, `load` how many frames its channel holds. */
  datatype Shared = Shared(
    clients: map<UserId, ClientId>,
    userOf: map<ClientId, UserId>,
    load: map<ClientId, nat>,
    closed: set<ClientId>,
    sends: map<SendId, Pc>,
    panicked: bool)

  datatype Step =
    | RegisterStep(c: ClientId, user: UserId)
    | UnregisterStep(user: UserId)
    | DrainStep(c: ClientId)
    | LookUp(t: SendId, user: UserId)
    | TrySend(t: SendId)
    | DeleteUser(t: SendId)
    | CloseChannel(t: SendId)

  const NOTHING := Shared(map[], map[], map[], {}, map[], false)

  predicate Possible(s: Shared, a: Step) {
    match a
    case RegisterStep(c, _) => c !in s.userOf
    case UnregisterStep(_) => true
    case DrainStep(c) => c in s.load && s.load[c] > 0
    case LookUp(t, user) => t !in s.sends && user in s.clients
    case TrySend(t) => t in s.sends && s.sends[t].LookedUp? && s.sends[t].c in s.load
    case DeleteUser(t) => t in s.sends && s.sends[t].FoundFull?
    case CloseChannel(t) => t in s.sends && s.sends[t].Unmapped?
  }

  /** A select whose channel is closed takes the send case, and panics. */
  function Do(s: Shared, a: Step): Shared
    requires Possible(s, a)
  {
    match a
    case RegisterStep(c, user) =>
      s.(clients := s.clients[user := c], userOf := s.userOf[c := user], load := s.load[c := 0])
    case UnregisterStep(user) => s.(clients := s.clients - {user})
    case DrainStep(c) => s.(load := s.load[c := s.load[c] - 1])
    case LookUp(t, user) => s.(sends := s.sends[t := LookedUp(user, s.clients[user])])
    case TrySend(t) =>
      var LookedUp(user, c) := s.sends[t];
      if c in s.closed then s.(panicked := true)
      else if s.load[c] < SEND_CAPACITY then s.(load := s.load[c := s.load[c] + 1], sends := s.sends - {t})
      else s.(sends := s.sends[t := FoundFull(user, c)])
    case DeleteUser(t) =>
      s.(clients := s.clients - {s.sends[t].user}, sends := s.sends[t := Unmapped(s.sends[t].user, s.sends[t].c)])
    case CloseChannel(t) =>
      var c := s.sends[t].c;
      if c in s.closed then s.(panicked := true)
      else s.(closed := s.closed + {c}, sends := s.sends - {t})
  }

  ghost predicate IsTrace(ss: seq<Shared>, acts: seq<Step>) {
    && |ss| == |acts| + 1 && ss[0] == NOTHING
    && forall i :: 0 <= i < |acts| ==> DoneAt(ss, acts, i)
  }

  predicate DoneAt(ss: seq<Shared>, acts: seq<Step>, i: nat)
    requires i < |acts| < |ss|
  {
    Possible(ss[i], acts[i]) && ss[i + 1] == Do(ss[i], acts[i])
  }

  /** The map never leads to a closed channel, and a send that has deleted its user from the
      map is about to close a channel the map no longer leads to. */
  ghost predicate MapSafe(s: Shared) {
    && s.closed <= s.userOf.Keys == s.load.Keys
    && (forall u :: u in s.clients ==>
          s.clients[u] in s.userOf && s.userOf[s.clients[u]] == u && s.clients[u] !in s.closed)
    && (forall t :: t in s.sends ==>
          var pc := s.sends[t];
          pc.c in s.userOf && s.userOf[pc.c] == pc.user
          && (pc.Unmapped? ==> pc.user !in s.clients || s.clients[pc.user] != pc.c))
  }

  lemma MapStaysSafe(s: Shared, a: Step)
    requires MapSafe(s) && Possible(s, a)
    ensures MapSafe(Do(s, a))
  {
  }

  lemma {:induction false} MapAlwaysSafe(ss: seq<Shared>, acts: seq<Step>, i: nat)
    requires IsTrace(ss, acts) && i < |ss|
    ensures MapSafe(ss[i])
  {
    hide Possible, Do;
    if i == 0 {
      assert ss[0] == NOTHING;
    } else {
      hide MapSafe;
      MapAlwaysSafe(ss, acts, i - 1);
      assert DoneAt(ss, acts, i - 1);
      MapStaysSafe(ss[i - 1], acts[i - 1]);
    }
  }

  // ----- The same hub -----

  /** What these steps see of the hub when no send is in flight. */
  function Grain(h: H.State): Shared {
    Shared(h.clients, map c | c in h.conns :: h.conns[c].user, map c | c in h.conns :: |h.conns[c].queue|,
           set c | c in h.conns && h.conns[c].closed, map[], false)
  }

  lemma GrainOf(h: H.State, s: Shared)
    requires s.clients == h.clients && s.userOf.Keys == s.load.Keys == h.conns.Keys && s.closed <= h.conns.Keys
    requires forall c :: c in h.conns ==>
      s.userOf[c] == h.conns[c].user && s.load[c] == |h.conns[c].queue| && (c in s.closed <==> h.conns[c].closed)
    requires s.sends == map[] && !s.panicked
    ensures s == Grain(h)
  {
    var g := Grain(h);
    assert g.userOf == s.userOf && g.load == s.load && g.closed == s.closed;
  }

  lemma RegisterGrain(h: H.State, c: ClientId, user: UserId)
    requires Sound(h) && c !in h.conns
    ensures Possible(Grain(h), RegisterStep(c, user))
    ensures Do(Grain(h), RegisterStep(c, user)) == Grain(H.Next(h, Register(c, user)))
  {
    GrainOf(H.Next(h, Register(c, user)), Do(Grain(h), RegisterStep(c, user)));
  }

  lemma UnregisterGrain(h: H.State, c: ClientId)
    requires c in h.conns
    ensures Do(Grain(h), UnregisterStep(h.conns[c].user)) == Grain(H.Next(h, Unregister(c)))
  {
    GrainOf(H.Next(h, Unregister(c)), Do(Grain(h), UnregisterStep(h.conns[c].user)));
  }

  lemma DrainGrain(h: H.State, e: Event)
    requires H.Enabled(h, e) && (e.Write? || e.WriteFails?)
    ensures Possible(Grain(h), DrainStep(e.c)) && Do(Grain(h), DrainStep(e.c)) == Grain(H.Next(h, e))
  {
    GrainOf(H.Next(h, e), Do(Grain(h), DrainStep(e.c)));
  }

  /** Registrations, unregistrations and writes are the hub's own. */
  lemma OtherStepsAreTheHubs(h: H.State, e: Event)
    requires Sound(h) && H.Enabled(h, e)
    ensures e.Register? ==>
      && Possible(Grain(h), RegisterStep(e.c, e.user))
      && Do(Grain(h), RegisterStep(e.c, e.user)) == Grain(H.Next(h, e))
    ensures e.Unregister? ==> Do(Grain(h), UnregisterStep(h.conns[e.c].user)) == Grain(H.Next(h, e))
    ensures e.Write? || e.WriteFails? ==>
      Possible(Grain(h), DrainStep(e.c)) && Do(Grain(h), DrainStep(e.c)) == Grain(H.Next(h, e))
  {
    hide H.Next, Do, Grain;
    match e
    case Register(c, user) => RegisterGrain(h, c, user);
    case Unregister(c) => UnregisterGrain(h, c);
    case Write(_) => DrainGrain(h, e);
    case WriteFails(_) => DrainGrain(h, e);
    case _ =>
  }

  /** A send whose steps are not interrupted is the hub's delivery to that one user. */
  lemma UninterruptedSendDelivers(h: H.State, user: UserId, frame: Frame, t: SendId) returns (ss: seq<Shared>)
    requires Sound(h) && user in h.clients
    ensures |ss| >= 3 && ss[0] == Grain(h) && ss[|ss| - 1] == Grain(Delivered(h, {user}, frame))
    ensures Possible(ss[0], LookUp(t, user)) && ss[1] == Do(ss[0], LookUp(t, user))
    ensures Possible(ss[1], TrySend(t)) && ss[2] == Do(ss[1], TrySend(t))
    ensures if |h.conns[h.clients[user]].queue| < 256 then |ss| == 3
            else
              && |ss| == 5
              && Possible(ss[2], DeleteUser(t)) && ss[3] == Do(ss[2], DeleteUser(t))
              && Possible(ss[3], CloseChannel(t)) && ss[4] == Do(ss[3], CloseChannel(t))
  {
    DeliveredToOne(h, user, frame);
    hide Delivered;
    var c := h.clients[user];
    var s1 := Do(Grain(h), LookUp(t, user));
    var s2 := Do(s1, TrySend(t));
    if |h.conns[c].queue| < 256 {
      ss := [Grain(h), s1, s2];
      assert s2.sends == map[];
      GrainOf(Delivered(h, {user}, frame), s2);
    } else {
      var s3 := Do(s2, DeleteUser(t));
      var s4 := Do(s3, CloseChannel(t));
      ss := [Grain(h), s1, s2, s3, s4];
      assert s4.sends == map[];
      GrainOf(Delivered(h, {user}, frame), s4);
    }
  }

  // ----- When a run panics -----

  /** A send in flight whose channel is closed. */
  predicate Doomed(s: Shared, t: SendId) {
    t in s.sends && s.sends[t].c in s.closed
  }

  predicate UsesChannel(a: Step, t: SendId) {
    a == TrySend(t) || a == CloseChannel(t)
  }

  /** A close of the channel that another send `t` still holds. */
  predicate ClosesUnder(s: Shared, a: Step, t: SendId) {
    && a.CloseChannel? && a.t in s.sends
    && t in s.sends && t != a.t && s.sends[t].c == s.sends[a.t].c
  }

  lemma DoomedStep(s: Shared, a: Step, t: SendId)
    requires MapSafe(s) && Possible(s, a)
    ensures Doomed(Do(s, a), t) <==> Doomed(s, t) || ClosesUnder(s, a, t)
    ensures Do(s, a).panicked <==> s.panicked || exists u :: Doomed(s, u) && UsesChannel(a, u)
  {
    if a.TrySend? || a.CloseChannel? {
      assert UsesChannel(a, a.t);
    }
  }

  lemma {:induction false} DoomedSince(ss: seq<Shared>, acts: seq<Step>, i: nat, t: SendId) returns (k: nat)
    requires IsTrace(ss, acts) && i < |ss| && Doomed(ss[i], t)
    ensures k < i && ClosesUnder(ss[k], acts[k], t)
  {
    hide Possible, Do, MapSafe, Doomed, ClosesUnder;
    if i == 0 {
      NothingIsDoomed(t);
    } else {
      assert DoneAt(ss, acts, i - 1);
      MapAlwaysSafe(ss, acts, i - 1);
      DoomedStep(ss[i - 1], acts[i - 1], t);
      if ClosesUnder(ss[i - 1], acts[i - 1], t) {
        k := i - 1;
      } else {
        k := DoomedSince(ss, acts, i - 1, t);
      }
    }
  }

  lemma NothingIsDoomed(t: SendId)
    ensures !Doomed(NOTHING, t)
  {
  }

  lemma {:induction false} StaysDoomed(ss: seq<Shared>, acts: seq<Step>, k: nat, i: nat, t: SendId)
    requires IsTrace(ss, acts) && k < i < |ss| && ClosesUnder(ss[k], acts[k], t)
    ensures Doomed(ss[i], t)
  {
    hide Possible, Do, MapSafe, Doomed, ClosesUnder;
    if k < i - 1 {
      StaysDoomed(ss, acts, k, i - 1, t);
    }
    assert DoneAt(ss, acts, i - 1);
    MapAlwaysSafe(ss, acts, i - 1);
    DoomedStep(ss[i - 1], acts[i - 1], t);
  }

  ghost predicate PanicAt(ss: seq<Shared>, acts: seq<Step>, k: int, i: int, t: SendId)
    requires |ss| == |acts| + 1
  {
    0 <= k < i < |acts| && ClosesUnder(ss[k], acts[k], t) && UsesChannel(acts[i], t)
  }

  /** A run panics if and only if a channel is closed while another send still holds it, and
      that send goes on to use it. Registrations and unregistrations play no part. */
  lemma {:induction false} PanicsIff(ss: seq<Shared>, acts: seq<Step>, n: nat)
    requires IsTrace(ss, acts) && n < |ss|
    ensures ss[n].panicked <==> exists k, i, t :: i < n && PanicAt(ss, acts, k, i, t)
  {
    hide Possible, Do, MapSafe, Doomed, ClosesUnder, UsesChannel;
    if n == 0 {
      assert ss[0] == NOTHING;
    } else {
      var last, s, a := n - 1, ss[n - 1], acts[n - 1];
      PanicsIff(ss, acts, last);
      assert DoneAt(ss, acts, last);
      MapAlwaysSafe(ss, acts, last);
      DoomedStep(s, a, 0);
      if t :| Doomed(s, t) && UsesChannel(a, t) {
        var k := DoomedSince(ss, acts, last, t);
        assert PanicAt(ss, acts, k, last, t);
      }
      forall k, t | PanicAt(ss, acts, k, last, t)
        ensures ss[n].panicked
      {
        StaysDoomed(ss, acts, k, last, t);
      }
    }
  }

  predicate OneSendPerUser(s: Shared) {
    forall t, u :: t in s.sends && u in s.sends && s.sends[t].user == s.sends[u].user ==> t == u
  }

  /** With at most one send in flight per user, and each client registered once, nothing ever
      sends on a closed channel or closes one twice. */
  lemma NoPanic(ss: seq<Shared>, acts: seq<Step>, n: nat)
    requires IsTrace(ss, acts) && n < |ss|
    requires forall k :: 0 <= k < n ==> OneSendPerUser(ss[k])
    ensures !ss[n].panicked
  {
    hide Possible, Do;
    PanicsIff(ss, acts, n);
    forall k, i, t | i < n && PanicAt(ss, acts, k, i, t)
      ensures false
    {
      MapAlwaysSafe(ss, acts, k);
    }
  }

  // ----- When a close is safe -----

  predicate HeldBy(s: Shared, c: ClientId, t: SendId) {
    t in s.sends && s.sends[t].c == c
  }

  /** A step that sends on, or closes, the closed channel `c`. */
  predicate PanicsOn(s: Shared, a: Step, c: ClientId) {
    (a.TrySend? || a.CloseChannel?) && HeldBy(s, c, a.t) && c in s.closed
  }

  lemma PanicsOnSomeChannel(s: Shared, a: Step)
    requires Possible(s, a)
    ensures Do(s, a).panicked <==> s.panicked || exists c :: PanicsOn(s, a, c)
  {
    if a.TrySend? || a.CloseChannel? {
      assert s.sends[a.t].c in s.closed ==> PanicsOn(s, a, s.sends[a.t].c);
    }
  }

  /** However the run goes on after `t` closes its channel, nothing panics on that channel. */
  ghost predicate CloseIsSafe(ss: seq<Shared>, acts: seq<Step>, t: SendId)
    requires IsTrace(ss, acts) && t in ss[|acts|].sends
  {
    var c := ss[|acts|].sends[t].c;
    forall ss': seq<Shared>, acts': seq<Step>, i: nat |
      GoesOn(ss, acts, CloseChannel(t), ss', acts') && |acts| < i < |acts'| ::
      !PanicsOn(ss'[i], acts'[i], c)
  }

  ghost predicate GoesOn(ss: seq<Shared>, acts: seq<Step>, a: Step, ss': seq<Shared>, acts': seq<Step>) {
    IsTrace(ss, acts) && IsTrace(ss', acts') && ss <= ss' && acts + [a] <= acts'
  }

  /** A closed channel that no send holds. */
  ghost predicate Abandoned(s: Shared, c: ClientId) {
    c in s.closed && forall t :: !HeldBy(s, c, t)
  }

  lemma StaysAbandoned(s: Shared, a: Step, c: ClientId)
    requires MapSafe(s) && Possible(s, a) && Abandoned(s, c)
    ensures Abandoned(Do(s, a), c)
  {
    forall t
      ensures !HeldBy(Do(s, a), c, t)
    {
      assert !HeldBy(s, c, t);
    }
  }

  lemma {:induction false} AlwaysAbandoned(ss: seq<Shared>, acts: seq<Step>, i: nat, j: nat, c: ClientId)
    requires IsTrace(ss, acts) && i <= j < |ss| && Abandoned(ss[i], c)
    ensures Abandoned(ss[j], c)
  {
    hide Possible, Do, MapSafe, Abandoned;
    if i < j {
      AlwaysAbandoned(ss, acts, i, j - 1, c);
      MapAlwaysSafe(ss, acts, j - 1);
      assert DoneAt(ss, acts, j - 1);
      StaysAbandoned(ss[j - 1], acts[j - 1], c);
    }
  }

  lemma CloseAbandons(s: Shared, t: SendId)
    requires Possible(s, CloseChannel(t)) && forall u :: HeldBy(s, s.sends[t].c, u) ==> u == t
    requires s.sends[t].c !in s.closed
    ensures Abandoned(Do(s, CloseChannel(t)), s.sends[t].c)
  {
    var s' := Do(s, CloseChannel(t));
    forall u
      ensures !HeldBy(s', s.sends[t].c, u)
    {
      assert HeldBy(s', s.sends[t].c, u) ==> HeldBy(s, s.sends[t].c, u);
    }
  }

  lemma RunOn(ss: seq<Shared>, acts: seq<Step>, a: Step) returns (ss': seq<Shared>, acts': seq<Step>)
    requires IsTrace(ss, acts) && Possible(ss[|acts|], a)
    ensures IsTrace(ss', acts') && ss' == ss + [Do(ss[|acts|], a)] && acts' == acts + [a]
  {
    hide Possible, Do;
    ss', acts' := ss + [Do(ss[|acts|], a)], acts + [a];
    forall i | 0 <= i < |acts'|
      ensures DoneAt(ss', acts', i)
    {
      assert i < |acts| ==> DoneAt(ss, acts, i);
    }
  }

  /** The steps that remain to a send that holds a closed channel, up to its panic. */
  lemma HolderPanics(ss: seq<Shared>, acts: seq<Step>, u: SendId, c: ClientId)
      returns (ss': seq<Shared>, acts': seq<Step>)
    requires IsTrace(ss, acts) && HeldBy(ss[|acts|], c, u) && c in ss[|acts|].closed
    ensures IsTrace(ss', acts') && ss <= ss' && acts <= acts' && |acts| < |acts'|
    ensures PanicsOn(ss'[|acts'| - 1], acts'[|acts'| - 1], c)
  {
    MapAlwaysSafe(ss, acts, |acts|);
    ss', acts' := ss, acts;
    if ss[|acts|].sends[u].FoundFull? {
      ss', acts' := RunOn(ss', acts', DeleteUser(u));
    }
    var a := if ss[|acts|].sends[u].LookedUp? then TrySend(u) else CloseChannel(u);
    ss', acts' := RunOn(ss', acts', a);
  }

  /** A close that is about to happen is safe if and only if no other send in flight holds the
      channel. */
  lemma CloseIsSafeIff(ss: seq<Shared>, acts: seq<Step>, t: SendId)
    requires IsTrace(ss, acts)
    requires Possible(ss[|acts|], CloseChannel(t)) && ss[|acts|].sends[t].c !in ss[|acts|].closed
    ensures CloseIsSafe(ss, acts, t) <==> forall u :: HeldBy(ss[|acts|], ss[|acts|].sends[t].c, u) ==> u == t
  {
    var n, s, a := |acts|, ss[|acts|], CloseChannel(t);
    var c := s.sends[t].c;
    if u :| HeldBy(s, c, u) && u != t {
      var ss1, acts1 := RunOn(ss, acts, a);
      assert HeldBy(ss1[n + 1], c, u) && c in ss1[n + 1].closed;
      var ss2, acts2 := HolderPanics(ss1, acts1, u, c);
      assert GoesOn(ss, acts, a, ss2, acts2) && n < |acts2| - 1 < |acts2|;
    } else {
      CloseAbandons(s, t);
      hide Possible, Do, HeldBy;
      forall ss': seq<Shared>, acts': seq<Step>, i: nat | GoesOn(ss, acts, a, ss', acts') && n < i < |acts'|
        ensures !PanicsOn(ss'[i], acts'[i], c)
      {
        assert DoneAt(ss', acts', n) && acts'[n] == (acts + [a])[n] && ss'[n] == s;
        AlwaysAbandoned(ss', acts', n + 1, i, c);
      }
    }
  }

  // ----- Two sends in flight -----

  ghost predicate Leads(acts: seq<Step>, s: Shared) {
    exists ss :: IsTrace(ss, acts) && ss[|acts|] == s
  }

  lemma LeadsOn(acts: seq<Step>, s: Shared, a: Step)
    requires Leads(acts, s) && Possible(s, a)
    ensures Leads(acts + [a], Do(s, a))
  {
    var ss :| IsTrace(ss, acts) && ss[|acts|] == s;
    var ss', acts' := ss + [Do(s, a)], acts + [a];
    hide Possible, Do;
    forall i | 0 <= i < |acts'|
      ensures DoneAt(ss', acts', i)
    {
      assert i < |acts| ==> DoneAt(ss, acts, i);
    }
    assert IsTrace(ss', acts') && ss'[|acts'|] == Do(s, a);
  }

  /** One user, one client, `n` undrained frames. */
  function Loaded(n: nat): Shared {
    Shared(map[1 := 0], map[0 := 1], map[0 := n], {}, map[], false)
  }

  lemma {:induction false} Fill(n: nat) returns (acts: seq<Step>)
    requires n <= SEND_CAPACITY
    ensures Leads(acts, Loaded(n))
  {
    if n == 0 {
      assert IsTrace([NOTHING], []);
      assert Leads([], NOTHING);
      LeadsOn([], NOTHING, RegisterStep(0, 1));
      acts := [RegisterStep(0, 1)];
      assert acts == [] + [RegisterStep(0, 1)];
      assert Do(NOTHING, RegisterStep(0, 1)) == Loaded(0);
    } else {
      acts := Fill(n - 1);
      var looked := Do(Loaded(n - 1), LookUp(0, 1));
      LeadsOn(acts, Loaded(n - 1), LookUp(0, 1));
      LeadsOn(acts + [LookUp(0, 1)], looked, TrySend(0));
      assert Do(looked, TrySend(0)) == Loaded(n);
      acts := acts + [LookUp(0, 1)] + [TrySend(0)];
    }
  }

  /** The condition is needed: two overlapping sends to a user whose buffer is full both close
      the channel, and the second close panics. */
  lemma OverlappingSendsPanic() returns (acts: seq<Step>, s: Shared)
    ensures Leads(acts, s) && s.panicked
  {
    hide Leads;
    acts := Fill(SEND_CAPACITY);
    s := Loaded(SEND_CAPACITY);
    acts, s := Perform(acts, s, LookUp(0, 1));
    acts, s := Perform(acts, s, LookUp(1, 1));
    acts, s := Perform(acts, s, TrySend(0));
    acts, s := Perform(acts, s, TrySend(1));
    assert s.sends == map[0 := FoundFull(1, 0), 1 := FoundFull(1, 0)] && s.closed == {};
    acts, s := Perform(acts, s, DeleteUser(0));
    acts, s := Perform(acts, s, DeleteUser(1));
    assert s.sends == map[0 := Unmapped(1, 0), 1 := Unmapped(1, 0)] && s.closed == {};
    acts, s := Perform(acts, s, CloseChannel(0));
    acts, s := Perform(acts, s, CloseChannel(1));
  }

  lemma Perform(acts: seq<Step>, s: Shared, a: Step) returns (acts': seq<Step>, s': Shared)
    requires Leads(acts, s) && Possible(s, a)
    ensures Leads(acts', s') && s' == Do(s, a)
  {
    LeadsOn(acts, s, a);
    acts', s' := acts + [a], Do(s, a);
  }
}

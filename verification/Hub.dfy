/** The WebSocket hub: the current client of each user, and a bounded queue per client that
    its writer drains. Methods are atomic steps here; HubSteps splits the send. */
module Hub {
  import opened Models

  const SEND_CAPACITY := 256

  type ClientId = nat

  /** A connection. `queue` is its Send channel; `written` is what its writer has put on the
      wire, and `lost` the frame it had taken when a write failed. */
  datatype Conn = Conn(
    user: UserId, queue: seq<Frame>, closed: bool, writing: bool, written: seq<Frame>, lost: seq<Frame>)

  datatype State = State(clients: map<UserId, ClientId>, conns: map<ClientId, Conn>)

  datatype Event =
    | Register(c: ClientId, user: UserId)
    | Unregister(c: ClientId)
    | Deliver(to: set<UserId>, frame: Frame)
    | Write(c: ClientId)
    | WriteFails(c: ClientId)
    | WriterStops(c: ClientId)

  const EMPTY := State(map[], map[])

  predicate Current(s: State, c: ClientId) {
    c in s.conns && s.conns[c].user in s.clients && s.clients[s.conns[c].user] == c
  }

  predicate Full(s: State, c: ClientId) {
    c in s.conns && |s.conns[c].queue| >= SEND_CAPACITY
  }

  /** Offer the frame to the current client of every recipient; a full one is dropped and its
      channel closed. */
  function Delivered(s: State, to: set<UserId>, frame: Frame): State {
    State(
      map u | u in s.clients && !(u in to && Full(s, s.clients[u])) :: s.clients[u],
      map c | c in s.conns ::
        if !Current(s, c) || s.conns[c].user !in to then s.conns[c]
        else if Full(s, c) then s.conns[c].(closed := true)
        else s.conns[c].(queue := s.conns[c].queue + [frame]))
  }

  /** Every connection is a new client (NewClient), registered once. */
  predicate Enabled(s: State, e: Event) {
    match e
    case Register(c, _) => c !in s.conns
    case Unregister(c) => c in s.conns
    case Deliver(_, _) => true
    case Write(c) => c in s.conns && s.conns[c].writing && s.conns[c].queue != []
    case WriteFails(c) => c in s.conns && s.conns[c].writing && s.conns[c].queue != []
    case WriterStops(c) => c in s.conns && s.conns[c].writing
  }

  /** Unregister deletes by user id: whoever is the user's current client. */
  function Next(s: State, e: Event): State
    requires Enabled(s, e)
  {
    match e
    case Register(c, user) =>
      State(s.clients[user := c], s.conns[c := Conn(user, [], false, true, [], [])])
    case Unregister(c) => s.(clients := s.clients - {s.conns[c].user})
    case Deliver(to, frame) => Delivered(s, to, frame)
    case Write(c) =>
      var k := s.conns[c];
      s.(conns := s.conns[c := k.(queue := k.queue[1..], written := k.written + [k.queue[0]])])
    case WriteFails(c) =>
      var k := s.conns[c];
      s.(conns := s.conns[c := k.(queue := k.queue[1..], lost := [k.queue[0]], writing := false)])
    case WriterStops(c) => s.(conns := s.conns[c := s.conns[c].(writing := false)])
  }

  ghost predicate IsRun(ss: seq<State>, es: seq<Event>) {
    && |ss| == |es| + 1 && ss[0] == EMPTY
    && forall i :: 0 <= i < |es| ==> StepAt(ss, es, i)
  }

  predicate StepAt(ss: seq<State>, es: seq<Event>, i: nat)
    requires i < |es| < |ss|
  {
    Enabled(ss[i], es[i]) && ss[i + 1] == Next(ss[i], es[i])
  }

  // ----- Invariants -----

  ghost predicate Sound(s: State) {
    && (forall u :: u in s.clients ==>
          s.clients[u] in s.conns && s.conns[s.clients[u]].user == u && !s.conns[s.clients[u]].closed)
    && forall c :: c in s.conns ==>
         |s.conns[c].queue| <= SEND_CAPACITY && |s.conns[c].lost| <= 1 && (s.conns[c].writing ==> s.conns[c].lost == [])
  }

  lemma SoundStep(s: State, e: Event)
    requires Sound(s) && Enabled(s, e)
    ensures Sound(Next(s, e))
  {
  }

  /** Queues stay within capacity, and no client in the map has a closed channel. */
  lemma {:induction false} AlwaysSound(ss: seq<State>, es: seq<Event>, i: nat)
    requires IsRun(ss, es) && i < |ss|
    ensures Sound(ss[i])
  {
    hide Sound, Next, Enabled;
    if i == 0 {
      EmptyIsSound();
    } else {
      AlwaysSound(ss, es, i - 1);
      assert StepAt(ss, es, i - 1);
      SoundStep(ss[i - 1], es[i - 1]);
    }
  }

  lemma EmptyIsSound()
    ensures Sound(EMPTY)
  {
  }

  // ----- Gap-free delivery -----

  /** The frames a sequence of events sends to `user`, in order. */
  function SentTo(es: seq<Event>, user: UserId): seq<Frame> {
    if es == [] then []
    else
      var e := es[|es| - 1];
      SentTo(es[..|es| - 1], user) + if e.Deliver? && user in e.to then [e.frame] else []
  }

  /** Everything ever enqueued to a connection, in order. */
  function Enqueued(k: Conn): seq<Frame> {
    k.written + k.lost + k.queue
  }

  lemma DeliveredConn(s: State, to: set<UserId>, frame: Frame, c: ClientId)
    requires Sound(s) && c in s.conns
    ensures
      var s', k := Delivered(s, to, frame), s.conns[c];
      && c in s'.conns
      && (if Current(s, c) && k.user in to then
            if Full(s, c) then !Current(s', c) && s'.conns[c] == k.(closed := true) && |k.queue| == SEND_CAPACITY
            else Current(s', c) && s'.conns[c] == k.(queue := k.queue + [frame])
          else (Current(s', c) <==> Current(s, c)) && s'.conns[c] == k)
  {
  }

  lemma EnqueuedStep(s: State, e: Event, c: ClientId)
    requires Sound(s) && Enabled(s, e) && c in s.conns
    ensures
      var s' := Next(s, e);
      && c in s'.conns && s'.conns[c].user == s.conns[c].user
      && (Current(s', c) ==> Current(s, c))
      && Enqueued(s'.conns[c]) == Enqueued(s.conns[c])
           + (if Current(s', c) && e.Deliver? && s.conns[c].user in e.to then [e.frame] else [])
      && (Current(s, c) && !Current(s', c) && e.Deliver? ==> |s.conns[c].queue| == SEND_CAPACITY)
  {
    var k, k' := s.conns[c], Next(s, e).conns[c];
    match e
    case Write(d) =>
      if c == d {
        assert k.queue == [k.queue[0]] + k.queue[1..];
      }
    case WriteFails(d) =>
      if c == d {
        assert k.queue == [k.queue[0]] + k.queue[1..];
      }
    case Deliver(to, frame) =>
      DeliveredConn(s, to, frame, c);
      hide Delivered, Sound;
      assert k.written + k.lost + (k.queue + [frame]) == Enqueued(k) + [frame];
    case _ =>
  }

  /** The three ways a user's current client leaves the map: the user connects again, one of the
      user's connections ends, or a frame comes for the user while 256 are queued. */
  ghost predicate Removes(s: State, e: Event, c: ClientId)
    requires c in s.conns
  {
    match e
    case Register(_, user) => user == s.conns[c].user
    case Unregister(d) => d in s.conns && s.conns[d].user == s.conns[c].user
    case Deliver(to, _) => s.conns[c].user in to && |s.conns[c].queue| >= 256
    case _ => false
  }

  lemma LeavesIffRemoved(s: State, e: Event, c: ClientId)
    requires Sound(s) && Enabled(s, e) && Current(s, c)
    ensures c in Next(s, e).conns
    ensures !Current(Next(s, e), c) <==> Removes(s, e, c)
    ensures Next(s, e).conns[c].closed <==> e.Deliver? && Removes(s, e, c)
  {
    match e
    case Deliver(to, frame) =>
      DeliveredConn(s, to, frame, c);
      hide Delivered, Sound;
    case _ =>
  }

  lemma GoneStaysGone(s: State, e: Event, c: ClientId)
    requires Enabled(s, e) && c in s.conns && !Current(s, c)
    ensures
      var s' := Next(s, e);
      c in s'.conns && !Current(s', c) && s'.conns[c].closed == s.conns[c].closed
  {
  }

  lemma SentOneMore(es: seq<Event>, r: nat, n: nat, user: UserId)
    requires r < n < |es|
    ensures SentTo(es[r + 1..n + 1], user)
         == SentTo(es[r + 1..n], user) + if es[n].Deliver? && user in es[n].to then [es[n].frame] else []
  {
    var a := es[r + 1..n + 1];
    assert a[..|a| - 1] == es[r + 1..n];
  }

  /** The event that registers `c`, the first event after it that takes `c` out of the map (or
      the end of the run), and what happened in between. */
  ghost predicate Stay(ss: seq<State>, es: seq<Event>, c: ClientId, r: nat, d: nat, n: nat)
    requires n < |ss| == |es| + 1
  {
    && r < d <= n && c in ss[n].conns
    && (forall i :: r < i <= n ==> c in ss[i].conns)
    && (forall i :: r < i <= n ==> (i <= d <==> Current(ss[i], c)))
    && (forall i :: r < i < d ==> !Removes(ss[i], es[i], c))
    && (d < n ==> Removes(ss[d], es[d], c))
    && (ss[n].conns[c].closed <==> d < n && es[d].Deliver?)
  }

  /** What is enqueued to a client is exactly the contiguous run of frames sent to its user
      from its registration until it leaves the map; the only frame dropped is the one that
      finds the queue full and so removes it. While the writer has not failed, what it wrote
      and what is queued make up that run. */
  lemma {:induction false} GapFreeDelivery(ss: seq<State>, es: seq<Event>, r: nat, n: nat) returns (d: nat)
    requires IsRun(ss, es) && r < n <= |es| && es[r].Register?
    ensures Stay(ss, es, es[r].c, r, d, n)
    ensures
      var k := ss[n].conns[es[r].c];
      && k.user == es[r].user
      && Enqueued(k) == SentTo(es[r + 1..d], es[r].user)
      && |k.queue| <= 256 && |k.lost| <= 1
      && (k.writing ==> k.written + k.queue == SentTo(es[r + 1..d], es[r].user))
    ensures d < n && es[d].Deliver? ==> |ss[d].conns[es[r].c].queue| == 256
  {
    hide Sound, Next, Enabled, SentTo, Removes;
    AlwaysSound(ss, es, n);
    SoundQueue(ss[n]);
    if n == r + 1 {
      d := n;
      assert StepAt(ss, es, r);
      Registered(ss[r], es[r]);
      NothingSent(es[r + 1..r + 1], es[r].user);
    } else {
      d := GapFreeDelivery(ss, es, r, n - 1);
      AlwaysSound(ss, es, n - 1);
      assert StepAt(ss, es, n - 1);
      EnqueuedStep(ss[n - 1], es[n - 1], es[r].c);
      if Current(ss[n - 1], es[r].c) {
        LeavesIffRemoved(ss[n - 1], es[n - 1], es[r].c);
      } else {
        GoneStaysGone(ss[n - 1], es[n - 1], es[r].c);
      }
      if Current(ss[n], es[r].c) {
        assert d == n - 1;
        SentOneMore(es, r, n - 1, es[r].user);
        d := n;
      }
    }
  }

  // ----- Coming and going -----

  /** After a registration the client is its user's current one, and every other user keeps
      theirs. */
  lemma RegisterMaps(ss: seq<State>, es: seq<Event>, i: nat)
    requires IsRun(ss, es) && i < |es| && es[i].Register?
    ensures ss[i + 1].clients == ss[i].clients[es[i].user := es[i].c]
    ensures forall c :: c in ss[i].conns ==> c in ss[i + 1].conns && ss[i + 1].conns[c] == ss[i].conns[c]
  {
    assert StepAt(ss, es, i);
  }

  /** After an unregistration the user has no client, whichever of the user's connections it was
      that ended, and every other user keeps theirs. */
  lemma UnregisterUnmaps(ss: seq<State>, es: seq<Event>, i: nat)
    requires IsRun(ss, es) && i < |es| && es[i].Unregister?
    ensures es[i].c in ss[i].conns
    ensures ss[i + 1].clients == ss[i].clients - {ss[i].conns[es[i].c].user}
    ensures ss[i + 1].conns == ss[i].conns
  {
    assert StepAt(ss, es, i);
  }

  lemma AbsentStep(s: State, e: Event, c: ClientId)
    requires Sound(s) && Enabled(s, e) && c in s.conns && s.conns[c].user !in s.clients
    requires e.Register? ==> e.user != s.conns[c].user
    ensures
      var s' := Next(s, e);
      && c in s'.conns && s'.conns[c].user == s.conns[c].user && s'.conns[c].user !in s'.clients
      && Enqueued(s'.conns[c]) == Enqueued(s.conns[c])
  {
    EnqueuedStep(s, e, c);
    hide Enqueued;
  }

  /** From then on, until the user registers again, none of the user's connections is sent
      anything. */
  lemma {:induction false} UnregisteredGetsNothing(ss: seq<State>, es: seq<Event>, i: nat, j: nat, c: ClientId)
    requires IsRun(ss, es) && i < j < |ss| && es[i].Unregister? && es[i].c in ss[i].conns
    requires c in ss[i].conns && ss[i].conns[c].user == ss[i].conns[es[i].c].user
    requires forall k :: i < k < j && es[k].Register? ==> es[k].user != ss[i].conns[c].user
    ensures c in ss[j].conns && ss[j].conns[c].user == ss[i].conns[c].user && ss[j].conns[c].user !in ss[j].clients
    ensures Enqueued(ss[j].conns[c]) == Enqueued(ss[i].conns[c])
  {
    hide Sound, Next, Enabled, Enqueued;
    if j == i + 1 {
      UnregisterUnmaps(ss, es, i);
    } else {
      UnregisteredGetsNothing(ss, es, i, j - 1, c);
      AlwaysSound(ss, es, j - 1);
      assert StepAt(ss, es, j - 1);
      AbsentStep(ss[j - 1], es[j - 1], c);
    }
  }

  lemma SoundQueue(s: State)
    requires Sound(s)
    ensures forall c :: c in s.conns ==>
      |s.conns[c].queue| <= SEND_CAPACITY && |s.conns[c].lost| <= 1
      && (s.conns[c].writing ==> Enqueued(s.conns[c]) == s.conns[c].written + s.conns[c].queue)
  {
  }

  lemma Registered(s: State, e: Event)
    requires e.Register? && Enabled(s, e)
    ensures
      var s' := Next(s, e);
      && Current(s', e.c) && s'.conns[e.c].user == e.user && Enqueued(s'.conns[e.c]) == []
      && !s'.conns[e.c].closed
  {
  }

  lemma NothingSent(es: seq<Event>, user: UserId)
    requires es == []
    ensures SentTo(es, user) == []
  {
  }

  // ----- One recipient at a time -----

  lemma DeliveredToOne(s: State, user: UserId, frame: Frame)
    requires Sound(s)
    ensures Delivered(s, {user}, frame) ==
            if user !in s.clients then s
            else
              var c := s.clients[user];
              var k := s.conns[c];
              if Full(s, c) then State(s.clients - {user}, s.conns[c := k.(closed := true)])
              else s.(conns := s.conns[c := k.(queue := k.queue + [frame])])
  {
    var s' := Delivered(s, {user}, frame);
    assert forall c :: c in s.conns ==> (Current(s, c) && s.conns[c].user == user <==>
                                         user in s.clients && s.clients[user] == c);
    if user !in s.clients {
      assert s'.clients == s.clients && s'.conns == s.conns;
    } else if Full(s, s.clients[user]) {
      assert s'.clients == s.clients - {user};
    } else {
      assert s'.clients == s.clients;
    }
  }

  lemma DeliveredToNobody(s: State, frame: Frame)
    requires Sound(s)
    ensures Delivered(s, {}, frame) == s
  {
    assert Delivered(s, {}, frame).clients == s.clients;
    assert Delivered(s, {}, frame).conns == s.conns;
  }

  lemma DeliveredKeys(s: State, to: set<UserId>, frame: Frame)
    ensures Delivered(s, to, frame).conns.Keys == s.conns.Keys
  {
  }

  lemma SoundDelivered(s: State, to: set<UserId>, frame: Frame)
    requires Sound(s)
    ensures Sound(Delivered(s, to, frame))
  {
    SoundStep(s, Deliver(to, frame));
  }

  lemma DeliveryMapsNobody(s: State, to: set<UserId>, frame: Frame, user: UserId)
    requires user !in s.clients
    ensures user !in Delivered(s, to, frame).clients
  {
  }

  lemma DeliveredUser(s: State, to: set<UserId>, frame: Frame, u: UserId)
    requires Sound(s)
    ensures
      var s' := Delivered(s, to, frame);
      && (u in s'.clients <==> u in s.clients && !(u in to && Full(s, s.clients[u])))
      && (u in s'.clients ==> s'.clients[u] == s.clients[u])
      && (u in s.clients && u !in to ==> (Full(s', s.clients[u]) <==> Full(s, s.clients[u])))
  {
  }

  lemma ToOneMoreConn(s: State, to: set<UserId>, user: UserId, frame: Frame, c: ClientId)
    requires Sound(s) && user !in to && c in s.conns
    ensures
      var s1 := Delivered(s, to, frame);
      && c in s1.conns && c in Delivered(s, to + {user}, frame).conns && c in Delivered(s1, {user}, frame).conns
      && Delivered(s1, {user}, frame).conns[c] == Delivered(s, to + {user}, frame).conns[c]
  {
    hide Delivered, Sound;
    SoundDelivered(s, to, frame);
    DeliveredConn(s, to, frame, c);
    DeliveredConn(Delivered(s, to, frame), {user}, frame, c);
    DeliveredConn(s, to + {user}, frame, c);
  }

  /** Sending to the recipients one by one is delivering to all of them. */
  lemma DeliveredToOneMore(s: State, to: set<UserId>, user: UserId, frame: Frame)
    requires Sound(s) && user !in to
    ensures Delivered(Delivered(s, to, frame), {user}, frame) == Delivered(s, to + {user}, frame)
  {
    hide Delivered, Sound, Full;
    var s1, s2 := Delivered(s, to, frame), Delivered(s, to + {user}, frame);
    var s3 := Delivered(s1, {user}, frame);
    SoundDelivered(s, to, frame);
    DeliveredKeys(s, to, frame);
    DeliveredKeys(s1, {user}, frame);
    DeliveredKeys(s, to + {user}, frame);
    forall c | c in s.conns
      ensures s3.conns[c] == s2.conns[c]
    {
      ToOneMoreConn(s, to, user, frame, c);
    }
    forall u
      ensures u in s3.clients <==> u in s2.clients
      ensures u in s2.clients ==> s3.clients[u] == s2.clients[u]
    {
      DeliveredUser(s, to, frame, u);
      DeliveredUser(s1, {user}, frame, u);
      DeliveredUser(s, to + {user}, frame, u);
    }
    assert s3.conns == s2.conns && s3.clients == s2.clients;
  }

  // ----- The objects -----

  predicate Leads(s: State, es: seq<Event>, s': State)
    decreases |es|
  {
    if es == [] then s == s' else Enabled(s, es[0]) && Leads(Next(s, es[0]), es[1..], s')
  }

  lemma {:induction false} LeadsOn(s: State, es: seq<Event>, m: State, e: Event)
    requires Leads(s, es, m) && Enabled(m, e)
    ensures Leads(s, es + [e], Next(m, e))
    decreases |es|
  {
    hide Next, Enabled;
    if es == [] {
      assert [] + [e] == [e];
    } else {
      LeadsOn(Next(s, es[0]), es[1..], m, e);
      assert (es + [e])[1..] == es[1..] + [e];
    }
  }

  /** The events of a writer that wrote until its `n`-th attempt. */
  predicate Wrote(es: seq<Event>, c: ClientId, fails: nat -> bool, n: nat) {
    n <= |es| && forall i :: 0 <= i < n ==> es[i] == Write(c) && !fails(i)
  }

  lemma FreshEnabled(s: State, c: ClientId, user: UserId)
    requires c !in s.conns
    ensures Enabled(s, Register(c, user))
  {
  }

  /** What a write, or a failed one, makes of a connection. */
  function Taken(k: Conn, failed: bool): Conn
    requires k.queue != []
  {
    var rest := k.queue[1..];
    if failed then k.(queue := rest, lost := [k.queue[0]], writing := false)
    else k.(queue := rest, written := k.written + [k.queue[0]])
  }

  lemma WriterTakes(s: State, c: ClientId, failed: bool)
    requires c in s.conns && s.conns[c].writing && s.conns[c].queue != []
    ensures
      var e := if failed then WriteFails(c) else Write(c);
      Enabled(s, e) && Next(s, e) == s.(conns := s.conns[c := Taken(s.conns[c], failed)])
  {
  }

  /** `id` names the client in the state machine; `writing`, `written` and `lost` record what
      its writer does. */
  class Client {
    const userID: UserId
    const hub: Hub
    var send: seq<Frame>
    var closed: bool
    ghost const id: ClientId
    ghost var writing: bool
    ghost var written: seq<Frame>
    ghost var lost: seq<Frame>

    constructor (userID: UserId, hub: Hub, ghost id: ClientId)
      ensures this.userID == userID && this.hub == hub && this.id == id && IsNew()
    {
      this.userID, this.hub, this.id := userID, hub, id;
      send, closed := [], false;
      writing, written, lost := true, [], [];
    }

    ghost predicate IsNew()
      reads this
    {
      View() == Conn(userID, [], false, true, [], [])
    }

    ghost function View(): Conn
      reads this
    {
      Conn(userID, send, closed, writing, written, lost)
    }

    /** Take one queued frame and write it, or fail to. */
    method WriteNext(failed: bool) returns (ghost e: Event)
      requires hub.Valid() && hub.Has(this) && writing && send != []
      modifies this
      ensures hub.Valid() && e == if failed then WriteFails(id) else Write(id)
      ensures Enabled(old(hub.View()), e) && hub.View() == Next(old(hub.View()), e)
      ensures send == old(send)[1..] && closed == old(closed) && writing == !failed
      ensures written == (if failed then old(written) else old(written) + [old(send)[0]])
      ensures lost == (if failed then [old(send)[0]] else old(lost))
    {
      hide Sound, Next, Enabled;
      ghost var before := hub.View();
      assert before.conns[id] == View();
      WriterTakes(before, id, failed);
      e := if failed then WriteFails(id) else Write(id);
      var msg := send[0];
      send := send[1..];
      if failed {
        lost, writing := [msg], false;
      } else {
        written := written + [msg];
      }
      assert View() == Taken(before.conns[id], failed);
      hub.Stepped(this, before, e);
    }

    /** The channel is closed and drained: end with a close frame. */
    method WriteClose() returns (ghost e: Event)
      requires hub.Valid() && hub.Has(this) && writing
      modifies this
      ensures hub.Valid() && e == WriterStops(id)
      ensures Enabled(old(hub.View()), e) && hub.View() == Next(old(hub.View()), e)
      ensures send == old(send) && closed == old(closed) && !writing
    {
      hide Sound, Delivered;
      ghost var before := hub.View();
      assert before.conns[id] == View();
      writing := false;
      e := WriterStops(id);
      hub.Stepped(this, before, e);
    }

    /** The writer: take and write queued frames until one fails or none is left, and when the
        channel is closed end with a close frame. `fails` says which attempts fail. What it does
        are writer steps of this client in the state machine. */
    method WritePump(fails: nat -> bool) returns (ghost es: seq<Event>, closing: bool)
      requires hub.Valid() && hub.Has(this) && writing
      modifies this
      ensures hub.Valid()
      ensures Leads(old(hub.View()), es, hub.View())
      ensures writing ==> Wrote(es, id, fails, |es|) && send == [] && !closed
      ensures !writing ==> es != [] && Wrote(es, id, fails, |es| - 1)
      ensures !writing ==>
        if closing then es[|es| - 1] == WriterStops(id) && send == [] && closed
        else es[|es| - 1] == WriteFails(id) && fails(|es| - 1)
    {
      hide Sound, Next, Enabled, Leads;
      es, closing := [], false;
      var n := 0;
      NoStep(hub.View());
      while send != []
        invariant n == |es|
        invariant hub.Valid() && writing && closed == old(closed)
        invariant Wrote(es, id, fails, |es|) && Leads(old(hub.View()), es, hub.View())
        decreases |send|
      {
        ghost var before := hub.View();
        var failed := fails(n);
        ghost var e := WriteNext(failed);
        LeadsOn(old(hub.View()), es, before, e);
        es, n := es + [e], n + 1;
        if failed {
          return;
        }
      }
      if closed {
        ghost var before := hub.View();
        ghost var e := WriteClose();
        LeadsOn(old(hub.View()), es, before, e);
        es, closing := es + [e], true;
      }
    }
  }

  lemma NoStep(s: State)
    ensures Leads(s, [], s)
  {
  }

  /** `online` holds the users whose presence key is set; `conns` remembers every client that
      was ever registered. */
  class Hub {
    var clients: map<UserId, Client>
    var online: set<UserId>
    ghost var conns: map<ClientId, Client>

    constructor ()
      ensures Valid() && View() == EMPTY && conns == map[] && online == {}
    {
      clients, online, conns := map[], {}, map[];
    }

    /** What the state machine sees of the objects. */
    ghost function View(): State
      reads this, conns.Values
    {
      State(map u | u in clients :: clients[u].id, map c | c in conns :: conns[c].View())
    }

    ghost predicate Has(client: Client)
      reads this
    {
      client.id in conns && conns[client.id] == client
    }

    /** No two clients share an id, and the map holds registered clients only. */
    ghost predicate Linked()
      reads this
    {
      (forall c :: c in conns ==> conns[c].id == c) && forall u :: u in clients ==> Has(clients[u])
    }

    ghost predicate Valid()
      reads this, conns.Values
    {
      Linked() && Sound(View())
    }

    /** One client differs from what the state machine saw before. */
    lemma OneConn(client: Client, before: State)
      requires Has(client) && forall c :: c in conns <==> c in before.conns || c == client.id
      requires forall c :: c in conns && c != client.id ==> before.conns[c] == conns[c].View()
      ensures View().conns == before.conns[client.id := client.View()]
    {
    }

    /** A change of one client's fields that the state machine can make. */
    lemma Stepped(client: Client, before: State, e: Event)
      requires Linked() && Has(client)
      requires Sound(before) && Enabled(before, e)
      requires before.clients == View().clients && before.conns.Keys == conns.Keys
      requires forall c :: c in conns && c != client.id ==> before.conns[c] == conns[c].View()
      requires Next(before, e) == before.(conns := before.conns[client.id := client.View()])
      ensures View() == Next(before, e) && Valid()
    {
      hide Delivered;
      SoundStep(before, e);
      OneConn(client, before);
      hide Next, Enabled, Sound;
    }

    /** Every client but this one is as it was, and the map leads where `mapped` says. */
    ghost predicate OnlyChanged(client: Client, before: State, mapped: map<UserId, ClientId>)
      reads this, conns.Values
    {
      && Linked() && Has(client)
      && (forall c :: c in conns <==> c in before.conns || c == client.id)
      && (forall c :: c in conns && c != client.id ==> before.conns[c] == conns[c].View())
      && (forall u :: u in clients <==> u in mapped)
      && (forall u :: u in clients ==> clients[u].id == mapped[u])
    }

    lemma ViewNow(client: Client, before: State, mapped: map<UserId, ClientId>)
      requires OnlyChanged(client, before, mapped)
      ensures View() == State(mapped, before.conns[client.id := client.View()])
    {
      OneConn(client, before);
      var now := View().clients;
      forall u
        ensures u in now <==> u in mapped
        ensures u in now ==> now[u] == mapped[u]
      {
        assert u in now <==> u in clients;
        assert u in clients <==> u in mapped;
      }
    }

    lemma Joined(client: Client, before: State)
      requires OnlyChanged(client, before, before.clients[client.userID := client.id])
      requires Sound(before) && client.id !in before.conns && client.IsNew()
      ensures View() == Next(before, Event.Register(client.id, client.userID)) && Sound(View())
    {
      ViewNow(client, before, before.clients[client.userID := client.id]);
      SoundStep(before, Event.Register(client.id, client.userID));
      hide Delivered, Sound;
    }

    lemma Offered(client: Client, before: State, frame: Frame)
      requires Sound(before) && client.id in before.conns && Current(before, client.id)
      requires
        var k := before.conns[client.id];
        && k.user == client.userID
        && if |k.queue| >= SEND_CAPACITY then
             && OnlyChanged(client, before, before.clients - {client.userID})
             && client.View() == k.(closed := true)
           else
             && OnlyChanged(client, before, before.clients)
             && client.View() == k.(queue := k.queue + [frame])
      ensures View() == Delivered(before, {client.userID}, frame) && Sound(View())
    {
      var k := before.conns[client.id];
      ViewNow(client, before, if |k.queue| >= SEND_CAPACITY then before.clients - {client.userID} else before.clients);
      DeliveredToOne(before, client.userID, frame);
      SoundDelivered(before, {client.userID}, frame);
      hide Delivered, Sound, OnlyChanged;
    }

    /** The part of Register before the broadcast: the map, under its lock, and the presence key. */
    method Join(client: Client)
      requires Valid() && client.IsNew() && client.id !in conns
      modifies this
      ensures Valid() && conns == old(conns)[client.id := client] && online == old(online) + {client.userID}
      ensures View() == Next(old(View()), Event.Register(client.id, client.userID))
    {
      hide Sound, Next, Enabled;
      FreshEnabled(View(), client.id, client.userID);
      ghost var before := View();
      clients := clients[client.userID := client];
      conns := conns[client.id := client];
      online := online + {client.userID};
      Joined(client, before);
    }

    /** `contacts` is the answer to the query for the users who share a chat with the client's
        user; each hears that the user is online. */
    method Register(client: Client, contacts: seq<UserId>)
      requires Valid() && client.IsNew() && client.id !in conns && client.hub == this
      requires forall i, j :: 0 <= i < j < |contacts| ==> contacts[i] != contacts[j]
      modifies this, conns.Values, client
      ensures Valid() && conns == old(conns)[client.id := client] && online == old(online) + {client.userID}
      ensures Enabled(old(View()), Event.Register(client.id, client.userID))
      ensures View() == Delivered(Next(old(View()), Event.Register(client.id, client.userID)),
                                  Set(contacts), OnlineFrame(client.userID, true))
    {
      hide Sound, Next, Enabled, Valid, Delivered;
      FreshEnabled(View(), client.id, client.userID);
      Join(client);
      assert conns.Values <= old(conns.Values) + {client};
      BroadcastOnlineStatus(client.userID, true, contacts);
    }

    method Unregister(client: Client, contacts: seq<UserId>)
      requires Valid() && Has(client)
      requires forall i, j :: 0 <= i < j < |contacts| ==> contacts[i] != contacts[j]
      modifies this, conns.Values
      ensures Valid() && conns == old(conns) && online == old(online) - {client.userID}
      ensures View() == Delivered(Next(old(View()), Event.Unregister(client.id)),
                                  Set(contacts), OnlineFrame(client.userID, false))
      ensures client.userID !in clients
    {
      hide Sound, Delivered;
      ghost var before := View();
      assert before.conns[client.id] == client.View();
      clients := clients - {client.userID};
      online := online - {client.userID};
      SoundStep(before, Event.Unregister(client.id));
      assert View().conns == before.conns;
      assert View().clients == before.clients - {client.userID};
      ghost var after := View();
      BroadcastOnlineStatus(client.userID, false, contacts);
      DeliveryMapsNobody(after, Set(contacts), OnlineFrame(client.userID, false), client.userID);
      assert clients.Keys == View().clients.Keys;
    }

    /** Offer the frame to the user's current client; a full one is dropped and its channel
        closed. */
    method SendToUser(user: UserId, frame: Frame)
      requires Valid()
      modifies this`clients, conns.Values
      ensures Valid() && View() == Delivered(old(View()), {user}, frame)
      ensures user !in old(clients) ==> clients == old(clients)
      ensures user in old(clients) ==>
        var c := old(clients[user]);
        if |old(c.send)| >= 256 then clients == old(clients) - {user} && c.closed && c.send == old(c.send)
        else clients == old(clients) && c.closed == old(c.closed) && c.send == old(c.send) + [frame]
    {
      hide Sound, Delivered, Full;
      ghost var before := View();
      if user !in clients {
        DeliveredToOne(before, user, frame);
        return;
      }
      var client := clients[user];
      MappedIsCurrent(user);
      if |client.send| < SEND_CAPACITY {
        client.send := client.send + [frame];
      } else {
        clients := clients - {user};
        client.closed := true;
      }
      Offered(client, before, frame);
    }

    lemma MappedIsCurrent(user: UserId)
      requires Valid() && user in clients
      ensures
        var c := clients[user].id;
        && c in View().conns && View().conns[c] == clients[user].View()
        && clients[user].userID == user && Current(View(), c)
    {
      assert View().clients[user] == clients[user].id;
    }

    /** `members` is the answer to the membership query, which lists each member once. */
    method BroadcastToChat(members: seq<UserId>, frame: Frame, exclude: UserId)
      requires Valid()
      requires forall i, j :: 0 <= i < j < |members| ==> members[i] != members[j]
      modifies this`clients, conns.Values
      ensures Valid() && View() == Delivered(old(View()), Set(members) - {exclude}, frame)
    {
      hide Sound, Delivered;
      ghost var before := View();
      DeliveredToNobody(before, frame);
      assert Set(members[..0]) - {exclude} == {};
      for i := 0 to |members|
        invariant Valid() && View() == Delivered(before, Set(members[..i]) - {exclude}, frame)
      {
        var uid := members[i];
        assert Set(members[..i + 1]) == Set(members[..i]) + {uid} by { SetGrows(members, i); }
        if uid != exclude {
          SendToUser(uid, frame);
          DeliveredToOneMore(before, Set(members[..i]) - {exclude}, uid, frame);
          assert Set(members[..i]) - {exclude} + {uid} == Set(members[..i + 1]) - {exclude};
        } else {
          assert Set(members[..i]) - {exclude} == Set(members[..i + 1]) - {exclude};
        }
      }
      assert members[..|members|] == members;
    }

    method BroadcastOnlineStatus(user: UserId, isOnline: bool, contacts: seq<UserId>)
      requires Valid()
      requires forall i, j :: 0 <= i < j < |contacts| ==> contacts[i] != contacts[j]
      modifies this`clients, conns.Values
      ensures Valid() && View() == Delivered(old(View()), Set(contacts), OnlineFrame(user, isOnline))
    {
      hide Sound, Delivered;
      ghost var before := View();
      var frame := OnlineFrame(user, isOnline);
      DeliveredToNobody(before, frame);
      assert Set(contacts[..0]) == {};
      for i := 0 to |contacts|
        invariant Valid() && View() == Delivered(before, Set(contacts[..i]), frame)
      {
        SendToUser(contacts[i], frame);
        DeliveredToOneMore(before, Set(contacts[..i]), contacts[i], frame);
        SetGrows(contacts, i);
      }
      assert contacts[..|contacts|] == contacts;
    }
  }

  function Set(users: seq<UserId>): set<UserId> {
    set u | u in users
  }

  lemma SetGrows(users: seq<UserId>, i: nat)
    requires i < |users|
    ensures Set(users[..i + 1]) == Set(users[..i]) + {users[i]}
  {
    assert users[..i + 1] == users[..i] + [users[i]];
  }
}

/** The limiter at the grain of its two locks. A call takes the map lock to look its entry
    up, releases it, and only then takes the entry lock to spend; the sweep holds the map
    lock for a whole round and takes each entry lock in turn. In between, an entry can be
    swept out of the map while a call still holds a reference to it. */
module RateLimitLocks {
  import opened Options
  import opened RateLimit

  type Thread = nat
  type EntryId = nat

  datatype Pc =
    | WantMap(ip: Ip)
    | InMap(ip: Ip)
    | WantEntry(ip: Ip, e: EntryId)
    | InEntry(ip: Ip, e: EntryId)
    | Done

  datatype Sweeper = Resting | Sweeping(todo: set<Ip>) | Visiting(todo: set<Ip>, ip: Ip)

  datatype Holder = Caller(t: Thread) | Janitor

  /** What happened: `tried` records when calls of each IP came to spend from the entry that is in the
      map, `spent` when they were accepted; `orphaned` records the calls accepted from an entry
      that was swept out after they had looked it up. */
  datatype History = History(
    tried: map<Ip, seq<real>>, spent: map<Ip, seq<real>>, orphaned: map<Ip, seq<real>>)

  datatype State = State(
    now: real,
    heap: map<EntryId, Bucket>,
    entries: map<Ip, EntryId>,
    mapLock: Option<Holder>,
    entryLocks: map<EntryId, Holder>,
    pcs: map<Thread, Pc>,
    sweeper: Sweeper,
    past: History)

  datatype Action =
    | Tick(d: real)
    | Arrive(t: Thread, ip: Ip)
    | LockMap(t: Thread)
    | LookUp(t: Thread, e: EntryId)
    | LockEntry(t: Thread)
    | Spend(t: Thread)
    | SweepStart
    | SweepVisit(ip: Ip)
    | SweepDecide
    | SweepEnd

  const INIT := State(0.0, map[], map[], None, map[], map[], Resting, History(map[], map[], map[]))

  function Times(m: map<Ip, seq<real>>, ip: Ip): seq<real> {
    if ip in m then m[ip] else []
  }

  function Noted(m: map<Ip, seq<real>>, ip: Ip, at: real): map<Ip, seq<real>> {
    m[ip := Times(m, ip) + [at]]
  }

  /** A spend of `ip`, from the entry in the map or from an orphan, accepted or not. */
  function Recorded(h: History, ip: Ip, mapped: bool, ok: bool, at: real): History {
    if mapped then h.(tried := Noted(h.tried, ip, at), spent := if ok then Noted(h.spent, ip, at) else h.spent)
    else h.(orphaned := if ok then Noted(h.orphaned, ip, at) else h.orphaned)
  }

  predicate At(s: State, t: Thread) {
    t in s.pcs
  }

  /** A lock step is enabled only while the lock is free. */
  predicate Enabled(s: State, a: Action) {
    match a
    case Tick(d) => 0.0 <= d
    case Arrive(t, _) => t !in s.pcs
    case LockMap(t) => At(s, t) && s.pcs[t].WantMap? && s.mapLock.None?
    case LookUp(t, e) =>
      && At(s, t) && s.pcs[t].InMap?
      && if s.pcs[t].ip in s.entries then e == s.entries[s.pcs[t].ip] else e !in s.heap
    case LockEntry(t) => At(s, t) && s.pcs[t].WantEntry? && s.pcs[t].e !in s.entryLocks
    case Spend(t) => At(s, t) && s.pcs[t].InEntry? && s.pcs[t].e in s.heap
    case SweepStart => s.sweeper.Resting? && s.mapLock.None?
    case SweepVisit(ip) =>
      s.sweeper.Sweeping? && ip in s.sweeper.todo && ip in s.entries && s.entries[ip] !in s.entryLocks
    case SweepDecide => s.sweeper.Visiting? && s.sweeper.ip in s.entries && s.entries[s.sweeper.ip] in s.heap
    case SweepEnd => s.sweeper.Sweeping? && s.sweeper.todo == {}
  }

  function Next(cfg: Config, s: State, a: Action): State
    requires Enabled(s, a)
  {
    match a
    case Tick(d) => s.(now := s.now + d)
    case Arrive(t, ip) => s.(pcs := s.pcs[t := WantMap(ip)])
    case LockMap(t) => s.(mapLock := Some(Caller(t)), pcs := s.pcs[t := InMap(s.pcs[t].ip)])
    case LookUp(t, e) =>
      var ip := s.pcs[t].ip;
      var s' := s.(mapLock := None, pcs := s.pcs[t := WantEntry(ip, e)]);
      if ip in s.entries then s'
      else s'.(heap := s.heap[e := Bucket(cfg.Cap(), s.now)], entries := s.entries[ip := e])
    case LockEntry(t) =>
      var pc := s.pcs[t];
      s.(entryLocks := s.entryLocks[pc.e := Caller(t)], pcs := s.pcs[t := InEntry(pc.ip, pc.e)])
    case Spend(t) =>
      var InEntry(ip, e) := s.pcs[t];
      var (b, ok) := SpendFrom(cfg, s.heap[e], s.now);
      s.(heap := s.heap[e := b], entryLocks := s.entryLocks - {e}, pcs := s.pcs[t := Done],
         past := Recorded(s.past, ip, ip in s.entries && s.entries[ip] == e, ok, s.now))
    case SweepStart => s.(mapLock := Some(Janitor), sweeper := Sweeping(s.entries.Keys))
    case SweepVisit(ip) =>
      s.(entryLocks := s.entryLocks[s.entries[ip] := Janitor],
         sweeper := Visiting(s.sweeper.todo - {ip}, ip))
    case SweepDecide =>
      var ip, e := s.sweeper.ip, s.entries[s.sweeper.ip];
      s.(entryLocks := s.entryLocks - {e},
         entries := if Stale(s.heap[e], s.now) then s.entries - {ip} else s.entries,
         sweeper := Sweeping(s.sweeper.todo))
    case SweepEnd => s.(mapLock := None, sweeper := Resting)
  }

  ghost predicate IsRun(cfg: Config, ss: seq<State>, acts: seq<Action>) {
    && |ss| == |acts| + 1 && ss[0] == INIT
    && forall i :: 0 <= i < |acts| ==> StepAt(cfg, ss, acts, i)
  }

  predicate StepAt(cfg: Config, ss: seq<State>, acts: seq<Action>, i: nat)
    requires i < |acts| < |ss|
  {
    Enabled(ss[i], acts[i]) && ss[i + 1] == Next(cfg, ss[i], acts[i])
  }

  // ----- Locks -----

  predicate Looking(s: State, t: Thread) {
    t in s.pcs && s.pcs[t].InMap?
  }

  /** The map lock is held by exactly the call that is looking up, or by the sweep. */
  ghost predicate MapLockHeld(s: State) {
    && (forall t :: Looking(s, t) <==> s.mapLock == Some(Caller(t)))
    && (s.mapLock == Some(Janitor) <==> !s.sweeper.Resting?)
  }

  predicate Holds(s: State, t: Thread, e: EntryId) {
    e in s.entryLocks && s.entryLocks[e] == Caller(t)
  }

  predicate Spending(s: State, t: Thread, e: EntryId) {
    t in s.pcs && s.pcs[t].InEntry? && s.pcs[t].e == e
  }

  /** A call holds an entry lock exactly while it is spending from that entry. */
  ghost predicate CallersHold(s: State) {
    forall t, e :: Holds(s, t, e) <==> Spending(s, t, e)
  }

  /** The sweep holds exactly the lock of the entry it is visiting. */
  ghost predicate JanitorHolds(s: State) {
    && (s.sweeper.Visiting? ==>
          s.sweeper.ip in s.entries && s.entries[s.sweeper.ip] in s.entryLocks
          && s.entryLocks[s.entries[s.sweeper.ip]] == Janitor)
    && (forall e :: e in s.entryLocks && s.entryLocks[e].Janitor? ==>
          s.sweeper.Visiting? && s.sweeper.ip in s.entries && s.entries[s.sweeper.ip] == e)
  }

  ghost predicate LocksMatch(s: State) {
    MapLockHeld(s) && CallersHold(s) && JanitorHolds(s)
  }

  ghost predicate EntriesDistinct(s: State) {
    && (forall a :: a in s.entries ==> s.entries[a] in s.heap)
    && (forall a, b :: a in s.entries && b in s.entries && s.entries[a] == s.entries[b] ==> a == b)
  }

  predicate Refers(s: State, t: Thread, ip: Ip, e: EntryId) {
    t in s.pcs && (s.pcs[t].WantEntry? || s.pcs[t].InEntry?) && s.pcs[t].ip == ip && s.pcs[t].e == e
  }

  ghost predicate ServesOnly(s: State, e: EntryId, ip: Ip) {
    e in s.heap && forall other :: other in s.entries && s.entries[other] == e ==> other == ip
  }

  /** A looked-up entry exists, and while it is in the map it serves the caller's IP. */
  ghost predicate LookupsCurrent(s: State) {
    forall t, ip, e :: Refers(s, t, ip, e) ==> ServesOnly(s, e, ip)
  }

  ghost predicate SweepCurrent(s: State) {
    && (!s.sweeper.Resting? ==> s.sweeper.todo <= s.entries.Keys)
    && (s.sweeper.Visiting? ==> s.sweeper.ip !in s.sweeper.todo)
  }

  ghost predicate EntriesMatch(s: State) {
    EntriesDistinct(s) && LookupsCurrent(s) && SweepCurrent(s)
  }

  lemma MapLockStep(cfg: Config, s: State, a: Action)
    requires MapLockHeld(s) && Enabled(s, a)
    ensures MapLockHeld(Next(cfg, s, a))
  {
    hide SpendFrom, Recorded;
    var s' := Next(cfg, s, a);
    if a.LookUp? {
      assert Looking(s, a.t);
    }
    forall t
      ensures Looking(s', t) <==> s'.mapLock == Some(Caller(t))
    {
      assert Looking(s, t) <==> s.mapLock == Some(Caller(t));
    }
  }

  lemma CallersHoldStep(cfg: Config, s: State, a: Action)
    requires CallersHold(s) && JanitorHolds(s) && Enabled(s, a)
    ensures CallersHold(Next(cfg, s, a))
  {
    hide SpendFrom, Recorded;
    forall t, e
      ensures Holds(Next(cfg, s, a), t, e) <==> Spending(Next(cfg, s, a), t, e)
    {
      assert Holds(s, t, e) <==> Spending(s, t, e);
      if a.Spend? {
        assert Holds(s, a.t, s.pcs[a.t].e) by { assert Spending(s, a.t, s.pcs[a.t].e); }
      }
    }
  }

  lemma JanitorHoldsStep(cfg: Config, s: State, a: Action)
    requires LocksMatch(s) && EntriesDistinct(s) && Enabled(s, a)
    ensures JanitorHolds(Next(cfg, s, a))
  {
    hide SpendFrom, Recorded;
    if a.Spend? {
      assert Spending(s, a.t, s.pcs[a.t].e);
      assert Holds(s, a.t, s.pcs[a.t].e);
    }
  }

  lemma EntriesDistinctStep(cfg: Config, s: State, a: Action)
    requires EntriesDistinct(s) && Enabled(s, a)
    ensures EntriesDistinct(Next(cfg, s, a))
  {
    hide SpendFrom, Recorded;
  }

  lemma ServesOnlyStep(cfg: Config, s: State, a: Action, e: EntryId, ip: Ip)
    requires EntriesDistinct(s) && Enabled(s, a) && ServesOnly(s, e, ip)
    ensures ServesOnly(Next(cfg, s, a), e, ip)
  {
    hide SpendFrom, Recorded;
  }

  lemma LookupsCurrentStep(cfg: Config, s: State, a: Action)
    requires EntriesDistinct(s) && LookupsCurrent(s) && Enabled(s, a)
    ensures LookupsCurrent(Next(cfg, s, a))
  {
    hide SpendFrom, Recorded;
    var s' := Next(cfg, s, a);
    forall t, ip, e | Refers(s', t, ip, e)
      ensures ServesOnly(s', e, ip)
    {
      if a.LookUp? && t == a.t {
        LookedUpEntry(cfg, s, a);
      } else {
        assert Refers(s, t, ip, e);
        ServesOnlyStep(cfg, s, a, e, ip);
      }
    }
  }

  lemma LookedUpEntry(cfg: Config, s: State, a: Action)
    requires EntriesDistinct(s) && Enabled(s, a) && a.LookUp?
    ensures ServesOnly(Next(cfg, s, a), a.e, s.pcs[a.t].ip)
  {
  }

  lemma SweepCurrentStep(cfg: Config, s: State, a: Action)
    requires MapLockHeld(s) && SweepCurrent(s) && Enabled(s, a)
    ensures SweepCurrent(Next(cfg, s, a))
  {
    hide SpendFrom, Recorded;
  }

  /** A step of a call that has arrived, or of a sweep that has started. */
  predicate Moves(a: Action) {
    !a.Tick? && !a.Arrive? && !a.SweepStart?
  }

  predicate Unfinished(s: State) {
    (exists t :: t in s.pcs && !s.pcs[t].Done?) || !s.sweeper.Resting?
  }

  /** While a call or a sweep is unfinished, one of those under way can move. */
  lemma NoDeadlock(cfg: Config, ss: seq<State>, acts: seq<Action>, i: nat)
    requires IsRun(cfg, ss, acts) && i < |ss| && Unfinished(ss[i])
    ensures exists a: Action :: Moves(a) && Enabled(ss[i], a)
  {
    LocksAlwaysMatch(cfg, ss, acts, i);
    var s := ss[i];
    var a := SomeMove(s);
  }

  lemma SomeMove(s: State) returns (a: Action)
    requires LocksMatch(s) && EntriesMatch(s)
    requires Unfinished(s)
    ensures Moves(a) && Enabled(s, a)
  {
    if e :| e in s.entryLocks {
      if s.entryLocks[e].Caller? {
        assert Holds(s, s.entryLocks[e].t, e);
        assert Refers(s, s.entryLocks[e].t, s.pcs[s.entryLocks[e].t].ip, e);
        a := Spend(s.entryLocks[e].t);
      } else {
        a := SweepDecide;
      }
    } else if s.mapLock.Some? && s.mapLock.value.Caller? {
      var t := s.mapLock.value.t;
      assert Looking(s, t);
      var ip := s.pcs[t].ip;
      var e := if ip in s.entries then s.entries[ip] else Unused(s.heap.Keys);
      a := LookUp(t, e);
    } else if s.mapLock.Some? {
      if ip :| ip in s.sweeper.todo {
        a := SweepVisit(ip);
      } else {
        a := SweepEnd;
      }
    } else {
      var t :| t in s.pcs && !s.pcs[t].Done?;
      assert forall e :: !Holds(s, t, e);
      assert s.pcs[t].InEntry? ==> Spending(s, t, s.pcs[t].e);
      assert !Looking(s, t);
      a := if s.pcs[t].WantMap? then LockMap(t) else LockEntry(t);
    }
  }

  ghost function Unused(ids: set<EntryId>): (e: EntryId)
    ensures e !in ids
  {
    UpperBound(ids)
  }

  ghost function UpperBound(ids: set<EntryId>): (n: nat)
    ensures forall e :: e in ids ==> e < n
  {
    if ids == {} then 0
    else
      var e :| e in ids;
      var n := UpperBound(ids - {e});
      assert forall x :: x in ids ==> x == e || x in ids - {e};
      if n <= e then e + 1 else n
  }

  lemma {:induction false} LocksAlwaysMatch(cfg: Config, ss: seq<State>, acts: seq<Action>, i: nat)
    requires IsRun(cfg, ss, acts) && i < |ss|
    ensures LocksMatch(ss[i]) && EntriesMatch(ss[i])
  {
    if i == 0 {
      assert ss[0] == INIT;
    } else {
      hide Next, Enabled, MapLockHeld, CallersHold, JanitorHolds, EntriesDistinct, LookupsCurrent, SweepCurrent;
      assert StepAt(cfg, ss, acts, i - 1);
      LocksAlwaysMatch(cfg, ss, acts, i - 1);
      var s, a := ss[i - 1], acts[i - 1];
      MapLockStep(cfg, s, a);
      CallersHoldStep(cfg, s, a);
      JanitorHoldsStep(cfg, s, a);
      EntriesDistinctStep(cfg, s, a);
      LookupsCurrentStep(cfg, s, a);
      SweepCurrentStep(cfg, s, a);
    }
  }

  // ----- Progress -----

  /** How many steps a call has left. */
  function Left(pc: Pc): nat {
    match pc
    case WantMap(_) => 4
    case InMap(_) => 3
    case WantEntry(_, _) => 2
    case InEntry(_, _) => 1
    case Done => 0
  }

  function Owed(s: State): set<(Thread, nat)> {
    set t, k: nat | t in s.pcs && k < Left(s.pcs[t]) :: (t, k)
  }

  function SweepLeft(w: Sweeper): nat {
    match w
    case Resting => 0
    case Sweeping(todo) => 2 * |todo| + 1
    case Visiting(todo, _) => 2 * |todo| + 2
  }

  function Work(s: State): nat {
    |Owed(s)| + SweepLeft(s.sweeper)
  }

  lemma CallOwesLess(s: State, s': State, t: Thread)
    requires t in s.pcs && t in s'.pcs && s'.pcs == s.pcs[t := s'.pcs[t]]
    requires Left(s'.pcs[t]) + 1 == Left(s.pcs[t])
    ensures |Owed(s')| + 1 == |Owed(s)|
  {
    var paid := (t, Left(s.pcs[t]) - 1);
    assert Owed(s') == Owed(s) - {paid} && paid in Owed(s);
  }

  /** Every move is progress: it leaves one step less to do. */
  lemma MoveLowersWork(cfg: Config, s: State, a: Action)
    requires Enabled(s, a) && Moves(a)
    ensures Work(Next(cfg, s, a)) + 1 == Work(s)
  {
    hide SpendFrom, Recorded, Owed;
    var s' := Next(cfg, s, a);
    if a.LockMap? || a.LookUp? || a.LockEntry? || a.Spend? {
      CallOwesLess(s, s', a.t);
    } else {
      SameOwed(s, s');
    }
  }

  lemma SameOwed(s: State, s': State)
    requires s.pcs == s'.pcs
    ensures Owed(s) == Owed(s')
  {
  }

  lemma RunOn(cfg: Config, ss: seq<State>, acts: seq<Action>, a: Action) returns (ss': seq<State>, acts': seq<Action>)
    requires IsRun(cfg, ss, acts) && Enabled(ss[|acts|], a)
    ensures IsRun(cfg, ss', acts') && ss' == ss + [Next(cfg, ss[|acts|], a)] && acts' == acts + [a]
  {
    hide Next, Enabled;
    ss', acts' := ss + [Next(cfg, ss[|acts|], a)], acts + [a];
    forall i | 0 <= i < |acts'|
      ensures StepAt(cfg, ss', acts', i)
    {
      assert i < |acts| ==> StepAt(cfg, ss, acts, i);
    }
  }

  /** However a run goes on by moves alone, it goes on for no more than the work that is left. */
  lemma {:induction false} MovesRunOut(cfg: Config, ss: seq<State>, acts: seq<Action>, i: nat, j: nat)
    requires IsRun(cfg, ss, acts) && i <= j < |ss| && forall k :: i <= k < j ==> Moves(acts[k])
    ensures Work(ss[j]) + (j - i) == Work(ss[i])
  {
    hide Next, Enabled, Work, Moves;
    if i < j {
      MovesRunOut(cfg, ss, acts, i, j - 1);
      assert StepAt(cfg, ss, acts, j - 1);
      MoveLowersWork(cfg, ss[j - 1], acts[j - 1]);
    }
  }

  /** `ss'` goes on from `ss` by moves alone. */
  ghost predicate GoesOn(cfg: Config, ss: seq<State>, acts: seq<Action>, ss': seq<State>, acts': seq<Action>) {
    && IsRun(cfg, ss', acts') && |ss| == |acts| + 1 && ss <= ss' && acts <= acts'
    && forall k :: |acts| <= k < |acts'| ==> Moves(acts'[k])
  }

  /** From every reachable state, every call under way and the sweep can be brought to their
      end with no further arrival, sweep or passing of time. With MovesRunOut and NoDeadlock,
      taking moves in any order whatever does so. */
  lemma {:induction false} EverythingFinishes(cfg: Config, ss: seq<State>, acts: seq<Action>)
      returns (ss': seq<State>, acts': seq<Action>)
    requires IsRun(cfg, ss, acts)
    ensures GoesOn(cfg, ss, acts, ss', acts') && !Unfinished(ss'[|acts'|])
    decreases Work(ss[|acts|])
  {
    hide Next, Enabled, Work, Moves, Unfinished, StepAt;
    ss', acts' := ss, acts;
    var s := ss[|acts|];
    if Unfinished(s) {
      LocksAlwaysMatch(cfg, ss, acts, |acts|);
      var a := SomeMove(s);
      var ss1, acts1 := RunOn(cfg, ss, acts, a);
      MoveLowersWork(cfg, s, a);
      ss', acts' := EverythingFinishes(cfg, ss1, acts1);
    }
  }

  // ----- Refinement -----

  /** The buckets the limiter would show to a caller that runs alone. */
  function BucketsOf(s: State): map<Ip, Bucket>
    requires EntriesInHeap(s)
  {
    map ip | ip in s.entries :: s.heap[s.entries[ip]]
  }

  predicate EntriesInHeap(s: State) {
    forall ip :: ip in s.entries ==> s.entries[ip] in s.heap
  }

  predicate LocksFree(s: State) {
    s.mapLock.None? && s.entryLocks == map[]
  }

  lemma UninterruptedLookup(cfg: Config, s: State, t: Thread, e: EntryId) returns (s1: State, s2: State)
    requires EntriesDistinct(s) && t in s.pcs && s.pcs[t].WantMap? && LocksFree(s)
    requires if s.pcs[t].ip in s.entries then e == s.entries[s.pcs[t].ip] else e !in s.heap
    ensures Enabled(s, LockMap(t)) && s1 == Next(cfg, s, LockMap(t))
    ensures Enabled(s1, LookUp(t, e)) && s2 == Next(cfg, s1, LookUp(t, e))
    ensures s2.pcs[t := Done] == s.pcs[t := Done] && t in s2.pcs && s2.pcs[t] == WantEntry(s.pcs[t].ip, e)
    ensures LocksFree(s2) && EntriesDistinct(s2) && s2.entries == s.entries[s.pcs[t].ip := e]
    ensures BucketsOf(s2) == BucketsOf(s)[s.pcs[t].ip := BucketOf(cfg, BucketsOf(s), s.pcs[t].ip, s.now)]
    ensures s2.now == s.now && s2.past == s.past
  {
    s1 := Next(cfg, s, LockMap(t));
    s2 := Next(cfg, s1, LookUp(t, e));
  }

  lemma UninterruptedSpend(cfg: Config, s: State, t: Thread) returns (s1: State, s2: State)
    requires EntriesDistinct(s) && LocksFree(s) && t in s.pcs && s.pcs[t].WantEntry?
    requires s.pcs[t].ip in s.entries && s.entries[s.pcs[t].ip] == s.pcs[t].e
    ensures Enabled(s, LockEntry(t)) && s1 == Next(cfg, s, LockEntry(t))
    ensures Enabled(s1, Spend(t)) && s2 == Next(cfg, s1, Spend(t))
    ensures
      var ip := s.pcs[t].ip;
      var (b, ok) := SpendFrom(cfg, BucketsOf(s)[ip], s.now);
      && LocksFree(s2) && EntriesInHeap(s2) && BucketsOf(s2) == BucketsOf(s)[ip := b]
      && s2.past == Recorded(s.past, ip, true, ok, s.now) && s2.now == s.now
  {
    hide SpendFrom, Recorded;
    s1 := Next(cfg, s, LockEntry(t));
    s2 := Next(cfg, s1, Spend(t));
    var ip, e := s.pcs[t].ip, s.pcs[t].e;
    assert s1.pcs[t] == InEntry(ip, e);
    assert s2.entries == s.entries && s2.heap == s.heap[e := SpendFrom(cfg, s.heap[e], s.now).0];
    assert s2.entryLocks == map[];
    assert BucketsOf(s2) == BucketsOf(s)[ip := s2.heap[e]];
  }

  /** A call whose four steps are not interrupted does to the buckets exactly what the
      sequential limiter does, and is recorded as accepted exactly when that accepts. */
  lemma UninterruptedCallIsAllow(cfg: Config, s: State, t: Thread, e: EntryId) returns (ss: seq<State>)
    requires EntriesDistinct(s) && t in s.pcs && s.pcs[t].WantMap? && LocksFree(s)
    requires if s.pcs[t].ip in s.entries then e == s.entries[s.pcs[t].ip] else e !in s.heap
    ensures |ss| == 5 && ss[0] == s
    ensures forall i :: 0 <= i < 4 ==> StepAt(cfg, ss, [LockMap(t), LookUp(t, e), LockEntry(t), Spend(t)], i)
    ensures
      var ip := s.pcs[t].ip;
      var (m, ok) := AllowIn(cfg, BucketsOf(s), ip, s.now);
      && LocksFree(ss[4]) && EntriesInHeap(ss[4]) && BucketsOf(ss[4]) == m
      && ss[4].past == Recorded(s.past, ip, true, ok, s.now) && ss[4].now == s.now
  {
    hide SpendFrom, Recorded, Next, Enabled, BucketOf, LocksFree;
    var s1, s2 := UninterruptedLookup(cfg, s, t, e);
    var s3, s4 := UninterruptedSpend(cfg, s2, t);
    ss := [s, s1, s2, s3, s4];
    assert AllowIn(cfg, BucketsOf(s), s.pcs[t].ip, s.now).0 == BucketsOf(s4);
  }
}

/** Every sequential history is a run of the lock machine. With it, the limiters for which the
    promises about interleaved calls hold are known exactly. */
module RateLimitRuns {
  import opened Options
  import opened RateLimit
  import opened RateLimitLocks
  import opened RateLimitSpends

  function CallTimes(es: seq<Event>, ip: Ip): seq<real> {
    if es == [] then []
    else
      var e := es[|es| - 1];
      CallTimes(es[..|es| - 1], ip) + if e.Call? && e.ip == ip then [e.at] else []
  }

  lemma CallTimesOneMore(es: seq<Event>, e: Event, ip: Ip)
    ensures CallTimes(es + [e], ip) ==
            if e.Call? && e.ip == ip then CallTimes(es, ip) + [e.at] else CallTimes(es, ip)
  {
    assert (es + [e])[..|es|] == es;
    assert CallTimes(es, ip) + [] == CallTimes(es, ip);
  }

  predicate Quiet(s: State) {
    LocksFree(s) && s.sweeper.Resting? && EntriesInHeap(s)
  }

  function TimeOf(es: seq<Event>): real {
    if es == [] then 0.0 else es[|es| - 1].at
  }

  /** The machine has done what the sequential limiter did, and nothing else. */
  ghost predicate Played(cfg: Config, s: State, es: seq<Event>) {
    && Quiet(s) && s.now == TimeOf(es) && BucketsOf(s) == Reach(cfg, es) && s.past.orphaned == map[]
    && (forall ip :: Times(s.past.spent, ip) == AcceptedTimes(cfg, es, ip))
    && (forall ip :: Times(s.past.tried, ip) == CallTimes(es, ip))
  }

  // ----- One call -----

  lemma PlayCall(cfg: Config, ss: seq<State>, acts: seq<Action>, ip: Ip) returns (ss': seq<State>, acts': seq<Action>)
    requires IsRun(cfg, ss, acts) && Quiet(ss[|acts|])
    ensures IsRun(cfg, ss', acts')
    ensures
      var s, s' := ss[|acts|], ss'[|acts'|];
      var (m, ok) := AllowIn(cfg, BucketsOf(s), ip, s.now);
      && Quiet(s') && BucketsOf(s') == m && s'.now == s.now && s'.past == Recorded(s.past, ip, true, ok, s.now)
  {
    hide Next, Enabled, AllowIn, EntriesDistinct;
    var s := ss[|acts|];
    LocksAlwaysMatch(cfg, ss, acts, |acts|);
    var t := Unused(s.pcs.Keys);
    var e := if ip in s.entries then s.entries[ip] else Unused(s.heap.Keys);
    var s1 := Arrived(cfg, s, t, ip);
    var four := UninterruptedCallIsAllow(cfg, s1, t, e);
    var moves := [LockMap(t), LookUp(t, e), LockEntry(t), Spend(t)];
    assert StepAt(cfg, four, moves, 0) && StepAt(cfg, four, moves, 1);
    assert StepAt(cfg, four, moves, 2) && StepAt(cfg, four, moves, 3);
    StaysResting(cfg, four, moves);
    ss', acts' := RunOn(cfg, ss, acts, Arrive(t, ip));
    ss', acts' := RunOn(cfg, ss', acts', LockMap(t));
    ss', acts' := RunOn(cfg, ss', acts', LookUp(t, e));
    ss', acts' := RunOn(cfg, ss', acts', LockEntry(t));
    ss', acts' := RunOn(cfg, ss', acts', Spend(t));
  }

  lemma Arrived(cfg: Config, s: State, t: Thread, ip: Ip) returns (s': State)
    requires t !in s.pcs && Quiet(s) && EntriesDistinct(s)
    ensures Enabled(s, Arrive(t, ip)) && s' == Next(cfg, s, Arrive(t, ip))
    ensures s' == s.(pcs := s'.pcs) && t in s'.pcs && s'.pcs[t] == WantMap(ip)
    ensures EntriesDistinct(s') && BucketsOf(s') == BucketsOf(s)
  {
    s' := s.(pcs := s.pcs[t := WantMap(ip)]);
  }

  lemma CallLeavesSweeper(cfg: Config, s: State, a: Action)
    requires Enabled(s, a) && (a.LockMap? || a.LookUp? || a.LockEntry? || a.Spend?)
    ensures Next(cfg, s, a).sweeper == s.sweeper
  {
  }

  lemma StaysResting(cfg: Config, four: seq<State>, moves: seq<Action>)
    requires |four| == 5 && |moves| == 4 && four[0].sweeper.Resting?
    requires forall i :: 0 <= i < 4 ==> StepAt(cfg, four, moves, i)
    requires forall i :: 0 <= i < 4 ==> moves[i].LockMap? || moves[i].LookUp? || moves[i].LockEntry? || moves[i].Spend?
    ensures four[4].sweeper.Resting?
  {
    hide Next, Enabled;
    forall i | 0 <= i < 4
      ensures four[i + 1].sweeper == four[i].sweeper
    {
      assert StepAt(cfg, four, moves, i);
      CallLeavesSweeper(cfg, four[i], moves[i]);
    }
    assert four[1].sweeper == four[2].sweeper == four[3].sweeper == four[4].sweeper;
  }

  // ----- One sweep -----

  function Unswept(s: State, todo: set<Ip>): map<Ip, EntryId>
    requires EntriesInHeap(s)
  {
    map ip | ip in s.entries && !(ip in todo && Stale(s.heap[s.entries[ip]], s.now)) :: s.entries[ip]
  }

  predicate MidSweep(s: State) {
    s.sweeper.Sweeping? && s.sweeper.todo <= s.entries.Keys && s.mapLock == Some(Janitor) && s.entryLocks == map[]
    && EntriesInHeap(s)
  }

  lemma SweepOne(cfg: Config, s: State, ip: Ip) returns (s1: State, s2: State)
    requires MidSweep(s) && ip in s.sweeper.todo
    ensures Enabled(s, SweepVisit(ip)) && s1 == Next(cfg, s, SweepVisit(ip))
    ensures Enabled(s1, SweepDecide) && s2 == Next(cfg, s1, SweepDecide)
    ensures MidSweep(s2) && s2.sweeper.todo == s.sweeper.todo - {ip}
    ensures s2 == s.(entries := s2.entries, sweeper := s2.sweeper)
    ensures Unswept(s2, s2.sweeper.todo) == Unswept(s, s.sweeper.todo)
  {
    s1 := Next(cfg, s, SweepVisit(ip));
    s2 := Next(cfg, s1, SweepDecide);
    assert s2.entryLocks == map[];
  }

  lemma {:induction false} SweepRest(cfg: Config, ss: seq<State>, acts: seq<Action>)
      returns (ss': seq<State>, acts': seq<Action>)
    requires IsRun(cfg, ss, acts) && MidSweep(ss[|acts|])
    ensures IsRun(cfg, ss', acts')
    ensures
      var s, s' := ss[|acts|], ss'[|acts'|];
      s' == s.(entries := Unswept(s, s.sweeper.todo), sweeper := Resting, mapLock := None)
    decreases |ss[|acts|].sweeper.todo|
  {
    var s := ss[|acts|];
    if ip :| ip in s.sweeper.todo {
      hide Next, Enabled, Unswept;
      var s1, s2 := SweepOne(cfg, s, ip);
      ss', acts' := RunOn(cfg, ss, acts, SweepVisit(ip));
      ss', acts' := RunOn(cfg, ss', acts', SweepDecide);
      ss', acts' := SweepRest(cfg, ss', acts');
    } else {
      ss', acts' := RunOn(cfg, ss, acts, SweepEnd);
      assert Unswept(s, s.sweeper.todo) == s.entries;
    }
  }

  lemma PlaySweep(cfg: Config, ss: seq<State>, acts: seq<Action>) returns (ss': seq<State>, acts': seq<Action>)
    requires IsRun(cfg, ss, acts) && Quiet(ss[|acts|])
    ensures IsRun(cfg, ss', acts')
    ensures
      var s, s' := ss[|acts|], ss'[|acts'|];
      Quiet(s') && BucketsOf(s') == SweepIn(BucketsOf(s), s.now) && s'.now == s.now && s'.past == s.past
  {
    var s := ss[|acts|];
    ss', acts' := RunOn(cfg, ss, acts, SweepStart);
    assert ss'[|acts'|] == s.(mapLock := Some(Janitor), sweeper := Sweeping(s.entries.Keys));
    hide Next, Enabled;
    ss', acts' := SweepRest(cfg, ss', acts');
  }

  // ----- Every history -----

  lemma PlayTick(cfg: Config, ss: seq<State>, acts: seq<Action>, at: real) returns (ss': seq<State>, acts': seq<Action>)
    requires IsRun(cfg, ss, acts) && ss[|acts|].now <= at
    ensures IsRun(cfg, ss', acts') && ss'[|acts'|] == ss[|acts|].(now := at)
  {
    ss', acts' := RunOn(cfg, ss, acts, Tick(at - ss[|acts|].now));
  }

  lemma PlayedCall(cfg: Config, s: State, s': State, es: seq<Event>, c: Event)
    requires Played(cfg, s.(now := TimeOf(es)), es) && c.Call? && s.now == c.at
    requires
      var (m, ok) := AllowIn(cfg, Reach(cfg, es), c.ip, c.at);
      Quiet(s') && BucketsOf(s') == m && s'.now == c.at && s'.past == Recorded(s.past, c.ip, true, ok, c.at)
    ensures Played(cfg, s', es + [c])
  {
    hide AllowIn, AcceptedTimes, CallTimes, Reach;
    ReachOneMore(cfg, es, c);
    forall ip
      ensures Times(s'.past.spent, ip) == AcceptedTimes(cfg, es + [c], ip)
      ensures Times(s'.past.tried, ip) == CallTimes(es + [c], ip)
    {
      AcceptedTimesOneMore(cfg, es, c, ip);
      CallTimesOneMore(es, c, ip);
      assert Times(s.past.spent, ip) == AcceptedTimes(cfg, es, ip);
      assert Times(s.past.tried, ip) == CallTimes(es, ip);
    }
  }

  lemma PlayedSweep(cfg: Config, s: State, s': State, es: seq<Event>, e: Event)
    requires Played(cfg, s.(now := TimeOf(es)), es) && e.Sweep? && s.now == e.at
    requires Quiet(s') && BucketsOf(s') == SweepIn(Reach(cfg, es), e.at) && s'.now == e.at && s'.past == s.past
    ensures Played(cfg, s', es + [e])
  {
    hide AllowIn, AcceptedTimes, CallTimes, Reach, SweepIn;
    ReachOneMore(cfg, es, e);
    forall ip
      ensures Times(s'.past.spent, ip) == AcceptedTimes(cfg, es + [e], ip)
      ensures Times(s'.past.tried, ip) == CallTimes(es + [e], ip)
    {
      AcceptedTimesOneMore(cfg, es, e, ip);
      CallTimesOneMore(es, e, ip);
      assert Times(s.past.spent, ip) == AcceptedTimes(cfg, es, ip);
      assert Times(s.past.tried, ip) == CallTimes(es, ip);
    }
  }

  /** Whatever calls and sweeps the sequential limiter goes through, the lock machine has a run
      that leaves the same buckets, grants the same calls and makes no orphan. */
  lemma {:induction false} EveryHistoryRuns(cfg: Config, es: seq<Event>) returns (ss: seq<State>, acts: seq<Action>)
    requires Ordered(es) && forall i :: 0 <= i < |es| ==> 0.0 <= es[i].at
    ensures IsRun(cfg, ss, acts) && Played(cfg, ss[|acts|], es)
  {
    hide Next, Enabled, AllowIn, AcceptedTimes, CallTimes, Reach, SweepIn;
    if es == [] {
      ss, acts := [INIT], [];
      NothingPlayed(cfg);
    } else {
      var before, e := es[..|es| - 1], es[|es| - 1];
      assert before + [e] == es;
      ss, acts := EveryHistoryRuns(cfg, before);
      ss, acts := PlayTick(cfg, ss, acts, e.at);
      var s := ss[|acts|];
      assert s.(now := TimeOf(before)).entries == s.entries;
      if e.Call? {
        ss, acts := PlayCall(cfg, ss, acts, e.ip);
        PlayedCall(cfg, s, ss[|acts|], before, e);
      } else {
        ss, acts := PlaySweep(cfg, ss, acts);
        PlayedSweep(cfg, s, ss[|acts|], before, e);
      }
    }
  }

  lemma NothingPlayed(cfg: Config)
    ensures Played(cfg, INIT, [])
  {
  }

  // ----- The failing history -----

  /** Drain the bucket, rest just past the sweep's limit, sweep, drain again. */
  function TwoDrains(cfg: Config, ip: Ip, t: real): seq<Event>
    requires 0 < cfg.burst
  {
    Drain(cfg, ip) + [Sweep(t)] + Repeat(Call(ip, t), cfg.burst)
  }

  lemma TwoDrainsAccepted(cfg: Config, ip: Ip, t: real)
    requires 0 < cfg.burst && t > IDLE_SECONDS
    ensures |AcceptedTimes(cfg, TwoDrains(cfg, ip, t), ip)| == 2 * cfg.burst
  {
    hide Reach, AcceptedTimes, Repeat;
    var swept := Drain(cfg, ip) + [Sweep(t)];
    assert [] + Drain(cfg, ip) == Drain(cfg, ip);
    NothingReached(cfg, ip);
    FreshDrain(cfg, [], ip, 0.0, cfg.burst);
    AcceptedTimesOneMore(cfg, Drain(cfg, ip), Sweep(t), ip);
    SweptAway(cfg, ip, t);
    FreshDrain(cfg, swept, ip, t, cfg.burst);
  }

  lemma NothingReached(cfg: Config, ip: Ip)
    ensures ip !in Reach(cfg, []) && AcceptedTimes(cfg, [], ip) == []
  {
  }

  lemma TwoDrainsOrdered(cfg: Config, ip: Ip, t: real)
    requires 0 < cfg.burst && 0.0 <= t
    ensures
      var es := TwoDrains(cfg, ip, t);
      && Ordered(es) && (forall i :: 0 <= i < |es| ==> 0.0 <= es[i].at <= t)
      && (forall e :: e in es && e.Call? ==> e.ip == ip)
  {
    var es := TwoDrains(cfg, ip, t);
    assert forall i :: 0 <= i < |es| ==> es[i].at == if i < cfg.burst then 0.0 else t;
  }

  lemma {:induction false} AllInWindow(cfg: Config, es: seq<Event>, ip: Ip, from: real, to: real)
    requires forall i :: 0 <= i < |es| ==> from <= es[i].at <= to
    ensures InWindow(AcceptedTimes(cfg, es, ip), from, to) == |AcceptedTimes(cfg, es, ip)|
  {
    hide Answer, Reach, AcceptedTimes, InWindow;
    if es == [] {
      NoneInWindow(cfg, ip, from, to);
      NothingReached(cfg, ip);
    } else {
      var before, e := es[..|es| - 1], es[|es| - 1];
      assert before + [e] == es;
      AllInWindow(cfg, before, ip, from, to);
      AcceptedTimesOneMore(cfg, before, e, ip);
      InWindowOneMore(AcceptedTimes(cfg, before, ip), e.at, from, to);
    }
  }

  lemma {:induction false} OnlyItsCalls(es: seq<Event>, ip: Ip)
    requires forall e :: e in es && e.Call? ==> e.ip == ip
    ensures CallsAt(ip, CallTimes(es, ip)) == CallsOnly(es)
  {
    if es != [] {
      OnlyItsCalls(es[..|es| - 1], ip);
    }
  }

  lemma {:induction false} AcceptedAtMost(cfg: Config, es: seq<Event>, ip: Ip)
    ensures |AcceptedTimes(cfg, es, ip)| <= |es|
  {
    hide Answer, Reach;
    if es != [] {
      AcceptedAtMost(cfg, es[..|es| - 1], ip);
    }
  }

  /** A limiter that forgets nothing refuses the last call of the two drains. */
  lemma TwoDrainsRemembered(cfg: Config, ip: Ip, t: real)
    requires 0 < cfg.burst && 0.0 <= t && Earned(cfg, t) < cfg.Cap()
    ensures |AcceptedTimes(cfg, CallsOnly(TwoDrains(cfg, ip, t)), ip)| < 2 * cfg.burst
  {
    hide Answer, AcceptedTimes, Earned, CallsOnly;
    var c := Call(ip, t);
    var calls := Drain(cfg, ip) + Repeat(c, cfg.burst - 1);
    RepeatedCalls(ip, 0.0, cfg.burst);
    RepeatedCalls(ip, t, cfg.burst);
    CallsAroundSweep(Drain(cfg, ip), t, Repeat(c, cfg.burst));
    RepeatOneMore(Drain(cfg, ip), c, cfg.burst - 1);
    RememberingRefuses(cfg, ip, t);
    AcceptedTimesOneMore(cfg, calls, c, ip);
    AcceptedAtMost(cfg, calls, ip);
  }

  // ----- Exact conditions -----

  /** In every run, what the entries in the map grant an IP is what the sequential limiter
      grants the same spends. */
  ghost predicate SpendsFollow(cfg: Config) {
    forall ss: seq<State>, acts: seq<Action>, i: nat, ip | IsRun(cfg, ss, acts) && i < |ss| ::
      Times(ss[i].past.spent, ip) == AcceptedTimes(cfg, Spends(ss[i], ip), ip)
  }

  /** In every run and every window the bound holds. */
  ghost predicate WindowsBounded(cfg: Config) {
    forall ss: seq<State>, acts: seq<Action>, i: nat, ip, from, length |
      IsRun(cfg, ss, acts) && i < |ss| && 0.0 <= length ::
      Bounded(cfg, ss[i], ip, from, length)
  }

  lemma TwoDrainsRun(cfg: Config) returns (ss: seq<State>, acts: seq<Action>, ip: Ip, t: real)
    requires 0 < cfg.burst && cfg.Cap() > Earned(cfg, IDLE_SECONDS)
    ensures IsRun(cfg, ss, acts) && |ss| == |acts| + 1 && 0.0 <= t && Earned(cfg, t) < cfg.Cap()
    ensures
      var s := ss[|acts|];
      && |Times(s.past.spent, ip)| == InWindow(Times(s.past.spent, ip), 0.0, t) == 2 * cfg.burst
      && s.past.orphaned == map[]
      && |AcceptedTimes(cfg, Spends(s, ip), ip)| < 2 * cfg.burst
  {
    hide AcceptedTimes, InWindow, Earned, Reach, CallTimes, CallsOnly, Ordered, TwoDrains;
    ip := "10.0.0.1";
    t := ShortRest(cfg);
    var es := TwoDrains(cfg, ip, t);
    TwoDrainsOrdered(cfg, ip, t);
    ss, acts := EveryHistoryRuns(cfg, es);
    TwoDrainsAccepted(cfg, ip, t);
    AllInWindow(cfg, es, ip, 0.0, t);
    OnlyItsCalls(es, ip);
    TwoDrainsRemembered(cfg, ip, t);
  }

  /** Interleaved calls are granted as sequential ones are, if and only if idle entries are full
      when they are swept. */
  lemma SpendsFollowIff(cfg: Config)
    ensures SpendsFollow(cfg) <==> cfg.burst <= 0 || cfg.burst as real <= 600.0 * cfg.rps
  {
    EarnedIs(cfg, 600.0);
    hide AcceptedTimes, Earned, IsRun;
    if cfg.burst <= 0 || cfg.burst as real <= 600.0 * cfg.rps {
      forall ss: seq<State>, acts: seq<Action>, i: nat, ip | IsRun(cfg, ss, acts) && i < |ss|
        ensures Times(ss[i].past.spent, ip) == AcceptedTimes(cfg, Spends(ss[i], ip), ip)
      {
        SpendsFollowAt(cfg, ss, acts, i, ip);
      }
    } else {
      var ss, acts, ip, t := TwoDrainsRun(cfg);
      assert |acts| < |ss|;
    }
  }

  /** The bound holds in every window of every run, if and only if the burst is not negative and
      idle entries are full when they are swept. */
  lemma WindowsBoundedIff(cfg: Config)
    ensures WindowsBounded(cfg) <==> 0 <= cfg.burst && cfg.burst as real <= 600.0 * cfg.rps
  {
    EarnedIs(cfg, 600.0);
    hide AcceptedTimes, Earned;
    if ForgetsOnlyFull(cfg) {
      forall ss: seq<State>, acts: seq<Action>, i: nat, ip, from, length |
        IsRun(cfg, ss, acts) && i < |ss| && 0.0 <= length
        ensures Bounded(cfg, ss[i], ip, from, length)
      {
        AcceptedInWindow(cfg, ss, acts, i, ip, from, length);
      }
    } else if 0 < cfg.burst {
      var ss, acts, ip, t := TwoDrainsRun(cfg);
      EarnedIs(cfg, t);
      assert 0.0 + t == t;
      assert !Bounded(cfg, ss[|acts|], ip, 0.0, t);
    } else {
      EmptyRunUnbounded(cfg);
    }
  }

  /** With no burst, or less, the bound is negative for some window of the empty run. */
  lemma EmptyRunUnbounded(cfg: Config)
    requires cfg.burst < 0 || (cfg.burst == 0 && Earned(cfg, IDLE_SECONDS) < 0.0)
    ensures !WindowsBounded(cfg)
  {
    assert IsRun(cfg, [INIT], []);
    EarnedIs(cfg, IDLE_SECONDS);
    if cfg.burst < 0 {
      assert !Bounded(cfg, [INIT][0], "", 0.0, 0.0);
    } else {
      assert !Bounded(cfg, [INIT][0], "", 0.0, IDLE_SECONDS);
    }
  }
}

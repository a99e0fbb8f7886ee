/** What interleaved calls are granted: the spends from an IP's entry in the map are decided as
    the sequential limiter decides the same calls in the same order, whatever lookups and sweeps
    run in between. So every window bound of the sequential limiter carries over. */
module RateLimitSpends {
  import opened Options
  import opened RateLimit
  import opened RateLimitLocks

  function CallsAt(ip: Ip, times: seq<real>): (es: seq<Event>)
    ensures |es| == |times| && forall i :: 0 <= i < |times| ==> es[i] == Call(ip, times[i])
  {
    seq(|times|, i requires 0 <= i < |times| => Call(ip, times[i]))
  }

  /** The sequential limiter's history: the spends of `ip` from the entry in the map. */
  function Spends(s: State, ip: Ip): (es: seq<Event>)
    ensures SweepFree(es)
  {
    CallsAt(ip, Times(s.past.tried, ip))
  }

  ghost predicate SpendsMapped(s: State, a: Action, ip: Ip) {
    && a.Spend? && a.t in s.pcs && s.pcs[a.t].InEntry? && s.pcs[a.t].ip == ip
    && ip in s.entries && s.entries[ip] == s.pcs[a.t].e
  }

  // ----- Agreement of two buckets -----

  function Mapped(s: State, ip: Ip): Option<Bucket> {
    if ip in s.entries && s.entries[ip] in s.heap then Some(s.heap[s.entries[ip]]) else None
  }

  function Kept(cfg: Config, es: seq<Event>, ip: Ip): Option<Bucket> {
    if ip in Reach(cfg, es) then Some(Reach(cfg, es)[ip]) else None
  }

  function OrNew(cfg: Config, b: Option<Bucket>, now: real): Bucket {
    if b.Some? then b.value else Bucket(cfg.Cap(), now)
  }

  predicate Full(cfg: Config, b: Option<Bucket>, now: real) {
    b.Some? ==> Refilled(cfg, b.value, now) == cfg.Cap()
  }

  /** Two buckets that will grant the same from now on; a missing one is a full one. */
  ghost predicate Agree(cfg: Config, b: Option<Bucket>, c: Option<Bucket>, now: real) {
    || (Full(cfg, b, now) && Full(cfg, c, now))
    || (b.Some? && c.Some? && SameRefill(cfg, b.value, c.value))
  }

  predicate ForgetsOnlyFull(cfg: Config) {
    0 <= cfg.burst && cfg.burst as real <= 600.0 * cfg.rps
  }

  lemma FullLater(cfg: Config, b: Option<Bucket>, now: real, later: real)
    requires 0.0 <= cfg.rps && Full(cfg, b, now) && now <= later
    ensures Full(cfg, b, later)
  {
    if b.Some? {
      EarnedGrows(cfg, now - b.value.lastSeen, later - b.value.lastSeen);
    }
    hide Earned;
  }

  lemma NewIsFull(cfg: Config, now: real)
    ensures Refilled(cfg, Bucket(cfg.Cap(), now), now) == cfg.Cap()
  {
    EarnedIsLinear(cfg, now, now);
    hide Earned;
  }

  lemma AgreeSpend(cfg: Config, b: Option<Bucket>, c: Option<Bucket>, now: real)
    requires Agree(cfg, b, c, now)
    ensures SpendFrom(cfg, OrNew(cfg, b, now), now) == SpendFrom(cfg, OrNew(cfg, c, now), now)
  {
    NewIsFull(cfg, now);
    if b.Some? && c.Some? && SameRefill(cfg, b.value, c.value) {
      SameRefillSameSpend(cfg, b.value, c.value, now);
    } else {
      hide Refilled;
    }
  }

  lemma AgreeEvict(cfg: Config, b: Bucket, c: Option<Bucket>, now: real)
    requires ForgetsOnlyFull(cfg) && Agree(cfg, Some(b), c, now) && 0.0 <= b.tokens && Stale(b, now)
    ensures Agree(cfg, None, c, now)
  {
    EarnedIs(cfg, IDLE_SECONDS);
    IdleBucketIsFull(cfg, b, now);
    if c.Some? && SameRefill(cfg, b, c.value) {
      EarnedIsLinear(cfg, now, b.lastSeen);
      EarnedIsLinear(cfg, now, c.value.lastSeen);
    }
    hide Earned;
  }

  // ----- The invariant -----

  predicate Wholesome(b: Option<Bucket>, now: real) {
    b.Some? ==> 0.0 <= b.value.tokens && b.value.lastSeen <= now
  }

  ghost predicate Follows(cfg: Config, s: State, ip: Ip) {
    && Times(s.past.spent, ip) == AcceptedTimes(cfg, Spends(s, ip), ip)
    && Agree(cfg, Mapped(s, ip), Kept(cfg, Spends(s, ip), ip), s.now)
    && Wholesome(Mapped(s, ip), s.now)
  }

  lemma FollowsLater(cfg: Config, s: State, s': State, ip: Ip)
    requires ForgetsOnlyFull(cfg) && Follows(cfg, s, ip)
    requires s.now <= s'.now && s'.past == s.past && Mapped(s', ip) == Mapped(s, ip)
    ensures Follows(cfg, s', ip)
  {
    EarnedIs(cfg, IDLE_SECONDS);
    RateIsNonNegative(cfg);
    var b, c := Mapped(s, ip), Kept(cfg, Spends(s, ip), ip);
    if Full(cfg, b, s.now) && Full(cfg, c, s.now) {
      FullLater(cfg, b, s.now, s'.now);
      FullLater(cfg, c, s.now, s'.now);
    }
    hide Full, Kept, Mapped, AcceptedTimes;
  }

  lemma FollowsSpend(cfg: Config, s: State, s': State, ip: Ip)
    requires ForgetsOnlyFull(cfg) && Follows(cfg, s, ip) && Mapped(s, ip).Some? && s'.now == s.now
    requires
      var (b, ok) := SpendFrom(cfg, Mapped(s, ip).value, s.now);
      Mapped(s', ip) == Some(b) && s'.past == Recorded(s.past, ip, true, ok, s.now)
    ensures Follows(cfg, s', ip)
  {
    hide SpendFrom, Earned, Reach, AcceptedTimes, Full, SameRefill;
    EarnedIs(cfg, IDLE_SECONDS);
    RateIsNonNegative(cfg);
    var es, b := Spends(s, ip), Mapped(s, ip);
    var c := Call(ip, s.now);
    assert Spends(s', ip) == es + [c];
    AcceptedTimesOneMore(cfg, es, c, ip);
    ReachOneMore(cfg, es, c);
    AgreeSpend(cfg, b, Kept(cfg, es, ip), s.now);
    SpendKeepsNonNegative(cfg, b.value, s.now);
    SpendStamps(cfg, b.value, s.now);
    SameAsItself(cfg, Mapped(s', ip).value);
    assert Kept(cfg, es + [c], ip) == Mapped(s', ip);
  }

  lemma SpendStamps(cfg: Config, b: Bucket, now: real)
    ensures SpendFrom(cfg, b, now).0.lastSeen == now
  {
  }

  lemma SameAsItself(cfg: Config, b: Bucket)
    ensures SameRefill(cfg, b, b)
  {
  }

  lemma FollowsStep(cfg: Config, s: State, a: Action, ip: Ip)
    requires ForgetsOnlyFull(cfg) && EntriesMatch(s) && Enabled(s, a) && Follows(cfg, s, ip)
    ensures Follows(cfg, Next(cfg, s, a), ip)
  {
    hide SpendFrom, Agree, AcceptedTimes, Kept, Wholesome;
    var s' := Next(cfg, s, a);
    match a
    case Tick(d) => FollowsLater(cfg, s, s', ip);
    case LookUp(t, e) =>
      if s.pcs[t].ip == ip && ip !in s.entries {
        FollowsNew(cfg, s, s', ip);
      } else {
        FollowsLater(cfg, s, s', ip);
      }
    case Spend(t) =>
      assert Refers(s, t, s.pcs[t].ip, s.pcs[t].e);
      if SpendsMapped(s, a, ip) {
        FollowsSpend(cfg, s, s', ip);
      } else {
        OtherSpend(cfg, s, a, ip);
      }
    case SweepDecide =>
      if s.sweeper.ip == ip && Stale(s.heap[s.entries[ip]], s.now) {
        FollowsEvict(cfg, s, s', ip);
      } else {
        FollowsLater(cfg, s, s', ip);
      }
    case _ => FollowsLater(cfg, s, s', ip);
  }

  lemma FollowsNew(cfg: Config, s: State, s': State, ip: Ip)
    requires Follows(cfg, s, ip) && Mapped(s, ip).None? && 0 <= cfg.burst
    requires s'.now == s.now && s'.past == s.past && Mapped(s', ip) == Some(Bucket(cfg.Cap(), s.now))
    ensures Follows(cfg, s', ip)
  {
    NewIsFull(cfg, s.now);
    hide Refilled, Kept, Mapped, AcceptedTimes;
  }

  lemma FollowsEvict(cfg: Config, s: State, s': State, ip: Ip)
    requires ForgetsOnlyFull(cfg) && Follows(cfg, s, ip) && Mapped(s, ip).Some? && Stale(Mapped(s, ip).value, s.now)
    requires s'.now == s.now && s'.past == s.past && Mapped(s', ip) == None
    ensures Follows(cfg, s', ip)
  {
    hide Kept, Mapped, AcceptedTimes, Agree, Stale;
    AgreeEvict(cfg, Mapped(s, ip).value, Kept(cfg, Spends(s, ip), ip), s.now);
  }

  /** A spend of another IP, or from an orphan, does not touch this IP's entry. */
  lemma OtherSpend(cfg: Config, s: State, a: Action, ip: Ip)
    requires EntriesMatch(s) && Enabled(s, a) && a.Spend? && !SpendsMapped(s, a, ip) && Follows(cfg, s, ip)
    ensures Follows(cfg, Next(cfg, s, a), ip)
  {
    hide SpendFrom, Agree, AcceptedTimes, Kept, Wholesome;
    var s' := Next(cfg, s, a);
    assert Refers(s, a.t, s.pcs[a.t].ip, s.pcs[a.t].e);
    assert Mapped(s', ip) == Mapped(s, ip);
    assert Times(s'.past.tried, ip) == Times(s.past.tried, ip) && Times(s'.past.spent, ip) == Times(s.past.spent, ip);
  }

  lemma {:induction false} AlwaysFollows(cfg: Config, ss: seq<State>, acts: seq<Action>, i: nat, ip: Ip)
    requires ForgetsOnlyFull(cfg) && IsRun(cfg, ss, acts) && i < |ss|
    ensures Follows(cfg, ss[i], ip)
  {
    if i == 0 {
      assert ss[0] == INIT;
    } else {
      hide Next, Enabled, EntriesMatch, LocksMatch, Follows;
      assert StepAt(cfg, ss, acts, i - 1);
      AlwaysFollows(cfg, ss, acts, i - 1, ip);
      LocksAlwaysMatch(cfg, ss, acts, i - 1);
      FollowsStep(cfg, ss[i - 1], acts[i - 1], ip);
    }
  }

  // ----- Without a burst nothing is granted -----

  lemma NoBurstNoSpend(cfg: Config, b: Bucket, now: real)
    requires cfg.burst <= 0
    ensures !SpendFrom(cfg, b, now).1
  {
    hide Earned;
  }

  lemma {:induction false} NoBurstNothingSpent(cfg: Config, ss: seq<State>, acts: seq<Action>, i: nat)
    requires cfg.burst <= 0 && IsRun(cfg, ss, acts) && i < |ss|
    ensures ss[i].past.spent == map[]
  {
    hide SpendFrom;
    if i == 0 {
      assert ss[0] == INIT;
    } else {
      NoBurstNothingSpent(cfg, ss, acts, i - 1);
      assert StepAt(cfg, ss, acts, i - 1);
      var s, a := ss[i - 1], acts[i - 1];
      if a.Spend? {
        NoBurstNoSpend(cfg, s.heap[s.pcs[a.t].e], s.now);
      }
    }
  }

  lemma {:induction false} NoBurstNothingAccepted(cfg: Config, es: seq<Event>, ip: Ip)
    requires cfg.burst <= 0
    ensures AcceptedTimes(cfg, es, ip) == []
  {
    hide Answer, Reach;
    if es != [] {
      var before, e := es[..|es| - 1], es[|es| - 1];
      assert before + [e] == es;
      NoBurstNothingAccepted(cfg, before, ip);
      NoBurstNoAnswer(cfg, before, ip, e.at);
      AcceptedTimesOneMore(cfg, before, e, ip);
    }
  }

  // ----- Theorems -----

  lemma SpendsFollowAt(cfg: Config, ss: seq<State>, acts: seq<Action>, i: nat, ip: Ip)
    requires cfg.burst <= 0 || cfg.burst as real <= 600.0 * cfg.rps
    requires IsRun(cfg, ss, acts) && i < |ss|
    ensures Times(ss[i].past.spent, ip) == AcceptedTimes(cfg, Spends(ss[i], ip), ip)
  {
    if cfg.burst <= 0 {
      NoBurstNothingSpent(cfg, ss, acts, i);
      NoBurstNothingAccepted(cfg, Spends(ss[i], ip), ip);
    } else {
      AlwaysFollows(cfg, ss, acts, i, ip);
    }
  }

  /** Nothing is refused needlessly under concurrency: a spend from the entry in the map is
      granted if and only if every window over the earlier spends has room for it. */
  lemma SpendGrantedIff(cfg: Config, ss: seq<State>, acts: seq<Action>, i: nat, ip: Ip)
    requires cfg.burst <= 0 || cfg.burst as real <= 600.0 * cfg.rps
    requires IsRun(cfg, ss, acts) && i < |acts| && SpendsMapped(ss[i], acts[i], ip)
    ensures
      var s := ss[i];
      Times(ss[i + 1].past.spent, ip) ==
      if WindowOpen(cfg, Spends(s, ip), ip, s.now) then Times(s.past.spent, ip) + [s.now] else Times(s.past.spent, ip)
  {
    hide WindowOpen, Answer, AcceptedTimes, Reach, SpendFrom, Earned;
    var s, es := ss[i], Spends(ss[i], ip);
    assert StepAt(cfg, ss, acts, i);
    assert Spends(ss[i + 1], ip) == es + [Call(ip, s.now)];
    SpendsFollowAt(cfg, ss, acts, i, ip);
    SpendsFollowAt(cfg, ss, acts, i + 1, ip);
    AcceptedTimesOneMore(cfg, es, Call(ip, s.now), ip);
    AcceptsIffWindowOpen(cfg, es, ip, s.now);
  }

  /** Calls of `ip` accepted in the window, whichever entry they spent from. */
  function AcceptedIn(s: State, ip: Ip, from: real, to: real): nat {
    InWindow(Times(s.past.spent, ip), from, to) + InWindow(Times(s.past.orphaned, ip), from, to)
  }

  /** In the window, at most `burst + rps * length` calls are accepted, plus those that spent
      from an entry swept out between their lookup and their spend. */
  ghost predicate Bounded(cfg: Config, s: State, ip: Ip, from: real, length: real) {
    AcceptedIn(s, ip, from, from + length) as real
    <= cfg.burst as real + cfg.rps * length + InWindow(Times(s.past.orphaned, ip), from, from + length) as real
  }

  lemma AcceptedInWindow(
      cfg: Config, ss: seq<State>, acts: seq<Action>, i: nat, ip: Ip, from: real, length: real)
    requires ForgetsOnlyFull(cfg) && IsRun(cfg, ss, acts) && i < |ss| && 0.0 <= length
    ensures Bounded(cfg, ss[i], ip, from, length)
  {
    hide InWindow, AcceptedTimes, Earned;
    SpendsFollowAt(cfg, ss, acts, i, ip);
    EarnedIs(cfg, IDLE_SECONDS);
    RateIsNonNegative(cfg);
    WindowBound(cfg, Spends(ss[i], ip), ip, from, length);
  }
}

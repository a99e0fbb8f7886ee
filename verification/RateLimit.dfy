/** The in-memory token-bucket limiter: one lazily refilled bucket per IP, and a
    background sweep that forgets buckets idle for more than ten minutes.

    Floats are reals and the clock is a real number of seconds. A limiter's answers
    are a function of its history, so every theorem below speaks about
    `Answer(cfg, es, ip, at)`: what a limiter that has seen the events `es` says to a
    call from `ip` at time `at`. */
module RateLimit {

  const IDLE_SECONDS := 600.0

  type Ip = string

  datatype Config = Config(rps: real, burst: int) {
    function Cap(): real { burst as real }
  }

  datatype Bucket = Bucket(tokens: real, lastSeen: real)

  datatype Event = Call(ip: Ip, at: real) | Sweep(at: real)

  function Min(a: real, b: real): real {
    if a < b then a else b
  }

  /** The tokens earned in `elapsed` seconds. Proofs hide the product and use these laws. */
  function Earned(cfg: Config, elapsed: real): real {
    elapsed * cfg.rps
  }

  lemma EarnedIs(cfg: Config, t: real)
    ensures Earned(cfg, t) == cfg.rps * t && cfg.Cap() == cfg.burst as real
  {
  }

  lemma EarnedIsLinear(cfg: Config, a: real, b: real)
    ensures Earned(cfg, a - b) == Earned(cfg, a) - Earned(cfg, b)
  {
  }

  lemma EarnedGrows(cfg: Config, a: real, b: real)
    requires 0.0 <= cfg.rps && a <= b
    ensures Earned(cfg, a) <= Earned(cfg, b)
  {
    assert (b - a) * cfg.rps >= 0.0;
  }

  /** The tokens a bucket holds at `now`, after the lazy refill. */
  function Refilled(cfg: Config, b: Bucket, now: real): real {
    Min(cfg.Cap(), b.tokens + Earned(cfg, now - b.lastSeen))
  }

  /** The critical section under the entry lock. */
  function SpendFrom(cfg: Config, b: Bucket, now: real): (Bucket, bool) {
    var t := Refilled(cfg, b, now);
    if t < 1.0 then (Bucket(t, now), false) else (Bucket(t - 1.0, now), true)
  }

  /** The critical section under the map lock. */
  function BucketOf(cfg: Config, m: map<Ip, Bucket>, ip: Ip, now: real): Bucket {
    if ip in m then m[ip] else Bucket(cfg.Cap(), now)
  }

  function AllowIn(cfg: Config, m: map<Ip, Bucket>, ip: Ip, now: real): (map<Ip, Bucket>, bool) {
    var (b, ok) := SpendFrom(cfg, BucketOf(cfg, m, ip, now), now);
    (m[ip := b], ok)
  }

  predicate Stale(b: Bucket, now: real) {
    now - b.lastSeen > IDLE_SECONDS
  }

  function SweepIn(m: map<Ip, Bucket>, now: real): map<Ip, Bucket> {
    map ip | ip in m && !Stale(m[ip], now) :: m[ip]
  }

  function After(cfg: Config, m: map<Ip, Bucket>, e: Event): map<Ip, Bucket> {
    match e
    case Call(ip, at) => AllowIn(cfg, m, ip, at).0
    case Sweep(at) => SweepIn(m, at)
  }

  /** The buckets of a limiter that started empty and has seen `es`. */
  function Reach(cfg: Config, es: seq<Event>): map<Ip, Bucket> {
    if es == [] then map[] else After(cfg, Reach(cfg, es[..|es| - 1]), es[|es| - 1])
  }

  lemma ReachOneMore(cfg: Config, es: seq<Event>, e: Event)
    ensures Reach(cfg, es + [e]) == After(cfg, Reach(cfg, es), e)
  {
    hide Earned;
    assert (es + [e])[..|es|] == es;
  }

  predicate Answer(cfg: Config, es: seq<Event>, ip: Ip, at: real) {
    AllowIn(cfg, Reach(cfg, es), ip, at).1
  }

  predicate Ordered(es: seq<Event>) {
    forall i, j :: 0 <= i < j < |es| ==> es[i].at <= es[j].at
  }

  predicate SweepFree(es: seq<Event>) {
    forall e :: e in es ==> e.Call?
  }

  function CallsOnly(es: seq<Event>): (cs: seq<Event>)
    ensures SweepFree(cs)
  {
    if es == [] then []
    else
      var cs := CallsOnly(es[..|es| - 1]);
      if es[|es| - 1].Call? then cs + [es[|es| - 1]] else cs
  }

  // ----- The exact window specification -----

  /** How many calls of `ip` were accepted among events `j`, `j + 1`, ... of `es`. */
  function Accepted(cfg: Config, es: seq<Event>, ip: Ip, j: nat): nat {
    if |es| <= j then 0
    else
      var before, e := es[..|es| - 1], es[|es| - 1];
      Accepted(cfg, before, ip, j) +
      if e.Call? && e.ip == ip && Answer(cfg, before, ip, e.at) then 1 else 0
  }

  predicate CallOf(es: seq<Event>, ip: Ip, j: int) {
    0 <= j < |es| && es[j].Call? && es[j].ip == ip
  }

  /** Every window that starts at an earlier call, or at this one, has room for one more: `burst`
      calls, and `rps` more for each second since. */
  ghost predicate WindowOpen(cfg: Config, es: seq<Event>, ip: Ip, at: real) {
    forall j :: CallOf(es + [Call(ip, at)], ip, j) ==>
      Accepted(cfg, es, ip, j) as real + 1.0 <= cfg.burst as real + cfg.rps * (at - (es + [Call(ip, at)])[j].at)
  }

  /** What a bucket last updated at `b.lastSeen` would have held at time zero. */
  function Base(cfg: Config, b: Bucket): real {
    b.tokens - Earned(cfg, b.lastSeen)
  }

  /** The same for a bucket that was full just before call `j` and was never capped since. */
  function Level(cfg: Config, es: seq<Event>, ip: Ip, j: nat): real
    requires j < |es|
  {
    cfg.Cap() - Accepted(cfg, es, ip, j) as real - Earned(cfg, es[j].at)
  }

  lemma SpendInBases(cfg: Config, b: Bucket, now: real)
    ensures
      var (b', ok) := SpendFrom(cfg, b, now);
      var before := Min(cfg.Cap() - Earned(cfg, now), Base(cfg, b));
      && (ok <==> 1.0 <= before + Earned(cfg, now))
      && Base(cfg, b') == before - if ok then 1.0 else 0.0
  {
    hide Earned;
    EarnedIsLinear(cfg, now, b.lastSeen);
  }

  /** The stored bucket is the lowest level: below all of them, and equal to level `k`. */
  ghost predicate LowestAt(cfg: Config, es: seq<Event>, ip: Ip, k: int) {
    && (ip in Reach(cfg, es) <==> exists j :: CallOf(es, ip, j))
    && (ip in Reach(cfg, es) ==>
          && CallOf(es, ip, k) && Base(cfg, Reach(cfg, es)[ip]) == Level(cfg, es, ip, k)
          && forall j :: CallOf(es, ip, j) ==> Base(cfg, Reach(cfg, es)[ip]) <= Level(cfg, es, ip, j))
  }

  lemma AcceptedOneMore(cfg: Config, es: seq<Event>, e: Event, ip: Ip, j: nat)
    requires j <= |es|
    ensures Accepted(cfg, es + [e], ip, j) ==
            Accepted(cfg, es, ip, j) + if e.Call? && e.ip == ip && Answer(cfg, es, ip, e.at) then 1 else 0
  {
    hide Earned;
    assert (es + [e])[..|es|] == es;
  }

  lemma LowestAfterOther(cfg: Config, es: seq<Event>, e: Event, ip: Ip, k: int)
    requires LowestAt(cfg, es, ip, k) && e.Call? && e.ip != ip
    ensures LowestAt(cfg, es + [e], ip, k)
  {
    hide Earned;
    ReachOneMore(cfg, es, e);
    var es' := es + [e];
    assert forall j :: CallOf(es', ip, j) <==> CallOf(es, ip, j);
    forall j | CallOf(es, ip, j)
      ensures Level(cfg, es', ip, j) == Level(cfg, es, ip, j)
    {
      AcceptedOneMore(cfg, es, e, ip, j);
    }
  }

  lemma LowestAfterCall(cfg: Config, es: seq<Event>, ip: Ip, at: real, k: int) returns (k': int)
    requires LowestAt(cfg, es, ip, k)
    ensures LowestAt(cfg, es + [Call(ip, at)], ip, k')
  {
    hide Earned;
    var n, es' := |es|, es + [Call(ip, at)];
    ReachOneMore(cfg, es, Call(ip, at));
    var b := BucketOf(cfg, Reach(cfg, es), ip, at);
    SpendInBases(cfg, b, at);
    assert CallOf(es', ip, n) && es'[n].at == at;
    forall j | CallOf(es', ip, j)
      ensures j == n || CallOf(es, ip, j)
      ensures Level(cfg, es', ip, j) ==
              (if j == n then cfg.Cap() - Earned(cfg, at) else Level(cfg, es, ip, j))
              - if Answer(cfg, es, ip, at) then 1.0 else 0.0
    {
      AcceptedOneMore(cfg, es, Call(ip, at), ip, j);
    }
    assert forall j :: CallOf(es, ip, j) ==> CallOf(es', ip, j);
    k' := if ip in Reach(cfg, es) && Base(cfg, b) <= cfg.Cap() - Earned(cfg, at) then k else n;
  }

  lemma {:induction false} BucketIsLowestLevel(cfg: Config, es: seq<Event>, ip: Ip) returns (k: int)
    requires SweepFree(es)
    ensures LowestAt(cfg, es, ip, k)
  {
    hide Earned;
    k := 0;
    if es != [] {
      var before, e := es[..|es| - 1], es[|es| - 1];
      k := BucketIsLowestLevel(cfg, before, ip);
      assert before + [e] == es;
      if e.ip != ip {
        LowestAfterOther(cfg, before, e, ip, k);
      } else {
        k := LowestAfterCall(cfg, before, ip, e.at, k);
      }
    }
  }

  ghost predicate Room(cfg: Config, es: seq<Event>, ip: Ip, at: real) {
    forall j :: CallOf(es + [Call(ip, at)], ip, j) ==>
      Accepted(cfg, es, ip, j) as real + 1.0 <= cfg.Cap() + Earned(cfg, at - (es + [Call(ip, at)])[j].at)
  }

  lemma AcceptsIffRoom(cfg: Config, es: seq<Event>, ip: Ip, at: real)
    requires SweepFree(es)
    ensures Answer(cfg, es, ip, at) <==> Room(cfg, es, ip, at)
  {
    hide Earned;
    var k := BucketIsLowestLevel(cfg, es, ip);
    var es' := es + [Call(ip, at)];
    SpendInBases(cfg, BucketOf(cfg, Reach(cfg, es), ip, at), at);
    forall j | CallOf(es', ip, j)
      ensures j == |es| || CallOf(es, ip, j)
      ensures Earned(cfg, at - es'[j].at) == Earned(cfg, at) - Earned(cfg, es'[j].at)
    {
      EarnedIsLinear(cfg, at, es'[j].at);
    }
    assert forall j :: CallOf(es, ip, j) ==> CallOf(es', ip, j);
    assert CallOf(es', ip, |es|) && Accepted(cfg, es, ip, |es|) == 0;
  }

  /** Exact specification of the limiter: a call is accepted if and only if every window
      ending at it has room. Nothing is refused needlessly, for any rate and burst. */
  lemma AcceptsIffWindowOpen(cfg: Config, es: seq<Event>, ip: Ip, at: real)
    requires SweepFree(es)
    ensures Answer(cfg, es, ip, at) <==> WindowOpen(cfg, es, ip, at)
  {
    AcceptsIffRoom(cfg, es, ip, at);
    hide Answer, Accepted, Earned;
    var es' := es + [Call(ip, at)];
    forall j | CallOf(es', ip, j)
      ensures Earned(cfg, at - es'[j].at) == cfg.rps * (at - es'[j].at) && cfg.Cap() == cfg.burst as real
    {
      EarnedIs(cfg, at - es'[j].at);
    }
  }

  lemma EarnedBound(cfg: Config, es: seq<Event>, ip: Ip, at: real, j: nat)
    requires SweepFree(es) && Answer(cfg, es, ip, at) && CallOf(es, ip, j)
    ensures Accepted(cfg, es + [Call(ip, at)], ip, j) as real <= cfg.Cap() + Earned(cfg, at - es[j].at)
  {
    hide Answer, Reach, Earned;
    AcceptsIffRoom(cfg, es, ip, at);
    AcceptedOneMore(cfg, es, Call(ip, at), ip, j);
    assert CallOf(es + [Call(ip, at)], ip, j);
  }

  /** The rate bound: from any call up to an accepted one `length` seconds later, at most
      `burst + rps * length` calls of that IP are accepted. */
  lemma RateBound(cfg: Config, es: seq<Event>, ip: Ip, at: real, j: nat, length: real)
    requires SweepFree(es) && Answer(cfg, es, ip, at) && CallOf(es, ip, j) && length == at - es[j].at
    ensures Accepted(cfg, es + [Call(ip, at)], ip, j) as real <= cfg.burst as real + cfg.rps * length
  {
    EarnedIs(cfg, length);
    hide Answer, Accepted, Earned;
    EarnedBound(cfg, es, ip, at, j);
  }

  /** When the accepted calls of `ip` were made. */
  function AcceptedTimes(cfg: Config, es: seq<Event>, ip: Ip): seq<real> {
    if es == [] then []
    else
      var before, e := es[..|es| - 1], es[|es| - 1];
      AcceptedTimes(cfg, before, ip) +
      if e.Call? && e.ip == ip && Answer(cfg, before, ip, e.at) then [e.at] else []
  }

  lemma AcceptedTimesOneMore(cfg: Config, es: seq<Event>, e: Event, ip: Ip)
    ensures AcceptedTimes(cfg, es + [e], ip) ==
            if e.Call? && e.ip == ip && Answer(cfg, es, ip, e.at) then AcceptedTimes(cfg, es, ip) + [e.at]
            else AcceptedTimes(cfg, es, ip)
  {
    hide Answer, Reach;
    assert (es + [e])[..|es|] == es;
    assert AcceptedTimes(cfg, es, ip) + [] == AcceptedTimes(cfg, es, ip);
  }

  /** How many of the times fall into the closed window. */
  function InWindow(a: seq<real>, from: real, to: real): nat {
    if a == [] then 0
    else InWindow(a[..|a| - 1], from, to) + if from <= a[|a| - 1] <= to then 1 else 0
  }

  lemma InWindowOneMore(a: seq<real>, x: real, from: real, to: real)
    ensures InWindow(a + [x], from, to) == InWindow(a, from, to) + if from <= x <= to then 1 else 0
  {
    assert (a + [x])[..|a|] == a;
  }

  /** Calls before the `j`-th that came before the window do not count in it. */
  lemma {:induction false} OnlyLateCallsCount(cfg: Config, es: seq<Event>, ip: Ip, j: nat, from: real, to: real)
    requires j <= |es| && forall i :: i < j && CallOf(es, ip, i) ==> es[i].at < from
    ensures InWindow(AcceptedTimes(cfg, es, ip), from, to) <= Accepted(cfg, es, ip, j)
  {
    hide Answer, Reach, AcceptedTimes, InWindow;
    if es == [] {
      NoneInWindow(cfg, ip, from, to);
    } else {
      var before, e := es[..|es| - 1], es[|es| - 1];
      assert before + [e] == es;
      assert forall i :: CallOf(before, ip, i) ==> CallOf(es, ip, i) && before[i] == es[i];
      assert e.Call? && e.ip == ip ==> CallOf(es, ip, |es| - 1);
      OnlyLateCallsCount(cfg, before, ip, if j < |es| then j else |before|, from, to);
      AcceptedTimesOneMore(cfg, before, e, ip);
      InWindowOneMore(AcceptedTimes(cfg, before, ip), e.at, from, to);
    }
  }

  lemma NoneInWindow(cfg: Config, ip: Ip, from: real, to: real)
    ensures InWindow(AcceptedTimes(cfg, [], ip), from, to) == 0
  {
  }

  lemma {:induction false} FirstInWindow(es: seq<Event>, ip: Ip, n: nat, from: real) returns (j: nat)
    requires CallOf(es, ip, n) && from <= es[n].at
    ensures j <= n && CallOf(es, ip, j) && from <= es[j].at
    ensures forall i :: i < j && CallOf(es, ip, i) ==> es[i].at < from
    decreases n
  {
    if i: nat :| i < n && CallOf(es, ip, i) && from <= es[i].at {
      j := FirstInWindow(es, ip, i, from);
    } else {
      j := n;
    }
  }

  lemma RoomForOneMore(cfg: Config, es: seq<Event>, ip: Ip, at: real, from: real, to: real)
    requires SweepFree(es) && from <= at <= to && 0.0 <= cfg.rps && Answer(cfg, es, ip, at)
    ensures InWindow(AcceptedTimes(cfg, es, ip), from, to) as real + 1.0 <= cfg.Cap() + Earned(cfg, to - from)
  {
    hide Answer, Reach, AcceptedTimes, InWindow, Accepted, Earned;
    var es' := es + [Call(ip, at)];
    assert CallOf(es', ip, |es|);
    var j := FirstInWindow(es', ip, |es|, from);
    assert forall i :: CallOf(es, ip, i) ==> CallOf(es', ip, i) && es'[i] == es[i];
    OnlyLateCallsCount(cfg, es, ip, j, from, to);
    AcceptsIffRoom(cfg, es, ip, at);
    EarnedGrows(cfg, at - es'[j].at, to - from);
  }

  /** In any window of length T whatever, at most `burst + rps * T` calls of an IP are accepted. */
  lemma {:induction false} AnyWindow(cfg: Config, es: seq<Event>, ip: Ip, from: real, to: real)
    requires SweepFree(es) && from <= to && 0 <= cfg.burst && 0.0 <= cfg.rps
    ensures InWindow(AcceptedTimes(cfg, es, ip), from, to) as real <= cfg.Cap() + Earned(cfg, to - from)
  {
    hide Answer, Reach, AcceptedTimes, InWindow, Accepted, Earned;
    if es == [] {
      NoneInWindow(cfg, ip, from, to);
      EarnedIsLinear(cfg, 0.0, 0.0);
      EarnedGrows(cfg, 0.0, to - from);
    } else {
      var before, e := es[..|es| - 1], es[|es| - 1];
      assert before + [e] == es;
      AnyWindow(cfg, before, ip, from, to);
      AcceptedTimesOneMore(cfg, before, e, ip);
      InWindowOneMore(AcceptedTimes(cfg, before, ip), e.at, from, to);
      if e.ip == ip && Answer(cfg, before, ip, e.at) && from <= e.at <= to {
        RoomForOneMore(cfg, before, ip, e.at, from, to);
      }
    }
  }

  /** In the `length` seconds after `from`, at most `burst + rps * length` calls are accepted. */
  ghost predicate InBound(cfg: Config, es: seq<Event>, ip: Ip, from: real, length: real) {
    InWindow(AcceptedTimes(cfg, es, ip), from, from + length) as real <= cfg.burst as real + cfg.rps * length
  }

  lemma WindowBound(cfg: Config, es: seq<Event>, ip: Ip, from: real, length: real)
    requires SweepFree(es) && 0.0 <= length && 0 <= cfg.burst && 0.0 <= cfg.rps
    ensures InBound(cfg, es, ip, from, length)
  {
    EarnedIs(cfg, length);
    hide InWindow, AcceptedTimes, Earned;
    AnyWindow(cfg, es, ip, from, from + length);
    assert from + length - from == length;
  }

  ghost predicate AnyWindowBounded(cfg: Config) {
    forall es, ip, from, length | SweepFree(es) && 0.0 <= length :: InBound(cfg, es, ip, from, length)
  }

  /** That holds for every history and window if and only if neither rate nor burst is negative:
      else the bound is negative for some window in which nothing happens. */
  lemma AnyWindowIff(cfg: Config)
    ensures AnyWindowBounded(cfg) <==> 0 <= cfg.burst && 0.0 <= cfg.rps
  {
    hide InWindow, AcceptedTimes;
    if 0 <= cfg.burst && 0.0 <= cfg.rps {
      forall es, ip, from, length | SweepFree(es) && 0.0 <= length
        ensures InBound(cfg, es, ip, from, length)
      {
        WindowBound(cfg, es, ip, from, length);
      }
    } else {
      OverdrawnAfter(cfg);
    }
  }

  lemma OverdrawnAfter(cfg: Config)
    requires cfg.burst < 0 || cfg.rps < 0.0
    ensures !AnyWindowBounded(cfg)
  {
    var t := 0.0;
    if cfg.burst >= 0 {
      t := (cfg.burst as real + 1.0) / -cfg.rps;
      assert cfg.rps * t == -(cfg.burst as real + 1.0);
    }
    Overdrawn(cfg, t);
  }

  lemma Overdrawn(cfg: Config, t: real)
    requires 0.0 <= t && cfg.burst as real + cfg.rps * t < 0.0
    ensures !AnyWindowBounded(cfg)
  {
    hide AcceptedTimes, InWindow;
    NoneInWindow(cfg, "", 0.0, 0.0 + t);
    assert SweepFree([]) && !InBound(cfg, [], "", 0.0, t);
  }

  // ----- Sweeps -----

  /** `m` is what a limiter that forgets holds, `n` what one that never forgets holds. */
  ghost predicate Forgot(cfg: Config, m: map<Ip, Bucket>, n: map<Ip, Bucket>, now: real) {
    && m.Keys <= n.Keys
    && (forall ip :: ip in m ==> m[ip] == n[ip])
    && (forall ip :: ip in n ==> 0.0 <= n[ip].tokens && n[ip].lastSeen <= now)
    && (forall ip :: ip in n && ip !in m ==> Stale(n[ip], now))
  }

  lemma RateIsNonNegative(cfg: Config)
    requires 0 <= cfg.burst && cfg.Cap() <= Earned(cfg, IDLE_SECONDS)
    ensures 0.0 <= cfg.rps
  {
  }

  lemma IdleBucketIsFull(cfg: Config, b: Bucket, now: real)
    requires 0 <= cfg.burst && cfg.Cap() <= Earned(cfg, IDLE_SECONDS)
    requires 0.0 <= b.tokens && Stale(b, now)
    ensures Refilled(cfg, b, now) == cfg.Cap()
  {
    RateIsNonNegative(cfg);
    EarnedGrows(cfg, IDLE_SECONDS, now - b.lastSeen);
  }

  lemma SpendKeepsNonNegative(cfg: Config, b: Bucket, now: real)
    requires 0 <= cfg.burst && 0.0 <= cfg.rps && 0.0 <= b.tokens && b.lastSeen <= now
    ensures 0.0 <= SpendFrom(cfg, b, now).0.tokens
  {
    EarnedGrows(cfg, 0.0, now - b.lastSeen);
    assert Earned(cfg, 0.0) == 0.0;
    hide Earned;
  }

  lemma ForgotAfterCall(cfg: Config, m: map<Ip, Bucket>, n: map<Ip, Bucket>, ip: Ip, now: real)
    requires 0 <= cfg.burst && cfg.Cap() <= Earned(cfg, IDLE_SECONDS)
    requires Forgot(cfg, m, n, now)
    ensures Forgot(cfg, AllowIn(cfg, m, ip, now).0, AllowIn(cfg, n, ip, now).0, now)
    ensures AllowIn(cfg, m, ip, now).1 == AllowIn(cfg, n, ip, now).1
  {
    hide Earned;
    RateIsNonNegative(cfg);
    SpendKeepsNonNegative(cfg, BucketOf(cfg, n, ip, now), now);
    EarnedIsLinear(cfg, now, now);
    if ip in n && ip !in m {
      IdleBucketIsFull(cfg, n[ip], now);
    }
    assert SpendFrom(cfg, BucketOf(cfg, m, ip, now), now) == SpendFrom(cfg, BucketOf(cfg, n, ip, now), now);
    assert SpendFrom(cfg, BucketOf(cfg, n, ip, now), now).0.lastSeen == now;
    hide SpendFrom;
  }

  lemma NothingForgot(cfg: Config, now: real)
    ensures Forgot(cfg, map[], map[], now)
  {
  }

  lemma ForgotAfterSweep(cfg: Config, m: map<Ip, Bucket>, n: map<Ip, Bucket>, now: real)
    requires Forgot(cfg, m, n, now)
    ensures Forgot(cfg, SweepIn(m, now), n, now)
  {
  }

  lemma ForgotLater(cfg: Config, m: map<Ip, Bucket>, n: map<Ip, Bucket>, now: real, later: real)
    requires Forgot(cfg, m, n, now) && now <= later
    ensures Forgot(cfg, m, n, later)
  {
  }

  lemma {:induction false} ForgettingKeepsUp(cfg: Config, es: seq<Event>, now: real)
    requires 0 <= cfg.burst && cfg.Cap() <= Earned(cfg, IDLE_SECONDS)
    requires Ordered(es) && (es == [] || es[|es| - 1].at <= now)
    ensures Forgot(cfg, Reach(cfg, es), Reach(cfg, CallsOnly(es)), now)
  {
    hide AllowIn;
    hide Forgot;
    if es == [] {
      NothingForgot(cfg, now);
    } else {
      var before, e := es[..|es| - 1], es[|es| - 1];
      ForgettingKeepsUp(cfg, before, e.at);
      var m, n := Reach(cfg, before), Reach(cfg, CallsOnly(before));
      if e.Call? {
        ForgotAfterCall(cfg, m, n, e.ip, e.at);
        ReachOneMore(cfg, CallsOnly(before), e);
      } else {
        ForgotAfterSweep(cfg, m, n, e.at);
      }
      ForgotLater(cfg, Reach(cfg, es), Reach(cfg, CallsOnly(es)), e.at, now);
    }
  }

  lemma NoBurstNoAnswer(cfg: Config, es: seq<Event>, ip: Ip, at: real)
    requires cfg.burst <= 0
    ensures !Answer(cfg, es, ip, at)
  {
  }

  ghost predicate EvictionInvisible(cfg: Config) {
    forall es: seq<Event>, ip, at | Ordered(es + [Call(ip, at)]) ::
      Answer(cfg, es, ip, at) == Answer(cfg, CallsOnly(es), ip, at)
  }

  lemma EvictionDoesNotShow(cfg: Config, es: seq<Event>, ip: Ip, at: real)
    requires cfg.burst <= 0 || cfg.burst as real <= 600.0 * cfg.rps
    requires Ordered(es + [Call(ip, at)])
    ensures Answer(cfg, es, ip, at) == Answer(cfg, CallsOnly(es), ip, at)
  {
    EarnedIs(cfg, IDLE_SECONDS);
    hide Earned;
    if cfg.burst > 0 {
      var es' := es + [Call(ip, at)];
      assert forall i :: 0 <= i < |es| ==> es'[i] == es[i] && es'[i].at <= es'[|es|].at;
      assert Ordered(es);
      ForgettingKeepsUp(cfg, es, at);
      ForgotAfterCall(cfg, Reach(cfg, es), Reach(cfg, CallsOnly(es)), ip, at);
    } else {
      NoBurstNoAnswer(cfg, es, ip, at);
      NoBurstNoAnswer(cfg, CallsOnly(es), ip, at);
    }
  }

  function Repeat(e: Event, k: nat): (es: seq<Event>)
    ensures |es| == k && forall i :: 0 <= i < k ==> es[i] == e
  {
    if k == 0 then [] else Repeat(e, k - 1) + [e]
  }

  lemma SpendAtOnce(cfg: Config, b: Bucket, t: real)
    ensures
      var r := Refilled(cfg, b, t);
      Refilled(cfg, SpendFrom(cfg, b, t).0, t) == if r < 1.0 then r else r - 1.0
  {
    EarnedIsLinear(cfg, t, t);
    hide Earned;
  }

  lemma SpendOne(cfg: Config, b: Bucket)
    requires 1.0 <= b.tokens <= cfg.Cap()
    ensures SpendFrom(cfg, b, b.lastSeen) == (Bucket(b.tokens - 1.0, b.lastSeen), true)
  {
    EarnedIsLinear(cfg, b.lastSeen, b.lastSeen);
    hide Earned;
  }

  lemma RepeatOneMore(es: seq<Event>, e: Event, k: nat)
    ensures es + Repeat(e, 0) == es
    ensures es + Repeat(e, k + 1) == es + Repeat(e, k) + [e]
  {
  }

  /** From an absent bucket, `k` calls at one instant are all accepted and leave exactly
      `burst - k` tokens. */
  lemma {:induction false} FreshDrain(cfg: Config, es: seq<Event>, ip: Ip, t: real, k: nat)
    requires k <= cfg.burst && ip !in Reach(cfg, es)
    ensures BucketOf(cfg, Reach(cfg, es + Repeat(Call(ip, t), k)), ip, t) == Bucket(cfg.Cap() - k as real, t)
    ensures |AcceptedTimes(cfg, es + Repeat(Call(ip, t), k), ip)| == |AcceptedTimes(cfg, es, ip)| + k
  {
    hide SpendFrom, Reach, Repeat, AcceptedTimes;
    var c := Call(ip, t);
    if k == 0 {
      RepeatOneMore(es, c, 0);
    } else {
      FreshDrain(cfg, es, ip, t, k - 1);
      var es' := es + Repeat(c, k - 1);
      RepeatOneMore(es, c, k - 1);
      ReachOneMore(cfg, es', c);
      AcceptedTimesOneMore(cfg, es', c, ip);
      SpendOne(cfg, Bucket(cfg.Cap() - (k - 1) as real, t));
    }
  }

  lemma SpendWhole(cfg: Config, b: Bucket, t: real, n: nat)
    requires 0 < n && Refilled(cfg, b, t) == n as real
    ensures SpendFrom(cfg, b, t).1 && Refilled(cfg, SpendFrom(cfg, b, t).0, t) == (n - 1) as real
  {
    SpendAtOnce(cfg, b, t);
  }

  /** A bucket that refills to exactly `n` tokens grants `k <= n` calls at one instant and then
      holds `n - k`. */
  lemma {:induction false} ExactDrain(cfg: Config, es: seq<Event>, ip: Ip, t: real, n: nat, k: nat)
    requires k <= n && Refilled(cfg, BucketOf(cfg, Reach(cfg, es), ip, t), t) == n as real
    ensures
      var rest := es + Repeat(Call(ip, t), k);
      && Refilled(cfg, BucketOf(cfg, Reach(cfg, rest), ip, t), t) == (n - k) as real
      && (Answer(cfg, rest, ip, t) <==> k < n)
  {
    hide SpendFrom, Refilled, Reach, Repeat;
    var c := Call(ip, t);
    if k == 0 {
      RepeatOneMore(es, c, 0);
    } else {
      ExactDrain(cfg, es, ip, t, n, k - 1);
      RepeatOneMore(es, c, k - 1);
      ReachOneMore(cfg, es + Repeat(c, k - 1), c);
      SpendWhole(cfg, BucketOf(cfg, Reach(cfg, es + Repeat(c, k - 1)), ip, t), t, n - k + 1);
    }
    var b := BucketOf(cfg, Reach(cfg, es + Repeat(c, k)), ip, t);
    if k < n {
      SpendWhole(cfg, b, t, n - k);
    } else {
      EmptyRefuses(cfg, b, t);
    }
  }

  lemma EmptyRefuses(cfg: Config, b: Bucket, t: real)
    requires Refilled(cfg, b, t) < 1.0
    ensures !SpendFrom(cfg, b, t).1
  {
  }

  lemma {:induction false} NeverCalled(cfg: Config, es: seq<Event>, ip: Ip)
    requires forall e :: e in es && e.Call? ==> e.ip != ip
    ensures ip !in Reach(cfg, es)
  {
    hide SpendFrom;
    if es != [] {
      NeverCalled(cfg, es[..|es| - 1], ip);
    }
  }

  lemma RefilledAfter(cfg: Config, t: real, later: real, k: nat)
    requires 0.0 < cfg.rps && k <= cfg.burst && later == t + k as real / cfg.rps
    ensures Refilled(cfg, Bucket(0.0, t), later) == k as real
  {
    assert later - t == k as real / cfg.rps;
    assert k as real / cfg.rps * cfg.rps == k as real;
  }

  /** An IP that has not called before is granted `burst` calls at one instant and no more; left
      alone for `k / rps` seconds, it is granted exactly `k` more. */
  lemma RefillLaw(cfg: Config, es: seq<Event>, ip: Ip, t: real, k: nat, i: nat)
    requires 0.0 < cfg.rps && k <= cfg.burst && forall e :: e in es && e.Call? ==> e.ip != ip
    ensures i <= cfg.burst ==> (Answer(cfg, es + Repeat(Call(ip, t), i), ip, t) <==> i < cfg.burst)
    ensures
      var drained, later := es + Repeat(Call(ip, t), cfg.burst), t + k as real / cfg.rps;
      i <= k ==> (Answer(cfg, drained + Repeat(Call(ip, later), i), ip, later) <==> i < k)
  {
    hide Reach, Repeat, SpendFrom, Answer;
    var later := t + k as real / cfg.rps;
    NeverCalled(cfg, es, ip);
    EarnedIsLinear(cfg, t, t);
    if i <= cfg.burst {
      ExactDrain(cfg, es, ip, t, cfg.burst, i);
    }
    FreshDrain(cfg, es, ip, t, cfg.burst);
    DrainedIsKept(cfg, es, ip, t, later);
    RefilledAfter(cfg, t, later, k);
    if i <= k {
      ExactDrain(cfg, es + Repeat(Call(ip, t), cfg.burst), ip, later, k, i);
    }
  }

  /** What an IP that has drained its bucket holds is in the map, whatever the time. */
  lemma DrainedIsKept(cfg: Config, es: seq<Event>, ip: Ip, t: real, later: real)
    requires ip !in Reach(cfg, es) && 0 <= cfg.burst
    requires BucketOf(cfg, Reach(cfg, es + Repeat(Call(ip, t), cfg.burst)), ip, t) == Bucket(0.0, t)
    ensures BucketOf(cfg, Reach(cfg, es + Repeat(Call(ip, t), cfg.burst)), ip, later) ==
            Bucket(0.0, if cfg.burst > 0 then t else later)
  {
    hide SpendFrom;
    var c := Call(ip, t);
    RepeatOneMore(es, c, 0);
    if cfg.burst > 0 {
      RepeatOneMore(es, c, cfg.burst - 1);
      ReachOneMore(cfg, es + Repeat(c, cfg.burst - 1), c);
    }
    hide Reach, Repeat;
  }

  /** From a bucket that refills to less than `n` tokens, fewer than `n - k` of them, or less
      than one, are left after `k` calls at one instant. */
  lemma {:induction false} ShortDrain(cfg: Config, es: seq<Event>, ip: Ip, t: real, n: nat, k: nat)
    requires k <= n && ip in Reach(cfg, es) && Refilled(cfg, Reach(cfg, es)[ip], t) < n as real
    ensures
      var m := Reach(cfg, es + Repeat(Call(ip, t), k));
      ip in m && (Refilled(cfg, m[ip], t) < 1.0 || Refilled(cfg, m[ip], t) < (n - k) as real)
  {
    hide SpendFrom, Refilled, Reach, Repeat;
    var c := Call(ip, t);
    if k == 0 {
      RepeatOneMore(es, c, 0);
    } else {
      ShortDrain(cfg, es, ip, t, n, k - 1);
      var es' := es + Repeat(c, k - 1);
      RepeatOneMore(es, c, k - 1);
      ReachOneMore(cfg, es', c);
      SpendAtOnce(cfg, Reach(cfg, es')[ip], t);
    }
  }

  lemma {:induction false} CallsOnlySplits(a: seq<Event>, b: seq<Event>)
    ensures CallsOnly(a + b) == CallsOnly(a) + CallsOnly(b)
  {
    if b == [] {
      assert a + b == a;
    } else {
      CallsOnlySplits(a, b[..|b| - 1]);
      assert (a + b)[..|a + b| - 1] == a + b[..|b| - 1];
    }
  }

  lemma {:induction false} CallsOnlyKeepsCalls(es: seq<Event>)
    requires SweepFree(es)
    ensures CallsOnly(es) == es
  {
    if es != [] {
      CallsOnlyKeepsCalls(es[..|es| - 1]);
    }
  }

  lemma EarnedGrowsStrictly(cfg: Config, a: real, b: real)
    requires 0.0 < cfg.rps
    ensures a < b <==> Earned(cfg, a) < Earned(cfg, b)
  {
    if a < b {
      assert (b - a) * cfg.rps > 0.0;
    } else {
      EarnedGrows(cfg, b, a);
    }
  }

  lemma TimeToEarn(cfg: Config, tokens: real) returns (t: real)
    requires 0.0 < cfg.rps
    ensures Earned(cfg, t) == tokens
  {
    t := tokens / cfg.rps;
  }

  lemma EarnsNothing(cfg: Config, t: real)
    requires cfg.rps <= 0.0 <= t
    ensures Earned(cfg, t) <= 0.0
  {
  }

  /** A time just past the sweep's limit at which an emptied bucket is not full, and had not one
      token when the limit began to count. */
  lemma ShortRest(cfg: Config) returns (t: real)
    requires 0 < cfg.burst && cfg.Cap() > Earned(cfg, IDLE_SECONDS)
    ensures t > IDLE_SECONDS && Earned(cfg, t) < cfg.Cap() && Earned(cfg, t - IDLE_SECONDS) < 1.0
  {
    hide Earned;
    if cfg.rps <= 0.0 {
      t := 601.0;
      EarnsNothing(cfg, t);
      EarnsNothing(cfg, t - IDLE_SECONDS);
    } else {
      var full := TimeToEarn(cfg, cfg.Cap());
      var half := TimeToEarn(cfg, 0.5);
      EarnedGrowsStrictly(cfg, IDLE_SECONDS, full);
      assert Earned(cfg, 0.0) == 0.0 by { EarnedIsLinear(cfg, 0.0, 0.0); }
      EarnedGrowsStrictly(cfg, 0.0, half);
      t := IDLE_SECONDS + Min((full - IDLE_SECONDS) / 2.0, half);
      EarnedGrowsStrictly(cfg, t, full);
      EarnedGrows(cfg, t - IDLE_SECONDS, half);
    }
  }

  /** Empty the bucket at time zero, rest just past the sweep's limit, sweep, ask again. */
  function Drain(cfg: Config, ip: Ip): seq<Event>
    requires 0 < cfg.burst
  {
    Repeat(Call(ip, 0.0), cfg.burst)
  }

  lemma EmptiedBucket(cfg: Config, ip: Ip)
    requires 0 < cfg.burst
    ensures Reach(cfg, Drain(cfg, ip)).Keys == {ip} && Reach(cfg, Drain(cfg, ip))[ip] == Bucket(0.0, 0.0)
  {
    OnlyCaller(cfg, ip, 0.0, cfg.burst);
    assert [] + Drain(cfg, ip) == Drain(cfg, ip);
    FreshDrain(cfg, [], ip, 0.0, cfg.burst);
    hide AllowIn;
  }

  lemma {:induction false} OnlyCaller(cfg: Config, ip: Ip, t: real, k: nat)
    ensures Reach(cfg, Repeat(Call(ip, t), k)).Keys == if k == 0 then {} else {ip}
  {
    if k > 0 {
      OnlyCaller(cfg, ip, t, k - 1);
      ReachOneMore(cfg, Repeat(Call(ip, t), k - 1), Call(ip, t));
      hide SpendFrom;
    }
  }

  lemma SweptAway(cfg: Config, ip: Ip, t: real)
    requires 0 < cfg.burst && t > IDLE_SECONDS
    ensures ip !in Reach(cfg, Drain(cfg, ip) + [Sweep(t)])
  {
    EmptiedBucket(cfg, ip);
    ReachOneMore(cfg, Drain(cfg, ip), Sweep(t));
  }

  lemma ForgetfulAccepts(cfg: Config, ip: Ip, t: real)
    requires 0 < cfg.burst && t > IDLE_SECONDS
    ensures Answer(cfg, Drain(cfg, ip) + [Sweep(t)] + Repeat(Call(ip, t), cfg.burst - 1), ip, t)
  {
    hide Earned, Reach, Repeat;
    SweptAway(cfg, ip, t);
    FreshDrain(cfg, Drain(cfg, ip) + [Sweep(t)], ip, t, cfg.burst - 1);
    EarnedIsLinear(cfg, t, t);
  }

  lemma ShortBucketRefuses(cfg: Config, es: seq<Event>, ip: Ip, t: real)
    requires 0 < cfg.burst && ip in Reach(cfg, es) && Refilled(cfg, Reach(cfg, es)[ip], t) < cfg.Cap()
    ensures !Answer(cfg, es + Repeat(Call(ip, t), cfg.burst - 1), ip, t)
  {
    ShortDrain(cfg, es, ip, t, cfg.burst, cfg.burst - 1);
    hide Refilled, Repeat, Reach;
  }

  lemma RememberingRefuses(cfg: Config, ip: Ip, t: real)
    requires 0 < cfg.burst && Earned(cfg, t) < cfg.Cap()
    ensures !Answer(cfg, Drain(cfg, ip) + Repeat(Call(ip, t), cfg.burst - 1), ip, t)
  {
    hide Earned;
    EmptiedBucket(cfg, ip);
    assert t - 0.0 == t;
    ShortBucketRefuses(cfg, Drain(cfg, ip), ip, t);
  }

  lemma CallsAroundSweep(a: seq<Event>, t: real, b: seq<Event>)
    requires SweepFree(a) && SweepFree(b)
    ensures CallsOnly(a + [Sweep(t)] + b) == a + b
  {
    CallsOnlySplits(a + [Sweep(t)], b);
    CallsOnlySplits(a, [Sweep(t)]);
    CallsOnlyKeepsCalls(a);
    CallsOnlyKeepsCalls(b);
    assert CallsOnly([Sweep(t)]) == [];
  }

  lemma OrderedAroundSweep(ip: Ip, n: nat, t: real, k: nat)
    requires 0.0 <= t
    ensures Ordered(Repeat(Call(ip, 0.0), n) + [Sweep(t)] + Repeat(Call(ip, t), k) + [Call(ip, t)])
  {
    var es := Repeat(Call(ip, 0.0), n) + [Sweep(t)] + Repeat(Call(ip, t), k) + [Call(ip, t)];
    assert forall i :: 0 <= i < |es| ==> es[i].at == if i < n then 0.0 else t;
  }

  lemma EvictionShows(cfg: Config)
    requires 0 < cfg.burst && cfg.burst as real > 600.0 * cfg.rps
    ensures !EvictionInvisible(cfg)
  {
    EarnedIs(cfg, IDLE_SECONDS);
    hide Answer, CallsOnly, Repeat, Ordered, Earned;
    var ip := "10.0.0.1";
    var t := ShortRest(cfg);
    var rest := Repeat(Call(ip, t), cfg.burst - 1);
    var es := Drain(cfg, ip) + [Sweep(t)] + rest;
    ForgetfulAccepts(cfg, ip, t);
    RememberingRefuses(cfg, ip, t);
    RepeatedCalls(ip, 0.0, cfg.burst);
    RepeatedCalls(ip, t, cfg.burst - 1);
    CallsAroundSweep(Drain(cfg, ip), t, rest);
    OrderedAroundSweep(ip, cfg.burst, t, cfg.burst - 1);
    assert Ordered(es + [Call(ip, t)]);
  }

  lemma RepeatedCalls(ip: Ip, t: real, k: nat)
    ensures SweepFree(Repeat(Call(ip, t), k))
  {
  }

  /** Forgetting idle entries never changes an answer, if and only if an idle entry is
      certainly full when it is forgotten. */
  lemma EvictionInvisibleIff(cfg: Config)
    ensures EvictionInvisible(cfg) <==> cfg.burst <= 0 || cfg.burst as real <= 600.0 * cfg.rps
  {
    EarnedIs(cfg, IDLE_SECONDS);
    if cfg.burst <= 0 || cfg.burst as real <= 600.0 * cfg.rps {
      forall es: seq<Event>, ip, at | Ordered(es + [Call(ip, at)])
        ensures Answer(cfg, es, ip, at) == Answer(cfg, CallsOnly(es), ip, at)
      {
        EvictionDoesNotShow(cfg, es, ip, at);
      }
    } else {
      EvictionShows(cfg);
    }
  }

  /** The three limiters the server builds forget without showing it, so they follow the
      exact window specification with sweeps running at arbitrary moments. */
  lemma ServerLimitersAreExact(cfg: Config, es: seq<Event>, ip: Ip, at: real)
    requires cfg in {Config(5.0 / 60.0, 5), Config(60.0 / 60.0, 60), Config(10.0 / 60.0, 10)}
    requires Ordered(es + [Call(ip, at)])
    ensures Answer(cfg, es, ip, at) <==> WindowOpen(cfg, CallsOnly(es), ip, at)
  {
    EvictionDoesNotShow(cfg, es, ip, at);
    AcceptsIffWindowOpen(cfg, CallsOnly(es), ip, at);
  }

  // ----- Calls that do not matter -----

  function WithoutOthers(es: seq<Event>, ip: Ip): seq<Event> {
    if es == [] then []
    else
      var r := WithoutOthers(es[..|es| - 1], ip);
      var e := es[|es| - 1];
      if e.Call? && e.ip != ip then r else r + [e]
  }

  ghost predicate AgreeOn(m: map<Ip, Bucket>, n: map<Ip, Bucket>, ip: Ip) {
    (ip in m <==> ip in n) && (ip in m ==> m[ip] == n[ip])
  }

  lemma {:induction false} OthersLeaveNoTrace(cfg: Config, es: seq<Event>, ip: Ip)
    ensures AgreeOn(Reach(cfg, es), Reach(cfg, WithoutOthers(es, ip)), ip)
  {
    hide Earned;
    if es != [] {
      var before, e := es[..|es| - 1], es[|es| - 1];
      OthersLeaveNoTrace(cfg, before, ip);
      var r := WithoutOthers(before, ip) + [e];
      assert r[..|r| - 1] == WithoutOthers(before, ip);
    }
  }

  /** Deleting every call of other IPs leaves this IP's answers unchanged, sweeps included. */
  lemma OtherIpsDoNotMatter(cfg: Config, es: seq<Event>, ip: Ip, at: real)
    ensures Answer(cfg, es, ip, at) == Answer(cfg, WithoutOthers(es, ip), ip, at)
  {
    OthersLeaveNoTrace(cfg, es, ip);
  }

  /** Two buckets that refill to the same level at every moment. */
  ghost predicate SameRefill(cfg: Config, b: Bucket, c: Bucket) {
    Base(cfg, b) == Base(cfg, c)
  }

  ghost predicate SameBehaviour(cfg: Config, m: map<Ip, Bucket>, n: map<Ip, Bucket>) {
    m.Keys == n.Keys && forall ip :: ip in m ==> SameRefill(cfg, m[ip], n[ip])
  }

  lemma SameRefillSameSpend(cfg: Config, b: Bucket, c: Bucket, now: real)
    requires SameRefill(cfg, b, c)
    ensures SpendFrom(cfg, b, now) == SpendFrom(cfg, c, now)
  {
    hide Earned;
    EarnedIsLinear(cfg, now, b.lastSeen);
    EarnedIsLinear(cfg, now, c.lastSeen);
  }

  lemma RefusalOnlyMovesTheMark(cfg: Config, b: Bucket, now: real)
    requires 1 <= cfg.burst && !SpendFrom(cfg, b, now).1
    ensures SameRefill(cfg, SpendFrom(cfg, b, now).0, b)
  {
    hide Earned;
    EarnedIsLinear(cfg, now, b.lastSeen);
  }

  lemma NewBucketIsNotRefused(cfg: Config, now: real)
    requires 1 <= cfg.burst
    ensures SpendFrom(cfg, Bucket(cfg.Cap(), now), now).1
  {
    EarnedIsLinear(cfg, now, now);
    hide Earned;
  }

  lemma SameBehaviourCall(cfg: Config, m: map<Ip, Bucket>, n: map<Ip, Bucket>, ip: Ip, at: real)
    requires SameBehaviour(cfg, m, n)
    ensures SameBehaviour(cfg, AllowIn(cfg, m, ip, at).0, AllowIn(cfg, n, ip, at).0)
    ensures AllowIn(cfg, m, ip, at).1 == AllowIn(cfg, n, ip, at).1
  {
    if ip in m {
      SameRefillSameSpend(cfg, m[ip], n[ip], at);
    }
    hide SpendFrom;
  }

  lemma SameBehaviourRefused(cfg: Config, m: map<Ip, Bucket>, ip: Ip, at: real)
    requires 1 <= cfg.burst && !AllowIn(cfg, m, ip, at).1
    ensures SameBehaviour(cfg, AllowIn(cfg, m, ip, at).0, m)
  {
    RefusalOnlyMovesTheMark(cfg, BucketOf(cfg, m, ip, at), at);
    NewBucketIsNotRefused(cfg, at);
    hide SpendFrom;
  }

  lemma {:induction false} SameBehaviourAfter(cfg: Config, pre: seq<Event>, c: Event, post: seq<Event>)
    requires 1 <= cfg.burst && c.Call? && !Answer(cfg, pre, c.ip, c.at) && SweepFree(post)
    ensures SameBehaviour(cfg, Reach(cfg, pre + [c] + post), Reach(cfg, pre + post))
  {
    hide AllowIn, SameBehaviour, Reach;
    if post == [] {
      assert pre + [c] + post == pre + [c] && pre + post == pre;
      ReachOneMore(cfg, pre, c);
      SameBehaviourRefused(cfg, Reach(cfg, pre), c.ip, c.at);
    } else {
      var rest, e := post[..|post| - 1], post[|post| - 1];
      SameBehaviourAfter(cfg, pre, c, rest);
      assert pre + [c] + post == pre + [c] + rest + [e] && pre + post == pre + rest + [e];
      ReachOneMore(cfg, pre + [c] + rest, e);
      ReachOneMore(cfg, pre + rest, e);
      SameBehaviourCall(cfg, Reach(cfg, pre + [c] + rest), Reach(cfg, pre + rest), e.ip, e.at);
    }
  }

  /** Deleting a refused call leaves every later answer, to every IP, unchanged. */
  lemma RefusedCallsDoNotMatter(cfg: Config, pre: seq<Event>, c: Event, post: seq<Event>, ip: Ip, at: real)
    requires c.Call? && !Answer(cfg, pre, c.ip, c.at) && SweepFree(post)
    ensures Answer(cfg, pre + [c] + post, ip, at) == Answer(cfg, pre + post, ip, at)
  {
    hide Earned;
    if 1 <= cfg.burst {
      SameBehaviourAfter(cfg, pre, c, post);
      SameBehaviourCall(cfg, Reach(cfg, pre + [c] + post), Reach(cfg, pre + post), ip, at);
    }
  }

  lemma OrderedParts(pre: seq<Event>, c: Event, rest: seq<Event>)
    requires Ordered(pre + [c] + rest)
    ensures Ordered(pre + [c]) && Ordered(pre + rest)
  {
    var all, less := pre + [c] + rest, pre + rest;
    assert forall i :: 0 <= i <= |pre| ==> (pre + [c])[i] == all[i];
    assert forall i :: 0 <= i < |less| ==> less[i] == all[if i < |pre| then i else i + 1];
  }

  lemma CallsOnlyAround(pre: seq<Event>, c: Event, post: seq<Event>)
    requires c.Call?
    ensures CallsOnly(pre + [c] + post) == CallsOnly(pre) + [c] + CallsOnly(post)
    ensures CallsOnly(pre + post) == CallsOnly(pre) + CallsOnly(post)
  {
    CallsOnlySplits(pre + [c], post);
    CallsOnlySplits(pre, [c]);
    CallsOnlySplits(pre, post);
    CallsOnlyKeepsCalls([c]);
  }

  /** The same with sweeps anywhere, for the limiters whose sweeps do not show. */
  lemma RefusedCallsDoNotMatterWithSweeps(
      cfg: Config, pre: seq<Event>, c: Event, post: seq<Event>, ip: Ip, at: real)
    requires cfg.burst <= 0 || cfg.burst as real <= 600.0 * cfg.rps
    requires c.Call? && !Answer(cfg, pre, c.ip, c.at) && Ordered(pre + [c] + post + [Call(ip, at)])
    ensures Answer(cfg, pre + [c] + post, ip, at) == Answer(cfg, pre + post, ip, at)
  {
    EarnedIs(cfg, IDLE_SECONDS);
    hide Earned, Answer, Ordered, CallsOnly;
    var call := Call(ip, at);
    assert pre + [c] + post + [call] == pre + [c] + (post + [call]) && pre + post + [call] == pre + (post + [call]);
    OrderedParts(pre, c, post + [call]);
    assert c == Call(c.ip, c.at);
    EvictionDoesNotShow(cfg, pre + [c] + post, ip, at);
    EvictionDoesNotShow(cfg, pre + post, ip, at);
    EvictionDoesNotShow(cfg, pre, c.ip, c.at);
    CallsOnlyAround(pre, c, post);
    RefusedCallsDoNotMatter(cfg, CallsOnly(pre), c, CallsOnly(post), ip, at);
  }

  /** In an ordered history, the call `c` between `pre` and `post` is refused. */
  ghost predicate RefusedIn(cfg: Config, pre: seq<Event>, c: Event, post: seq<Event>, ip: Ip, at: real) {
    c.Call? && !Answer(cfg, pre, c.ip, c.at) && Ordered(pre + [c] + post + [Call(ip, at)])
  }

  /** Deleting a refused call from an ordered history never changes a later answer. */
  ghost predicate RefusalsInvisible(cfg: Config) {
    forall pre, c, post, ip, at | RefusedIn(cfg, pre, c, post, ip, at) ::
      Answer(cfg, pre + [c] + post, ip, at) == Answer(cfg, pre + post, ip, at)
  }

  /** A refused call that keeps an emptied bucket from being swept. */
  lemma RefusedCallKeepsBucket(cfg: Config, ip: Ip, t: real)
    requires 0 < cfg.burst && t > IDLE_SECONDS && Earned(cfg, t) < cfg.Cap() && Earned(cfg, t - IDLE_SECONDS) < 1.0
    ensures !Answer(cfg, Drain(cfg, ip), ip, t - IDLE_SECONDS)
    ensures
      var m := Reach(cfg, Drain(cfg, ip) + [Call(ip, t - IDLE_SECONDS)] + [Sweep(t)]);
      ip in m && Refilled(cfg, m[ip], t) < cfg.Cap()
  {
    var late := t - IDLE_SECONDS;
    EmptiedBucket(cfg, ip);
    ReachOneMore(cfg, Drain(cfg, ip), Call(ip, late));
    ReachOneMore(cfg, Drain(cfg, ip) + [Call(ip, late)], Sweep(t));
    EarnedIsLinear(cfg, t, late);
    assert late - 0.0 == late;
    hide Earned;
  }

  lemma RefusalShows(cfg: Config)
    requires 0 < cfg.burst && cfg.Cap() > Earned(cfg, IDLE_SECONDS)
    ensures !RefusalsInvisible(cfg)
  {
    hide Answer, Repeat, Ordered, Earned, Reach, Refilled;
    var ip := "10.0.0.1";
    var t := ShortRest(cfg);
    var pre, c := Drain(cfg, ip), Call(ip, t - IDLE_SECONDS);
    var rest := Repeat(Call(ip, t), cfg.burst - 1);
    var post := [Sweep(t)] + rest;
    RefusedCallKeepsBucket(cfg, ip, t);
    ShortBucketRefuses(cfg, pre + [c] + [Sweep(t)], ip, t);
    ForgetfulAccepts(cfg, ip, t);
    assert pre + [c] + post == pre + [c] + [Sweep(t)] + rest;
    assert pre + post == pre + [Sweep(t)] + rest;
    OrderedAroundRefusal(ip, cfg.burst, t, cfg.burst - 1);
    assert pre + [c] + post + [Call(ip, t)] == pre + [c] + [Sweep(t)] + rest + [Call(ip, t)];
    assert RefusedIn(cfg, pre, c, post, ip, t);
  }

  lemma OrderedAroundRefusal(ip: Ip, n: nat, t: real, k: nat)
    requires IDLE_SECONDS <= t
    ensures
      var c := Call(ip, t - IDLE_SECONDS);
      Ordered(Repeat(Call(ip, 0.0), n) + [c] + [Sweep(t)] + Repeat(Call(ip, t), k) + [Call(ip, t)])
  {
    var c := Call(ip, t - IDLE_SECONDS);
    var es := Repeat(Call(ip, 0.0), n) + [c] + [Sweep(t)] + Repeat(Call(ip, t), k) + [Call(ip, t)];
    assert forall i :: 0 <= i < |es| ==> es[i].at == if i < n then 0.0 else if i == n then t - IDLE_SECONDS else t;
  }

  /** Refused calls never matter if and only if idle entries are full when they are swept: else
      a refused call can keep an entry from being forgotten. */
  lemma RefusalsInvisibleIff(cfg: Config)
    ensures RefusalsInvisible(cfg) <==> cfg.burst <= 0 || cfg.burst as real <= 600.0 * cfg.rps
  {
    EarnedIs(cfg, IDLE_SECONDS);
    hide Answer, Ordered, Earned;
    if cfg.burst <= 0 || cfg.burst as real <= 600.0 * cfg.rps {
      forall pre, c, post, ip, at | RefusedIn(cfg, pre, c, post, ip, at)
        ensures Answer(cfg, pre + [c] + post, ip, at) == Answer(cfg, pre + post, ip, at)
      {
        RefusedCallsDoNotMatterWithSweeps(cfg, pre, c, post, ip, at);
      }
    } else {
      RefusalShows(cfg);
    }
  }

  // ----- The limiter object -----

  class LimiterEntry {
    var tokens: real
    var lastSeen: real

    constructor (tokens: real, lastSeen: real)
      ensures this.tokens == tokens && this.lastSeen == lastSeen
    {
      this.tokens := tokens;
      this.lastSeen := lastSeen;
    }

    ghost function View(): Bucket
      reads this
    {
      Bucket(tokens, lastSeen)
    }
  }

  class RateLimiter {
    var entries: map<Ip, LimiterEntry>
    const rps: real
    const burst: int

    constructor (rps: real, burst: int)
      ensures entries == map[] && this.rps == rps && this.burst == burst && Valid()
    {
      this.entries := map[];
      this.rps := rps;
      this.burst := burst;
    }

    ghost function Cfg(): Config {
      Config(rps, burst)
    }

    /** No entry object serves two IPs. */
    ghost predicate Valid()
      reads this
    {
      forall a, b :: a in entries && b in entries && a != b ==> entries[a] != entries[b]
    }

    ghost function View(): map<Ip, Bucket>
      reads this, entries.Values
    {
      map ip | ip in entries :: entries[ip].View()
    }

    /** The part of a call under the map lock. */
    method Lookup(ip: Ip, now: real) returns (e: LimiterEntry)
      requires Valid()
      modifies this
      ensures Valid() && ip in entries && e == entries[ip]
      ensures View() == old(View())[ip := BucketOf(Cfg(), old(View()), ip, now)]
      ensures ip in old(entries) ==> entries == old(entries)
      ensures ip !in old(entries) ==> fresh(e) && entries == old(entries)[ip := e]
      ensures ip !in old(entries) ==> e.tokens == burst as real && e.lastSeen == now
    {
      if ip in entries {
        e := entries[ip];
      } else {
        e := new LimiterEntry(burst as real, now);
        entries := entries[ip := e];
      }
    }

    /** The part of a call under the entry lock. */
    method Spend(e: LimiterEntry, now: real) returns (ok: bool, elapsed: real)
      modifies e
      ensures (e.View(), ok) == SpendFrom(Cfg(), old(e.View()), now)
      ensures elapsed == now - old(e.lastSeen)
      ensures
        var earned := old(e.tokens) + elapsed * rps;
        var held := if burst as real < earned then burst as real else earned;
        && (ok <==> held >= 1.0) && e.tokens == (if ok then held - 1.0 else held) && e.lastSeen == now
    {
      elapsed := now - e.lastSeen;
      EarnedIs(Cfg(), elapsed);
      hide Earned;
      e.lastSeen := now;
      e.tokens := Min(burst as real, e.tokens + elapsed * rps);
      if e.tokens < 1.0 {
        ok := false;
        return;
      }
      e.tokens := e.tokens - 1.0;
      ok := true;
    }

    /** Once its entry is spent from, a looked-up limiter shows what the call makes of `before`. */
    lemma SpentView(before: map<Ip, Bucket>, ip: Ip, now: real, e: LimiterEntry, ok: bool)
      requires ip in entries && entries[ip] == e && entries.Keys == before.Keys + {ip}
      requires forall a :: a in entries && a != ip ==> entries[a].View() == before[a]
      requires (e.View(), ok) == SpendFrom(Cfg(), BucketOf(Cfg(), before, ip, now), now)
      ensures (View(), ok) == AllowIn(Cfg(), before, ip, now)
    {
      hide SpendFrom, BucketOf;
      assert View() == before[ip := e.View()];
    }

    method Allow(ip: Ip, now: real) returns (ok: bool)
      requires Valid()
      modifies this, entries.Values
      ensures Valid() && entries.Keys == old(entries.Keys) + {ip}
      ensures forall a :: a in old(entries) ==> entries[a] == old(entries[a])
      ensures ip !in old(entries) ==> fresh(entries[ip])
      ensures View() == AllowIn(Cfg(), old(View()), ip, now).0
      ensures ok == AllowIn(Cfg(), old(View()), ip, now).1
    {
      hide SpendFrom, BucketOf, AllowIn;
      ghost var before := View();
      var e := Lookup(ip, now);
      assert e.View() == View()[ip] == BucketOf(Cfg(), before, ip, now);
      var elapsed;
      ok, elapsed := Spend(e, now);
      SpentView(before, ip, now, e, ok);
    }

    /** One round of the background sweep. */
    method Cleanup(now: real)
      requires Valid()
      modifies this
      ensures Valid() && entries.Keys <= old(entries.Keys)
      ensures View() == SweepIn(old(View()), now)
      ensures forall ip :: ip in entries <==> ip in old(entries) && now - old(entries)[ip].lastSeen <= 600.0
      ensures forall ip :: ip in entries ==> entries[ip] == old(entries)[ip]
    {
      var todo := entries.Keys;
      while todo != {}
        invariant todo <= entries.Keys && entries.Keys <= old(entries.Keys)
        invariant forall ip :: ip in entries ==> entries[ip] == old(entries)[ip]
        invariant forall ip :: ip in old(entries) && ip !in todo ==>
          (ip in entries <==> !Stale(old(entries)[ip].View(), now))
        decreases todo
      {
        var ip :| ip in todo;
        if now - entries[ip].lastSeen > IDLE_SECONDS {
          entries := entries - {ip};
        }
        todo := todo - {ip};
      }
    }
  }
}

/**
  The per-IP guard of the stratum listener (bridge/src/anti_abuse.rs): a connection cap with
  one ticket per accepted connection, and a token bucket per tracked IP.

  Seconds and tokens are real numbers; rounding of the source's floating point is not modelled.
 */
module AntiAbuse {
  import opened Wrappers

  type Ip = nat

  datatype Config = Config(maxConnPerIp: nat, maxTrackedIps: nat, rate: real, burst: real) {
    /** What the validating constructor accepts. */
    predicate Valid() {
      maxConnPerIp > 0 && maxTrackedIps > 0 && rate > 0.0 && burst > 0.0
    }
  }

  // ---------- the token bucket ----------

  datatype Bucket = Bucket(tokens: real, lastRefill: real)

  /** `saturating_duration_since`. */
  function Elapsed(now: real, then_: real): (e: real)
    ensures e >= 0.0
  {
    if now >= then_ then now - then_ else 0.0
  }

  /** Tokens after the lazy refill and before a frame is paid for. */
  function Refilled(b: Bucket, now: real, cfg: Config): real {
    var t := b.tokens + Elapsed(now, b.lastRefill) * cfg.rate;
    if t <= cfg.burst then t else cfg.burst
  }

  function TryConsume(b: Bucket, now: real, cfg: Config): (bool, Bucket) {
    var t := Refilled(b, now, cfg);
    if t >= 1.0 then (true, Bucket(t - 1.0, now)) else (false, Bucket(t, now))
  }

  /** The bucket before call `j` of a run of frames, the entry having been created at `t0`. */
  function BucketAt(times: seq<real>, t0: real, cfg: Config, j: nat): Bucket
    requires j <= |times|
  {
    if j == 0 then Bucket(cfg.burst, t0) else TryConsume(BucketAt(times, t0, cfg, j - 1), times[j - 1], cfg).1
  }

  predicate Accepted(times: seq<real>, t0: real, cfg: Config, j: nat)
    requires j < |times|
  {
    TryConsume(BucketAt(times, t0, cfg, j), times[j], cfg).0
  }

  /** Tokens earned at call `j` since the call before it: rate times the time that passed forwards. */
  function Gain(times: seq<real>, t0: real, cfg: Config, j: nat): real
    requires j < |times|
  {
    var since := times[j] - if j == 0 then t0 else times[j - 1];
    (if since > 0.0 then since else 0.0) * cfg.rate
  }

  function Gains(times: seq<real>, t0: real, cfg: Config): (g: seq<real>)
    ensures IsGains(g, times, t0, cfg)
  {
    seq(|times|, j requires 0 <= j < |times| => Gain(times, t0, cfg, j))
  }

  ghost predicate IsGains(g: seq<real>, times: seq<real>, t0: real, cfg: Config) {
    |g| == |times| && forall j :: 0 <= j < |times| ==> g[j] == Gain(times, t0, cfg, j)
  }

  // ---------- the bucket on gains ----------

  /** The level of the continuously refilled bucket when call `j` arrives. */
  function Level(gains: seq<real>, burst: real, j: nat): real
    requires j < |gains|
    decreases j, 0
  {
    var t := gains[j] + if j == 0 then burst else Level(gains, burst, j - 1) - Spent(gains, burst, j - 1);
    if t <= burst then t else burst
  }

  function Spent(gains: seq<real>, burst: real, j: nat): real
    requires j < |gains|
    decreases j, 1
  {
    if Level(gains, burst, j) >= 1.0 then 1.0 else 0.0
  }

  /** Frames paid for by calls `i .. j`. */
  function Paid(gains: seq<real>, burst: real, i: nat, j: nat): real
    requires i <= j <= |gains|
    decreases j
  {
    if i == j then 0.0 else Paid(gains, burst, i, j - 1) + Spent(gains, burst, j - 1)
  }

  /** Tokens earned after call `i` up to call `j`. */
  function Earned(gains: seq<real>, i: nat, j: nat): real
    requires i <= j < |gains|
    decreases j
  {
    if i == j then 0.0 else Earned(gains, i, j - 1) + gains[j]
  }

  /** What the window that starts at call `i` still allows at call `j`. */
  function Allowance(gains: seq<real>, burst: real, i: nat, j: nat): real
    requires i <= j < |gains|
  {
    burst + Earned(gains, i, j) - Paid(gains, burst, i, j)
  }

  ghost predicate Nonnegative(gains: seq<real>) {
    forall j :: 0 <= j < |gains| ==> gains[j] >= 0.0
  }

  /** The level is the smallest allowance over all windows that end at the call; `w` attains it. */
  lemma {:induction false} LevelIsLeastAllowance(gains: seq<real>, burst: real, j: nat) returns (w: nat)
    requires j < |gains| && Nonnegative(gains)
    ensures forall i :: 0 <= i <= j ==> Level(gains, burst, j) <= Allowance(gains, burst, i, j)
    ensures w <= j && Level(gains, burst, j) == Allowance(gains, burst, w, j)
  {
    w := j;
    if j > 0 {
      var v := LevelIsLeastAllowance(gains, burst, j - 1);
      forall i | 0 <= i < j
        ensures Allowance(gains, burst, i, j) ==
                Allowance(gains, burst, i, j - 1) + gains[j] - Spent(gains, burst, j - 1)
        ensures Level(gains, burst, j) <= Allowance(gains, burst, i, j)
      {
      }
      if Level(gains, burst, j) < burst {
        w := v;
      }
    }
  }

  /**
    A frame is paid for exactly when, counting it, every window that ends at it stays within
    the burst plus what the window earned: the bound is never broken, and no frame is refused
    that the bound would have allowed.
   */
  lemma PaidIffEveryWindowAllows(gains: seq<real>, burst: real, j: nat)
    requires j < |gains| && Nonnegative(gains)
    ensures Level(gains, burst, j) >= 1.0 <==> forall i :: 0 <= i <= j ==> Allowance(gains, burst, i, j) >= 1.0
  {
    var w := LevelIsLeastAllowance(gains, burst, j);
  }

  lemma {:induction false} LevelNeverNegative(gains: seq<real>, burst: real, j: nat)
    requires j < |gains| && Nonnegative(gains) && burst >= 0.0
    ensures Level(gains, burst, j) >= 0.0
  {
    if j > 0 {
      LevelNeverNegative(gains, burst, j - 1);
    }
  }

  // ---------- back to the entry's own fields ----------

  lemma {:induction false} BucketIsLevel(g: seq<real>, times: seq<real>, t0: real, cfg: Config, j: nat)
    requires j < |times| && IsGains(g, times, t0, cfg)
    ensures Refilled(BucketAt(times, t0, cfg, j), times[j], cfg) == Level(g, cfg.burst, j)
  {
    if j > 0 {
      BucketIsLevel(g, times, t0, cfg, j - 1);
      BucketTokens(times, t0, cfg, j);
      assert g[j] == Gain(times, t0, cfg, j);
      LevelStep(BucketAt(times, t0, cfg, j), g, times, t0, cfg, j);
    } else {
      assert g[0] == Gain(times, t0, cfg, 0);
    }
  }

  lemma LevelStep(b: Bucket, g: seq<real>, times: seq<real>, t0: real, cfg: Config, j: nat)
    requires 0 < j < |times| == |g| && b.lastRefill == times[j - 1] && g[j] == Gain(times, t0, cfg, j)
    requires b.tokens == Level(g, cfg.burst, j - 1) - Spent(g, cfg.burst, j - 1)
    ensures Refilled(b, times[j], cfg) == Level(g, cfg.burst, j)
  {
  }

  lemma BucketTokens(times: seq<real>, t0: real, cfg: Config, j: nat)
    requires 0 < j < |times|
    ensures BucketAt(times, t0, cfg, j).lastRefill == times[j - 1]
    ensures var r := Refilled(BucketAt(times, t0, cfg, j - 1), times[j - 1], cfg);
            BucketAt(times, t0, cfg, j).tokens == if r >= 1.0 then r - 1.0 else r
  {
  }

  lemma GainsNonnegative(times: seq<real>, t0: real, cfg: Config)
    requires cfg.Valid()
    ensures Nonnegative(Gains(times, t0, cfg))
  {
    forall j | 0 <= j < |times|
      ensures Gains(times, t0, cfg)[j] >= 0.0
    {
      ProductNonnegative(Elapsed(times[j], if j == 0 then t0 else times[j - 1]), cfg.rate);
    }
  }

  lemma ProductNonnegative(a: real, b: real)
    requires a >= 0.0 && b >= 0.0
    ensures a * b >= 0.0
  {
  }

  /**
    For every sequence of frame times, in any order, a frame of a tracked IP is accepted
    exactly when every window that ends at it stays within `burst + earned` tokens.
   */
  lemma AcceptedIffEveryWindowAllows(times: seq<real>, t0: real, cfg: Config, j: nat)
    requires j < |times| && cfg.Valid()
    ensures var g := Gains(times, t0, cfg);
            Accepted(times, t0, cfg, j) <==> forall i :: 0 <= i <= j ==> Allowance(g, cfg.burst, i, j) >= 1.0
  {
    BucketIsLevel(Gains(times, t0, cfg), times, t0, cfg, j);
    GainsNonnegative(times, t0, cfg);
    PaidIffEveryWindowAllows(Gains(times, t0, cfg), cfg.burst, j);
  }

  /** Frames accepted by calls `i .. j`. */
  function Count(times: seq<real>, t0: real, cfg: Config, i: nat, j: nat): nat
    requires i <= j <= |times|
    decreases j
  {
    if i == j then 0
    else Count(times, t0, cfg, i, j - 1) + (if Accepted(times, t0, cfg, j - 1) then 1 else 0)
  }

  lemma {:induction false} CountIsPaid(g: seq<real>, times: seq<real>, t0: real, cfg: Config, i: nat, j: nat)
    requires i <= j <= |times| && IsGains(g, times, t0, cfg)
    ensures Count(times, t0, cfg, i, j) as real == Paid(g, cfg.burst, i, j)
    decreases j
  {
    if i < j {
      CountIsPaid(g, times, t0, cfg, i, j - 1);
      BucketIsLevel(g, times, t0, cfg, j - 1);
    }
  }

  ghost predicate Nondecreasing(times: seq<real>) {
    forall i, j :: 0 <= i < j < |times| ==> times[i] <= times[j]
  }

  lemma AddProducts(x: real, a: real, y: real, b: real, d: real, r: real)
    requires x == a * r && y == b * r && d == a + b
    ensures x + y == d * r
  {
  }

  predicate IsProduct(x: real, a: real, r: real) {
    x == a * r
  }

  /** On a clock that does not step back, every gain is rate times the time since the call before. */
  lemma GainForward(g: seq<real>, times: seq<real>, t0: real, cfg: Config, j: nat)
    requires 0 < j < |times| && Nondecreasing(times) && IsGains(g, times, t0, cfg)
    ensures IsProduct(g[j], times[j] - times[j - 1], cfg.rate)
  {
    assert g[j] == Gain(times, t0, cfg, j);
  }

  ghost predicate Forward(g: seq<real>, times: seq<real>, rate: real) {
    |g| == |times| && forall k {:trigger g[k]} :: 0 < k < |g| ==> IsProduct(g[k], times[k] - times[k - 1], rate)
  }

  lemma GainsForward(g: seq<real>, times: seq<real>, t0: real, cfg: Config)
    requires Nondecreasing(times) && IsGains(g, times, t0, cfg)
    ensures Forward(g, times, cfg.rate)
  {
    forall k | 0 < k < |g|
      ensures IsProduct(g[k], times[k] - times[k - 1], cfg.rate)
    {
      GainForward(g, times, t0, cfg, k);
    }
  }

  lemma {:induction false} EarnedIsRate(g: seq<real>, times: seq<real>, rate: real, i: nat, j: nat)
    requires i <= j < |times| && Forward(g, times, rate)
    ensures IsProduct(Earned(g, i, j), times[j] - times[i], rate)
    decreases j
  {
    if i < j {
      EarnedIsRate(g, times, rate, i, j - 1);
      var before, step := times[j - 1] - times[i], times[j] - times[j - 1];
      assert IsProduct(g[j], step, rate);
      AddProducts(Earned(g, i, j - 1), before, g[j], step, times[j] - times[i], rate);
    }
  }

  lemma EarnedByClock(g: seq<real>, times: seq<real>, t0: real, cfg: Config, i: nat, j: nat)
    requires i <= j < |times| && Nondecreasing(times) && IsGains(g, times, t0, cfg)
    ensures IsProduct(Earned(g, i, j), times[j] - times[i], cfg.rate)
  {
    GainsForward(g, times, t0, cfg);
    EarnedIsRate(g, times, cfg.rate, i, j);
  }

  /** On any clock, the frames paid for in a window stay within burst plus earnings. */
  lemma PaidWithinEarned(g: seq<real>, burst: real, i: nat, j: nat)
    requires i <= j < |g| && Nonnegative(g) && burst >= 0.0
    ensures Paid(g, burst, i, j + 1) <= burst + Earned(g, i, j)
  {
    var w := LevelIsLeastAllowance(g, burst, j);
    LevelNeverNegative(g, burst, j);
    assert Level(g, burst, j) <= Allowance(g, burst, i, j);
    assert Paid(g, burst, i, j + 1) == Paid(g, burst, i, j) + Spent(g, burst, j);
  }

  /** The frames accepted in a window, on any clock. */
  lemma CountWithinEarned(g: seq<real>, times: seq<real>, t0: real, cfg: Config, i: nat, j: nat)
    requires i <= j < |times| && cfg.Valid() && g == Gains(times, t0, cfg)
    ensures Count(times, t0, cfg, i, j + 1) as real <= cfg.burst + Earned(g, i, j)
  {
    GainsNonnegative(times, t0, cfg);
    PaidWithinEarned(g, cfg.burst, i, j);
    CountIsPaid(g, times, t0, cfg, i, j + 1);
  }

  lemma WithinProduct(count: real, burst: real, earned: real, elapsed: real, rate: real)
    requires count <= burst + earned && IsProduct(earned, elapsed, rate)
    ensures count <= burst + elapsed * rate
  {
  }

  /** At nondecreasing times the frames accepted from call `i` to call `j` stay within the rate. */
  lemma RateBound(times: seq<real>, t0: real, cfg: Config, i: nat, j: nat)
    requires i <= j < |times| && cfg.Valid() && Nondecreasing(times)
    ensures Count(times, t0, cfg, i, j + 1) as real <= cfg.burst + (times[j] - times[i]) * cfg.rate
  {
    var g := Gains(times, t0, cfg);
    CountWithinEarned(g, times, t0, cfg, i, j);
    EarnedByClock(g, times, t0, cfg, i, j);
    WithinProduct(Count(times, t0, cfg, i, j + 1) as real, cfg.burst, Earned(g, i, j), times[j] - times[i], cfg.rate);
  }

  // ---------- exactly when the wall clock bounds the rate ----------

  /** The bound in wall-clock terms for the window from call `i` to call `j`. */
  ghost predicate WithinRate(times: seq<real>, t0: real, cfg: Config, i: nat, j: nat)
    requires i <= j < |times|
  {
    Count(times, t0, cfg, i, j + 1) as real <= cfg.burst + (times[j] - times[i]) * cfg.rate
  }

  lemma {:induction false} LevelFalls(gains: seq<real>, burst: real, j: nat)
    requires j < |gains| && Nonnegative(gains)
    ensures Level(gains, burst, j) >= burst - j as real
  {
    if j > 0 {
      LevelFalls(gains, burst, j - 1);
    }
  }

  /** A burst above the number of frames accepts every frame. */
  lemma WideBurstAccepts(times: seq<real>, t0: real, cfg: Config, j: nat)
    requires cfg.Valid() && j < |times| && cfg.burst >= |times| as real
    ensures Accepted(times, t0, cfg, j)
  {
    var g := Gains(times, t0, cfg);
    GainsNonnegative(times, t0, cfg);
    LevelFalls(g, cfg.burst, j);
    BucketIsLevel(g, times, t0, cfg, j);
  }

  lemma CountOfTwo(times: seq<real>, t0: real, cfg: Config, k: nat)
    requires k + 1 < |times| && Accepted(times, t0, cfg, k) && Accepted(times, t0, cfg, k + 1)
    ensures Count(times, t0, cfg, k, k + 2) == 2
  {
    assert Count(times, t0, cfg, k, k + 1) == 1;
  }

  lemma Cancel(a: real, d: real)
    requires d > 0.0
    ensures (-d) * (a / d) == -a
  {
  }

  /** Whenever the clock steps back between two frames, some configuration breaks the bound there. */
  lemma BackwardsClockBreaksBound(times: seq<real>, t0: real, k: nat) returns (cfg: Config)
    requires k + 1 < |times| && times[k] > times[k + 1]
    ensures cfg.Valid() && !WithinRate(times, t0, cfg, k, k + 1)
  {
    var burst, d := |times| as real, times[k] - times[k + 1];
    cfg := Config(1, 1, burst / d, burst);
    WideBurstAccepts(times, t0, cfg, k);
    WideBurstAccepts(times, t0, cfg, k + 1);
    CountOfTwo(times, t0, cfg, k);
    Cancel(burst, d);
    assert times[k + 1] - times[k] == -d;
  }

  /** A sequence without a step back is nondecreasing. */
  lemma {:induction false} NoStepBack(times: seq<real>, i: nat, j: nat)
    requires i <= j < |times| && forall k :: 0 <= k < |times| - 1 ==> times[k] <= times[k + 1]
    ensures times[i] <= times[j]
    decreases j
  {
    if i < j {
      NoStepBack(times, i, j - 1);
      assert times[j - 1] <= times[j - 1 + 1];
    }
  }

  /**
    For every sequence of frame times: burst plus rate times elapsed time bounds the accepted
    frames of every window under every valid configuration exactly when the clock never steps back.
   */
  lemma RateBoundIffNondecreasing(times: seq<real>, t0: real)
    ensures (forall cfg: Config, i: nat, j: nat :: cfg.Valid() && i <= j < |times| ==> WithinRate(times, t0, cfg, i, j))
            <==> Nondecreasing(times)
  {
    if Nondecreasing(times) {
      forall cfg: Config, i: nat, j: nat | cfg.Valid() && i <= j < |times|
        ensures WithinRate(times, t0, cfg, i, j)
      {
        RateBound(times, t0, cfg, i, j);
      }
    } else if k :| 0 <= k < |times| - 1 && times[k] > times[k + 1] {
      var cfg := BackwardsClockBreaksBound(times, t0, k);
    } else {
      forall i, j | 0 <= i < j < |times|
        ensures times[i] <= times[j]
      {
        NoStepBack(times, i, j);
      }
    }
  }

  // ---------- connections ----------

  datatype IpEntry = IpEntry(connCount: nat, bucket: Bucket)

  datatype Verdict = Ticket | IpCapReached | ConnCapPerIp

  /** `try_accept_connection` on the table of tracked IPs. */
  function TryAccept(state: map<Ip, IpEntry>, ip: Ip, now: real, cfg: Config): (Verdict, map<Ip, IpEntry>) {
    if ip !in state && |state| >= cfg.maxTrackedIps then (IpCapReached, state)
    else
      var entry := if ip in state then state[ip] else IpEntry(0, Bucket(cfg.burst, now));
      if entry.connCount >= cfg.maxConnPerIp then (ConnCapPerIp, state[ip := entry])
      else (Ticket, state[ip := entry.(connCount := entry.connCount + 1)])
  }

  /** `try_consume_frame`; frames of an untracked IP are refused. */
  function TryConsumeFrame(state: map<Ip, IpEntry>, ip: Ip, now: real, cfg: Config): (bool, map<Ip, IpEntry>) {
    if ip !in state then (false, state)
    else
      var (ok, bucket) := TryConsume(state[ip].bucket, now, cfg);
      (ok, state[ip := state[ip].(bucket := bucket)])
  }

  /** `release`, which runs when a ticket is dropped. */
  function Release(state: map<Ip, IpEntry>, ip: Ip): map<Ip, IpEntry> {
    if ip !in state then state
    else if state[ip].connCount <= 1 then state - {ip}
    else state[ip := state[ip].(connCount := state[ip].connCount - 1)]
  }

  class AntiAbuseGuard {
    const config: Config
    var state: map<Ip, IpEntry>

    constructor (config: Config)
      ensures this.config == config && state == map[]
    {
      this.config, state := config, map[];
    }

    method TryAcceptConnection(ip: Ip, now: real) returns (v: Verdict)
      modifies this
      ensures (v, state) == TryAccept(old(state), ip, now, config)
    {
      if ip !in state && |state| >= config.maxTrackedIps {
        return IpCapReached;
      }
      if ip !in state {
        state := state[ip := IpEntry(0, Bucket(config.burst, now))];
      }
      if state[ip].connCount >= config.maxConnPerIp {
        assert ip in old(state) ==> old(state)[ip := old(state)[ip]] == old(state);
        return ConnCapPerIp;
      }
      ghost var entry := state[ip];
      state := state[ip := state[ip].(connCount := state[ip].connCount + 1)];
      assert state == old(state)[ip := entry.(connCount := entry.connCount + 1)];
      return Ticket;
    }

    method ConsumeFrame(ip: Ip, now: real) returns (ok: bool)
      modifies this
      ensures (ok, state) == TryConsumeFrame(old(state), ip, now, config)
    {
      if ip !in state {
        return false;
      }
      var entry := state[ip];
      var elapsed := Elapsed(now, entry.bucket.lastRefill);
      var refill := elapsed * config.rate;
      var tokens := if entry.bucket.tokens + refill <= config.burst then entry.bucket.tokens + refill else config.burst;
      ok := tokens >= 1.0;
      if ok {
        tokens := tokens - 1.0;
      }
      state := state[ip := entry.(bucket := Bucket(tokens, now))];
    }

    method DropTicket(ip: Ip)
      modifies this
      ensures state == Release(old(state), ip)
    {
      if ip in state {
        var left := if state[ip].connCount > 0 then state[ip].connCount - 1 else 0;
        state := state[ip := state[ip].(connCount := left)];
        if left == 0 {
          assert state - {ip} == old(state) - {ip};
          state := state - {ip};
        }
      }
    }
  }

  /** A call on the guard. `Drop` drops one live ticket of the IP; without one there is nothing to drop. */
  datatype Call = Accept(ip: Ip, now: real) | Frame(ip: Ip, now: real) | Drop(ip: Ip)

  /** The guard together with the tickets that are alive. */
  datatype System = System(state: map<Ip, IpEntry>, tickets: multiset<Ip>) {
    function Step(c: Call, cfg: Config): System {
      match c
      case Accept(ip, now) =>
        var (v, next) := TryAccept(state, ip, now, cfg);
        System(next, if v == Ticket then tickets + multiset{ip} else tickets)
      case Frame(ip, now) => System(TryConsumeFrame(state, ip, now, cfg).1, tickets)
      case Drop(ip) =>
        if ip in tickets then System(Release(state, ip), tickets - multiset{ip}) else this
    }

    /** Counts are live tickets within the cap; the tracked IPs are those with a live ticket and fit the map. */
    ghost predicate Consistent(cfg: Config) {
      && (forall ip :: ip in state <==> ip in tickets)
      && (forall ip :: ip in state ==> state[ip].connCount == tickets[ip] <= cfg.maxConnPerIp)
      && |state| <= cfg.maxTrackedIps
    }
  }

  function Replay(calls: seq<Call>, cfg: Config): System {
    if calls == [] then System(map[], multiset{})
    else Replay(calls[..|calls| - 1], cfg).Step(calls[|calls| - 1], cfg)
  }

  /** One more ticket, or a refusal, for an IP that is tracked already. */
  lemma AcceptKnown(s: System, ip: Ip, now: real, cfg: Config)
    requires s.Consistent(cfg) && ip in s.state
    ensures s.Step(Accept(ip, now), cfg).state.Keys == s.state.Keys
    ensures s.Step(Accept(ip, now), cfg).Consistent(cfg)
  {
    var after := s.Step(Accept(ip, now), cfg);
    assert after.state.Keys == s.state.Keys;
    assert |after.state| == |s.state|;
  }

  /** A new entry with its first ticket. */
  lemma FirstTicket(s: System, ip: Ip, entry: IpEntry, cfg: Config)
    requires s.Consistent(cfg) && cfg.Valid() && ip !in s.state && |s.state| < cfg.maxTrackedIps && entry.connCount == 1
    ensures System(s.state[ip := entry], s.tickets + multiset{ip}).Consistent(cfg)
  {
    var state := s.state[ip := entry];
    assert state.Keys == s.state.Keys + {ip};
    assert |state| == |s.state| + 1;
    assert s.tickets[ip] == 0;
  }

  /** An IP that is not tracked: its first ticket if the table has room, else a refusal without effect. */
  lemma AcceptNew(s: System, ip: Ip, now: real, cfg: Config)
    requires s.Consistent(cfg) && cfg.Valid() && ip !in s.state
    ensures s.Step(Accept(ip, now), cfg).Consistent(cfg)
    ensures s.Step(Accept(ip, now), cfg) ==
            if |s.state| < cfg.maxTrackedIps then
              System(s.state[ip := IpEntry(1, Bucket(cfg.burst, now))], s.tickets + multiset{ip})
            else s
  {
    if |s.state| < cfg.maxTrackedIps {
      FirstTicket(s, ip, IpEntry(1, Bucket(cfg.burst, now)), cfg);
    }
  }

  lemma AcceptConsistent(s: System, ip: Ip, now: real, cfg: Config)
    requires s.Consistent(cfg) && cfg.Valid()
    ensures s.Step(Accept(ip, now), cfg).Consistent(cfg)
  {
    if ip in s.state {
      AcceptKnown(s, ip, now, cfg);
    } else {
      AcceptNew(s, ip, now, cfg);
    }
  }

  lemma DropConsistent(s: System, ip: Ip, cfg: Config)
    requires s.Consistent(cfg) && cfg.Valid() && ip in s.tickets
    ensures s.Step(Drop(ip), cfg).Consistent(cfg)
  {
    var next := s.Step(Drop(ip), cfg);
    assert ip in s.state && s.state[ip].connCount == s.tickets[ip];
    if s.tickets[ip] == 1 {
      assert next.state.Keys == s.state.Keys - {ip};
      assert ip !in next.tickets;
    } else {
      assert next.state.Keys == s.state.Keys;
    }
  }

  lemma StepConsistent(s: System, c: Call, cfg: Config)
    requires s.Consistent(cfg) && cfg.Valid()
    ensures s.Step(c, cfg).Consistent(cfg)
  {
    match c
    case Accept(ip, now) => AcceptConsistent(s, ip, now, cfg);
    case Frame(ip, now) =>
      assert s.Step(c, cfg).state.Keys == s.state.Keys;
    case Drop(ip) =>
      if ip in s.tickets {
        DropConsistent(s, ip, cfg);
      }
  }

  /** In every run of accepts, rejections, frames and ticket drops the table matches the live tickets. */
  lemma {:induction false} ReplayConsistent(calls: seq<Call>, cfg: Config)
    requires cfg.Valid()
    ensures Replay(calls, cfg).Consistent(cfg)
  {
    if calls != [] {
      ReplayConsistent(calls[..|calls| - 1], cfg);
      StepConsistent(Replay(calls[..|calls| - 1], cfg), calls[|calls| - 1], cfg);
    }
  }

  /** A frame of an IP without a live ticket is refused, in every run. */
  lemma UntrackedRefused(calls: seq<Call>, cfg: Config, ip: Ip, now: real)
    requires cfg.Valid() && ip !in Replay(calls, cfg).tickets
    ensures TryConsumeFrame(Replay(calls, cfg).state, ip, now, cfg) == (false, Replay(calls, cfg).state)
  {
    ReplayConsistent(calls, cfg);
  }

  /** A verdict says why: a ticket exactly when the IP is below its cap and, if new, the table has room. */
  lemma VerdictMeaning(calls: seq<Call>, cfg: Config, ip: Ip, now: real)
    requires cfg.Valid()
    ensures var s := Replay(calls, cfg);
            TryAccept(s.state, ip, now, cfg).0 ==
            if ip in s.tickets then (if s.tickets[ip] < cfg.maxConnPerIp then Ticket else ConnCapPerIp)
            else if |s.state| < cfg.maxTrackedIps then Ticket else IpCapReached
  {
    ReplayConsistent(calls, cfg);
  }

  // ---------- the frame rate of a tracked IP inside a whole run ----------

  /** The frame times of one IP in a run. */
  function FramesOf(calls: seq<Call>, ip: Ip): seq<real> {
    if calls == [] then []
    else
      var c := calls[|calls| - 1];
      FramesOf(calls[..|calls| - 1], ip) + if c.Frame? && c.ip == ip then [c.now] else []
  }

  function RunFrom(s: System, calls: seq<Call>, cfg: Config): System {
    if calls == [] then s else RunFrom(s, calls[..|calls| - 1], cfg).Step(calls[|calls| - 1], cfg)
  }

  ghost predicate TrackedThroughout(s: System, calls: seq<Call>, cfg: Config, ip: Ip) {
    forall k :: 0 <= k <= |calls| ==> ip in RunFrom(s, calls[..k], cfg).state
  }

  lemma {:induction false} BucketPrefix(times: seq<real>, more: seq<real>, t0: real, cfg: Config, j: nat)
    requires j <= |times|
    ensures BucketAt(times + more, t0, cfg, j) == BucketAt(times, t0, cfg, j)
  {
    if j > 0 {
      BucketPrefix(times, more, t0, cfg, j - 1);
    }
  }

  lemma StepBucket(s: System, c: Call, cfg: Config, ip: Ip)
    requires ip in s.state && ip in s.Step(c, cfg).state
    ensures s.Step(c, cfg).state[ip].bucket ==
            if c.Frame? && c.ip == ip then TryConsume(s.state[ip].bucket, c.now, cfg).1 else s.state[ip].bucket
  {
  }

  /**
    While an IP stays tracked, whatever other calls are interleaved, its entry's bucket is the
    one its own frames alone produce.
   */
  lemma {:induction false} TrackedBucket(s: System, calls: seq<Call>, cfg: Config, ip: Ip, t0: real)
    requires ip in s.state && s.state[ip].bucket == Bucket(cfg.burst, t0)
    requires TrackedThroughout(s, calls, cfg, ip)
    ensures ip in RunFrom(s, calls, cfg).state
    ensures var times := FramesOf(calls, ip);
            RunFrom(s, calls, cfg).state[ip].bucket == BucketAt(times, t0, cfg, |times|)
  {
    assert calls[..|calls|] == calls;
    if calls != [] {
      var before, c := calls[..|calls| - 1], calls[|calls| - 1];
      assert forall k :: 0 <= k <= |before| ==> before[..k] == calls[..k];
      TrackedBucket(s, before, cfg, ip, t0);
      var times := FramesOf(before, ip);
      StepBucket(RunFrom(s, before, cfg), c, cfg, ip);
      if c.Frame? && c.ip == ip {
        BucketPrefix(times, [c.now], t0, cfg, |times|);
      } else {
        assert FramesOf(calls, ip) == times;
      }
    }
  }

  /**
    In every run, from the moment an IP's entry is created and as long as it stays tracked,
    its next frame is accepted exactly when every window of its own frames allows it.
   */
  lemma GuardAcceptsIffAllowed(s: System, calls: seq<Call>, cfg: Config, ip: Ip, t0: real, now: real)
    requires cfg.Valid() && ip in s.state && s.state[ip].bucket == Bucket(cfg.burst, t0)
    requires TrackedThroughout(s, calls, cfg, ip)
    ensures var n := |FramesOf(calls, ip)|;
            var g := Gains(FramesOf(calls, ip) + [now], t0, cfg);
            TryConsumeFrame(RunFrom(s, calls, cfg).state, ip, now, cfg).0 <==>
            forall i :: 0 <= i <= n ==> Allowance(g, cfg.burst, i, n) >= 1.0
  {
    TrackedBucket(s, calls, cfg, ip, t0);
    var times := FramesOf(calls, ip);
    BucketPrefix(times, [now], t0, cfg, |times|);
    AcceptedIffEveryWindowAllows(times + [now], t0, cfg, |times|);
  }
}

/**
  The tier classifier's upstream circuit breaker and its TTL cache
  (accountant/src/tier_kasplex.rs, `Breaker` and `classify`).

  Instants are integers and are passed in; the upstream's answers are parameters.
 */
module TierBreaker {
  import opened Wrappers

  const U32_MAX := 0xFFFF_FFFF

  datatype State = Closed | Open | HalfOpen

  datatype Tier = Standard | Elite

  datatype Breaker = Breaker(state: State, consecutiveFailures: nat, threshold: nat, cooldown: nat,
                             openedAt: Option<int>) {
    /** The state as seen at `now`: an open breaker turns half open once the cooldown is over. */
    function At(now: int): State {
      if state == Open && openedAt.Some? && Since(now, openedAt.value) >= cooldown then HalfOpen else state
    }

    predicate Allows(now: int) {
      At(now) != Open
    }

    function OnSuccess(): Breaker {
      this.(state := Closed, consecutiveFailures := 0, openedAt := None)
    }

    function OnFailure(now: int): Breaker {
      if At(now) == HalfOpen then this.(state := Open, openedAt := Some(now))
      else
        var n := if consecutiveFailures < U32_MAX then consecutiveFailures + 1 else consecutiveFailures;
        if n >= threshold then this.(consecutiveFailures := n, state := Open, openedAt := Some(now))
        else this.(consecutiveFailures := n)
    }

    /** What every breaker built by `new` and driven by outcomes satisfies. */
    ghost predicate Valid() {
      && threshold <= U32_MAX
      && state != HalfOpen
      && (state == Open <==> openedAt.Some?)
      && (state == Closed ==> consecutiveFailures < Max1(threshold))
    }
  }

  function Max1(n: nat): nat {
    if n >= 1 then n else 1
  }

  /** `Instant::duration_since`, which saturates at zero. */
  function Since(now: int, then_: int): nat {
    if now >= then_ then now - then_ else 0
  }

  function New(threshold: nat, cooldown: nat): Breaker {
    Breaker(Closed, 0, threshold, cooldown, None)
  }

  lemma OutcomesKeepValid(b: Breaker, now: int)
    requires b.Valid()
    ensures b.OnSuccess().Valid() && b.OnFailure(now).Valid()
  {
  }

  // ---------- the classifier ----------

  type Wallet = nat

  datatype Answer = Yes | No | Failed

  /** One `classify` call: the instants it reads, in order, and what the three endpoints would answer. */
  datatype Call = Call(wallet: Wallet, cacheAt: int, checkAt: int, outcomeAt: int, storeAt: int,
                       nft: Answer, katclaim: Answer, krc20: Answer) {
    predicate AnyElite() {
      nft == Yes || katclaim == Yes || krc20 == Yes
    }

    predicate AnyFailed() {
      nft == Failed || katclaim == Failed || krc20 == Failed
    }

    predicate InOrder() {
      cacheAt <= checkAt <= outcomeAt <= storeAt
    }
  }

  datatype Entry = Entry(tier: Tier, expiresAt: int)

  datatype Classifier = Classifier(cache: map<Wallet, Entry>, breaker: Breaker, ttl: nat) {
    predicate Hit(w: Wallet, now: int) {
      w in cache && cache[w].expiresAt > now
    }

    /** The cache after a lookup: an expired entry is dropped. */
    function Looked(w: Wallet, now: int): map<Wallet, Entry> {
      if w in cache && !Hit(w, now) then cache - {w} else cache
    }

    /** Whether the call goes to the upstream. */
    predicate Attempts(c: Call) {
      !Hit(c.wallet, c.cacheAt) && breaker.Allows(c.checkAt)
    }

    function Classify(c: Call): (Tier, Classifier) {
      if Hit(c.wallet, c.cacheAt) then (cache[c.wallet].tier, this)
      else
        var looked := this.(cache := Looked(c.wallet, c.cacheAt));
        if !breaker.Allows(c.checkAt) then (Standard, looked)
        else if c.AnyElite() then (Elite, looked.Stored(c, Elite))
        else if !c.AnyFailed() then (Standard, looked.Stored(c, Standard))
        else (Standard, looked.(breaker := breaker.OnFailure(c.outcomeAt)))
    }

    function Stored(c: Call, tier: Tier): Classifier {
      this.(breaker := breaker.OnSuccess(), cache := cache[c.wallet := Entry(tier, c.storeAt + ttl)])
    }
  }

  class KasplexTierClassifier {
    var cache: map<Wallet, Entry>
    var breaker: Breaker
    const ttl: nat

    function Snapshot(): Classifier
      reads this
    {
      Classifier(cache, breaker, ttl)
    }

    constructor (threshold: nat, cooldown: nat, ttl: nat)
      requires threshold <= U32_MAX
      ensures Snapshot() == Classifier(map[], New(threshold, cooldown), ttl) && breaker.Valid()
    {
      cache, breaker, this.ttl := map[], New(threshold, cooldown), ttl;
    }

    /** The order of cache, breaker and outcome calls. */
    method Classify(c: Call) returns (tier: Tier)
      requires breaker.Valid()
      modifies this
      ensures (tier, Snapshot()) == old(Snapshot()).Classify(c)
      ensures breaker.Valid()
    {
      if c.wallet in cache {
        if cache[c.wallet].expiresAt > c.cacheAt {
          return cache[c.wallet].tier;
        }
        cache := cache - {c.wallet};
      }
      if !breaker.Allows(c.checkAt) {
        return Standard;
      }
      if c.AnyElite() {
        tier := Elite;
      } else {
        tier := Standard;
      }
      if c.AnyElite() || !c.AnyFailed() {
        breaker := breaker.OnSuccess();
        cache := cache[c.wallet := Entry(tier, c.storeAt + ttl)];
      } else {
        OutcomesKeepValid(breaker, c.outcomeAt);
        breaker := breaker.OnFailure(c.outcomeAt);
      }
    }
  }

  // ---------- runs ----------

  /** `ks[j]` is the classifier before call `j`, `tried[j]` whether that call goes upstream. */
  ghost predicate IsRun(ks: seq<Classifier>, tried: seq<bool>, calls: seq<Call>) {
    && |ks| == |calls| + 1 && |tried| == |calls|
    && (forall j :: 0 <= j < |calls| ==> ks[j + 1] == ks[j].Classify(calls[j]).1)
    && (forall j {:trigger tried[j]} :: 0 <= j < |calls| ==> tried[j] == ks[j].Attempts(calls[j]))
  }

  function Count(tried: seq<bool>, i: nat, j: nat): nat
    requires i <= j <= |tried|
    decreases j
  {
    if i == j then 0 else Count(tried, i, j - 1) + (if tried[j - 1] then 1 else 0)
  }

  /** One call after the other, on a clock that does not step back. */
  ghost predicate Sequential(calls: seq<Call>) {
    && (forall j :: 0 <= j < |calls| ==> calls[j].InOrder())
    && (forall i, j :: 0 <= i < j < |calls| ==> calls[i].storeAt <= calls[j].cacheAt)
  }

  /** Every attempt of the run fails. */
  ghost predicate SuccessFree(tried: seq<bool>, calls: seq<Call>) {
    && |tried| == |calls|
    && forall j {:trigger tried[j]} :: 0 <= j < |calls| && tried[j] ==> !calls[j].AnyElite() && calls[j].AnyFailed()
  }

  lemma BreakerStep(k: Classifier, c: Call)
    requires k.breaker.Valid()
    ensures k.Classify(c).1.breaker.Valid()
    ensures !k.Attempts(c) ==> k.Classify(c).1.breaker == k.breaker
    ensures k.Attempts(c) && !c.AnyElite() && c.AnyFailed() ==>
              k.Classify(c).1.breaker == k.breaker.OnFailure(c.outcomeAt)
    ensures k.Classify(c).1.breaker.threshold == k.breaker.threshold
    ensures k.Classify(c).1.breaker.cooldown == k.breaker.cooldown
  {
    OutcomesKeepValid(k.breaker, c.outcomeAt);
  }

  lemma {:induction false} RunValid(ks: seq<Classifier>, tried: seq<bool>, calls: seq<Call>, j: nat)
    requires j <= |calls| && IsRun(ks, tried, calls) && ks[0].breaker.Valid()
    ensures var b := ks[j].breaker;
            b.Valid() && b.threshold == ks[0].breaker.threshold && b.cooldown == ks[0].breaker.cooldown
    ensures ks[j].ttl == ks[0].ttl
  {
    if j > 0 {
      RunValid(ks, tried, calls, j - 1);
      BreakerStep(ks[j - 1], calls[j - 1]);
      assert ks[j - 1 + 1] == ks[j - 1].Classify(calls[j - 1]).1;
    }
  }

  /**
    How `n` attempts since time `s`, the last of them done by `last`, are paid for: a closed
    breaker has counted each as a failure; an open one opened at least one cooldown after `s`
    for every attempt beyond the threshold.
   */
  ghost predicate PaidFor(b: Breaker, n: nat, s: int, last: int) {
    || n == 0
    || (b.state == Closed && n <= b.consecutiveFailures)
    || (b.state == Open && b.openedAt.Some? && s <= b.openedAt.value <= last
        && Cooldowns(n - Max1(b.threshold), b.cooldown) <= b.openedAt.value - s)
  }

  /** The total length of `n` cooldowns; none for a negative count. */
  function Cooldowns(n: int, cooldown: nat): (r: nat)
    decreases n
  {
    if n <= 0 then 0 else Cooldowns(n - 1, cooldown) + cooldown
  }

  lemma {:induction false} CooldownsIsProduct(n: int, cooldown: nat)
    ensures n * cooldown <= Cooldowns(n, cooldown)
    ensures n >= 0 ==> n * cooldown == Cooldowns(n, cooldown)
    decreases n
  {
    if n > 0 {
      CooldownsIsProduct(n - 1, cooldown);
      assert n * cooldown == (n - 1) * cooldown + cooldown;
    } else {
      assert n * cooldown <= 0;
    }
  }

  /** A failed attempt keeps the account, and at the attempt itself the bound already holds. */
  lemma FailurePaid(b: Breaker, n: nat, s: int, last: int, check: int, outcome: int)
    requires b.Valid() && PaidFor(b, n, s, last) && b.Allows(check)
    requires s <= check <= outcome && last <= check
    ensures Cooldowns(n + 1 - Max1(b.threshold), b.cooldown) <= check - s
    ensures PaidFor(b.OnFailure(outcome), n + 1, s, outcome)
  {
  }

  /** A breaker trace: each call either leaves the breaker alone or is an allowed attempt that fails. */
  ghost predicate FailingTrace(bs: seq<Breaker>, tried: seq<bool>, calls: seq<Call>) {
    && |bs| == |calls| + 1 && |tried| == |calls|
    && (forall j :: 0 <= j < |bs| ==>
          bs[j].Valid() && bs[j].threshold == bs[0].threshold && bs[j].cooldown == bs[0].cooldown)
    && (forall j :: 0 <= j < |calls| ==>
          bs[j + 1] == if tried[j] then bs[j].OnFailure(calls[j].outcomeAt) else bs[j])
    && (forall j :: 0 <= j < |calls| && tried[j] ==> bs[j].Allows(calls[j].checkAt))
  }

  /** Time order of call `m` against the first call of the window and the call before it. */
  lemma Ordered(calls: seq<Call>, i: nat, m: nat)
    requires i <= m < |calls| && Sequential(calls)
    ensures calls[i].checkAt <= calls[m].checkAt <= calls[m].outcomeAt
    ensures i < m ==> calls[m - 1].outcomeAt <= calls[m].checkAt && calls[i].checkAt <= calls[m - 1].outcomeAt
  {
    assert calls[i].InOrder() && calls[m].InOrder();
    if i < m {
      assert calls[m - 1].InOrder() && calls[i].storeAt <= calls[m].cacheAt && calls[m - 1].storeAt <= calls[m].cacheAt;
      if i < m - 1 {
        assert calls[i].storeAt <= calls[m - 1].cacheAt;
      }
    }
  }

  lemma {:induction false} TracePaid(bs: seq<Breaker>, tried: seq<bool>, calls: seq<Call>, i: nat, m: nat)
    requires i < m <= |calls| && Sequential(calls) && FailingTrace(bs, tried, calls)
    ensures PaidFor(bs[m], Count(tried, i, m), calls[i].checkAt, calls[m - 1].outcomeAt)
    decreases m
  {
    Ordered(calls, i, m - 1);
    var last := if m - 1 == i then calls[i].checkAt else calls[m - 2].outcomeAt;
    if m - 1 > i {
      TracePaid(bs, tried, calls, i, m - 1);
    }
    if tried[m - 1] {
      FailurePaid(bs[m - 1], Count(tried, i, m - 1), calls[i].checkAt, last,
                  calls[m - 1].checkAt, calls[m - 1].outcomeAt);
    }
  }

  lemma TraceBound(bs: seq<Breaker>, tried: seq<bool>, calls: seq<Call>, i: nat, j: nat)
    requires i <= j < |calls| && Sequential(calls) && FailingTrace(bs, tried, calls)
    ensures Cooldowns(Count(tried, i, j + 1) - Max1(bs[0].threshold), bs[0].cooldown)
            <= calls[j].checkAt - calls[i].checkAt
  {
    Ordered(calls, i, j);
    var last := if j == i then calls[i].checkAt else calls[j - 1].outcomeAt;
    if i < j {
      TracePaid(bs, tried, calls, i, j);
    }
    if tried[j] {
      FailurePaid(bs[j], Count(tried, i, j), calls[i].checkAt, last, calls[j].checkAt, calls[j].outcomeAt);
    } else {
      NoAttemptPaid(bs[j], Count(tried, i, j), calls[i].checkAt, last);
    }
  }

  lemma RunIsTrace(ks: seq<Classifier>, tried: seq<bool>, calls: seq<Call>) returns (bs: seq<Breaker>)
    requires IsRun(ks, tried, calls) && ks[0].breaker.Valid() && SuccessFree(tried, calls)
    ensures FailingTrace(bs, tried, calls) && bs[0] == ks[0].breaker
  {
    bs := seq(|ks|, j requires 0 <= j < |ks| => ks[j].breaker);
    forall j | 0 <= j < |bs|
      ensures bs[j].Valid() && bs[j].threshold == bs[0].threshold && bs[j].cooldown == bs[0].cooldown
    {
      RunValid(ks, tried, calls, j);
    }
    forall j | 0 <= j < |calls|
      ensures bs[j + 1] == if tried[j] then bs[j].OnFailure(calls[j].outcomeAt) else bs[j]
      ensures tried[j] ==> bs[j].Allows(calls[j].checkAt)
    {
      RunValid(ks, tried, calls, j);
      BreakerStep(ks[j], calls[j]);
    }
  }

  /**
    In every success-free run of classify calls on a clock that does not step back, calls `i`
    to `j` go upstream at most `max(threshold, 1)` times plus once per cooldown between them.
    Written without division, so it also covers a cooldown of zero.
   */
  lemma AttemptsBound(ks: seq<Classifier>, tried: seq<bool>, calls: seq<Call>, i: nat, j: nat)
    requires i <= j < |calls| && IsRun(ks, tried, calls) && ks[0].breaker.Valid()
    requires Sequential(calls) && SuccessFree(tried, calls)
    ensures (Count(tried, i, j + 1) - Max1(ks[0].breaker.threshold)) * ks[0].breaker.cooldown
            <= calls[j].checkAt - calls[i].checkAt
  {
    var bs := RunIsTrace(ks, tried, calls);
    TraceBound(bs, tried, calls, i, j);
    ProductWithin(Count(tried, i, j + 1) - Max1(bs[0].threshold), bs[0].cooldown, calls[j].checkAt - calls[i].checkAt);
  }

  lemma ProductWithin(n: int, cooldown: nat, d: int)
    requires Cooldowns(n, cooldown) <= d
    ensures n * cooldown <= d
  {
    CooldownsIsProduct(n, cooldown);
  }

  lemma NoAttemptPaid(b: Breaker, n: nat, s: int, last: int)
    requires b.Valid() && PaidFor(b, n, s, last) && s <= last
    ensures Cooldowns(n - Max1(b.threshold), b.cooldown) <= last - s
  {
  }

  // ---------- where a tier comes from ----------

  /** Call `i` went upstream and its answer is what the entry holds. */
  ghost predicate Sources(tried: seq<bool>, calls: seq<Call>, i: nat, w: Wallet, e: Entry, ttl: nat)
    requires i < |calls| == |tried|
  {
    && tried[i] && calls[i].wallet == w
    && e.expiresAt == calls[i].storeAt + ttl
    && (e.tier == Elite <==> calls[i].AnyElite())
    && (calls[i].AnyElite() || !calls[i].AnyFailed())
  }

  lemma StepSourced(k: Classifier, c: Call, w: Wallet)
    requires w in k.Classify(c).1.cache
    ensures (w in k.cache && k.cache[w] == k.Classify(c).1.cache[w])
            || (k.Attempts(c) && w == c.wallet && (c.AnyElite() || !c.AnyFailed()) &&
                k.Classify(c).1.cache[w] == Entry(if c.AnyElite() then Elite else Standard, c.storeAt + k.ttl))
  {
  }

  lemma {:induction false} CacheSourced(ks: seq<Classifier>, tried: seq<bool>, calls: seq<Call>, j: nat, w: Wallet)
    returns (i: nat)
    requires j <= |calls| && IsRun(ks, tried, calls) && ks[0].breaker.Valid()
    requires ks[0].cache == map[] && w in ks[j].cache
    ensures i < j && Sources(tried, calls, i, w, ks[j].cache[w], ks[0].ttl)
  {
    assert ks[j - 1 + 1] == ks[j - 1].Classify(calls[j - 1]).1;
    RunValid(ks, tried, calls, j - 1);
    StepSourced(ks[j - 1], calls[j - 1], w);
    if w in ks[j - 1].cache && ks[j - 1].cache[w] == ks[j].cache[w] {
      i := CacheSourced(ks, tried, calls, j - 1, w);
    } else {
      assert tried[j - 1] == ks[j - 1].Attempts(calls[j - 1]);
      i := j - 1;
    }
  }

  /**
    A wallet is only ever classified Elite on evidence: this call, or an earlier one for the
    same wallet whose answer is younger than the TTL, reached the upstream and got a yes.
    Errors, an open breaker and expired entries always fall back to Standard.
   */
  lemma EliteNeedsEvidence(ks: seq<Classifier>, tried: seq<bool>, calls: seq<Call>, j: nat) returns (i: nat)
    requires j < |calls| && IsRun(ks, tried, calls) && ks[0].breaker.Valid() && ks[0].cache == map[]
    requires ks[j].Classify(calls[j]).0 == Elite
    ensures i <= j && tried[i] && calls[i].wallet == calls[j].wallet && calls[i].AnyElite()
    ensures i < j ==> calls[j].cacheAt < calls[i].storeAt + ks[0].ttl
  {
    if ks[j].Hit(calls[j].wallet, calls[j].cacheAt) {
      i := CacheSourced(ks, tried, calls, j, calls[j].wallet);
    } else {
      i := j;
    }
  }

  // ---------- the exact answer: a reference without states or expiry ----------

  /**
    What the calls so far come to: failed attempts since the last decided one and the time of the
    last of them, and for each wallet its latest decided upstream answer and when it was stored.
    Nothing is ever dropped.
   */
  datatype Past = Past(failures: nat, lastFailure: int, elite: map<Wallet, bool>, storedAt: map<Wallet, int>)

  /** Three answers, one yes among them. */
  predicate SaysElite(c: Call) {
    c.nft == Yes || c.katclaim == Yes || c.krc20 == Yes
  }

  /** Three answers, a no each. */
  predicate SaysStandard(c: Call) {
    c.nft == No && c.katclaim == No && c.krc20 == No
  }

  datatype Settings = Settings(threshold: nat, cooldown: nat, ttl: nat)

  /** The wallet's latest answer is younger than the TTL. */
  predicate Remembered(p: Past, set_: Settings, w: Wallet, now: int) {
    w in p.elite && w in p.storedAt && now < p.storedAt[w] + set_.ttl
  }

  /** Fewer failures in a row than the threshold, one at least, or a cooldown since the last of them. */
  predicate Permits(p: Past, set_: Settings, now: int) {
    p.failures < set_.threshold || p.failures == 0 || set_.cooldown == 0 || now - p.lastFailure >= set_.cooldown
  }

  predicate GoesUpstream(p: Past, set_: Settings, c: Call) {
    !Remembered(p, set_, c.wallet, c.cacheAt) && Permits(p, set_, c.checkAt)
  }

  function After(p: Past, set_: Settings, c: Call): Past {
    if !GoesUpstream(p, set_, c) then p
    else if SaysElite(c) || SaysStandard(c) then
      Past(0, p.lastFailure, p.elite[c.wallet := SaysElite(c)], p.storedAt[c.wallet := c.storeAt])
    else p.(failures := p.failures + 1, lastFailure := c.outcomeAt)
  }

  /** The past before call `j` of a history. */
  function PastAt(calls: seq<Call>, set_: Settings, j: nat): Past
    requires j <= |calls|
  {
    if j == 0 then Past(0, 0, map[], map[]) else After(PastAt(calls, set_, j - 1), set_, calls[j - 1])
  }

  /** Elite is answered exactly when the remembered answer is yes, or there is none and a fresh one is. */
  predicate AnswersElite(p: Past, set_: Settings, c: Call) {
    if Remembered(p, set_, c.wallet, c.cacheAt) then p.elite[c.wallet] else Permits(p, set_, c.checkAt) && SaysElite(c)
  }

  ghost predicate BreakerShows(b: Breaker, p: Past, set_: Settings) {
    && b.threshold == set_.threshold <= U32_MAX && b.cooldown == set_.cooldown
    && if p.failures < Max1(set_.threshold) then
         b.state == Closed && b.consecutiveFailures == p.failures && b.openedAt == None
       else b.state == Open && b.openedAt == Some(p.lastFailure)
  }

  /** The cache holds latest answers, and lacks one only if it has expired by `now`. */
  ghost predicate CacheShows(cache: map<Wallet, Entry>, p: Past, ttl: nat, now: int) {
    && p.elite.Keys == p.storedAt.Keys
    && (forall w :: w in cache ==>
          w in p.elite && cache[w] == Entry(if p.elite[w] then Elite else Standard, p.storedAt[w] + ttl))
    && (forall w :: w in p.elite && w !in cache ==> p.storedAt[w] + ttl <= now)
  }

  lemma BreakerPermits(b: Breaker, p: Past, set_: Settings, now: int)
    requires BreakerShows(b, p, set_)
    ensures b.Allows(now) <==> Permits(p, set_, now)
  {
  }

  lemma CacheRemembers(k: Classifier, p: Past, set_: Settings, w: Wallet, then_: int, now: int)
    requires CacheShows(k.cache, p, set_.ttl, then_) && then_ <= now
    ensures k.Hit(w, now) <==> Remembered(p, set_, w, now)
    ensures k.Hit(w, now) ==> k.cache[w].tier == if p.elite[w] then Elite else Standard
  {
  }

  lemma FailureShows(b: Breaker, p: Past, set_: Settings, c: Call)
    requires BreakerShows(b, p, set_) && c.InOrder() && Permits(p, set_, c.checkAt)
    ensures BreakerShows(b.OnFailure(c.outcomeAt), p.(failures := p.failures + 1, lastFailure := c.outcomeAt), set_)
  {
  }

  lemma LookedShows(k: Classifier, p: Past, set_: Settings, w: Wallet, then_: int, now: int)
    requires CacheShows(k.cache, p, set_.ttl, then_) && then_ <= now && k.ttl == set_.ttl
    ensures CacheShows(k.Looked(w, now), p, set_.ttl, now)
  {
  }

  lemma StoredShows(cache: map<Wallet, Entry>, p: Past, set_: Settings, w: Wallet, elite: bool, at: int, now: int)
    requires CacheShows(cache, p, set_.ttl, now)
    ensures CacheShows(cache[w := Entry(if elite then Elite else Standard, at + set_.ttl)],
                       p.(elite := p.elite[w := elite], storedAt := p.storedAt[w := at]), set_.ttl, now)
  {
    assert p.elite[w := elite].Keys == p.elite.Keys + {w} && p.storedAt[w := at].Keys == p.storedAt.Keys + {w};
  }

  /** The three endpoints answer yes, no or an error, so no yes and no error is three noes. */
  lemma AnswersMean(c: Call)
    ensures c.AnyElite() <==> SaysElite(c)
    ensures !c.AnyElite() && !c.AnyFailed() <==> SaysStandard(c)
  {
  }

  ghost predicate Mirrors(k: Classifier, p: Past, set_: Settings, now: int) {
    k.ttl == set_.ttl && BreakerShows(k.breaker, p, set_) && CacheShows(k.cache, p, set_.ttl, now)
  }

  lemma StepMirrors(k: Classifier, p: Past, set_: Settings, c: Call, then_: int)
    requires Mirrors(k, p, set_, then_) && c.InOrder() && then_ <= c.cacheAt
    ensures k.Attempts(c) <==> GoesUpstream(p, set_, c)
    ensures k.Classify(c).0 == if AnswersElite(p, set_, c) then Elite else Standard
    ensures Mirrors(k.Classify(c).1, After(p, set_, c), set_, c.cacheAt)
  {
    AnswersMean(c);
    BreakerPermits(k.breaker, p, set_, c.checkAt);
    CacheRemembers(k, p, set_, c.wallet, then_, c.cacheAt);
    LookedShows(k, p, set_, c.wallet, then_, c.cacheAt);
    if GoesUpstream(p, set_, c) {
      if SaysElite(c) || SaysStandard(c) {
        StoredShows(k.Looked(c.wallet, c.cacheAt), p, set_, c.wallet, SaysElite(c), c.storeAt, c.cacheAt);
      } else {
        FailureShows(k.breaker, p, set_, c);
      }
    }
  }

  lemma {:induction false} RunMirrors(ks: seq<Classifier>, tried: seq<bool>, calls: seq<Call>, set_: Settings, j: nat)
    requires j <= |calls| && IsRun(ks, tried, calls) && Sequential(calls) && set_.threshold <= U32_MAX
    requires ks[0] == Classifier(map[], New(set_.threshold, set_.cooldown), set_.ttl)
    ensures Mirrors(ks[j], PastAt(calls, set_, j), set_, if j == 0 then 0 else calls[j - 1].cacheAt)
  {
    if j > 0 {
      RunMirrors(ks, tried, calls, set_, j - 1);
      assert ks[j - 1 + 1] == ks[j - 1].Classify(calls[j - 1]).1;
      var then_ := if j == 1 then calls[0].cacheAt else calls[j - 2].cacheAt;
      if j == 1 {
        assert Mirrors(ks[0], PastAt(calls, set_, 0), set_, then_);
      } else {
        assert calls[j - 2].InOrder() && calls[j - 2].storeAt <= calls[j - 1].cacheAt;
      }
      StepMirrors(ks[j - 1], PastAt(calls, set_, j - 1), set_, calls[j - 1], then_);
    }
  }

  /**
    In every run of calls one after the other, the exact answer and the exact upstream traffic: a
    call is answered from the wallet's latest decided answer while that is younger than the TTL,
    goes upstream otherwise unless the failures in a row have reached the threshold and the cooldown
    since the last of them is not over, and is Elite exactly when the answer it rests on is yes.
   */
  lemma ClassifyExactly(ks: seq<Classifier>, tried: seq<bool>, calls: seq<Call>, set_: Settings, j: nat)
    requires j < |calls| && IsRun(ks, tried, calls) && Sequential(calls) && set_.threshold <= U32_MAX
    requires ks[0] == Classifier(map[], New(set_.threshold, set_.cooldown), set_.ttl)
    ensures tried[j] <==> GoesUpstream(PastAt(calls, set_, j), set_, calls[j])
    ensures ks[j].Classify(calls[j]).0 == Elite <==> AnswersElite(PastAt(calls, set_, j), set_, calls[j])
  {
    RunMirrors(ks, tried, calls, set_, j);
    var then_ := if j == 0 then calls[0].cacheAt else calls[j - 1].cacheAt;
    if j == 0 {
      assert Mirrors(ks[0], PastAt(calls, set_, 0), set_, then_);
    } else {
      assert calls[j - 1].InOrder() && calls[j - 1].storeAt <= calls[j].cacheAt;
    }
    StepMirrors(ks[j], PastAt(calls, set_, j), set_, calls[j], then_);
  }
}

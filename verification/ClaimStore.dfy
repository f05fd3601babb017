/**
  Single-use, expiring claim challenges (api/src/claim.rs, `ChallengeStore`).

  Instants are integers; the signature check of one redeem request is the function
  `verifies` of the challenge that request carries.
 */
module ClaimStore {
  import opened Wrappers

  type Address = nat
  type Nonce = nat

  datatype Pending = Pending(challenge: Nonce, expiresAt: int)

  datatype Outcome = Redeemed(challenge: Nonce) | NoChallenge | BadSignature

  /** What `redeem_at` answers for the challenge it took out. */
  function Judge(p: Option<Pending>, verifies: Nonce -> bool, now: int): Outcome {
    match p
    case None => NoChallenge
    case Some(q) => if now >= q.expiresAt then NoChallenge
                    else if verifies(q.challenge) then Redeemed(q.challenge) else BadSignature
  }

  function Lookup(pending: map<Address, Pending>, a: Address): Option<Pending> {
    if a in pending then Some(pending[a]) else None
  }

  class ChallengeStore {
    const ttl: nat
    var pending: map<Address, Pending>

    constructor (ttl: nat)
      ensures this.ttl == ttl && pending == map[]
    {
      this.ttl, pending := ttl, map[];
    }

    method IssueAt(a: Address, nonce: Nonce, now: int) returns (r: Nonce)
      modifies this
      ensures pending == Step(old(pending), Issue(a, nonce, now), ttl) && r == nonce
    {
      pending := pending[a := Pending(nonce, now + ttl)];
      return nonce;
    }

    /** The challenge is consumed whatever the outcome. */
    method RedeemAt(a: Address, verifies: Nonce -> bool, now: int) returns (r: Outcome)
      modifies this
      ensures pending == Step(old(pending), Redeem(a, verifies, now), ttl) && a !in pending
      ensures r == Judge(Lookup(old(pending), a), verifies, now)
    {
      if a !in pending {
        assert pending - {a} == pending;
        return NoChallenge;
      }
      var p := pending[a];
      pending := pending - {a};
      if now >= p.expiresAt {
        return NoChallenge;
      }
      if verifies(p.challenge) {
        return Redeemed(p.challenge);
      } else {
        return BadSignature;
      }
    }

    method SweepExpired(now: int)
      modifies this
      ensures pending == Step(old(pending), Sweep(now), ttl)
    {
      pending := map a | a in pending && now < pending[a].expiresAt :: pending[a];
    }
  }

  datatype Call = Issue(a: Address, nonce: Nonce, now: int)
                | Redeem(a: Address, verifies: Nonce -> bool, now: int)
                | Sweep(now: int)

  function Step(pending: map<Address, Pending>, c: Call, ttl: nat): map<Address, Pending> {
    match c
    case Issue(a, nonce, now) => pending[a := Pending(nonce, now + ttl)]
    case Redeem(a, _, _) => pending - {a}
    case Sweep(now) => map a | a in pending && now < pending[a].expiresAt :: pending[a]
  }

  /** The store before call `j`. */
  function At(calls: seq<Call>, ttl: nat, j: nat): map<Address, Pending>
    requires j <= |calls|
  {
    if j == 0 then map[] else Step(At(calls, ttl, j - 1), calls[j - 1], ttl)
  }

  /** What the redeem at position `j` answers. */
  function ResultAt(calls: seq<Call>, ttl: nat, j: nat): Outcome
    requires j < |calls| && calls[j].Redeem?
  {
    Judge(Lookup(At(calls, ttl, j), calls[j].a), calls[j].verifies, calls[j].now)
  }

  // ---------- the reference: the history without sweeps ----------

  /** The latest issue for an address before call `j`, unless a redeem of it came after. */
  function Open(calls: seq<Call>, ttl: nat, a: Address, j: nat): Option<Pending>
    requires j <= |calls|
  {
    if j == 0 then None
    else match calls[j - 1]
         case Issue(b, nonce, now) => if b == a then Some(Pending(nonce, now + ttl)) else Open(calls, ttl, a, j - 1)
         case Redeem(b, _, _) => if b == a then None else Open(calls, ttl, a, j - 1)
         case Sweep(_) => Open(calls, ttl, a, j - 1)
  }

  ghost predicate InTime(calls: seq<Call>) {
    forall i, j :: 0 <= i < j < |calls| ==> calls[i].now <= calls[j].now
  }

  /** The store differs from the reference only in challenges that are expired already. */
  lemma {:induction false} StoreIsOpen(calls: seq<Call>, ttl: nat, a: Address, j: nat)
    requires 0 < j <= |calls| && InTime(calls)
    ensures var stored, open := Lookup(At(calls, ttl, j), a), Open(calls, ttl, a, j);
            stored == open || (stored == None && open.Some? && open.value.expiresAt <= calls[j - 1].now)
  {
    if j > 1 {
      StoreIsOpen(calls, ttl, a, j - 1);
      assert calls[j - 2].now <= calls[j - 1].now;
    }
  }

  /**
    With a clock that does not step back, a redeem answers exactly what the latest issue for
    its address says, if no redeem of that address came in between: success with that nonce
    precisely when it is younger than the TTL and the signature verifies.
   */
  lemma RedeemJudgesLatestIssue(calls: seq<Call>, ttl: nat, j: nat)
    requires j < |calls| && calls[j].Redeem? && InTime(calls)
    ensures ResultAt(calls, ttl, j) == Judge(Open(calls, ttl, calls[j].a, j), calls[j].verifies, calls[j].now)
  {
    if j > 0 {
      StoreIsOpen(calls, ttl, calls[j].a, j);
      assert calls[j - 1].now <= calls[j].now;
    }
  }

  /** `i` is the issue a reference lookup found: nothing for that address happened since. */
  lemma {:induction false} OpenIsLatestIssue(calls: seq<Call>, ttl: nat, a: Address, j: nat) returns (i: nat)
    requires j <= |calls| && Open(calls, ttl, a, j).Some?
    ensures i < j && calls[i] == Issue(a, Open(calls, ttl, a, j).value.challenge, calls[i].now)
    ensures Open(calls, ttl, a, j).value.expiresAt == calls[i].now + ttl
    ensures forall m :: i < m < j && !calls[m].Sweep? ==> calls[m].a != a
  {
    if calls[j - 1].Issue? && calls[j - 1].a == a {
      i := j - 1;
    } else {
      i := OpenIsLatestIssue(calls, ttl, a, j - 1);
    }
  }

  /** A successful redeem names its issue: the latest for that address, unexpired, not redeemed since. */
  lemma SuccessHasIssue(calls: seq<Call>, ttl: nat, j: nat) returns (i: nat)
    requires j < |calls| && calls[j].Redeem? && InTime(calls) && ResultAt(calls, ttl, j).Redeemed?
    ensures i < j && calls[i] == Issue(calls[j].a, ResultAt(calls, ttl, j).challenge, calls[i].now)
    ensures calls[j].now < calls[i].now + ttl && calls[j].verifies(ResultAt(calls, ttl, j).challenge)
    ensures forall m :: i < m < j && !calls[m].Sweep? ==> calls[m].a != calls[j].a
  {
    RedeemJudgesLatestIssue(calls, ttl, j);
    i := OpenIsLatestIssue(calls, ttl, calls[j].a, j);
  }

  /** Call `i` issued `n` to the address of redeem `j`, nothing else touched it, and it is younger than the TTL. */
  ghost predicate LiveIssue(calls: seq<Call>, ttl: nat, i: nat, n: Nonce, j: nat)
    requires j < |calls| && calls[j].Redeem?
  {
    && i < j && calls[i].Issue? && calls[i].a == calls[j].a && calls[i].nonce == n
    && (forall m :: i < m < j && (calls[m].Issue? || calls[m].Redeem?) ==> calls[m].a != calls[j].a)
    && calls[j].now < calls[i].now + ttl
  }

  lemma {:induction false} IssueIsOpen(calls: seq<Call>, ttl: nat, i: nat, j: nat)
    requires i < j <= |calls| && calls[i].Issue?
    requires forall m :: i < m < j && !calls[m].Sweep? ==> calls[m].a != calls[i].a
    ensures Open(calls, ttl, calls[i].a, j) == Some(Pending(calls[i].nonce, calls[i].now + ttl))
    decreases j
  {
    if i < j - 1 {
      IssueIsOpen(calls, ttl, i, j - 1);
    }
  }

  /** A live issue decides the redeem: its nonce if the signature verifies, a bad signature otherwise. */
  lemma LiveIssueDecides(calls: seq<Call>, ttl: nat, i: nat, n: Nonce, j: nat)
    requires j < |calls| && calls[j].Redeem? && InTime(calls) && LiveIssue(calls, ttl, i, n, j)
    ensures ResultAt(calls, ttl, j) == if calls[j].verifies(n) then Redeemed(n) else BadSignature
  {
    IssueIsOpen(calls, ttl, i, j);
    RedeemJudgesLatestIssue(calls, ttl, j);
  }

  /** Any answer but `NoChallenge` has a live issue. */
  lemma AnswerHasLiveIssue(calls: seq<Call>, ttl: nat, j: nat) returns (i: nat, n: Nonce)
    requires j < |calls| && calls[j].Redeem? && InTime(calls) && ResultAt(calls, ttl, j) != NoChallenge
    ensures LiveIssue(calls, ttl, i, n, j)
  {
    RedeemJudgesLatestIssue(calls, ttl, j);
    i := OpenIsLatestIssue(calls, ttl, calls[j].a, j);
    n := calls[i].nonce;
  }

  /**
    On a clock that does not step back, the answer of every redeem in terms of the history alone:
    it succeeds with `n` exactly when `n` is the live issue and the signature verifies, it is a bad
    signature exactly when there is a live issue and it does not, and otherwise there is no challenge.
   */
  lemma RedeemAnswersExactly(calls: seq<Call>, ttl: nat, j: nat)
    requires j < |calls| && calls[j].Redeem? && InTime(calls)
    ensures forall n :: ResultAt(calls, ttl, j) == Redeemed(n) <==>
                        exists i :: LiveIssue(calls, ttl, i, n, j) && calls[j].verifies(n)
    ensures ResultAt(calls, ttl, j) == BadSignature <==>
            exists i, n :: LiveIssue(calls, ttl, i, n, j) && !calls[j].verifies(n)
    ensures ResultAt(calls, ttl, j) == NoChallenge <==> forall i, n :: !LiveIssue(calls, ttl, i, n, j)
  {
    forall i, n | LiveIssue(calls, ttl, i, n, j)
      ensures ResultAt(calls, ttl, j) == if calls[j].verifies(n) then Redeemed(n) else BadSignature
    {
      LiveIssueDecides(calls, ttl, i, n, j);
    }
    if ResultAt(calls, ttl, j) != NoChallenge {
      var i, n := AnswerHasLiveIssue(calls, ttl, j);
      assert LiveIssue(calls, ttl, i, n, j);
    }
  }

  // ---------- sweeps are invisible ----------

  function WithoutSweeps(calls: seq<Call>): seq<Call> {
    if calls == [] then []
    else
      var c := calls[|calls| - 1];
      WithoutSweeps(calls[..|calls| - 1]) + if c.Sweep? then [] else [c]
  }

  lemma {:induction false} OpenPrefix(calls: seq<Call>, more: seq<Call>, ttl: nat, a: Address, j: nat)
    requires j <= |calls|
    ensures Open(calls + more, ttl, a, j) == Open(calls, ttl, a, j)
  {
    if j > 0 {
      assert (calls + more)[j - 1] == calls[j - 1];
      OpenPrefix(calls, more, ttl, a, j - 1);
    }
  }

  lemma {:induction false} OpenIgnoresSweeps(calls: seq<Call>, ttl: nat, a: Address)
    ensures Open(WithoutSweeps(calls), ttl, a, |WithoutSweeps(calls)|) == Open(calls, ttl, a, |calls|)
  {
    if calls != [] {
      var front, c := calls[..|calls| - 1], calls[|calls| - 1];
      var kept := WithoutSweeps(front);
      OpenIgnoresSweeps(front, ttl, a);
      assert front + [c] == calls;
      OpenPrefix(front, [c], ttl, a, |front|);
      if !c.Sweep? {
        OpenPrefix(kept, [c], ttl, a, |kept|);
        assert (kept + [c])[|kept|] == c;
      } else {
        assert WithoutSweeps(calls) == kept;
      }
    }
  }

  /**
    Two histories that differ only in where expiry sweeps happen give every redeem the same
    answer.
   */
  lemma SweepsChangeNoResult(left: seq<Call>, right: seq<Call>, ttl: nat, r: Call)
    requires r.Redeem? && InTime(left + [r]) && InTime(right + [r])
    requires WithoutSweeps(left) == WithoutSweeps(right)
    ensures ResultAt(left + [r], ttl, |left|) == ResultAt(right + [r], ttl, |right|)
  {
    OpenIgnoresSweeps(left, ttl, r.a);
    OpenIgnoresSweeps(right, ttl, r.a);
    OpenPrefix(left, [r], ttl, r.a, |left|);
    OpenPrefix(right, [r], ttl, r.a, |right|);
    RedeemJudgesLatestIssue(left + [r], ttl, |left|);
    RedeemJudgesLatestIssue(right + [r], ttl, |right|);
  }

  // ---------- successes never exceed issues ----------

  function Issues(calls: seq<Call>, a: Address, j: nat): nat
    requires j <= |calls|
  {
    if j == 0 then 0
    else Issues(calls, a, j - 1) + (if calls[j - 1].Issue? && calls[j - 1].a == a then 1 else 0)
  }

  function Successes(calls: seq<Call>, ttl: nat, a: Address, j: nat): nat
    requires j <= |calls|
  {
    if j == 0 then 0
    else Successes(calls, ttl, a, j - 1) +
         (if calls[j - 1].Redeem? && calls[j - 1].a == a && ResultAt(calls, ttl, j - 1).Redeemed? then 1 else 0)
  }

  /**
    On any clock, an address redeems at most as often as challenges were issued for it; a stored
    challenge is one to spare.
   */
  lemma {:induction false} SuccessesWithinIssues(calls: seq<Call>, ttl: nat, a: Address, j: nat)
    requires j <= |calls|
    ensures Successes(calls, ttl, a, j) + (if a in At(calls, ttl, j) then 1 else 0) <= Issues(calls, a, j)
  {
    if j > 0 {
      SuccessesWithinIssues(calls, ttl, a, j - 1);
    }
  }
}

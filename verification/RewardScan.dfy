/**
  The shielded reward scan (accountant/src/shielded_scan.rs): which outputs of a page of blocks
  are rewards, which blocks are deep enough to ingest, and the loop that walks the selected chain
  from a stored cursor, page by page. The node's answers are a sequence of replies; whole runs
  of scans and recordings are in `RewardRuns`.
 */
module RewardScan {
  import opened Wrappers

  type Hash = nat
  type Script = seq<bv8>

  const I64_LIMIT := 0x8000_0000_0000_0000
  const U32_LIMIT := 0x1_0000_0000
  const SAFETY_DAA := 50
  const MAX_PAGES := 50

  datatype Output = Output(script: Script, value: nat)

  datatype Block = Block(hash: Hash, daa: nat, txid: nat, outputs: seq<Output>)

  datatype Utxo = Utxo(txid: nat, index: nat, amount: nat, daa: nat) {
    function Outpoint(): (nat, nat) {
      (txid, index)
    }
  }

  // ---------- extracting rewards from a page ----------

  /** Output `i` of block `b` pays the treasury and fits the reward record. */
  predicate Eligible(treasury: seq<Script>, b: Block, i: nat) {
    i < |b.outputs| && i < U32_LIMIT && b.outputs[i].script in treasury && b.outputs[i].value < I64_LIMIT
  }

  function UtxoOf(b: Block, i: nat): Utxo
    requires i < |b.outputs|
  {
    Utxo(b.txid, i, b.outputs[i].value, b.daa)
  }

  /** The rewards among the first `n` outputs of a block. */
  function RewardsIn(treasury: seq<Script>, b: Block, n: nat): seq<Utxo>
    requires n <= |b.outputs|
  {
    if n == 0 then []
    else RewardsIn(treasury, b, n - 1) + if Eligible(treasury, b, n - 1) then [UtxoOf(b, n - 1)] else []
  }

  /** The rewards of the first `k` blocks. */
  function Rewards(treasury: seq<Script>, blocks: seq<Block>, k: nat): seq<Utxo>
    requires k <= |blocks|
  {
    if k == 0 then []
    else Rewards(treasury, blocks, k - 1) + RewardsIn(treasury, blocks[k - 1], |blocks[k - 1].outputs|)
  }

  /** How many leading blocks lie at or below the safe DAA score. */
  function Ingestible(blocks: seq<Block>, safe: nat, from: nat): (k: nat)
    requires from <= |blocks|
    ensures from <= k <= |blocks|
    ensures forall j :: from <= j < k ==> blocks[j].daa <= safe
    ensures k < |blocks| ==> blocks[k].daa > safe
    decreases |blocks| - from
  {
    if from == |blocks| || blocks[from].daa > safe then from else Ingestible(blocks, safe, from + 1)
  }

  /** The reward is output `i` of the block, which pays the treasury less than 2^63 and has a 32-bit index. */
  ghost predicate Pays(b: Block, treasury: seq<Script>, i: nat, u: Utxo) {
    && i < |b.outputs| && i < 0x1_0000_0000 && b.outputs[i].script in treasury
    && b.outputs[i].value < 0x8000_0000_0000_0000
    && u.txid == b.txid && u.index == i && u.amount == b.outputs[i].value && u.daa == b.daa
  }

  /** What the eligibility test and the record built from an output mean. */
  lemma EligiblePays(treasury: seq<Script>, b: Block, i: nat, u: Utxo)
    ensures Eligible(treasury, b, i) && u == UtxoOf(b, i) <==> Pays(b, treasury, i, u)
  {
  }

  /** The extracted rewards are exactly the paying outputs of the first `k` blocks. */
  lemma RewardsArePayments(treasury: seq<Script>, blocks: seq<Block>, k: nat, u: Utxo)
    requires k <= |blocks|
    ensures u in Rewards(treasury, blocks, k) <==> exists j, i :: 0 <= j < k && Pays(blocks[j], treasury, i, u)
  {
    if u in Rewards(treasury, blocks, k) {
      var j, i := RewardsSound(treasury, blocks, k, u);
      EligiblePays(treasury, blocks[j], i, u);
    }
    if j, i :| 0 <= j < k && Pays(blocks[j], treasury, i, u) {
      EligiblePays(treasury, blocks[j], i, u);
      RewardsComplete(treasury, blocks, k, j, i);
    }
  }

  /**
    The extraction loop. A reward is returned exactly when it is an output, paying the treasury,
    of one of the leading blocks at or below the safe score.
   */
  method ExtractTreasuryRewards(blocks: seq<Block>, treasury: seq<Script>, safe: nat)
    returns (rewards: seq<Utxo>, last: Option<Hash>)
    ensures var k := Ingestible(blocks, safe, 0);
            forall u :: u in rewards <==> exists j, i :: 0 <= j < k && Pays(blocks[j], treasury, i, u)
    ensures var k := Ingestible(blocks, safe, 0);
            rewards == Rewards(treasury, blocks, k) && last == if k == 0 then None else Some(blocks[k - 1].hash)
  {
    rewards, last := [], None;
    var j := 0;
    while j < |blocks| && blocks[j].daa <= safe
      invariant j <= |blocks| && Ingestible(blocks, safe, 0) == Ingestible(blocks, safe, j)
      invariant rewards == Rewards(treasury, blocks, j)
      invariant last == if j == 0 then None else Some(blocks[j - 1].hash)
    {
      var b := blocks[j];
      for i := 0 to |b.outputs|
        invariant rewards == Rewards(treasury, blocks, j) + RewardsIn(treasury, b, i)
      {
        if b.outputs[i].script in treasury && b.outputs[i].value < I64_LIMIT && i < U32_LIMIT {
          rewards := rewards + [UtxoOf(b, i)];
        }
      }
      last := Some(b.hash);
      j := j + 1;
    }
    forall u
      ensures u in rewards <==> exists n, i :: 0 <= n < j && Pays(blocks[n], treasury, i, u)
    {
      RewardsArePayments(treasury, blocks, j, u);
    }
  }

  lemma {:induction false} RewardsInSound(treasury: seq<Script>, b: Block, n: nat, u: Utxo) returns (i: nat)
    requires n <= |b.outputs| && u in RewardsIn(treasury, b, n)
    ensures i < n && Eligible(treasury, b, i) && u == UtxoOf(b, i)
  {
    if u in RewardsIn(treasury, b, n - 1) {
      i := RewardsInSound(treasury, b, n - 1, u);
    } else {
      i := n - 1;
    }
  }

  lemma {:induction false} RewardsInComplete(treasury: seq<Script>, b: Block, n: nat, i: nat)
    requires i < n <= |b.outputs| && Eligible(treasury, b, i)
    ensures UtxoOf(b, i) in RewardsIn(treasury, b, n)
  {
    if i < n - 1 {
      RewardsInComplete(treasury, b, n - 1, i);
    }
  }

  /** Every extracted reward is an eligible output of an ingested block. */
  lemma {:induction false} RewardsSound(treasury: seq<Script>, blocks: seq<Block>, k: nat, u: Utxo)
    returns (j: nat, i: nat)
    requires k <= |blocks| && u in Rewards(treasury, blocks, k)
    ensures j < k && Eligible(treasury, blocks[j], i) && u == UtxoOf(blocks[j], i)
  {
    if u in Rewards(treasury, blocks, k - 1) {
      j, i := RewardsSound(treasury, blocks, k - 1, u);
    } else {
      j := k - 1;
      i := RewardsInSound(treasury, blocks[j], |blocks[j].outputs|, u);
    }
  }

  /** Every eligible output of an ingested block is extracted. */
  lemma {:induction false} RewardsComplete(treasury: seq<Script>, blocks: seq<Block>, k: nat, j: nat, i: nat)
    requires j < k <= |blocks| && Eligible(treasury, blocks[j], i)
    ensures UtxoOf(blocks[j], i) in Rewards(treasury, blocks, k)
  {
    if j < k - 1 {
      RewardsComplete(treasury, blocks, k - 1, j, i);
    } else {
      RewardsInComplete(treasury, blocks[j], |blocks[j].outputs|, i);
    }
  }

  // ---------- the maturity gate ----------

  function SaturatingSub(a: nat, b: nat): nat {
    if a < b then 0 else a - b
  }

  function SafeIngestDaa(virtual_: nat, maturity: nat): nat {
    SaturatingSub(SaturatingSub(virtual_, maturity), SAFETY_DAA)
  }

  predicate IsMature(virtual_: nat, daa: nat, maturity: nat) {
    virtual_ >= daa && virtual_ - daa >= maturity
  }

  /** A block above DAA 0 is safe to ingest exactly when it is the maturity and 50 more below the score. */
  lemma SafeMeans(virtual_: nat, maturity: nat, daa: nat)
    requires daa > 0
    ensures daa <= SafeIngestDaa(virtual_, maturity) <==> daa + maturity + 50 <= virtual_
  {
  }

  /** The tracker's gate, without the subtraction. */
  lemma MatureMeans(virtual_: nat, daa: nat, maturity: nat)
    ensures IsMature(virtual_, daa, maturity) <==> daa + maturity <= virtual_
  {
  }

  /**
    A block the scanner ingests at score `v2` passes the tracker's gate at score `v1`, read
    earlier and at most the margin behind, except exactly a block at DAA 0 on a young chain.
   */
  lemma IngestedIsMature(v1: nat, v2: nat, daa: nat, maturity: nat)
    requires daa <= SafeIngestDaa(v2, maturity) && v2 <= v1 + 50
    ensures IsMature(v1, daa, maturity) <==> daa > 0 || v1 >= maturity
  {
    if daa > 0 {
      SafeMeans(v2, maturity, daa);
    }
  }

  /**
    The margin is exactly what the two reads of the score may differ by: everything the scanner
    can ingest above DAA 0 passes the tracker's gate if and only if the scanner's score is at
    most the margin above the tracker's.
   */
  lemma MarginIsExact(v1: nat, v2: nat, maturity: nat)
    requires v2 > maturity + 50
    ensures (forall daa: nat :: 0 < daa <= SafeIngestDaa(v2, maturity) ==> IsMature(v1, daa, maturity))
            <==> v2 <= v1 + 50
  {
    var safe := v2 - maturity - 50;
    SafeMeans(v2, maturity, safe);
    if v2 > v1 + 50 {
      assert !IsMature(v1, safe, maturity);
    }
    forall daa: nat | 0 < daa <= SafeIngestDaa(v2, maturity)
      ensures v2 <= v1 + 50 ==> IsMature(v1, daa, maturity)
    {
      SafeMeans(v2, maturity, daa);
    }
  }

  // ---------- one scan ----------

  datatype Reply = Page(blocks: seq<Block>) | Reorged(pruningPoint: Hash) | Failed

  datatype Status = Running | Done | Aborted

  /** The scanner's stored cursor and the locals of its page loop. */
  datatype Scan = Scan(stored: Option<Hash>, cursor: Hash, rewards: seq<Utxo>, status: Status)

  function ApplyReply(treasury: seq<Script>, safe: nat, s: Scan, r: Reply): Scan {
    match r
    case Failed => s.(status := Aborted)
    case Reorged(pp) => s.(stored := Some(pp), status := Done)
    case Page(bs) =>
      if bs == [] then s.(status := Done)
      else
        var k := Ingestible(bs, safe, 0);
        if k == 0 then s.(status := Done)
        else
          Scan(Some(bs[k - 1].hash), bs[k - 1].hash, s.rewards + Rewards(treasury, bs, k),
               if bs[|bs| - 1].daa > safe then Done else Running)
  }

  /** The scan after the first `n` replies; once it has ended, no further reply is asked for. */
  function ScanAfter(treasury: seq<Script>, safe: nat, s: Scan, replies: seq<Reply>, n: nat): Scan
    requires n <= |replies|
  {
    if n == 0 then s
    else
      var before := ScanAfter(treasury, safe, s, replies, n - 1);
      if before.status.Running? then ApplyReply(treasury, safe, before, replies[n - 1]) else before
  }

  class ShieldedRewardScanner {
    const treasury: seq<Script>
    const maturity: nat
    var stored: Option<Hash>

    constructor (treasury: seq<Script>, maturity: nat, stored: Option<Hash>)
      ensures this.treasury == treasury && this.maturity == maturity && this.stored == stored
    {
      this.treasury, this.maturity, this.stored := treasury, maturity, stored;
    }

    /** One turn of the page loop. */
    method HandleReply(safe: nat, reply: Reply, cursor: Hash, rewards: seq<Utxo>)
      returns (cursor': Hash, rewards': seq<Utxo>, stop: bool, failed: bool)
      modifies this
      ensures var s := ApplyReply(treasury, safe, Scan(old(stored), cursor, rewards, Running), reply);
              stored == s.stored && cursor' == s.cursor && rewards' == s.rewards &&
              stop == !s.status.Running? && failed == s.status.Aborted?
    {
      cursor', rewards', stop, failed := cursor, rewards, true, false;
      match reply {
        case Failed =>
          failed := true;
        case Reorged(pp) =>
          stored := Some(pp);
        case Page(blocks) =>
          if blocks != [] {
            var found, last := ExtractTreasuryRewards(blocks, treasury, safe);
            rewards' := rewards' + found;
            match last {
              case Some(h) =>
                stored := Some(h);
                cursor' := h;
                stop := blocks[|blocks| - 1].daa > safe;
              case None =>
            }
          }
      }
    }

    /** The page loop over the node's replies; `None` stands for the error return. */
    method GetPoolCoinbaseUtxos(virtual_: nat, pruningPoint: Hash, replies: seq<Reply>)
      returns (r: Option<seq<Utxo>>)
      requires |replies| == 50
      modifies this
      ensures var end := ScanAfter(treasury, SafeIngestDaa(virtual_, maturity),
                                   Scan(old(stored), old(stored).GetOr(pruningPoint), [], Running), replies, 50);
              stored == end.stored && r == if end.status.Aborted? then None else Some(end.rewards)
    {
      var safe := SafeIngestDaa(virtual_, maturity);
      var cursor, allRewards := stored.GetOr(pruningPoint), [];
      ghost var begin := Scan(stored, cursor, [], Running);
      for page := 0 to MAX_PAGES
        invariant ScanAfter(treasury, safe, begin, replies, page) ==
                  Scan(stored, cursor, allRewards, Running)
      {
        ghost var before := ScanAfter(treasury, safe, begin, replies, page);
        var stop, failed;
        cursor, allRewards, stop, failed := HandleReply(safe, replies[page], cursor, allRewards);
        assert ScanAfter(treasury, safe, begin, replies, page + 1) == ApplyReply(treasury, safe, before, replies[page]);
        if stop {
          ScanStops(treasury, safe, begin, replies, page + 1, MAX_PAGES);
          return if failed then None else Some(allRewards);
        }
      }
      return Some(allRewards);
    }
  }

  lemma {:induction false} ScanStops(treasury: seq<Script>, safe: nat, s: Scan, replies: seq<Reply>, n: nat, m: nat)
    requires n <= m <= |replies| && !ScanAfter(treasury, safe, s, replies, n).status.Running?
    ensures ScanAfter(treasury, safe, s, replies, m) == ScanAfter(treasury, safe, s, replies, n)
  {
    if n < m {
      ScanStops(treasury, safe, s, replies, n, m - 1);
    }
  }

  // ---------- a whole scan of one chain ----------

  /** The node serves page `p` from position `at[p]` of the blocks after the cursor, an empty one only at their end. */
  ghost predicate Serves(all: seq<Block>, safe: nat, at: seq<nat>, counts: seq<nat>, replies: seq<Reply>) {
    && |at| == |replies| + 1 && |counts| == |replies| && at[0] == 0
    && (forall p :: 0 <= p < |replies| ==> ServesPage(all, safe, at[p], counts[p], at[p + 1], replies[p]))
  }

  ghost predicate ServesPage(all: seq<Block>, safe: nat, from: nat, count: nat, to: nat, reply: Reply) {
    && from + count <= |all| && (count == 0 ==> from == |all|)
    && reply == Page(all[from..from + count])
    && to == from + Ingestible(all[from..from + count], safe, 0)
  }

  lemma {:induction false} RewardsOfPage(treasury: seq<Script>, all: seq<Block>, from: nat, count: nat, k: nat)
    requires from + count <= |all| && k <= count
    ensures Rewards(treasury, all, from) + Rewards(treasury, all[from..from + count], k) ==
            Rewards(treasury, all, from + k)
  {
    if k > 0 {
      RewardsOfPage(treasury, all, from, count, k - 1);
      assert all[from..from + count][k - 1] == all[from + k - 1];
    }
  }

  /** Where a scan stands: everything before `at` ingested, its rewards collected, the cursor on the last block. */
  ghost predicate StandsAt(treasury: seq<Script>, all: seq<Block>, safe: nat, s: Scan, now: Scan, at: nat) {
    && at <= |all| && (forall i :: 0 <= i < at ==> all[i].daa <= safe)
    && now.rewards == s.rewards + Rewards(treasury, all, at)
    && now.cursor == (if at == 0 then s.cursor else all[at - 1].hash)
    && now.stored == (if at == 0 then s.stored else Some(all[at - 1].hash))
  }

  lemma PageIngests(all: seq<Block>, safe: nat, from: nat, count: nat, k: nat)
    requires from + count <= |all| && k == Ingestible(all[from..from + count], safe, 0)
    ensures k <= count && (forall i :: from <= i < from + k ==> all[i].daa <= safe)
    ensures k < count ==> all[from + k].daa > safe
  {
    var page := all[from..from + count];
    forall i | from <= i < from + k
      ensures all[i].daa <= safe
    {
      assert page[i - from] == all[i];
    }
    assert k < count ==> page[k] == all[from + k];
  }

  /** What a page does to a running scan. */
  lemma PageApplies(treasury: seq<Script>, safe: nat, now: Scan, page: seq<Block>)
    requires now.status.Running?
    ensures var k, after := Ingestible(page, safe, 0), ApplyReply(treasury, safe, now, Page(page));
            && after.rewards == now.rewards + Rewards(treasury, page, k)
            && after.cursor == (if k == 0 then now.cursor else page[k - 1].hash)
            && after.stored == (if k == 0 then now.stored else Some(page[k - 1].hash))
            && after.status == if k > 0 && page[|page| - 1].daa <= safe then Running else Done
  {
    assert now.rewards + [] == now.rewards;
  }

  lemma PageMoves(treasury: seq<Script>, all: seq<Block>, safe: nat, s: Scan, now: Scan, from: nat, count: nat,
                  to: nat, reply: Reply)
    requires StandsAt(treasury, all, safe, s, now, from) && now.status.Running?
    requires ServesPage(all, safe, from, count, to, reply)
    ensures var after := ApplyReply(treasury, safe, now, reply);
            && StandsAt(treasury, all, safe, s, after, to)
            && (after.status.Running? ==> to > from && all[from + count - 1].daa <= safe)
            && (!after.status.Running? ==> after.status.Done? && (to == |all| || all[to].daa > safe))
  {
    var page := all[from..from + count];
    var k := Ingestible(page, safe, 0);
    PageIngests(all, safe, from, count, k);
    PageApplies(treasury, safe, now, page);
    RewardsOfPage(treasury, all, from, count, k);
    assert k > 0 ==> page[k - 1] == all[from + k - 1];
    assert count > 0 ==> page[count - 1] == all[from + count - 1];
    assert s.rewards + (Rewards(treasury, all, from) + Rewards(treasury, page, k)) ==
           s.rewards + Rewards(treasury, all, from) + Rewards(treasury, page, k);
  }

  /**
    A scan answered from one chain collects exactly the rewards of a prefix of the blocks after its
    cursor, in order and once each, and leaves the cursor on the last of them. If it ends by itself,
    that prefix is everything up to the first block above the safe score; while it goes on, every
    page has moved it forward.
   */
  lemma {:induction false} ScanIsComplete(treasury: seq<Script>, all: seq<Block>, safe: nat, s: Scan, at: seq<nat>,
                                          counts: seq<nat>, replies: seq<Reply>, n: nat)
    requires s.status.Running? && n <= |replies| && Serves(all, safe, at, counts, replies)
    requires n > 0 ==> ScanAfter(treasury, safe, s, replies, n - 1).status.Running?
    ensures var now := ScanAfter(treasury, safe, s, replies, n);
            && StandsAt(treasury, all, safe, s, now, at[n])
            && (now.status.Running? ==> at[n] >= n)
            && (!now.status.Running? ==> now.status.Done? && (at[n] == |all| || all[at[n]].daa > safe))
  {
    if n > 0 {
      ScanIsComplete(treasury, all, safe, s, at, counts, replies, n - 1);
      assert ServesPage(all, safe, at[n - 1], counts[n - 1], at[n - 1 + 1], replies[n - 1]);
      var before := ScanAfter(treasury, safe, s, replies, n - 1);
      PageMoves(treasury, all, safe, s, before, at[n - 1], counts[n - 1], at[n], replies[n - 1]);
    }
  }

  /** A failed request keeps what was stored and aborts; a reorganisation stores the pruning point and ends the scan. */
  lemma ScanInterrupted(treasury: seq<Script>, safe: nat, s: Scan, replies: seq<Reply>, n: nat)
    requires 0 < n <= |replies| && ScanAfter(treasury, safe, s, replies, n - 1).status.Running?
    ensures var before, now := ScanAfter(treasury, safe, s, replies, n - 1), ScanAfter(treasury, safe, s, replies, n);
            && (replies[n - 1].Failed? ==> now == before.(status := Aborted))
            && (replies[n - 1].Reorged? ==>
                  now == before.(stored := Some(replies[n - 1].pruningPoint), status := Done))
  {
  }
}

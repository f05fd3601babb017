/**
  The coinbase inclusion branch of a multi-transaction Kaspa parent
  (bridge/src/merged.rs, `coinbase_merkle_branch`).

  Hashes stay abstract: `merge` is the node's two-to-one Merkle hash and `zero` its zero
  hash, and everything below holds for every choice of the two.
 */
module CoinbaseMerkle {
  import opened Wrappers

  function Pow2(k: nat): (p: nat)
    ensures p >= 1
  {
    if k == 0 then 1 else 2 * Pow2(k - 1)
  }

  /**
    Reference definition on the transaction list alone: the root of the tree of height `k` whose
    leftmost leaves are the transactions. A half without transactions counts as the zero hash.
   */
  function Tree<H>(txs: seq<H>, k: nat, merge: (H, H) -> H, zero: H): H
    requires 0 < |txs| <= Pow2(k)
    decreases k
  {
    if k == 0 then txs[0]
    else if |txs| <= Pow2(k - 1) then merge(Tree(txs, k - 1, merge, zero), zero)
    else merge(Tree(txs[..Pow2(k - 1)], k - 1, merge, zero), Tree(txs[Pow2(k - 1)..], k - 1, merge, zero))
  }

  // ---------- trees over leaf slots, as the level loop sees them ----------

  /**
    The parent of two subtrees as the loop combines them: an absent left child makes the parent
    absent, an absent right child counts as the zero hash.
   */
  function Combine<H>(left: Option<H>, right: Option<H>, merge: (H, H) -> H, zero: H): Option<H> {
    match left
    case None => None
    case Some(l) => Some(merge(l, right.GetOr(zero)))
  }

  /**
    The root of the full binary tree over the `2^k` leaf slots from
    `at` on, top down from its two halves.
   */
  function Root<H>(leaves: seq<Option<H>>, at: nat, k: nat, merge: (H, H) -> H, zero: H): Option<H>
    requires at + Pow2(k) <= |leaves|
    decreases k
  {
    if k == 0 then leaves[at]
    else
      Combine(Root(leaves, at, k - 1, merge, zero), Root(leaves, at + Pow2(k - 1), k - 1, merge, zero), merge, zero)
  }

  /** The `n` leaf slots of a transaction list; slots past the last transaction are absent. */
  function Padded<H>(txs: seq<H>, n: nat): (leaves: seq<Option<H>>)
    ensures |leaves| == n
    ensures forall i :: 0 <= i < n ==> leaves[i] == if i < |txs| then Some(txs[i]) else None
  {
    seq(n, i requires 0 <= i => if i < |txs| then Some(txs[i]) else None)
  }

  /** The transactions among the `n` slots from `at` on. */
  function Slice<H>(txs: seq<H>, at: nat, n: nat): seq<H> {
    if at >= |txs| then [] else if at + n <= |txs| then txs[at..at + n] else txs[at..]
  }

  lemma SliceHalves<H>(txs: seq<H>, at: nat, half: nat)
    ensures var s := Slice(txs, at, 2 * half);
            && |s| <= 2 * half && (s == [] <==> Slice(txs, at, half) == [] || half == 0)
            && (|s| <= half ==> Slice(txs, at, half) == s && Slice(txs, at + half, half) == [])
            && (|s| > half ==> Slice(txs, at, half) == s[..half] && Slice(txs, at + half, half) == s[half..])
  {
  }

  /** The tree over leaf slots is the tree over the transactions in them. */
  lemma {:induction false} RootIsTree<H>(txs: seq<H>, n: nat, at: nat, k: nat, merge: (H, H) -> H, zero: H)
    requires at + Pow2(k) <= n
    ensures var s := Slice(txs, at, Pow2(k));
            |s| <= Pow2(k) &&
            Root(Padded(txs, n), at, k, merge, zero) == if s == [] then None else Some(Tree(s, k, merge, zero))
    decreases k
  {
    if k > 0 {
      var half := Pow2(k - 1);
      SliceHalves(txs, at, half);
      RootIsTree(txs, n, at, k - 1, merge, zero);
      RootIsTree(txs, n, at + half, k - 1, merge, zero);
    }
  }

  /** Height of the smallest full binary tree with at least `n` leaves. */
  ghost predicate IsHeight(n: nat, k: nat) {
    n <= Pow2(k) && (k > 0 ==> Pow2(k - 1) < n)
  }

  /** What the AuxPoW verifier computes: the coinbase is the left child on every level. */
  function Fold<H>(acc: H, branch: seq<H>, merge: (H, H) -> H): H {
    if branch == [] then acc
    else merge(Fold(acc, branch[..|branch| - 1], merge), branch[|branch| - 1])
  }

  /** One level up: `n` neighbouring pairs become their parents. */
  ghost function Up<H>(level: seq<Option<H>>, n: nat, merge: (H, H) -> H, zero: H): (next: seq<Option<H>>)
    requires |level| == 2 * n
    ensures |next| == n
    ensures forall j :: 0 <= j < n ==> next[j] == Combine(level[2 * j], level[2 * j + 1], merge, zero)
  {
    seq(n, j requires 0 <= j < n => Combine(level[2 * j], level[2 * j + 1], merge, zero))
  }

  /** Two trees whose halves have equal roots have equal roots. */
  lemma RootFromHalves<H>(up: seq<Option<H>>, level: seq<Option<H>>, at: nat, k: nat, merge: (H, H) -> H, zero: H)
    requires k > 0 && at + Pow2(k) <= |up| && |level| == 2 * |up|
    requires Root(up, at, k - 1, merge, zero) == Root(level, 2 * at, k, merge, zero)
    requires Root(up, at + Pow2(k - 1), k - 1, merge, zero) == Root(level, 2 * at + Pow2(k), k, merge, zero)
    ensures Root(up, at, k, merge, zero) == Root(level, 2 * at, k + 1, merge, zero)
  {
  }

  /** Collapsing the lowest level of a tree keeps its root. */
  lemma {:induction false} UpKeepsRoot<H>(level: seq<Option<H>>, n: nat, at: nat, k: nat, merge: (H, H) -> H, zero: H)
    requires |level| == 2 * n && at + Pow2(k) <= n
    ensures Root(Up(level, n, merge, zero), at, k, merge, zero) == Root(level, 2 * at, k + 1, merge, zero)
    decreases k
  {
    if k > 0 {
      UpKeepsRoot(level, n, at, k - 1, merge, zero);
      UpKeepsRoot(level, n, at + Pow2(k - 1), k - 1, merge, zero);
      assert 2 * (at + Pow2(k - 1)) == 2 * at + Pow2(k);
      RootFromHalves(Up(level, n, merge, zero), level, at, k, merge, zero);
    }
  }

  /** The inner loop over pairs of one level. */
  method NextLevel<H>(level: seq<Option<H>>, merge: (H, H) -> H, zero: H, ghost n: nat) returns (next: seq<Option<H>>)
    requires |level| == 2 * n
    ensures |next| == n
    ensures next == Up(level, n, merge, zero)
  {
    next := [];
    var i := 0;
    while i < |level|
      invariant i == 2 * |next| <= |level|
      invariant next == Up(level, n, merge, zero)[..|next|]
    {
      next := next + [Combine(level[i], level[i + 1], merge, zero)];
      i := i + 2;
    }
  }

  /** `usize::next_power_of_two` for a positive length, with its exponent. */
  method NextPowerOfTwo(n: nat) returns (p: nat, ghost k: nat)
    requires n > 0
    ensures p == Pow2(k) && IsHeight(n, k)
  {
    p, k := 1, 0;
    while p < n
      invariant p == Pow2(k)
      invariant k > 0 ==> Pow2(k - 1) < n
      decreases n - p
    {
      p, k := 2 * p, k + 1;
    }
  }

  /** The level loop: the right siblings of the first leaf, and the root they fold to. */
  method Siblings<H>(leaves: seq<Option<H>>, first: H, ghost height: nat, merge: (H, H) -> H, zero: H)
    returns (branch: seq<H>)
    requires |leaves| == Pow2(height) && leaves[0] == Some(first)
    ensures |branch| == height && Root(leaves, 0, height, merge, zero) == Some(Fold(first, branch, merge))
  {
    var level := leaves;
    branch := [];
    ghost var k := height;
    while |level| > 1
      invariant |branch| + k == height
      invariant |level| == Pow2(k)
      invariant Root(level, 0, k, merge, zero) == Root(leaves, 0, height, merge, zero)
      invariant level[0] == Some(Fold(first, branch, merge))
      decreases |level|
    {
      assert |level| == 2 * Pow2(k - 1);
      UpKeepsRoot(level, Pow2(k - 1), 0, k - 1, merge, zero);
      ghost var before := branch;
      branch := branch + [level[1].GetOr(zero)];
      assert branch[..|branch| - 1] == before;
      level := NextLevel(level, merge, zero, Pow2(k - 1));
      k := k - 1;
    }
  }

  /**
    For every transaction list the branch has exactly one sibling per level of the smallest tree
    that holds the list, and folding the coinbase with the branch reproduces the root of that
    tree, as the reference defines it.
   */
  method CoinbaseMerkleBranch<H>(txs: seq<H>, merge: (H, H) -> H, zero: H) returns (branch: seq<H>)
    ensures |txs| <= 1 ==> branch == []
    ensures txs != [] ==> IsHeight(|txs|, |branch|)
    ensures txs != [] ==> Fold(txs[0], branch, merge) == Tree(txs, |branch|, merge, zero)
  {
    if |txs| <= 1 {
      return [];
    }
    var size, height := NextPowerOfTwo(|txs|);
    branch := Siblings(Padded(txs, size), txs[0], height, merge, zero);
    RootIsTree(txs, size, 0, height, merge, zero);
    assert Slice(txs, 0, size) == txs;
  }

  /** The height is determined by the number of leaves, so the branch length is too. */
  lemma HeightUnique(n: nat, k: nat, m: nat)
    requires IsHeight(n, k) && IsHeight(n, m)
    ensures k == m
  {
    if k < m {
      Pow2Monotone(k, m - 1);
    } else if m < k {
      Pow2Monotone(m, k - 1);
    }
  }

  lemma {:induction false} Pow2Monotone(k: nat, m: nat)
    requires k <= m
    ensures Pow2(k) <= Pow2(m)
    decreases m
  {
    if k < m {
      Pow2Monotone(k, m - 1);
    }
  }
}

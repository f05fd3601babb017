/**
  Closing a share window (accountant/src/window.rs): one roll-up row per wallet that has a
  share in the half-open DAA range, refreshed in place when the window is closed again.
 */
module ShareWindows {
  import opened Wrappers
  import opened RewardSplit

  datatype Share = Share(wallet: WalletId, daa: nat, difficulty: real, creditedAt: int)

  datatype Range = Range(start: nat, end: nat) {
    predicate Has(s: Share) {
      start <= s.daa < end
    }
  }

  datatype Row = Row(startedAt: int, endedAt: int, weight: real, count: nat)

  // ---------- the reference sums ----------

  /** Difficulty of the range's shares whose wallet is in `wallets`. */
  function WeightOf(shares: seq<Share>, r: Range, wallets: set<WalletId>): real {
    if shares == [] then 0.0
    else
      var s := shares[|shares| - 1];
      WeightOf(shares[..|shares| - 1], r, wallets) +
      if r.start <= s.daa < r.end && s.wallet in wallets then s.difficulty else 0.0
  }

  function CountOf(shares: seq<Share>, r: Range, w: WalletId): nat {
    if shares == [] then 0
    else
      var s := shares[|shares| - 1];
      CountOf(shares[..|shares| - 1], r, w) + if r.start <= s.daa < r.end && s.wallet == w then 1 else 0
  }

  /** Time of the earliest credited share of a wallet in the range. */
  function FirstCredit(shares: seq<Share>, r: Range, w: WalletId): Option<int> {
    if shares == [] then None
    else
      var s, before := shares[|shares| - 1], FirstCredit(shares[..|shares| - 1], r, w);
      if !(r.start <= s.daa < r.end) || s.wallet != w then before
      else if before.Some? && before.value <= s.creditedAt then before else Some(s.creditedAt)
  }

  /** The first credit is the earliest one of the wallet's shares in the range, if there is any. */
  lemma {:induction false} FirstCreditIsEarliest(shares: seq<Share>, r: Range, w: WalletId)
    ensures FirstCredit(shares, r, w).None? ==>
              forall s :: s in shares && s.wallet == w ==> !(r.start <= s.daa < r.end)
    ensures FirstCredit(shares, r, w).Some? ==>
              exists s :: s in shares && s.wallet == w && r.start <= s.daa < r.end &&
                          s.creditedAt == FirstCredit(shares, r, w).value
    ensures FirstCredit(shares, r, w).Some? ==>
              forall s :: s in shares && s.wallet == w && r.start <= s.daa < r.end ==>
                            FirstCredit(shares, r, w).value <= s.creditedAt
  {
    if shares != [] {
      var front, last := shares[..|shares| - 1], shares[|shares| - 1];
      FirstCreditIsEarliest(front, r, w);
      assert forall s :: s in shares <==> s in front || s == last;
    }
  }

  // ---------- the aggregator ----------

  datatype Agg = Agg(weight: real, count: nat, first: int)

  /** The grouping part of the statement. */
  method Aggregate(shares: seq<Share>, r: Range) returns (agg: map<WalletId, Agg>)
    ensures forall w :: w in agg <==> CountOf(shares, r, w) > 0
    ensures forall w :: w in agg ==>
              agg[w].weight == WeightOf(shares, r, {w}) && agg[w].count == CountOf(shares, r, w)
              && FirstCredit(shares, r, w) == Some(agg[w].first)
  {
    agg := map[];
    for i := 0 to |shares|
      invariant forall w :: w in agg <==> CountOf(shares[..i], r, w) > 0
      invariant forall w :: if w in agg then
                              && agg[w].weight == WeightOf(shares[..i], r, {w})
                              && agg[w].count == CountOf(shares[..i], r, w)
                              && FirstCredit(shares[..i], r, w) == Some(agg[w].first)
                            else WeightOf(shares[..i], r, {w}) == 0.0 && FirstCredit(shares[..i], r, w) == None
    {
      var s := shares[i];
      assert shares[..i + 1][..i] == shares[..i];
      if r.Has(s) {
        var g := if s.wallet in agg then agg[s.wallet] else Agg(0.0, 0, s.creditedAt);
        var first := if g.first <= s.creditedAt then g.first else s.creditedAt;
        agg := agg[s.wallet := Agg(g.weight + s.difficulty, g.count + 1, first)];
      }
    }
    assert shares[..|shares|] == shares;
  }

  /** Wallets with a share in the range. */
  function Contributors(shares: seq<Share>, r: Range): set<WalletId> {
    set s | s in shares && r.start <= s.daa < r.end :: s.wallet
  }

  lemma {:induction false} CountsContributors(shares: seq<Share>, r: Range, w: WalletId)
    ensures CountOf(shares, r, w) > 0 <==> w in Contributors(shares, r)
  {
    if shares != [] {
      var front, last := shares[..|shares| - 1], shares[|shares| - 1];
      CountsContributors(front, r, w);
      assert shares == front + [last];
      assert forall s :: s in shares <==> s in front || s == last;
    }
  }

  /** The roll-up table: rows by wallet and range. */
  type Table = map<(WalletId, Range), Row>

  /** What closing a range at `now` does to the table. */
  ghost predicate Closes(before: Table, after: Table, shares: seq<Share>, r: Range, now: int) {
    && (forall w :: CountOf(shares, r, w) > 0 ==> (w, r) in after && after[(w, r)] == RowOf(before, shares, r, w, now))
    && (forall k :: k in before && (k.1 != r || CountOf(shares, r, k.0) == 0) ==> k in after && after[k] == before[k])
    && (forall k :: k in after && k !in before ==> k.1 == r && CountOf(shares, r, k.0) > 0)
  }

  /** A contributor's row: its sums, and the start time of an earlier closing if there was one. */
  function RowOf(before: Table, shares: seq<Share>, r: Range, w: WalletId, now: int): Row {
    Row(if (w, r) in before then before[(w, r)].startedAt else FirstCredit(shares, r, w).GetOr(now), now,
        WeightOf(shares, r, {w}), CountOf(shares, r, w))
  }

  /** A list of the range's rows: every one, once, with its weight. */
  ghost predicate Lists(rows: Table, r: Range, ws: seq<Window>) {
    && DistinctWallets(ws)
    && (forall i :: 0 <= i < |ws| ==> (ws[i].wallet, r) in rows && rows[(ws[i].wallet, r)].weight == ws[i].weight)
    && (forall w :: (w, r) in rows ==> w in Wallets(ws))
  }

  /** Shares counted by the listed rows. */
  function Counted(rows: Table, r: Range, ws: seq<Window>): nat
    requires forall i :: 0 <= i < |ws| ==> (ws[i].wallet, r) in rows
  {
    if ws == [] then 0
    else Counted(rows, r, ws[..|ws| - 1]) + rows[(ws[|ws| - 1].wallet, r)].count
  }

  /** The same while the wallets in `left` are still to be listed. */
  ghost predicate ListsAllBut(rows: Table, r: Range, ws: seq<Window>, left: set<WalletId>) {
    && DistinctWallets(ws)
    && (forall i :: 0 <= i < |ws| ==> (ws[i].wallet, r) in rows && rows[(ws[i].wallet, r)].weight == ws[i].weight)
    && (forall w :: (w, r) in rows <==> w in left || w in Wallets(ws))
    && (forall w :: w in left ==> w !in Wallets(ws))
  }

  lemma ListOneMore(rows: Table, r: Range, ws: seq<Window>, left: set<WalletId>, w: WalletId)
    requires ListsAllBut(rows, r, ws, left) && w in left
    ensures var all := ws + [Window(w, rows[(w, r)].weight)];
            ListsAllBut(rows, r, all, left - {w}) && Counted(rows, r, all) == Counted(rows, r, ws) + rows[(w, r)].count
  {
    var next := Window(w, rows[(w, r)].weight);
    var all := ws + [next];
    WalletsAppend(ws, next);
    assert all[..|ws|] == ws && all[|ws|] == next;
    assert forall i :: 0 <= i < |ws| ==> all[i] == ws[i] && ws[i].wallet in Wallets(ws);
  }

  datatype CloseOutcome = CloseOutcome(wallets: nat, shares: nat, totalWeight: real)

  class WindowAggregator {
    var rows: Table

    /** The range's rows, in no particular order. */
    method ListForWindow(r: Range) returns (ws: seq<Window>, shares: nat)
      ensures Lists(rows, r, ws) && shares == Counted(rows, r, ws)
    {
      ws, shares := [], 0;
      var left := set k | k in rows && k.1 == r :: k.0;
      while left != {}
        invariant ListsAllBut(rows, r, ws, left) && shares == Counted(rows, r, ws)
        decreases |left|
      {
        Nonempty(left);
        var w :| w in left;
        ListOneMore(rows, r, ws, left, w);
        ws := ws + [Window(w, rows[(w, r)].weight)];
        shares := shares + rows[(w, r)].count;
        left := left - {w};
      }
    }

    /**
      Refuses an empty or inverted range. Otherwise it upserts one row per contributor and
      reports the number of contributors and the totals of all rows the range then has, `listed`.
     */
    method CloseWindow(shares: seq<Share>, r: Range, now: int)
      returns (out: Option<CloseOutcome>, ghost listed: seq<Window>)
      modifies this
      ensures out.None? <==> r.end <= r.start
      ensures out.None? ==> rows == old(rows)
      ensures out.Some? ==> Closes(old(rows), rows, shares, r, now) && Lists(rows, r, listed)
      ensures out.Some? ==>
                out.value == CloseOutcome(|Contributors(shares, r)|, Counted(rows, r, listed), Total(listed))
    {
      listed := [];
      if r.end <= r.start {
        return None, [];
      }
      var agg := Aggregate(shares, r);
      Upsert(agg, r, now);
      forall w
        ensures w in agg <==> w in Contributors(shares, r)
      {
        CountsContributors(shares, r, w);
      }
      assert agg.Keys == Contributors(shares, r);
      var ws, count := ListForWindow(r);
      var weight := TotalWeight(ws);
      return Some(CloseOutcome(|agg|, count, weight)), ws;
    }

    /** The insert-or-update of the aggregated rows. */
    method Upsert(agg: map<WalletId, Agg>, r: Range, now: int)
      modifies this
      ensures forall w :: w in agg ==> (w, r) in rows && rows[(w, r)] == Upserted(old(rows), w, r, agg[w], now)
      ensures forall k :: k in old(rows) && (k.1 != r || k.0 !in agg) ==> k in rows && rows[k] == old(rows)[k]
      ensures forall k :: k in rows && k !in old(rows) ==> k.1 == r && k.0 in agg
    {
      var left := agg.Keys;
      while left != {}
        invariant left <= agg.Keys
        invariant forall w :: w in agg.Keys - left ==>
                    (w, r) in rows && rows[(w, r)] == Upserted(old(rows), w, r, agg[w], now)
        invariant forall k :: k in old(rows) && (k.1 != r || k.0 !in agg.Keys - left) ==>
                    k in rows && rows[k] == old(rows)[k]
        invariant forall k :: k in rows && k !in old(rows) ==> k.1 == r && k.0 in agg.Keys - left
        decreases |left|
      {
        Nonempty(left);
        var w :| w in left;
        var key := (w, r);
        rows := rows[key := Upserted(rows, w, r, agg[w], now)];
        left := left - {w};
      }
    }
  }

  lemma Nonempty(ws: set<WalletId>)
    ensures ws == {} <==> forall w :: w !in ws
  {
    if forall w :: w !in ws {
      assert ws == {};
    }
  }

  lemma WalletsAppend(ws: seq<Window>, next: Window)
    ensures Wallets(ws + [next]) == Wallets(ws) + {next.wallet}
  {
    var all := ws + [next];
    assert forall i :: 0 <= i < |ws| ==> all[i] == ws[i];
    assert all[|ws|] == next;
    forall w | w in Wallets(ws) + {next.wallet}
      ensures w in Wallets(all)
    {
      if w in Wallets(ws) {
        var i :| 0 <= i < |ws| && ws[i].wallet == w;
        assert all[i].wallet == w;
      } else {
        assert all[|ws|].wallet == w;
      }
    }
  }

  /** `ON CONFLICT DO UPDATE`: everything is refreshed except the first start time. */
  function Upserted(rows: Table, w: WalletId, r: Range, g: Agg, now: int): Row {
    Row(if (w, r) in rows then rows[(w, r)].startedAt else g.first, now, g.weight, g.count)
  }

  // ---------- no share is lost or counted twice ----------

  lemma {:induction false} WeightSplits(shares: seq<Share>, r: Range, ws: set<WalletId>, w: WalletId)
    requires w !in ws
    ensures WeightOf(shares, r, ws + {w}) == WeightOf(shares, r, ws) + WeightOf(shares, r, {w})
  {
    if shares != [] {
      WeightSplits(shares[..|shares| - 1], r, ws, w);
    }
  }

  lemma {:induction false} NoWalletsNoWeight(shares: seq<Share>, r: Range)
    ensures WeightOf(shares, r, {}) == 0.0
  {
    if shares != [] {
      NoWalletsNoWeight(shares[..|shares| - 1], r);
    }
  }

  function Wallets(ws: seq<Window>): set<WalletId> {
    set i | 0 <= i < |ws| :: ws[i].wallet
  }

  /** Window rows with distinct wallets total exactly the difficulty those wallets contributed. */
  lemma {:induction false} RowsTotal(ws: seq<Window>, shares: seq<Share>, r: Range)
    requires DistinctWallets(ws)
    requires forall i :: 0 <= i < |ws| ==> ws[i].weight == WeightOf(shares, r, {ws[i].wallet})
    ensures Total(ws) == WeightOf(shares, r, Wallets(ws))
  {
    if ws == [] {
      assert Wallets(ws) == {};
      NoWalletsNoWeight(shares, r);
    } else {
      var front, last := ws[..|ws| - 1], ws[|ws| - 1];
      RowsTotal(front, shares, r);
      assert last.wallet !in Wallets(front);
      assert Wallets(ws) == Wallets(front) + {last.wallet} by {
        assert forall i :: 0 <= i < |front| ==> front[i] == ws[i];
        assert ws[|ws| - 1].wallet in Wallets(ws);
      }
      WeightSplits(shares, r, Wallets(front), last.wallet);
    }
  }

  /** Difficulty of all shares in the range. */
  function RangeWeight(shares: seq<Share>, r: Range): real {
    if shares == [] then 0.0
    else
      var s := shares[|shares| - 1];
      RangeWeight(shares[..|shares| - 1], r) + if r.start <= s.daa < r.end then s.difficulty else 0.0
  }

  lemma {:induction false} AllWallets(shares: seq<Share>, r: Range, ws: set<WalletId>)
    requires forall s :: s in shares && r.Has(s) ==> s.wallet in ws
    ensures WeightOf(shares, r, ws) == RangeWeight(shares, r)
  {
    if shares != [] {
      AllWallets(shares[..|shares| - 1], r, ws);
    }
  }

  /**
    The rows of a closed window weigh exactly what its shares weigh, so each wallet is paid
    for its own difficulty against the whole range: no share is lost or counted twice.
   */
  lemma WindowWeighsItsShares(ws: seq<Window>, shares: seq<Share>, r: Range)
    requires DistinctWallets(ws)
    requires forall i :: 0 <= i < |ws| ==> ws[i].weight == WeightOf(shares, r, {ws[i].wallet})
    requires forall s :: s in shares && r.Has(s) ==> s.wallet in Wallets(ws)
    ensures Total(ws) == RangeWeight(shares, r)
  {
    RowsTotal(ws, shares, r);
    AllWallets(shares, r, Wallets(ws));
  }

  // ---------- the table a closing leaves behind ----------

  /** The listed rows whose wallet has (or has not) a share in the range. */
  function Kept(ws: seq<Window>, shares: seq<Share>, r: Range, live: bool): seq<Window> {
    if ws == [] then []
    else
      var last := ws[|ws| - 1];
      Kept(ws[..|ws| - 1], shares, r, live) + if (CountOf(shares, r, last.wallet) > 0) == live then [last] else []
  }

  lemma {:induction false} KeptTotals(ws: seq<Window>, shares: seq<Share>, r: Range)
    ensures Total(ws) == Total(Kept(ws, shares, r, true)) + Total(Kept(ws, shares, r, false))
  {
    if ws != [] {
      KeptTotals(ws[..|ws| - 1], shares, r);
      var live, stale := Kept(ws[..|ws| - 1], shares, r, true), Kept(ws[..|ws| - 1], shares, r, false);
      var last := ws[|ws| - 1];
      assert (live + [last])[..|live|] == live && (stale + [last])[..|stale|] == stale;
      assert live + [] == live && stale + [] == stale;
    }
  }

  /** A kept row is a listed one of the right kind. */
  lemma {:induction false} KeptFrom(ws: seq<Window>, shares: seq<Share>, r: Range, live: bool, x: Window)
    ensures x in Kept(ws, shares, r, live) <==> x in ws && (CountOf(shares, r, x.wallet) > 0) == live
  {
    if ws != [] {
      KeptFrom(ws[..|ws| - 1], shares, r, live, x);
      assert ws == ws[..|ws| - 1] + [ws[|ws| - 1]];
    }
  }

  ghost predicate DistinctWallets(ws: seq<Window>) {
    forall i, j :: 0 <= i < j < |ws| ==> ws[i].wallet != ws[j].wallet
  }

  lemma {:induction false} KeptDistinct(ws: seq<Window>, shares: seq<Share>, r: Range, live: bool)
    requires DistinctWallets(ws)
    ensures DistinctWallets(Kept(ws, shares, r, live))
  {
    if ws != [] {
      var front := ws[..|ws| - 1];
      KeptDistinct(front, shares, r, live);
      forall x | x in Kept(front, shares, r, live)
        ensures x.wallet != ws[|ws| - 1].wallet
      {
        KeptFrom(front, shares, r, live, x);
        var i :| 0 <= i < |front| && front[i] == x;
        assert ws[i] == x;
      }
      var ks, all := Kept(front, shares, r, live), Kept(ws, shares, r, live);
      forall i, j | 0 <= i < j < |all|
        ensures all[i].wallet != all[j].wallet
      {
        assert all[i] == ks[i];
        if j < |ks| {
          assert all[j] == ks[j] && ks[i].wallet != ks[j].wallet;
        } else {
          assert all[j] == ws[|ws| - 1];
          assert ks[i] in Kept(front, shares, r, live);
        }
      }
    }
  }

  lemma MemberWallet(ws: seq<Window>, w: WalletId) returns (x: Window)
    requires w in Wallets(ws)
    ensures x in ws && x.wallet == w
  {
    var i :| 0 <= i < |ws| && ws[i].wallet == w;
    x := ws[i];
  }

  /** The contributors' rows of a closed range weigh exactly what the range's shares weigh. */
  lemma LiveRowsWeigh(before: Table, after: Table, shares: seq<Share>, r: Range, now: int, ws: seq<Window>)
    requires Closes(before, after, shares, r, now) && Lists(after, r, ws)
    ensures Total(Kept(ws, shares, r, true)) == RangeWeight(shares, r)
  {
    var live := Kept(ws, shares, r, true);
    KeptDistinct(ws, shares, r, true);
    forall i | 0 <= i < |live|
      ensures live[i].weight == WeightOf(shares, r, {live[i].wallet})
    {
      KeptFrom(ws, shares, r, true, live[i]);
      var k :| 0 <= k < |ws| && ws[k] == live[i];
      assert after[(ws[k].wallet, r)] == RowOf(before, shares, r, ws[k].wallet, now);
    }
    forall s | s in shares && r.Has(s)
      ensures s.wallet in Wallets(live)
    {
      CountsContributors(shares, r, s.wallet);
      assert (s.wallet, r) in after;
      var x := MemberWallet(ws, s.wallet);
      KeptFrom(ws, shares, r, true, x);
      var i :| 0 <= i < |live| && live[i] == x;
      assert live[i].wallet == s.wallet;
    }
    WindowWeighsItsShares(live, shares, r);
  }

  /**
    Whatever table a closing starts from, even one whose shares were removed by hand, the rows it
    leaves for its range weigh the range's shares plus exactly the rows whose wallet has no share
    in the range; those rows are as they were.
   */
  lemma ClosedRangeTotal(before: Table, after: Table, shares: seq<Share>, r: Range, now: int, ws: seq<Window>)
    requires Closes(before, after, shares, r, now) && Lists(after, r, ws)
    ensures Total(ws) == RangeWeight(shares, r) + Total(Kept(ws, shares, r, false))
    ensures forall x :: x in Kept(ws, shares, r, false) ==>
              (x.wallet, r) in before && before[(x.wallet, r)].weight == x.weight
    ensures forall w :: (w, r) in before && CountOf(shares, r, w) == 0 ==>
              Window(w, before[(w, r)].weight) in Kept(ws, shares, r, false)
  {
    KeptTotals(ws, shares, r);
    LiveRowsWeigh(before, after, shares, r, now, ws);
    forall x | x in Kept(ws, shares, r, false)
      ensures (x.wallet, r) in before && before[(x.wallet, r)].weight == x.weight
    {
      KeptFrom(ws, shares, r, false, x);
      var i :| 0 <= i < |ws| && ws[i] == x;
      assert (ws[i].wallet, r) in after;
    }
    forall w | (w, r) in before && CountOf(shares, r, w) == 0
      ensures Window(w, before[(w, r)].weight) in Kept(ws, shares, r, false)
    {
      assert (w, r) in after && after[(w, r)] == before[(w, r)];
      var x := MemberWallet(ws, w);
      KeptFrom(ws, shares, r, false, x);
    }
  }

  /** If every wallet of an earlier closing still has a share, the rows weigh exactly the shares. */
  lemma NoStaleRows(before: Table, after: Table, shares: seq<Share>, r: Range, now: int, ws: seq<Window>)
    requires Closes(before, after, shares, r, now) && Lists(after, r, ws)
    requires forall w :: (w, r) in before ==> CountOf(shares, r, w) > 0
    ensures Total(ws) == RangeWeight(shares, r)
  {
    ClosedRangeTotal(before, after, shares, r, now, ws);
    var stale := Kept(ws, shares, r, false);
    if |stale| > 0 {
      var x := stale[0];
      KeptFrom(ws, shares, r, false, x);
    }
  }

  // ---------- runs: shares arrive, ranges are closed ----------

  /** The rows are exactly the contributors of these shares to the range, each with its weight. */
  ghost predicate WindowOf(ws: seq<Window>, held: seq<Share>, r: Range) {
    && DistinctWallets(ws)
    && (forall i :: 0 <= i < |ws| ==> ws[i].weight == WeightOf(held, r, {ws[i].wallet}))
    && (forall w :: w in Wallets(ws) <==> CountOf(held, r, w) > 0)
  }

  ghost predicate Positive(shares: seq<Share>) {
    forall i :: 0 <= i < |shares| ==> shares[i].difficulty > 0.0
  }

  lemma {:induction false} WeightSign(shares: seq<Share>, r: Range, w: WalletId)
    requires Positive(shares)
    ensures WeightOf(shares, r, {w}) >= 0.0
    ensures WeightOf(shares, r, {w}) > 0.0 <==> CountOf(shares, r, w) > 0
  {
    if shares != [] {
      WeightSign(shares[..|shares| - 1], r, w);
      assert shares[|shares| - 1].difficulty > 0.0;
    }
  }

  lemma {:induction false} TotalOfPositive(ws: seq<Window>)
    requires forall i :: 0 <= i < |ws| ==> ws[i].weight > 0.0
    ensures Total(ws) >= 0.0 && (ws != [] ==> Total(ws) > 0.0)
  {
    if ws != [] {
      TotalOfPositive(ws[..|ws| - 1]);
    }
  }

  /** The rows of a range weigh exactly its shares, and there are none exactly when it has no share. */
  lemma WindowOfShares(ws: seq<Window>, held: seq<Share>, r: Range)
    requires WindowOf(ws, held, r) && Positive(held)
    ensures WellFormed(ws) && Total(ws) == RangeWeight(held, r) && (ws != [] ==> Total(ws) > 0.0)
    ensures ws == [] <==> Contributors(held, r) == {}
  {
    forall i | 0 <= i < |ws|
      ensures ws[i].weight > 0.0
    {
      assert ws[i].wallet in Wallets(ws);
      WeightSign(held, r, ws[i].wallet);
    }
    TotalOfPositive(ws);
    forall s | s in held && r.Has(s)
      ensures s.wallet in Wallets(ws)
    {
      CountsContributors(held, r, s.wallet);
    }
    WindowWeighsItsShares(ws, held, r);
    NoneContribute(ws, held, r);
  }

  lemma NoneContribute(ws: seq<Window>, held: seq<Share>, r: Range)
    requires WindowOf(ws, held, r)
    ensures ws == [] <==> Contributors(held, r) == {}
  {
    forall w
      ensures w in Wallets(ws) <==> w in Contributors(held, r)
    {
      CountsContributors(held, r, w);
    }
    assert Wallets(ws) == Contributors(held, r);
    if ws != [] {
      assert ws[0].wallet in Wallets(ws);
    }
  }

  lemma {:induction false} CountGrows(before: seq<Share>, after: seq<Share>, r: Range, w: WalletId)
    requires before <= after
    ensures CountOf(before, r, w) <= CountOf(after, r, w)
  {
    if |before| < |after| {
      CountGrows(before, after[..|after| - 1], r, w);
    } else {
      assert before == after;
    }
  }

  /** The share table, the roll-up rows, and for each closed range the shares there were at its last closing. */
  datatype Store = Store(shares: seq<Share>, table: Table, closed: map<Range, seq<Share>>)

  datatype Event = Arrive(share: Share) | Close(r: Range, now: int)

  /** Shares are only ever inserted, with a positive difficulty; an empty range is refused. */
  ghost predicate Follows(s: Store, e: Event, s': Store) {
    match e
    case Arrive(share) => share.difficulty > 0.0 && s' == s.(shares := s.shares + [share])
    case Close(r, now) =>
      if r.end <= r.start then s' == s
      else
        && s'.shares == s.shares && s'.closed == s.closed[r := s.shares]
        && Closes(s.table, s'.table, s.shares, r, now)
  }

  ghost predicate IsHistory(states: seq<Store>, events: seq<Event>) {
    && |states| == |events| + 1
    && states[0] == Store([], map[], map[])
    && forall k :: 0 <= k < |events| ==> Follows(states[k], events[k], states[k + 1])
  }

  /** The table holds, for each closed range, exactly the contributors of its last closing. */
  ghost predicate RolledUp(s: Store) {
    && Positive(s.shares)
    && (forall r :: r in s.closed ==> s.closed[r] <= s.shares)
    && (forall k :: k in s.table <==> k.1 in s.closed && CountOf(s.closed[k.1], k.1, k.0) > 0)
    && (forall k :: k in s.table ==> s.table[k].weight == WeightOf(s.closed[k.1], k.1, {k.0}))
  }

  lemma CloseKeepsRolledUp(s: Store, r: Range, now: int, s': Store)
    requires RolledUp(s) && r.start < r.end && Follows(s, Close(r, now), s')
    ensures RolledUp(s')
  {
    forall k: (WalletId, Range)
      ensures k in s'.table <==> k.1 in s'.closed && CountOf(s'.closed[k.1], k.1, k.0) > 0
      ensures k in s'.table ==> s'.table[k].weight == WeightOf(s'.closed[k.1], k.1, {k.0})
    {
      if k.1 == r && r in s.closed {
        CountGrows(s.closed[r], s.shares, r, k.0);
      }
      if CountOf(s.shares, r, k.0) > 0 {
        assert s'.table[(k.0, r)] == RowOf(s.table, s.shares, r, k.0, now);
      }
      assert k == (k.0, k.1);
    }
  }

  lemma {:induction false} EveryHistoryRollsUp(states: seq<Store>, events: seq<Event>, k: nat)
    requires IsHistory(states, events) && k < |states|
    ensures RolledUp(states[k])
  {
    if k > 0 {
      EveryHistoryRollsUp(states, events, k - 1);
      assert Follows(states[k - 1], events[k - 1], states[k - 1 + 1]);
      if events[k - 1].Close? && events[k - 1].r.start < events[k - 1].r.end {
        CloseKeepsRolledUp(states[k - 1], events[k - 1].r, events[k - 1].now, states[k]);
      }
    }
  }

  lemma ListingIsWindow(s: Store, r: Range, ws: seq<Window>)
    requires RolledUp(s) && r in s.closed && Lists(s.table, r, ws)
    ensures WindowOf(ws, s.closed[r], r) && Positive(s.closed[r])
  {
    forall w
      ensures w in Wallets(ws) <==> CountOf(s.closed[r], r, w) > 0
    {
      if w in Wallets(ws) {
        var i :| 0 <= i < |ws| && ws[i].wallet == w;
        assert (ws[i].wallet, r) in s.table;
      }
      assert (w, r) in s.table <==> CountOf(s.closed[r], r, w) > 0;
    }
  }

  /**
    In every history of arriving shares and closings, in any order and however often a range is
    closed again, a listing of a closed range is exactly the contributors at its last closing and
    totals exactly the difficulty they had contributed by then: no leftover row, no lost share.
   */
  lemma EveryListingWeighsItsShares(states: seq<Store>, events: seq<Event>, k: nat, r: Range, ws: seq<Window>)
    requires IsHistory(states, events) && k < |states|
    requires r in states[k].closed && Lists(states[k].table, r, ws)
    ensures WindowOf(ws, states[k].closed[r], r) && WellFormed(ws)
    ensures Total(ws) == RangeWeight(states[k].closed[r], r)
  {
    EveryHistoryRollsUp(states, events, k);
    ListingIsWindow(states[k], r, ws);
    WindowOfShares(ws, states[k].closed[r], r);
  }

  /** In particular a closing itself reports the difficulty of all shares in its range. */
  lemma ClosingWeighsItsShares(states: seq<Store>, events: seq<Event>, k: nat, ws: seq<Window>)
    requires IsHistory(states, events) && k < |events| && events[k].Close? && events[k].r.start < events[k].r.end
    requires Lists(states[k + 1].table, events[k].r, ws)
    ensures Total(ws) == RangeWeight(states[k].shares, events[k].r)
  {
    assert Follows(states[k], events[k], states[k + 1]);
    EveryListingWeighsItsShares(states, events, k + 1, events[k].r, ws);
  }

  /** Two adjacent windows together weigh what one window over both ranges weighs. */
  lemma {:induction false} AdjacentWindows(shares: seq<Share>, a: nat, b: nat, c: nat, ws: set<WalletId>)
    requires a <= b <= c
    ensures WeightOf(shares, Range(a, b), ws) + WeightOf(shares, Range(b, c), ws) == WeightOf(shares, Range(a, c), ws)
  {
    if shares != [] {
      AdjacentWindows(shares[..|shares| - 1], a, b, c, ws);
    }
  }
}

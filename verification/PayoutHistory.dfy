/**
  The dashboard's bounded payout history (pool-redactor.py, `_payouts_record` and
  `payout_history`): per wallet a list that is re-sorted by timestamp and cut to the newest
  200 after every recorded block, with one set of block hashes seen so far.

  A missing hash or wallet is the empty string. `list.sort` is any stable sort; `StableUnique`
  shows there is only one result it can have.
 */
module PayoutHistory {
  import opened Wrappers

  const CAP := 200

  datatype Entry = Entry(ts: int, worker: string, hash: string, amount: Option<int>)

  // ---------- stable sorting ----------

  ghost predicate Sorted(s: seq<Entry>) {
    forall i, j :: 0 <= i < j < |s| ==> s[i].ts <= s[j].ts
  }

  /** Insert behind every entry that is not newer. */
  function Insert(s: seq<Entry>, x: Entry): (r: seq<Entry>)
    ensures |r| == |s| + 1
  {
    if s == [] || s[|s| - 1].ts <= x.ts then s + [x] else Insert(s[..|s| - 1], x) + [s[|s| - 1]]
  }

  function StableSort(s: seq<Entry>): (r: seq<Entry>)
    ensures |r| == |s|
  {
    if s == [] then [] else Insert(StableSort(s[..|s| - 1]), s[|s| - 1])
  }

  /** The entries with one timestamp, in list order. */
  function At(s: seq<Entry>, ts: int): seq<Entry> {
    if s == [] then [] else At(s[..|s| - 1], ts) + if s[|s| - 1].ts == ts then [s[|s| - 1]] else []
  }

  lemma AtAppend(s: seq<Entry>, x: Entry, ts: int)
    ensures At(s + [x], ts) == At(s, ts) + if x.ts == ts then [x] else []
  {
    assert (s + [x])[..|s|] == s;
  }

  lemma {:induction false} InsertBound(s: seq<Entry>, x: Entry, b: int)
    requires x.ts <= b && forall i :: 0 <= i < |s| ==> s[i].ts <= b
    ensures forall i :: 0 <= i < |s| + 1 ==> Insert(s, x)[i].ts <= b
  {
    if s != [] && s[|s| - 1].ts > x.ts {
      InsertBound(s[..|s| - 1], x, b);
    }
  }

  lemma {:induction false} InsertSorted(s: seq<Entry>, x: Entry)
    requires Sorted(s)
    ensures Sorted(Insert(s, x))
  {
    if s != [] && s[|s| - 1].ts > x.ts {
      var front, last := s[..|s| - 1], s[|s| - 1];
      InsertSorted(front, x);
      InsertBound(front, x, last.ts);
    }
  }

  lemma {:induction false} SortSorted(s: seq<Entry>)
    ensures Sorted(StableSort(s))
  {
    if s != [] {
      SortSorted(s[..|s| - 1]);
      InsertSorted(StableSort(s[..|s| - 1]), s[|s| - 1]);
    }
  }

  lemma {:induction false} InsertAt(s: seq<Entry>, x: Entry, ts: int)
    ensures Sorted(s) ==> At(Insert(s, x), ts) == At(s, ts) + if x.ts == ts then [x] else []
  {
    if s == [] || s[|s| - 1].ts <= x.ts {
      AtAppend(s, x, ts);
    } else if Sorted(s) {
      var front, last := s[..|s| - 1], s[|s| - 1];
      InsertAt(front, x, ts);
      AtAppend(Insert(front, x), last, ts);
      if x.ts == ts {
        assert At(s, ts) == At(front, ts);
      }
    }
  }

  lemma {:induction false} SortAt(s: seq<Entry>, ts: int)
    ensures At(StableSort(s), ts) == At(s, ts)
  {
    if s != [] {
      SortAt(s[..|s| - 1], ts);
      SortSorted(s[..|s| - 1]);
      InsertAt(StableSort(s[..|s| - 1]), s[|s| - 1], ts);
    }
  }

  lemma {:induction false} AtMember(s: seq<Entry>, ts: int)
    ensures At(s, ts) != [] <==> exists i :: 0 <= i < |s| && s[i].ts == ts
  {
    if s != [] {
      AtMember(s[..|s| - 1], ts);
    }
  }

  lemma AtCancel(fa: seq<Entry>, fb: seq<Entry>, x: Entry, ts: int)
    requires At(fa + [x], ts) == At(fb + [x], ts)
    ensures At(fa, ts) == At(fb, ts)
  {
    AtAppend(fa, x, ts);
    AtAppend(fb, x, ts);
    if x.ts == ts {
      assert (At(fa, ts) + [x])[..|At(fa, ts)|] == At(fa, ts);
      assert (At(fb, ts) + [x])[..|At(fb, ts)|] == At(fb, ts);
    }
  }

  lemma LatestTs(a: seq<Entry>, b: seq<Entry>)
    requires Sorted(b) && a != [] && At(a, a[|a| - 1].ts) == At(b, a[|a| - 1].ts)
    ensures b != [] && a[|a| - 1].ts <= b[|b| - 1].ts
  {
    AtMember(a, a[|a| - 1].ts);
    AtMember(b, a[|a| - 1].ts);
  }

  lemma AtLast(a: seq<Entry>)
    requires a != []
    ensures At(a, a[|a| - 1].ts) == At(a[..|a| - 1], a[|a| - 1].ts) + [a[|a| - 1]]
  {
  }

  lemma SnocEqual<T>(u: seq<T>, x: T, v: seq<T>, y: T)
    requires u + [x] == v + [y]
    ensures x == y
  {
    assert (u + [x])[|u|] == x && (v + [y])[|v|] == y && |u + [x]| == |v + [y]|;
  }

  /** The newest entry of a sorted list is the last one at the largest timestamp. */
  lemma LastEqual(a: seq<Entry>, b: seq<Entry>)
    requires Sorted(a) && Sorted(b) && a != [] && b != []
    requires At(a, a[|a| - 1].ts) == At(b, a[|a| - 1].ts) && At(a, b[|b| - 1].ts) == At(b, b[|b| - 1].ts)
    ensures a[|a| - 1] == b[|b| - 1]
  {
    LatestTs(a, b);
    LatestTs(b, a);
    var ts := a[|a| - 1].ts;
    AtLast(a);
    AtLast(b);
    SnocEqual(At(a[..|a| - 1], ts), a[|a| - 1], At(b[..|b| - 1], ts), b[|b| - 1]);
  }

  ghost predicate SameAt(a: seq<Entry>, b: seq<Entry>) {
    forall ts :: At(a, ts) == At(b, ts)
  }

  lemma SameLast(a: seq<Entry>, b: seq<Entry>)
    requires Sorted(a) && Sorted(b) && SameAt(a, b) && a != []
    ensures b != [] && a[|a| - 1] == b[|b| - 1]
  {
    assert At(a, a[|a| - 1].ts) == At(b, a[|a| - 1].ts);
    LatestTs(a, b);
    assert At(a, b[|b| - 1].ts) == At(b, b[|b| - 1].ts);
    LastEqual(a, b);
  }

  lemma SameFront(a: seq<Entry>, b: seq<Entry>)
    requires SameAt(a, b) && a != [] && b != [] && a[|a| - 1] == b[|b| - 1]
    ensures SameAt(a[..|a| - 1], b[..|b| - 1])
  {
    var fa, fb, x := a[..|a| - 1], b[..|b| - 1], a[|a| - 1];
    assert a == fa + [x] && b == fb + [x];
    forall ts
      ensures At(fa, ts) == At(fb, ts)
    {
      AtCancel(fa, fb, x, ts);
    }
  }

  /** A sorted list is determined by its entries at each timestamp. */
  lemma {:induction false} SortedUnique(a: seq<Entry>, b: seq<Entry>)
    requires Sorted(a) && Sorted(b) && SameAt(a, b)
    ensures a == b
    decreases |a|
  {
    if a == [] {
      if b != [] {
        SameLast(b, a);
      }
    } else {
      SameLast(a, b);
      SameFront(a, b);
      SortedUnique(a[..|a| - 1], b[..|b| - 1]);
      assert a == a[..|a| - 1] + [a[|a| - 1]] && b == b[..|b| - 1] + [b[|b| - 1]];
    }
  }

  /** Any sorted list that keeps the order of equal timestamps is `StableSort`. */
  lemma StableUnique(s: seq<Entry>, t: seq<Entry>)
    requires Sorted(t) && SameAt(t, s)
    ensures t == StableSort(s)
  {
    SortSorted(s);
    forall ts
      ensures At(t, ts) == At(StableSort(s), ts)
    {
      SortAt(s, ts);
    }
    SortedUnique(t, StableSort(s));
  }

  // ---------- keeping the newest ----------

  /** The last `n` elements: what `del lst[:-n]` leaves. */
  function LastN<T>(s: seq<T>, n: nat): (r: seq<T>)
    ensures |r| <= n
  {
    if |s| <= n then s else s[|s| - n..]
  }

  /** Of a sorted list, the newest `n` are kept, in order: no dropped entry is newer than a kept one. */
  lemma KeepsNewest(s: seq<Entry>, n: nat)
    requires Sorted(s)
    ensures var kept := LastN(s, n);
            && |kept| == (if |s| < n then |s| else n) && kept == s[|s| - |kept|..]
            && forall i, j :: 0 <= i < |s| - |kept| && 0 <= j < |kept| ==> s[i].ts <= kept[j].ts
  {
  }

  lemma {:induction false} SortOfSorted(s: seq<Entry>)
    requires Sorted(s)
    ensures StableSort(s) == s
  {
    if s != [] {
      SortOfSorted(s[..|s| - 1]);
    }
  }

  lemma SortAppend(s: seq<Entry>, x: Entry)
    ensures StableSort(s + [x]) == Insert(StableSort(s), x)
  {
    assert (s + [x])[..|s|] == s;
  }

  /** Where an insert lands in two sorted parts. */
  lemma {:induction false} InsertSplit(d: seq<Entry>, t: seq<Entry>, x: Entry)
    requires t != [] && Sorted(t)
    ensures Insert(d + t, x) == if t[0].ts <= x.ts then d + Insert(t, x) else Insert(d, x) + t
    decreases |t|
  {
    var front, last := t[..|t| - 1], t[|t| - 1];
    assert (d + t)[..|d + t| - 1] == d + front;
    if last.ts > x.ts {
      if front == [] {
        assert d + front == d && t == [last];
      } else {
        InsertSplit(d, front, x);
        assert t == front + [last];
      }
    }
  }

  lemma {:induction false} InsertFront(t: seq<Entry>, x: Entry)
    requires Sorted(t) && (t != [] ==> t[0].ts > x.ts)
    ensures Insert(t, x) == [x] + t
  {
    if t != [] {
      InsertFront(t[..|t| - 1], x);
      assert t == t[..|t| - 1] + [t[|t| - 1]];
    }
  }

  lemma LastNOfSum<T>(d: seq<T>, t: seq<T>, n: nat)
    requires |t| >= n
    ensures LastN(d + t, n) == LastN(t, n)
  {
  }

  /** Cutting before an insert loses nothing that would survive cutting after it. */
  lemma TrimBeforeInsert(s: seq<Entry>, x: Entry, n: nat)
    requires Sorted(s)
    ensures LastN(Insert(LastN(s, n), x), n) == LastN(Insert(s, x), n)
  {
    if |s| > n > 0 {
      var d, t := s[..|s| - n], s[|s| - n..];
      assert s == d + t;
      InsertSplit(d, t, x);
      if t[0].ts <= x.ts {
        LastNOfSum(d, Insert(t, x), n);
      } else {
        InsertFront(t, x);
        LastNOfSum(Insert(d, x), t, n);
        LastNOfSum([x], t, n);
      }
    }
  }

  lemma LastNLastN<T>(s: seq<T>, n: nat, m: nat)
    requires m <= n
    ensures LastN(LastN(s, n), m) == LastN(s, m)
  {
  }

  // ---------- recording ----------

  /** One block as the bridge reports it, with the reward and wall clock read when it is recorded. */
  datatype Delivery = Delivery(hash: string, wallet: string, worker: string, timestamp: Option<int>, reward: int,
                               now: int) {
    function ToEntry(): Entry {
      Entry(timestamp.GetOr(now), if worker == "" then "\U{2014}" else worker, hash, Some(reward))
    }
  }

  datatype History = History(payouts: map<string, seq<Entry>>, seen: set<string>) {
    function Of(wallet: string): seq<Entry> {
      if wallet in payouts then payouts[wallet] else []
    }

    predicate Skips(d: Delivery) {
      d.hash == "" || d.wallet == "" || d.hash in seen
    }

    function Record(d: Delivery): History {
      if Skips(d) then this
      else History(payouts[d.wallet := LastN(StableSort(Of(d.wallet) + [d.ToEntry()]), CAP)], seen + {d.hash})
    }
  }

  function RecordAll(h: History, ds: seq<Delivery>): History {
    if ds == [] then h else RecordAll(h, ds[..|ds| - 1]).Record(ds[|ds| - 1])
  }

  class Redactor {
    var payouts: map<string, seq<Entry>>
    var seen: set<string>
    var dirty: bool

    function Snapshot(): History
      reads this
    {
      History(payouts, seen)
    }

    constructor (loaded: History)
      ensures Snapshot() == loaded && !dirty
    {
      payouts, seen, dirty := loaded.payouts, loaded.seen, false;
    }

    /** `_payouts_record`: one batch of blocks. */
    method PayoutsRecord(blocks: seq<Delivery>)
      modifies this
      ensures Snapshot() == RecordAll(old(Snapshot()), blocks)
    {
      for i := 0 to |blocks|
        invariant Snapshot() == RecordAll(old(Snapshot()), blocks[..i])
      {
        var b := blocks[i];
        ghost var before := Snapshot();
        assert blocks[..i + 1][..i] == blocks[..i];
        if b.hash == "" || b.wallet == "" || b.hash in seen {
          continue;
        }
        var lst := if b.wallet in payouts then payouts[b.wallet] else [];
        lst := lst + [b.ToEntry()];
        lst := StableSort(lst);
        lst := LastN(lst, CAP);
        payouts := payouts[b.wallet := lst];
        seen := seen + {b.hash};
        dirty := true;
      }
      assert blocks[..|blocks|] == blocks;
    }

    /** `payout_history`: newest first, rows without a stored amount priced at the live reward. */
    method ShowHistory(wallet: string, limit: int, liveReward: int) returns (rows: seq<Entry>)
      ensures rows == Shown(Snapshot().Of(wallet), limit, liveReward)
    {
      var lst := StableSort(if wallet in payouts then payouts[wallet] else []);
      lst := Tail(lst, limit);
      rows := [];
      var i := |lst|;
      while i > 0
        invariant 0 <= i <= |lst|
        invariant |rows| == |lst| - i
        invariant forall k :: 0 <= k < |rows| ==> rows[k] == Priced(lst[|lst| - 1 - k], liveReward)
      {
        i := i - 1;
        rows := rows + [Priced(lst[i], liveReward)];
      }
      assert rows == Shown(Snapshot().Of(wallet), limit, liveReward);
    }
  }

  /** Python's `lst[-limit:]`. */
  function Tail<T>(s: seq<T>, limit: int): seq<T> {
    if limit > 0 then LastN(s, limit) else if -limit <= |s| then s[-limit..] else []
  }

  function Priced(e: Entry, liveReward: int): Entry {
    e.(amount := Some(e.amount.GetOr(liveReward)))
  }

  function NewestFirst(lst: seq<Entry>, liveReward: int): seq<Entry> {
    seq(|lst|, k requires 0 <= k < |lst| => Priced(lst[|lst| - 1 - k], liveReward))
  }

  function Shown(list: seq<Entry>, limit: int, liveReward: int): seq<Entry> {
    NewestFirst(Tail(StableSort(list), limit), liveReward)
  }

  // ---------- the reference ----------

  /** The entries of the first deliveries of distinct hashes for one wallet, in arrival order. */
  function Firsts(seen: set<string>, ds: seq<Delivery>, wallet: string): seq<Entry> {
    if ds == [] then []
    else
      var front, d := ds[..|ds| - 1], ds[|ds| - 1];
      Firsts(seen, front, wallet) +
      if d.wallet == wallet && wallet != "" && d.hash != "" && d.hash !in SeenAfter(seen, front) then
        [Entry(if d.timestamp.Some? then d.timestamp.value else d.now, if d.worker == "" then "\U{2014}" else d.worker,
               d.hash, Some(d.reward))]
      else []
  }

  function SeenAfter(seen: set<string>, ds: seq<Delivery>): set<string> {
    if ds == [] then seen
    else
      var d := ds[|ds| - 1];
      SeenAfter(seen, ds[..|ds| - 1]) + if d.hash != "" && d.wallet != "" then {d.hash} else {}
  }

  lemma {:induction false} SeenIsSeenAfter(h: History, ds: seq<Delivery>)
    ensures RecordAll(h, ds).seen == SeenAfter(h.seen, ds)
  {
    if ds != [] {
      SeenIsSeenAfter(h, ds[..|ds| - 1]);
    }
  }

  /** One more entry on a list that is already cut: the same as cutting once at the end. */
  lemma OneMore(all: seq<Entry>, x: Entry)
    ensures LastN(StableSort(LastN(StableSort(all), CAP) + [x]), CAP) == LastN(StableSort(all + [x]), CAP)
  {
    var sorted := StableSort(all);
    SortSorted(all);
    SortOfSorted(LastN(sorted, CAP));
    SortAppend(LastN(sorted, CAP), x);
    SortAppend(all, x);
    TrimBeforeInsert(sorted, x, CAP);
  }

  /**
    After any deliveries since load, in any timestamp order and with repeats, a wallet's list
    is sorted and is the newest 200, by timestamp and then arrival, of what was loaded plus
    all first deliveries: sorting and cutting per block equals sorting and cutting once.
   */
  lemma {:induction false} HistoryIsNewest(h: History, ds: seq<Delivery>, wallet: string)
    ensures var fresh_ := Firsts(h.seen, ds, wallet);
            RecordAll(h, ds).Of(wallet) ==
            if fresh_ == [] then h.Of(wallet) else LastN(StableSort(h.Of(wallet) + fresh_), 200)
  {
    if ds != [] {
      var front, d := ds[..|ds| - 1], ds[|ds| - 1];
      HistoryIsNewest(h, front, wallet);
      SeenIsSeenAfter(h, front);
      var r, before := RecordAll(h, front), Firsts(h.seen, front, wallet);
      assert Firsts(h.seen, ds, wallet) == if d.wallet == wallet && !r.Skips(d) then before + [d.ToEntry()] else before;
      RecordOne(r, d, wallet, h.Of(wallet), before);
    }
  }

  lemma RecordOf(r: History, d: Delivery, wallet: string)
    ensures r.Record(d).Of(wallet) ==
            if d.wallet == wallet && !r.Skips(d) then LastN(StableSort(r.Of(wallet) + [d.ToEntry()]), CAP)
            else r.Of(wallet)
  {
  }

  /** The step: what one delivery does to one wallet's list. */
  lemma RecordOne(r: History, d: Delivery, wallet: string, base: seq<Entry>, before: seq<Entry>)
    requires r.Of(wallet) == if before == [] then base else LastN(StableSort(base + before), CAP)
    ensures var new_ := d.wallet == wallet && !r.Skips(d);
            var now := if new_ then before + [d.ToEntry()] else before;
            r.Record(d).Of(wallet) == if now == [] then base else LastN(StableSort(base + now), CAP)
  {
    RecordOf(r, d, wallet);
    if d.wallet == wallet && !r.Skips(d) {
      var x := d.ToEntry();
      assert base + (before + [x]) == (base + before) + [x];
      if before == [] {
        assert base + before == base;
      } else {
        OneMore(base + before, x);
      }
    }
  }

  /** A list that recorded anything since load is sorted. */
  lemma HistorySorted(h: History, ds: seq<Delivery>, wallet: string)
    requires Firsts(h.seen, ds, wallet) != []
    ensures Sorted(RecordAll(h, ds).Of(wallet)) && |RecordAll(h, ds).Of(wallet)| <= 200
  {
    HistoryIsNewest(h, ds, wallet);
    SortSorted(h.Of(wallet) + Firsts(h.seen, ds, wallet));
  }

  lemma NewestFirstAt(lst: seq<Entry>, live: int)
    ensures var rows := NewestFirst(lst, live);
            |rows| == |lst| && forall k :: 0 <= k < |rows| ==> rows[k] == Priced(lst[|lst| - 1 - k], live)
  {
  }

  /** The rows of a list that is sorted already. */
  lemma ShownOfSorted(sorted: seq<Entry>, limit: int, live: int)
    requires Sorted(sorted)
    ensures ShowsFrom(Shown(sorted, limit, live), sorted, FirstShown(|sorted|, limit), live)
  {
    SortOfSorted(sorted);
    NewestFirstAt(Tail(sorted, limit), live);
  }

  /** The first position a slice `[-limit:]` of a list of `n` shows. */
  function FirstShown(n: nat, limit: int): (from: nat)
    ensures from <= n
  {
    if limit > 0 then (if n < limit then 0 else n - limit) else if n < -limit then n else -limit
  }

  /** The rows are the entries from position `from` on, newest first, with a price on every one. */
  ghost predicate ShowsFrom(rows: seq<Entry>, list: seq<Entry>, from: nat, live: int)
    requires from <= |list|
  {
    && |rows| == |list| - from
    && forall k :: 0 <= k < |rows| ==>
         var e := list[|list| - 1 - k];
         rows[k] == Entry(e.ts, e.worker, e.hash, Some(if e.amount.Some? then e.amount.value else live))
  }

  /**
    What a dashboard request shows, for any limit: of the newest 200 entries of everything loaded
    and delivered, the newest `limit`, newest first; a limit of zero or less leaves out that many of
    the oldest instead. Entries without an amount are shown at the live reward.
   */
  lemma ShownIsNewest(h: History, ds: seq<Delivery>, wallet: string, limit: int, live: int)
    requires Firsts(h.seen, ds, wallet) != []
    ensures var held := LastN(StableSort(h.Of(wallet) + Firsts(h.seen, ds, wallet)), 200);
            ShowsFrom(Shown(RecordAll(h, ds).Of(wallet), limit, live), held, FirstShown(|held|, limit), live)
  {
    HistoryIsNewest(h, ds, wallet);
    SortSorted(h.Of(wallet) + Firsts(h.seen, ds, wallet));
    ShownOfSorted(RecordAll(h, ds).Of(wallet), limit, live);
  }
}

/**
  Pending merged-mining work (bridge/src/merged.rs, `MergedPending`): a bounded FIFO from
  merge key to the ZKas block that awaits a solved parent, with the payee flag recorded when
  the template was cut and the solved markers.

  `Pending` is the state as a value, `PendingWork` the mutable store. `Replay` runs a history
  of calls, and the theorems at the end say what every history leaves behind without
  mentioning the store's own fields.
 */
module MergedPending {
  import opened Wrappers

  /** Merge keys are hashes. */
  type Key = nat

  datatype Pending<B> = Pending(map_: map<Key, B>, feeLane: set<Key>, order: seq<Key>, solved: set<Key>, cap: nat) {
    ghost predicate Valid() {
      && cap >= 1
      && |order| <= cap
      && (forall i, j :: 0 <= i < j < |order| ==> order[i] != order[j])
      && (forall k :: k in map_ <==> k in order)
      && feeLane <= map_.Keys
      && solved <= map_.Keys
    }

    predicate PaidPool(key: Key) {
      key in feeLane
    }

    function Get(key: Key): Option<B> {
      if key in map_ then Some(map_[key]) else None
    }

    predicate IsUnsolved(key: Key) {
      key in map_ && key !in solved
    }

    /** `insert_with_payee`: a new key goes to the back and may push the oldest one out. */
    function Insert(key: Key, block: B, paidPool: bool): Pending<B> {
      var flagged := if paidPool then feeLane + {key} else feeLane - {key};
      if key in map_ then
        this.(map_ := map_[key := block], feeLane := flagged)
      else if |order| < cap then
        this.(map_ := map_[key := block], feeLane := flagged, order := order + [key])
      else
        var oldest := (order + [key])[0];
        Pending(map_[key := block] - {oldest},
                if paidPool then feeLane - {oldest} + {key} else feeLane - {oldest} - {key},
                (order + [key])[1..], solved - {oldest}, cap)
    }

    /** `claim_solution`: whether the call wins the key, and the state after it. */
    function Claim(key: Key): (bool, Pending<B>) {
      if key in map_ && key !in solved then (true, this.(solved := solved + {key}))
      else (false, this)
    }
  }

  /** A configured capacity of zero counts as one. */
  function Capacity(cap: nat): nat {
    if cap >= 1 then cap else 1
  }

  function Empty<B>(cap: nat): Pending<B> {
    Pending(map[], {}, [], {}, Capacity(cap))
  }

  /** Shifting a duplicate-free queue: everyone but the first stays, once. */
  lemma ShiftQueue(grown: seq<Key>)
    requires grown != [] && forall i, j :: 0 <= i < j < |grown| ==> grown[i] != grown[j]
    ensures var rest := grown[1..];
            && (forall i, j :: 0 <= i < j < |rest| ==> rest[i] != rest[j])
            && (forall k :: k in rest <==> k in grown && k != grown[0])
  {
    var rest := grown[1..];
    assert grown == [grown[0]] + rest;
    assert forall i :: 0 <= i < |rest| ==> rest[i] == grown[i + 1];
  }

  lemma GrowQueue(order: seq<Key>, key: Key)
    requires key !in order && forall i, j :: 0 <= i < j < |order| ==> order[i] != order[j]
    ensures var grown := order + [key];
            && (forall i, j :: 0 <= i < j < |grown| ==> grown[i] != grown[j])
            && (forall k :: k in grown <==> k == key || k in order)
  {
  }

  /** A new key with room left. */
  lemma InsertWithRoom<B>(p: Pending<B>, key: Key, block: B, paidPool: bool)
    requires p.Valid() && key !in p.map_ && |p.order| < p.cap
    ensures p.Insert(key, block, paidPool).Valid()
  {
    GrowQueue(p.order, key);
  }

  /** A new key that pushes the oldest one out. */
  lemma InsertAtCap<B>(p: Pending<B>, key: Key, block: B, paidPool: bool)
    requires p.Valid() && key !in p.map_ && |p.order| == p.cap
    ensures p.Insert(key, block, paidPool).Valid()
  {
    var q := p.Insert(key, block, paidPool);
    GrowQueue(p.order, key);
    ShiftQueue(p.order + [key]);
    assert forall k :: k in q.map_ <==> k in q.order;
  }

  lemma InsertKeepsValid<B>(p: Pending<B>, key: Key, block: B, paidPool: bool)
    requires p.Valid()
    ensures p.Insert(key, block, paidPool).Valid()
  {
    if key !in p.map_ {
      if |p.order| < p.cap {
        InsertWithRoom(p, key, block, paidPool);
      } else {
        InsertAtCap(p, key, block, paidPool);
      }
    }
  }

  /** The store itself, updated in place. */
  class PendingWork<B> {
    var map_: map<Key, B>
    var feeLane: set<Key>
    var order: seq<Key>
    var solved: set<Key>
    const cap: nat

    function Snapshot(): Pending<B>
      reads this
    {
      Pending(map_, feeLane, order, solved, cap)
    }

    constructor (cap: nat)
      ensures Snapshot() == Empty(cap) && Snapshot().Valid() && this.cap == if cap == 0 then 1 else cap
    {
      map_, feeLane, order, solved := map[], {}, [], {};
      this.cap := Capacity(cap);
    }

    method InsertWithPayee(key: Key, block: B, paidPool: bool)
      requires Snapshot().Valid()
      modifies this
      ensures Snapshot() == old(Snapshot()).Insert(key, block, paidPool) && Snapshot().Valid()
    {
      InsertKeepsValid(Snapshot(), key, block, paidPool);
      var fresh_ := key !in map_;
      map_ := map_[key := block];
      if fresh_ {
        order := order + [key];
        while |order| > cap
          invariant order == old(order) + [key] || |order| <= cap
          invariant |order| <= cap && |old(order)| < cap ==> order == old(order) + [key]
          invariant if order == old(order) + [key] then
                      map_ == old(map_)[key := block] && solved == old(solved) && feeLane == old(feeLane)
                    else
                      var oldest := (old(order) + [key])[0];
                      && |old(order)| == cap && order == (old(order) + [key])[1..]
                      && map_ == old(map_)[key := block] - {oldest}
                      && solved == old(solved) - {oldest} && feeLane == old(feeLane) - {oldest}
          decreases |order|
        {
          var oldest := order[0];
          order := order[1..];
          map_ := map_ - {oldest};
          solved := solved - {oldest};
          feeLane := feeLane - {oldest};
        }
      }
      feeLane := if paidPool then feeLane + {key} else feeLane - {key};
    }

    method ClaimSolution(key: Key) returns (won: bool)
      requires Snapshot().Valid()
      modifies this
      ensures (won, Snapshot()) == old(Snapshot()).Claim(key) && Snapshot().Valid()
    {
      won := false;
      if key in map_ {
        won := key !in solved;
        assert !won ==> solved + {key} == solved;
        solved := solved + {key};
      }
    }
  }

  datatype Call<B> = Insert(key: Key, block: B, paidPool: bool) | Claim(key: Key)

  /** The store after the first `n` calls. */
  function Replay<B>(calls: seq<Call<B>>, cap: nat, n: nat): Pending<B>
    requires n <= |calls|
  {
    if n == 0 then Empty(cap) else Step(Replay(calls, cap, n - 1), calls[n - 1])
  }

  function Step<B>(p: Pending<B>, c: Call<B>): Pending<B> {
    match c
    case Insert(key, block, paidPool) => p.Insert(key, block, paidPool)
    case Claim(key) => p.Claim(key).1
  }

  // ---------- the reference: a log that forgets nothing ----------

  /**
    `arrivals` lists the keys in the order they became resident, `newest` holds block and
    payee flag of every key's newest insert, `claimed` the keys claimed since they last
    arrived. A key is resident while it is among the last `cap` arrivals.
   */
  datatype Log<B> = Log(arrivals: seq<Key>, newest: map<Key, (B, bool)>, claimed: set<Key>) {
    function Resident(cap: nat): seq<Key> {
      if |arrivals| <= cap then arrivals else arrivals[|arrivals| - cap..]
    }

    function Record(c: Call<B>, cap: nat): Log<B> {
      match c
      case Insert(key, block, paidPool) =>
        var log := this.(newest := newest[key := (block, paidPool)]);
        if key in Resident(cap) then log
        else log.(arrivals := arrivals + [key], claimed := claimed - {key})
      case Claim(key) =>
        if key in Resident(cap) then this.(claimed := claimed + {key}) else this
    }
  }

  function LogOf<B>(calls: seq<Call<B>>, cap: nat, n: nat): Log<B>
    requires n <= |calls|
  {
    if n == 0 then Log([], map[], {}) else LogOf(calls, cap, n - 1).Record(calls[n - 1], cap)
  }

  /** The bounded store shows exactly the resident part of the log. */
  ghost predicate Shows<B>(p: Pending<B>, log: Log<B>) {
    && p.order == log.Resident(p.cap)
    && (forall k :: k in p.map_ ==> k in log.newest && p.map_[k] == log.newest[k].0)
    && (forall k :: k in p.map_ ==> (k in p.feeLane <==> log.newest[k].1))
    && (forall k :: k in p.map_ ==> (k in p.solved <==> k in log.claimed))
  }

  /** A consistent store of this capacity that shows the log. */
  ghost predicate Tracks<B>(p: Pending<B>, log: Log<B>, cap: nat) {
    p.Valid() && p.cap == cap && Shows(p, log)
  }

  lemma ReinsertShows<B>(p: Pending<B>, log: Log<B>, c: Call<B>)
    requires p.Valid() && Shows(p, log) && c.Insert? && c.key in p.map_
    ensures Shows(Step(p, c), log.Record(c, p.cap))
  {
    assert c.key in p.order;
  }

  lemma ArrivalOrder<B>(p: Pending<B>, log: Log<B>, c: Call<B>)
    requires p.cap >= 1 && p.order == log.Resident(p.cap) && c.Insert? && c.key !in p.map_ && c.key !in p.order
    ensures Step(p, c).order == log.Record(c, p.cap).Resident(p.cap)
  {
  }

  lemma ArrivalShows<B>(p: Pending<B>, log: Log<B>, c: Call<B>)
    requires p.Valid() && Shows(p, log) && c.Insert? && c.key !in p.map_
    ensures Shows(Step(p, c), log.Record(c, p.cap))
  {
    var q, after := Step(p, c), log.Record(c, p.cap);
    assert c.key !in p.order;
    ArrivalOrder(p, log, c);
    ArrivalFlags(p, log, c);
    assert q.cap == p.cap;
  }

  lemma ArrivalFlags<B>(p: Pending<B>, log: Log<B>, c: Call<B>)
    requires p.solved <= p.map_.Keys && c.Insert? && c.key !in p.map_ && c.key !in log.Resident(p.cap)
    requires |p.order| >= p.cap ==> p.order != [] && p.order[0] != c.key
    requires forall k :: k in p.map_ ==> k in log.newest && p.map_[k] == log.newest[k].0
    requires forall k :: k in p.map_ ==> (k in p.feeLane <==> log.newest[k].1)
    requires forall k :: k in p.map_ ==> (k in p.solved <==> k in log.claimed)
    ensures var q, after := Step(p, c), log.Record(c, p.cap);
            && (forall k :: k in q.map_ ==> k in after.newest && q.map_[k] == after.newest[k].0)
            && (forall k :: k in q.map_ ==> (k in q.feeLane <==> after.newest[k].1))
            && (forall k :: k in q.map_ ==> (k in q.solved <==> k in after.claimed))
  {
    var q := Step(p, c);
    assert forall k :: k in q.map_ ==> k == c.key || k in p.map_;
  }

  lemma ClaimShows<B>(p: Pending<B>, log: Log<B>, key: Key)
    requires p.Valid() && Shows(p, log)
    ensures Shows(p.Claim(key).1, log.Record(Call.Claim(key), p.cap))
  {
    assert key in p.map_ <==> key in log.Resident(p.cap);
    if key !in p.map_ {
      assert log.Record(Call.Claim(key), p.cap) == log;
    } else if key in p.solved {
      assert log.claimed + {key} == log.claimed;
    }
  }

  lemma StepShows<B>(p: Pending<B>, log: Log<B>, c: Call<B>)
    requires Tracks(p, log, p.cap)
    ensures Tracks(Step(p, c), log.Record(c, p.cap), p.cap)
  {
    if c.Claim? {
      ClaimShows(p, log, c.key);
    } else {
      InsertKeepsValid(p, c.key, c.block, c.paidPool);
      if c.key in p.map_ {
        ReinsertShows(p, log, c);
      } else {
        ArrivalShows(p, log, c);
      }
    }
  }

  /**
    After every history of inserts, re-inserts and claims the store is duplicate-free, its
    queue holds exactly the last `cap` arrivals, each key carries the block and payee flag of
    its newest insert, and it is marked solved exactly when it was claimed since it arrived.
   */
  lemma {:induction false} ReplayShowsLog<B>(calls: seq<Call<B>>, cap: nat, n: nat)
    requires n <= |calls|
    ensures Tracks(Replay(calls, cap, n), LogOf(calls, Capacity(cap), n), Capacity(cap))
  {
    if n > 0 {
      ReplayShowsLog(calls, cap, n - 1);
      StepShows(Replay(calls, cap, n - 1), LogOf(calls, Capacity(cap), n - 1), calls[n - 1]);
    }
  }

  /** The payee lookup answers for residents with the newest insert and with `false` for everyone else. */
  lemma PaidPoolIsNewestFlag<B>(calls: seq<Call<B>>, cap: nat, n: nat, key: Key)
    requires n <= |calls|
    ensures var log := LogOf(calls, Capacity(cap), n);
            Replay(calls, cap, n).PaidPool(key) <==>
            key in log.Resident(Capacity(cap)) && key in log.newest && log.newest[key].1
  {
    ReplayShowsLog(calls, cap, n);
    assert key in Replay(calls, cap, n).map_ <==> key in Replay(calls, cap, n).order;
  }

  lemma CapacityIs(cap: nat)
    ensures Capacity(cap) >= 1 && (cap >= 1 ==> Capacity(cap) == cap) && (cap == 0 ==> Capacity(cap) == 1)
  {
  }

  /**
    What every query answers after every history, in terms of the log alone: a claim wins exactly
    for a resident key not claimed since it arrived, which is also what unsolved means, and a lookup
    finds the block of the newest insert of exactly the residents, the last `cap` arrivals.
   */
  lemma QueriesReadLog<B>(calls: seq<Call<B>>, cap: nat, n: nat, key: Key)
    requires n <= |calls|
    ensures var p, log := Replay(calls, cap, n), LogOf(calls, Capacity(cap), n);
            var resident := key in log.Resident(if cap == 0 then 1 else cap);
            && (p.Claim(key).0 <==> resident && key !in log.claimed)
            && (p.IsUnsolved(key) <==> resident && key !in log.claimed)
            && (p.Get(key).Some? <==> resident)
            && (resident ==> key in log.newest && p.Get(key) == Some(log.newest[key].0))
  {
    CapacityIs(cap);
    ReplayShowsLog(calls, cap, n);
    var p := Replay(calls, cap, n);
    assert key in p.map_ <==> key in p.order;
  }

  /** So the first claim of every residency wins: nothing but a claim since its arrival can spoil it. */
  lemma {:induction false} FirstClaimWins<B>(calls: seq<Call<B>>, cap: nat, i: nat, j: nat)
    requires i < j < |calls| && calls[i].Insert? && calls[j] == Call.Claim(calls[i].key)
    requires calls[i].key !in LogOf(calls, Capacity(cap), i).Resident(Capacity(cap))
    requires calls[j].key in LogOf(calls, Capacity(cap), j).Resident(Capacity(cap))
    requires forall m :: i < m < j ==> calls[m] != Call.Claim(calls[i].key)
    ensures Replay(calls, cap, j).Claim(calls[j].key).0
  {
    NotClaimedSince(calls, Capacity(cap), i, j);
    CapacityIs(cap);
    QueriesReadLog(calls, cap, j, calls[j].key);
  }

  lemma {:induction false} NotClaimedSince<B>(calls: seq<Call<B>>, cap: nat, i: nat, j: nat)
    requires i < j <= |calls| && calls[i].Insert? && calls[i].key !in LogOf(calls, cap, i).Resident(cap)
    requires forall m :: i < m < j ==> calls[m] != Call.Claim(calls[i].key)
    ensures calls[i].key !in LogOf(calls, cap, j).claimed
    decreases j
  {
    if i < j - 1 {
      NotClaimedSince(calls, cap, i, j - 1);
    }
  }

  /** Whether a claim of the key at this point of the history would win. */
  predicate Claimable<B>(calls: seq<Call<B>>, cap: nat, n: nat, key: Key)
    requires n <= |calls|
  {
    Replay(calls, cap, n).Claim(key).0
  }

  /** Only the arrival of a key makes it claimable. */
  lemma BecomesClaimable<B>(p: Pending<B>, c: Call<B>, key: Key)
    requires p.Valid() && !p.Claim(key).0 && Step(p, c).Claim(key).0
    ensures c.Insert? && c.key == key && key !in p.map_
  {
  }

  lemma ClaimableByArrival<B>(calls: seq<Call<B>>, cap: nat, n: nat, key: Key)
    requires n < |calls| && !Claimable(calls, cap, n, key) && Claimable(calls, cap, n + 1, key)
    ensures calls[n].Insert? && calls[n].key == key && key !in Replay(calls, cap, n).map_
  {
    ReplayShowsLog(calls, cap, n);
    BecomesClaimable(Replay(calls, cap, n), calls[n], key);
  }

  /** A winning claim uses the key up. */
  lemma WinUsesUp<B>(calls: seq<Call<B>>, cap: nat, i: nat)
    requires i < |calls| && calls[i].Claim?
    ensures !Claimable(calls, cap, i + 1, calls[i].key)
  {
  }

  lemma {:induction false} ClaimableHistory<B>(calls: seq<Call<B>>, cap: nat, n: nat, key: Key) returns (can: seq<bool>)
    requires n <= |calls|
    ensures |can| == n + 1 && forall k {:trigger can[k]} :: 0 <= k <= n ==> can[k] == Claimable(calls, cap, k, key)
  {
    if n == 0 {
      can := [Claimable(calls, cap, 0, key)];
    } else {
      var front := ClaimableHistory(calls, cap, n - 1, key);
      can := front + [Claimable(calls, cap, n, key)];
    }
  }

  lemma FirstTrue(can: seq<bool>, i: nat, j: nat) returns (m: nat)
    requires i <= j < |can| && !can[i] && can[j]
    ensures i <= m < j && !can[m] && can[m + 1]
  {
    m := i;
    while !can[m + 1]
      invariant i <= m < j && !can[m]
      decreases j - m
    {
      m := m + 1;
    }
  }

  lemma ArrivalBetween<B>(calls: seq<Call<B>>, cap: nat, key: Key, i: nat, j: nat) returns (m: nat)
    requires i <= j <= |calls| && !Claimable(calls, cap, i, key) && Claimable(calls, cap, j, key)
    ensures i <= m < j && calls[m].Insert? && calls[m].key == key && key !in Replay(calls, cap, m).map_
  {
    var can := ClaimableHistory(calls, cap, |calls|, key);
    m := FirstTrue(can, i, j);
    ClaimableByArrival(calls, cap, m, key);
  }

  /**
    At most one claim wins per residency: for a claim to win after an earlier claim of the same
    key, won or lost, the key must have been out of the store and inserted again in between.
   */
  lemma OneWinPerResidency<B>(calls: seq<Call<B>>, cap: nat, i: nat, j: nat) returns (m: nat)
    requires i < j < |calls| && calls[i].Claim? && calls[j] == calls[i] && Claimable(calls, cap, j, calls[j].key)
    ensures i < m < j && calls[m].Insert? && calls[m].key == calls[i].key
    ensures calls[m].key !in Replay(calls, cap, m).map_
  {
    WinUsesUp(calls, cap, i);
    m := ArrivalBetween(calls, cap, calls[i].key, i + 1, j);
  }
}

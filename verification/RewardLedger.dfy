/**
  Allocating coinbase rewards from concurrent sweeps (accountant/src/allocation.rs,
  `allocate_coinbase_reward` and `finalise_empty`).

  The plan for a reward is computed without a lock, from the share window before its block;
  committing it is one transaction that locks the reward row and does nothing if the reward is
  allocated already. The database is a value, a transaction is one step, and any number of
  sweeps interleave with arriving shares and closings of windows.
 */
module RewardLedger {
  import opened Wrappers
  import opened FeeModel
  import opened RewardSplit
  import Shares = ShareWindows

  type RewardId = nat
  type TaskId = nat

  datatype Reward = Reward(amount: nat, daa: nat, isAllocated: bool)

  /** One `share_allocation` row. */
  datatype Row = Row(reward: RewardId, wallet: WalletId, alloc: Allocation)

  datatype Audit = Allocated(id: RewardId) | AllocatedEmpty(id: RewardId)

  datatype Db = Db(rewards: map<RewardId, Reward>, rows: seq<Row>, accrued: map<WalletId, int>, audit: seq<Audit>)

  // ---------- planning ----------

  function SumGross(rows: seq<Row>): int {
    if rows == [] then 0 else SumGross(rows[..|rows| - 1]) + rows[|rows| - 1].alloc.gross
  }

  /** Rows that may be committed for a reward: one per wallet, balanced, nonnegative, totalling the reward. */
  ghost predicate GoodRows(id: RewardId, amount: nat, rows: seq<Row>) {
    && rows != []
    && (forall i :: 0 <= i < |rows| ==> GoodRow(id, rows[i]))
    && (forall i, j :: 0 <= i < j < |rows| ==> rows[i].wallet != rows[j].wallet)
    && SumGross(rows) == amount
  }

  ghost predicate GoodRow(id: RewardId, row: Row) {
    row.reward == id && row.alloc.IsBalanced() && row.alloc.poolFee >= 0 && row.alloc.accrual >= 0 && row.alloc.net >= 0
  }

  datatype Planned = Rows(rows: seq<Row>) | Empty | Refused

  /** The rows of the first `n` wallets, or nothing if one of their breakdowns fails. */
  function RowsFrom(cfg: FeeConfig, id: RewardId, ws: seq<Window>, grosses: seq<int>, tiers: seq<Tier>, n: nat)
    : Option<seq<Row>>
    requires cfg.Valid() && |grosses| == |tiers| == |ws| && n <= |ws|
  {
    if n == 0 then Some([])
    else
      match (RowsFrom(cfg, id, ws, grosses, tiers, n - 1), ComputeAllocation(cfg, grosses[n - 1], tiers[n - 1]))
      case (Some(rows), Ok(a)) => Some(rows + [Row(id, ws[n - 1].wallet, a)])
      case _ => None
  }

  /** What the compute phase makes of a reward and the window rows it read. */
  function PlanOf(cfg: FeeConfig, id: RewardId, amount: int, ws: seq<Window>, tiers: seq<Tier>): Planned
    requires cfg.Valid() && |tiers| == |ws|
  {
    if amount < 0 then Refused
    else if ws == [] then Empty
    else if Total(ws) <= 0.0 then Refused
    else
      match RowsFrom(cfg, id, ws, Grosses(ws, amount), tiers, |ws|)
      case Some(rows) => Rows(rows)
      case None => Refused
  }

  lemma {:induction false} RowsFromFails(cfg: FeeConfig, id: RewardId, ws: seq<Window>, grosses: seq<int>,
                                         tiers: seq<Tier>, n: nat)
    requires cfg.Valid() && |grosses| == |tiers| == |ws| && n <= |ws|
    ensures RowsFrom(cfg, id, ws, grosses, tiers, n).None? <==>
            exists i :: 0 <= i < n && !ComputeAllocation(cfg, grosses[i], tiers[i]).Ok?
  {
    if n > 0 {
      RowsFromFails(cfg, id, ws, grosses, tiers, n - 1);
    }
  }

  lemma {:induction false} RowsFromTotal(cfg: FeeConfig, id: RewardId, ws: seq<Window>, grosses: seq<int>,
                                         tiers: seq<Tier>, n: nat)
    requires cfg.Valid() && |grosses| == |tiers| == |ws| && n <= |ws|
    requires RowsFrom(cfg, id, ws, grosses, tiers, n).Some?
    ensures var rows := RowsFrom(cfg, id, ws, grosses, tiers, n).value;
            |rows| == n && SumGross(rows) == Sum(grosses[..n])
  {
    if n > 0 {
      RowsFromTotal(cfg, id, ws, grosses, tiers, n - 1);
      var before := RowsFrom(cfg, id, ws, grosses, tiers, n - 1).value;
      var rows := RowsFrom(cfg, id, ws, grosses, tiers, n).value;
      assert rows == before + [rows[n - 1]];
      SumGrossAppend(before, rows[n - 1]);
      assert grosses[..n][..n - 1] == grosses[..n - 1];
    }
  }

  lemma SumGrossAppend(rows: seq<Row>, row: Row)
    ensures SumGross(rows + [row]) == SumGross(rows) + row.alloc.gross
  {
    assert (rows + [row])[..|rows|] == rows;
  }

  lemma {:induction false} RowsFromAt(cfg: FeeConfig, id: RewardId, ws: seq<Window>, grosses: seq<int>,
                                      tiers: seq<Tier>, n: nat, i: nat)
    requires cfg.Valid() && |grosses| == |tiers| == |ws| && i < n <= |ws|
    requires RowsFrom(cfg, id, ws, grosses, tiers, n).Some?
    ensures var rows := RowsFrom(cfg, id, ws, grosses, tiers, n).value;
            |rows| == n && RowAt(cfg, id, ws[i].wallet, grosses[i], tiers[i], rows[i])
  {
    RowsFromTotal(cfg, id, ws, grosses, tiers, n);
    RowsFromTotal(cfg, id, ws, grosses, tiers, n - 1);
    if i < n - 1 {
      RowsFromAt(cfg, id, ws, grosses, tiers, n - 1, i);
    }
  }

  /** One wallet's row: the fee breakdown of its gross. */
  ghost predicate RowAt(cfg: FeeConfig, id: RewardId, wallet: WalletId, gross: int, tier: Tier, row: Row)
    requires cfg.Valid()
  {
    row.wallet == wallet && GoodRow(id, row) && Result.Ok(row.alloc) == ComputeAllocation(cfg, gross, tier)
  }

  /** A plan with rows has one good row per wallet, each the breakdown of its gross, and totals the reward. */
  lemma PlanIsGood(cfg: FeeConfig, id: RewardId, amount: int, ws: seq<Window>, tiers: seq<Tier>)
    requires cfg.Valid() && |tiers| == |ws| && WellFormed(ws)
    requires PlanOf(cfg, id, amount, ws, tiers).Rows?
    ensures amount >= 0 && ws != [] && Total(ws) > 0.0
    ensures var rows := PlanOf(cfg, id, amount, ws, tiers).rows;
            && GoodRows(id, amount, rows) && |rows| == |ws|
            && forall i :: 0 <= i < |ws| ==> RowAt(cfg, id, ws[i].wallet, Gross(ws, amount, ws[i]), tiers[i], rows[i])
  {
    var gs := Grosses(ws, amount);
    var rows := PlanOf(cfg, id, amount, ws, tiers).rows;
    RowsFromTotal(cfg, id, ws, gs, tiers, |ws|);
    assert gs[..|ws|] == gs;
    GrossesTotal(ws, amount);
    forall i | 0 <= i < |ws|
      ensures RowAt(cfg, id, ws[i].wallet, gs[i], tiers[i], rows[i])
    {
      RowsFromAt(cfg, id, ws, gs, tiers, |ws|, i);
    }
  }

  /** When planning refuses and when it retains. */
  lemma PlanOutcome(cfg: FeeConfig, id: RewardId, amount: int, ws: seq<Window>, tiers: seq<Tier>)
    requires cfg.Valid() && |tiers| == |ws|
    ensures PlanOf(cfg, id, amount, ws, tiers).Empty? <==> amount >= 0 && ws == []
    ensures PlanOf(cfg, id, amount, ws, tiers).Refused? <==>
            amount < 0 || (ws != [] && (Total(ws) <= 0.0 ||
            exists i :: 0 <= i < |ws| && !ComputeAllocation(cfg, Gross(ws, amount, ws[i]), tiers[i]).Ok?))
  {
    if amount >= 0 && ws != [] && Total(ws) > 0.0 {
      var gs := Grosses(ws, amount);
      RowsFromFails(cfg, id, ws, gs, tiers, |ws|);
      assert forall i :: 0 <= i < |ws| ==> gs[i] == Gross(ws, amount, ws[i]);
    }
  }

  /** The fee breakdown of every wallet's gross, or nothing if one of them fails. */
  method BuildRows(cfg: FeeConfig, id: RewardId, ws: seq<Window>, grosses: seq<int>, tiers: seq<Tier>)
    returns (r: Option<seq<Row>>)
    requires cfg.Valid() && |grosses| == |tiers| == |ws|
    ensures r == RowsFrom(cfg, id, ws, grosses, tiers, |ws|)
  {
    var rows: seq<Row> := [];
    for i := 0 to |ws|
      invariant RowsFrom(cfg, id, ws, grosses, tiers, i) == Some(rows)
    {
      var a := ComputeAllocation(cfg, grosses[i], tiers[i]);
      if !a.Ok? {
        RowsFromFails(cfg, id, ws, grosses, tiers, |ws|);
        return None;
      }
      rows := rows + [Row(id, ws[i].wallet, a.allocation)];
    }
    return Some(rows);
  }

  /**
    The compute phase. An empty window retains the reward; a negative reward, an invalid total
    weight or an allocation error refuses. Otherwise there is one row per wallet.
   */
  method PlanReward(cfg: FeeConfig, id: RewardId, amount: int, ws: seq<Window>, tiers: seq<Tier>) returns (p: Planned)
    requires cfg.Valid() && |tiers| == |ws| && WellFormed(ws) && amount <= I64_MAX
    ensures p == PlanOf(cfg, id, amount, ws, tiers)
    ensures p.Rows? ==> amount >= 0 && GoodRows(id, amount, p.rows) && |p.rows| == |ws| && Total(ws) > 0.0
  {
    if amount < 0 {
      return Refused;
    }
    if ws == [] {
      return Empty;
    }
    var split := SplitReward(ws, amount);
    if split.InvalidWindowWeight? {
      return Refused;
    }
    assert split.grosses == Grosses(ws, amount);
    var built := BuildRows(cfg, id, ws, split.grosses, tiers);
    match built {
      case None =>
        return Refused;
      case Some(rows) =>
        p := Rows(rows);
        PlanIsGood(cfg, id, amount, ws, tiers);
    }
  }

  // ---------- the transactions ----------

  /** `coinbase_reward::ensure`. */
  function Record(db: Db, id: RewardId, amount: nat, daa: nat): Db {
    if id in db.rewards then db else db.(rewards := db.rewards[id := Reward(amount, daa, false)])
  }

  function AccruedOf(m: map<WalletId, int>, w: WalletId): int {
    if w in m then m[w] else 0
  }

  /** Add each positive rebate to its wallet. */
  function AccrueAll(m: map<WalletId, int>, rows: seq<Row>): map<WalletId, int> {
    if rows == [] then m
    else
      var before, row := AccrueAll(m, rows[..|rows| - 1]), rows[|rows| - 1];
      if row.alloc.accrual > 0 then before[row.wallet := AccruedOf(before, row.wallet) + row.alloc.accrual] else before
  }

  /** The locked commit of planned rows; `finalise_empty` is the case without rows. */
  function Commit(db: Db, id: RewardId, rows: seq<Row>): Db {
    if id !in db.rewards || db.rewards[id].isAllocated then db
    else Db(db.rewards[id := db.rewards[id].(isAllocated := true)], db.rows + rows, AccrueAll(db.accrued, rows),
            db.audit + [if rows == [] then AllocatedEmpty(id) else Allocated(id)])
  }

  datatype Outcome = Committed | AlreadyAllocated | UnknownReward

  class Database {
    var rewards: map<RewardId, Reward>
    var rows: seq<Row>
    var accrued: map<WalletId, int>
    var audit: seq<Audit>

    function Snapshot(): Db
      reads this
    {
      Db(rewards, rows, accrued, audit)
    }

    method CommitRows(id: RewardId, newRows: seq<Row>) returns (r: Outcome)
      modifies this
      ensures Snapshot() == Commit(old(Snapshot()), id, newRows)
      ensures r == if id !in old(rewards) then UnknownReward
                   else if old(rewards)[id].isAllocated then AlreadyAllocated else Committed
    {
      if id !in rewards {
        return UnknownReward;
      }
      if rewards[id].isAllocated {
        return AlreadyAllocated;
      }
      rows := rows + newRows;
      for i := 0 to |newRows|
        invariant rewards == old(rewards) && audit == old(audit) && rows == old(rows) + newRows
        invariant accrued == AccrueAll(old(accrued), newRows[..i])
      {
        var w, a := newRows[i].wallet, newRows[i].alloc.accrual;
        assert newRows[..i + 1][..i] == newRows[..i];
        if a > 0 {
          accrued := accrued[w := AccruedOf(accrued, w) + a];
        }
      }
      assert newRows[..|newRows|] == newRows;
      rewards := rewards[id := rewards[id].(isAllocated := true)];
      audit := audit + [if newRows == [] then AllocatedEmpty(id) else Allocated(id)];
      return Committed;
    }
  }

  // ---------- what the books must say ----------

  /** Everything booked for one reward: pool fee, rebate and payout. */
  function Booked(rows: seq<Row>, id: RewardId): int {
    if rows == [] then 0
    else
      var row := rows[|rows| - 1];
      Booked(rows[..|rows| - 1], id) +
      if row.reward == id then row.alloc.poolFee + row.alloc.accrual + row.alloc.net else 0
  }

  function Rebates(rows: seq<Row>, w: WalletId): int {
    if rows == [] then 0
    else
      var row := rows[|rows| - 1];
      Rebates(rows[..|rows| - 1], w) + if row.wallet == w then row.alloc.accrual else 0
  }

  ghost predicate HasRows(rows: seq<Row>, id: RewardId) {
    exists i :: 0 <= i < |rows| && rows[i].reward == id
  }

  /** Audit entries about one reward. */
  function Entries(audit: seq<Audit>, id: RewardId): seq<Audit> {
    if audit == [] then []
    else Entries(audit[..|audit| - 1], id) + if audit[|audit| - 1].id == id then [audit[|audit| - 1]] else []
  }

  /** The state of one reward's books. */
  ghost predicate RewardBooked(db: Db, id: RewardId) {
    if id !in db.rewards || !db.rewards[id].isAllocated then
      !HasRows(db.rows, id) && Entries(db.audit, id) == []
    else
      || (&& Entries(db.audit, id) == [Allocated(id)] && HasRows(db.rows, id)
          && Booked(db.rows, id) == db.rewards[id].amount)
      || (Entries(db.audit, id) == [AllocatedEmpty(id)] && !HasRows(db.rows, id))
  }

  ghost predicate Sound(db: Db) {
    && (forall id :: RewardBooked(db, id))
    && (forall w :: AccruedOf(db.accrued, w) == Rebates(db.rows, w))
    && (forall i, j :: 0 <= i < j < |db.rows| ==>
          db.rows[i].reward != db.rows[j].reward || db.rows[i].wallet != db.rows[j].wallet)
  }

  // ---------- appending a batch ----------

  lemma {:induction false} BookedConcat(a: seq<Row>, b: seq<Row>, id: RewardId)
    ensures Booked(a + b, id) == Booked(a, id) + Booked(b, id)
  {
    if b == [] {
      assert a + b == a;
    } else {
      BookedConcat(a, b[..|b| - 1], id);
      assert (a + b)[..|a + b| - 1] == a + b[..|b| - 1];
    }
  }

  lemma {:induction false} RebatesConcat(a: seq<Row>, b: seq<Row>, w: WalletId)
    ensures Rebates(a + b, w) == Rebates(a, w) + Rebates(b, w)
  {
    if b == [] {
      assert a + b == a;
    } else {
      RebatesConcat(a, b[..|b| - 1], w);
      assert (a + b)[..|a + b| - 1] == a + b[..|b| - 1];
    }
  }

  lemma {:induction false} AccrueAllAdds(m: map<WalletId, int>, rows: seq<Row>, w: WalletId)
    requires forall i :: 0 <= i < |rows| ==> rows[i].alloc.accrual >= 0
    ensures AccruedOf(AccrueAll(m, rows), w) == AccruedOf(m, w) + Rebates(rows, w)
  {
    if rows != [] {
      AccrueAllAdds(m, rows[..|rows| - 1], w);
    }
  }

  lemma {:induction false} NothingBooked(rows: seq<Row>, id: RewardId)
    requires !HasRows(rows, id)
    ensures Booked(rows, id) == 0
  {
    if rows != [] {
      assert forall i :: 0 <= i < |rows| - 1 ==> rows[..|rows| - 1][i] == rows[i];
      assert rows[|rows| - 1].reward != id;
      NothingBooked(rows[..|rows| - 1], id);
    }
  }

  lemma {:induction false} BatchBooked(id: RewardId, rows: seq<Row>)
    requires forall i :: 0 <= i < |rows| ==> GoodRow(id, rows[i])
    ensures Booked(rows, id) == SumGross(rows)
  {
    if rows != [] {
      BatchBooked(id, rows[..|rows| - 1]);
      assert GoodRow(id, rows[|rows| - 1]);
    }
  }

  lemma EntriesAppend(audit: seq<Audit>, e: Audit, id: RewardId)
    ensures Entries(audit + [e], id) == Entries(audit, id) + if e.id == id then [e] else []
  {
    assert (audit + [e])[..|audit|] == audit;
  }

  lemma HasRowsConcat(a: seq<Row>, b: seq<Row>, id: RewardId)
    ensures HasRows(a + b, id) <==> HasRows(a, id) || HasRows(b, id)
  {
    if HasRows(a, id) {
      var i :| 0 <= i < |a| && a[i].reward == id;
      assert (a + b)[i].reward == id;
    }
    if HasRows(b, id) {
      var i :| 0 <= i < |b| && b[i].reward == id;
      assert (a + b)[|a| + i].reward == id;
    }
  }

  // ---------- steps keep the books sound ----------

  /** The committed reward's own books. */
  lemma CommitBooksReward(db: Db, id: RewardId, rows: seq<Row>)
    requires RewardBooked(db, id) && id in db.rewards && !db.rewards[id].isAllocated
    requires rows == [] || GoodRows(id, db.rewards[id].amount, rows)
    ensures RewardBooked(Commit(db, id, rows), id)
  {
    EntriesAppend(db.audit, if rows == [] then AllocatedEmpty(id) else Allocated(id), id);
    HasRowsConcat(db.rows, rows, id);
    BookedConcat(db.rows, rows, id);
    NothingBooked(db.rows, id);
    if rows != [] {
      BatchBooked(id, rows);
      assert rows[0].reward == id && HasRows(rows, id);
    }
  }

  /** Every other reward's books are untouched. */
  lemma CommitKeepsOthers(db: Db, id: RewardId, rows: seq<Row>, other: RewardId)
    requires RewardBooked(db, other) && other != id && id in db.rewards && !db.rewards[id].isAllocated
    requires forall i :: 0 <= i < |rows| ==> rows[i].reward == id
    ensures RewardBooked(Commit(db, id, rows), other)
  {
    EntriesAppend(db.audit, if rows == [] then AllocatedEmpty(id) else Allocated(id), other);
    HasRowsConcat(db.rows, rows, other);
    BookedConcat(db.rows, rows, other);
    NothingBooked(rows, other);
  }

  lemma CommitUnique(old_: seq<Row>, rows: seq<Row>, id: RewardId)
    requires !HasRows(old_, id) && forall i :: 0 <= i < |rows| ==> rows[i].reward == id
    requires forall i, j :: 0 <= i < j < |rows| ==> rows[i].wallet != rows[j].wallet
    requires forall i, j :: 0 <= i < j < |old_| ==> old_[i].reward != old_[j].reward || old_[i].wallet != old_[j].wallet
    ensures var all := old_ + rows;
            forall i, j :: 0 <= i < j < |all| ==> all[i].reward != all[j].reward || all[i].wallet != all[j].wallet
  {
    assert forall i :: 0 <= i < |old_| ==> old_[i].reward != id;
  }

  lemma CommitSound(db: Db, id: RewardId, rows: seq<Row>)
    requires Sound(db)
    requires id in db.rewards ==> rows == [] || GoodRows(id, db.rewards[id].amount, rows)
    ensures Sound(Commit(db, id, rows))
  {
    if id in db.rewards && !db.rewards[id].isAllocated {
      var after := Commit(db, id, rows);
      assert RewardBooked(db, id);
      assert forall i :: 0 <= i < |rows| ==> GoodRow(id, rows[i]);
      forall other
        ensures RewardBooked(after, other)
      {
        if other == id {
          CommitBooksReward(db, id, rows);
        } else {
          CommitKeepsOthers(db, id, rows, other);
        }
      }
      forall w
        ensures AccruedOf(after.accrued, w) == Rebates(after.rows, w)
      {
        AccrueAllAdds(db.accrued, rows, w);
        RebatesConcat(db.rows, rows, w);
      }
      CommitUnique(db.rows, rows, id);
    }
  }

  lemma RecordSound(db: Db, id: RewardId, amount: nat, daa: nat)
    requires Sound(db)
    ensures Sound(Record(db, id, amount, daa))
  {
    var after := Record(db, id, amount, daa);
    forall other
      ensures RewardBooked(after, other)
    {
      assert RewardBooked(db, other);
    }
  }

  // ---------- interleaved sweeps ----------

  /** The share window of a reward: the DAA scores of the span before its block. */
  function WindowRange(span: nat, daa: nat): Shares.Range {
    Shares.Range(if daa < span then 0 else daa - span, daa)
  }

  /**
    A plan: its reward, the range, window rows and tiers it read, the rows it made of them, and the
    shares there were when the range was last closed before the read.
   */
  datatype Plan = Plan(id: RewardId, r: Shares.Range, ws: seq<Window>, tiers: seq<Tier>, rows: seq<Row>,
                       held: seq<Shares.Share>)

  /** `plans` are in flight, one per task; `committed` says which plan allocated a reward. */
  datatype System = System(db: Db, store: Shares.Store, plans: map<TaskId, Plan>, committed: map<RewardId, Plan>)

  datatype Action =
    | RecordReward(id: RewardId, amount: nat, daa: nat)
    | ShareEvent(event: Shares.Event, after: Shares.Store)
    | Compute(task: TaskId, id: RewardId, r: Shares.Range, ws: seq<Window>, tiers: seq<Tier>)
    | CommitPlan(task: TaskId)
    | Abandon(task: TaskId)

  /**
    Shares arrive and ranges are closed at any time. A sweep computes a recorded reward from a
    listing of its share window, which it has closed before; other closings and arrivals may come
    in between, and the tiers may be anything.
   */
  ghost predicate Enabled(span: nat, s: System, a: Action) {
    match a
    case RecordReward(_, _, _) => true
    case ShareEvent(event, after) => Shares.Follows(s.store, event, after)
    case Compute(_, id, r, ws, tiers) =>
      && id in s.db.rewards && r == WindowRange(span, s.db.rewards[id].daa)
      && r in s.store.closed && Shares.Lists(s.store.table, r, ws) && |tiers| == |ws|
    case CommitPlan(task) => task in s.plans
    case Abandon(task) => task in s.plans
  }

  function Next(cfg: FeeConfig, s: System, a: Action): System
    requires cfg.Valid()
  {
    match a
    case RecordReward(id, amount, daa) => s.(db := Record(s.db, id, amount, daa))
    case ShareEvent(_, after) => s.(store := after)
    case Compute(task, id, r, ws, tiers) =>
      if id !in s.db.rewards || r !in s.store.closed || |tiers| != |ws| then s
      else Computed(cfg, s, task, id, r, ws, tiers)
    case CommitPlan(task) =>
      if task !in s.plans then s
      else
        var p := s.plans[task];
        s.(db := Commit(s.db, p.id, p.rows), plans := s.plans - {task},
           committed := if p.id in s.db.rewards && !s.db.rewards[p.id].isAllocated then s.committed[p.id := p]
                        else s.committed)
    case Abandon(task) => s.(plans := s.plans - {task})
  }

  /** A refused computation leaves no plan. */
  function Computed(cfg: FeeConfig, s: System, task: TaskId, id: RewardId, r: Shares.Range, ws: seq<Window>,
                    tiers: seq<Tier>): System
    requires cfg.Valid() && id in s.db.rewards && r in s.store.closed && |tiers| == |ws|
  {
    match PlanOf(cfg, id, s.db.rewards[id].amount, ws, tiers)
    case Refused => s.(plans := s.plans - {task})
    case Empty => s.(plans := s.plans[task := Plan(id, r, ws, tiers, [], s.store.closed[r])])
    case Rows(rows) => s.(plans := s.plans[task := Plan(id, r, ws, tiers, rows, s.store.closed[r])])
  }

  ghost predicate IsRun(cfg: FeeConfig, span: nat, states: seq<System>, actions: seq<Action>)
    requires cfg.Valid()
  {
    && |states| == |actions| + 1
    && states[0] == System(Db(map[], [], map[], []), Shares.Store([], map[], map[]), map[], map[])
    && (forall k :: 0 <= k < |actions| ==> Enabled(span, states[k], actions[k]))
    && (forall k :: 0 <= k < |actions| ==> states[k + 1] == Next(cfg, states[k], actions[k]))
  }

  // ---------- plans follow from what they read ----------

  /** The plan is what the compute phase makes of its window, for the amount on record. */
  ghost predicate PlanOk(cfg: FeeConfig, rewards: map<RewardId, Reward>, p: Plan)
    requires cfg.Valid()
  {
    && p.id in rewards && WellFormed(p.ws) && |p.tiers| == |p.ws|
    && PlanOf(cfg, p.id, rewards[p.id].amount, p.ws, p.tiers) == (if p.ws == [] then Empty else Rows(p.rows))
    && (p.ws == [] ==> p.rows == [])
  }

  ghost predicate PlansOk(cfg: FeeConfig, s: System)
    requires cfg.Valid()
  {
    forall t :: t in s.plans ==> PlanOk(cfg, s.db.rewards, s.plans[t])
  }

  lemma PlanOkGood(cfg: FeeConfig, rewards: map<RewardId, Reward>, p: Plan)
    requires cfg.Valid() && PlanOk(cfg, rewards, p)
    ensures p.rows == [] <==> p.ws == []
    ensures p.rows == [] || GoodRows(p.id, rewards[p.id].amount, p.rows)
    ensures forall i :: 0 <= i < |p.rows| ==> p.rows[i].reward == p.id
  {
    if p.ws != [] {
      PlanIsGood(cfg, p.id, rewards[p.id].amount, p.ws, p.tiers);
      assert forall i :: 0 <= i < |p.rows| ==> GoodRow(p.id, p.rows[i]);
    }
  }

  /** The rows booked for one reward. */
  function RowsFor(rows: seq<Row>, id: RewardId): seq<Row> {
    if rows == [] then []
    else RowsFor(rows[..|rows| - 1], id) + if rows[|rows| - 1].reward == id then [rows[|rows| - 1]] else []
  }

  lemma {:induction false} RowsForConcat(a: seq<Row>, b: seq<Row>, id: RewardId)
    ensures RowsFor(a + b, id) == RowsFor(a, id) + RowsFor(b, id)
  {
    if b == [] {
      assert a + b == a;
    } else {
      RowsForConcat(a, b[..|b| - 1], id);
      assert (a + b)[..|a + b| - 1] == a + b[..|b| - 1];
    }
  }

  lemma {:induction false} RowsForOne(rows: seq<Row>, id: RewardId, other: RewardId)
    requires forall i :: 0 <= i < |rows| ==> rows[i].reward == other
    ensures RowsFor(rows, id) == if id == other then rows else []
  {
    if rows != [] {
      RowsForOne(rows[..|rows| - 1], id, other);
      assert rows == rows[..|rows| - 1] + [rows[|rows| - 1]];
    }
  }

  lemma {:induction false} RowsForNone(rows: seq<Row>, id: RewardId)
    requires !HasRows(rows, id)
    ensures RowsFor(rows, id) == []
  {
    if rows != [] {
      assert forall i :: 0 <= i < |rows| - 1 ==> rows[..|rows| - 1][i] == rows[i];
      assert rows[|rows| - 1].reward != id;
      RowsForNone(rows[..|rows| - 1], id);
    }
  }

  /** A reward is allocated exactly when a plan was committed for it, and its books are that plan. */
  ghost predicate BooksPlan(cfg: FeeConfig, s: System, id: RewardId)
    requires cfg.Valid()
  {
    if id in s.committed then
      && id in s.db.rewards && s.db.rewards[id].isAllocated
      && s.committed[id].id == id && PlanOk(cfg, s.db.rewards, s.committed[id])
      && RowsFor(s.db.rows, id) == s.committed[id].rows
      && Entries(s.db.audit, id) == [if s.committed[id].ws == [] then AllocatedEmpty(id) else Allocated(id)]
    else id in s.db.rewards ==> !s.db.rewards[id].isAllocated
  }

  ghost predicate AllBooksPlan(cfg: FeeConfig, s: System)
    requires cfg.Valid()
  {
    forall id :: BooksPlan(cfg, s, id)
  }

  /** The reward whose plan is committed. */
  lemma CommitBooksOwn(db: Db, id: RewardId, rows: seq<Row>)
    requires id in db.rewards && !db.rewards[id].isAllocated && RewardBooked(db, id)
    requires forall i :: 0 <= i < |rows| ==> rows[i].reward == id
    ensures RowsFor(Commit(db, id, rows).rows, id) == rows
    ensures Entries(Commit(db, id, rows).audit, id) == [if rows == [] then AllocatedEmpty(id) else Allocated(id)]
  {
    EntriesAppend(db.audit, if rows == [] then AllocatedEmpty(id) else Allocated(id), id);
    RowsForConcat(db.rows, rows, id);
    RowsForOne(rows, id, id);
    RowsForNone(db.rows, id);
  }

  /** Every other reward. */
  lemma CommitBooksOther(db: Db, id: RewardId, rows: seq<Row>, other: RewardId)
    requires id in db.rewards && !db.rewards[id].isAllocated && other != id
    requires forall i :: 0 <= i < |rows| ==> rows[i].reward == id
    ensures RowsFor(Commit(db, id, rows).rows, other) == RowsFor(db.rows, other)
    ensures Entries(Commit(db, id, rows).audit, other) == Entries(db.audit, other)
  {
    EntriesAppend(db.audit, if rows == [] then AllocatedEmpty(id) else Allocated(id), other);
    RowsForConcat(db.rows, rows, other);
    RowsForOne(rows, other, id);
  }

  lemma CommitBooksPlan(cfg: FeeConfig, s: System, t: TaskId, id: RewardId)
    requires cfg.Valid() && RewardBooked(s.db, id) && BooksPlan(cfg, s, id)
    requires t in s.plans && PlanOk(cfg, s.db.rewards, s.plans[t])
    ensures BooksPlan(cfg, Next(cfg, s, CommitPlan(t)), id)
  {
    var p := s.plans[t];
    PlanOkGood(cfg, s.db.rewards, p);
    if !s.db.rewards[p.id].isAllocated {
      if id == p.id {
        CommitBooksOwn(s.db, id, p.rows);
      } else {
        CommitBooksOther(s.db, p.id, p.rows, id);
      }
    }
  }

  lemma RecordBooksPlan(cfg: FeeConfig, s: System, id: RewardId, amount: nat, daa: nat, other: RewardId)
    requires cfg.Valid() && BooksPlan(cfg, s, other)
    ensures BooksPlan(cfg, Next(cfg, s, RecordReward(id, amount, daa)), other)
  {
  }

  lemma StepBooksPlan(cfg: FeeConfig, span: nat, s: System, a: Action)
    requires cfg.Valid() && Sound(s.db) && PlansOk(cfg, s) && AllBooksPlan(cfg, s) && Enabled(span, s, a)
    ensures AllBooksPlan(cfg, Next(cfg, s, a))
  {
    forall id
      ensures BooksPlan(cfg, Next(cfg, s, a), id)
    {
      assert BooksPlan(cfg, s, id);
      match a
      case RecordReward(other, amount, daa) => RecordBooksPlan(cfg, s, other, amount, daa, id);
      case CommitPlan(task) =>
        assert RewardBooked(s.db, id);
        CommitBooksPlan(cfg, s, task, id);
      case _ =>
    }
  }

  /** Every plan made from a listing of a closed range is in order. */
  lemma ComputedPlanOk(cfg: FeeConfig, span: nat, s: System, a: Action)
    requires cfg.Valid() && Shares.RolledUp(s.store) && PlansOk(cfg, s) && a.Compute? && Enabled(span, s, a)
    ensures PlansOk(cfg, Next(cfg, s, a))
  {
    Shares.ListingIsWindow(s.store, a.r, a.ws);
    Shares.WindowOfShares(a.ws, s.store.closed[a.r], a.r);
    PlanOutcome(cfg, a.id, s.db.rewards[a.id].amount, a.ws, a.tiers);
  }

  lemma StepPlansOk(cfg: FeeConfig, span: nat, s: System, a: Action)
    requires cfg.Valid() && Shares.RolledUp(s.store) && PlansOk(cfg, s) && Enabled(span, s, a)
    ensures PlansOk(cfg, Next(cfg, s, a))
  {
    if a.Compute? {
      ComputedPlanOk(cfg, span, s, a);
    }
  }

  lemma StepSound(cfg: FeeConfig, span: nat, s: System, a: Action)
    requires cfg.Valid() && Sound(s.db) && PlansOk(cfg, s) && Enabled(span, s, a)
    ensures Sound(Next(cfg, s, a).db)
  {
    match a
    case RecordReward(id, amount, daa) => RecordSound(s.db, id, amount, daa);
    case CommitPlan(task) =>
      PlanOkGood(cfg, s.db.rewards, s.plans[task]);
      CommitSound(s.db, s.plans[task].id, s.plans[task].rows);
    case _ =>
  }

  lemma StepRollsUp(cfg: FeeConfig, span: nat, s: System, a: Action)
    requires cfg.Valid() && Shares.RolledUp(s.store) && Enabled(span, s, a)
    ensures Shares.RolledUp(Next(cfg, s, a).store)
  {
    if a.ShareEvent? && a.event.Close? && a.event.r.start < a.event.r.end {
      Shares.CloseKeepsRolledUp(s.store, a.event.r, a.event.now, a.after);
    }
  }

  /**
    In every interleaving of arriving shares, closings and sweeps: a reward is committed at most
    once, an unallocated reward has no rows, an allocated one is booked to exactly its amount or
    wholly retained, no wallet has two rows for one reward, each wallet's accrued rebate is the sum
    of its rebate rows, and a reward's rows are those of the plan that allocated it.
   */
  lemma {:induction false} EveryRunIsSound(cfg: FeeConfig, span: nat, states: seq<System>, actions: seq<Action>, k: nat)
    requires cfg.Valid() && IsRun(cfg, span, states, actions) && k < |states|
    ensures Shares.RolledUp(states[k].store)
    ensures Sound(states[k].db) && PlansOk(cfg, states[k]) && AllBooksPlan(cfg, states[k])
  {
    if k == 0 {
      forall id
        ensures RewardBooked(states[0].db, id)
      {
      }
    } else {
      EveryRunIsSound(cfg, span, states, actions, k - 1);
      StepSound(cfg, span, states[k - 1], actions[k - 1]);
      StepPlansOk(cfg, span, states[k - 1], actions[k - 1]);
      StepBooksPlan(cfg, span, states[k - 1], actions[k - 1]);
      StepRollsUp(cfg, span, states[k - 1], actions[k - 1]);
      assert states[k - 1 + 1] == Next(cfg, states[k - 1], actions[k - 1]);
    }
  }

  // ---------- which shares a reward was allocated by ----------

  /** Action `j` computed this plan, from the state it found. */
  ghost predicate ReadAt(span: nat, states: seq<System>, actions: seq<Action>, j: nat, p: Plan) {
    && j < |actions| && j < |states| && actions[j].Compute? && Enabled(span, states[j], actions[j])
    && actions[j].id == p.id && actions[j].r == p.r && actions[j].ws == p.ws && actions[j].tiers == p.tiers
    && p.held == states[j].store.closed[p.r]
  }

  lemma {:induction false} PlanWasRead(cfg: FeeConfig, span: nat, states: seq<System>, actions: seq<Action>, k: nat,
                                       t: TaskId)
    returns (j: nat)
    requires cfg.Valid() && IsRun(cfg, span, states, actions) && k < |states| && t in states[k].plans
    ensures j < k && ReadAt(span, states, actions, j, states[k].plans[t])
  {
    assert k > 0;
    assert states[k - 1 + 1] == Next(cfg, states[k - 1], actions[k - 1]);
    assert Enabled(span, states[k - 1], actions[k - 1]);
    if t in states[k - 1].plans && states[k].plans[t] == states[k - 1].plans[t] {
      j := PlanWasRead(cfg, span, states, actions, k - 1, t);
    } else {
      j := k - 1;
    }
  }

  lemma {:induction false} CommittedWasRead(cfg: FeeConfig, span: nat, states: seq<System>, actions: seq<Action>,
                                            k: nat, id: RewardId)
    returns (j: nat)
    requires cfg.Valid() && IsRun(cfg, span, states, actions) && k < |states| && id in states[k].committed
    ensures j < k && ReadAt(span, states, actions, j, states[k].committed[id])
  {
    assert k > 0;
    assert states[k - 1 + 1] == Next(cfg, states[k - 1], actions[k - 1]);
    if id in states[k - 1].committed && states[k].committed[id] == states[k - 1].committed[id] {
      j := CommittedWasRead(cfg, span, states, actions, k - 1, id);
    } else {
      j := PlanWasRead(cfg, span, states, actions, k - 1, actions[k - 1].task);
    }
  }

  /** Action `m` closed the range while the share table held these shares. */
  ghost predicate ClosedAt(states: seq<System>, actions: seq<Action>, m: nat, r: Shares.Range,
                           held: seq<Shares.Share>)
  {
    && m < |actions| && m < |states| && actions[m].ShareEvent? && actions[m].event.Close? && actions[m].event.r == r
    && states[m].store.shares == held
  }

  lemma {:induction false} WasClosed(cfg: FeeConfig, span: nat, states: seq<System>, actions: seq<Action>, k: nat,
                                     r: Shares.Range)
    returns (m: nat)
    requires cfg.Valid() && IsRun(cfg, span, states, actions) && k < |states| && r in states[k].store.closed
    ensures m < k && ClosedAt(states, actions, m, r, states[k].store.closed[r])
  {
    assert k > 0;
    assert states[k - 1 + 1] == Next(cfg, states[k - 1], actions[k - 1]);
    assert Enabled(span, states[k - 1], actions[k - 1]);
    if r in states[k - 1].store.closed && states[k].store.closed[r] == states[k - 1].store.closed[r] {
      m := WasClosed(cfg, span, states, actions, k - 1, r);
    } else {
      m := k - 1;
    }
  }

  // ---------- the window in terms of the block and the shares ----------

  /** Difficulty of a wallet's shares mined before the block and at most the span before it. */
  function SpanWeight(shares: seq<Shares.Share>, w: WalletId, daa: nat, span: nat): real {
    if shares == [] then 0.0
    else
      var s := shares[|shares| - 1];
      SpanWeight(shares[..|shares| - 1], w, daa, span) +
      if s.wallet == w && s.daa < daa <= s.daa + span then s.difficulty else 0.0
  }

  lemma {:induction false} WindowWeighsSpan(shares: seq<Shares.Share>, w: WalletId, daa: nat, span: nat)
    ensures Shares.WeightOf(shares, WindowRange(span, daa), {w}) == SpanWeight(shares, w, daa, span)
  {
    if shares != [] {
      WindowWeighsSpan(shares[..|shares| - 1], w, daa, span);
    }
  }

  /** The wallets of the window are those with a share in the span. */
  lemma WindowWallets(shares: seq<Shares.Share>, w: WalletId, daa: nat, span: nat)
    ensures w in Shares.Contributors(shares, WindowRange(span, daa)) <==>
            exists s :: s in shares && s.wallet == w && s.daa < daa <= s.daa + span
  {
    var r := WindowRange(span, daa);
    forall s: Shares.Share
      ensures r.start <= s.daa < r.end <==> s.daa < daa <= s.daa + span
    {
    }
  }

  /** A recorded reward keeps its amount and its DAA score. */
  lemma {:induction false} RewardStays(cfg: FeeConfig, span: nat, states: seq<System>, actions: seq<Action>, j: nat,
                                       k: nat, id: RewardId)
    requires cfg.Valid() && IsRun(cfg, span, states, actions) && j <= k < |states| && id in states[j].db.rewards
    ensures id in states[k].db.rewards && states[k].db.rewards[id].daa == states[j].db.rewards[id].daa
    ensures states[k].db.rewards[id].amount == states[j].db.rewards[id].amount
  {
    if j < k {
      RewardStays(cfg, span, states, actions, j, k - 1, id);
      assert states[k - 1 + 1] == Next(cfg, states[k - 1], actions[k - 1]);
    }
  }

  /** The plan read exactly the shares of the span before a block at this score. */
  ghost predicate ReadsSpan(p: Plan, daa: nat, span: nat) {
    && p.r.end == daa && p.r.start == (if daa <= span then 0 else daa - span)
    && Shares.DistinctWallets(p.ws)
    && (forall i :: 0 <= i < |p.ws| ==> p.ws[i].weight == SpanWeight(p.held, p.ws[i].wallet, daa, span))
    && (forall w :: w in Shares.Wallets(p.ws) <==>
                    exists s :: s in p.held && s.wallet == w && s.daa < daa <= s.daa + span)
  }

  lemma ListingReadsSpan(p: Plan, daa: nat, span: nat)
    requires p.r == WindowRange(span, daa) && Shares.WindowOf(p.ws, p.held, p.r)
    ensures ReadsSpan(p, daa, span)
  {
    forall i | 0 <= i < |p.ws|
      ensures p.ws[i].weight == SpanWeight(p.held, p.ws[i].wallet, daa, span)
    {
      WindowWeighsSpan(p.held, p.ws[i].wallet, daa, span);
    }
    forall w
      ensures w in Shares.Wallets(p.ws) <==>
              exists s :: s in p.held && s.wallet == w && s.daa < daa <= s.daa + span
    {
      Shares.CountsContributors(p.held, p.r, w);
      WindowWallets(p.held, w, daa, span);
    }
  }

  lemma NoWalletsNoShares(p: Plan, daa: nat, span: nat)
    requires ReadsSpan(p, daa, span)
    ensures p.ws == [] <==> forall s :: s in p.held ==> !(s.daa < daa <= s.daa + span)
  {
    if s :| s in p.held && s.daa < daa <= s.daa + span {
      assert s.wallet in Shares.Wallets(p.ws);
    } else if p.ws != [] {
      assert p.ws[0].wallet in Shares.Wallets(p.ws);
    }
  }

  /**
    In every run, an allocated reward was computed at some action `j` from the shares before its
    block, as last closed at some action `m`: the window rows are exactly the wallets with a share
    at most the span below the block's score and below it, among the shares there were at `m`, each
    with the difficulty of those shares.
   */
  lemma AllocatedFromShares(cfg: FeeConfig, span: nat, states: seq<System>, actions: seq<Action>, k: nat, id: RewardId)
    returns (j: nat, m: nat, p: Plan)
    requires cfg.Valid() && IsRun(cfg, span, states, actions) && k < |states|
    requires id in states[k].db.rewards && states[k].db.rewards[id].isAllocated
    ensures m < j < k && ReadAt(span, states, actions, j, p) && ClosedAt(states, actions, m, p.r, p.held)
    ensures id in states[k].committed && p == states[k].committed[id] && p.id == id
    ensures ReadsSpan(p, states[k].db.rewards[id].daa, span)
    ensures Shares.WindowOf(p.ws, p.held, p.r) && Shares.Positive(p.held)
    ensures Total(p.ws) == Shares.RangeWeight(p.held, p.r) && (p.ws != [] ==> Total(p.ws) > 0.0)
  {
    EveryRunIsSound(cfg, span, states, actions, k);
    assert BooksPlan(cfg, states[k], id);
    p := states[k].committed[id];
    j := CommittedWasRead(cfg, span, states, actions, k, id);
    m := WasClosed(cfg, span, states, actions, j, p.r);
    EveryRunIsSound(cfg, span, states, actions, j);
    RewardStays(cfg, span, states, actions, j, k, id);
    Shares.ListingIsWindow(states[j].store, p.r, p.ws);
    Shares.WindowOfShares(p.ws, p.held, p.r);
    ListingReadsSpan(p, states[k].db.rewards[id].daa, span);
  }

  /**
    And what it was allocated to follows from that window alone: its rows are the wallets in order,
    each with the fee breakdown of its pro-rata gross, and it is retained exactly when no share
    fell into the span before its block.
   */
  lemma AllocatedByItsWindow(cfg: FeeConfig, span: nat, states: seq<System>, actions: seq<Action>, k: nat, id: RewardId)
    returns (j: nat, m: nat, p: Plan)
    requires cfg.Valid() && IsRun(cfg, span, states, actions) && k < |states|
    requires id in states[k].db.rewards && states[k].db.rewards[id].isAllocated
    ensures m < j < k && ReadAt(span, states, actions, j, p) && ClosedAt(states, actions, m, p.r, p.held)
    ensures p.id == id && ReadsSpan(p, states[k].db.rewards[id].daa, span)
    ensures p.rows == RowsFor(states[k].db.rows, id)
    ensures var daa := states[k].db.rewards[id].daa;
            Entries(states[k].db.audit, id) == [AllocatedEmpty(id)] <==>
            forall s :: s in p.held ==> !(s.daa < daa <= s.daa + span)
    ensures |p.tiers| == |p.ws| == |p.rows| && (p.ws != [] ==> Total(p.ws) > 0.0)
    ensures p.ws != [] ==> forall i :: 0 <= i < |p.ws| ==>
              var gross := Gross(p.ws, states[k].db.rewards[id].amount, p.ws[i]);
              RowAt(cfg, id, p.ws[i].wallet, gross, p.tiers[i], p.rows[i])
  {
    j, m, p := AllocatedFromShares(cfg, span, states, actions, k, id);
    EveryRunIsSound(cfg, span, states, actions, k);
    assert BooksPlan(cfg, states[k], id);
    NoWalletsNoShares(p, states[k].db.rewards[id].daa, span);
    if p.ws != [] {
      PlanIsGood(cfg, id, states[k].db.rewards[id].amount, p.ws, p.tiers);
    }
  }

  /** The gross of every wallet but the smallest id is its rounded-down part of the range's difficulty. */
  lemma GrossIsProRata(ws: seq<Window>, held: seq<Shares.Share>, r: Shares.Range, amount: nat, i: nat)
    requires Shares.WindowOf(ws, held, r) && Shares.Positive(held) && i < |ws| && ws[i].wallet != MinWallet(ws)
    ensures Shares.RangeWeight(held, r) > 0.0 && Total(ws) > 0.0
    ensures Gross(ws, amount, ws[i]) ==
            ProRate(amount, Shares.WeightOf(held, r, {ws[i].wallet}), Shares.RangeWeight(held, r))
  {
    Shares.WindowOfShares(ws, held, r);
  }

  /** Once a reward is allocated, no later step changes its flag, its amount or what is booked for it. */
  lemma StepKeepsAllocated(cfg: FeeConfig, span: nat, s: System, a: Action, id: RewardId)
    requires cfg.Valid() && PlansOk(cfg, s) && Enabled(span, s, a)
    requires id in s.db.rewards && s.db.rewards[id].isAllocated
    ensures var after := Next(cfg, s, a).db;
            && id in after.rewards && after.rewards[id] == s.db.rewards[id]
            && RowsFor(after.rows, id) == RowsFor(s.db.rows, id) && Entries(after.audit, id) == Entries(s.db.audit, id)
  {
    if a.CommitPlan? && !s.db.rewards[s.plans[a.task].id].isAllocated {
      var p := s.plans[a.task];
      PlanOkGood(cfg, s.db.rewards, p);
      CommitBooksOther(s.db, p.id, p.rows, id);
    }
  }

  /** So an allocated reward's books are final: no replay, race or later plan touches them. */
  lemma {:induction false} AllocatedIsFinal(cfg: FeeConfig, span: nat, states: seq<System>, actions: seq<Action>,
                                            j: nat, k: nat, id: RewardId)
    requires cfg.Valid() && IsRun(cfg, span, states, actions) && j <= k < |states|
    requires id in states[j].db.rewards && states[j].db.rewards[id].isAllocated
    ensures id in states[k].db.rewards && states[k].db.rewards[id] == states[j].db.rewards[id]
    ensures RowsFor(states[k].db.rows, id) == RowsFor(states[j].db.rows, id)
    ensures Entries(states[k].db.audit, id) == Entries(states[j].db.audit, id)
  {
    if j < k {
      AllocatedIsFinal(cfg, span, states, actions, j, k - 1, id);
      EveryRunIsSound(cfg, span, states, actions, k - 1);
      StepKeepsAllocated(cfg, span, states[k - 1], actions[k - 1], id);
      assert states[k - 1 + 1] == Next(cfg, states[k - 1], actions[k - 1]);
    }
  }
}

/**
  Whole runs of the reward tracker: the node's chain moves, sweeps start, pages arrive, fail or
  report a reorganisation, and rewards are recorded one at a time (accountant/src/maturity.rs,
  accountant/src/shielded_scan.rs).

  The stored cursor runs ahead of the recorded rewards, so the question is whether a reward the
  cursor has passed can go missing. Every run accounts for every such reward; runs of completed
  sweeps record all of them; and a failure loses exactly the unrecorded rewards it drops.
 */
module RewardRuns {
  import opened Wrappers
  import opened RewardScan

  /** The blocks there are: each hash's chain from genesis, and the tracker's settings. */
  datatype Env = Env(chains: map<Hash, seq<Block>>, treasury: seq<Script>, maturity: nat, floor: nat)

  ghost predicate GoodEnv(env: Env) {
    && (forall h :: h in env.chains ==> env.chains[h] != [])
    && (forall h, j :: h in env.chains && 0 <= j < |env.chains[h]| ==> ChainTo(env, env.chains[h], j))
  }

  /** Block `j` of a chain has the chain up to it as its own. */
  ghost predicate ChainTo(env: Env, chain: seq<Block>, j: nat)
    requires j < |chain|
  {
    chain[j].hash in env.chains && env.chains[chain[j].hash] == chain[..j + 1]
  }

  function Chain(env: Env, h: Option<Hash>): seq<Block> {
    if h.Some? && h.value in env.chains then env.chains[h.value] else []
  }

  // ---------- recording ----------

  predicate PassesGate(env: Env, v1: nat, u: Utxo) {
    IsMature(v1, u.daa, env.maturity) && u.daa >= env.floor && u.amount < I64_LIMIT
  }

  /** One turn of the recording loop; `ok` says whether the insert-if-absent succeeds. */
  function RecordOne(env: Env, v1: nat, recorded: map<(nat, nat), Utxo>, u: Utxo, ok: bool): map<(nat, nat), Utxo> {
    if PassesGate(env, v1, u) && ok && u.Outpoint() !in recorded then recorded[u.Outpoint() := u] else recorded
  }

  function RecordFirst(env: Env, v1: nat, recorded: map<(nat, nat), Utxo>, us: seq<Utxo>, oks: seq<bool>, n: nat)
    : map<(nat, nat), Utxo>
    requires n <= |us| <= |oks|
  {
    if n == 0 then recorded
    else RecordOne(env, v1, RecordFirst(env, v1, recorded, us, oks, n - 1), us[n - 1], oks[n - 1])
  }

  class Tracker {
    const env: Env
    var recorded: map<(nat, nat), Utxo>

    constructor (env: Env)
      ensures this.env == env && recorded == map[]
    {
      this.env, recorded := env, map[];
    }

    /** The recording loop of a sweep; a failed insert is skipped and the sweep goes on. */
    method RecordRewards(v1: nat, utxos: seq<Utxo>, oks: seq<bool>)
      requires |utxos| <= |oks|
      modifies this
      ensures recorded == RecordFirst(env, v1, old(recorded), utxos, oks, |utxos|)
    {
      for i := 0 to |utxos|
        invariant recorded == RecordFirst(env, v1, old(recorded), utxos, oks, i)
      {
        var u := utxos[i];
        if IsMature(v1, u.daa, env.maturity) {
          if u.daa >= env.floor {
            if u.amount < I64_LIMIT {
              if oks[i] && u.Outpoint() !in recorded {
                recorded := recorded[u.Outpoint() := u];
              }
            }
          }
        }
      }
    }
  }

  // ---------- runs ----------

  datatype Node = Node(tip: Hash, pruningPoint: Hash, virtual_: nat)

  datatype Phase =
    | Idle
    | Begun(v1: nat)
    | Scanning(v1: nat, v2: nat, scan: Scan)
    | Recording(v1: nat, queue: seq<Utxo>)

  /**
    `start` is where the first stored scan began. The last two fields say what has been given
    up: rewards dropped unrecorded, and blocks a reset jumped over.
   */
  datatype State = State(node: Node, stored: Option<Hash>, recorded: map<(nat, nat), Utxo>, phase: Phase,
                         start: Option<Hash>, dropped: set<Utxo>, jumped: set<Block>)

  datatype Action =
    | MoveChain(node: Node)
    | Begin
    | StartScan
    | GetPage(count: nat)
    | ReportReorg
    | EndScan
    | Record(ok: bool)
    | Abort

  function Pending(s: State): seq<Utxo> {
    match s.phase
    case Scanning(_, _, scan) => scan.rewards
    case Recording(_, queue) => queue
    case _ => []
  }

  /** The next `count` blocks of the selected chain after the scan's cursor. */
  function PageBlocks(env: Env, s: State, count: nat): seq<Block>
    requires s.phase.Scanning?
  {
    var here, all := Chain(env, Some(s.phase.scan.cursor)), Chain(env, Some(s.node.tip));
    if |here| + count <= |all| then all[|here|..|here| + count] else []
  }

  /**
    What may happen next. A page continues the selected chain from a cursor on it; a
    reorganisation, a failure or the end of the page budget may come at any point of a scan.
   */
  ghost predicate Enabled(env: Env, s: State, a: Action) {
    match a
    case MoveChain(n) =>
      n.tip in env.chains && n.pruningPoint in env.chains && env.chains[n.pruningPoint] <= env.chains[n.tip] &&
      n.virtual_ >= s.node.virtual_
    case Begin => s.phase.Idle?
    case StartScan => s.phase.Begun?
    case GetPage(count) =>
      s.phase.Scanning? && Chain(env, Some(s.phase.scan.cursor)) <= Chain(env, Some(s.node.tip)) &&
      |Chain(env, Some(s.phase.scan.cursor))| + count <= |Chain(env, Some(s.node.tip))|
    case ReportReorg => s.phase.Scanning?
    case EndScan => s.phase.Scanning?
    case Record(_) => s.phase.Recording? && s.phase.queue != []
    case Abort => !s.phase.Idle?
  }

  function AfterScan(s: State, scan: Scan): State
    requires s.phase.Scanning?
  {
    s.(stored := scan.stored,
       phase := if scan.status.Running? then s.phase.(scan := scan) else HandOver(s.phase.v1, scan.rewards))
  }

  function HandOver(v1: nat, rewards: seq<Utxo>): Phase {
    if rewards == [] then Idle else Recording(v1, rewards)
  }

  function Next(env: Env, s: State, a: Action): State {
    match a
    case MoveChain(n) => s.(node := n)
    case Begin => s.(phase := Begun(s.node.virtual_))
    case StartScan =>
      if !s.phase.Begun? then s
      else s.(phase := Scanning(s.phase.v1, s.node.virtual_,
                                Scan(s.stored, s.stored.GetOr(s.node.pruningPoint), [], Running)))
    case GetPage(count) =>
      if !s.phase.Scanning? then s
      else
        var scan := ApplyReply(env.treasury, SafeIngestDaa(s.phase.v2, env.maturity), s.phase.scan,
                               Page(PageBlocks(env, s, count)));
        AfterScan(s, scan).(start := if s.start.None? && scan.stored.Some? then Some(s.phase.scan.cursor) else s.start)
    case ReportReorg =>
      if !s.phase.Scanning? then s
      else
        var scan := ApplyReply(env.treasury, SafeIngestDaa(s.phase.v2, env.maturity), s.phase.scan,
                               Reorged(s.node.pruningPoint));
        AfterScan(s, scan).(start := if s.start.None? then scan.stored else s.start,
                            jumped := s.jumped + Jumped(env, s))
    case EndScan => if !s.phase.Scanning? then s else s.(phase := HandOver(s.phase.v1, s.phase.scan.rewards))
    case Record(ok) =>
      if !s.phase.Recording? || s.phase.queue == [] then s
      else
        var u, rest := s.phase.queue[0], s.phase.queue[1..];
        var after := RecordOne(env, s.phase.v1, s.recorded, u, ok);
        s.(recorded := after, phase := HandOver(s.phase.v1, rest),
           dropped := if u.Outpoint() in after || u.daa < env.floor then s.dropped else s.dropped + {u})
    case Abort => s.(phase := Idle, dropped := s.dropped + set u | u in Pending(s))
  }

  /** Blocks up to the reset point that neither the old cursor nor the start covers. */
  function Jumped(env: Env, s: State): set<Block> {
    if s.start.None? then {}
    else
      set b | b in Chain(env, Some(s.node.pruningPoint)) && b !in Chain(env, s.stored) && b !in Chain(env, s.start)
  }

  ghost predicate Initial(env: Env, s: State) {
    && s.node.tip in env.chains && s.node.pruningPoint in env.chains
    && (s.stored.Some? ==> s.stored.value in env.chains)
    && s.start == s.stored && s.recorded == map[] && s.phase == Idle && s.dropped == {} && s.jumped == {}
  }

  ghost predicate IsRun(env: Env, states: seq<State>, actions: seq<Action>) {
    && |states| == |actions| + 1
    && Initial(env, states[0])
    && forall k :: 0 <= k < |actions| ==>
         Enabled(env, states[k], actions[k]) && states[k + 1] == Next(env, states[k], actions[k])
  }

  // ---------- accounting for every reward behind the cursor ----------

  /** A block the cursor has passed since the scan started. */
  ghost predicate Passed(env: Env, s: State, b: Block) {
    b in Chain(env, s.stored) && b !in Chain(env, s.start)
  }

  /** Recorded, or deliberately left to the previous pool. */
  ghost predicate Settled(env: Env, s: State, u: Utxo) {
    u.Outpoint() in s.recorded || u.daa < env.floor
  }

  ghost predicate Accounted(env: Env, s: State, b: Block, i: nat)
    requires i < |b.outputs|
  {
    var u := UtxoOf(b, i);
    Settled(env, s, u) || u in Pending(s) || u in s.dropped || b in s.jumped
  }

  ghost predicate AllAccounted(env: Env, s: State) {
    forall b, i :: Passed(env, s, b) && Eligible(env.treasury, b, i) ==> Accounted(env, s, b, i)
  }

  ghost predicate WellPlaced(env: Env, s: State) {
    && s.node.tip in env.chains && s.node.pruningPoint in env.chains
    && s.start.Some? == s.stored.Some?
    && (s.stored.Some? ==> s.stored.value in env.chains)
    && (s.phase.Scanning? ==>
          && s.phase.scan.stored == s.stored && s.phase.scan.cursor in env.chains && s.phase.scan.status.Running?
          && (s.stored.Some? ==> s.stored.value == s.phase.scan.cursor))
  }

  /** The chain to the last ingested block is the old chain and the ingested part of the page. */
  lemma PageExtends(env: Env, s: State, count: nat, k: nat)
    requires GoodEnv(env) && WellPlaced(env, s) && Enabled(env, s, GetPage(count)) && 0 < k <= count
    ensures var page, here := PageBlocks(env, s, count), Chain(env, Some(s.phase.scan.cursor));
            |page| == count && page[k - 1].hash in env.chains && env.chains[page[k - 1].hash] == here + page[..k]
  {
    var page, here := PageBlocks(env, s, count), Chain(env, Some(s.phase.scan.cursor));
    var all := env.chains[s.node.tip];
    assert ChainTo(env, all, |here| + k - 1);
    assert all[..|here| + k] == here + page[..k];
  }

  lemma PagePlaced(env: Env, s: State, count: nat)
    requires GoodEnv(env) && WellPlaced(env, s) && Enabled(env, s, GetPage(count))
    ensures WellPlaced(env, Next(env, s, GetPage(count)))
  {
    var page, safe := PageBlocks(env, s, count), SafeIngestDaa(s.phase.v2, env.maturity);
    var k := Ingestible(page, safe, 0);
    if k > 0 {
      PageExtends(env, s, count, k);
    }
  }

  lemma InPageRewards(env: Env, page: seq<Block>, k: nat, b: Block, i: nat)
    requires k <= |page| && b in page[..k] && Eligible(env.treasury, b, i)
    ensures UtxoOf(b, i) in Rewards(env.treasury, page, k)
  {
    var j :| 0 <= j < k && page[..k][j] == b;
    RewardsComplete(env.treasury, page, k, j, i);
  }

  /** What a page does to the scan alone. */
  lemma PageReply(treasury: seq<Script>, safe: nat, scan: Scan, page: seq<Block>, k: nat) returns (after: Scan)
    requires k == Ingestible(page, safe, 0)
    ensures after == ApplyReply(treasury, safe, scan, Page(page))
    ensures after.rewards == scan.rewards + Rewards(treasury, page, k)
    ensures after.stored == if k == 0 then scan.stored else Some(page[k - 1].hash)
  {
    after := ApplyReply(treasury, safe, scan, Page(page));
    assert scan.rewards + [] == scan.rewards;
  }

  /** A page either ends the scan unchanged or moves the cursor over its first `k` blocks. */
  lemma PageEffect(env: Env, s: State, count: nat) returns (page: seq<Block>, k: nat)
    requires GoodEnv(env) && WellPlaced(env, s) && Enabled(env, s, GetPage(count))
    ensures page == PageBlocks(env, s, count)
    ensures k == Ingestible(page, SafeIngestDaa(s.phase.v2, env.maturity), 0) && k <= |page|
    ensures var after := Next(env, s, GetPage(count));
            && Pending(after) == Pending(s) + Rewards(env.treasury, page, k)
            && after.recorded == s.recorded && after.dropped == s.dropped && after.jumped == s.jumped
            && (s.start.Some? ==> after.start == s.start)
            && Chain(env, after.stored) == (if k == 0 then Chain(env, s.stored)
                                            else Chain(env, Some(s.phase.scan.cursor)) + page[..k])
            && (s.start.None? && k > 0 ==> after.start == Some(s.phase.scan.cursor))
  {
    page := PageBlocks(env, s, count);
    k := Ingestible(page, SafeIngestDaa(s.phase.v2, env.maturity), 0);
    var scan := PageReply(env.treasury, SafeIngestDaa(s.phase.v2, env.maturity), s.phase.scan, page, k);
    PendingAfter(s, scan);
    if k > 0 {
      PageExtends(env, s, count, k);
    }
  }

  lemma PendingAfter(s: State, scan: Scan)
    requires s.phase.Scanning?
    ensures Pending(AfterScan(s, scan)) == scan.rewards
  {
  }

  lemma PageAccounted(env: Env, s: State, count: nat, b: Block, i: nat)
    requires GoodEnv(env) && WellPlaced(env, s) && AllAccounted(env, s) && Enabled(env, s, GetPage(count))
    requires Passed(env, Next(env, s, GetPage(count)), b) && Eligible(env.treasury, b, i)
    ensures Accounted(env, Next(env, s, GetPage(count)), b, i)
  {
    var page, k := PageEffect(env, s, count);
    if k > 0 && b in page[..k] {
      InPageRewards(env, page, k, b, i);
    } else {
      assert Passed(env, s, b) && Accounted(env, s, b, i);
    }
  }

  lemma ReorgAccounted(env: Env, s: State, b: Block, i: nat)
    requires WellPlaced(env, s) && AllAccounted(env, s) && s.phase.Scanning?
    requires Passed(env, Next(env, s, ReportReorg), b) && Eligible(env.treasury, b, i)
    ensures Accounted(env, Next(env, s, ReportReorg), b, i)
  {
    if b in Chain(env, s.stored) {
      assert Passed(env, s, b) && Accounted(env, s, b, i);
    } else {
      assert b in Jumped(env, s);
    }
  }

  lemma RecordAccounted(env: Env, s: State, ok: bool, b: Block, i: nat)
    requires AllAccounted(env, s) && Enabled(env, s, Record(ok))
    requires Passed(env, s, b) && Eligible(env.treasury, b, i)
    ensures Accounted(env, Next(env, s, Record(ok)), b, i)
  {
    assert Accounted(env, s, b, i);
    var u, queue := UtxoOf(b, i), s.phase.queue;
    if u in queue && u != queue[0] {
      var j :| 0 <= j < |queue| && queue[j] == u;
      assert queue[1..][j - 1] == u;
    }
  }

  lemma StepPlaced(env: Env, s: State, a: Action)
    requires GoodEnv(env) && WellPlaced(env, s) && Enabled(env, s, a)
    ensures WellPlaced(env, Next(env, s, a))
  {
    if a.GetPage? {
      PagePlaced(env, s, a.count);
    }
  }

  lemma StepAccounted(env: Env, s: State, a: Action)
    requires GoodEnv(env) && WellPlaced(env, s) && AllAccounted(env, s) && Enabled(env, s, a)
    ensures AllAccounted(env, Next(env, s, a))
  {
    forall b, i | Passed(env, Next(env, s, a), b) && Eligible(env.treasury, b, i)
      ensures Accounted(env, Next(env, s, a), b, i)
    {
      match a
      case GetPage(count) => PageAccounted(env, s, count, b, i);
      case ReportReorg => ReorgAccounted(env, s, b, i);
      case Record(ok) => RecordAccounted(env, s, ok, b, i);
      case _ => assert Passed(env, s, b) && Accounted(env, s, b, i);
    }
  }

  /**
    In every run, each eligible output the cursor has passed since the scan started is recorded,
    still in flight, below the floor, or was given up by a dropped sweep or a reset.
   */
  lemma {:induction false} EveryRunAccounts(env: Env, states: seq<State>, actions: seq<Action>, k: nat)
    requires GoodEnv(env) && IsRun(env, states, actions) && k < |states|
    ensures WellPlaced(env, states[k]) && AllAccounted(env, states[k])
  {
    if k > 0 {
      EveryRunAccounts(env, states, actions, k - 1);
      StepPlaced(env, states[k - 1], actions[k - 1]);
      StepAccounted(env, states[k - 1], actions[k - 1]);
      assert states[k - 1 + 1] == Next(env, states[k - 1], actions[k - 1]);
    }
  }

  // ---------- runs of completed sweeps ----------

  ghost predicate AllRecorded(env: Env, s: State) {
    forall b, i :: Passed(env, s, b) && Eligible(env.treasury, b, i) ==> Settled(env, s, UtxoOf(b, i))
  }

  ghost predicate PositiveDaa(env: Env) {
    forall h, b :: h in env.chains && b in env.chains[h] ==> b.daa > 0
  }

  /**
    A step of a completed sweep: the scanner's score is at most the margin above the tracker's,
    inserts succeed, a reset goes below the fork, and an abort drops only settled rewards.
   */
  ghost predicate Completes(env: Env, s: State, a: Action) {
    match a
    case StartScan =>
      s.phase.Begun? && s.node.virtual_ <= s.phase.v1 + SAFETY_DAA && (PositiveDaa(env) || s.phase.v1 >= env.maturity)
    case Record(ok) => ok
    case ReportReorg => s.stored.Some? ==> Chain(env, Some(s.node.pruningPoint)) <= Chain(env, s.stored)
    case Abort => forall u :: u in Pending(s) ==> Settled(env, s, u)
    case _ => true
  }

  /** Everything in flight will pass the tracker's maturity gate. */
  ghost predicate PendingMature(env: Env, s: State) {
    && (forall u :: u in Pending(s) ==> IsMature(VirtualOf(s), u.daa, env.maturity) && u.amount < I64_LIMIT)
    && (s.phase.Scanning? ==> s.phase.v2 <= s.phase.v1 + SAFETY_DAA && (PositiveDaa(env) || s.phase.v1 >= env.maturity))
  }

  function VirtualOf(s: State): nat {
    if s.phase.Idle? then 0 else s.phase.v1
  }

  ghost predicate NothingLost(env: Env, s: State) {
    s.jumped == {} && forall u :: u in s.dropped ==> Settled(env, s, u)
  }

  lemma PageMature(env: Env, s: State, count: nat, u: Utxo)
    requires GoodEnv(env) && WellPlaced(env, s) && PendingMature(env, s) && Enabled(env, s, GetPage(count))
    requires u in Pending(Next(env, s, GetPage(count)))
    ensures IsMature(s.phase.v1, u.daa, env.maturity) && u.amount < I64_LIMIT
  {
    var page, k := PageEffect(env, s, count);
    if u !in s.phase.scan.rewards {
      var j, i := RewardsSound(env.treasury, page, k, u);
      assert page[j] in env.chains[s.node.tip];
      IngestedIsMature(s.phase.v1, s.phase.v2, u.daa, env.maturity);
    }
  }

  lemma StepMature(env: Env, s: State, a: Action)
    requires GoodEnv(env) && WellPlaced(env, s) && PendingMature(env, s) && Enabled(env, s, a) && Completes(env, s, a)
    ensures PendingMature(env, Next(env, s, a))
  {
    match a
    case GetPage(count) =>
      forall u | u in Pending(Next(env, s, a))
        ensures IsMature(s.phase.v1, u.daa, env.maturity) && u.amount < I64_LIMIT
      {
        PageMature(env, s, count, u);
      }
    case Record(ok) =>
      assert forall u :: u in s.phase.queue[1..] ==> u in s.phase.queue;
    case _ =>
  }

  lemma StepLosesNothing(env: Env, s: State, a: Action)
    requires PendingMature(env, s) && NothingLost(env, s) && Enabled(env, s, a) && Completes(env, s, a)
    requires WellPlaced(env, s)
    ensures NothingLost(env, Next(env, s, a))
  {
    match a
    case Record(ok) =>
      assert s.phase.queue[0] in Pending(s);
    case ReportReorg =>
      if s.start.Some? {
        assert forall b :: b in Chain(env, Some(s.node.pruningPoint)) ==> b in Chain(env, s.stored);
        assert Jumped(env, s) == {};
      }
    case _ =>
  }

  lemma {:induction false} CompletedRunKeeps(env: Env, states: seq<State>, actions: seq<Action>, k: nat)
    requires GoodEnv(env) && IsRun(env, states, actions) && k < |states|
    requires forall j :: 0 <= j < k ==> Completes(env, states[j], actions[j])
    ensures PendingMature(env, states[k]) && NothingLost(env, states[k])
  {
    if k > 0 {
      CompletedRunKeeps(env, states, actions, k - 1);
      EveryRunAccounts(env, states, actions, k - 1);
      StepMature(env, states[k - 1], actions[k - 1]);
      StepLosesNothing(env, states[k - 1], actions[k - 1]);
      assert states[k - 1 + 1] == Next(env, states[k - 1], actions[k - 1]);
    }
  }

  /**
    In every run of completed sweeps, nothing handed to the tracker fails its maturity gate, and
    between sweeps every eligible output the cursor has passed is recorded or below the floor.
   */
  lemma CompletedSweepsRecordAll(env: Env, states: seq<State>, actions: seq<Action>, k: nat)
    requires GoodEnv(env) && IsRun(env, states, actions) && k < |states|
    requires forall j :: 0 <= j < k ==> Completes(env, states[j], actions[j])
    ensures forall u :: u in Pending(states[k]) ==> IsMature(VirtualOf(states[k]), u.daa, env.maturity)
    ensures states[k].phase.Idle? ==> AllRecorded(env, states[k])
  {
    CompletedRunKeeps(env, states, actions, k);
    EveryRunAccounts(env, states, actions, k);
    var s := states[k];
    if s.phase.Idle? {
      forall b, i | Passed(env, s, b) && Eligible(env.treasury, b, i)
        ensures Settled(env, s, UtxoOf(b, i))
      {
        assert Accounted(env, s, b, i);
      }
    }
  }

  // ---------- exactly what is lost ----------

  /** Recorded, below the floor, or still on its way to be recorded. */
  ghost predicate Safe(env: Env, s: State, u: Utxo) {
    Settled(env, s, u) || u in Pending(s)
  }

  ghost predicate AllSafe(env: Env, s: State) {
    forall b, i :: Passed(env, s, b) && Eligible(env.treasury, b, i) ==> Safe(env, s, UtxoOf(b, i))
  }

  /** An output given up at some point: dropped by a sweep, or in a block a reset jumped over. */
  ghost predicate GivenUp(s: State, b: Block, i: nat)
    requires i < |b.outputs|
  {
    UtxoOf(b, i) in s.dropped || b in s.jumped
  }

  lemma SafeIffGivenUpSafe(env: Env, s: State)
    requires AllAccounted(env, s)
    ensures AllSafe(env, s) <==>
            forall b, i :: Passed(env, s, b) && Eligible(env.treasury, b, i) && GivenUp(s, b, i) ==>
                             Safe(env, s, UtxoOf(b, i))
  {
    if !AllSafe(env, s) {
      var b, i :| Passed(env, s, b) && Eligible(env.treasury, b, i) && !Safe(env, s, UtxoOf(b, i));
      assert Accounted(env, s, b, i);
    }
  }

  /**
    At every point of every run, however much was lost before, nothing passed is missing exactly
    when every passed output that was ever given up has been picked up again: it is recorded,
    below the floor or in flight. Between sweeps that is the completeness of the books.
   */
  lemma LosslessIffGivenUpRecovered(env: Env, states: seq<State>, actions: seq<Action>, k: nat)
    requires GoodEnv(env) && IsRun(env, states, actions) && k < |states|
    ensures var s := states[k];
            AllSafe(env, s) <==>
            forall b, i :: Passed(env, s, b) && Eligible(env.treasury, b, i) && GivenUp(s, b, i) ==>
                             Safe(env, s, UtxoOf(b, i))
    ensures var s := states[k];
            s.phase.Idle? ==>
              (AllRecorded(env, s) <==>
               forall b, i :: Passed(env, s, b) && Eligible(env.treasury, b, i) && GivenUp(s, b, i) ==>
                                Settled(env, s, UtxoOf(b, i)))
  {
    EveryRunAccounts(env, states, actions, k);
    SafeIffGivenUpSafe(env, states[k]);
    if states[k].phase.Idle? {
      IdleIsSettled(env, states[k]);
    }
  }

  /** With nothing in flight, safe means settled. */
  lemma IdleIsSettled(env: Env, s: State)
    requires Pending(s) == []
    ensures forall u :: Safe(env, s, u) <==> Settled(env, s, u)
    ensures AllSafe(env, s) <==> AllRecorded(env, s)
  {
    assert forall u :: Safe(env, s, u) <==> Settled(env, s, u);
    if AllSafe(env, s) {
      forall b, i | Passed(env, s, b) && Eligible(env.treasury, b, i)
        ensures Settled(env, s, UtxoOf(b, i))
      {
        assert Safe(env, s, UtxoOf(b, i));
      }
    }
    if AllRecorded(env, s) {
      forall b, i | Passed(env, s, b) && Eligible(env.treasury, b, i)
        ensures Safe(env, s, UtxoOf(b, i))
      {
        assert Settled(env, s, UtxoOf(b, i));
      }
    }
  }

  /**
    What an abort costs, at any point of any run: afterwards the books are complete exactly when
    every passed output the sweep holds, or an earlier step gave up, is settled already.
   */
  lemma AbortLosesExactly(env: Env, states: seq<State>, actions: seq<Action>, k: nat)
    requires GoodEnv(env) && IsRun(env, states, actions) && k < |states|
    ensures var s := states[k];
            AllRecorded(env, Next(env, s, Abort)) <==>
            forall b, i :: Passed(env, s, b) && Eligible(env.treasury, b, i)
                           && (UtxoOf(b, i) in Pending(s) || GivenUp(s, b, i)) ==>
                             Settled(env, s, UtxoOf(b, i))
  {
    EveryRunAccounts(env, states, actions, k);
    var s := states[k];
    var after := Next(env, s, Abort);
    assert forall u :: Settled(env, after, u) <==> Settled(env, s, u);
    assert forall b :: Passed(env, after, b) <==> Passed(env, s, b);
    if AllRecorded(env, after) {
      forall b, i | Passed(env, s, b) && Eligible(env.treasury, b, i)
        ensures Settled(env, s, UtxoOf(b, i))
      {
        assert Settled(env, after, UtxoOf(b, i));
      }
    } else {
      var b, i :| Passed(env, after, b) && Eligible(env.treasury, b, i) && !Settled(env, after, UtxoOf(b, i));
      assert Accounted(env, s, b, i) && !Settled(env, s, UtxoOf(b, i));
    }
  }

  /**
    What a reset costs, at any point of any scan: unless the scan had never stored a cursor,
    everything passed is safe afterwards exactly when every output up to the pruning point that
    is jumped over now, or was given up before, is safe already.
   */
  lemma ResetLosesExactly(env: Env, states: seq<State>, actions: seq<Action>, k: nat)
    requires GoodEnv(env) && IsRun(env, states, actions) && k < |states| && states[k].phase.Scanning?
    ensures var s := states[k];
            AllSafe(env, Next(env, s, ReportReorg)) <==>
            s.start.None? ||
            forall b, i :: BelowReset(env, s, b) && Eligible(env.treasury, b, i)
                           && (b in Jumped(env, s) || GivenUp(s, b, i)) ==>
                             Safe(env, s, UtxoOf(b, i))
  {
    EveryRunAccounts(env, states, actions, k);
    var s := states[k];
    var after := Next(env, s, ReportReorg);
    assert Pending(after) == Pending(s);
    assert forall u :: Safe(env, after, u) <==> Safe(env, s, u);
    if s.start.Some? {
      assert forall b :: Passed(env, after, b) <==> BelowReset(env, s, b);
      if AllSafe(env, after) {
        forall b, i | BelowReset(env, s, b) && Eligible(env.treasury, b, i)
          ensures Safe(env, s, UtxoOf(b, i))
        {
          assert Safe(env, after, UtxoOf(b, i));
        }
      } else {
        var b, i :| Passed(env, after, b) && Eligible(env.treasury, b, i) && !Safe(env, after, UtxoOf(b, i));
        assert Passed(env, s, b) ==> Accounted(env, s, b, i);
        assert b in Jumped(env, s) || GivenUp(s, b, i);
      }
    }
  }

  /** A block up to the pruning point that the scan's start does not cover. */
  ghost predicate BelowReset(env: Env, s: State, b: Block) {
    b in Chain(env, Some(s.node.pruningPoint)) && b !in Chain(env, s.start)
  }

  function PaidBlock(): Block {
    Block(1, 2, 101, [Output([], 5)])
  }

  function LossyEnv(): Env {
    var genesis := Block(0, 1, 100, []);
    Env(map[0 := [genesis], 1 := [genesis, PaidBlock()]], [[]], 10, 0)
  }

  lemma LossyEnvGood()
    ensures GoodEnv(LossyEnv()) && PositiveDaa(LossyEnv())
  {
    var env := LossyEnv();
    assert env.chains[1][..1] == env.chains[0] && env.chains[1][..2] == env.chains[1];
    assert env.chains[0][..1] == env.chains[0];
  }

  function LossyState(virtual_: nat, stored: Option<Hash>, phase: Phase, start: Option<Hash>, dropped: set<Utxo>)
    : State
  {
    State(Node(1, 0, virtual_), stored, map[], phase, start, dropped, {})
  }

  /** The page with the paid block, at any scores that let it be ingested. */
  lemma LossyPage(virtual_: nat, v1: nat, v2: nat)
    requires SafeIngestDaa(v2, 10) >= 2
    ensures var s := LossyState(virtual_, None, Scanning(v1, v2, Scan(None, 0, [], Running)), None, {});
            && Enabled(LossyEnv(), s, GetPage(1))
            && Next(LossyEnv(), s, GetPage(1)) ==
               LossyState(virtual_, Some(1), Scanning(v1, v2, Scan(Some(1), 1, [UtxoOf(PaidBlock(), 0)], Running)),
                          Some(0), {})
  {
    var env, s := LossyEnv(), LossyState(virtual_, None, Scanning(v1, v2, Scan(None, 0, [], Running)), None, {});
    var safe := SafeIngestDaa(v2, 10);
    assert Chain(env, Some(1))[..1] == Chain(env, Some(0));
    assert PageBlocks(env, s, 1) == [PaidBlock()];
    assert Ingestible([PaidBlock()], safe, 0) == Ingestible([PaidBlock()], safe, 1) == 1;
    assert RewardsIn(env.treasury, PaidBlock(), 1) == [UtxoOf(PaidBlock(), 0)];
    assert Rewards(env.treasury, [PaidBlock()], 1) == RewardsIn(env.treasury, PaidBlock(), 1);
  }

  /** The four steps: begin, start the scan, get a page, fail on the next request. */
  function LossyAt(k: nat): State {
    var u := UtxoOf(PaidBlock(), 0);
    if k == 0 then LossyState(100, None, Idle, None, {})
    else if k == 1 then LossyState(100, None, Begun(100), None, {})
    else if k == 2 then LossyState(100, None, Scanning(100, 100, Scan(None, 0, [], Running)), None, {})
    else if k == 3 then LossyState(100, Some(1), Scanning(100, 100, Scan(Some(1), 1, [u], Running)), Some(0), {})
    else LossyState(100, Some(1), Idle, Some(0), {u})
  }

  function LossyAction(k: nat): Action {
    if k == 0 then Begin else if k == 1 then StartScan else if k == 2 then GetPage(1) else Abort
  }

  lemma LossyStep(k: nat)
    requires k < 4
    ensures Enabled(LossyEnv(), LossyAt(k), LossyAction(k))
    ensures LossyAt(k + 1) == Next(LossyEnv(), LossyAt(k), LossyAction(k))
    ensures k < 3 ==> Completes(LossyEnv(), LossyAt(k), LossyAction(k))
  {
    if k == 1 {
      LossyEnvGood();
    } else if k == 2 {
      LossyPage(100, 100, 100);
    } else if k == 3 {
      assert (set v | v in [UtxoOf(PaidBlock(), 0)]) == {UtxoOf(PaidBlock(), 0)};
    }
  }

  /** With the cursor on the paid block and nothing recorded, its reward is missing. */
  lemma PaidIsMissing(s: State)
    requires s.stored == Some(1) && s.start == Some(0) && s.recorded == map[]
    ensures !AllRecorded(LossyEnv(), s)
  {
    assert Chain(LossyEnv(), Some(1))[1] == PaidBlock();
    assert Passed(LossyEnv(), s, PaidBlock()) && Eligible(LossyEnv().treasury, PaidBlock(), 0);
    assert !Settled(LossyEnv(), s, UtxoOf(PaidBlock(), 0));
  }

  /** A page is ingested, its cursor stored, and the next request fails: its reward is gone. */
  lemma LossyRun(states: seq<State>, actions: seq<Action>)
    requires |states| == 5 && |actions| == 4
    requires forall k :: 0 <= k < 5 ==> states[k] == LossyAt(k)
    requires forall k :: 0 <= k < 4 ==> actions[k] == LossyAction(k)
    ensures GoodEnv(LossyEnv()) && IsRun(LossyEnv(), states, actions)
    ensures forall k :: 0 <= k < 3 ==> Completes(LossyEnv(), states[k], actions[k])
    ensures states[4].phase.Idle? && !AllRecorded(LossyEnv(), states[4])
  {
    LossyEnvGood();
    PaidIsMissing(states[4]);
    forall k | 0 <= k < 4
      ensures Enabled(LossyEnv(), states[k], actions[k]) && states[k + 1] == Next(LossyEnv(), states[k], actions[k])
      ensures k < 3 ==> Completes(LossyEnv(), states[k], actions[k])
    {
      LossyStep(k);
    }
  }

  /**
    A block sweep that takes the score from 11 to 62 between the two reads: the paid block is deep
    enough for the scanner and not for the tracker.
   */
  function SilentAt(k: nat): State {
    var u := UtxoOf(PaidBlock(), 0);
    if k == 0 then LossyState(11, None, Idle, None, {})
    else if k == 1 then LossyState(11, None, Begun(11), None, {})
    else if k == 2 then LossyState(62, None, Begun(11), None, {})
    else if k == 3 then LossyState(62, None, Scanning(11, 62, Scan(None, 0, [], Running)), None, {})
    else if k == 4 then LossyState(62, Some(1), Scanning(11, 62, Scan(Some(1), 1, [u], Running)), Some(0), {})
    else if k == 5 then LossyState(62, Some(1), Recording(11, [u]), Some(0), {})
    else LossyState(62, Some(1), Idle, Some(0), {u})
  }

  function SilentAction(k: nat): Action {
    if k == 0 then Begin else if k == 1 then MoveChain(Node(1, 0, 62)) else if k == 2 then StartScan
    else if k == 3 then GetPage(1) else if k == 4 then GetPage(0) else Record(true)
  }

  lemma SilentStep(k: nat)
    requires k < 6
    ensures Enabled(LossyEnv(), SilentAt(k), SilentAction(k))
    ensures SilentAt(k + 1) == Next(LossyEnv(), SilentAt(k), SilentAction(k))
  {
    if k == 1 {
      assert Chain(LossyEnv(), Some(1))[..1] == Chain(LossyEnv(), Some(0));
    } else if k == 3 {
      LossyPage(62, 11, 62);
    } else if k == 4 {
      assert PageBlocks(LossyEnv(), SilentAt(4), 0) == [];
    } else if k == 5 {
      assert !IsMature(11, 2, 10);
      assert SilentAt(5).phase.queue[1..] == [];
    }
  }

  /**
    Without any failure: no abort, no reset, no insert that fails, and every page answered. The
    reward fails the tracker's gate behind the stored cursor and is gone.
   */
  lemma SilentLoss(states: seq<State>, actions: seq<Action>)
    requires |states| == 7 && |actions| == 6
    requires forall k :: 0 <= k < 7 ==> states[k] == SilentAt(k)
    requires forall k :: 0 <= k < 6 ==> actions[k] == SilentAction(k)
    ensures GoodEnv(LossyEnv()) && PositiveDaa(LossyEnv()) && IsRun(LossyEnv(), states, actions)
    ensures forall k :: 0 <= k < 6 ==> !actions[k].Abort? && !actions[k].ReportReorg? && actions[k] != Record(false)
    ensures states[6].phase.Idle? && !AllRecorded(LossyEnv(), states[6])
  {
    LossyEnvGood();
    PaidIsMissing(states[6]);
    forall k | 0 <= k < 6
      ensures Enabled(LossyEnv(), states[k], actions[k]) && states[k + 1] == Next(LossyEnv(), states[k], actions[k])
    {
      SilentStep(k);
    }
  }

  // ---------- what is recorded is what was paid, once ----------

  ghost predicate OnChain(env: Env, b: Block) {
    b.hash in env.chains && b in env.chains[b.hash]
  }

  ghost predicate Genuine(env: Env, u: Utxo) {
    exists b, i :: OnChain(env, b) && Eligible(env.treasury, b, i) && u == UtxoOf(b, i)
  }

  /** A transaction id commits to the coinbase transaction and its DAA score. */
  ghost predicate TxidsCommit(env: Env) {
    forall b, c :: OnChain(env, b) && OnChain(env, c) && b.txid == c.txid ==> b.outputs == c.outputs && b.daa == c.daa
  }

  ghost predicate AllGenuine(env: Env, s: State) {
    && (forall u :: u in Pending(s) ==> Genuine(env, u))
    && (forall p :: p in s.recorded ==> s.recorded[p].Outpoint() == p && Genuine(env, s.recorded[p]))
  }

  lemma PageGenuine(env: Env, s: State, count: nat, u: Utxo)
    requires GoodEnv(env) && WellPlaced(env, s) && AllGenuine(env, s) && Enabled(env, s, GetPage(count))
    requires u in Pending(Next(env, s, GetPage(count)))
    ensures Genuine(env, u)
  {
    var page, k := PageEffect(env, s, count);
    if u !in s.phase.scan.rewards {
      var j, i := RewardsSound(env.treasury, page, k, u);
      PageExtends(env, s, count, j + 1);
      assert OnChain(env, page[j]);
    }
  }

  lemma StepGenuine(env: Env, s: State, a: Action)
    requires GoodEnv(env) && WellPlaced(env, s) && AllGenuine(env, s) && Enabled(env, s, a)
    ensures AllGenuine(env, Next(env, s, a))
  {
    match a
    case GetPage(count) =>
      forall u | u in Pending(Next(env, s, a))
        ensures Genuine(env, u)
      {
        PageGenuine(env, s, count, u);
      }
    case Record(ok) =>
      assert forall u :: u in s.phase.queue[1..] ==> u in s.phase.queue;
      assert s.phase.queue[0] in Pending(s);
    case _ =>
  }

  lemma {:induction false} RunGenuine(env: Env, states: seq<State>, actions: seq<Action>, k: nat)
    requires GoodEnv(env) && IsRun(env, states, actions) && k < |states|
    ensures AllGenuine(env, states[k])
  {
    if k > 0 {
      RunGenuine(env, states, actions, k - 1);
      EveryRunAccounts(env, states, actions, k - 1);
      StepGenuine(env, states[k - 1], actions[k - 1]);
      assert states[k - 1 + 1] == Next(env, states[k - 1], actions[k - 1]);
    }
  }

  /** Only treasury outputs are ever recorded, and each under its own amount and DAA score. */
  lemma RecordedAsPaid(env: Env, states: seq<State>, actions: seq<Action>, k: nat, b: Block, i: nat)
    requires GoodEnv(env) && TxidsCommit(env) && IsRun(env, states, actions) && k < |states|
    requires OnChain(env, b) && i < |b.outputs| && (b.txid, i) in states[k].recorded
    ensures b.outputs[i].script in env.treasury && b.outputs[i].value < 0x8000_0000_0000_0000 && i < 0x1_0000_0000
    ensures states[k].recorded[(b.txid, i)] == Utxo(b.txid, i, b.outputs[i].value, b.daa)
  {
    RunGenuine(env, states, actions, k);
    var row := states[k].recorded[(b.txid, i)];
    var c, j :| OnChain(env, c) && Eligible(env.treasury, c, j) && row == UtxoOf(c, j);
    EligiblePays(env.treasury, c, j, row);
    assert c.txid == b.txid && j == i;
  }

  // ---------- what is recorded was due ----------

  ghost predicate RecordedDue(env: Env, s: State) {
    && (!s.phase.Idle? ==> s.phase.v1 <= s.node.virtual_)
    && (forall p :: p in s.recorded ==>
          env.floor <= s.recorded[p].daa && s.recorded[p].daa + env.maturity <= s.node.virtual_)
  }

  lemma StepDue(env: Env, s: State, a: Action)
    requires RecordedDue(env, s) && Enabled(env, s, a)
    ensures RecordedDue(env, Next(env, s, a))
  {
    if a.Record? {
      MatureMeans(s.phase.v1, s.phase.queue[0].daa, env.maturity);
    }
  }

  /**
    In every run, whatever fails or is reset, a recorded reward is at or above the floor and its
    block is the maturity or more below the chain's score: nothing is recorded early.
   */
  lemma {:induction false} RecordedWhenDue(env: Env, states: seq<State>, actions: seq<Action>, k: nat)
    requires IsRun(env, states, actions) && k < |states|
    ensures RecordedDue(env, states[k])
  {
    if k > 0 {
      RecordedWhenDue(env, states, actions, k - 1);
      StepDue(env, states[k - 1], actions[k - 1]);
      assert states[k - 1 + 1] == Next(env, states[k - 1], actions[k - 1]);
    }
  }

  /** A recorded reward is never replaced or removed, however often its block is scanned again. */
  lemma {:induction false} RecordedForGood(env: Env, states: seq<State>, actions: seq<Action>, j: nat, k: nat)
    requires IsRun(env, states, actions) && j <= k < |states|
    ensures forall p :: p in states[j].recorded ==>
              p in states[k].recorded && states[k].recorded[p] == states[j].recorded[p]
  {
    if j < k {
      RecordedForGood(env, states, actions, j, k - 1);
      assert states[k - 1 + 1] == Next(env, states[k - 1], actions[k - 1]);
    }
  }
}

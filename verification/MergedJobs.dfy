/**
  Publishing merged-mining jobs (bridge/src/client_handler.rs, bridge/src/kaspaapi.rs).

  A full-template task takes the connection's job-build lock, cuts a ZKas template, decides who
  the Kaspa parent pays, fetches the parent, stores the pending work and publishes the job. A
  parent-only refresh works without the lock until the end: it looks at the newest job, re-reads
  the payee, fetches a new parent for the same merge key and publishes it only if the newest job
  still commits to that key. Tasks of all connections interleave at every access to the locks,
  the pending work, the payout and the job list.
 */
module MergedJobs {
  import opened Wrappers
  import opened MergedPending

  type Conn = nat
  type TaskId = nat
  type Addr = nat

  /** A ZKas template; its coinbase tag names the connection and the template generation. */
  datatype Template = Template(session: Conn, generation: nat, body: nat)

  /** A parent block: from the Kaspa node, `body` being everything else in it, or a local fallback that pays nobody. */
  datatype Parent = Kaspa(key: Key, pays: Addr, body: nat) | Synthetic(key: Key)

  /**
    `keyOf` is the merge key, `pool` the pool's own Kaspa address. `forwards` says whether the
    refresh path's payee lookup reaches the recorded flag; the code as shipped does not forward
    it, so the lookup is the interface's default, which always answers no.
   */
  datatype Env = Env(keyOf: Template -> Key, pool: Option<Addr>, forwards: bool)

  /** Templates with different coinbase tags have different merge keys. */
  ghost predicate Lawful(env: Env) {
    forall a, b :: env.keyOf(a) == env.keyOf(b) ==> a.session == b.session && a.generation == b.generation
  }

  function PayOf(env: Env, payee: Option<Addr>): Option<Addr> {
    if payee.Some? then payee else env.pool
  }

  // ---------- the parent cache ----------

  datatype Cached = Cached(key: Key, pay: Addr, parent: Parent)

  /** `usable` says the cached entry is young enough, `reply` is the body of the node's answer, if there is one. */
  datatype Luck = Luck(usable: bool, reply: Option<nat>)

  /**
    `fetch_kaspa_parent`: the parent, if any, and the cache after the call. The source reads the
    cache and writes it under two separate locks; one step loses no behaviour. A hit ends with
    the read. A miss leaves nothing behind but the decision to ask the node, and what the node
    answers does not depend on the cache, so the whole call can be placed at its write: `usable`
    may be false there whatever the cache holds by then.
   */
  function Fetch(env: Env, cache: Option<Cached>, key: Key, template: Template, payee: Option<Addr>, force: bool,
                 luck: Luck)
    : (Option<Parent>, Option<Cached>)
  {
    var pay := PayOf(env, payee);
    if pay.None? then (None, cache)
    else if !force && cache.Some? && cache.value.key == key && cache.value.pay == pay.value && luck.usable then
      (Some(cache.value.parent), cache)
    else if luck.reply.Some? then
      var parent := Kaspa(env.keyOf(template), pay.value, luck.reply.value);
      (Some(parent), Some(Cached(key, pay.value, parent)))
    else (None, cache)
  }

  ghost predicate CacheOk(cache: Option<Cached>) {
    cache.Some? ==>
      var parent := cache.value.parent;
      parent.Kaspa? && parent.key == cache.value.key && parent.pays == cache.value.pay
  }

  class ParentCache {
    const env: Env
    /** How long a cached parent may be handed out again. */
    const ttl: nat
    var cache: Option<Cached>
    var fetchedAt: int

    constructor (env: Env, ttl: nat)
      ensures this.env == env && this.ttl == ttl && cache == None && CacheOk(cache)
    {
      this.env, this.ttl, cache, fetchedAt := env, ttl, None, 0;
    }

    /**
      Every parent returned commits to the requested key and pays the requested payee, or the pool
      if none is requested. It is the cached one exactly when the call is not forced and that one was
      fetched for the same key and payee less than the TTL ago, and the node's own answer otherwise.
     */
    method FetchKaspaParent(key: Key, template: Template, payee: Option<Addr>, force: bool, now: int,
                            reply: Option<nat>)
      returns (r: Option<Parent>)
      requires CacheOk(cache) && env.keyOf(template) == key
      modifies this
      ensures var age := if now >= old(fetchedAt) then now - old(fetchedAt) else 0;
              (r, cache) == Fetch(env, old(cache), key, template, payee, force, Luck(age < ttl, reply))
      ensures CacheOk(cache)
      ensures r.Some? ==>
                r.value.Kaspa? && r.value.key == key && Some(r.value.pays) == if payee.Some? then payee else env.pool
      ensures var age := if now >= old(fetchedAt) then now - old(fetchedAt) else 0;
              var pays := if payee.Some? then payee else env.pool;
              var hit := !force && old(cache).Some? && old(cache).value.key == key
                         && Some(old(cache).value.pay) == pays && age < ttl;
              && (hit ==> r == Some(old(cache).value.parent) && cache == old(cache) && fetchedAt == old(fetchedAt))
              && (!hit ==> (r.Some? <==> reply.Some? && pays.Some?))
              && (!hit && r.Some? ==> r.value.body == reply.value && fetchedAt == now &&
                                      cache == Some(Cached(key, r.value.pays, r.value)))
              && (r.None? ==> cache == old(cache) && fetchedAt == old(fetchedAt))
    {
      var pay := PayOf(env, payee);
      if pay.None? {
        return None;
      }
      var age := if now >= fetchedAt then now - fetchedAt else 0;
      if cache.Some? && !force && cache.value.key == key && cache.value.pay == pay.value && age < ttl {
        return Some(cache.value.parent);
      }
      if reply.None? {
        return None;
      }
      var parent := Kaspa(env.keyOf(template), pay.value, reply.value);
      cache, fetchedAt := Some(Cached(key, pay.value, parent)), now;
      return Some(parent);
    }
  }

  // ---------- the system ----------

  /** A published job; a refresh remembers the connection payout it read. */
  datatype Job = Full(parent: Parent) | Refresh(parent: Parent, payout: Option<Addr>)

  datatype Connection = Connection(jobs: seq<Job>, builder: Option<TaskId>, payout: Option<Addr>, generation: nat)

  datatype FullStage =
    | Asked
    | Cut(template: Template, payee: Option<Addr>)
    | Parented(template: Template, payee: Option<Addr>, parent: Parent)
    | Stored(parent: Parent)

  datatype RefreshStage =
    | Started
    | Flagged(flag: bool)
    | Payed(payee: Option<Addr>, payout: Option<Addr>)
    | Checked(payee: Option<Addr>, payout: Option<Addr>)
    | Got(template: Template, payee: Option<Addr>, payout: Option<Addr>)
    | Fetched(parent: Parent, payee: Option<Addr>, payout: Option<Addr>)

  datatype Task =
    | FullTask(conn: Conn, payout: Option<Addr>, full: FullStage)
    | RefreshTask(conn: Conn, key: Key, refresh: RefreshStage)

  /** What was decided when a key was cut: the connection's payout then, and the payee used. */
  datatype Lane = Lane(template: Template, payout: Option<Addr>, payee: Option<Addr>)

  datatype System = System(pending: Pending<Template>, cache: Option<Cached>, conns: map<Conn, Connection>,
                           tasks: map<TaskId, Task>, lanes: map<Key, Lane>)

  datatype Action =
    | Connect(conn: Conn, payout: Option<Addr>)
    | SetPayout(conn: Conn, payout: Option<Addr>)
    | ClaimWork(key: Key)
    | StartFull(task: TaskId, conn: Conn)
    | CutTemplate(task: TaskId, body: nat, feeMinute: bool)
    | FetchFull(task: TaskId, luck: Luck)
    | StoreWork(task: TaskId)
    | PublishFull(task: TaskId)
    | StartRefresh(task: TaskId, conn: Conn)
    | LookUpFlag(task: TaskId)
    | ReadPayout(task: TaskId)
    | CheckUnsolved(task: TaskId)
    | GetTemplate(task: TaskId)
    | FetchRefresh(task: TaskId, body: nat)
    | PublishRefresh(task: TaskId)
    | GiveUp(task: TaskId)

  predicate IsFull(s: System, t: TaskId) {
    t in s.tasks && s.tasks[t].FullTask? && s.tasks[t].conn in s.conns
  }

  predicate IsRefresh(s: System, t: TaskId) {
    t in s.tasks && s.tasks[t].RefreshTask? && s.tasks[t].conn in s.conns
  }

  function Latest(c: Connection): Job
    requires c.jobs != []
  {
    c.jobs[|c.jobs| - 1]
  }

  function WithFull(s: System, t: TaskId, stage: FullStage): System
    requires IsFull(s, t)
  {
    s.(tasks := s.tasks[t := s.tasks[t].(full := stage)])
  }

  function WithRefresh(s: System, t: TaskId, stage: RefreshStage): System
    requires IsRefresh(s, t)
  {
    s.(tasks := s.tasks[t := s.tasks[t].(refresh := stage)])
  }

  predicate CanConnect(s: System, c: Conn) {
    c !in s.conns
  }

  function AfterConnect(s: System, c: Conn, payout: Option<Addr>): System
    requires CanConnect(s, c)
  {
    s.(conns := s.conns[c := Connection([], None, payout, 0)])
  }

  predicate CanSetPayout(s: System, c: Conn) {
    c in s.conns
  }

  function AfterSetPayout(s: System, c: Conn, payout: Option<Addr>): System
    requires CanSetPayout(s, c)
  {
    s.(conns := s.conns[c := s.conns[c].(payout := payout)])
  }

  function AfterClaimWork(s: System, key: Key): System
  {
    s.(pending := s.pending.Claim(key).1)
  }

  predicate CanStartFull(s: System, t: TaskId, c: Conn) {
    t !in s.tasks && c in s.conns && s.conns[c].builder.None?
  }

  /** The job-build lock is free: take it, the next generation, and the payout of the moment. */
  function AfterStartFull(s: System, t: TaskId, c: Conn): System
    requires CanStartFull(s, t, c)
  {
    var conn := s.conns[c];
    s.(conns := s.conns[c := conn.(builder := Some(t), generation := conn.generation + 1)],
       tasks := s.tasks[t := FullTask(c, conn.payout, Asked)])
  }

  predicate CanCutTemplate(s: System, t: TaskId) {
    IsFull(s, t) && s.tasks[t].full.Asked?
  }

  /** The template arrives; the fee minute decides the payee. */
  function AfterCutTemplate(s: System, t: TaskId, body: nat, feeMinute: bool): System
    requires CanCutTemplate(s, t)
  {
    var c := s.tasks[t].conn;
    WithFull(s, t, Cut(Template(c, s.conns[c].generation, body), if feeMinute then None else s.tasks[t].payout))
  }

  predicate CanFetchFull(s: System, t: TaskId) {
    IsFull(s, t) && s.tasks[t].full.Cut?
  }

  /** The fetched parent, or the synthetic one if the fetch fails. */
  function AfterFetchFull(env: Env, s: System, t: TaskId, luck: Luck): System
    requires CanFetchFull(s, t)
  {
    var stage := s.tasks[t].full;
    var key := env.keyOf(stage.template);
    var (got, cache) := Fetch(env, s.cache, key, stage.template, stage.payee, false, luck);
    WithFull(s, t, Parented(stage.template, stage.payee, got.GetOr(Synthetic(key)))).(cache := cache)
  }

  predicate CanStoreWork(s: System, t: TaskId) {
    IsFull(s, t) && s.tasks[t].full.Parented?
  }

  function AfterStoreWork(env: Env, s: System, t: TaskId): System
    requires CanStoreWork(s, t)
  {
    var task := s.tasks[t];
    var key := env.keyOf(task.full.template);
    WithFull(s, t, Stored(task.full.parent)).(
      pending := s.pending.Insert(key, task.full.template, task.full.payee.None?),
      lanes := s.lanes[key := Lane(task.full.template, task.payout, task.full.payee)])
  }

  predicate CanPublishFull(s: System, t: TaskId) {
    IsFull(s, t) && s.tasks[t].full.Stored?
  }

  /** The job is added and the lock released. */
  function AfterPublishFull(s: System, t: TaskId): System
    requires CanPublishFull(s, t)
  {
    var c := s.tasks[t].conn;
    s.(conns := s.conns[c := s.conns[c].(jobs := s.conns[c].jobs + [Full(s.tasks[t].full.parent)], builder := None)],
       tasks := s.tasks - {t})
  }

  predicate CanStartRefresh(s: System, t: TaskId, c: Conn) {
    t !in s.tasks && c in s.conns && s.conns[c].jobs != []
  }

  function AfterStartRefresh(s: System, t: TaskId, c: Conn): System
    requires CanStartRefresh(s, t, c)
  {
    s.(tasks := s.tasks[t := RefreshTask(c, Latest(s.conns[c]).parent.key, Started)])
  }

  predicate CanLookUpFlag(s: System, t: TaskId) {
    IsRefresh(s, t) && s.tasks[t].refresh.Started?
  }

  function AfterLookUpFlag(env: Env, s: System, t: TaskId): System
    requires CanLookUpFlag(s, t)
  {
    WithRefresh(s, t, Flagged(env.forwards && s.pending.PaidPool(s.tasks[t].key)))
  }

  predicate CanReadPayout(s: System, t: TaskId) {
    IsRefresh(s, t) && s.tasks[t].refresh.Flagged?
  }

  function AfterReadPayout(s: System, t: TaskId): System
    requires CanReadPayout(s, t)
  {
    var payout := s.conns[s.tasks[t].conn].payout;
    WithRefresh(s, t, Payed(if s.tasks[t].refresh.flag then None else payout, payout))
  }

  predicate CanCheckUnsolved(s: System, t: TaskId) {
    IsRefresh(s, t) && s.tasks[t].refresh.Payed? && s.pending.IsUnsolved(s.tasks[t].key)
  }

  function AfterCheckUnsolved(s: System, t: TaskId): System
    requires CanCheckUnsolved(s, t)
  {
    WithRefresh(s, t, Checked(s.tasks[t].refresh.payee, s.tasks[t].refresh.payout))
  }

  predicate CanGetTemplate(s: System, t: TaskId) {
    IsRefresh(s, t) && s.tasks[t].refresh.Checked? && s.pending.Get(s.tasks[t].key).Some?
  }

  function AfterGetTemplate(s: System, t: TaskId): System
    requires CanGetTemplate(s, t)
  {
    var template := s.pending.Get(s.tasks[t].key).value;
    WithRefresh(s, t, Got(template, s.tasks[t].refresh.payee, s.tasks[t].refresh.payout))
  }

  predicate CanFetchRefresh(env: Env, s: System, t: TaskId) {
    IsRefresh(s, t) && s.tasks[t].refresh.Got? &&
    var stage := s.tasks[t].refresh;
    PayOf(env, stage.payee).Some?
  }

  /** A forced fetch: the node answers with this body, however young the cached parent is. */
  function AfterFetchRefresh(env: Env, s: System, t: TaskId, body: nat): System
    requires CanFetchRefresh(env, s, t)
  {
    var stage := s.tasks[t].refresh;
    var (got, cache) := Fetch(env, s.cache, s.tasks[t].key, stage.template, stage.payee, true, Luck(true, Some(body)));
    WithRefresh(s, t, Fetched(got.value, stage.payee, stage.payout)).(cache := cache)
  }

  predicate CanPublishRefresh(s: System, t: TaskId) {
    IsRefresh(s, t) && s.tasks[t].refresh.Fetched? &&
    var conn := s.conns[s.tasks[t].conn];
    conn.builder.None? && conn.jobs != [] && Latest(conn).parent.key == s.tasks[t].key
  }

  /** The lock is free and the newest job still commits to the key. */
  function AfterPublishRefresh(s: System, t: TaskId): System
    requires CanPublishRefresh(s, t)
  {
    var c, stage := s.tasks[t].conn, s.tasks[t].refresh;
    s.(conns := s.conns[c := s.conns[c].(jobs := s.conns[c].jobs + [Refresh(stage.parent, stage.payout)])],
       tasks := s.tasks - {t})
  }

  predicate CanGiveUp(s: System, t: TaskId) {
    t in s.tasks && s.tasks[t].conn in s.conns
  }

  /** Any error ends a task; a full task's lock is released with it. */
  function AfterGiveUp(s: System, t: TaskId): System
    requires CanGiveUp(s, t)
  {
    var c := s.tasks[t].conn;
    s.(tasks := s.tasks - {t},
       conns := if s.tasks[t].FullTask? then s.conns[c := s.conns[c].(builder := None)] else s.conns)
  }

  predicate Enabled(env: Env, s: System, a: Action) {
    match a
    case Connect(c, _) => CanConnect(s, c)
    case SetPayout(c, _) => CanSetPayout(s, c)
    case ClaimWork(_) => true
    case StartFull(t, c) => CanStartFull(s, t, c)
    case CutTemplate(t, _, _) => CanCutTemplate(s, t)
    case FetchFull(t, _) => CanFetchFull(s, t)
    case StoreWork(t) => CanStoreWork(s, t)
    case PublishFull(t) => CanPublishFull(s, t)
    case StartRefresh(t, c) => CanStartRefresh(s, t, c)
    case LookUpFlag(t) => CanLookUpFlag(s, t)
    case ReadPayout(t) => CanReadPayout(s, t)
    case CheckUnsolved(t) => CanCheckUnsolved(s, t)
    case GetTemplate(t) => CanGetTemplate(s, t)
    case FetchRefresh(t, _) => CanFetchRefresh(env, s, t)
    case PublishRefresh(t) => CanPublishRefresh(s, t)
    case GiveUp(t) => CanGiveUp(s, t)
  }

  function Next(env: Env, s: System, a: Action): System
    requires Enabled(env, s, a)
  {
    match a
    case Connect(c, payout) => AfterConnect(s, c, payout)
    case SetPayout(c, payout) => AfterSetPayout(s, c, payout)
    case ClaimWork(key) => AfterClaimWork(s, key)
    case StartFull(t, c) => AfterStartFull(s, t, c)
    case CutTemplate(t, body, feeMinute) => AfterCutTemplate(s, t, body, feeMinute)
    case FetchFull(t, luck) => AfterFetchFull(env, s, t, luck)
    case StoreWork(t) => AfterStoreWork(env, s, t)
    case PublishFull(t) => AfterPublishFull(s, t)
    case StartRefresh(t, c) => AfterStartRefresh(s, t, c)
    case LookUpFlag(t) => AfterLookUpFlag(env, s, t)
    case ReadPayout(t) => AfterReadPayout(s, t)
    case CheckUnsolved(t) => AfterCheckUnsolved(s, t)
    case GetTemplate(t) => AfterGetTemplate(s, t)
    case FetchRefresh(t, body) => AfterFetchRefresh(env, s, t, body)
    case PublishRefresh(t) => AfterPublishRefresh(s, t)
    case GiveUp(t) => AfterGiveUp(s, t)
  }

  // ---------- the invariant ----------

  ghost predicate LanesOk(env: Env, s: System) {
    forall k :: k in s.lanes ==>
      var lane := s.lanes[k];
      && env.keyOf(lane.template) == k
      && lane.template.session in s.conns && lane.template.generation <= s.conns[lane.template.session].generation
      && (lane.payee.None? || lane.payee == lane.payout)
  }

  ghost predicate PendingOk(env: Env, s: System) {
    s.pending.Valid() &&
    forall k :: k in s.pending.map_ ==>
      env.keyOf(s.pending.map_[k]) == k && k in s.lanes && s.pending.PaidPool(k) == s.lanes[k].payee.None?
  }

  /** The payee a refresh ends up with. */
  function RefreshPayee(env: Env, lane: Lane, payout: Option<Addr>): Option<Addr> {
    if env.forwards && lane.payee.None? then None else payout
  }

  /** A parent that commits to the key and, if it came from the node, pays the payee. */
  ghost predicate ParentOk(env: Env, parent: Parent, key: Key, payee: Option<Addr>) {
    parent.key == key && (parent.Kaspa? ==> Some(parent.pays) == PayOf(env, payee))
  }

  ghost predicate FullOk(env: Env, s: System, t: TaskId)
    requires IsFull(s, t)
  {
    var task := s.tasks[t];
    var conn := s.conns[task.conn];
    && conn.builder == Some(t)
    && OlderJobs(s, conn)
    && (task.full.Stored? || LanesBelow(s, task.conn, conn.generation))
    && match task.full {
         case Asked => true
         case Cut(template, payee) =>
           TemplateOk(template, task, conn.generation, payee)
         case Parented(template, payee, parent) =>
           TemplateOk(template, task, conn.generation, payee) && ParentOk(env, parent, env.keyOf(template), payee)
         case Stored(parent) =>
           && parent.key in s.lanes && s.lanes[parent.key].template.session == task.conn
           && s.lanes[parent.key].template.generation == conn.generation
           && ParentOk(env, parent, parent.key, s.lanes[parent.key].payee)
       }
  }

  ghost predicate TemplateOk(template: Template, task: Task, generation: nat, payee: Option<Addr>)
    requires task.FullTask?
  {
    template.session == task.conn && template.generation == generation && (payee.None? || payee == task.payout)
  }

  ghost predicate LanesBelow(s: System, c: Conn, generation: nat) {
    forall k :: k in s.lanes && s.lanes[k].template.session == c ==> s.lanes[k].template.generation < generation
  }

  ghost predicate OlderJobs(s: System, conn: Connection) {
    forall i :: 0 <= i < |conn.jobs| ==>
      conn.jobs[i].parent.key in s.lanes && s.lanes[conn.jobs[i].parent.key].template.generation < conn.generation
  }

  ghost predicate RefreshOk(env: Env, s: System, t: TaskId)
    requires IsRefresh(s, t)
  {
    var task := s.tasks[t];
    && task.key in s.lanes
    && var lane, here := s.lanes[task.key], task.key in s.pending.map_;
       match task.refresh {
         case Started => true
         case Flagged(flag) => (!env.forwards ==> !flag) && (env.forwards && here ==> flag == lane.payee.None?)
         case Payed(payee, payout) => here || !env.forwards ==> payee == RefreshPayee(env, lane, payout)
         case Checked(payee, payout) => here || !env.forwards ==> payee == RefreshPayee(env, lane, payout)
         case Got(template, payee, payout) =>
           env.keyOf(template) == task.key && payee == RefreshPayee(env, lane, payout)
         case Fetched(parent, payee, payout) =>
           parent.Kaspa? && ParentOk(env, parent, task.key, payee) && payee == RefreshPayee(env, lane, payout)
       }
  }

  ghost predicate TaskOk(env: Env, s: System, t: TaskId) {
    (IsFull(s, t) && FullOk(env, s, t)) || (IsRefresh(s, t) && RefreshOk(env, s, t))
  }

  ghost predicate TasksOk(env: Env, s: System) {
    forall t :: t in s.tasks ==> TaskOk(env, s, t)
  }

  /** One published job, by what was decided when its key was cut. */
  ghost predicate JobOk(env: Env, lanes: map<Key, Lane>, c: Conn, job: Job) {
    && job.parent.key in lanes && lanes[job.parent.key].template.session == c
    && match job {
         case Full(parent) => ParentOk(env, parent, parent.key, lanes[parent.key].payee)
         case Refresh(parent, payout) =>
           parent.Kaspa? && ParentOk(env, parent, parent.key, RefreshPayee(env, lanes[parent.key], payout))
       }
  }

  /** Generations never go back along a connection's jobs, and a generation has one key. */
  ghost predicate JobOrder(lanes: map<Key, Lane>, a: Job, b: Job)
    requires a.parent.key in lanes && b.parent.key in lanes
  {
    && lanes[a.parent.key].template.generation <= lanes[b.parent.key].template.generation
    && (lanes[a.parent.key].template.generation == lanes[b.parent.key].template.generation ==>
          a.parent.key == b.parent.key)
  }

  ghost predicate ConnOk(env: Env, lanes: map<Key, Lane>, c: Conn, jobs: seq<Job>) {
    && (forall i :: 0 <= i < |jobs| ==> JobOk(env, lanes, c, jobs[i]))
    && (forall i, j :: 0 <= i < j < |jobs| ==> JobOrder(lanes, jobs[i], jobs[j]))
    && (forall i :: 0 <= i < |jobs| && jobs[i].Refresh? ==> i > 0 && jobs[i].parent.key == jobs[i - 1].parent.key)
  }

  ghost predicate ConnsOk(env: Env, s: System) {
    forall c :: c in s.conns ==> ConnOk(env, s.lanes, c, s.conns[c].jobs)
  }

  ghost predicate Inv(env: Env, s: System) {
    LanesOk(env, s) && PendingOk(env, s) && CacheOk(s.cache) && TasksOk(env, s) && ConnsOk(env, s)
  }

  lemma FetchOk(env: Env, cache: Option<Cached>, key: Key, template: Template, payee: Option<Addr>, force: bool,
                luck: Luck)
    requires CacheOk(cache) && env.keyOf(template) == key
    ensures var (got, after) := Fetch(env, cache, key, template, payee, force, luck);
            CacheOk(after) && (got.Some? ==> got.value.Kaspa? && ParentOk(env, got.value, key, payee))
  {
  }

  // ---------- every step keeps it ----------

  lemma FullKept(env: Env, s: System, s': System, t: TaskId)
    requires IsFull(s, t) && FullOk(env, s, t) && IsFull(s', t) && s'.tasks[t] == s.tasks[t] && s'.lanes == s.lanes
    requires var c := s.tasks[t].conn; s'.conns[c] == s.conns[c].(payout := s'.conns[c].payout)
    ensures FullOk(env, s', t)
  {
    var c := s.tasks[t].conn;
    assert OlderJobs(s', s'.conns[c]);
    assert s.tasks[t].full.Stored? || LanesBelow(s', c, s'.conns[c].generation);
  }

  lemma RefreshKept(env: Env, s: System, s': System, t: TaskId)
    requires IsRefresh(s, t) && RefreshOk(env, s, t) && IsRefresh(s', t) && s'.tasks[t] == s.tasks[t]
    requires s'.lanes == s.lanes && s'.pending.map_ == s.pending.map_
    ensures RefreshOk(env, s', t)
  {
  }

  /** A task stays in order when neither it nor what it relies on changes. */
  lemma TaskKept(env: Env, s: System, s': System, t: TaskId)
    requires TaskOk(env, s, t) && t in s'.tasks && s'.tasks[t] == s.tasks[t] && s'.tasks[t].conn in s'.conns
    requires s'.lanes == s.lanes && s'.pending.map_ == s.pending.map_
    requires var c := s.tasks[t].conn; s.tasks[t].FullTask? ==> s'.conns[c] == s.conns[c].(payout := s'.conns[c].payout)
    ensures TaskOk(env, s', t)
  {
    if s.tasks[t].FullTask? {
      FullKept(env, s, s', t);
    } else {
      RefreshKept(env, s, s', t);
    }
  }

  /** A step that changes one task and the cache only. */
  lemma OneTask(env: Env, s: System, s': System, t: TaskId)
    requires Inv(env, s) && CacheOk(s'.cache)
    requires s'.conns == s.conns && s'.lanes == s.lanes && s'.pending == s.pending
    requires t in s'.tasks && s'.tasks == s.tasks[t := s'.tasks[t]] && TaskOk(env, s', t)
    ensures Inv(env, s')
  {
    forall u | u in s'.tasks
      ensures TaskOk(env, s', u)
    {
      if u != t {
        assert TaskOk(env, s, u);
        TaskKept(env, s, s', u);
      }
    }
    assert LanesOk(env, s') && PendingOk(env, s') && ConnsOk(env, s');
  }

  lemma CutStep(env: Env, s: System, t: TaskId, body: nat, feeMinute: bool)
    requires Inv(env, s) && CanCutTemplate(s, t)
    ensures Inv(env, AfterCutTemplate(s, t, body, feeMinute))
  {
    assert TaskOk(env, s, t);
    OneTask(env, s, AfterCutTemplate(s, t, body, feeMinute), t);
  }

  lemma FetchedParentOk(env: Env, s: System, t: TaskId, luck: Luck)
    requires CanFetchFull(s, t) && FullOk(env, s, t) && CacheOk(s.cache)
    ensures var s' := AfterFetchFull(env, s, t, luck); FullOk(env, s', t) && CacheOk(s'.cache)
  {
    var stage, s' := s.tasks[t].full, AfterFetchFull(env, s, t, luck);
    FetchOk(env, s.cache, env.keyOf(stage.template), stage.template, stage.payee, false, luck);
    assert OlderJobs(s', s'.conns[s'.tasks[t].conn]);
    assert LanesBelow(s', s'.tasks[t].conn, s'.conns[s'.tasks[t].conn].generation);
  }

  lemma FetchFullStep(env: Env, s: System, t: TaskId, luck: Luck)
    requires Inv(env, s) && CanFetchFull(s, t)
    ensures Inv(env, AfterFetchFull(env, s, t, luck))
  {
    assert TaskOk(env, s, t);
    FetchedParentOk(env, s, t, luck);
    OneTask(env, s, AfterFetchFull(env, s, t, luck), t);
  }

  lemma StartRefreshStep(env: Env, s: System, t: TaskId, c: Conn)
    requires Inv(env, s) && CanStartRefresh(s, t, c)
    ensures Inv(env, AfterStartRefresh(s, t, c))
  {
    assert JobOk(env, s.lanes, c, Latest(s.conns[c]));
    OneTask(env, s, AfterStartRefresh(s, t, c), t);
  }

  lemma LookUpStep(env: Env, s: System, t: TaskId)
    requires Inv(env, s) && CanLookUpFlag(s, t)
    ensures Inv(env, AfterLookUpFlag(env, s, t))
  {
    assert TaskOk(env, s, t);
    OneTask(env, s, AfterLookUpFlag(env, s, t), t);
  }

  lemma ReadPayoutStep(env: Env, s: System, t: TaskId)
    requires Inv(env, s) && CanReadPayout(s, t)
    ensures Inv(env, AfterReadPayout(s, t))
  {
    assert TaskOk(env, s, t);
    OneTask(env, s, AfterReadPayout(s, t), t);
  }

  lemma CheckStep(env: Env, s: System, t: TaskId)
    requires Inv(env, s) && CanCheckUnsolved(s, t)
    ensures Inv(env, AfterCheckUnsolved(s, t))
  {
    assert TaskOk(env, s, t);
    OneTask(env, s, AfterCheckUnsolved(s, t), t);
  }

  lemma GetTemplateStep(env: Env, s: System, t: TaskId)
    requires Inv(env, s) && CanGetTemplate(s, t)
    ensures Inv(env, AfterGetTemplate(s, t))
  {
    assert TaskOk(env, s, t);
    OneTask(env, s, AfterGetTemplate(s, t), t);
  }

  lemma FetchRefreshStep(env: Env, s: System, t: TaskId, body: nat)
    requires Inv(env, s) && CanFetchRefresh(env, s, t)
    ensures Inv(env, AfterFetchRefresh(env, s, t, body))
  {
    assert TaskOk(env, s, t);
    var stage := s.tasks[t].refresh;
    FetchOk(env, s.cache, s.tasks[t].key, stage.template, stage.payee, true, Luck(true, Some(body)));
    OneTask(env, s, AfterFetchRefresh(env, s, t, body), t);
  }

  /** Solving a key changes neither the stored templates nor the flags. */
  lemma ClaimKeepsPending(p: Pending<Template>, key: Key)
    requires p.Valid()
    ensures var q := p.Claim(key).1; q.Valid() && q == p.(solved := q.solved)
  {
  }

  /** A step that changes the solved markers only. */
  lemma OnlySolved(env: Env, s: System, s': System)
    requires Inv(env, s) && s'.pending.Valid() && s'.pending == s.pending.(solved := s'.pending.solved)
    requires s' == s.(pending := s'.pending)
    ensures Inv(env, s')
  {
    forall u | u in s'.tasks
      ensures TaskOk(env, s', u)
    {
      assert TaskOk(env, s, u);
      TaskKept(env, s, s', u);
    }
    assert LanesOk(env, s') && ConnsOk(env, s');
    assert PendingOk(env, s');
  }

  lemma ClaimStep(env: Env, s: System, key: Key)
    requires Inv(env, s)
    ensures Inv(env, AfterClaimWork(s, key))
  {
    ClaimKeepsPending(s.pending, key);
    OnlySolved(env, s, AfterClaimWork(s, key));
  }

  /**
    A step that changes one connection: its generation does not go back, its jobs stay in
    order, and every remaining task is still in order.
   */
  lemma OneConn(env: Env, s: System, s': System, c: Conn)
    requires Inv(env, s) && c in s'.conns
    requires s'.conns == s.conns[c := s'.conns[c]]
    requires s'.lanes == s.lanes && s'.pending == s.pending && s'.cache == s.cache
    requires c in s.conns ==> s.conns[c].generation <= s'.conns[c].generation
    requires ConnOk(env, s.lanes, c, s'.conns[c].jobs)
    requires forall t :: t in s'.tasks && s'.tasks[t].conn == c ==> TaskOk(env, s', t)
    requires forall t :: t in s'.tasks && s'.tasks[t].conn != c ==> t in s.tasks && s'.tasks[t] == s.tasks[t]
    ensures Inv(env, s')
  {
    forall t | t in s'.tasks
      ensures TaskOk(env, s', t)
    {
      if s'.tasks[t].conn != c {
        assert TaskOk(env, s, t);
        TaskKept(env, s, s', t);
      }
    }
    assert LanesOk(env, s');
    assert PendingOk(env, s') && ConnsOk(env, s');
  }

  lemma ConnectStep(env: Env, s: System, c: Conn, payout: Option<Addr>)
    requires Inv(env, s) && CanConnect(s, c)
    ensures Inv(env, AfterConnect(s, c, payout))
  {
    forall t | t in s.tasks
      ensures s.tasks[t].conn != c
    {
      assert TaskOk(env, s, t);
    }
    OneConn(env, s, AfterConnect(s, c, payout), c);
  }

  lemma SetPayoutStep(env: Env, s: System, c: Conn, payout: Option<Addr>)
    requires Inv(env, s) && CanSetPayout(s, c)
    ensures Inv(env, AfterSetPayout(s, c, payout))
  {
    var s' := AfterSetPayout(s, c, payout);
    forall t | t in s'.tasks && s'.tasks[t].conn == c
      ensures TaskOk(env, s', t)
    {
      assert TaskOk(env, s, t);
      TaskKept(env, s, s', t);
    }
    OneConn(env, s, s', c);
  }

  /** Jobs and lanes of a connection lie at or below its generation, so a new one is above both. */
  lemma StartFullStep(env: Env, s: System, t: TaskId, c: Conn)
    requires Inv(env, s) && CanStartFull(s, t, c)
    ensures Inv(env, AfterStartFull(s, t, c))
  {
    var s' := AfterStartFull(s, t, c);
    var jobs := s.conns[c].jobs;
    forall i | 0 <= i < |jobs|
      ensures jobs[i].parent.key in s.lanes && s.lanes[jobs[i].parent.key].template.generation < s'.conns[c].generation
    {
      assert JobOk(env, s.lanes, c, jobs[i]);
    }
    assert FullOk(env, s', t);
    forall u | u in s'.tasks && s'.tasks[u].conn == c
      ensures TaskOk(env, s', u)
    {
      if u != t {
        assert TaskOk(env, s, u);
        TaskKept(env, s, s', u);
      }
    }
    OneConn(env, s, s', c);
  }

  lemma GiveUpStep(env: Env, s: System, t: TaskId)
    requires Inv(env, s) && CanGiveUp(s, t)
    ensures Inv(env, AfterGiveUp(s, t))
  {
    var s', c := AfterGiveUp(s, t), s.tasks[t].conn;
    assert TaskOk(env, s, t);
    forall u | u in s'.tasks && s'.tasks[u].conn == c
      ensures TaskOk(env, s', u)
    {
      assert TaskOk(env, s, u);
      TaskKept(env, s, s', u);
    }
    OneConn(env, s, s', c);
  }

  lemma AppendFull(env: Env, s: System, t: TaskId)
    requires Inv(env, s) && CanPublishFull(s, t)
    ensures ConnOk(env, s.lanes, s.tasks[t].conn, s.conns[s.tasks[t].conn].jobs + [Full(s.tasks[t].full.parent)])
  {
    assert TaskOk(env, s, t);
    var c := s.tasks[t].conn;
    assert ConnOk(env, s.lanes, c, s.conns[c].jobs);
  }

  lemma PublishFullStep(env: Env, s: System, t: TaskId)
    requires Inv(env, s) && CanPublishFull(s, t)
    ensures Inv(env, AfterPublishFull(s, t))
  {
    var s', c := AfterPublishFull(s, t), s.tasks[t].conn;
    assert TaskOk(env, s, t);
    AppendFull(env, s, t);
    forall u | u in s'.tasks && s'.tasks[u].conn == c
      ensures TaskOk(env, s', u)
    {
      assert TaskOk(env, s, u);
      TaskKept(env, s, s', u);
    }
    OneConn(env, s, s', c);
  }

  /** A refresh goes behind a job with the same key, hence the same generation. */
  lemma AppendRefresh(env: Env, lanes: map<Key, Lane>, c: Conn, jobs: seq<Job>, job: Job)
    requires ConnOk(env, lanes, c, jobs) && jobs != [] && job.Refresh? && JobOk(env, lanes, c, job)
    requires job.parent.key == jobs[|jobs| - 1].parent.key
    ensures ConnOk(env, lanes, c, jobs + [job])
  {
    var all := jobs + [job];
    forall i, j | 0 <= i < j < |all|
      ensures JobOrder(lanes, all[i], all[j])
    {
      if j == |jobs| && i < |jobs| - 1 {
        assert JobOrder(lanes, jobs[i], jobs[|jobs| - 1]);
      }
    }
  }

  lemma RefreshAppends(env: Env, s: System, t: TaskId)
    requires CanPublishRefresh(s, t) && RefreshOk(env, s, t)
    requires ConnOk(env, s.lanes, s.tasks[t].conn, s.conns[s.tasks[t].conn].jobs)
    ensures ConnOk(env, s.lanes, s.tasks[t].conn, AfterPublishRefresh(s, t).conns[s.tasks[t].conn].jobs)
  {
    var c, stage := s.tasks[t].conn, s.tasks[t].refresh;
    assert JobOk(env, s.lanes, c, Latest(s.conns[c]));
    AppendRefresh(env, s.lanes, c, s.conns[c].jobs, Refresh(stage.parent, stage.payout));
  }

  lemma PublishRefreshStep(env: Env, s: System, t: TaskId)
    requires Inv(env, s) && CanPublishRefresh(s, t)
    ensures Inv(env, AfterPublishRefresh(s, t))
  {
    var s', c := AfterPublishRefresh(s, t), s.tasks[t].conn;
    assert TaskOk(env, s, t);
    RefreshAppends(env, s, t);
    forall u | u in s'.tasks && s'.tasks[u].conn == c
      ensures TaskOk(env, s', u)
    {
      assert TaskOk(env, s, u);
      TaskKept(env, s, s', u);
    }
    OneConn(env, s, s', c);
  }

  // ---------- storing the work of a new key ----------

  /** An insert of a new key leaves every other resident as it was and adds no other. */
  lemma InsertFresh(p: Pending<Template>, key: Key, template: Template, paidPool: bool)
    requires p.Valid() && key !in p.map_
    ensures var q := p.Insert(key, template, paidPool);
            && q.Valid()
            && (key in q.map_ ==> q.map_[key] == template && q.PaidPool(key) == paidPool)
            && forall k :: k in q.map_ && k != key ==>
                 k in p.map_ && q.map_[k] == p.map_[k] && q.PaidPool(k) == p.PaidPool(k)
  {
    InsertKeepsValid(p, key, template, paidPool);
  }

  /** The generation in its tag makes a key that is about to be stored new. */
  lemma KeyIsFresh(env: Env, s: System, t: TaskId)
    requires Lawful(env) && Inv(env, s) && CanStoreWork(s, t)
    ensures env.keyOf(s.tasks[t].full.template) !in s.lanes
  {
    assert TaskOk(env, s, t);
    var key := env.keyOf(s.tasks[t].full.template);
    assert LanesBelow(s, s.tasks[t].conn, s.conns[s.tasks[t].conn].generation);
    assert key in s.lanes ==> env.keyOf(s.lanes[key].template) == key;
  }

  lemma ConnGrown(env: Env, lanes: map<Key, Lane>, key: Key, lane: Lane, c: Conn, jobs: seq<Job>)
    requires ConnOk(env, lanes, c, jobs) && key !in lanes
    ensures ConnOk(env, lanes[key := lane], c, jobs)
  {
    forall i | 0 <= i < |jobs|
      ensures JobOk(env, lanes[key := lane], c, jobs[i])
    {
      assert JobOk(env, lanes, c, jobs[i]);
    }
    forall i, j | 0 <= i < j < |jobs|
      ensures JobOrder(lanes[key := lane], jobs[i], jobs[j])
    {
      assert JobOk(env, lanes, c, jobs[i]) && JobOk(env, lanes, c, jobs[j]);
      assert JobOrder(lanes, jobs[i], jobs[j]);
    }
  }

  /** What storing a task's work does, without the queue's own details. */
  ghost predicate StoredAs(env: Env, s: System, s': System, t: TaskId)
    requires CanStoreWork(s, t)
  {
    var task := s.tasks[t];
    var key := env.keyOf(task.full.template);
    && s'.conns == s.conns && s'.cache == s.cache
    && s'.tasks == s.tasks[t := task.(full := Stored(task.full.parent))]
    && key !in s.lanes && s'.lanes == s.lanes[key := Lane(task.full.template, task.payout, task.full.payee)]
    && s'.pending.Valid()
    && (key in s'.pending.map_ ==>
          s'.pending.map_[key] == task.full.template && s'.pending.PaidPool(key) == task.full.payee.None?)
    && forall k :: k in s'.pending.map_ && k != key ==>
         && k in s.pending.map_ && s'.pending.map_[k] == s.pending.map_[k]
         && s'.pending.PaidPool(k) == s.pending.PaidPool(k)
  }

  lemma StoreEffect(env: Env, s: System, t: TaskId)
    requires Lawful(env) && Inv(env, s) && CanStoreWork(s, t)
    ensures StoredAs(env, s, AfterStoreWork(env, s, t), t)
  {
    KeyIsFresh(env, s, t);
    var task := s.tasks[t];
    InsertFresh(s.pending, env.keyOf(task.full.template), task.full.template, task.full.payee.None?);
  }

  /** A full task of another connection. */
  lemma StoreKeepsFull(env: Env, s: System, s': System, t: TaskId, u: TaskId)
    requires CanStoreWork(s, t) && StoredAs(env, s, s', t) && FullOk(env, s, t)
    requires u != t && IsFull(s, u) && FullOk(env, s, u)
    ensures FullOk(env, s', u)
  {
    assert s.tasks[u].conn != s.tasks[t].conn;
    assert OlderJobs(s', s'.conns[s'.tasks[u].conn]);
    assert s.tasks[u].full.Stored? || LanesBelow(s', s.tasks[u].conn, s'.conns[s'.tasks[u].conn].generation);
  }

  lemma StoreKeepsRefresh(env: Env, s: System, s': System, t: TaskId, u: TaskId)
    requires CanStoreWork(s, t) && StoredAs(env, s, s', t) && IsRefresh(s, u) && RefreshOk(env, s, u)
    ensures RefreshOk(env, s', u)
  {
  }

  lemma StoreKeepsOwn(env: Env, s: System, s': System, t: TaskId)
    requires CanStoreWork(s, t) && StoredAs(env, s, s', t) && FullOk(env, s, t)
    ensures FullOk(env, s', t)
  {
    assert OlderJobs(s', s'.conns[s'.tasks[t].conn]);
  }

  lemma StoreKeepsLanes(env: Env, s: System, s': System, t: TaskId)
    requires LanesOk(env, s) && CanStoreWork(s, t) && StoredAs(env, s, s', t) && FullOk(env, s, t)
    ensures LanesOk(env, s')
  {
  }

  lemma StoreKeepsPending(env: Env, s: System, s': System, t: TaskId)
    requires PendingOk(env, s) && CanStoreWork(s, t) && StoredAs(env, s, s', t)
    ensures PendingOk(env, s')
  {
  }

  lemma StoreStep(env: Env, s: System, t: TaskId)
    requires Lawful(env) && Inv(env, s) && CanStoreWork(s, t)
    ensures Inv(env, AfterStoreWork(env, s, t))
  {
    StoreEffect(env, s, t);
    StoredKeeps(env, s, AfterStoreWork(env, s, t), t);
  }

  lemma StoredKeeps(env: Env, s: System, s': System, t: TaskId)
    requires Inv(env, s) && CanStoreWork(s, t) && StoredAs(env, s, s', t)
    ensures Inv(env, s')
  {
    var key := env.keyOf(s.tasks[t].full.template);
    assert TaskOk(env, s, t);
    StoreKeepsLanes(env, s, s', t);
    StoreKeepsPending(env, s, s', t);
    forall u | u in s'.tasks
      ensures TaskOk(env, s', u)
    {
      assert TaskOk(env, s, u);
      if u == t {
        StoreKeepsOwn(env, s, s', t);
      } else if s.tasks[u].FullTask? {
        StoreKeepsFull(env, s, s', t, u);
      } else {
        StoreKeepsRefresh(env, s, s', t, u);
      }
    }
    forall c | c in s'.conns
      ensures ConnOk(env, s'.lanes, c, s'.conns[c].jobs)
    {
      ConnGrown(env, s.lanes, key, s'.lanes[key], c, s.conns[c].jobs);
    }
  }

  /** Steps of full tasks. */
  predicate OfFull(a: Action) {
    a.StartFull? || a.CutTemplate? || a.FetchFull? || a.StoreWork? || a.PublishFull?
  }

  /** Steps of refreshes. */
  predicate OfRefresh(a: Action) {
    a.StartRefresh? || a.LookUpFlag? || a.ReadPayout? || a.CheckUnsolved? || a.GetTemplate? || a.FetchRefresh?
    || a.PublishRefresh?
  }

  lemma FullStepKeeps(env: Env, s: System, a: Action)
    requires Lawful(env) && Inv(env, s) && Enabled(env, s, a) && OfFull(a)
    ensures Inv(env, Next(env, s, a))
  {
    match a
    case StartFull(t, c) => StartFullStep(env, s, t, c);
    case CutTemplate(t, body, feeMinute) => CutStep(env, s, t, body, feeMinute);
    case FetchFull(t, luck) => FetchFullStep(env, s, t, luck);
    case StoreWork(t) => StoreStep(env, s, t);
    case PublishFull(t) => PublishFullStep(env, s, t);
  }

  lemma RefreshStepKeeps(env: Env, s: System, a: Action)
    requires Inv(env, s) && Enabled(env, s, a) && OfRefresh(a)
    ensures Inv(env, Next(env, s, a))
  {
    match a
    case StartRefresh(t, c) => StartRefreshStep(env, s, t, c);
    case LookUpFlag(t) => LookUpStep(env, s, t);
    case ReadPayout(t) => ReadPayoutStep(env, s, t);
    case CheckUnsolved(t) => CheckStep(env, s, t);
    case GetTemplate(t) => GetTemplateStep(env, s, t);
    case FetchRefresh(t, body) => FetchRefreshStep(env, s, t, body);
    case PublishRefresh(t) => PublishRefreshStep(env, s, t);
  }

  lemma OtherStepKeeps(env: Env, s: System, a: Action)
    requires Inv(env, s) && Enabled(env, s, a) && !OfFull(a) && !OfRefresh(a)
    ensures Inv(env, Next(env, s, a))
  {
    match a
    case Connect(c, payout) => ConnectStep(env, s, c, payout);
    case SetPayout(c, payout) => SetPayoutStep(env, s, c, payout);
    case ClaimWork(key) => ClaimStep(env, s, key);
    case GiveUp(t) => GiveUpStep(env, s, t);
  }

  lemma StepKeeps(env: Env, s: System, a: Action)
    requires Lawful(env) && Inv(env, s) && Enabled(env, s, a)
    ensures Inv(env, Next(env, s, a))
  {
    if OfFull(a) {
      FullStepKeeps(env, s, a);
    } else if OfRefresh(a) {
      RefreshStepKeeps(env, s, a);
    } else {
      OtherStepKeeps(env, s, a);
    }
  }

  // ---------- runs ----------

  ghost predicate IsRun(env: Env, cap: nat, states: seq<System>, actions: seq<Action>) {
    && |states| == |actions| + 1
    && states[0] == System(MergedPending.Empty(cap), None, map[], map[], map[])
    && forall k :: 0 <= k < |actions| ==>
         Enabled(env, states[k], actions[k]) && states[k + 1] == Next(env, states[k], actions[k])
  }

  lemma {:induction false} RunKeeps(env: Env, cap: nat, states: seq<System>, actions: seq<Action>, k: nat)
    requires Lawful(env) && IsRun(env, cap, states, actions) && k < |states|
    ensures Inv(env, states[k])
  {
    if k > 0 {
      RunKeeps(env, cap, states, actions, k - 1);
      StepKeeps(env, states[k - 1], actions[k - 1]);
      assert states[k - 1 + 1] == Next(env, states[k - 1], actions[k - 1]);
    }
  }

  /** A parent-only job has the key of the job before it: keys change at full-template jobs only. */
  lemma RefreshKeepsKey(env: Env, cap: nat, states: seq<System>, actions: seq<Action>, k: nat, c: Conn, i: nat)
    requires Lawful(env) && IsRun(env, cap, states, actions) && k < |states| && c in states[k].conns
    requires i < |states[k].conns[c].jobs| && states[k].conns[c].jobs[i].Refresh?
    ensures i > 0 && states[k].conns[c].jobs[i].parent.key == states[k].conns[c].jobs[i - 1].parent.key
  {
    RunKeeps(env, cap, states, actions, k);
    assert ConnOk(env, states[k].lanes, c, states[k].conns[c].jobs);
  }

  /** Once a connection has moved on from a key, it never publishes that key again. */
  lemma KeysNeverReturn(env: Env, cap: nat, states: seq<System>, actions: seq<Action>, n: nat, c: Conn, i: nat,
                        j: nat, k: nat)
    requires Lawful(env) && IsRun(env, cap, states, actions) && n < |states| && c in states[n].conns
    requires i < j < k < |states[n].conns[c].jobs|
    requires states[n].conns[c].jobs[i].parent.key != states[n].conns[c].jobs[j].parent.key
    ensures states[n].conns[c].jobs[k].parent.key != states[n].conns[c].jobs[i].parent.key
  {
    RunKeeps(env, cap, states, actions, n);
    var lanes, jobs := states[n].lanes, states[n].conns[c].jobs;
    assert ConnOk(env, lanes, c, jobs);
    assert JobOrder(lanes, jobs[i], jobs[j]) && JobOrder(lanes, jobs[j], jobs[k]);
  }

  /** Two connections never share a key. */
  lemma KeysArePrivate(env: Env, cap: nat, states: seq<System>, actions: seq<Action>, n: nat, c: Conn, d: Conn,
                       i: nat, j: nat)
    requires Lawful(env) && IsRun(env, cap, states, actions) && n < |states|
    requires c in states[n].conns && d in states[n].conns && c != d
    requires i < |states[n].conns[c].jobs| && j < |states[n].conns[d].jobs|
    ensures states[n].conns[c].jobs[i].parent.key != states[n].conns[d].jobs[j].parent.key
  {
    RunKeeps(env, cap, states, actions, n);
    assert ConnOk(env, states[n].lanes, c, states[n].conns[c].jobs);
    assert ConnOk(env, states[n].lanes, d, states[n].conns[d].jobs);
    assert JobOk(env, states[n].lanes, c, states[n].conns[c].jobs[i]);
    assert JobOk(env, states[n].lanes, d, states[n].conns[d].jobs[j]);
  }

  // ---------- the payee flag ----------

  /** What the recorded flag says a parent of this key pays: the pool, or the payout at the cut. */
  ghost predicate MatchesFlag(env: Env, s: System, parent: Parent)
    requires parent.Kaspa? && parent.key in s.lanes
  {
    Some(parent.pays) == if s.pending.PaidPool(parent.key) then env.pool else s.lanes[parent.key].payout
  }

  /** A full template's Kaspa parent pays what the flag says for as long as its key is resident. */
  lemma FullMatchesFlag(env: Env, cap: nat, states: seq<System>, actions: seq<Action>, n: nat, c: Conn, i: nat)
    requires Lawful(env) && IsRun(env, cap, states, actions) && n < |states| && c in states[n].conns
    requires i < |states[n].conns[c].jobs|
    requires var job := states[n].conns[c].jobs[i];
             job.Full? && job.parent.Kaspa? && job.parent.key in states[n].pending.map_
    ensures var job := states[n].conns[c].jobs[i];
            job.parent.key in states[n].lanes && MatchesFlag(env, states[n], job.parent)
  {
    RunKeeps(env, cap, states, actions, n);
    assert ConnOk(env, states[n].lanes, c, states[n].conns[c].jobs);
    assert JobOk(env, states[n].lanes, c, states[n].conns[c].jobs[i]);
  }

  /**
    A refreshed parent, while its key is resident, matches the flag exactly in these cases. For
    a lane cut for the pool: the lookup is forwarded, or the payout the refresh read is absent or
    the pool's own. For a lane cut for the miner: what that payout resolves to is the payout at
    the cut.
   */
  lemma RefreshMatchesFlagIff(env: Env, cap: nat, states: seq<System>, actions: seq<Action>, n: nat, c: Conn, i: nat)
    requires Lawful(env) && IsRun(env, cap, states, actions) && n < |states| && c in states[n].conns
    requires i < |states[n].conns[c].jobs|
    requires var job := states[n].conns[c].jobs[i]; job.Refresh? && job.parent.key in states[n].pending.map_
    ensures var s, job := states[n], states[n].conns[c].jobs[i];
            && job.parent.Kaspa? && job.parent.key in s.lanes
            && (MatchesFlag(env, s, job.parent) <==>
                if s.pending.PaidPool(job.parent.key) then env.forwards || job.payout.None? || job.payout == env.pool
                else PayOf(env, job.payout) == s.lanes[job.parent.key].payout)
  {
    RunKeeps(env, cap, states, actions, n);
    assert ConnOk(env, states[n].lanes, c, states[n].conns[c].jobs);
    assert JobOk(env, states[n].lanes, c, states[n].conns[c].jobs[i]);
  }

  /** With the payout still the one at the cut, only a lane cut for the pool can go wrong. */
  lemma SamePayoutMatchesIff(env: Env, cap: nat, states: seq<System>, actions: seq<Action>, n: nat, c: Conn, i: nat)
    requires Lawful(env) && IsRun(env, cap, states, actions) && n < |states| && c in states[n].conns
    requires i < |states[n].conns[c].jobs|
    requires var s, job := states[n], states[n].conns[c].jobs[i];
             && job.Refresh? && job.parent.key in s.pending.map_ && job.parent.key in s.lanes
             && job.payout == s.lanes[job.parent.key].payout
    ensures var s, job := states[n], states[n].conns[c].jobs[i];
            && job.parent.Kaspa?
            && (MatchesFlag(env, s, job.parent) <==>
                env.forwards || !s.pending.PaidPool(job.parent.key) || job.payout.None? || job.payout == env.pool)
  {
    RunKeeps(env, cap, states, actions, n);
    RefreshMatchesFlagIff(env, cap, states, actions, n, c, i);
  }

  // ---------- refreshes that contradict the flag ----------

  /**
    One family of runs. A connection with a payout of its own cuts a template, in its fee minute
    or not, and publishes it; its payout is set to `later`; then the template is refreshed.
   */
  datatype Story = Story(pool: Addr, payout: Addr, fee: bool, later: Option<Addr>) {
    function Payee(): Option<Addr> {
      if fee then None else Some(payout)
    }

    function CutPays(): Addr {
      if fee then pool else payout
    }

    function RefreshedPayee(forwards: bool): Option<Addr> {
      if forwards && fee then None else later
    }

    function RefreshedPays(forwards: bool): Addr {
      RefreshedPayee(forwards).GetOr(pool)
    }
  }

  function StoryKey(env: Env): Key {
    env.keyOf(Template(0, 1, 0))
  }

  function CachedFor(key: Key, pays: Addr): Option<Cached> {
    Some(Cached(key, pays, Kaspa(key, pays, 0)))
  }

  /** The system while the template is being cut. */
  function Cutting(env: Env, cap: nat, y: Story, stage: FullStage): System {
    var key := StoryKey(env);
    System(if stage.Stored? then StoryPending(env, cap, y) else Empty(cap),
           if stage.Parented? || stage.Stored? then CachedFor(key, y.CutPays()) else None,
           map[0 := Connection([], Some(0), Some(y.payout), 1)], map[0 := FullTask(0, Some(y.payout), stage)],
           if stage.Stored? then StoryLanes(env, y) else map[])
  }

  function StoryPending(env: Env, cap: nat, y: Story): Pending<Template> {
    var key := StoryKey(env);
    Pending(map[key := Template(0, 1, 0)], if y.fee then {key} else {}, [key], {}, Capacity(cap))
  }

  function StoryLanes(env: Env, y: Story): map<Key, Lane> {
    map[StoryKey(env) := Lane(Template(0, 1, 0), Some(y.payout), y.Payee())]
  }

  /** The system after publication, with these jobs, this payout and these tasks. */
  function Published(env: Env, cap: nat, y: Story, cachePays: Addr, jobs: seq<Job>, payout: Option<Addr>,
                     tasks: map<TaskId, Task>): System
  {
    var key := StoryKey(env);
    System(StoryPending(env, cap, y), CachedFor(key, cachePays),
           map[0 := Connection(jobs, None, payout, 1)], tasks, StoryLanes(env, y))
  }

  function Refreshing(env: Env, cap: nat, y: Story, stage: RefreshStage): System {
    var key := StoryKey(env);
    Published(env, cap, y, if stage.Fetched? then y.RefreshedPays(env.forwards) else y.CutPays(),
              [Full(Kaspa(key, y.CutPays(), 0))], y.later, map[0 := RefreshTask(0, key, stage)])
  }

  function StoryAt(env: Env, cap: nat, y: Story, k: nat): System {
    var key, template := StoryKey(env), Template(0, 1, 0);
    var cut, fresh_ := Kaspa(key, y.CutPays(), 0), Kaspa(key, y.RefreshedPays(env.forwards), 0);
    var payee := y.RefreshedPayee(env.forwards);
    if k == 0 then System(Empty(cap), None, map[], map[], map[])
    else if k == 1 then System(Empty(cap), None, map[0 := Connection([], None, Some(y.payout), 0)], map[], map[])
    else if k == 2 then Cutting(env, cap, y, Asked)
    else if k == 3 then Cutting(env, cap, y, Cut(template, y.Payee()))
    else if k == 4 then Cutting(env, cap, y, Parented(template, y.Payee(), cut))
    else if k == 5 then Cutting(env, cap, y, Stored(cut))
    else if k == 6 then Published(env, cap, y, y.CutPays(), [Full(cut)], Some(y.payout), map[])
    else if k == 7 then Published(env, cap, y, y.CutPays(), [Full(cut)], y.later, map[])
    else if k == 8 then Refreshing(env, cap, y, Started)
    else if k == 9 then Refreshing(env, cap, y, Flagged(env.forwards && y.fee))
    else if k == 10 then Refreshing(env, cap, y, Payed(payee, y.later))
    else if k == 11 then Refreshing(env, cap, y, Checked(payee, y.later))
    else if k == 12 then Refreshing(env, cap, y, Got(template, payee, y.later))
    else if k == 13 then Refreshing(env, cap, y, Fetched(fresh_, payee, y.later))
    else Published(env, cap, y, y.RefreshedPays(env.forwards), [Full(cut), Refresh(fresh_, y.later)], y.later, map[])
  }

  function StoryAction(y: Story, k: nat): Action {
    if k == 0 then Connect(0, Some(y.payout)) else if k == 1 then StartFull(0, 0)
    else if k == 2 then CutTemplate(0, 0, y.fee) else if k == 3 then FetchFull(0, Luck(false, Some(0)))
    else if k == 4 then StoreWork(0) else if k == 5 then PublishFull(0) else if k == 6 then SetPayout(0, y.later)
    else if k == 7 then StartRefresh(0, 0) else if k == 8 then LookUpFlag(0) else if k == 9 then ReadPayout(0)
    else if k == 10 then CheckUnsolved(0) else if k == 11 then GetTemplate(0) else if k == 12 then FetchRefresh(0, 0)
    else PublishRefresh(0)
  }

  lemma CuttingSteps(env: Env, cap: nat, y: Story, k: nat)
    requires env.pool == Some(y.pool) && k < 3
    ensures Enabled(env, StoryAt(env, cap, y, k), StoryAction(y, k))
    ensures StoryAt(env, cap, y, k + 1) == Next(env, StoryAt(env, cap, y, k), StoryAction(y, k))
  {
  }

  lemma StoringSteps(env: Env, cap: nat, y: Story, k: nat)
    requires env.pool == Some(y.pool) && 3 <= k < 5
    ensures Enabled(env, StoryAt(env, cap, y, k), StoryAction(y, k))
    ensures StoryAt(env, cap, y, k + 1) == Next(env, StoryAt(env, cap, y, k), StoryAction(y, k))
  {
  }

  lemma PublishingStep(env: Env, cap: nat, y: Story, k: nat)
    requires env.pool == Some(y.pool) && k == 5
    ensures Enabled(env, StoryAt(env, cap, y, k), StoryAction(y, k))
    ensures StoryAt(env, cap, y, k + 1) == Next(env, StoryAt(env, cap, y, k), StoryAction(y, k))
  {
    var s := StoryAt(env, cap, y, k);
    assert s.tasks - {0} == map[];
    assert s.conns[0].jobs + [Full(s.tasks[0].full.parent)] == [Full(s.tasks[0].full.parent)];
  }

  lemma RefreshBegins(env: Env, cap: nat, y: Story, k: nat)
    requires env.pool == Some(y.pool) && 6 <= k < 9
    ensures Enabled(env, StoryAt(env, cap, y, k), StoryAction(y, k))
    ensures StoryAt(env, cap, y, k + 1) == Next(env, StoryAt(env, cap, y, k), StoryAction(y, k))
  {
  }

  lemma RefreshReads(env: Env, cap: nat, y: Story, k: nat)
    requires env.pool == Some(y.pool) && 9 <= k < 11
    ensures Enabled(env, StoryAt(env, cap, y, k), StoryAction(y, k))
    ensures StoryAt(env, cap, y, k + 1) == Next(env, StoryAt(env, cap, y, k), StoryAction(y, k))
  {
  }

  lemma RefreshGets(env: Env, cap: nat, y: Story, k: nat)
    requires env.pool == Some(y.pool) && k == 11
    ensures Enabled(env, StoryAt(env, cap, y, k), StoryAction(y, k))
    ensures StoryAt(env, cap, y, k + 1) == Next(env, StoryAt(env, cap, y, k), StoryAction(y, k))
  {
  }

  lemma RefreshFetches(env: Env, cap: nat, y: Story, k: nat)
    requires env.pool == Some(y.pool) && k == 12
    ensures Enabled(env, StoryAt(env, cap, y, k), StoryAction(y, k))
    ensures StoryAt(env, cap, y, k + 1) == Next(env, StoryAt(env, cap, y, k), StoryAction(y, k))
  {
  }

  lemma RefreshPublishes(env: Env, cap: nat, y: Story, k: nat)
    requires env.pool == Some(y.pool) && k == 13
    ensures Enabled(env, StoryAt(env, cap, y, k), StoryAction(y, k))
    ensures StoryAt(env, cap, y, k + 1) == Next(env, StoryAt(env, cap, y, k), StoryAction(y, k))
  {
    var s := StoryAt(env, cap, y, k);
    var job := Refresh(s.tasks[0].refresh.parent, s.tasks[0].refresh.payout);
    assert s.tasks - {0} == map[];
    assert s.conns[0].jobs + [job] == [s.conns[0].jobs[0], job];
  }

  lemma CutIsRun(env: Env, cap: nat, y: Story, k: nat)
    requires env.pool == Some(y.pool) && k < 6
    ensures Enabled(env, StoryAt(env, cap, y, k), StoryAction(y, k))
    ensures StoryAt(env, cap, y, k + 1) == Next(env, StoryAt(env, cap, y, k), StoryAction(y, k))
  {
    if k < 3 {
      CuttingSteps(env, cap, y, k);
    } else if k < 5 {
      StoringSteps(env, cap, y, k);
    } else {
      PublishingStep(env, cap, y, k);
    }
  }

  lemma RefreshIsRun(env: Env, cap: nat, y: Story, k: nat)
    requires env.pool == Some(y.pool) && 6 <= k < 14
    ensures Enabled(env, StoryAt(env, cap, y, k), StoryAction(y, k))
    ensures StoryAt(env, cap, y, k + 1) == Next(env, StoryAt(env, cap, y, k), StoryAction(y, k))
  {
    if k < 9 {
      RefreshBegins(env, cap, y, k);
    } else if k < 11 {
      RefreshReads(env, cap, y, k);
    } else if k == 11 {
      RefreshGets(env, cap, y, k);
    } else if k == 12 {
      RefreshFetches(env, cap, y, k);
    } else {
      RefreshPublishes(env, cap, y, k);
    }
  }

  ghost predicate IsStory(env: Env, cap: nat, y: Story, states: seq<System>, actions: seq<Action>) {
    && |states| == 15 && |actions| == 14
    && (forall k :: 0 <= k < 15 ==> states[k] == StoryAt(env, cap, y, k))
    && (forall k :: 0 <= k < 14 ==> actions[k] == StoryAction(y, k))
  }

  /** Every member of the family is a run, with or without the forwarding. */
  lemma StoryIsRun(env: Env, cap: nat, y: Story, states: seq<System>, actions: seq<Action>)
    requires env.pool == Some(y.pool) && IsStory(env, cap, y, states, actions)
    ensures IsRun(env, cap, states, actions)
  {
    forall k | 0 <= k < 14
      ensures Enabled(env, states[k], actions[k]) && states[k + 1] == Next(env, states[k], actions[k])
    {
      if k < 6 {
        CutIsRun(env, cap, y, k);
      } else {
        RefreshIsRun(env, cap, y, k);
      }
    }
  }

  /** The connection's second job is a refresh of a resident key that pays against the flag. */
  ghost predicate SecondJobContradictsFlag(env: Env, s: System) {
    && 0 in s.conns && |s.conns[0].jobs| == 2
    && var job := s.conns[0].jobs[1];
       && job.Refresh? && job.parent.Kaspa? && job.parent.key in s.pending.map_ && job.parent.key in s.lanes
       && !MatchesFlag(env, s, job.parent)
  }

  /**
    Without the forwarding, for every capacity and every payout that is not the pool's: the
    template is cut for the pool in the fee minute and its refresh pays the connection.
   */
  lemma RefreshCanContradictFlag(env: Env, cap: nat, y: Story, states: seq<System>, actions: seq<Action>)
    requires env.pool == Some(y.pool) && IsStory(env, cap, y, states, actions)
    requires !env.forwards && y.fee && y.later == Some(y.payout) && y.payout != y.pool
    ensures IsRun(env, cap, states, actions) && SecondJobContradictsFlag(env, states[14])
  {
    StoryIsRun(env, cap, y, states, actions);
    assert states[14] == StoryAt(env, cap, y, 14);
  }

  /**
    With or without the forwarding: the template is cut for the miner, whose payout is cleared or
    replaced before the refresh, which then pays the pool or the new payout.
   */
  lemma ChangedPayoutContradictsFlag(env: Env, cap: nat, y: Story, states: seq<System>, actions: seq<Action>)
    requires env.pool == Some(y.pool) && IsStory(env, cap, y, states, actions)
    requires !y.fee && PayOf(env, y.later) != Some(y.payout)
    ensures IsRun(env, cap, states, actions) && SecondJobContradictsFlag(env, states[14])
  {
    StoryIsRun(env, cap, y, states, actions);
    assert states[14] == StoryAt(env, cap, y, 14);
  }
}

/**
  Where the jobs of a run come from: every published refresh, and every key's payee, is traced
  back to the actions that decided it (bridge/src/client_handler.rs, bridge/src/kaspaapi.rs).
 */
module JobOrigins {
  import opened Wrappers
  import opened MergedPending
  import opened MergedJobs

  // ---------- full templates ----------

  predicate IsCut(s: System, t: TaskId, c: Conn, payout: Option<Addr>, template: Template, payee: Option<Addr>) {
    && t in s.tasks && s.tasks[t].FullTask? && s.tasks[t].conn == c && s.tasks[t].payout == payout
    && (s.tasks[t].full.Cut? || s.tasks[t].full.Parented?)
    && s.tasks[t].full.template == template && s.tasks[t].full.payee == payee
  }

  predicate IsBuilding(s: System, t: TaskId, c: Conn, payout: Option<Addr>) {
    t in s.tasks && s.tasks[t].FullTask? && s.tasks[t].conn == c && s.tasks[t].payout == payout
  }

  lemma StepStarts(env: Env, s: System, a: Action, t: TaskId, c: Conn, payout: Option<Addr>)
    requires Enabled(env, s, a) && IsBuilding(Next(env, s, a), t, c, payout)
    ensures IsBuilding(s, t, c, payout) || (a == StartFull(t, c) && c in s.conns && s.conns[c].payout == payout)
  {
  }

  lemma StepCuts(env: Env, s: System, a: Action, t: TaskId, c: Conn, payout: Option<Addr>, template: Template,
                 payee: Option<Addr>)
    requires Enabled(env, s, a) && IsCut(Next(env, s, a), t, c, payout, template, payee)
    ensures || IsCut(s, t, c, payout, template, payee)
            || (&& a.CutTemplate? && a.task == t && a.body == template.body && IsBuilding(s, t, c, payout)
                && template.session == c && payee == if a.feeMinute then None else payout)
  {
  }

  lemma StepStores(env: Env, s: System, a: Action, key: Key)
    requires Enabled(env, s, a) && key in Next(env, s, a).lanes
    ensures var lane := Next(env, s, a).lanes[key];
            || (key in s.lanes && s.lanes[key] == lane)
            || (&& a.StoreWork? && a.task in s.tasks
                && IsCut(s, a.task, s.tasks[a.task].conn, lane.payout, lane.template, lane.payee))
  {
  }

  lemma {:induction false} WasStarted(env: Env, cap: nat, states: seq<System>, actions: seq<Action>, k: nat, t: TaskId,
                                      c: Conn, payout: Option<Addr>)
    returns (i: nat)
    requires MergedJobs.IsRun(env, cap, states, actions) && k < |states| && IsBuilding(states[k], t, c, payout)
    ensures i < k && actions[i] == StartFull(t, c) && c in states[i].conns && states[i].conns[c].payout == payout
  {
    assert k > 0;
    assert states[k - 1 + 1] == Next(env, states[k - 1], actions[k - 1]);
    StepStarts(env, states[k - 1], actions[k - 1], t, c, payout);
    if IsBuilding(states[k - 1], t, c, payout) {
      i := WasStarted(env, cap, states, actions, k - 1, t, c, payout);
    } else {
      i := k - 1;
    }
  }

  lemma {:induction false} WasCut(env: Env, cap: nat, states: seq<System>, actions: seq<Action>, k: nat, t: TaskId,
                                  c: Conn, payout: Option<Addr>, template: Template, payee: Option<Addr>)
    returns (j: nat)
    requires MergedJobs.IsRun(env, cap, states, actions) && k < |states|
    requires IsCut(states[k], t, c, payout, template, payee)
    ensures j < k && actions[j].CutTemplate? && actions[j].task == t && actions[j].body == template.body
    ensures IsBuilding(states[j], t, c, payout) && template.session == c
    ensures payee == if actions[j].feeMinute then None else payout
  {
    assert k > 0;
    assert states[k - 1 + 1] == Next(env, states[k - 1], actions[k - 1]);
    StepCuts(env, states[k - 1], actions[k - 1], t, c, payout, template, payee);
    if IsCut(states[k - 1], t, c, payout, template, payee) {
      j := WasCut(env, cap, states, actions, k - 1, t, c, payout, template, payee);
    } else {
      j := k - 1;
    }
  }

  /**
    In every run, a key's payee was decided by two actions: a task that started with the payout its
    connection had at `i`, and its template, cut at `j`. It is the pool in the fee minute or without
    a payout, and that payout otherwise.
   */
  lemma {:induction false} PayeeWasDecided(env: Env, cap: nat, states: seq<System>, actions: seq<Action>, k: nat,
                                           key: Key)
    returns (i: nat, j: nat)
    requires MergedJobs.IsRun(env, cap, states, actions) && k < |states| && key in states[k].lanes
    ensures i < j < k && actions[i].StartFull? && actions[j].CutTemplate? && actions[i].task == actions[j].task
    ensures var lane, c := states[k].lanes[key], actions[i].conn;
            && lane.template.session == c && lane.template.body == actions[j].body
            && c in states[i].conns && lane.payout == states[i].conns[c].payout
            && lane.payee == if actions[j].feeMinute then None else states[i].conns[c].payout
  {
    assert k > 0;
    assert states[k - 1 + 1] == Next(env, states[k - 1], actions[k - 1]);
    StepStores(env, states[k - 1], actions[k - 1], key);
    var lane := states[k].lanes[key];
    if key in states[k - 1].lanes && states[k - 1].lanes[key] == lane {
      i, j := PayeeWasDecided(env, cap, states, actions, k - 1, key);
    } else {
      var t := actions[k - 1].task;
      var c := states[k - 1].tasks[t].conn;
      j := WasCut(env, cap, states, actions, k - 1, t, c, lane.payout, lane.template, lane.payee);
      i := WasStarted(env, cap, states, actions, j, t, c, lane.payout);
    }
  }

  // ---------- refreshes ----------

  predicate IsPayed(s: System, t: TaskId, c: Conn, key: Key, payout: Option<Addr>) {
    && t in s.tasks && s.tasks[t].RefreshTask? && s.tasks[t].conn == c && s.tasks[t].key == key
    && var stage := s.tasks[t].refresh;
       (stage.Payed? || stage.Checked? || stage.Got? || stage.Fetched?) && stage.payout == payout
  }

  predicate IsChecked(s: System, t: TaskId, c: Conn, key: Key) {
    && t in s.tasks && s.tasks[t].RefreshTask? && s.tasks[t].conn == c && s.tasks[t].key == key
    && var stage := s.tasks[t].refresh; stage.Checked? || stage.Got? || stage.Fetched?
  }

  predicate IsFetched(s: System, t: TaskId, c: Conn, key: Key, parent: Parent, payout: Option<Addr>) {
    && t in s.tasks && s.tasks[t].RefreshTask? && s.tasks[t].conn == c && s.tasks[t].key == key
    && s.tasks[t].refresh.Fetched? && s.tasks[t].refresh.parent == parent && s.tasks[t].refresh.payout == payout
  }

  lemma StepPays(env: Env, s: System, a: Action, t: TaskId, c: Conn, key: Key, payout: Option<Addr>)
    requires Enabled(env, s, a) && IsPayed(Next(env, s, a), t, c, key, payout)
    ensures IsPayed(s, t, c, key, payout) || (a == ReadPayout(t) && c in s.conns && s.conns[c].payout == payout)
  {
  }

  lemma StepChecks(env: Env, s: System, a: Action, t: TaskId, c: Conn, key: Key)
    requires Enabled(env, s, a) && IsChecked(Next(env, s, a), t, c, key)
    ensures || IsChecked(s, t, c, key)
            || (a == CheckUnsolved(t) && key in s.pending.map_ && key !in s.pending.solved)
  {
  }

  lemma StepFetches(env: Env, s: System, a: Action, t: TaskId, c: Conn, key: Key, parent: Parent, payout: Option<Addr>)
    requires Enabled(env, s, a) && IsFetched(Next(env, s, a), t, c, key, parent, payout)
    ensures || IsFetched(s, t, c, key, parent, payout)
            || (parent.Kaspa? && a == FetchRefresh(t, parent.body))
    ensures IsPayed(Next(env, s, a), t, c, key, payout) && IsChecked(Next(env, s, a), t, c, key)
  {
  }

  lemma StepPublishes(env: Env, s: System, a: Action, c: Conn, i: nat)
    requires Enabled(env, s, a) && c in Next(env, s, a).conns && i < |Next(env, s, a).conns[c].jobs|
    requires Next(env, s, a).conns[c].jobs[i].Refresh?
    ensures var job := Next(env, s, a).conns[c].jobs[i];
            || (c in s.conns && i < |s.conns[c].jobs| && s.conns[c].jobs[i] == job)
            || (&& a.PublishRefresh? && c in s.conns && s.conns[c].jobs != []
                && s.conns[c].jobs[|s.conns[c].jobs| - 1].parent.key == s.tasks[a.task].key
                && IsFetched(s, a.task, c, s.tasks[a.task].key, job.parent, job.payout))
  {
  }

  lemma {:induction false} WasPayed(env: Env, cap: nat, states: seq<System>, actions: seq<Action>, k: nat, t: TaskId,
                                    c: Conn, key: Key, payout: Option<Addr>)
    returns (j: nat)
    requires MergedJobs.IsRun(env, cap, states, actions) && k < |states| && IsPayed(states[k], t, c, key, payout)
    ensures j < k && actions[j] == ReadPayout(t) && c in states[j].conns && states[j].conns[c].payout == payout
  {
    assert k > 0;
    assert states[k - 1 + 1] == Next(env, states[k - 1], actions[k - 1]);
    StepPays(env, states[k - 1], actions[k - 1], t, c, key, payout);
    if IsPayed(states[k - 1], t, c, key, payout) {
      j := WasPayed(env, cap, states, actions, k - 1, t, c, key, payout);
    } else {
      j := k - 1;
    }
  }

  lemma {:induction false} WasChecked(env: Env, cap: nat, states: seq<System>, actions: seq<Action>, k: nat, t: TaskId,
                                      c: Conn, key: Key)
    returns (j: nat)
    requires MergedJobs.IsRun(env, cap, states, actions) && k < |states| && IsChecked(states[k], t, c, key)
    ensures j < k && actions[j] == CheckUnsolved(t) && key in states[j].pending.map_ && key !in states[j].pending.solved
  {
    assert k > 0;
    assert states[k - 1 + 1] == Next(env, states[k - 1], actions[k - 1]);
    StepChecks(env, states[k - 1], actions[k - 1], t, c, key);
    if IsChecked(states[k - 1], t, c, key) {
      j := WasChecked(env, cap, states, actions, k - 1, t, c, key);
    } else {
      j := k - 1;
    }
  }

  lemma {:induction false} WasFetched(env: Env, cap: nat, states: seq<System>, actions: seq<Action>, k: nat, t: TaskId,
                                      c: Conn, key: Key, parent: Parent, payout: Option<Addr>)
    returns (j: nat)
    requires MergedJobs.IsRun(env, cap, states, actions) && k < |states|
    requires IsFetched(states[k], t, c, key, parent, payout)
    ensures j < k && parent.Kaspa? && actions[j] == FetchRefresh(t, parent.body)
  {
    assert k > 0;
    assert states[k - 1 + 1] == Next(env, states[k - 1], actions[k - 1]);
    StepFetches(env, states[k - 1], actions[k - 1], t, c, key, parent, payout);
    if IsFetched(states[k - 1], t, c, key, parent, payout) {
      j := WasFetched(env, cap, states, actions, k - 1, t, c, key, parent, payout);
    } else {
      j := k - 1;
    }
  }

  /** Where a published refresh comes from: the actions that read its payout, checked its key and fetched its parent. */
  datatype Origin = Origin(task: TaskId, read: nat, checked: nat, fetched: nat, published: nat)

  lemma {:induction false} WasPublished(env: Env, cap: nat, states: seq<System>, actions: seq<Action>, k: nat, c: Conn,
                                        i: nat)
    returns (j: nat)
    requires MergedJobs.IsRun(env, cap, states, actions) && k < |states| && c in states[k].conns
    requires i < |states[k].conns[c].jobs| && states[k].conns[c].jobs[i].Refresh?
    ensures j < k && actions[j].PublishRefresh? && actions[j].task in states[j].tasks
    ensures var job, t := states[k].conns[c].jobs[i], actions[j].task;
            && c in states[j].conns && states[j].conns[c].jobs != []
            && states[j].conns[c].jobs[|states[j].conns[c].jobs| - 1].parent.key == states[j].tasks[t].key
            && IsFetched(states[j], t, c, states[j].tasks[t].key, job.parent, job.payout)
  {
    assert k > 0;
    assert states[k - 1 + 1] == Next(env, states[k - 1], actions[k - 1]);
    StepPublishes(env, states[k - 1], actions[k - 1], c, i);
    var conns := states[k - 1].conns;
    if c in conns && i < |conns[c].jobs| && conns[c].jobs[i] == states[k].conns[c].jobs[i] {
      j := WasPublished(env, cap, states, actions, k - 1, c, i);
    } else {
      j := k - 1;
    }
  }

  lemma FetchedKey(env: Env, s: System, t: TaskId, c: Conn, key: Key, parent: Parent, payout: Option<Addr>)
    requires Inv(env, s) && IsFetched(s, t, c, key, parent, payout)
    ensures parent.key == key
  {
    assert TaskOk(env, s, t);
  }

  /** What a task that has fetched its parent did before. */
  ghost predicate Did(states: seq<System>, actions: seq<Action>, k: nat, o: Origin, c: Conn, key: Key, parent: Parent,
                      payout: Option<Addr>)
    requires k <= |actions| < |states|
  {
    && o.read < k && o.checked < k && o.fetched < k
    && actions[o.read] == ReadPayout(o.task) && actions[o.checked] == CheckUnsolved(o.task)
    && parent.Kaspa? && actions[o.fetched] == FetchRefresh(o.task, parent.body)
    && c in states[o.read].conns && payout == states[o.read].conns[c].payout
    && key in states[o.checked].pending.map_ && key !in states[o.checked].pending.solved
  }

  lemma FetchedDid(env: Env, cap: nat, states: seq<System>, actions: seq<Action>, k: nat, t: TaskId, c: Conn, key: Key,
                   parent: Parent, payout: Option<Addr>)
    returns (o: Origin)
    requires MergedJobs.IsRun(env, cap, states, actions) && k < |states|
    requires IsFetched(states[k], t, c, key, parent, payout)
    ensures o.task == t && o.published == k && Did(states, actions, k, o, c, key, parent, payout)
  {
    var r := WasPayed(env, cap, states, actions, k, t, c, key, payout);
    var m := WasChecked(env, cap, states, actions, k, t, c, key);
    var f := WasFetched(env, cap, states, actions, k, t, c, key, parent, payout);
    o := Origin(t, r, m, f, k);
  }

  /**
    In every run, a published refresh rests on what one task did: it read the connection's payout of
    that moment, found its key resident and not yet solved, and got its parent from the node by a
    fetch of its own rather than from the cache.
   */
  lemma RefreshHasOrigin(env: Env, cap: nat, states: seq<System>, actions: seq<Action>, k: nat, c: Conn, i: nat)
    returns (o: Origin)
    requires Lawful(env) && MergedJobs.IsRun(env, cap, states, actions) && k < |states| && c in states[k].conns
    requires i < |states[k].conns[c].jobs| && states[k].conns[c].jobs[i].Refresh?
    ensures o.published < k && actions[o.published] == PublishRefresh(o.task)
    ensures var job := states[k].conns[c].jobs[i];
            Did(states, actions, o.published, o, c, job.parent.key, job.parent, job.payout)
  {
    var j := WasPublished(env, cap, states, actions, k, c, i);
    var job, t := states[k].conns[c].jobs[i], actions[j].task;
    var key := states[j].tasks[t].key;
    o := FetchedDid(env, cap, states, actions, j, t, c, key, job.parent, job.payout);
    RunKeeps(env, cap, states, actions, j);
    FetchedKey(env, states[j], t, c, key, job.parent, job.payout);
  }
}

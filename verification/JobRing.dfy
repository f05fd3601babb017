/**
  The per-connection job store (bridge/src/mining_state.rs, `MiningState`): three slot maps
  under `id % 300` and a counter. The store is compared with the plain list of everything
  that was ever published on the connection.
 */
module JobRing {
  import opened Wrappers

  const MAX_JOBS := 300

  datatype Publication<J, D> = Publication(job: J, diff: Option<D>)

  /** Reference: the `id`-th publication, visible while it is among the last 300. */
  function Lookup<J, D>(published: seq<Publication<J, D>>, id: nat): Option<Publication<J, D>> {
    if 1 <= id <= |published| && |published| - 300 < id then Some(published[id - 1]) else None
  }

  datatype Ring<J, D> = Ring(jobs: map<nat, J>, jobIds: map<nat, nat>, jobDiffs: map<nat, D>, counter: nat) {
    /** What `add_job` does to the maps, with the difficulty in force. */
    function Add(job: J, diff: Option<D>): Ring<J, D> {
      var id := counter + 1;
      var slot := id % MAX_JOBS;
      Ring(jobs[slot := job], jobIds[slot := id],
           match diff { case Some(d) => jobDiffs[slot := d] case None => jobDiffs - {slot} }, id)
    }

    predicate Stores(id: nat) {
      id % MAX_JOBS in jobIds && jobIds[id % MAX_JOBS] == id
    }

    /** The slot maps hold the last 300 publications and no other id. */
    ghost predicate Holds(published: seq<Publication<J, D>>) {
      && counter == |published|
      && (forall id: nat :: Stores(id) <==> 1 <= id <= counter && counter - MAX_JOBS < id)
      && (forall id: nat :: Stores(id) ==> HoldsAt(id, published[id - 1]))
      && (forall slot :: slot in jobIds ==> jobIds[slot] % MAX_JOBS == slot)
    }

    ghost predicate HoldsAt(id: nat, p: Publication<J, D>) {
      var slot := id % MAX_JOBS;
      && slot in jobs && jobs[slot] == p.job
      && p.diff == if slot in jobDiffs then Some(jobDiffs[slot]) else None
    }
  }

  /** Two ids that share a slot are at least 300 apart. */
  lemma SameSlot(a: nat, b: nat)
    requires a < b && a % MAX_JOBS == b % MAX_JOBS
    ensures b - a >= MAX_JOBS
  {
  }

  lemma AddStores<J, D>(r: Ring<J, D>, job: J, diff: Option<D>, published: seq<Publication<J, D>>, id: nat)
    requires r.Holds(published)
    ensures r.Add(job, diff).Stores(id) <==> id == r.counter + 1 || (r.Stores(id) && id != r.counter + 1 - MAX_JOBS)
    ensures id % MAX_JOBS != (r.counter + 1) % MAX_JOBS ==> (r.Add(job, diff).Stores(id) <==> r.Stores(id))
  {
    if id % MAX_JOBS == (r.counter + 1) % MAX_JOBS && r.Stores(id) {
      SameSlot(id, r.counter + 1);
    }
  }

  /** Publishing a job keeps the store equal to the last 300 publications. */
  lemma AddHolds<J, D>(r: Ring<J, D>, job: J, diff: Option<D>, published: seq<Publication<J, D>>)
    requires r.Holds(published)
    ensures r.Add(job, diff).Holds(published + [Publication(job, diff)])
  {
    var q, now := r.Add(job, diff), published + [Publication(job, diff)];
    forall id: nat
      ensures q.Stores(id) <==> 1 <= id <= q.counter && q.counter - MAX_JOBS < id
      ensures q.Stores(id) ==> q.HoldsAt(id, now[id - 1])
    {
      AddStores(r, job, diff, published, id);
      if q.Stores(id) && id != q.counter {
        assert r.HoldsAt(id, published[id - 1]);
        if id % MAX_JOBS == q.counter % MAX_JOBS {
          SameSlot(id, q.counter);
        }
      }
    }
  }

  class MiningState<J, D> {
    var jobs: map<nat, J>
    var jobIds: map<nat, nat>
    var jobDiffs: map<nat, D>
    var jobCounter: nat
    var stratumDiff: Option<D>
    /** Everything published so far, oldest first. */
    ghost var published: seq<Publication<J, D>>

    function Snapshot(): Ring<J, D>
      reads this
    {
      Ring(jobs, jobIds, jobDiffs, jobCounter)
    }

    ghost predicate Valid()
      reads this
    {
      Snapshot().Holds(published)
    }

    constructor ()
      ensures Valid() && published == [] && stratumDiff == None
    {
      jobs, jobIds, jobDiffs, jobCounter, stratumDiff := map[], map[], map[], 0, None;
      published := [];
    }

    method SetStratumDiff(diff: D)
      requires Valid()
      modifies this
      ensures Valid() && published == old(published) && stratumDiff == Some(diff)
    {
      stratumDiff := Some(diff);
    }

    method AddJob(job: J) returns (id: nat)
      requires Valid()
      modifies this
      ensures Valid() && stratumDiff == old(stratumDiff)
      ensures published == old(published) + [Publication(job, stratumDiff)] && id == |published|
    {
      AddHolds(Snapshot(), job, stratumDiff, published);
      jobCounter := jobCounter + 1;
      id := jobCounter;
      var slot := id % MAX_JOBS;
      jobs := jobs[slot := job];
      jobIds := jobIds[slot := id];
      if stratumDiff.Some? {
        jobDiffs := jobDiffs[slot := stratumDiff.value];
      } else {
        jobDiffs := jobDiffs - {slot};
      }
      published := published + [Publication(job, stratumDiff)];
    }

    /** The exact job of an id, never a newer one in the same slot. */
    method GetJob(id: nat) returns (r: Option<J>)
      requires Valid()
      ensures r == match Lookup(published, id) { case Some(p) => Some(p.job) case None => None }
    {
      var slot := id % MAX_JOBS;
      assert Snapshot().Stores(id) <==> Lookup(published, id).Some?;
      if slot !in jobIds || jobIds[slot] != id {
        return None;
      }
      assert Snapshot().HoldsAt(id, published[id - 1]);
      return Some(jobs[slot]);
    }

    /** The difficulty in force when that exact job was published. */
    method GetJobDiff(id: nat) returns (r: Option<D>)
      requires Valid()
      ensures r == match Lookup(published, id) { case Some(p) => p.diff case None => None }
    {
      var slot := id % MAX_JOBS;
      assert Snapshot().Stores(id) <==> Lookup(published, id).Some?;
      if slot !in jobIds || jobIds[slot] != id {
        return None;
      }
      assert Snapshot().HoldsAt(id, published[id - 1]);
      return if slot in jobDiffs then Some(jobDiffs[slot]) else None;
    }

    /** The newest stored id, found by scanning the stored ids, and its job. */
    method LatestJob() returns (r: Option<(nat, J)>)
      requires Valid()
      ensures r == if published == [] then None else Some((|published|, published[|published| - 1].job))
    {
      var best: Option<nat> := None;
      var left := jobIds.Keys;
      while left != {}
        invariant left <= jobIds.Keys
        invariant best.Some? ==> exists s :: s in jobIds.Keys - left && jobIds[s] == best.value
        invariant forall s :: s in jobIds.Keys - left ==> best.Some? && jobIds[s] <= best.value
        decreases |left|
      {
        var s :| s in left;
        left := left - {s};
        if best.None? || best.value < jobIds[s] {
          best := Some(jobIds[s]);
        }
      }
      ghost var newest := |published|;
      assert published != [] ==> Snapshot().Stores(newest);
      if best.None? {
        return None;
      }
      assert Snapshot().Stores(best.value);
      var job := GetJob(best.value);
      return match job { case Some(j) => Some((best.value, j)) case None => None };
    }
  }
}

/**
  The duplicate-submission guard (bridge/src/kaspaapi.rs, `BlockSubmitGuard`): a map from
  block hash to the time it was marked, and a queue of hashes in marking order. `remove`
  drops a hash from the map and leaves it in the queue, so the queue can hold stale and
  repeated hashes.

  Times are instants as integers. `Instant::duration_since` saturates at zero.
 */
module SubmitGuard {
  import opened Wrappers

  type Hash = nat

  function Age(now: int, then_: int): int {
    if now >= then_ then now - then_ else 0
  }

  datatype Guard = Guard(entries: map<Hash, int>, order: seq<Hash>) {
    /** Every stored hash is somewhere in the queue. */
    ghost predicate Valid() {
      forall h :: h in entries ==> h in order
    }

    /** A queue element the first pruning loop drops: already removed, or older than the TTL. */
    predicate Stale(h: Hash, now: int, ttl: nat) {
      h !in entries || Age(now, entries[h]) > ttl
    }

    /** First loop of `prune`: pop stale hashes off the front. */
    function DropStale(now: int, ttl: nat): Guard
      decreases |order|
    {
      if order != [] && Stale(order[0], now, ttl) then
        Guard(entries - {order[0]}, order[1..]).DropStale(now, ttl)
      else this
    }

    /** Second loop of `prune`: pop until at most `max` entries are left. */
    function Trim(max: nat): Guard
      decreases |order|
    {
      if |entries| > max && order != [] then Guard(entries - {order[0]}, order[1..]).Trim(max)
      else this
    }

    function Prune(now: int, ttl: nat, max: nat): Guard {
      DropStale(now, ttl).Trim(max)
    }

    function TryMark(hash: Hash, now: int, ttl: nat, max: nat): (bool, Guard) {
      var g := Prune(now, ttl, max);
      if hash in g.entries then (false, g)
      else (true, Guard(g.entries[hash := now], g.order + [hash]))
    }

    function Remove(hash: Hash, now: int, ttl: nat, max: nat): Guard {
      var g := Prune(now, ttl, max);
      g.(entries := g.entries - {hash})
    }
  }

  // ---------- what pruning keeps ----------

  lemma {:induction false} DropStaleKeepsValid(g: Guard, now: int, ttl: nat)
    requires g.Valid()
    ensures g.DropStale(now, ttl).Valid()
    decreases |g.order|
  {
    if g.order != [] && g.Stale(g.order[0], now, ttl) {
      PopKeepsValid(g);
      DropStaleKeepsValid(Guard(g.entries - {g.order[0]}, g.order[1..]), now, ttl);
    }
  }

  lemma PopKeepsValid(g: Guard)
    requires g.Valid() && g.order != []
    ensures Guard(g.entries - {g.order[0]}, g.order[1..]).Valid()
  {
    assert g.order == [g.order[0]] + g.order[1..];
  }

  /** The over-cap loop never finds the queue empty: it stops only because the map fits. */
  lemma {:induction false} TrimReachesCap(g: Guard, max: nat)
    requires g.Valid()
    ensures g.Trim(max).Valid() && |g.Trim(max).entries| <= max
    decreases |g.order|
  {
    if |g.entries| > max {
      var h :| h in g.entries;
      assert h in g.order;
      PopKeepsValid(g);
      TrimReachesCap(Guard(g.entries - {g.order[0]}, g.order[1..]), max);
    }
  }

  /** An entry survives the first loop untouched unless it is expired. */
  lemma {:induction false} DropStaleKeepsFresh(g: Guard, h: Hash, now: int, ttl: nat)
    requires h in g.entries && Age(now, g.entries[h]) <= ttl
    ensures h in g.DropStale(now, ttl).entries && g.DropStale(now, ttl).entries[h] == g.entries[h]
    decreases |g.order|
  {
    if g.order != [] && g.Stale(g.order[0], now, ttl) {
      DropStaleKeepsFresh(Guard(g.entries - {g.order[0]}, g.order[1..]), h, now, ttl);
    }
  }

  lemma {:induction false} TrimKeepsTimes(g: Guard, h: Hash, max: nat)
    requires h in g.Trim(max).entries
    ensures h in g.entries && g.Trim(max).entries[h] == g.entries[h]
    decreases |g.order|
  {
    if |g.entries| > max && g.order != [] {
      TrimKeepsTimes(Guard(g.entries - {g.order[0]}, g.order[1..]), h, max);
    }
  }

  // ---------- the mutable guard ----------

  class BlockSubmitGuard {
    const ttl: nat
    const maxEntries: nat
    var entries: map<Hash, int>
    var order: seq<Hash>

    function Snapshot(): Guard
      reads this
    {
      Guard(entries, order)
    }

    constructor (ttl: nat, maxEntries: nat)
      ensures Snapshot() == Guard(map[], []) && this.ttl == ttl && this.maxEntries == maxEntries
    {
      this.ttl, this.maxEntries, entries, order := ttl, maxEntries, map[], [];
    }

    method Prune(now: int)
      requires Snapshot().Valid()
      modifies this
      ensures Snapshot() == old(Snapshot()).Prune(now, ttl, maxEntries)
      ensures Snapshot().Valid() && |entries| <= maxEntries
    {
      DropStaleKeepsValid(Snapshot(), now, ttl);
      while order != []
        invariant Snapshot().DropStale(now, ttl) == old(Snapshot()).DropStale(now, ttl)
        decreases |order|
      {
        var front := order[0];
        var remove := if front in entries then Age(now, entries[front]) > ttl else true;
        if !remove {
          break;
        }
        order := order[1..];
        entries := entries - {front};
      }
      assert Snapshot() == old(Snapshot()).DropStale(now, ttl);
      ghost var mid := Snapshot();
      TrimReachesCap(mid, maxEntries);
      while |entries| > maxEntries
        invariant Snapshot().Trim(maxEntries) == mid.Trim(maxEntries)
        decreases |order|
      {
        if order == [] {
          break;
        }
        var key := order[0];
        order := order[1..];
        entries := entries - {key};
      }
    }

    method TryMark(hash: Hash, now: int) returns (marked: bool)
      requires Snapshot().Valid()
      modifies this
      ensures (marked, Snapshot()) == old(Snapshot()).TryMark(hash, now, ttl, maxEntries)
      ensures Snapshot().Valid() && |entries| <= maxEntries + 1
    {
      Prune(now);
      if hash in entries {
        return false;
      }
      entries := entries[hash := now];
      order := order + [hash];
      return true;
    }

    method Remove(hash: Hash, now: int)
      requires Snapshot().Valid()
      modifies this
      ensures Snapshot() == old(Snapshot()).Remove(hash, now, ttl, maxEntries)
      ensures Snapshot().Valid() && |entries| <= maxEntries && hash !in entries
    {
      Prune(now);
      assert entries - {hash} == map h | h in entries && h != hash :: entries[h];
      entries := entries - {hash};
    }
  }

  // ---------- runs ----------

  datatype Call = Mark(hash: Hash, now: int) | Remove(hash: Hash, now: int)

  function Step(g: Guard, c: Call, ttl: nat, max: nat): Guard {
    match c
    case Mark(h, now) => g.TryMark(h, now, ttl, max).1
    case Remove(h, now) => g.Remove(h, now, ttl, max)
  }

  function Replay(calls: seq<Call>, ttl: nat, max: nat): Guard {
    if calls == [] then Guard(map[], [])
    else Step(Replay(calls[..|calls| - 1], ttl, max), calls[|calls| - 1], ttl, max)
  }

  ghost predicate Marked(calls: seq<Call>, i: nat, ttl: nat, max: nat)
    requires i < |calls|
  {
    calls[i].Mark? && Replay(calls[..i], ttl, max).TryMark(calls[i].hash, calls[i].now, ttl, max).0
  }

  /** The call drops `h` only because the map is over its cap. */
  ghost predicate OverCapEvicts(g: Guard, c: Call, h: Hash, ttl: nat, max: nat) {
    var fresh_ := g.DropStale(c.now, ttl);
    h in fresh_.entries && h !in fresh_.Trim(max).entries
  }

  lemma ReplayGrows(calls: seq<Call>, k: nat, ttl: nat, max: nat)
    requires k < |calls|
    ensures Replay(calls[..k + 1], ttl, max) == Step(Replay(calls[..k], ttl, max), calls[k], ttl, max)
  {
    assert calls[..k + 1][..k] == calls[..k];
  }

  /** A call leaves an unexpired entry in place unless it trims or removes it. */
  lemma StepKeepsEntry(g: Guard, c: Call, h: Hash, ttl: nat, max: nat)
    requires h in g.entries && Age(c.now, g.entries[h]) <= ttl
    requires h in g.DropStale(c.now, ttl).Trim(max).entries
    requires c.Remove? ==> c.hash != h
    ensures h in Step(g, c, ttl, max).entries && Step(g, c, ttl, max).entries[h] == g.entries[h]
  {
    DropStaleKeepsFresh(g, h, c.now, ttl);
    TrimKeepsTimes(g.DropStale(c.now, ttl), h, max);
  }

  /** At a call an entry expires, is evicted, or survives the pruning. */
  lemma ExpiresEvictedOrSurvives(g: Guard, c: Call, h: Hash, ttl: nat, max: nat)
    requires h in g.entries
    ensures Age(c.now, g.entries[h]) > ttl || OverCapEvicts(g, c, h, ttl, max) || h in g.Prune(c.now, ttl, max).entries
  {
    if Age(c.now, g.entries[h]) <= ttl {
      DropStaleKeepsFresh(g, h, c.now, ttl);
    }
  }

  /** The guards of a history before each of its first calls. */
  lemma {:induction false} TraceOf(calls: seq<Call>, ttl: nat, max: nat, n: nat) returns (gs: seq<Guard>)
    requires n <= |calls|
    ensures |gs| == n + 1 && forall k :: 0 <= k <= n ==> gs[k] == Replay(calls[..k], ttl, max)
  {
    if n == 0 {
      gs := [Replay(calls[..0], ttl, max)];
    } else {
      gs := TraceOf(calls, ttl, max, n - 1);
      gs := gs + [Replay(calls[..n], ttl, max)];
    }
  }

  lemma {:induction false} FindSeparator(gs: seq<Guard>, calls: seq<Call>, i: nat, j: nat, h: Hash, t: int, ttl: nat,
                                         max: nat)
    returns (k: nat)
    requires i <= j < |calls| < |gs|
    requires forall n :: i <= n < j ==> gs[n + 1] == Step(gs[n], calls[n], ttl, max)
    requires h in gs[i].entries && gs[i].entries[h] == t
    requires h !in gs[j].Prune(calls[j].now, ttl, max).entries
    ensures i <= k <= j
    ensures (k < j && calls[k].Remove? && calls[k].hash == h) || Age(calls[k].now, t) > ttl
            || OverCapEvicts(gs[k], calls[k], h, ttl, max)
    decreases j - i
  {
    ExpiresEvictedOrSurvives(gs[i], calls[i], h, ttl, max);
    k := i;
    if Age(calls[i].now, t) <= ttl && !OverCapEvicts(gs[i], calls[i], h, ttl, max)
       && !(calls[i].Remove? && calls[i].hash == h && i < j) {
      StepKeepsEntry(gs[i], calls[i], h, ttl, max);
      k := FindSeparator(gs, calls, i + 1, j, h, t, ttl, max);
    }
  }

  /**
    Two successful marks of one hash are separated: in between, or at the second mark, the
    hash was removed, had outlived the TTL, or was evicted because the map was over its cap.
   */
  lemma MarksAreSeparated(calls: seq<Call>, i: nat, j: nat, ttl: nat, max: nat) returns (k: nat)
    requires i < j < |calls| && calls[i].hash == calls[j].hash
    requires Marked(calls, i, ttl, max) && Marked(calls, j, ttl, max)
    ensures i < k <= j
    ensures (k < j && calls[k].Remove? && calls[k].hash == calls[i].hash)
            || calls[k].now - calls[i].now > ttl
            || OverCapEvicts(Replay(calls[..k], ttl, max), calls[k], calls[i].hash, ttl, max)
  {
    var gs := TraceOf(calls, ttl, max, |calls|);
    forall n | i <= n < j
      ensures gs[n + 1] == Step(gs[n], calls[n], ttl, max)
    {
      ReplayGrows(calls, n, ttl, max);
    }
    assert gs[i + 1] == Step(gs[i], calls[i], ttl, max);
    k := FindSeparator(gs, calls, i + 1, j, calls[i].hash, calls[i].now, ttl, max);
  }

  // ---------- a removed hash ----------

  lemma {:induction false} PruneAddsNothing(g: Guard, h: Hash, now: int, ttl: nat, max: nat)
    requires h !in g.entries
    ensures h !in g.Prune(now, ttl, max).entries
  {
    if h in g.Prune(now, ttl, max).entries {
      TrimKeepsTimes(g.DropStale(now, ttl), h, max);
      DropStaleShrinks(g, h, now, ttl);
    }
  }

  lemma {:induction false} AbsentUntilMarked(calls: seq<Call>, k: nat, j: nat, h: Hash, ttl: nat, max: nat)
    requires k <= j <= |calls| && h !in Replay(calls[..k], ttl, max).entries
    requires forall m :: k <= m < j && calls[m].Mark? ==> calls[m].hash != h
    ensures h !in Replay(calls[..j], ttl, max).entries
    decreases j
  {
    if k < j {
      AbsentUntilMarked(calls, k, j - 1, h, ttl, max);
      ReplayGrows(calls, j - 1, ttl, max);
      PruneAddsNothing(Replay(calls[..j - 1], ttl, max), h, calls[j - 1].now, ttl, max);
    }
  }

  /** On any clock, the next mark of a removed hash succeeds, whatever else happens in between. */
  lemma RemovedMarksAgain(calls: seq<Call>, k: nat, j: nat, ttl: nat, max: nat)
    requires k < j < |calls| && calls[k].Remove? && calls[j] == Mark(calls[k].hash, calls[j].now)
    requires forall m :: k < m < j && calls[m].Mark? ==> calls[m].hash != calls[k].hash
    ensures Marked(calls, j, ttl, max)
  {
    var h := calls[k].hash;
    ReplayGrows(calls, k, ttl, max);
    AbsentUntilMarked(calls, k + 1, j, h, ttl, max);
    PruneAddsNothing(Replay(calls[..j], ttl, max), h, calls[j].now, ttl, max);
  }

  /** A removal touches no other hash beyond what any call's pruning does. */
  lemma RemoveKeepsOthers(g: Guard, h: Hash, other: Hash, now: int, ttl: nat, max: nat)
    requires other != h
    ensures var p, r := g.TryMark(other, now, ttl, max).0, g.Remove(h, now, ttl, max);
            p <==> other !in r.entries
  {
  }

  /** After every history the queue covers the map and the map is at most one over its cap. */
  lemma {:induction false} ReplayValid(calls: seq<Call>, ttl: nat, max: nat)
    ensures Replay(calls, ttl, max).Valid() && |Replay(calls, ttl, max).entries| <= max + 1
  {
    if calls != [] {
      var g, c := Replay(calls[..|calls| - 1], ttl, max), calls[|calls| - 1];
      ReplayValid(calls[..|calls| - 1], ttl, max);
      DropStaleKeepsValid(g, c.now, ttl);
      TrimReachesCap(g.DropStale(c.now, ttl), max);
      var p := g.Prune(c.now, ttl, max);
      assert forall h :: h in p.order ==> h in p.order + [c.hash];
      assert (p.entries - {c.hash}).Keys <= p.entries.Keys;
    }
  }

  // ---------- without `remove`: a sliding window ----------

  type Stamp = (Hash, int)

  /** Drop the leading marks that are older than the TTL. */
  function Unexpired(marks: seq<Stamp>, now: int, ttl: nat): seq<Stamp> {
    if marks != [] && Age(now, marks[0].1) > ttl then Unexpired(marks[1..], now, ttl) else marks
  }

  function Last<T>(s: seq<T>, n: nat): seq<T> {
    if |s| <= n then s else s[|s| - n..]
  }

  /** The window at `now`: the newest `max` of the marks that are at most `ttl` old. */
  function Window(marks: seq<Stamp>, now: int, ttl: nat, max: nat): seq<Stamp> {
    Last(Unexpired(marks, now, ttl), max)
  }

  predicate Mentions(marks: seq<Stamp>, h: Hash) {
    exists i :: 0 <= i < |marks| && marks[i].0 == h
  }

  /** The hash is among the newest `max` marks and was marked at most `ttl` ago. */
  predicate Recent(marks: seq<Stamp>, h: Hash, now: int, ttl: nat, max: nat) {
    exists i :: 0 <= i < |marks| && |marks| - max <= i && marks[i].0 == h && now - marks[i].1 <= ttl
  }

  /** Reference: all successful marks of a mark-only history, decided on the earlier ones alone. */
  function AllMarks(calls: seq<Call>, ttl: nat, max: nat): seq<Stamp> {
    if calls == [] then []
    else
      var c, before := calls[|calls| - 1], AllMarks(calls[..|calls| - 1], ttl, max);
      if Recent(before, c.hash, c.now, ttl, max) then before else before + [(c.hash, c.now)]
  }

  ghost predicate Sorted(marks: seq<Stamp>) {
    forall i, j :: 0 <= i < j < |marks| ==> marks[i].1 <= marks[j].1
  }

  /** The guard holds exactly these marks, each once, in this order. */
  ghost predicate Represents(g: Guard, marks: seq<Stamp>) {
    && |g.order| == |marks|
    && (forall i :: 0 <= i < |marks| ==>
          g.order[i] == marks[i].0 && marks[i].0 in g.entries && g.entries[marks[i].0] == marks[i].1)
    && (forall h :: h in g.entries ==> h in g.order)
    && (forall i, j :: 0 <= i < j < |marks| ==> g.order[i] != g.order[j])
  }

  lemma PopRepresents(g: Guard, marks: seq<Stamp>)
    requires Represents(g, marks) && marks != []
    ensures Represents(Guard(g.entries - {g.order[0]}, g.order[1..]), marks[1..])
  {
    var order, rest := g.order[1..], marks[1..];
    assert forall i :: 0 <= i < |rest| ==> rest[i] == marks[i + 1] && order[i] == g.order[i + 1];
    forall h | h in g.entries && h != g.order[0]
      ensures h in order
    {
      var i :| 0 <= i < |g.order| && g.order[i] == h;
      assert order[i - 1] == h;
    }
  }

  lemma {:induction false} SizeRepresents(g: Guard, marks: seq<Stamp>)
    requires Represents(g, marks)
    ensures |g.entries| == |marks|
    decreases |marks|
  {
    if marks == [] {
      assert forall h :: h !in g.entries;
      assert g.entries == map[];
    } else {
      var popped := Guard(g.entries - {g.order[0]}, g.order[1..]);
      PopRepresents(g, marks);
      SizeRepresents(popped, marks[1..]);
      assert popped.entries.Keys == g.entries.Keys - {g.order[0]};
    }
  }

  lemma {:induction false} DropStaleRepresents(g: Guard, marks: seq<Stamp>, now: int, ttl: nat)
    requires Represents(g, marks)
    ensures Represents(g.DropStale(now, ttl), Unexpired(marks, now, ttl))
    decreases |marks|
  {
    if marks != [] && Age(now, marks[0].1) > ttl {
      PopRepresents(g, marks);
      DropStaleRepresents(Guard(g.entries - {g.order[0]}, g.order[1..]), marks[1..], now, ttl);
    }
  }

  lemma LastOfRest(marks: seq<Stamp>, n: nat)
    requires |marks| > n
    ensures Last(marks[1..], n) == Last(marks, n)
  {
  }

  lemma {:induction false} TrimRepresents(g: Guard, marks: seq<Stamp>, max: nat)
    requires Represents(g, marks)
    ensures Represents(g.Trim(max), Last(marks, max))
    decreases |marks|
  {
    SizeRepresents(g, marks);
    if |marks| > max {
      var popped := Guard(g.entries - {g.order[0]}, g.order[1..]);
      PopRepresents(g, marks);
      TrimRepresents(popped, marks[1..], max);
      assert g.Trim(max) == popped.Trim(max);
      LastOfRest(marks, max);
    } else {
      assert g.Trim(max) == g;
    }
  }

  /** The leading expired marks of a sorted list are all its expired marks. */
  lemma {:induction false} UnexpiredIsSuffix(marks: seq<Stamp>, now: int, ttl: nat) returns (a: nat)
    requires Sorted(marks)
    ensures a <= |marks| && Unexpired(marks, now, ttl) == marks[a..]
    ensures forall i :: 0 <= i < |marks| ==> (Age(now, marks[i].1) > ttl <==> i < a)
  {
    if marks != [] && Age(now, marks[0].1) > ttl {
      var b := UnexpiredIsSuffix(marks[1..], now, ttl);
      a := b + 1;
      assert forall i :: 0 < i < |marks| ==> marks[i] == marks[1..][i - 1];
    } else {
      a := 0;
    }
  }

  /** Nothing within the window is forgotten when only expired marks are. */
  lemma ForgetExpired(marks: seq<Stamp>, s: nat, a: nat, now: int, ttl: nat)
    requires Sorted(marks) && s <= a <= |marks|
    requires forall i :: 0 <= i < |marks| ==> (Age(now, marks[i].1) > ttl <==> i < a)
    ensures Unexpired(marks[s..], now, ttl) == marks[a..]
  {
    var rest := marks[s..];
    var b := UnexpiredIsSuffix(rest, now, ttl);
    assert forall i :: 0 <= i < |rest| ==> rest[i] == marks[s + i];
    assert b == a - s by {
      assert b < |rest| ==> rest[b] == marks[s + b];
      assert a < |marks| ==> rest[a - s] == marks[a];
    }
    assert rest[b..] == marks[a..];
  }

  lemma NoneExpired(rest: seq<Stamp>, now: int, ttl: nat)
    requires rest != [] ==> Age(now, rest[0].1) <= ttl
    ensures Unexpired(rest, now, ttl) == rest
  {
  }

  lemma LastOfSuffix(marks: seq<Stamp>, s: nat, max: nat)
    requires s + max <= |marks|
    ensures Last(marks[s..], max) == marks[|marks| - max..]
  {
  }

  /** Forgetting marks that no later window can contain does not change the window. */
  lemma WindowForgets(marks: seq<Stamp>, s: nat, now: int, ttl: nat, max: nat)
    requires Sorted(marks) && s <= |marks|
    requires forall i :: 0 <= i < s ==> Age(now, marks[i].1) > ttl || i < |marks| - max
    ensures Window(marks[s..], now, ttl, max) == Window(marks, now, ttl, max)
  {
    var a := UnexpiredIsSuffix(marks, now, ttl);
    if s <= a {
      ForgetExpired(marks, s, a, now, ttl);
    } else {
      NoneExpired(marks[s..], now, ttl);
      assert Age(now, marks[s - 1].1) <= ttl;
      LastOfSuffix(marks, s, max);
      LastOfSuffix(marks, a, max);
    }
  }

  ghost predicate MarksInTime(calls: seq<Call>) {
    && (forall i :: 0 <= i < |calls| ==> calls[i].Mark?)
    && (forall i, j :: 0 <= i < j < |calls| ==> calls[i].now <= calls[j].now)
  }

  /** The guard remembers a suffix of all marks that still covers every later window. */
  ghost predicate Remembers(g: Guard, marks: seq<Stamp>, s: nat, now: int, ttl: nat, max: nat) {
    && s <= |marks| && Sorted(marks)
    && Represents(g, marks[s..])
    && (forall i :: 0 <= i < s ==> Age(now, marks[i].1) > ttl || i < |marks| - max)
    && (forall i :: 0 <= i < |marks| ==> marks[i].1 <= now)
  }

  lemma PruneIsWindow(g: Guard, marks: seq<Stamp>, s: nat, then_: int, now: int, ttl: nat, max: nat)
    requires Remembers(g, marks, s, then_, ttl, max) && then_ <= now
    ensures Represents(g.Prune(now, ttl, max), Window(marks, now, ttl, max))
  {
    DropStaleRepresents(g, marks[s..], now, ttl);
    TrimRepresents(g.DropStale(now, ttl), Unexpired(marks[s..], now, ttl), max);
    WindowForgets(marks, s, now, ttl, max);
  }

  lemma WindowIsSuffix(marks: seq<Stamp>, now: int, ttl: nat, max: nat) returns (s: nat)
    requires Sorted(marks)
    ensures s <= |marks| && Window(marks, now, ttl, max) == marks[s..]
    ensures forall i :: 0 <= i < s ==> Age(now, marks[i].1) > ttl || i < |marks| - max
  {
    var a := UnexpiredIsSuffix(marks, now, ttl);
    s := if |marks| - max > a then |marks| - max else a;
  }

  lemma MentionsIsMember(g: Guard, marks: seq<Stamp>, h: Hash)
    requires Represents(g, marks)
    ensures h in g.entries <==> Mentions(marks, h)
  {
    if h in g.entries {
      var i :| 0 <= i < |g.order| && g.order[i] == h;
      assert marks[i].0 == h;
    }
  }

  lemma AppendRepresents(g: Guard, marks: seq<Stamp>, h: Hash, now: int)
    requires Represents(g, marks) && h !in g.entries
    ensures Represents(Guard(g.entries[h := now], g.order + [h]), marks + [(h, now)])
  {
    assert h !in g.order;
  }

  lemma AppendRemembers(g: Guard, marks: seq<Stamp>, s: nat, h: Hash, now: int, ttl: nat, max: nat)
    requires Remembers(g, marks, s, now, ttl, max) && h !in g.entries
    ensures Remembers(Guard(g.entries[h := now], g.order + [h]), marks + [(h, now)], s, now, ttl, max)
  {
    AppendRepresents(g, marks[s..], h, now);
    var all := marks + [(h, now)];
    assert all[s..] == marks[s..] + [(h, now)];
    assert Sorted(all);
  }

  lemma PruneRemembers(g: Guard, marks: seq<Stamp>, s: nat, then_: int, now: int, ttl: nat, max: nat) returns (s': nat)
    requires Remembers(g, marks, s, then_, ttl, max) && then_ <= now
    ensures Remembers(g.Prune(now, ttl, max), marks, s', now, ttl, max) && Window(marks, now, ttl, max) == marks[s'..]
  {
    PruneIsWindow(g, marks, s, then_, now, ttl, max);
    s' := WindowIsSuffix(marks, now, ttl, max);
  }

  /** The window holds the recent hashes. */
  lemma WindowIsRecent(marks: seq<Stamp>, h: Hash, now: int, ttl: nat, max: nat)
    requires Sorted(marks)
    ensures Mentions(Window(marks, now, ttl, max), h) <==> Recent(marks, h, now, ttl, max)
  {
    var a := UnexpiredIsSuffix(marks, now, ttl);
    var s := if |marks| - max > a then |marks| - max else a;
    var w := marks[s..];
    assert Window(marks, now, ttl, max) == w;
    if i :| 0 <= i < |w| && w[i].0 == h {
      assert marks[s + i] == w[i] && Age(now, marks[s + i].1) <= ttl;
    }
    if i :| 0 <= i < |marks| && |marks| - max <= i && marks[i].0 == h && now - marks[i].1 <= ttl {
      assert Age(now, marks[i].1) <= ttl;
      assert w[i - s] == marks[i];
    }
  }

  lemma MarkRemembers(g: Guard, marks: seq<Stamp>, s: nat, then_: int, c: Call, ttl: nat, max: nat) returns (s': nat)
    requires c.Mark? && then_ <= c.now && Remembers(g, marks, s, then_, ttl, max)
    ensures g.TryMark(c.hash, c.now, ttl, max).0 <==> !Recent(marks, c.hash, c.now, ttl, max)
    ensures var all := if Recent(marks, c.hash, c.now, ttl, max) then marks else marks + [(c.hash, c.now)];
            Remembers(Step(g, c, ttl, max), all, s', c.now, ttl, max)
  {
    WindowIsRecent(marks, c.hash, c.now, ttl, max);
    s' := PruneRemembers(g, marks, s, then_, c.now, ttl, max);
    var p := g.Prune(c.now, ttl, max);
    MentionsIsMember(p, marks[s'..], c.hash);
    if c.hash !in p.entries {
      AppendRemembers(p, marks, s', c.hash, c.now, ttl, max);
    }
  }

  lemma {:induction false} ReplayRemembers(calls: seq<Call>, ttl: nat, max: nat) returns (s: nat)
    requires MarksInTime(calls)
    ensures calls == [] ==> s == 0
    ensures calls != [] ==>
              Remembers(Replay(calls, ttl, max), AllMarks(calls, ttl, max), s, calls[|calls| - 1].now, ttl, max)
  {
    s := 0;
    if calls != [] {
      var before, c := calls[..|calls| - 1], calls[|calls| - 1];
      var r := ReplayRemembers(before, ttl, max);
      var then_ := if before == [] then c.now else before[|before| - 1].now;
      s := MarkRemembers(Replay(before, ttl, max), AllMarks(before, ttl, max), r, then_, c, ttl, max);
    }
  }

  /**
    Without `remove` and at nondecreasing times, a mark succeeds exactly when its hash is not one of
    the newest `max` successful marks made at most `ttl` ago.
   */
  lemma MarkOnlyIsSlidingWindow(calls: seq<Call>, h: Hash, now: int, ttl: nat, max: nat)
    requires MarksInTime(calls + [Mark(h, now)])
    ensures Replay(calls, ttl, max).TryMark(h, now, ttl, max).0
            <==> !Recent(AllMarks(calls, ttl, max), h, now, ttl, max)
  {
    var whole := calls + [Mark(h, now)];
    assert forall i :: 0 <= i < |calls| ==> whole[i] == calls[i];
    assert whole[|calls|] == Mark(h, now);
    var s := ReplayRemembers(calls, ttl, max);
    if calls == [] {
      assert Remembers(Guard(map[], []), [], 0, now, ttl, max);
    }
    var then_ := if calls == [] then now else calls[|calls| - 1].now;
    var s' := MarkRemembers(Replay(calls, ttl, max), AllMarks(calls, ttl, max), s, then_, Mark(h, now), ttl, max);
  }

  // ---------- with `remove`: an expired hash can stay blocked ----------

  /** Some queue position of `h` has only removed or expired hashes ahead of it. */
  ghost predicate NoLiveAhead(g: Guard, h: Hash, now: int, ttl: nat) {
    exists i :: 0 <= i < |g.order| && g.order[i] == h && DeadBefore(g, i, now, ttl)
  }

  /** Position `i` of the queue has only removed or expired hashes ahead of it. */
  ghost predicate DeadBefore(g: Guard, i: nat, now: int, ttl: nat)
    requires i <= |g.order|
  {
    forall j :: 0 <= j < i ==> g.order[j] !in g.entries || now - g.entries[g.order[j]] > ttl
  }

  lemma DeadPopped(g: Guard, popped: Guard, i: nat, now: int, ttl: nat)
    requires g.order != [] && g.Stale(g.order[0], now, ttl) && i < |g.order|
    requires popped == Guard(g.entries - {g.order[0]}, g.order[1..])
    ensures DeadBefore(g, i + 1, now, ttl) <==> DeadBefore(popped, i, now, ttl)
  {
    assert forall j :: 0 <= j < i ==> popped.order[j] == g.order[j + 1];
    if DeadBefore(popped, i, now, ttl) {
      forall j | 0 <= j < i + 1
        ensures g.order[j] !in g.entries || now - g.entries[g.order[j]] > ttl
      {
        assert j > 0 ==> popped.order[j - 1] == g.order[j];
      }
    }
  }

  /** Popping a stale front that is another hash changes nothing for `h`. */
  lemma NoLivePopped(g: Guard, popped: Guard, h: Hash, now: int, ttl: nat)
    requires g.order != [] && g.Stale(g.order[0], now, ttl) && g.order[0] != h
    requires popped == Guard(g.entries - {g.order[0]}, g.order[1..])
    ensures NoLiveAhead(g, h, now, ttl) <==> NoLiveAhead(popped, h, now, ttl)
  {
    if i :| 0 <= i < |g.order| && g.order[i] == h && DeadBefore(g, i, now, ttl) {
      DeadPopped(g, popped, i - 1, now, ttl);
      assert popped.order[i - 1] == h;
    }
    if i :| 0 <= i < |popped.order| && popped.order[i] == h && DeadBefore(popped, i, now, ttl) {
      DeadPopped(g, popped, i, now, ttl);
      assert g.order[i + 1] == h;
    }
  }

  lemma {:induction false} DropStaleReaches(g: Guard, h: Hash, now: int, ttl: nat)
    requires h in g.entries && g.Stale(h, now, ttl)
    ensures h !in g.DropStale(now, ttl).entries <==> NoLiveAhead(g, h, now, ttl)
    decreases |g.order|
  {
    if g.order != [] && g.Stale(g.order[0], now, ttl) {
      var popped := Guard(g.entries - {g.order[0]}, g.order[1..]);
      if g.order[0] == h {
        DropStaleShrinks(popped, h, now, ttl);
        assert DeadBefore(g, 0, now, ttl);
      } else {
        DropStaleReaches(popped, h, now, ttl);
        NoLivePopped(g, popped, h, now, ttl);
      }
    }
  }

  lemma {:induction false} DropStaleShrinks(g: Guard, h: Hash, now: int, ttl: nat)
    ensures h in g.DropStale(now, ttl).entries ==> h in g.entries
    ensures g.DropStale(now, ttl).entries.Keys <= g.entries.Keys
    decreases |g.order|
  {
    if g.order != [] && g.Stale(g.order[0], now, ttl) {
      DropStaleShrinks(Guard(g.entries - {g.order[0]}, g.order[1..]), h, now, ttl);
    }
  }

  lemma SubsetSize(a: set<Hash>, b: set<Hash>)
    requires a <= b
    ensures |a| <= |b|
  {
    assert b == a + (b - a);
  }

  /** Dropping stale hashes ends at an empty queue or a live front, and leaves the other times alone. */
  lemma {:induction false} DropStaleEnds(g: Guard, now: int, ttl: nat)
    ensures var d := g.DropStale(now, ttl);
            && (d.order != [] ==> !d.Stale(d.order[0], now, ttl))
            && forall h :: h in d.entries ==> h in g.entries && d.entries[h] == g.entries[h]
    decreases |g.order|
  {
    if g.order != [] && g.Stale(g.order[0], now, ttl) {
      DropStaleEnds(Guard(g.entries - {g.order[0]}, g.order[1..]), now, ttl);
    }
  }

  /** One entry over the cap costs exactly the front, if that is live. */
  lemma TrimLiveFront(d: Guard, h: Hash, now: int, ttl: nat, max: nat)
    requires |d.entries| <= max + 1 && h in d.entries && d.Stale(h, now, ttl)
    requires d.order != [] ==> !d.Stale(d.order[0], now, ttl)
    ensures h in d.Trim(max).entries
  {
    if |d.entries| > max && d.order != [] {
      var popped := Guard(d.entries - {d.order[0]}, d.order[1..]);
      assert popped.entries.Keys == d.entries.Keys - {d.order[0]};
      assert popped.Trim(max) == popped;
    }
  }

  lemma RemarkableAtCap(g: Guard, h: Hash, now: int, ttl: nat, max: nat)
    requires h in g.entries && Age(now, g.entries[h]) > ttl && |g.entries| <= max + 1
    ensures g.TryMark(h, now, ttl, max).0 <==> NoLiveAhead(g, h, now, ttl)
  {
    var d := g.DropStale(now, ttl);
    DropStaleReaches(g, h, now, ttl);
    DropStaleEnds(g, now, ttl);
    if h in d.entries {
      DropStaleShrinks(g, h, now, ttl);
      SubsetSize(d.entries.Keys, g.entries.Keys);
      TrimLiveFront(d, h, now, ttl, max);
    } else if h in d.Trim(max).entries {
      TrimKeepsTimes(d, h, max);
    }
  }

  /**
    After every history of marks and removals, on any clock and with the map full or not, an
    expired hash can be marked again exactly when no live hash is queued ahead of it.
   */
  lemma ExpiredRemarkable(calls: seq<Call>, h: Hash, now: int, ttl: nat, max: nat)
    requires var g := Replay(calls, ttl, max); h in g.entries && now - g.entries[h] > ttl
    ensures var g := Replay(calls, ttl, max); g.TryMark(h, now, ttl, max).0 <==> NoLiveAhead(g, h, now, ttl)
  {
    ReplayValid(calls, ttl, max);
    RemarkableAtCap(Replay(calls, ttl, max), h, now, ttl, max);
  }

  const blockingRun := [Mark(1, 0), Mark(2, 1), Mark(3, 2), Call.Remove(2, 3), Mark(2, 5)]

  /** With a live front and room left, marking a new hash appends it. */
  lemma MarkIdle(g: Guard, h: Hash, now: int, ttl: nat, max: nat)
    requires g.order == [] || !g.Stale(g.order[0], now, ttl)
    requires |g.entries| <= max && h !in g.entries
    ensures g.TryMark(h, now, ttl, max) == (true, Guard(g.entries[h := now], g.order + [h]))
  {
  }

  lemma BlockingRunMarks()
    ensures Replay(blockingRun[..3], 10, 100) == Guard(map[1 := 0, 2 := 1, 3 := 2], [1, 2, 3])
  {
    var g0, g1, g2 := Guard(map[], []), Guard(map[1 := 0], [1]), Guard(map[1 := 0, 2 := 1], [1, 2]);
    ReplayGrows(blockingRun, 0, 10, 100);
    MarkIdle(g0, 1, 0, 10, 100);
    ReplayGrows(blockingRun, 1, 10, 100);
    MarkIdle(g1, 2, 1, 10, 100);
    ReplayGrows(blockingRun, 2, 10, 100);
    MarkIdle(g2, 3, 2, 10, 100);
    assert blockingRun[..0] == [];
  }

  /** With a live front and room left, pruning changes nothing. */
  lemma PruneIdle(g: Guard, now: int, ttl: nat, max: nat)
    requires g.order != [] && !g.Stale(g.order[0], now, ttl) && |g.entries| <= max
    ensures g.Prune(now, ttl, max) == g
  {
  }

  lemma RemoveMiddle(g: Guard)
    requires g == Guard(map[1 := 0, 2 := 1, 3 := 2], [1, 2, 3])
    ensures g.Remove(2, 3, 10, 100) == Guard(map[1 := 0, 3 := 2], [1, 2, 3])
  {
    PruneIdle(g, 3, 10, 100);
    assert g.entries - {2} == map[1 := 0, 3 := 2];
  }

  lemma BlockingRunRemoves()
    ensures Replay(blockingRun[..4], 10, 100) == Guard(map[1 := 0, 3 := 2], [1, 2, 3])
  {
    BlockingRunMarks();
    RemoveMiddle(Replay(blockingRun[..3], 10, 100));
    ReplayGrows(blockingRun, 3, 10, 100);
  }

  lemma BlockingRunEnds()
    ensures Replay(blockingRun, 10, 100) == Guard(map[1 := 0, 3 := 2, 2 := 5], [1, 2, 3, 2])
  {
    var g := Guard(map[1 := 0, 3 := 2], [1, 2, 3]);
    BlockingRunRemoves();
    ReplayGrows(blockingRun, 4, 10, 100);
    assert blockingRun[..5] == blockingRun;
    assert g.DropStale(5, 10) == g;
  }

  /**
    A run in which an expired hash is refused: hash 2 is removed and marked again while hash 3
    waits behind its first queue position.
   */
  lemma ExpiredCanStayBlocked()
    ensures var g := Replay(blockingRun, 10, 100);
            3 in g.entries && Age(13, g.entries[3]) > 10 && !g.TryMark(3, 13, 10, 100).0
  {
    BlockingRunEnds();
    var g := Replay(blockingRun, 10, 100);
    assert !g.Stale(g.order[1], 13, 10);
    assert !NoLiveAhead(g, 3, 13, 10);
    ExpiredRemarkable(blockingRun, 3, 13, 10, 100);
  }
}

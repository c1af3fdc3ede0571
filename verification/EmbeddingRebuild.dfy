/** Filling the idle slot in batches while the other one is served, and the flip that ends it. */
module EmbeddingRebuild {
  import opened Lifecycle
  import opened Embedding

  const BATCH: nat := 64
  const MAX_DIMENSION: nat := 16000

  type Key = (string, nat)
  type Vec = seq<real>
  type Column = map<Key, Vec>

  datatype Item = Item(key: Key, text: string)

  // ---------------------------------------------------------------- writing vectors

  /** Upserting the items one after the other. */
  function UpsertAll(c: Column, items: seq<Item>, vecs: seq<Vec>): Column
    requires |items| == |vecs|
    decreases |items|
  {
    if items == [] then c
    else
      var n := |items| - 1;
      UpsertAll(c, items[..n], vecs[..n])[items[n].key := vecs[n]]
  }

  lemma {:induction false} UpsertAllAppend(c: Column, a: seq<Item>, va: seq<Vec>, b: seq<Item>, vb: seq<Vec>)
    requires |a| == |va| && |b| == |vb|
    ensures UpsertAll(UpsertAll(c, a, va), b, vb) == UpsertAll(c, a + b, va + vb)
    decreases |b|
  {
    if b == [] {
      assert a + b == a && va + vb == va;
    } else {
      var n := |b| - 1;
      UpsertAllAppend(c, a, va, b[..n], vb[..n]);
      assert (a + b)[..|a| + n] == a + b[..n] && (va + vb)[..|a| + n] == va + vb[..n];
    }
  }

  ghost predicate DistinctKeys(items: seq<Item>) {
    forall i, j :: 0 <= i < j < |items| ==> items[i].key != items[j].key
  }

  /** An item is the last one listed under its key. */
  ghost predicate LastOfKey(items: seq<Item>, k: nat)
    requires k < |items|
  {
    forall j :: k < j < |items| ==> items[j].key != items[k].key
  }

  /** The last item of a key ends up with its own vector. */
  lemma {:induction false} UpsertAllAt(c: Column, items: seq<Item>, vecs: seq<Vec>, k: nat)
    requires |items| == |vecs| && k < |items| && LastOfKey(items, k)
    ensures items[k].key in UpsertAll(c, items, vecs) && UpsertAll(c, items, vecs)[items[k].key] == vecs[k]
    decreases |items|
  {
    var n := |items| - 1;
    if k < n {
      UpsertAllAt(c, items[..n], vecs[..n], k);
      assert items[k].key != items[n].key;
    }
  }

  ghost predicate Lists(items: seq<Item>, key: Key) {
    exists k :: 0 <= k < |items| && items[k].key == key
  }

  /** Nothing else in the column changes. */
  lemma {:induction false} UpsertAllElsewhere(c: Column, items: seq<Item>, vecs: seq<Vec>, key: Key)
    requires |items| == |vecs| && !Lists(items, key)
    ensures key in UpsertAll(c, items, vecs) <==> key in c
    ensures key in c ==> UpsertAll(c, items, vecs)[key] == c[key]
    decreases |items|
  {
    if items != [] {
      var n := |items| - 1;
      assert items[n].key != key;
      assert Lists(items[..n], key) ==> Lists(items, key);
      UpsertAllElsewhere(c, items[..n], vecs[..n], key);
    }
  }

  // ---------------------------------------------------------------- interleaved rebuilds

  /** A running rebuild: its slot, that slot when it was prepared, the items listed then, how many of
      them are written, and the vectors it got for them. */
  datatype Build = Build(slot: Slot, before: Column, items: seq<Item>, done: nat, vecs: seq<Vec>)

  datatype World = World(rows: Registry, blue: Column, green: Column, builds: map<nat, Build>)

  function In(w: World, s: Slot): Column {
    if s == Blue then w.blue else w.green
  }

  function With(w: World, s: Slot, c: Column): World {
    if s == Blue then w.(blue := c) else w.(green := c)
  }

  function BatchEnd(b: Build): nat {
    if b.done + BATCH < |b.items| then b.done + BATCH else |b.items|
  }

  /** `Configure` says whether the build it supersedes was stopped for good. */
  datatype Step =
    | Configure(hash: string, stopped: bool)
    | Prepare(version: nat, items: seq<Item>)
    | WriteBatch(version: nat, vecs: seq<Vec>)
    | Finish(version: nat)

  predicate Enabled(w: World, step: Step) {
    match step
    case Configure(_, _) => true
    case Prepare(i, _) => i < |w.rows| && i !in w.builds
    case WriteBatch(i, vecs) =>
      i in w.builds && w.builds[i].done < |w.builds[i].items| && w.builds[i].done + |vecs| == BatchEnd(w.builds[i])
    case Finish(i) => i in w.builds && i < |w.rows| && w.builds[i].done == |w.builds[i].items|
  }

  function Without(builds: map<nat, Build>, i: nat): map<nat, Build> {
    map j | j in builds && j != i :: builds[j]
  }

  function Apply(w: World, step: Step): World
    requires Enabled(w, step)
  {
    match step
    case Configure(hash, stopped) =>
      var e := Ensure(w.rows, hash);
      World(e.rows, w.blue, w.green,
            if stopped && e.superseded.Some? then Without(w.builds, e.superseded.value) else w.builds)
    case Prepare(i, items) =>
      if w.rows[i].status != Building then w
      else w.(builds := w.builds[i := Build(w.rows[i].slot, In(w, w.rows[i].slot), items, 0, [])])
    case WriteBatch(i, vecs) =>
      var b := w.builds[i];
      var end := BatchEnd(b);
      With(w, b.slot, UpsertAll(In(w, b.slot), b.items[b.done..end], vecs))
        .(builds := w.builds[i := b.(done := end, vecs := b.vecs + vecs)])
    case Finish(i) =>
      var f := Flip(w.rows, i);
      var cleared := if f.cleared.Some? then With(w, f.cleared.value, map[]) else w;
      World(f.rows, cleared.blue, cleared.green, Without(w.builds, i))
  }

  ghost predicate Sane(w: World) {
    && Protocol(w.rows)
    && (forall i :: i in w.builds ==>
          && i < |w.rows| && w.builds[i].slot == w.rows[i].slot && w.builds[i].done <= |w.builds[i].items|
          && w.rows[i].status !in {Active, Retired})
  }

  lemma ConfigureKeepsSane(w: World, hash: string, stopped: bool)
    requires Sane(w)
    ensures Sane(Apply(w, Configure(hash, stopped))) && Evolves(w.rows, Apply(w, Configure(hash, stopped)).rows)
  {
    EnsureKeepsProtocol(w.rows, hash);
    EnsureLeavesActive(w.rows, hash);
  }

  lemma EnsureLeavesActive(r: Registry, hash: string)
    requires Protocol(r)
    ensures |r| <= |Ensure(r, hash).rows|
    ensures forall i :: 0 <= i < |r| && r[i].status in {Building, Superseded} ==> Ensure(r, hash).rows[i].status in {Building, Superseded}
  {
    FindExact(r, Building);
  }

  lemma FinishKeepsSane(w: World, i: nat)
    requires Sane(w) && Enabled(w, Finish(i))
    ensures Sane(Apply(w, Finish(i))) && Evolves(w.rows, Apply(w, Finish(i)).rows)
  {
    FlipKeepsProtocol(w.rows, i);
    FlipLeavesSuperseded(w.rows, i);
  }

  lemma PrepareKeepsSane(w: World, i: nat, items: seq<Item>)
    requires Sane(w) && Enabled(w, Prepare(i, items))
    ensures Sane(Apply(w, Prepare(i, items))) && Evolves(w.rows, Apply(w, Prepare(i, items)).rows)
  {
    hide Find, Ensure, Flip;
  }

  lemma BatchKeepsSane(w: World, i: nat, vecs: seq<Vec>)
    requires Sane(w) && Enabled(w, WriteBatch(i, vecs))
    ensures Sane(Apply(w, WriteBatch(i, vecs))) && Evolves(w.rows, Apply(w, WriteBatch(i, vecs)).rows)
  {
    hide Find, Ensure, Flip, UpsertAll, Protocol;
    assert Apply(w, WriteBatch(i, vecs)).rows == w.rows;
  }

  lemma StepKeepsSane(w: World, step: Step)
    requires Sane(w) && Enabled(w, step)
    ensures Sane(Apply(w, step)) && Evolves(w.rows, Apply(w, step).rows)
  {
    hide Apply, Sane, Evolves;
    match step
    case Configure(hash, stopped) => ConfigureKeepsSane(w, hash, stopped);
    case Prepare(i, items) => PrepareKeepsSane(w, i, items);
    case WriteBatch(i, vecs) => BatchKeepsSane(w, i, vecs);
    case Finish(i) => FinishKeepsSane(w, i);
  }

  lemma FlipLeavesSuperseded(r: Registry, i: nat)
    requires Protocol(r) && i < |r|
    ensures forall j :: 0 <= j < |r| && j != i && r[j].status in {Building, Superseded} ==> Flip(r, i).rows[j].status == r[j].status
  {
  }

  /** While a version is still building, what it writes never reaches the slot being served. */
  lemma BuildingWritesElsewhere(w: World, i: nat, vecs: seq<Vec>)
    requires Sane(w) && Enabled(w, WriteBatch(i, vecs)) && w.rows[i].status == Building
    requires Find(w.rows, Active).Some?
    ensures Find(w.rows, Active).value < |w.rows|
    ensures var slot := w.rows[Find(w.rows, Active).value].slot;
      In(Apply(w, WriteBatch(i, vecs)), slot) == In(w, slot)
  {
    FindExact(w.rows, Active);
  }

  // ---------------------------------------------------------------- rebuilds nobody disturbs

  /** No superseded build is still running. */
  ghost predicate NoStaleWriter(w: World) {
    forall i :: i in w.builds ==> i < |w.rows| && w.rows[i].status == Building
  }

  /** The build's slot is what it was, overlaid with the items written so far. */
  ghost predicate OnTrack(w: World, b: Build) {
    && b.done <= |b.items| && |b.vecs| == b.done
    && In(w, b.slot) == UpsertAll(b.before, b.items[..b.done], b.vecs)
  }

  ghost predicate Undisturbed(w: World) {
    && Sane(w) && NoStaleWriter(w)
    && forall i :: i in w.builds ==> OnTrack(w, w.builds[i])
  }

  predicate CleanStep(step: Step) {
    step.Configure? ==> step.stopped
  }

  lemma ConfigureKeepsUndisturbed(w: World, hash: string)
    requires Undisturbed(w)
    ensures Undisturbed(Apply(w, Configure(hash, true)))
  {
    hide UpsertAll;
    StepKeepsSane(w, Configure(hash, true));
    FindExact(w.rows, Building);
  }

  lemma PrepareKeepsUndisturbed(w: World, i: nat, items: seq<Item>)
    requires Undisturbed(w) && Enabled(w, Prepare(i, items))
    ensures Undisturbed(Apply(w, Prepare(i, items)))
  {
    hide Find, Ensure, Flip;
    StepKeepsSane(w, Prepare(i, items));
    assert items[..0] == [];
  }

  lemma BatchKeepsOnTrack(w: World, i: nat, vecs: seq<Vec>)
    requires Undisturbed(w) && Enabled(w, WriteBatch(i, vecs))
    ensures OnTrack(Apply(w, WriteBatch(i, vecs)), Apply(w, WriteBatch(i, vecs)).builds[i])
  {
    var b := w.builds[i];
    var end := BatchEnd(b);
    UpsertAllAppend(b.before, b.items[..b.done], b.vecs, b.items[b.done..end], vecs);
    assert b.items[..b.done] + b.items[b.done..end] == b.items[..end];
  }

  lemma BatchKeepsUndisturbed(w: World, i: nat, vecs: seq<Vec>)
    requires Undisturbed(w) && Enabled(w, WriteBatch(i, vecs))
    ensures Undisturbed(Apply(w, WriteBatch(i, vecs)))
  {
    hide Find, Ensure, Flip, UpsertAll;
    StepKeepsSane(w, WriteBatch(i, vecs));
    BatchKeepsOnTrack(w, i, vecs);
  }

  lemma FinishKeepsUndisturbed(w: World, i: nat)
    requires Undisturbed(w) && Enabled(w, Finish(i))
    ensures Undisturbed(Apply(w, Finish(i)))
  {
    hide Find, UpsertAll;
    StepKeepsSane(w, Finish(i));
    FlipKeepsProtocol(w.rows, i);
  }

  lemma StepKeepsUndisturbed(w: World, step: Step)
    requires Undisturbed(w) && Enabled(w, step) && CleanStep(step)
    ensures Undisturbed(Apply(w, step))
  {
    hide Apply, Undisturbed;
    match step
    case Configure(hash, _) => ConfigureKeepsUndisturbed(w, hash);
    case Prepare(i, items) => PrepareKeepsUndisturbed(w, i, items);
    case WriteBatch(i, vecs) => BatchKeepsUndisturbed(w, i, vecs);
    case Finish(i) => FinishKeepsUndisturbed(w, i);
  }

  predicate LegalRun(w: World, steps: seq<Step>)
    decreases |steps|
  {
    steps == [] || (Enabled(w, steps[0]) && LegalRun(Apply(w, steps[0]), steps[1..]))
  }

  function RunSteps(w: World, steps: seq<Step>): World
    requires LegalRun(w, steps)
    decreases |steps|
  {
    if steps == [] then w else RunSteps(Apply(w, steps[0]), steps[1..])
  }

  const EMPTY := World([], map[], map[], map[])

  lemma {:induction false} RunKeepsUndisturbed(w: World, steps: seq<Step>)
    requires Undisturbed(w) && LegalRun(w, steps) && forall s :: s in steps ==> CleanStep(s)
    ensures Undisturbed(RunSteps(w, steps))
    decreases |steps|
  {
    if steps != [] {
      StepKeepsUndisturbed(w, steps[0]);
      RunKeepsUndisturbed(Apply(w, steps[0]), steps[1..]);
    }
  }

  /** After the flip the served slot holds the listed items and whatever an abandoned build had left
      there, nothing else: it is exactly the listing just when the slot was prepared clean of others. */
  lemma {:induction false} ServedKeysExact(c: Column, items: seq<Item>, vecs: seq<Vec>, key: Key)
    requires |items| == |vecs|
    ensures key in UpsertAll(c, items, vecs) <==> key in c || Lists(items, key)
    decreases |items|
  {
    if items != [] {
      var n := |items| - 1;
      ServedKeysExact(c, items[..n], vecs[..n], key);
      assert Lists(items[..n], key) ==> Lists(items, key);
      assert items[n].key == key ==> Lists(items, key);
      assert Lists(items, key) ==> Lists(items[..n], key) || items[n].key == key;
    }
  }
}

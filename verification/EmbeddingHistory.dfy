/** Rebuilds over whole runs: where a build's data comes from, what a flip serves, and what a build that
    was given up can do to the slot being served. */
module EmbeddingHistory {
  import opened Lifecycle
  import opened Embedding
  import opened EmbeddingRebuild

  // ---------------------------------------------------------------- runs

  lemma {:induction false} RunAppend(w: World, steps: seq<Step>, p: nat)
    requires p <= |steps| && LegalRun(w, steps)
    ensures LegalRun(w, steps[..p]) && LegalRun(RunSteps(w, steps[..p]), steps[p..])
    ensures RunSteps(RunSteps(w, steps[..p]), steps[p..]) == RunSteps(w, steps)
    decreases p
  {
    if p == 0 {
      assert steps[..0] == [] && steps[0..] == steps;
    } else {
      RunAppend(Apply(w, steps[0]), steps[1..], p - 1);
      assert steps[..p][1..] == steps[1..][..p - 1] && steps[p..] == steps[1..][p - 1..];
    }
  }

  lemma LastStep(steps: seq<Step>) returns (w: World)
    requires steps != [] && LegalRun(EMPTY, steps)
    ensures var n := |steps| - 1;
      && LegalRun(EMPTY, steps[..n]) && w == RunSteps(EMPTY, steps[..n])
      && Enabled(w, steps[n]) && RunSteps(EMPTY, steps) == Apply(w, steps[n])
  {
    hide Apply, Enabled;
    var n := |steps| - 1;
    RunAppend(EMPTY, steps, n);
    w := RunSteps(EMPTY, steps[..n]);
    assert steps[n..] == [steps[n]];
    OneStep(w, steps[n]);
  }

  lemma OneStep(w: World, step: Step)
    requires LegalRun(w, [step])
    ensures Enabled(w, step) && RunSteps(w, [step]) == Apply(w, step)
  {
    hide Apply, Enabled;
    assert [step][1..] == [];
  }

  /** The invariant holds in every state any run reaches, stopped builds or not. */
  lemma {:induction false} RunKeepsSane(w: World, steps: seq<Step>)
    requires Sane(w) && LegalRun(w, steps)
    ensures Sane(RunSteps(w, steps))
    decreases |steps|
  {
    hide Apply, Enabled, Sane;
    if steps != [] {
      StepKeepsSane(w, steps[0]);
      RunKeepsSane(Apply(w, steps[0]), steps[1..]);
    }
  }

  // ---------------------------------------------------------------- where a build's data comes from

  /** The vectors a run writes for a version, in order. */
  function Written(steps: seq<Step>, i: nat): seq<Vec>
    decreases |steps|
  {
    if steps == [] then []
    else
      var last := steps[|steps| - 1];
      Written(steps[..|steps| - 1], i) + if last.WriteBatch? && last.version == i then last.vecs else []
  }

  /** The build was prepared by step p: it took the version's slot, what that held and what was listed
      then, and has written what the run has written for it since. */
  ghost predicate PreparedAt(steps: seq<Step>, p: nat, i: nat, b: Build) {
    && p < |steps| && steps[p] == Prepare(i, b.items) && LegalRun(EMPTY, steps[..p])
    && var w := RunSteps(EMPTY, steps[..p]);
      && i < |w.rows| && w.rows[i].status == Building && i !in w.builds
      && b.slot == w.rows[i].slot && b.before == In(w, b.slot)
      && b.vecs == Written(steps[p + 1..], i)
  }

  lemma {:induction false} PreparedFrom(steps: seq<Step>, i: nat)
    requires LegalRun(EMPTY, steps) && i in RunSteps(EMPTY, steps).builds
    ensures exists p :: PreparedAt(steps, p, i, RunSteps(EMPTY, steps).builds[i])
    decreases |steps|
  {
    if steps != [] {
      var n := |steps| - 1;
      var w := LastStep(steps);
      if i in w.builds {
        PreparedFrom(steps[..n], i);
        var p: nat :| PreparedAt(steps[..n], p, i, w.builds[i]);
        BuildMoves(w, steps[n], i);
        PreparedLater(steps, p, i, w.builds[i], RunSteps(EMPTY, steps).builds[i]);
      } else {
        BuildBegins(w, steps[n], i);
        assert steps[n + 1..] == [];
        assert PreparedAt(steps, n, i, RunSteps(EMPTY, steps).builds[i]);
      }
    }
  }

  /** A step may add a batch to a build; the rest of it stays. */
  lemma BuildMoves(w: World, step: Step, i: nat)
    requires Enabled(w, step) && i in w.builds && i in Apply(w, step).builds
    ensures var from, to := w.builds[i], Apply(w, step).builds[i];
      && to.slot == from.slot && to.before == from.before && to.items == from.items
      && to.vecs == from.vecs + if step.WriteBatch? && step.version == i then step.vecs else []
  {
    hide UpsertAll, Ensure, Flip;
  }

  lemma BuildBegins(w: World, step: Step, i: nat)
    requires Enabled(w, step) && i !in w.builds && i in Apply(w, step).builds
    ensures step.Prepare? && step.version == i && i < |w.rows| && w.rows[i].status == Building
    ensures Apply(w, step).builds[i] == Build(w.rows[i].slot, In(w, w.rows[i].slot), step.items, 0, [])
  {
    hide UpsertAll, Ensure, Flip;
  }

  lemma PreparedLater(steps: seq<Step>, p: nat, i: nat, from: Build, to: Build)
    requires steps != [] && PreparedAt(steps[..|steps| - 1], p, i, from)
    requires to.slot == from.slot && to.before == from.before && to.items == from.items
    requires var last := steps[|steps| - 1]; to.vecs == from.vecs + if last.WriteBatch? && last.version == i then last.vecs else []
    ensures PreparedAt(steps, p, i, to)
  {
    hide LegalRun, RunSteps;
    var n := |steps| - 1;
    assert steps[..n][..p] == steps[..p];
    assert steps[p + 1..][..n - p - 1] == steps[..n][p + 1..];
  }

  /** The state after the flip of an undisturbed build. */
  ghost predicate Serves(w: World, i: nat)
    requires Enabled(w, Finish(i))
  {
    var after, b, prior := Apply(w, Finish(i)), w.builds[i], Find(w.rows, Active);
    && Find(after.rows, Active) == Some(i) && i < |after.rows| && after.rows[i].slot == b.slot
    && |b.vecs| == |b.items|
    && In(after, b.slot) == UpsertAll(b.before, b.items, b.vecs)
    && (prior.Some? ==>
          && prior.value < |w.rows| && w.rows[prior.value].slot != b.slot
          && In(after, w.rows[prior.value].slot) == map[])
  }

  lemma FlipServes(w: World, i: nat)
    requires Undisturbed(w) && Enabled(w, Finish(i))
    ensures Serves(w, i)
  {
    hide UpsertAll, Find;
    var b := w.builds[i];
    FindExact(w.rows, Active);
    FlipKeepsProtocol(w.rows, i);
    assert b.items[..b.done] == b.items;
  }

  /** Rebuild correctness. In a run in which superseded builds are stopped, the flip that ends a build
      serves the slot as its prepare step found it, overlaid with every item listed then and the vector
      written for it since, and leaves the slot served before it empty. */
  lemma FlipServesTheRebuild(steps: seq<Step>, i: nat)
    requires LegalRun(EMPTY, steps) && forall s :: s in steps ==> CleanStep(s)
    requires Enabled(RunSteps(EMPTY, steps), Finish(i))
    ensures exists p :: PreparedAt(steps, p, i, RunSteps(EMPTY, steps).builds[i])
    ensures Serves(RunSteps(EMPTY, steps), i)
    ensures var w := RunSteps(EMPTY, steps);
      var after, b := Apply(w, Finish(i)), w.builds[i];
      DistinctKeys(b.items) ==>
        forall k :: 0 <= k < |b.items| ==> b.items[k].key in In(after, b.slot) && In(after, b.slot)[b.items[k].key] == b.vecs[k]
  {
    hide LegalRun, RunSteps, Undisturbed, UpsertAll, Find;
    RunKeepsUndisturbed(EMPTY, steps);
    PreparedFrom(steps, i);
    var w := RunSteps(EMPTY, steps);
    FlipServes(w, i);
    var b := w.builds[i];
    forall k | 0 <= k < |b.items| && DistinctKeys(b.items)
      ensures b.items[k].key in UpsertAll(b.before, b.items, b.vecs) && UpsertAll(b.before, b.items, b.vecs)[b.items[k].key] == b.vecs[k]
    {
      UpsertAllAt(b.before, b.items, b.vecs, k);
    }
  }

  /** What is served after the flip is the listing, no more and no less, exactly when the slot held no key
      outside the listing when it was prepared. */
  lemma ServedListingExact(steps: seq<Step>, i: nat)
    requires LegalRun(EMPTY, steps) && forall s :: s in steps ==> CleanStep(s)
    requires Enabled(RunSteps(EMPTY, steps), Finish(i))
    ensures var w := RunSteps(EMPTY, steps);
      var b := w.builds[i];
      && (forall key :: key in In(Apply(w, Finish(i)), b.slot) <==> key in b.before || Lists(b.items, key))
      && ((forall key :: key in In(Apply(w, Finish(i)), b.slot) <==> Lists(b.items, key)) <==> forall key :: key in b.before ==> Lists(b.items, key))
  {
    FlipServesTheRebuild(steps, i);
    var b := RunSteps(EMPTY, steps).builds[i];
    forall key
      ensures key in UpsertAll(b.before, b.items, b.vecs) <==> key in b.before || Lists(b.items, key)
    {
      ServedKeysExact(b.before, b.items, b.vecs, key);
    }
  }

  // ---------------------------------------------------------------- builds that were given up

  /** A vector other than the one the column has for the key. */
  function OtherVector(c: Column, key: Key): Vec {
    if key in c then c[key] + [0.0] else []
  }

  /** In every reachable state: no content of a build's next batch can change what is served exactly when
      the build's slot is not the one served, which holds for every build still building. */
  lemma ServedSlotExact(steps: seq<Step>, i: nat)
    requires LegalRun(EMPTY, steps)
    requires var w := RunSteps(EMPTY, steps);
      i in w.builds && w.builds[i].done < |w.builds[i].items| && Find(w.rows, Active).Some?
    ensures var w := RunSteps(EMPTY, steps);
      var a := Find(w.rows, Active).value;
      && a < |w.rows| && i < |w.rows|
      && ((forall vecs :: Enabled(w, WriteBatch(i, vecs)) ==> In(Apply(w, WriteBatch(i, vecs)), w.rows[a].slot) == In(w, w.rows[a].slot))
            <==> w.builds[i].slot != w.rows[a].slot)
      && (w.rows[i].status == Building ==> w.builds[i].slot != w.rows[a].slot)
  {
    RunKeepsSane(EMPTY, steps);
    var w := RunSteps(EMPTY, steps);
    FindExact(w.rows, Active);
    var b, served := w.builds[i], w.rows[Find(w.rows, Active).value].slot;
    if b.slot == served {
      BatchCanChange(w, i);
    } else {
      forall vecs | Enabled(w, WriteBatch(i, vecs))
        ensures In(Apply(w, WriteBatch(i, vecs)), served) == In(w, served)
      {
        hide UpsertAll;
      }
    }
  }

  lemma BatchCanChange(w: World, i: nat)
    requires i in w.builds && w.builds[i].done < |w.builds[i].items|
    ensures exists vecs :: Enabled(w, WriteBatch(i, vecs)) && In(Apply(w, WriteBatch(i, vecs)), w.builds[i].slot) != In(w, w.builds[i].slot)
  {
    var b := w.builds[i];
    var end := BatchEnd(b);
    var batch := b.items[b.done..end];
    var n := |batch| - 1;
    var key := batch[n].key;
    var vecs := seq(end - b.done, k => OtherVector(In(w, b.slot), key));
    assert UpsertAll(In(w, b.slot), batch, vecs)[key] == OtherVector(In(w, b.slot), key);
    assert Enabled(w, WriteBatch(i, vecs));
  }

  /** Why superseded builds must be stopped: both builds below start on the free slot, the second is
      flipped live, and a batch the first still sends overwrites what is being served. */
  lemma StaleBuildCorrupts(item: Item, v: Vec, stale: Vec)
    requires v != stale
    ensures var steps := [Configure("a", false), Prepare(0, [item]), Configure("b", false), Prepare(1, [item]), WriteBatch(1, [v]), Finish(1)];
      && LegalRun(EMPTY, steps)
      && var w := RunSteps(EMPTY, steps);
      && Find(w.rows, Active) == Some(1) && w.rows[1].slot == Blue && w.blue == map[item.key := v]
      && Enabled(w, WriteBatch(0, [stale]))
      && Apply(w, WriteBatch(0, [stale])).blue == map[item.key := stale]
  {
    hide LegalRun, RunSteps, Apply, UpsertAll, Find;
    var w1, w2, w3, w4 := StaleStart(item);
    StaleWrites(w4, item, v, stale);
    StaleSteps(w1, w2, w3, w4, item, v);
  }

  /** Two builds on the free slot, the first superseded but not stopped. */
  lemma StaleStart(item: Item) returns (w1: World, w2: World, w3: World, w4: World)
    ensures w1 == Apply(EMPTY, Configure("a", false))
    ensures Enabled(w1, Prepare(0, [item])) && w2 == Apply(w1, Prepare(0, [item]))
    ensures w3 == Apply(w2, Configure("b", false))
    ensures Enabled(w3, Prepare(1, [item])) && w4 == Apply(w3, Prepare(1, [item]))
    ensures w4.rows == [Version(Blue, "a", Superseded), Version(Blue, "b", Building)] && w4.blue == map[] && w4.green == map[]
    ensures w4.builds == map[0 := Build(Blue, map[], [item], 0, []), 1 := Build(Blue, map[], [item], 0, [])]
  {
    hide UpsertAll;
    var b0 := Build(Blue, map[], [item], 0, []);
    var one := Version(Blue, "a", Building);
    w1 := World([one], map[], map[], map[]);
    FindExact([], Active);
    FindExact([], Building);
    assert Apply(EMPTY, Configure("a", false)) == w1;
    w2 := w1.(builds := map[0 := b0]);
    FindExact(w2.rows, Active);
    FindExact(w2.rows, Building);
    w3 := w2.(rows := [one.(status := Superseded), Version(Blue, "b", Building)]);
    assert Apply(w2, Configure("b", false)) == w3;
    w4 := w3.(builds := map[0 := b0, 1 := b0]);
  }

  lemma UpsertOne(c: Column, item: Item, v: Vec)
    ensures UpsertAll(c, [item], [v]) == c[item.key := v]
  {
    assert UpsertAll(c, [item][..0], [v][..0]) == c;
  }

  lemma StaleWrites(w: World, item: Item, v: Vec, stale: Vec)
    requires w.rows == [Version(Blue, "a", Superseded), Version(Blue, "b", Building)] && w.blue == map[] && w.green == map[]
    requires w.builds == map[0 := Build(Blue, map[], [item], 0, []), 1 := Build(Blue, map[], [item], 0, [])]
    ensures Enabled(w, WriteBatch(1, [v])) && Enabled(Apply(w, WriteBatch(1, [v])), Finish(1))
    ensures var end := Apply(Apply(w, WriteBatch(1, [v])), Finish(1));
      && Find(end.rows, Active) == Some(1) && |end.rows| == 2 && end.rows[1].slot == Blue && end.blue == map[item.key := v]
      && Enabled(end, WriteBatch(0, [stale])) && Apply(end, WriteBatch(0, [stale])).blue == map[item.key := stale]
  {
    UpsertOne(map[], item, v);
    UpsertOne(map[item.key := v], item, stale);
    assert [item][0..1] == [item];
    var flipped := [Version(Blue, "a", Superseded), Version(Blue, "b", Active)];
    FindExact(w.rows, Active);
    assert Flip(w.rows, 1).rows == flipped;
  }

  lemma StaleSteps(w1: World, w2: World, w3: World, w4: World, item: Item, v: Vec)
    requires w1 == Apply(EMPTY, Configure("a", false))
    requires Enabled(w1, Prepare(0, [item])) && w2 == Apply(w1, Prepare(0, [item]))
    requires w3 == Apply(w2, Configure("b", false))
    requires Enabled(w3, Prepare(1, [item])) && w4 == Apply(w3, Prepare(1, [item]))
    requires Enabled(w4, WriteBatch(1, [v])) && Enabled(Apply(w4, WriteBatch(1, [v])), Finish(1))
    ensures var steps := [Configure("a", false), Prepare(0, [item]), Configure("b", false), Prepare(1, [item]), WriteBatch(1, [v]), Finish(1)];
      LegalRun(EMPTY, steps) && RunSteps(EMPTY, steps) == Apply(Apply(w4, WriteBatch(1, [v])), Finish(1))
  {
    var w5 := Apply(w4, WriteBatch(1, [v]));
    OneMore(w5, Finish(1), []);
    OneMore(w4, WriteBatch(1, [v]), [Finish(1)]);
    OneMore(w3, Prepare(1, [item]), [WriteBatch(1, [v]), Finish(1)]);
    OneMore(w2, Configure("b", false), [Prepare(1, [item]), WriteBatch(1, [v]), Finish(1)]);
    OneMore(w1, Prepare(0, [item]), [Configure("b", false), Prepare(1, [item]), WriteBatch(1, [v]), Finish(1)]);
    OneMore(EMPTY, Configure("a", false), [Prepare(0, [item]), Configure("b", false), Prepare(1, [item]), WriteBatch(1, [v]), Finish(1)]);
  }

  lemma OneMore(w: World, step: Step, rest: seq<Step>)
    requires Enabled(w, step) && LegalRun(Apply(w, step), rest)
    ensures LegalRun(w, [step] + rest) && RunSteps(w, [step] + rest) == RunSteps(Apply(w, step), rest)
  {
    assert ([step] + rest)[1..] == rest;
  }

  // ---------------------------------------------------------------- leftovers

  /** With every superseded build stopped: one build is given up after its first batch, the next takes the
      same slot with another listing and is flipped live, and the first one's item is served. */
  lemma LeftoversServed(gone: Item, kept: Item, u: Vec, v: Vec)
    requires gone.key != kept.key
    ensures var steps := [Configure("a", true), Prepare(0, [gone]), WriteBatch(0, [u]), Configure("b", true),
                          Prepare(1, [kept]), WriteBatch(1, [v])];
      && LegalRun(EMPTY, steps) && (forall s :: s in steps ==> CleanStep(s))
      && Enabled(RunSteps(EMPTY, steps), Finish(1))
      && var after := Apply(RunSteps(EMPTY, steps), Finish(1));
        && Find(after.rows, Active) == Some(1) && 1 < |after.rows| && after.rows[1].slot == Blue
        && after.blue == map[gone.key := u, kept.key := v] && !Lists([kept], gone.key)
  {
    hide LegalRun, RunSteps, Apply, UpsertAll, Find;
    var w1, w2, w3, w4 := LeftoverStart(gone, u);
    var w5, w6 := LeftoverEnd(w4, gone.key, u, kept, v);
    LegalNothing(w6);
    var c, d := Prepare(1, [kept]), WriteBatch(1, [v]);
    Longer(w5, d, [], [d]);
    Longer(w4, c, [d], [c, d]);
    Longer(w3, Configure("b", true), [c, d], [Configure("b", true), c, d]);
    Longer(w2, WriteBatch(0, [u]), [Configure("b", true), c, d], [WriteBatch(0, [u]), Configure("b", true), c, d]);
    Longer(w1, Prepare(0, [gone]), [WriteBatch(0, [u]), Configure("b", true), c, d],
           [Prepare(0, [gone]), WriteBatch(0, [u]), Configure("b", true), c, d]);
    Longer(EMPTY, Configure("a", true), [Prepare(0, [gone]), WriteBatch(0, [u]), Configure("b", true), c, d],
           [Configure("a", true), Prepare(0, [gone]), WriteBatch(0, [u]), Configure("b", true), c, d]);
  }

  lemma Longer(w: World, step: Step, rest: seq<Step>, all: seq<Step>)
    requires all == [step] + rest && Enabled(w, step) && LegalRun(Apply(w, step), rest)
    ensures LegalRun(w, all) && RunSteps(w, all) == RunSteps(Apply(w, step), rest)
  {
    hide Apply, Enabled;
    assert all[1..] == rest;
  }

  lemma LegalNothing(w: World)
    ensures LegalRun(w, []) && RunSteps(w, []) == w
  {
  }

  lemma FirstConfigured(hash: string)
    ensures Ensure([], hash) == Ensured([Version(Blue, hash, Building)], Some(0), None)
  {
    FindExact([], Active);
    FindExact([], Building);
  }

  lemma SecondConfigured(first: string, second: string)
    requires first != second
    ensures Ensure([Version(Blue, first, Building)], second) ==
      Ensured([Version(Blue, first, Superseded), Version(Blue, second, Building)], Some(1), Some(0))
  {
    var one := [Version(Blue, first, Building)];
    FindExact(one, Active);
    FindExact(one, Building);
    assert SetStatus(one, 0, Superseded) == [Version(Blue, first, Superseded)];
  }

  lemma LeftoverStart(gone: Item, u: Vec) returns (w1: World, w2: World, w3: World, w4: World)
    ensures w1 == Apply(EMPTY, Configure("a", true))
    ensures Enabled(w1, Prepare(0, [gone])) && w2 == Apply(w1, Prepare(0, [gone]))
    ensures Enabled(w2, WriteBatch(0, [u])) && w3 == Apply(w2, WriteBatch(0, [u]))
    ensures w4 == Apply(w3, Configure("b", true))
    ensures w4 == World([Version(Blue, "a", Superseded), Version(Blue, "b", Building)], map[gone.key := u], map[], map[])
  {
    hide UpsertAll, Find, Ensure, Flip;
    var one := Version(Blue, "a", Building);
    w1 := World([one], map[], map[], map[]);
    w2 := w1.(builds := map[0 := Build(Blue, map[], [gone], 0, [])]);
    LeftoverBatch(w2, 0, gone, u);
    w3 := World([one], map[gone.key := u], map[], map[0 := Build(Blue, map[], [gone], 1, [u])]);
    w4 := World([one.(status := Superseded), Version(Blue, "b", Building)], w3.blue, map[], map[]);
    FirstConfigured("a");
    SecondConfigured("a", "b");
    assert Without(w3.builds, 0) == map[];
  }

  lemma LeftoverBatch(w: World, i: nat, item: Item, v: Vec)
    requires i in w.builds && w.builds[i].slot == Blue && w.builds[i].items == [item] && w.builds[i].done == 0 && w.builds[i].vecs == []
    ensures Enabled(w, WriteBatch(i, [v]))
    ensures Apply(w, WriteBatch(i, [v])) ==
      w.(blue := w.blue[item.key := v], builds := w.builds[i := w.builds[i].(done := 1, vecs := [v])])
  {
    hide UpsertAll;
    UpsertOne(w.blue, item, v);
    assert [item][0..1] == [item] && w.builds[i].vecs + [v] == [v];
    assert w.builds[i].(done := 1, vecs := w.builds[i].vecs + [v]) == w.builds[i].(done := 1, vecs := [v]);
  }

  lemma LeftoverEnd(w4: World, key: Key, u: Vec, kept: Item, v: Vec) returns (w5: World, w6: World)
    requires w4 == World([Version(Blue, "a", Superseded), Version(Blue, "b", Building)], map[key := u], map[], map[])
    ensures Enabled(w4, Prepare(1, [kept])) && w5 == Apply(w4, Prepare(1, [kept]))
    ensures Enabled(w5, WriteBatch(1, [v])) && w6 == Apply(w5, WriteBatch(1, [v]))
    ensures Enabled(w6, Finish(1))
    ensures var after := Apply(w6, Finish(1));
      && Find(after.rows, Active) == Some(1) && |after.rows| == 2 && after.rows[1].slot == Blue
      && after.blue == map[key := u][kept.key := v]
  {
    hide UpsertAll, Find, Ensure, Flip;
    w5 := w4.(builds := map[1 := Build(Blue, w4.blue, [kept], 0, [])]);
    LeftoverBatch(w5, 1, kept, v);
    w6 := Apply(w5, WriteBatch(1, [v]));
    LeftoverFlip(w6);
  }

  lemma LeftoverFlip(w: World)
    requires w.rows == [Version(Blue, "a", Superseded), Version(Blue, "b", Building)]
    requires 1 in w.builds && w.builds[1].done == |w.builds[1].items|
    ensures Enabled(w, Finish(1))
    ensures var after := Apply(w, Finish(1));
      Find(after.rows, Active) == Some(1) && |after.rows| == 2 && after.rows[1].slot == Blue && after.blue == w.blue
  {
    FindExact(w.rows, Active);
    var flipped := [Version(Blue, "a", Superseded), Version(Blue, "b", Active)];
    assert Flip(w.rows, 1).rows == flipped;
    FindExact(flipped, Active);
  }
}

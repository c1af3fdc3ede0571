/** The embedding tables and the operations that update them in place. */
module EmbeddingStore {
  import opened Lifecycle
  import opened Embedding
  import opened EmbeddingRebuild

  /** The embedder's answer to the n-th call, None for an error. */
  type Embedder = (nat, seq<string>) -> Option<seq<Vec>>

  datatype Outcome = Failed | Abandoned | Finished(flipped: bool)

  function Texts(items: seq<Item>): seq<string> {
    seq(|items|, k requires 0 <= k < |items| => items[k].text)
  }

  function Bound(items: seq<Item>, n: nat): nat {
    if n * BATCH < |items| then n * BATCH else |items|
  }

  /** The vectors for the n-th batch of the list. */
  function BatchVectors(embed: Embedder, items: seq<Item>, n: nat): Option<seq<Vec>> {
    var batch := items[Bound(items, n)..Bound(items, n + 1)];
    var got := embed(n, Texts(batch));
    if got.Some? && |got.value| == |batch| then got else None
  }

  /** The vectors of the first n batches, None as soon as one fails. */
  function Gathered(embed: Embedder, items: seq<Item>, n: nat): Option<seq<Vec>> {
    if n == 0 then Some([])
    else if Gathered(embed, items, n - 1).None? || BatchVectors(embed, items, n - 1).None? then None
    else Some(Gathered(embed, items, n - 1).value + BatchVectors(embed, items, n - 1).value)
  }

  /** The length of the first vector of the last batch that has a non-empty one, zero when none has. */
  function DimensionOf(embed: Embedder, items: seq<Item>, n: nat): nat {
    if n == 0 then 0
    else
      var vecs := BatchVectors(embed, items, n - 1);
      if vecs.Some? && |vecs.value| > 0 && |vecs.value[0]| > 0 then |vecs.value[0]| else DimensionOf(embed, items, n - 1)
  }

  function Batches(items: seq<Item>): nat {
    (|items| + BATCH - 1) / BATCH
  }

  /** The batches partition the list: item k is embedded once, as entry k % 64 of batch k / 64. */
  lemma {:induction false} GatheredAt(embed: Embedder, items: seq<Item>, n: nat)
    requires Gathered(embed, items, n).Some?
    ensures |Gathered(embed, items, n).value| == Bound(items, n)
    ensures forall k :: 0 <= k < Bound(items, n) ==>
      var batch := BatchVectors(embed, items, k / BATCH);
      && batch.Some? && k % BATCH < |batch.value|
      && items[Bound(items, k / BATCH)..Bound(items, k / BATCH + 1)][k % BATCH] == items[k]
      && Gathered(embed, items, n).value[k] == batch.value[k % BATCH]
  {
    if n > 0 {
      GatheredAt(embed, items, n - 1);
      forall k | Bound(items, n - 1) <= k < Bound(items, n)
        ensures k / BATCH == n - 1 && k % BATCH == k - Bound(items, n - 1)
      {
        assert Bound(items, n - 1) == (n - 1) * BATCH;
      }
    }
  }

  // ---------------------------------------------------------------- which text a vector is made from

  /** The texts of items 64n, 64n + 1, and so on up to 64 of them. */
  ghost function TextsFrom(items: seq<Item>, n: nat): seq<string>
    requires 64 * n < |items|
  {
    var m := if |items| - 64 * n < 64 then |items| - 64 * n else 64;
    seq(m, j requires 0 <= j < m => items[64 * n + j].text)
  }

  /** The n-th batch was answered, with one vector for each text. */
  ghost predicate Answered(embed: Embedder, items: seq<Item>, n: nat)
    requires 64 * n < |items|
  {
    var got := embed(n, TextsFrom(items, n));
    got.Some? && |got.value| == |TextsFrom(items, n)|
  }

  /** A batch hands the embedder the texts of its items, in their order, and takes an answer of their number. */
  lemma BatchVectorsExact(embed: Embedder, items: seq<Item>, n: nat)
    requires 64 * n < |items|
    ensures BatchVectors(embed, items, n) == if Answered(embed, items, n) then embed(n, TextsFrom(items, n)) else None
  {
    assert Texts(items[Bound(items, n)..Bound(items, n + 1)]) == TextsFrom(items, n);
  }

  /** The list is embedded when every batch of it is answered. */
  lemma {:induction false} GatheredExact(embed: Embedder, items: seq<Item>, n: nat)
    requires n <= Batches(items)
    ensures Gathered(embed, items, n).Some? <==> forall m: nat :: m < n ==> 64 * m < |items| && Answered(embed, items, m)
  {
    if n > 0 {
      GatheredExact(embed, items, n - 1);
      BatchVectorsExact(embed, items, n - 1);
    }
  }

  /** Entry k mod 64 of what the embedder made of the texts of batch k div 64. */
  ghost function VectorFor(embed: Embedder, items: seq<Item>, k: nat): Option<Vec>
    requires k < |items|
  {
    var texts := TextsFrom(items, k / 64);
    if Answered(embed, items, k / 64) && k % 64 < |texts| then Some(embed(k / 64, texts).value[k % 64]) else None
  }

  /** That is the vector item k gets. */
  lemma VectorOf(embed: Embedder, items: seq<Item>, n: nat, k: nat)
    requires n <= Batches(items) && Gathered(embed, items, n).Some? && k < Bound(items, n)
    ensures |Gathered(embed, items, n).value| == Bound(items, n)
    ensures VectorFor(embed, items, k) == Some(Gathered(embed, items, n).value[k])
  {
    GatheredAt(embed, items, n);
    GatheredExact(embed, items, n);
    BatchVectorsExact(embed, items, k / 64);
  }

  /** The embedder makes each vector from its text alone. */
  ghost predicate Pointwise(embed: Embedder, f: string -> Vec) {
    forall n: nat, texts :: embed(n, texts) == Some(seq(|texts|, j requires 0 <= j < |texts| => f(texts[j])))
  }

  /** In the column, the last item of every key has the vector the embedder made from its text, and whatever is
      not listed is as before. */
  ghost predicate HoldsOwn(before: Column, after: Column, embed: Embedder, items: seq<Item>) {
    && (forall k: nat :: k < |items| && LastOfKey(items, k) ==>
          items[k].key in after && VectorFor(embed, items, k) == Some(after[items[k].key]))
    && (forall key :: !Lists(items, key) ==> (key in after <==> key in before) && (key in before ==> after[key] == before[key]))
  }

  /** Embedding the list in batches and writing it gives every item the vector of its own text. */
  lemma EachItsOwn(c: Column, embed: Embedder, items: seq<Item>)
    requires Gathered(embed, items, Batches(items)).Some?
    requires |Gathered(embed, items, Batches(items)).value| == |items|
    ensures HoldsOwn(c, UpsertAll(c, items, Gathered(embed, items, Batches(items)).value), embed, items)
  {
    hide UpsertAll, Gathered, VectorFor, LastOfKey, Lists;
    var vecs := Gathered(embed, items, Batches(items)).value;
    forall k: nat | k < |items|
      ensures VectorFor(embed, items, k) == Some(vecs[k])
      ensures LastOfKey(items, k) ==> items[k].key in UpsertAll(c, items, vecs) && UpsertAll(c, items, vecs)[items[k].key] == vecs[k]
    {
      VectorOf(embed, items, Batches(items), k);
      if LastOfKey(items, k) {
        UpsertAllAt(c, items, vecs, k);
      }
    }
    forall key | !Lists(items, key)
      ensures key in UpsertAll(c, items, vecs) <==> key in c
      ensures key in c ==> UpsertAll(c, items, vecs)[key] == c[key]
    {
      UpsertAllElsewhere(c, items, vecs, key);
    }
  }

  lemma TextOf(items: seq<Item>, k: nat)
    requires k < |items|
    ensures 64 * (k / 64) < |items| && k % 64 < |TextsFrom(items, k / 64)| && TextsFrom(items, k / 64)[k % 64] == items[k].text
  {
  }

  lemma PointwiseVector(embed: Embedder, items: seq<Item>, f: string -> Vec, k: nat)
    requires Pointwise(embed, f) && k < |items|
    ensures VectorFor(embed, items, k) == Some(f(items[k].text))
  {
    hide TextsFrom;
    TextOf(items, k);
    assert embed(k / 64, TextsFrom(items, k / 64)).Some?;
  }

  /** With an embedder that looks at each text alone, every item has the vector of its own text. */
  lemma OwnVector(before: Column, after: Column, embed: Embedder, items: seq<Item>, f: string -> Vec, k: nat)
    requires HoldsOwn(before, after, embed, items) && Pointwise(embed, f) && k < |items| && LastOfKey(items, k)
    ensures items[k].key in after && after[items[k].key] == f(items[k].text)
  {
    hide VectorFor, Pointwise, LastOfKey;
    PointwiseVector(embed, items, f, k);
  }

  lemma AllOwnVectors(before: Column, after: Column, embed: Embedder, items: seq<Item>)
    requires HoldsOwn(before, after, embed, items)
    ensures forall f :: Pointwise(embed, f) ==> forall k: nat :: k < |items| && LastOfKey(items, k) ==>
      items[k].key in after && after[items[k].key] == f(items[k].text)
  {
    hide HoldsOwn;
    forall f, k: nat | Pointwise(embed, f) && k < |items| && LastOfKey(items, k)
      ensures items[k].key in after && after[items[k].key] == f(items[k].text)
    {
      OwnVector(before, after, embed, items, f, k);
    }
  }

  /** How many entries the first vector of batch m has. */
  ghost function FirstLength(embed: Embedder, items: seq<Item>, m: nat): nat {
    if 64 * m < |items| && VectorFor(embed, items, 64 * m).Some? then |VectorFor(embed, items, 64 * m).value| else 0
  }

  lemma FirstOfBatch(embed: Embedder, items: seq<Item>, m: nat)
    requires m < Batches(items) && BatchVectors(embed, items, m).Some?
    ensures |BatchVectors(embed, items, m).value| > 0
    ensures FirstLength(embed, items, m) == |BatchVectors(embed, items, m).value[0]|
  {
    BatchVectorsExact(embed, items, m);
    assert (64 * m) / 64 == m;
  }

  /** The dimension recorded is the length of the first vector of the last batch whose first vector has any
      entries. */
  lemma {:induction false} DimensionExact(embed: Embedder, items: seq<Item>, n: nat, m: nat)
    requires m < n <= Batches(items) && Gathered(embed, items, n).Some?
    requires FirstLength(embed, items, m) > 0 && forall l: nat :: m < l < n ==> FirstLength(embed, items, l) == 0
    ensures DimensionOf(embed, items, n) == FirstLength(embed, items, m)
  {
    hide FirstLength, BatchVectors;
    FirstOfBatch(embed, items, n - 1);
    if m < n - 1 {
      assert FirstLength(embed, items, n - 1) == 0;
      DimensionExact(embed, items, n - 1, m);
    }
  }

  /** It is zero when no batch has one. */
  lemma {:induction false} NoDimension(embed: Embedder, items: seq<Item>, n: nat)
    requires n <= Batches(items) && Gathered(embed, items, n).Some?
    requires forall l: nat :: l < n ==> FirstLength(embed, items, l) == 0
    ensures DimensionOf(embed, items, n) == 0
  {
    hide FirstLength, BatchVectors;
    if n > 0 {
      FirstOfBatch(embed, items, n - 1);
      assert FirstLength(embed, items, n - 1) == 0;
      NoDimension(embed, items, n - 1);
    }
  }

  lemma FailureIsFinal(embed: Embedder, items: seq<Item>, n: nat, m: nat)
    requires Gathered(embed, items, n).None? && n <= m
    ensures Gathered(embed, items, m).None?
    decreases m
  {
    if n < m {
      FailureIsFinal(embed, items, n, m - 1);
    }
  }

  class Tables {
    var rows: Registry
    var blue: Column
    var green: Column
    var dimension: map<nat, nat>

    constructor ()
      ensures rows == [] && blue == map[] && green == map[] && dimension == map[]
    {
      rows, blue, green, dimension := [], map[], map[], map[];
    }

    function SlotColumn(s: Slot): Column
      reads this
    {
      if s == Blue then blue else green
    }

    /** Makes the registry agree with a configuration; reports the build to start and the one to cancel. */
    method EnsureActiveVersion(hash: string) returns (started: Option<nat>, superseded: Option<nat>)
      modifies this`rows
      ensures Ensured(rows, started, superseded) == Ensure(old(rows), hash)
    {
      started, superseded := None, None;
      var active := Find(rows, Active);
      var building := Find(rows, Building);
      FindExact(rows, Active);
      FindExact(rows, Building);
      if building.Some? && rows[building.value].hash == hash {
        return;
      }
      if building.Some? {
        rows := SetStatus(rows, building.value, Superseded);
        superseded := building;
      }
      if active.Some? && rows[active.value].hash == hash {
        return;
      }
      var slot := IdleSlot(if active.Some? then Some(rows[active.value].slot) else None);
      started := Some(|rows|);
      rows := rows + [Version(slot, hash, Building)];
    }

    method ClearSlot(slot: Slot)
      modifies this`blue, this`green
      ensures SlotColumn(slot) == map[]
      ensures forall s :: s != slot ==> SlotColumn(s) == old(SlotColumn(s))
    {
      if slot == Blue {
        blue := map[];
      } else {
        green := map[];
      }
    }

    method Upsert(slot: Slot, key: Key, vec: Vec)
      modifies this`blue, this`green
      ensures SlotColumn(slot) == old(SlotColumn(slot))[key := vec]
      ensures forall s :: s != slot ==> SlotColumn(s) == old(SlotColumn(s))
    {
      if slot == Blue {
        blue := blue[key := vec];
      } else {
        green := green[key := vec];
      }
    }

    /** Activates a version that is still building, retiring the active one and clearing its slot. */
    method FlipLive(version: nat) returns (flipped: bool)
      requires version < |rows|
      modifies this`rows, this`blue, this`green
      ensures var f := Embedding.Flip(old(rows), version);
        && rows == f.rows && flipped == f.done
        && forall s :: SlotColumn(s) == if f.cleared == Some(s) then map[] else old(SlotColumn(s))
    {
      if rows[version].status != Building {
        return false;
      }
      var prior := Find(rows, Active);
      FindExact(rows, Active);
      var slot := rows[version].slot;
      ghost var was := rows;
      rows := RetireActiveExcept(rows, version);
      rows := SetStatus(rows, version, Active);
      if prior.Some? && rows[prior.value].slot != slot {
        ClearSlot(rows[prior.value].slot);
      }
      flipped := true;
    }

    /** One batch step: embed the texts, check the count, write each item's vector. */
    method RunBatch(slot: Slot, items: seq<Item>, n: nat, embed: Embedder) returns (vecs: Option<seq<Vec>>)
      requires n * BATCH < |items|
      modifies this`blue, this`green
      ensures vecs == BatchVectors(embed, items, n)
      ensures vecs == if Answered(embed, items, n) then embed(n, TextsFrom(items, n)) else None
      ensures vecs.Some? ==> |vecs.value| == Bound(items, n + 1) - Bound(items, n)
      ensures SlotColumn(slot) == (
        if vecs.None? then old(SlotColumn(slot))
        else UpsertAll(old(SlotColumn(slot)), items[Bound(items, n)..Bound(items, n + 1)], vecs.value))
      ensures forall s :: s != slot ==> SlotColumn(s) == old(SlotColumn(s))
    {
      BatchVectorsExact(embed, items, n);
      var batch := items[Bound(items, n)..Bound(items, n + 1)];
      vecs := embed(n, Texts(batch));
      if vecs.None? || |vecs.value| != |batch| {
        return None;
      }
      var j := 0;
      while j < |batch|
        invariant 0 <= j <= |batch|
        invariant SlotColumn(slot) == UpsertAll(old(SlotColumn(slot)), batch[..j], vecs.value[..j])
        invariant forall s :: s != slot ==> SlotColumn(s) == old(SlotColumn(s))
      {
        assert batch[..j + 1][..j] == batch[..j] && vecs.value[..j + 1][..j] == vecs.value[..j];
        Upsert(slot, batch[j].key, vecs.value[j]);
        j := j + 1;
      }
      assert batch[..j] == batch && vecs.value[..j] == vecs.value;
    }

    /** The batch loop: the whole list or nothing but the batches before the one that failed. */
    method RunBatches(slot: Slot, items: seq<Item>, embed: Embedder) returns (ok: bool, dim: nat)
      modifies this`blue, this`green
      ensures ok <==> Gathered(embed, items, Batches(items)).Some?
      ensures ok ==> |Gathered(embed, items, Batches(items)).value| == |items|
      ensures ok ==> dim == DimensionOf(embed, items, Batches(items))
      ensures ok ==> SlotColumn(slot) == UpsertAll(old(SlotColumn(slot)), items, Gathered(embed, items, Batches(items)).value)
      ensures forall s :: s != slot ==> SlotColumn(s) == old(SlotColumn(s))
    {
      dim := 0;
      var i, n := 0, 0;
      ghost var got: seq<Vec> := [];
      assert items[..0] == [];
      while i < |items|
        invariant i == n * BATCH && n <= Batches(items)
        invariant Gathered(embed, items, n) == Some(got) && |got| == Bound(items, n)
        invariant dim == DimensionOf(embed, items, n)
        invariant SlotColumn(slot) == UpsertAll(old(SlotColumn(slot)), items[..Bound(items, n)], got)
        invariant forall s :: s != slot ==> SlotColumn(s) == old(SlotColumn(s))
      {
        var vecs := RunBatch(slot, items, n, embed);
        if vecs.None? {
          FailureIsFinal(embed, items, n + 1, Batches(items));
          return false, dim;
        }
        if |vecs.value[0]| > 0 {
          dim := |vecs.value[0]|;
        }
        ExtendGathered(old(SlotColumn(slot)), items, n, got, vecs.value);
        got := got + vecs.value;
        i, n := i + BATCH, n + 1;
      }
      BatchesCover(items, n);
      ok := true;
    }

    /** Rebuilds the version's slot and flips it live. `items` is what the sources list at prepare. */
    method ReindexWorkflow(version: nat, items: seq<Item>, embed: Embedder) returns (out: Outcome)
      modifies this
      ensures version >= |old(rows)| ==> out == Failed
      ensures out == Abandoned <==> version < |old(rows)| && old(rows)[version].status != Building
      ensures !(version < |old(rows)| && old(rows)[version].status == Building) ==>
        blue == old(blue) && green == old(green) && dimension == old(dimension)
      ensures version < |old(rows)| && old(rows)[version].status == Building ==>
        (out.Finished? <==> Gathered(embed, items, Batches(items)).Some? && DimensionOf(embed, items, Batches(items)) <= 16000)
      ensures !out.Finished? ==> rows == old(rows)
      ensures !out.Finished? && version < |old(rows)| ==> forall s :: s != old(rows)[version].slot ==> SlotColumn(s) == old(SlotColumn(s))
      ensures out.Finished? ==>
        var vecs := Gathered(embed, items, Batches(items));
        var dim := DimensionOf(embed, items, Batches(items));
        var f := Embedding.Flip(old(rows), version);
        var slot := old(rows)[version].slot;
        && out.flipped && f.done && rows == f.rows
        && vecs.Some? && |vecs.value| == |items|
        && dimension == (if dim > 0 then old(dimension)[version := dim] else old(dimension))
        && SlotColumn(slot) == UpsertAll(old(SlotColumn(slot)), items, vecs.value)
        && forall s :: s != slot ==> SlotColumn(s) == if f.cleared == Some(s) then map[] else old(SlotColumn(s))
      ensures out.Finished? ==> var slot := old(rows)[version].slot; HoldsOwn(old(SlotColumn(slot)), SlotColumn(slot), embed, items)
      ensures out.Finished? ==> forall f :: Pointwise(embed, f) ==> forall k: nat :: k < |items| && LastOfKey(items, k) ==>
        var column := SlotColumn(old(rows)[version].slot);
        items[k].key in column && column[items[k].key] == f(items[k].text)
    {
      if version >= |rows| {
        return Failed;
      }
      if rows[version].status != Building {
        return Abandoned;
      }
      var slot := rows[version].slot;
      var ok, dim := RunBatches(slot, items, embed);
      if !ok {
        return Failed;
      }
      if dim > 0 {
        dimension := dimension[version := dim];
        if dim > MAX_DIMENSION {
          return Failed;
        }
      }
      EachItsOwn(old(SlotColumn(slot)), embed, items);
      var flipped := FlipLive(version);
      out := Finished(flipped);
      AllOwnVectors(old(SlotColumn(slot)), SlotColumn(slot), embed, items);
    }
  }

  lemma ExtendGathered(c: Column, items: seq<Item>, n: nat, got: seq<Vec>, vecs: seq<Vec>)
    requires |got| == Bound(items, n) && |vecs| == Bound(items, n + 1) - Bound(items, n)
    ensures UpsertAll(UpsertAll(c, items[..Bound(items, n)], got), items[Bound(items, n)..Bound(items, n + 1)], vecs)
      == UpsertAll(c, items[..Bound(items, n + 1)], got + vecs)
  {
    UpsertAllAppend(c, items[..Bound(items, n)], got, items[Bound(items, n)..Bound(items, n + 1)], vecs);
    assert items[..Bound(items, n)] + items[Bound(items, n)..Bound(items, n + 1)] == items[..Bound(items, n + 1)];
  }

  lemma BatchesCover(items: seq<Item>, n: nat)
    requires |items| <= n * BATCH && n <= Batches(items)
    ensures n == Batches(items) && Bound(items, n) == |items| && items[..Bound(items, n)] == items
  {
  }
}

/** Blue/green embedding versions: the registry protocol, the rebuild of the idle slot and the flip. */
module Embedding {
  import opened Lifecycle

  datatype Slot = Blue | Green

  datatype Status = Building | Active | Retired | Superseded

  datatype Version = Version(slot: Slot, hash: string, status: Status)

  /** Row i holds version number i + 1; numbers are handed out as the maximum plus one. */
  type Registry = seq<Version>

  function Number(i: nat): nat { i + 1 }

  /** The row a query by status returns. */
  function Find(r: Registry, s: Status): Option<nat>
    decreases |r|
  {
    if r == [] then None
    else if r[|r| - 1].status == s then Some(|r| - 1)
    else Find(r[..|r| - 1], s)
  }

  lemma {:induction false} FindExact(r: Registry, s: Status)
    ensures Find(r, s).Some? ==> Find(r, s).value < |r| && r[Find(r, s).value].status == s
    ensures Find(r, s).None? <==> forall i :: 0 <= i < |r| ==> r[i].status != s
    ensures Find(r, s).Some? ==> forall i :: Find(r, s).value < i < |r| ==> r[i].status != s
    decreases |r|
  {
    if r != [] && r[|r| - 1].status != s {
      FindExact(r[..|r| - 1], s);
      var head := r[..|r| - 1];
      assert forall i :: 0 <= i < |head| ==> head[i] == r[i];
    }
  }

  function IdleSlot(active: Option<Slot>): Slot {
    if active == Some(Blue) then Green else Blue
  }

  function SetStatus(r: Registry, i: nat, s: Status): Registry
    requires i < |r|
  {
    r[i := r[i].(status := s)]
  }

  datatype Ensured = Ensured(rows: Registry, started: Option<nat>, superseded: Option<nat>)

  /** The transaction that makes the registry agree with a configuration. */
  function Ensure(r: Registry, hash: string): Ensured {
    var active := Find(r, Active);
    var building := Find(r, Building);
    FindExact(r, Active);
    FindExact(r, Building);
    if building.Some? && r[building.value].hash == hash then Ensured(r, None, None)
    else
      var rows := if building.Some? then SetStatus(r, building.value, Superseded) else r;
      if active.Some? && r[active.value].hash == hash then Ensured(rows, None, building)
      else
        var slot := IdleSlot(if active.Some? then Some(r[active.value].slot) else None);
        Ensured(rows + [Version(slot, hash, Building)], Some(|rows|), building)
  }

  function RetireActiveExcept(r: Registry, keep: nat): Registry {
    seq(|r|, i requires 0 <= i < |r| => if r[i].status == Active && i != keep then r[i].(status := Retired) else r[i])
  }

  datatype Flipped = Flipped(rows: Registry, done: bool, cleared: Option<Slot>)

  /** The transaction that makes a built version the serving one, if it is still building. */
  function Flip(r: Registry, i: nat): Flipped
    requires i < |r|
  {
    if r[i].status != Building then Flipped(r, false, None)
    else
      var prior := Find(r, Active);
      FindExact(r, Active);
      var rows := SetStatus(RetireActiveExcept(r, i), i, Active);
      Flipped(rows, true, if prior.Some? && r[prior.value].slot != r[i].slot then Some(r[prior.value].slot) else None)
  }

  // ---------------------------------------------------------------- the protocol invariant

  ghost predicate AtMostOne(r: Registry, s: Status) {
    forall i, j :: 0 <= i < |r| && 0 <= j < |r| && r[i].status == s && r[j].status == s ==> i == j
  }

  /** One active and one building version at most; the building one is the newest and occupies the
      slot the active one does not. */
  ghost predicate Protocol(r: Registry) {
    && AtMostOne(r, Active)
    && AtMostOne(r, Building)
    && (forall i :: 0 <= i < |r| && r[i].status == Building ==> i == |r| - 1)
    && (forall i, j :: 0 <= i < |r| && 0 <= j < |r| && r[i].status == Building && r[j].status == Active ==> r[i].slot != r[j].slot)
  }

  predicate StatusMove(from: Status, to: Status) {
    from == to || (from == Building && to in {Active, Superseded}) || (from == Active && to == Retired)
  }

  /** `after` extends `before`: rows keep slot and configuration, and their status only moves on. */
  ghost predicate Evolves(before: Registry, after: Registry) {
    && |before| <= |after|
    && forall i :: 0 <= i < |before| ==>
      after[i].slot == before[i].slot && after[i].hash == before[i].hash && StatusMove(before[i].status, after[i].status)
  }

  /** The configuration `hash` is what the registry is heading for, or has arrived at. */
  ghost predicate Carries(r: Registry, hash: string) {
    || (exists i :: 0 <= i < |r| && r[i].status == Building && r[i].hash == hash)
    || ((forall i :: 0 <= i < |r| ==> r[i].status != Building) && exists i :: 0 <= i < |r| && r[i].status == Active && r[i].hash == hash)
  }

  /** The number of the serving version, zero when there is none. */
  function ActiveNumber(r: Registry): nat {
    match Find(r, Active) case Some(i) => Number(i) case None => 0
  }

  /** Giving up on a build leaves no build. */
  lemma SupersedeLeavesNone(r: Registry, i: nat)
    requires Protocol(r) && i < |r| && r[i].status == Building
    ensures var rows := SetStatus(r, i, Superseded);
      && Protocol(rows) && Evolves(r, rows) && Find(rows, Building) == None && Find(rows, Active) == Find(r, Active)
  {
    var rows := SetStatus(r, i, Superseded);
    FindExact(r, Active);
    FindExact(rows, Active);
    FindExact(rows, Building);
  }

  /** With no build under way a new one can be appended on the idle slot. */
  lemma AppendKeepsProtocol(r: Registry, hash: string)
    requires Protocol(r) && Find(r, Building) == None
    ensures var active := Find(r, Active);
      var slot := IdleSlot(if active.Some? && active.value < |r| then Some(r[active.value].slot) else None);
      var rows := r + [Version(slot, hash, Building)];
      && Protocol(rows) && Evolves(r, rows) && Find(rows, Active) == active && Carries(rows, hash)
  {
    FindExact(r, Active);
    FindExact(r, Building);
    var active := Find(r, Active);
    var slot := IdleSlot(if active.Some? then Some(r[active.value].slot) else None);
    var rows := r + [Version(slot, hash, Building)];
    assert rows[..|rows| - 1] == r;
    assert rows[|rows| - 1].status == Building && rows[|rows| - 1].hash == hash;
  }

  lemma EvolvesTransitive(a: Registry, b: Registry, c: Registry)
    requires Evolves(a, b) && Evolves(b, c)
    requires forall i :: 0 <= i < |a| ==> b[i].status == c[i].status
    ensures Evolves(a, c)
  {
  }

  /** The rows once a build for another configuration is given up. */
  function GivenUp(r: Registry): Registry
    requires Find(r, Building).Some? ==> Find(r, Building).value < |r|
  {
    if Find(r, Building).Some? then SetStatus(r, Find(r, Building).value, Superseded) else r
  }

  lemma GivingUpKeepsProtocol(r: Registry)
    requires Protocol(r)
    ensures Find(r, Building).Some? ==> Find(r, Building).value < |r|
    ensures Protocol(GivenUp(r)) && Evolves(r, GivenUp(r)) && Find(GivenUp(r), Building) == None
    ensures Find(GivenUp(r), Active) == Find(r, Active)
  {
    hide Find;
    FindExact(r, Building);
    if Find(r, Building).Some? {
      SupersedeLeavesNone(r, Find(r, Building).value);
    }
  }

  lemma EnsureKeepsProtocol(r: Registry, hash: string)
    requires Protocol(r)
    ensures Protocol(Ensure(r, hash).rows) && Evolves(r, Ensure(r, hash).rows)
    ensures Carries(Ensure(r, hash).rows, hash)
    ensures ActiveNumber(Ensure(r, hash).rows) == ActiveNumber(r)
  {
    hide Find;
    FindExact(r, Active);
    FindExact(r, Building);
    if Find(r, Building).None? || r[Find(r, Building).value].hash != hash {
      GivingUpKeepsProtocol(r);
      var rows := GivenUp(r);
      FindExact(rows, Building);
      AppendKeepsProtocol(rows, hash);
      NewestExtends(r, rows, Ensure(r, hash));
    }
  }

  lemma NewestExtends(r: Registry, rows: Registry, e: Ensured)
    requires Evolves(r, rows) && (e.rows == rows || exists v :: e.rows == rows + [v])
    ensures Evolves(r, e.rows)
  {
  }

  /** A build is started exactly when the configuration is neither being built nor served, and a second
      identical request changes nothing. */
  lemma EnsureSettles(r: Registry, hash: string)
    requires Protocol(r)
    ensures Ensure(r, hash).started.Some? <==>
      forall i :: 0 <= i < |r| && r[i].status in {Building, Active} ==> r[i].hash != hash
    ensures Ensure(Ensure(r, hash).rows, hash) == Ensured(Ensure(r, hash).rows, None, None)
  {
    hide Find;
    FindExact(r, Active);
    FindExact(r, Building);
    GivingUpKeepsProtocol(r);
    var rows := GivenUp(r);
    var after := Ensure(r, hash).rows;
    EnsureKeepsProtocol(r, hash);
    FindExact(after, Active);
    FindExact(after, Building);
  }

  /** What a request does to the rows: a build for another configuration is given up, and the build it starts
      is the next row, on the slot that is not served, the blue one when none is. */
  lemma EnsureExact(r: Registry, hash: string)
    requires Protocol(r)
    ensures var e := Ensure(r, hash);
      && |r| <= |e.rows| <= |r| + 1
      && e.started == (if |e.rows| > |r| then Some(|r|) else None)
      && (e.started.Some? ==>
            && e.rows[|r|].hash == hash && e.rows[|r|].status == Building
            && (forall i :: 0 <= i < |r| && r[i].status == Active ==> e.rows[|r|].slot != r[i].slot)
            && ((forall i :: 0 <= i < |r| ==> r[i].status != Active) ==> e.rows[|r|].slot == Blue))
      && (forall i :: 0 <= i < |r| ==>
            if r[i].status == Building && r[i].hash != hash then
              e.rows[i] == r[i].(status := Superseded) && e.superseded == Some(i)
            else e.rows[i] == r[i])
      && (e.superseded.Some? ==> e.superseded.value < |r| && r[e.superseded.value].status == Building && r[e.superseded.value].hash != hash)
  {
    hide Find;
    FindExact(r, Active);
    FindExact(r, Building);
  }

  lemma FlipKeepsProtocol(r: Registry, i: nat)
    requires Protocol(r) && i < |r|
    ensures Protocol(Flip(r, i).rows) && Evolves(r, Flip(r, i).rows)
    ensures Flip(r, i).done <==> r[i].status == Building
    ensures Flip(r, i).done ==> Find(Flip(r, i).rows, Active) == Some(i) && Find(Flip(r, i).rows, Building) == None
    ensures forall hash :: Carries(r, hash) ==> Carries(Flip(r, i).rows, hash)
    ensures ActiveNumber(r) <= ActiveNumber(Flip(r, i).rows)
  {
    hide Find;
    var f := Flip(r, i);
    FindExact(r, Active);
    FindExact(f.rows, Active);
    FindExact(f.rows, Building);
    if f.done {
      assert f.rows[i].status == Active;
      forall hash | Carries(r, hash)
        ensures Carries(f.rows, hash)
      {
        assert f.rows[i].hash == hash;
      }
    }
  }

  // ---------------------------------------------------------------- runs of the protocol

  datatype Op = EnsureOp(hash: string) | FlipOp(version: nat)

  function Do(r: Registry, op: Op): Registry {
    match op
    case EnsureOp(hash) => Ensure(r, hash).rows
    case FlipOp(i) => if i < |r| then Flip(r, i).rows else r
  }

  function Run(r: Registry, ops: seq<Op>): Registry
    decreases |ops|
  {
    if ops == [] then r else Run(Do(r, ops[0]), ops[1..])
  }

  lemma DoKeeps(r: Registry, op: Op)
    requires Protocol(r)
    ensures Protocol(Do(r, op)) && Evolves(r, Do(r, op)) && ActiveNumber(r) <= ActiveNumber(Do(r, op))
  {
    match op
    case EnsureOp(hash) => EnsureKeepsProtocol(r, hash);
    case FlipOp(i) => if i < |r| { FlipKeepsProtocol(r, i); }
  }

  /** In every state any interleaving of configuration changes and flips can reach, the protocol
      invariant holds; a row keeps its slot and configuration and never goes back in status; and the
      serving version number never decreases. */
  lemma {:induction false} RunKeepsProtocol(r: Registry, ops: seq<Op>)
    requires Protocol(r)
    ensures Protocol(Run(r, ops))
    ensures |r| <= |Run(r, ops)| && ActiveNumber(r) <= ActiveNumber(Run(r, ops))
    ensures forall i :: 0 <= i < |r| ==>
      var from, to := r[i], Run(r, ops)[i];
      && to.slot == from.slot && to.hash == from.hash
      && (from.status in {Retired, Superseded} ==> to.status == from.status)
      && (from.status == Active ==> to.status in {Active, Retired})
    decreases |ops|
  {
    if ops != [] {
      DoKeeps(r, ops[0]);
      RunKeepsProtocol(Do(r, ops[0]), ops[1..]);
    }
  }

  /** Last configuration wins: whatever flips are attempted after an ensure, by whatever builds, the
      registry is building that configuration, or serving it and building nothing. */
  lemma {:induction false} LastConfigurationWins(r: Registry, hash: string, flips: seq<Op>)
    requires Protocol(r) && forall op :: op in flips ==> op.FlipOp?
    ensures Carries(Run(Do(r, EnsureOp(hash)), flips), hash)
  {
    EnsureKeepsProtocol(r, hash);
    FlipsKeepCarrying(Do(r, EnsureOp(hash)), hash, flips);
  }

  lemma {:induction false} FlipsKeepCarrying(r: Registry, hash: string, flips: seq<Op>)
    requires Protocol(r) && Carries(r, hash) && forall op :: op in flips ==> op.FlipOp?
    ensures Carries(Run(r, flips), hash)
    decreases |flips|
  {
    if flips != [] {
      var i := flips[0].version;
      if i < |r| {
        FlipKeepsProtocol(r, i);
      }
      FlipsKeepCarrying(Do(r, flips[0]), hash, flips[1..]);
    }
  }
}

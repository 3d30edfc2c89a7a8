/** Reconstruction of blinded blocks (beacon-chain/execution/payload_body.go): payload bodies are
    asked for by hash, those the engine does not know by hash are asked for by number. */
module PayloadBodies {
  import opened Options
  import opened PayloadRanges

  const ZERO_HASH: Hash := 0

  type Body = nat

  datatype Header = Header(hash: Hash, number: uint64)

  /** The parts of a signed block that do not depend on the payload are its content. */
  datatype Block = NilBlock | FullFormat | Blinded(content: nat, header: Option<Header>)

  datatype Payload = EmptyPayload | FromBody(body: Body)

  datatype FullBlock = FullBlock(content: nat, header: Header, payload: Payload)

  /** What the engine answers: None if the call fails, otherwise a list of bodies or nils. */
  datatype Engine = Engine(
    byHash: seq<Hash> -> Option<seq<Option<Body>>>,
    byRange: (nat, nat) -> Option<seq<Option<Body>>>)

  // ------------------------------------------------------------ assumptions

  /** The hash at each height of the engine's canonical chain, and the body of each block. */
  datatype World = World(canonical: nat -> Hash, bodyOf: Hash -> Body)

  /** The engine never hands out a wrong body. */
  ghost predicate Truthful(e: Engine, w: World) {
    && (forall hs: seq<Hash>, i: nat :: e.byHash(hs).Some? && |e.byHash(hs).value| == |hs| && i < |hs| ==>
          e.byHash(hs).value[i] in {None, Some(w.bodyOf(hs[i]))})
    && (forall start: nat, count: nat, i: nat :: e.byRange(start, count).Some? && |e.byRange(start, count).value| == count && i < count ==>
          e.byRange(start, count).value[i] in {None, Some(w.bodyOf(w.canonical(start + i)))})
  }

  /** The engine answers every call in full, except that it may not know a block by its hash. */
  ghost predicate Answering(e: Engine) {
    && (forall hs: seq<Hash> :: e.byHash(hs).Some? && |e.byHash(hs).value| == |hs|)
    && (forall start: nat, count: nat :: e.byRange(start, count).Some? && |e.byRange(start, count).value| == count)
    && (forall start: nat, count: nat, i: nat :: i < count ==> e.byRange(start, count).value[i].Some?)
  }

  predicate WellFormed(b: Block) {
    b.Blinded? && b.header.Some?
  }

  ghost predicate OnChain(b: Block, w: World) {
    WellFormed(b) && b.header.value.hash != ZERO_HASH ==> w.canonical(b.header.value.number) == b.header.value.hash
  }

  ghost predicate RangeOnChain(r: Range, w: World) {
    forall k :: 0 <= k < |r.hbns| ==> w.canonical(r.hbns[k].n) == r.hbns[k].h
  }

  ghost predicate BatchOnChain(batch: map<Hash, uint64>, w: World) {
    forall h :: h in batch ==> w.canonical(batch[h]) == h
  }

  /** No stored body is that of another block. */
  ghost predicate BodiesTrue(bodies: map<Hash, Body>, w: World) {
    forall h :: h in bodies ==> bodies[h] == w.bodyOf(h)
  }

  /** The block with its own body. */
  ghost function Restored(b: Block, w: World): FullBlock
    requires WellFormed(b)
  {
    var h := b.header.value;
    FullBlock(b.content, h, if h.hash == ZERO_HASH then EmptyPayload else FromBody(w.bodyOf(h.hash)))
  }

  // ------------------------------------------------------------ the code

  class Reconstructor {
    const engine: Engine
    var orderedBlocks: seq<Block>
    var bodies: map<Hash, Body>
    /** The hashes to ask for, with their block numbers; there is only one method to ask with. */
    var batch: map<Hash, uint64>

    constructor (engine: Engine)
      ensures this.engine == engine && orderedBlocks == [] && bodies == map[] && batch == map[]
    {
      this.engine := engine;
      orderedBlocks, bodies, batch := [], map[], map[];
    }

    /** Every block is well formed, and its hash is in the batch unless it is zero. */
    ghost predicate Batched()
      reads this
    {
      && ZERO_HASH !in batch
      && forall i :: 0 <= i < |orderedBlocks| ==> InBatch(orderedBlocks[i])
    }

    ghost predicate InBatch(b: Block)
      reads this
    {
      WellFormed(b) && (b.header.value.hash != ZERO_HASH ==> b.header.value.hash in batch)
    }

    method AddToBatch(b: Block, ghost w: World) returns (ok: bool)
      requires Batched()
      modifies this
      ensures ok == WellFormed(b)
      ensures bodies == old(bodies)
      ensures orderedBlocks == if ok then old(orderedBlocks) + [b] else old(orderedBlocks)
      ensures Batched()
      ensures batch == if ok && b.header.value.hash != ZERO_HASH then old(batch)[b.header.value.hash := b.header.value.number] else old(batch)
      ensures BatchOnChain(old(batch), w) && OnChain(b, w) ==> BatchOnChain(batch, w)
    {
      if b.NilBlock? || b.FullFormat? {
        return false;
      }
      if b.header.None? {
        return false;
      }
      var header := b.header.value;
      orderedBlocks := orderedBlocks + [b];
      if header.hash != ZERO_HASH {
        batch := batch[header.hash := header.number];
      }
      assert forall i :: 0 <= i < |old(orderedBlocks)| ==> old(InBatch(orderedBlocks[i]));
      ok := true;
    }

    /** None: an error; otherwise the hashes the engine does not know. Each hash of the batch is
        asked for once, in one call. */
    method RequestBodiesByHash(ghost w: World) returns (nils: Option<seq<Hash>>, ghost asked: seq<Hash>)
      modifies this`bodies
      ensures IsListing(asked, batch.Keys - {ZERO_HASH})
      ensures batch == map[] ==> nils == Some([]) && bodies == old(bodies)
      ensures batch != map[] ==> (nils.Some? <==> engine.byHash(asked).Some? && |engine.byHash(asked).value| == |asked|)
      ensures batch != map[] && nils.Some? ==> Filed(asked, engine.byHash(asked).value, nils.value, old(bodies), bodies)
      ensures nils.None? ==> bodies == old(bodies)
      ensures nils.Some? ==> forall h :: h in batch && h != ZERO_HASH ==> h in bodies || h in nils.value
      ensures nils.Some? ==> forall h :: h in nils.value ==> h in batch
      ensures BodiesTrue(old(bodies), w) && Truthful(engine, w) ==> BodiesTrue(bodies, w)
    {
      asked := [];
      if batch == map[] {
        return Some([]), [];
      }
      var hashes := Hashes();
      asked := hashes;
      var result := engine.byHash(hashes);
      if result.None? {
        return None, asked;
      }
      if |hashes| != |result.value| {
        return None, asked;
      }
      var nilBodies := [];
      for i := 0 to |hashes|
        invariant Filed(hashes[..i], result.value[..i], nilBodies, old(bodies), bodies)
        invariant BodiesTrue(old(bodies), w) && Truthful(engine, w) ==> BodiesTrue(bodies, w)
      {
        FiledStep(hashes, result.value, i, nilBodies, old(bodies), bodies);
        if result.value[i].None? {
          nilBodies := nilBodies + [hashes[i]];
          continue;
        }
        bodies := bodies[hashes[i] := result.value[i].value];
      }
      assert hashes[..|hashes|] == hashes && result.value[..|hashes|] == result.value;
      FiledAll(hashes, result.value, nilBodies, old(bodies), bodies, batch.Keys - {ZERO_HASH});
      return Some(nilBodies), asked;
    }

    /** The hashes of the batch in the order of an iteration over the map. */
    method Hashes() returns (hashes: seq<Hash>)
      ensures IsListing(hashes, batch.Keys - {ZERO_HASH})
    {
      hashes := [];
      var todo := batch.Keys;
      while todo != {}
        invariant todo <= batch.Keys
        invariant IsListing(hashes, batch.Keys - {ZERO_HASH} - todo)
      {
        var h :| h in todo;
        todo := todo - {h};
        if h != ZERO_HASH {
          hashes := hashes + [h];
        }
      }
    }

    method RequestBodiesByRange(req: Range, ghost w: World) returns (ok: bool)
      requires IsRun(req)
      modifies this`bodies
      ensures ok ==> HasBodies(req.hbns, bodies)
      ensures old(bodies).Keys <= bodies.Keys
      ensures BodiesTrue(old(bodies), w) && Truthful(engine, w) && RangeOnChain(req, w) ==> BodiesTrue(bodies, w)
      ensures Answering(engine) ==> ok
    {
      var result := engine.byRange(req.start, req.count);
      if result.None? {
        return false;
      }
      if |result.value| != req.count {
        return false;
      }
      for i := 0 to |result.value|
        invariant forall k :: 0 <= k < i ==> req.hbns[k].h in bodies
        invariant old(bodies).Keys <= bodies.Keys
        invariant BodiesTrue(old(bodies), w) && Truthful(engine, w) && RangeOnChain(req, w) ==> BodiesTrue(bodies, w)
      {
        if result.value[i].None? {
          return false;
        }
        bodies := bodies[req.hbns[i].h := result.value[i].value];
      }
      ok := true;
    }

    method HandleNilResults(nils: seq<Hash>, ghost w: World) returns (ok: bool)
      requires forall h :: h in nils ==> h in batch
      modifies this`bodies
      ensures ok ==> forall h :: h in nils ==> h in bodies
      ensures old(bodies).Keys <= bodies.Keys
      ensures BodiesTrue(old(bodies), w) && Truthful(engine, w) && BatchOnChain(batch, w) ==> BodiesTrue(bodies, w)
      ensures Answering(engine) ==> ok
    {
      if |nils| == 0 {
        return true;
      }
      var hbns := seq(|nils|, i requires 0 <= i < |nils| && nils[i] in batch reads this => HashBlockNumber(nils[i], batch[nils[i]]));
      var reqs := ComputeRanges(hbns);
      ghost var trusted := BodiesTrue(bodies, w) && Truthful(engine, w) && BatchOnChain(batch, w);
      if trusted {
        RangesOnChain(reqs, hbns, w);
      }
      for i := 0 to |reqs|
        invariant forall j :: 0 <= j < i ==> HasBodies(reqs[j].hbns, bodies)
        invariant old(bodies).Keys <= bodies.Keys
        invariant trusted ==> BodiesTrue(bodies, w)
      {
        assert trusted ==> RangeOnChain(reqs[i], w);
        ghost var before := bodies;
        ok := RequestBodiesByRange(reqs[i], w);
        if !ok {
          return false;
        }
        MoreBodies(reqs[..i], before, bodies);
      }
      AllHaveBodies(reqs, hbns, bodies);
      assert forall i :: 0 <= i < |nils| ==> hbns[i] in hbns && hbns[i].h == nils[i];
      ok := true;
    }

    method RequestBodies(ghost w: World) returns (ok: bool)
      modifies this`bodies
      ensures ok ==> forall h :: h in batch && h != ZERO_HASH ==> h in bodies
      ensures BodiesTrue(old(bodies), w) && Truthful(engine, w) && BatchOnChain(batch, w) ==> BodiesTrue(bodies, w)
      ensures Answering(engine) ==> ok
    {
      var nils;
      ghost var asked;
      nils, asked := RequestBodiesByHash(w);
      if nils.None? {
        return false;
      }
      ok := HandleNilResults(nils.value, w);
    }

    method PayloadForHeader(header: Header) returns (r: Option<Payload>)
      ensures r == if header.hash == ZERO_HASH then Some(EmptyPayload)
        else if header.hash in bodies then Some(FromBody(bodies[header.hash])) else None
    {
      if header.hash == ZERO_HASH {
        return Some(EmptyPayload);
      }
      if header.hash !in bodies {
        return None;
      }
      return Some(FromBody(bodies[header.hash]));
    }

    method Unblinded(ghost w: World) returns (r: Option<seq<FullBlock>>)
      requires Batched()
      ensures (forall h :: h in batch ==> h in bodies) ==> r.Some?
      ensures r.Some? ==> |r.value| == |orderedBlocks|
      ensures r.Some? && BodiesTrue(bodies, w) ==> forall i :: 0 <= i < |orderedBlocks| ==> r.value[i] == Restored(orderedBlocks[i], w)
    {
      var unblinded := [];
      for i := 0 to |orderedBlocks|
        invariant |unblinded| == i
        invariant BodiesTrue(bodies, w) ==> forall j :: 0 <= j < i ==> unblinded[j] == Restored(orderedBlocks[j], w)
      {
        var blk := orderedBlocks[i];
        assert InBatch(blk);
        var payload := PayloadForHeader(blk.header.value);
        if payload.None? {
          return None;
        }
        unblinded := unblinded + [FullBlock(blk.content, blk.header.value, payload.value)];
      }
      return Some(unblinded);
    }
  }

  /** Exactly the given hashes, once each. */
  ghost predicate IsListing(list: seq<Hash>, hashes: set<Hash>) {
    && (forall h :: h in list <==> h in hashes)
    && (forall i, j :: 0 <= i < j < |list| ==> list[i] != list[j])
  }

  /** What becomes of an answer: the hashes without a body are reported, the bodies of the others
      are stored, and nothing else changes. */
  ghost predicate Filed(asked: seq<Hash>, answer: seq<Option<Body>>, nils: seq<Hash>, before: map<Hash, Body>, after: map<Hash, Body>) {
    && |answer| == |asked|
    && (forall i :: 0 <= i < |asked| ==>
          if answer[i].None? then asked[i] in nils else asked[i] in after && after[asked[i]] == answer[i].value)
    && (forall h :: h in nils ==> exists i :: 0 <= i < |asked| && asked[i] == h && answer[i].None?)
    && before.Keys <= after.Keys
    && (forall h :: h in after && (h !in asked || h in nils) ==> h in before && after[h] == before[h])
  }

  lemma FiledStep(asked: seq<Hash>, answer: seq<Option<Body>>, i: nat, nils: seq<Hash>, before: map<Hash, Body>, after: map<Hash, Body>)
    requires i < |asked| == |answer| && forall j, k :: 0 <= j < k < |asked| ==> asked[j] != asked[k]
    requires Filed(asked[..i], answer[..i], nils, before, after)
    ensures if answer[i].None? then Filed(asked[..i + 1], answer[..i + 1], nils + [asked[i]], before, after)
      else Filed(asked[..i + 1], answer[..i + 1], nils, before, after[asked[i] := answer[i].value])
  {
    assert asked[i] !in asked[..i] && asked[i] !in nils;
    assert asked[..i + 1] == asked[..i] + [asked[i]] && answer[..i + 1] == answer[..i] + [answer[i]];
    var asked', answer' := asked[..i + 1], answer[..i + 1];
    forall h | h in nils ensures exists j :: 0 <= j < |asked'| && asked'[j] == h && answer'[j].None? {
      var j :| 0 <= j < |asked[..i]| && asked[..i][j] == h && answer[..i][j].None?;
      assert asked'[j] == h;
    }
    assert asked'[i] == asked[i];
  }

  lemma FiledAll(asked: seq<Hash>, answer: seq<Option<Body>>, nils: seq<Hash>, before: map<Hash, Body>, after: map<Hash, Body>,
                 hashes: set<Hash>)
    requires IsListing(asked, hashes) && Filed(asked, answer, nils, before, after)
    ensures forall h :: h in hashes ==> h in after || h in nils
    ensures forall h :: h in nils ==> h in hashes
  {
    forall h | h in hashes ensures h in after || h in nils {
      assert h in asked;
    }
    forall h | h in nils ensures h in hashes {
      assert h in asked;
    }
  }

  ghost predicate HasBodies(hbns: seq<HashBlockNumber>, bodies: map<Hash, Body>) {
    forall k :: 0 <= k < |hbns| ==> hbns[k].h in bodies
  }

  lemma MoreBodies(ranges: seq<Range>, before: map<Hash, Body>, after: map<Hash, Body>)
    requires before.Keys <= after.Keys && forall j :: 0 <= j < |ranges| ==> HasBodies(ranges[j].hbns, before)
    ensures forall j :: 0 <= j < |ranges| ==> HasBodies(ranges[j].hbns, after)
  {
    forall j | 0 <= j < |ranges| ensures HasBodies(ranges[j].hbns, after) {
      assert HasBodies(ranges[j].hbns, before);
    }
  }

  lemma {:induction false} FlattenHasBodies(ranges: seq<Range>, bodies: map<Hash, Body>)
    requires forall j :: 0 <= j < |ranges| ==> HasBodies(ranges[j].hbns, bodies)
    ensures HasBodies(Flatten(ranges), bodies)
  {
    if ranges != [] {
      FlattenHasBodies(ranges[..|ranges| - 1], bodies);
      assert HasBodies(ranges[|ranges| - 1].hbns, bodies);
    }
  }

  /** The ranges leave out no element that they were computed from, */
  lemma AllHaveBodies(ranges: seq<Range>, hbns: seq<HashBlockNumber>, bodies: map<Hash, Body>)
    requires multiset(Flatten(ranges)) == multiset(hbns)
    requires forall j :: 0 <= j < |ranges| ==> HasBodies(ranges[j].hbns, bodies)
    ensures HasBodies(hbns, bodies)
  {
    FlattenHasBodies(ranges, bodies);
    forall k | 0 <= k < |hbns| ensures hbns[k].h in bodies {
      assert hbns[k] in multiset(hbns);
      assert hbns[k] in Flatten(ranges);
    }
  }

  /** and have no other. */
  lemma RangesOnChain(ranges: seq<Range>, hbns: seq<HashBlockNumber>, w: World)
    requires multiset(Flatten(ranges)) == multiset(hbns) && forall k :: 0 <= k < |hbns| ==> w.canonical(hbns[k].n) == hbns[k].h
    ensures forall i :: 0 <= i < |ranges| ==> RangeOnChain(ranges[i], w)
  {
    forall i, k | 0 <= i < |ranges| && 0 <= k < |ranges[i].hbns| ensures w.canonical(ranges[i].hbns[k].n) == ranges[i].hbns[k].h {
      var x := ranges[i].hbns[k];
      InFlatten(ranges, i, k);
      assert x in multiset(Flatten(ranges));
      assert x in hbns;
    }
  }

  lemma {:induction false} InFlatten(ranges: seq<Range>, i: nat, k: nat)
    requires i < |ranges| && k < |ranges[i].hbns|
    ensures ranges[i].hbns[k] in Flatten(ranges)
  {
    if i < |ranges| - 1 {
      InFlatten(ranges[..|ranges| - 1], i, k);
    }
  }

  /** reconstructBlindedBlockBatch: with a truthful engine, every canonical block of a successful
      reconstruction is in its place and has its own body; with an answering engine, the
      reconstruction fails only on a malformed input. */
  method ReconstructBlindedBlockBatch(engine: Engine, sbb: seq<Block>, ghost w: World) returns (r: Option<seq<FullBlock>>)
    ensures r.Some? ==> |r.value| == |sbb| && forall i :: 0 <= i < |sbb| ==> WellFormed(sbb[i])
    ensures r.Some? && Truthful(engine, w) && (forall i :: 0 <= i < |sbb| ==> OnChain(sbb[i], w)) ==>
      forall i :: 0 <= i < |sbb| ==> r.value[i] == Restored(sbb[i], w)
    ensures Answering(engine) && (forall i :: 0 <= i < |sbb| ==> WellFormed(sbb[i])) ==> r.Some?
  {
    var c := new Reconstructor(engine);
    for i := 0 to |sbb|
      invariant c.engine == engine && c.bodies == map[] && c.Batched()
      invariant c.orderedBlocks == sbb[..i]
      invariant forall j :: 0 <= j < i ==> WellFormed(sbb[j])
      invariant (forall j :: 0 <= j < i ==> OnChain(sbb[j], w)) ==> BatchOnChain(c.batch, w)
    {
      assert sbb[..i + 1] == sbb[..i] + [sbb[i]];
      var ok := c.AddToBatch(sbb[i], w);
      if !ok {
        return None;
      }
    }
    assert sbb[..|sbb|] == sbb;
    var ok := c.RequestBodies(w);
    if !ok {
      return None;
    }
    r := c.Unblinded(w);
  }
}

/** The search for the terminal proof-of-work block (GetTerminalBlockHash in
    beacon-chain/execution/engine_client.go) and its validation at the merge
    (beacon-chain/blockchain/pow_block.go). */
module TerminalBlock {
  import opened Options

  type Hash = nat

  const ZERO_HASH: Hash := 0
  const TWO_TO_256: nat := 0x1_0000000000000000_0000000000000000_0000000000000000_0000000000000000

  /** A block as the execution client returns it; `td` is None if its total difficulty does not
      decode to 256 bits. */
  datatype PowBlock = PowBlock(hash: Hash, parent: Hash, td: Option<nat>, time: nat)

  type Blocks = map<Hash, PowBlock>

  /** Blocks are found under their hash, and total difficulty grows along the chain. */
  ghost predicate Rising(blocks: Blocks) {
    forall h :: h in blocks ==>
      && blocks[h].hash == h
      && (blocks[h].parent in blocks && blocks[h].td.Some? && blocks[blocks[h].parent].td.Some? ==>
            blocks[blocks[h].parent].td.value < blocks[h].td.value)
  }

  datatype Found = Terminal(hash: Hash) | NoTerminal | Failed

  /** The walk from `blk` back to the first block whose parent is below the threshold. */
  function Search(blocks: Blocks, blk: PowBlock, ttd: nat, transitionTime: nat): Found
    requires Rising(blocks) && blk.hash in blocks && blocks[blk.hash] == blk
    decreases if blk.td.Some? then blk.td.value else 0
  {
    if blk.td.None? then Failed
    else if blk.parent == ZERO_HASH then NoTerminal
    else if blk.parent !in blocks then Failed
    else if blk.td.value < ttd then NoTerminal
    else
      var parent := blocks[blk.parent];
      if parent.td.None? then Failed
      else if parent.td.value >= ttd then Search(blocks, parent, ttd, transitionTime)
      else if blk.time >= transitionTime then NoTerminal
      else Terminal(blk.hash)
  }

  /** GetTerminalBlockHash, given what LatestExecutionBlock returns. */
  method GetTerminalBlockHash(blocks: Blocks, latest: Option<PowBlock>, ttd: nat, transitionTime: nat) returns (r: Found)
    requires Rising(blocks) && (latest.Some? ==> latest.value.hash in blocks && blocks[latest.value.hash] == latest.value)
    ensures r == if ttd >= TWO_TO_256 || latest.None? then Failed else Search(blocks, latest.value, ttd, transitionTime)
  {
    if ttd >= TWO_TO_256 {
      return Failed;
    }
    if latest.None? {
      return Failed;
    }
    var blk := latest.value;
    while true
      invariant blk.hash in blocks && blocks[blk.hash] == blk
      invariant Search(blocks, latest.value, ttd, transitionTime) == Search(blocks, blk, ttd, transitionTime)
      decreases if blk.td.Some? then blk.td.value else 0
    {
      if blk.td.None? {
        return Failed;
      }
      var blockReachedTTD := blk.td.value >= ttd;
      if blk.parent == ZERO_HASH {
        return NoTerminal;
      }
      if blk.parent !in blocks {
        return Failed;
      }
      var parentBlk := blocks[blk.parent];
      if !blockReachedTTD {
        return NoTerminal;
      }
      if parentBlk.td.None? {
        return Failed;
      }
      var parentReachedTTD := parentBlk.td.value >= ttd;
      if !parentReachedTTD {
        if blk.time >= transitionTime {
          return NoTerminal;
        }
        return Terminal(blk.hash);
      }
      blk := parentBlk;
    }
  }

  // --------------------------------------------------------- specification

  /** `is_valid_terminal_pow_block` of the Bellatrix fork choice specification, for a block
      whose parent is known. */
  predicate Crosses(blocks: Blocks, b: PowBlock, ttd: nat) {
    && b.td.Some? && b.td.value >= ttd
    && b.parent != ZERO_HASH && b.parent in blocks
    && blocks[b.parent].td.Some? && blocks[b.parent].td.value < ttd
  }

  /** path leads from a block to one of its ancestors. */
  ghost predicate Ancestry(blocks: Blocks, path: seq<PowBlock>) {
    && path != []
    && (forall i :: 0 <= i < |path| ==> path[i].hash in blocks && blocks[path[i].hash] == path[i])
    && (forall i :: 0 <= i < |path| - 1 ==> Linked(blocks, path[i], path[i + 1]))
  }

  predicate Linked(blocks: Blocks, child: PowBlock, parent: PowBlock) {
    && child.parent != ZERO_HASH && child.parent in blocks && blocks[child.parent] == parent
    && child.td.Some? && parent.td.Some?
  }

  /** A threshold-crossing ancestor of the latest block is found, exactly when it precedes the
      transition time; hence there is only one. */
  lemma {:induction false} SearchFindsCrossing(blocks: Blocks, path: seq<PowBlock>, ttd: nat, transitionTime: nat)
    requires Rising(blocks) && Ancestry(blocks, path) && Crosses(blocks, path[|path| - 1], ttd)
    ensures var b := path[|path| - 1];
      Search(blocks, path[0], ttd, transitionTime) == if b.time < transitionTime then Terminal(b.hash) else NoTerminal
    decreases |path|
  {
    if |path| > 1 {
      assert Linked(blocks, path[0], path[1]);
      LaterBlocksReach(blocks, path, ttd);
      assert Ancestry(blocks, path[1..]) by {
        forall i | 0 <= i < |path| - 2 ensures Linked(blocks, path[1..][i], path[1..][i + 1]) {
          assert Linked(blocks, path[i + 1], path[i + 2]);
        }
      }
      SearchFindsCrossing(blocks, path[1..], ttd, transitionTime);
    }
  }

  lemma {:induction false} LaterBlocksReach(blocks: Blocks, path: seq<PowBlock>, ttd: nat)
    requires Rising(blocks) && Ancestry(blocks, path)
    requires path[|path| - 1].td.Some? && path[|path| - 1].td.value >= ttd
    ensures forall i :: 0 <= i < |path| ==> path[i].td.Some? && path[i].td.value >= ttd
  {
    var i := |path| - 1;
    while i > 0
      invariant 0 <= i < |path|
      invariant forall j :: i <= j < |path| ==> path[j].td.Some? && path[j].td.value >= ttd
    {
      assert Linked(blocks, path[i - 1], path[i]);
      i := i - 1;
    }
  }

  /** What the search returns is such an ancestor, and it precedes the transition time. */
  lemma {:induction false} SearchIsSound(blocks: Blocks, blk: PowBlock, ttd: nat, transitionTime: nat) returns (path: seq<PowBlock>)
    requires Rising(blocks) && blk.hash in blocks && blocks[blk.hash] == blk
    requires Search(blocks, blk, ttd, transitionTime).Terminal?
    ensures Ancestry(blocks, path) && path[0] == blk
    ensures var b := path[|path| - 1];
      Crosses(blocks, b, ttd) && b.time < transitionTime && Search(blocks, blk, ttd, transitionTime) == Terminal(b.hash)
    decreases if blk.td.Some? then blk.td.value else 0
  {
    var parent := blocks[blk.parent];
    if parent.td.value >= ttd {
      var rest := SearchIsSound(blocks, parent, ttd, transitionTime);
      path := [blk] + rest;
      forall i | 0 <= i < |path| - 1 ensures Linked(blocks, path[i], path[i + 1]) {
        assert i > 0 ==> Linked(blocks, rest[i - 1], rest[i]);
      }
    } else {
      path := [blk];
    }
  }

  /** The search cannot get past the last block of the path: a difficulty does not decode, or the
      parent is not known. */
  ghost predicate Stuck(blocks: Blocks, path: seq<PowBlock>, ttd: nat)
    requires path != []
  {
    var b := path[|path| - 1];
    && (|path| > 1 ==> b.td.Some? && b.td.value >= ttd)
    && (|| b.td.None?
        || (b.parent != ZERO_HASH && b.parent !in blocks)
        || (b.parent != ZERO_HASH && b.td.value >= ttd && blocks[b.parent].td.None?))
  }

  /** The search fails exactly when it gets stuck on an ancestor: here, if. */
  lemma {:induction false} StuckSearchFails(blocks: Blocks, path: seq<PowBlock>, ttd: nat, transitionTime: nat)
    requires Rising(blocks) && Ancestry(blocks, path) && Stuck(blocks, path, ttd)
    ensures Search(blocks, path[0], ttd, transitionTime) == Failed
    decreases |path|
  {
    if |path| > 1 {
      assert Linked(blocks, path[0], path[1]);
      LaterBlocksReach(blocks, path, ttd);
      var rest := path[1..];
      forall i | 0 <= i < |rest| - 1 ensures Linked(blocks, rest[i], rest[i + 1]) {
        assert Linked(blocks, path[i + 1], path[i + 2]);
      }
      StuckSearchFails(blocks, rest, ttd, transitionTime);
    }
  }

  /** And only if. */
  lemma {:induction false} FailedSearchIsStuck(blocks: Blocks, blk: PowBlock, ttd: nat, transitionTime: nat) returns (path: seq<PowBlock>)
    requires Rising(blocks) && blk.hash in blocks && blocks[blk.hash] == blk
    requires Search(blocks, blk, ttd, transitionTime) == Failed
    ensures Ancestry(blocks, path) && path[0] == blk && Stuck(blocks, path, ttd)
    decreases if blk.td.Some? then blk.td.value else 0
  {
    path := [blk];
    if !Stuck(blocks, path, ttd) {
      var rest := FailedSearchIsStuck(blocks, blocks[blk.parent], ttd, transitionTime);
      path := [blk] + rest;
      forall i | 0 <= i < |path| - 1 ensures Linked(blocks, path[i], path[i + 1]) {
        assert i > 0 ==> Linked(blocks, rest[i - 1], rest[i]);
      }
    }
  }

  // ------------------------------------------------------------ validation

  datatype Validity = Valid | InvalidBlock | Error

  /** canUseValidatedTerminalBlockHash: Some(true) to accept, Some(false) to go on, None for an error. */
  function OverrideCheck(payloadParent: Hash, override: Hash, activationEpoch: nat, blockEpoch: nat): Option<bool> {
    if override == ZERO_HASH then Some(false)
    else if activationEpoch > blockEpoch then None
    else if payloadParent != override then None
    else Some(true)
  }

  /** getBlkParentHashAndTD */
  function ParentAndDifficulty(blocks: Blocks, h: Hash): Option<(Hash, nat)> {
    if h in blocks && blocks[h].td.Some? then Some((blocks[h].parent, blocks[h].td.value)) else None
  }

  /** validateTerminalBlockDifficulties */
  function DifficultiesValid(td: nat, parentTd: nat, ttd: nat): Option<bool> {
    if ttd >= TWO_TO_256 then None else Some(td >= ttd && ttd > parentTd)
  }

  /** validateMergeBlock, for a payload with the given parent hash. */
  function ValidateMergeBlock(blocks: Blocks, payloadParent: Hash, ttd: nat,
                              override: Hash, activationEpoch: nat, blockEpoch: nat): Validity {
    match OverrideCheck(payloadParent, override, activationEpoch, blockEpoch)
    case None => Error
    case Some(accepted) =>
      if accepted then Valid else
      var block := ParentAndDifficulty(blocks, payloadParent);
      if block.None? then Error else
      var parent := ParentAndDifficulty(blocks, block.value.0);
      if parent.None? then Error else
      match DifficultiesValid(block.value.1, parent.value.1, ttd)
      case None => Error
      case Some(valid) => if valid then Valid else InvalidBlock
  }

  /** The client does not serve a block under the zero hash. */
  predicate NoZeroBlock(blocks: Blocks) {
    ZERO_HASH !in blocks
  }

  /** The validator's two verdicts. A payload is valid exactly on the override hash from the
      activation epoch on, or, with no override, on a threshold-crossing block; a block is invalid
      exactly if there is no override, both difficulties are known, and its own does not cross.
      Everything else is an error, which blames no block. */
  lemma ValidatorExact(blocks: Blocks, h: Hash, ttd: nat, override: Hash, activationEpoch: nat, blockEpoch: nat)
    requires NoZeroBlock(blocks) && ttd < TWO_TO_256
    ensures var verdict := ValidateMergeBlock(blocks, h, ttd, override, activationEpoch, blockEpoch);
      && (verdict == Valid <==>
            if override != ZERO_HASH then h == override && activationEpoch <= blockEpoch
            else h in blocks && Crosses(blocks, blocks[h], ttd))
      && (verdict == InvalidBlock <==>
            && override == ZERO_HASH && h in blocks && !Crosses(blocks, blocks[h], ttd)
            && Linked(blocks, blocks[h], ParentOf(blocks, blocks[h])))
  {
  }

  function ParentOf(blocks: Blocks, b: PowBlock): PowBlock {
    if b.parent in blocks then blocks[b.parent] else b
  }

  /** Any payload built on what the search returns passes validation. */
  lemma ProposedMergeIsValid(blocks: Blocks, latest: PowBlock, ttd: nat, transitionTime: nat, activationEpoch: nat, blockEpoch: nat)
    requires Rising(blocks) && latest.hash in blocks && blocks[latest.hash] == latest
    requires ttd < TWO_TO_256 && Search(blocks, latest, ttd, transitionTime).Terminal?
    ensures ValidateMergeBlock(blocks, Search(blocks, latest, ttd, transitionTime).hash, ttd,
                               ZERO_HASH, activationEpoch, blockEpoch) == Valid
  {
    var path := SearchIsSound(blocks, latest, ttd, transitionTime);
    var b := path[|path| - 1];
    assert Crosses(blocks, b, ttd);
  }

  /** And no other ancestor would: the valid parent on a chain is the one the search returns. */
  lemma OnlyTheFoundBlockIsValid(blocks: Blocks, path: seq<PowBlock>, ttd: nat, transitionTime: nat, activationEpoch: nat, blockEpoch: nat)
    requires Rising(blocks) && NoZeroBlock(blocks) && Ancestry(blocks, path) && ttd < TWO_TO_256
    requires Search(blocks, path[0], ttd, transitionTime).Terminal?
    ensures var h := path[|path| - 1].hash;
      ValidateMergeBlock(blocks, h, ttd, ZERO_HASH, activationEpoch, blockEpoch) == Valid
      <==> Search(blocks, path[0], ttd, transitionTime) == Terminal(h)
  {
    var b := path[|path| - 1];
    ValidatorExact(blocks, b.hash, ttd, ZERO_HASH, activationEpoch, blockEpoch);
    if Crosses(blocks, b, ttd) {
      SearchFindsCrossing(blocks, path, ttd, transitionTime);
    } else {
      var path' := SearchIsSound(blocks, path[0], ttd, transitionTime);
    }
  }
}

/** The resumable deposit scan of beacon-chain/execution/log_processing.go. */
module DepositSync {
  import opened DepositLogs

  datatype Answer = Logs(logs: seq<Log>) | TooMuchData | QueryFailed

  /** What the service asks of the world: the logs of some blocks, the hash of a deposit and its
      insertion in the trie, a check of the headers of some blocks, or something else (unpacking a
      log, another header request, a save to disk, an insertion in the deposit cache). */
  datatype Operation = Query(from: nat, to: nat) | Insert | CheckHeaders | Other

  /** The world around the service: what the execution client returns if the n-th operation is a
      query, and whether the n-th operation fails if it is another one. */
  datatype World = World(
    deposits: seq<Deposit>,
    deploymentBlock: nat,
    answer: (nat, nat, nat) -> Answer,
    insertFails: nat -> bool,
    fails: nat -> bool)

  /** Answers are complete and in order, no deposit is as old as the contract's block, and the
      trie's operations succeed. */
  ghost predicate Honest(w: World) {
    && (forall n: nat, from: nat, to: nat :: w.answer(n, from, to).Logs? ==>
          Complete(w.deposits, from, to, w.answer(n, from, to).logs))
    && (forall i :: 0 <= i < |w.deposits| ==> w.deposits[i].block > w.deploymentBlock)
    && (forall n: nat :: !w.insertFails(n))
  }

  /** The n-th operation is this one, and returns an error. */
  predicate Fails(w: World, n: nat, op: Operation) {
    match op
    case Query(from, to) => w.answer(n, from, to) == QueryFailed
    case Insert => w.insertFails(n)
    case CheckHeaders => w.fails(n)
    case Other => w.fails(n)
  }

  /** A query for two blocks or one never exceeds the client's limit on results. */
  ghost predicate SmallQueriesAnswered(w: World) {
    forall n: nat, from: nat, to: nat :: to <= from + 1 ==> w.answer(n, from, to) != TooMuchData
  }

  const DEPOSIT_LOG_REQUEST_LIMIT := 10000
  const ETH1_DATA_SAVING_INTERVAL := 1000
  const MAX_TOLERABLE_DIFFERENCE := 50
  const TWO_TO_64 := 0x1_0000_0000_0000_0000

  function Min(a: nat, b: nat): nat { if a <= b then a else b }
  function Max(a: nat, b: nat): nat { if a >= b then a else b }

  /** Where a batch went: an error, a query to repeat with half the size, or on to `end`. */
  datatype Batch = Failed | Halved | Advanced

  /** The block that the loop over the logs of a batch is at after k of them, and the cursor, which
      follows it. */
  function Positions(start: nat, cursor: nat, logs: seq<Log>, k: nat): (nat, nat)
    requires k <= |logs|
  {
    if k == 0 then (start, cursor)
    else
      var before := Positions(start, cursor, logs, k - 1);
      if logs[k - 1].block > before.0 then (logs[k - 1].block, before.0) else before
  }

  /** The blocks of the logs, and the first one of the batch. */
  ghost predicate IsBlock(start: nat, logs: seq<Log>, k: nat, block: nat)
    requires k <= |logs|
  {
    block == start || exists j :: 0 <= j < k && logs[j].block == block
  }

  /** For logs in order, the loop is at the last of these blocks, and the cursor at the last but one,
      or where it was if there is only the first. */
  lemma {:induction false} PositionsAreLast(start: nat, cursor: nat, logs: seq<Log>, k: nat)
    requires k <= |logs| && forall i, j :: 0 <= i < j < k ==> logs[i].block <= logs[j].block
    ensures var (current, next) := Positions(start, cursor, logs, k);
      && IsBlock(start, logs, k, current) && start <= current && (forall j :: 0 <= j < k ==> logs[j].block <= current)
      && (current == start ==> next == cursor)
      && (current > start ==>
            && IsBlock(start, logs, k, next) && start <= next < current
            && forall j :: 0 <= j < k ==> logs[j].block <= next || logs[j].block == current)
  {
    if k > 0 {
      PositionsAreLast(start, cursor, logs, k - 1);
      var (current, next) := Positions(start, cursor, logs, k - 1);
      assert IsBlock(start, logs, k, current) && (current > start ==> IsBlock(start, logs, k, next));
    }
  }

  class Service {
    const world: World
    var lastReceivedMerkleIndex: int
    var depositTrie: seq<nat>
    var lastRequestedBlock: nat
    /** The operations so far. */
    var made: seq<Operation>

    constructor (world: World)
      requires Honest(world)
      ensures this.world == world && Valid() && lastReceivedMerkleIndex == -1 && lastRequestedBlock == 0 && made == []
    {
      this.world := world;
      lastReceivedMerkleIndex := -1;
      depositTrie := [];
      lastRequestedBlock := 0;
      made := [];
      new;
      assert Leaves(world.deposits)[..0] == [];
    }

    ghost function Track(): Tracker
      reads this
    {
      Tracker(lastReceivedMerkleIndex, depositTrie)
    }

    /** Every deposit up to the last requested block is applied, exactly once and in order. */
    ghost predicate Valid()
      reads this
    {
      && Honest(world)
      && IsPrefix(world.deposits, Track())
      && AppliedTo(world.deposits, Track(), lastRequestedBlock)
    }

    /** An operation that was made since there were n has failed. */
    ghost predicate FailureSince(n: nat)
      reads this`made
    {
      exists m :: n <= m < |made| && Fails(world, m, made[m])
    }

    /** An operation whose failure is up to the world. */
    method Attempt(op: Operation) returns (ok: bool)
      requires !op.Query?
      modifies this`made
      ensures made == old(made) + [op]
      ensures ok == !Fails(world, |old(made)|, op)
      ensures !ok ==> FailureSince(|old(made)|)
    {
      ok := if op.Insert? then !world.insertFails(|made|) else !world.fails(|made|);
      made := made + [op];
      assert made[|old(made)|] == op;
    }

    method Ask(from: nat, to: nat) returns (answer: Answer)
      modifies this`made
      ensures made == old(made) + [Query(from, to)]
      ensures answer == world.answer(|old(made)|, from, to)
      ensures answer.QueryFailed? ==> FailureSince(|old(made)|)
    {
      answer := world.answer(|made|, from, to);
      made := made + [Query(from, to)];
      assert made[|old(made)|] == Query(from, to);
    }

    /** ProcessDepositLog. A log that cannot be unpacked changes nothing. A deposit is counted before
        it is hashed and inserted, so an error in between leaves it counted but not inserted. */
    method ProcessDepositLog(log: Log) returns (ok: bool, ghost unpacked: bool, ghost inserted: bool)
      requires log.deposit
      modifies this`lastReceivedMerkleIndex, this`depositTrie, this`made
      ensures Track() == if unpacked then Absorb(old(Track()), log, inserted) else old(Track())
      ensures old(made) <= made
      ensures ok ==> unpacked && !Refused(old(Track()), log)
      ensures !unpacked || !inserted ==> !ok && FailureSince(|old(made)|)
      ensures !inserted ==> exists n: nat :: world.insertFails(n)
      ensures !ok ==> FailureSince(|old(made)|) || Refused(old(Track()), log) || |old(depositTrie)| != old(lastReceivedMerkleIndex) + 1
    {
      inserted := true;
      ok := Attempt(Other);
      unpacked := ok;
      if !ok {
        return;
      }
      if log.index <= lastReceivedMerkleIndex {
        return;
      }
      if log.index != lastReceivedMerkleIndex + 1 {
        return false, unpacked, inserted;
      }
      lastReceivedMerkleIndex := log.index;
      ok := Attempt(Insert);
      inserted := ok;
      if !ok {
        return;
      }
      if |depositTrie| != log.index {
        return false, unpacked, inserted;
      }
      depositTrie := depositTrie + [log.leaf];
      ok := Attempt(Other);
    }

    /** ProcessLog; an error may come after the deposit was applied. */
    method ProcessLog(log: Log) returns (ok: bool)
      requires |depositTrie| == lastReceivedMerkleIndex + 1 && Honest(world)
      modifies this`lastReceivedMerkleIndex, this`depositTrie, this`made
      ensures old(made) <= made
      ensures Track() == Absorb(old(Track()), log, true) || (!ok && Track() == old(Track()))
      ensures ok ==> !Refused(old(Track()), log)
      ensures !ok ==> Refused(old(Track()), log) || FailureSince(|old(made)|)
    {
      if !log.deposit {
        return true;
      }
      ghost var unpacked, inserted;
      ok, unpacked, inserted := ProcessDepositLog(log);
      if ok && lastReceivedMerkleIndex % ETH1_DATA_SAVING_INTERVAL == 0 {
        ok := Attempt(Other);
      }
    }

    /** The loop over the logs of one batch. A failure other than of the headers puts the cursor back. */
    method ProcessLogs(logs: seq<Log>, start: nat, end: nat) returns (ok: bool)
      requires Valid() && Complete(world.deposits, start, end, logs) && start <= end
      requires forall i :: 0 <= i < |world.deposits| && world.deposits[i].block < start ==> i <= lastReceivedMerkleIndex
      modifies this
      ensures Valid() && old(made) <= made
      ensures ok ==> AppliedTo(world.deposits, Track(), end)
      ensures !ok ==> FailureSince(|old(made)|)
      ensures ok ==> lastRequestedBlock == Positions(start, old(lastRequestedBlock), logs, |logs|).1
      ensures !ok && made[|made| - 1] != CheckHeaders ==> lastRequestedBlock == old(lastRequestedBlock)
    {
      ghost var before := Track();
      ok := ProcessEachLog(logs, start, end);
      if ok {
        BlockIsDone(world.deposits, before, start, end, logs, |logs|, end);
        assert logs[..|logs|] == logs;
        ok := Attempt(CheckHeaders);
      }
    }

    method ProcessEachLog(logs: seq<Log>, start: nat, end: nat) returns (ok: bool)
      requires Valid() && Complete(world.deposits, start, end, logs)
      requires forall i :: 0 <= i < |world.deposits| && world.deposits[i].block < start ==> i <= lastReceivedMerkleIndex
      modifies this
      ensures Valid() && old(made) <= made && (!ok ==> FailureSince(|old(made)|))
      ensures ok ==> Track() == AbsorbAll(old(Track()), logs)
      ensures ok ==> lastRequestedBlock == Positions(start, old(lastRequestedBlock), logs, |logs|).1
      ensures !ok && made[|made| - 1] != CheckHeaders ==> lastRequestedBlock == old(lastRequestedBlock)
    {
      var lastReqBlock := lastRequestedBlock;
      var currentBlockNum := start;
      ghost var before := Track();
      assert logs[..0] == [];
      for k := 0 to |logs|
        invariant Valid() && AppliedTo(world.deposits, Track(), lastReqBlock) && old(made) <= made
        invariant Track() == AbsorbAll(before, logs[..k])
        invariant start <= currentBlockNum && (k < |logs| ==> currentBlockNum <= logs[k].block)
        invariant (currentBlockNum, lastRequestedBlock) == Positions(start, lastReqBlock, logs, k)
      {
        ghost var round := |made|;
        ok, currentBlockNum := ProcessOneLog(logs, start, end, k, currentBlockNum, lastReqBlock, before);
        if !ok {
          assert FailureSince(round);
          return;
        }
      }
      assert logs[..|logs|] == logs;
      ok := true;
    }

    /** One round of that loop. */
    method ProcessOneLog(logs: seq<Log>, start: nat, end: nat, k: nat, currentBlockNum: nat, lastReqBlock: nat, ghost before: Tracker)
      returns (ok: bool, next: nat)
      requires Valid() && AppliedTo(world.deposits, Track(), lastReqBlock) && IsPrefix(world.deposits, before)
      requires Complete(world.deposits, start, end, logs) && k < |logs| && start <= currentBlockNum <= logs[k].block
      requires forall i :: 0 <= i < |world.deposits| && world.deposits[i].block < start ==> i <= before.last
      requires Track() == AbsorbAll(before, logs[..k])
      modifies this
      ensures Valid() && AppliedTo(world.deposits, Track(), lastReqBlock)
      ensures old(made) <= made && |made| >= |old(made)|
      ensures ok ==> next == logs[k].block && Track() == AbsorbAll(before, logs[..k + 1])
      ensures ok ==> lastRequestedBlock == if logs[k].block > currentBlockNum then currentBlockNum else old(lastRequestedBlock)
      ensures !ok ==> FailureSince(|old(made)|)
      ensures !ok && made[|made| - 1] != CheckHeaders ==> lastRequestedBlock == lastReqBlock
    {
      next := currentBlockNum;
      if logs[k].block > currentBlockNum {
        ok := Attempt(CheckHeaders);
        if !ok {
          return;
        }
        BlockIsDone(world.deposits, before, start, end, logs, k, currentBlockNum);
        lastRequestedBlock := currentBlockNum;
        next := logs[k].block;
      }
      DeliveredIsApplied(world.deposits, before, start, end, logs, k);
      AbsorbKeepsPrefix(world.deposits, Track(), logs[k]);
      assert logs[..k + 1][..k] == logs[..k];
      ok := ProcessLog(logs[k]);
      if !ok {
        // go back to the range that was valid before this batch
        lastRequestedBlock := lastReqBlock;
      }
    }

    /** processBlockInBatch. `additive` is the step of the batch size, `limit` its bound. */
    method ProcessBlockInBatch(currentBlockNum: nat, followHeight: nat, batchSize: nat, additive: nat, limit: nat, logCount: nat)
      returns (result: Batch, next: nat, nextSize: nat)
      requires Valid() && AppliedTo(world.deposits, Track(), currentBlockNum)
      requires currentBlockNum < followHeight && batchSize <= limit && followHeight + limit < TWO_TO_64
      modifies this
      ensures Valid() && old(made) <= made && |made| > |old(made)|
      ensures made[|old(made)|] == Query(currentBlockNum, Min(currentBlockNum + batchSize, followHeight))
      ensures result.Halved? <==>
        batchSize > 0 && world.answer(|old(made)|, currentBlockNum, Min(currentBlockNum + batchSize, followHeight)) == TooMuchData
      ensures result.Failed? ==> FailureSince(|old(made)|) || (batchSize == 0 && !SmallQueriesAnswered(world))
      ensures result.Halved? ==> next == currentBlockNum && nextSize == batchSize / 2 && Track() == old(Track())
      ensures result.Halved? && SmallQueriesAnswered(world) ==> batchSize >= 2
      ensures result.Advanced? ==> next == Min(currentBlockNum + batchSize, followHeight)
      ensures result.Advanced? ==> nextSize == if batchSize < limit then Min(batchSize + additive, limit) else batchSize
      ensures !result.Failed? ==> AppliedTo(world.deposits, Track(), next)
    {
      next, nextSize := 0, 0;
      var end := Min(currentBlockNum + batchSize, followHeight);
      var remainingLogs := (logCount - (lastReceivedMerkleIndex + 1)) % TWO_TO_64;
      if remainingLogs < DEPOSIT_LOG_REQUEST_LIMIT && end >= followHeight {
        end := followHeight;
      }
      var answer := Ask(currentBlockNum, end);
      assert made[|old(made)|] == Query(currentBlockNum, end);
      match answer
      case TooMuchData =>
        if batchSize == 0 {
          return Failed, 0, 0;
        }
        return Halved, currentBlockNum, batchSize / 2;
      case QueryFailed =>
        return Failed, 0, 0;
      case Logs(logs) =>
        ghost var asked := |made|;
        var ok := Attempt(Other);
        if ok {
          ok := ProcessLogs(logs, currentBlockNum, end);
        }
        if !ok {
          assert FailureSince(asked);
          return Failed, 0, 0;
        }
        next, nextSize := end, batchSize;
        if nextSize < limit {
          nextSize := nextSize + additive;
          if nextSize > limit {
            nextSize := limit;
          }
        }
        return Advanced, next, nextSize;
    }

    /** processPastLogs: from the last requested block to the follow height, whatever the client
        makes of the queries. The deposit count and the follow height are requests, too. */
    method ProcessPastLogs(followHeight: nat, additive: nat, limit: nat, logCount: nat) returns (ok: bool)
      requires Valid() && SmallQueriesAnswered(world) && followHeight + limit < TWO_TO_64
      requires 1 <= limit || followHeight <= Max(lastRequestedBlock, world.deploymentBlock)
      modifies this
      ensures Valid() && old(made) <= made
      ensures ok || FailureSince(|old(made)|)
      ensures ok ==> lastRequestedBlock == Max(Max(old(lastRequestedBlock), world.deploymentBlock), followHeight)
    {
      var currentBlockNum := Max(lastRequestedBlock, world.deploymentBlock);
      ok := RequestCountAndHeight();
      if !ok {
        return;
      }
      var batchSize := limit;
      while currentBlockNum < followHeight
        invariant Valid() && old(made) <= made
        invariant AppliedTo(world.deposits, Track(), currentBlockNum)
        invariant batchSize <= limit && (currentBlockNum < followHeight ==> 1 <= batchSize)
        invariant currentBlockNum == Max(old(lastRequestedBlock), world.deploymentBlock) || currentBlockNum <= followHeight
        invariant currentBlockNum >= Max(old(lastRequestedBlock), world.deploymentBlock)
        decreases followHeight - currentBlockNum, batchSize
      {
        ghost var round := |made|;
        var result, next, nextSize := ProcessBlockInBatch(currentBlockNum, followHeight, batchSize, additive, limit, logCount);
        if result.Failed? {
          assert FailureSince(round);
          return false;
        }
        currentBlockNum, batchSize := next, nextSize;
      }
      lastRequestedBlock := currentBlockNum;
      ok := Attempt(Other);
      if !ok {
        assert FailureSince(|old(made)|);
      }
    }

    /** GetDepositCount and followedBlockHeight */
    method RequestCountAndHeight() returns (ok: bool)
      modifies this`made
      ensures old(made) <= made && (!ok ==> FailureSince(|old(made)|))
    {
      ok := Attempt(Other);
      if ok {
        ok := Attempt(Other);
      }
    }

    /** With a batch limit of zero, processPastLogs does not end while there are blocks to scan: in
        any number of rounds, each of which asks the client, the cursor stays where it was. Only a
        failure stops it. */
    method ZeroLimitRounds(followHeight: nat, additive: nat, logCount: nat, rounds: nat) returns (failed: bool, currentBlockNum: nat)
      requires Valid() && followHeight < TWO_TO_64 && Max(lastRequestedBlock, world.deploymentBlock) < followHeight
      modifies this
      ensures Valid() && old(made) <= made
      ensures currentBlockNum == Max(old(lastRequestedBlock), world.deploymentBlock) < followHeight
      ensures failed ==> FailureSince(|old(made)|) || !SmallQueriesAnswered(world)
      ensures !failed ==> |made| >= |old(made)| + rounds
    {
      currentBlockNum := Max(lastRequestedBlock, world.deploymentBlock);
      failed := false;
      var batchSize := 0;
      for i := 0 to rounds
        invariant Valid() && AppliedTo(world.deposits, Track(), currentBlockNum) && batchSize == 0
        invariant currentBlockNum == Max(old(lastRequestedBlock), world.deploymentBlock) < followHeight
        invariant old(made) <= made && |made| >= |old(made)| + i
      {
        ghost var round := |made|;
        var result, next, nextSize := ProcessBlockInBatch(currentBlockNum, followHeight, batchSize, additive, 0, logCount);
        if result.Failed? {
          assert SmallQueriesAnswered(world) ==> FailureSince(round);
          return true, currentBlockNum;
        }
        currentBlockNum, batchSize := next, nextSize;
      }
    }

    method ProcessLogOfBlock(logs: seq<Log>, k: nat, block: nat, ghost before: Tracker) returns (ok: bool)
      requires Valid() && IsPrefix(world.deposits, before)
      requires Complete(world.deposits, block, block, logs) && k < |logs| && Track() == AbsorbAll(before, logs[..k])
      requires forall i :: 0 <= i < |world.deposits| && world.deposits[i].block < block ==> i <= before.last
      modifies this`lastReceivedMerkleIndex, this`depositTrie, this`made
      ensures Valid() && old(made) <= made && (!ok ==> FailureSince(|old(made)|))
      ensures ok ==> Track() == Absorb(old(Track()), logs[k], true)
    {
      DeliveredIsApplied(world.deposits, before, block, block, logs, k);
      AbsorbKeepsPrefix(world.deposits, Track(), logs[k]);
      ok := ProcessLog(logs[k]);
    }

    /** ProcessETH1Block */
    method ProcessETH1Block(block: nat) returns (ok: bool)
      requires Valid()
      requires forall i :: 0 <= i < |world.deposits| && world.deposits[i].block < block ==> i <= lastReceivedMerkleIndex
      modifies this`lastReceivedMerkleIndex, this`depositTrie, this`made
      ensures Valid() && old(made) <= made
      ensures ok ==> AppliedTo(world.deposits, Track(), block)
      ensures !ok && SmallQueriesAnswered(world) ==> FailureSince(|old(made)|)
    {
      var answer := Ask(block, block);
      if !answer.Logs? {
        return false;
      }
      var logs := answer.logs;
      ghost var before := Track();
      assert logs[..0] == [];
      for k := 0 to |logs|
        invariant Valid() && old(made) <= made
        invariant Track() == AbsorbAll(before, logs[..k])
      {
        assert logs[..k + 1][..k] == logs[..k];
        // every log of a complete answer is of this block
        if logs[k].block == block {
          ghost var round := |made|;
          ok := ProcessLogOfBlock(logs, k, block, before);
          if !ok {
            assert FailureSince(round);
            return;
          }
        }
      }
      assert logs[..|logs|] == logs;
      BlockIsDone(world.deposits, before, block, block, logs, |logs|, block);
      ok := Attempt(Other);
    }

    /** The follow height is further away than is scanned block by block. */
    predicate FarBehind(followHeight: nat)
      reads this
    {
      followHeight > lastRequestedBlock && followHeight - lastRequestedBlock > MAX_TOLERABLE_DIFFERENCE
    }

    /** requestBatchedHeadersAndLogs: block by block when close to the head, else in batches up to
        the follow height of that moment, pastHeight. */
    method RequestBatchedHeadersAndLogs(followHeight: nat, pastHeight: nat, additive: nat, limit: nat, logCount: nat) returns (ok: bool)
      requires Valid() && SmallQueriesAnswered(world) && pastHeight + limit < TWO_TO_64
      requires FarBehind(followHeight) ==> 1 <= limit || pastHeight <= Max(lastRequestedBlock, world.deploymentBlock)
      modifies this
      ensures Valid() && old(made) <= made
      ensures ok || FailureSince(|old(made)|)
      ensures var height := if old(FarBehind(followHeight)) then pastHeight else followHeight;
        ok ==> lastRequestedBlock >= height && AppliedTo(world.deposits, Track(), height)
    {
      ok := Attempt(Other);
      if !ok {
        return;
      }
      if FarBehind(followHeight) {
        ok := ProcessPastLogs(pastHeight, additive, limit, logCount);
        return;
      }
      var i := lastRequestedBlock + 1;
      while i <= followHeight
        invariant Valid() && old(made) <= made && i == lastRequestedBlock + 1
      {
        ok := Attempt(Other);
        if ok {
          ok := ProcessETH1Block(i);
        }
        if !ok {
          return;
        }
        lastRequestedBlock := i;
        i := i + 1;
      }
      ok := true;
    }
  }
}

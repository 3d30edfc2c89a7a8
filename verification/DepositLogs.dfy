/** The deposits of the contract, the logs that an execution client returns for
    a range of blocks, and what ProcessDepositLog makes of them
    (beacon-chain/execution/log_processing.go). */
module DepositLogs {

  /** A deposit of the contract; its merkle index is its position. */
  datatype Deposit = Deposit(block: nat, leaf: nat)

  /** A log; `deposit` says whether its first topic is the deposit event. */
  datatype Log = Log(block: nat, deposit: bool, index: nat, leaf: nat)

  ghost predicate Truthful(deposits: seq<Deposit>, log: Log) {
    log.deposit ==> log.index < |deposits| && deposits[log.index] == Deposit(log.block, log.leaf)
  }

  predicate IsLogOf(log: Log, j: nat) {
    log.deposit && log.index == j
  }

  /** Deposit j is among the first k logs. */
  ghost predicate Delivered(logs: seq<Log>, k: nat, j: nat)
    requires k <= |logs|
  {
    exists i :: 0 <= i < k && IsLogOf(logs[i], j)
  }

  /** A complete answer for the blocks from..to, in order. Logs may come twice, and logs of
      other events may be among them. */
  ghost predicate Complete(deposits: seq<Deposit>, from: nat, to: nat, logs: seq<Log>) {
    && (forall k :: 0 <= k < |logs| ==> Truthful(deposits, logs[k]) && from <= logs[k].block <= to)
    && (forall k, l :: 0 <= k < l < |logs| ==> logs[k].block <= logs[l].block)
    && (forall j :: 0 <= j < |deposits| && from <= deposits[j].block <= to ==> Delivered(logs, |logs|, j))
    && (forall k, j :: 0 <= k < |logs| && 0 <= j < |deposits| && from <= deposits[j].block && Before(deposits, logs[k], j)
          ==> Delivered(logs, k, j))
  }

  /** Deposit j comes before the log: in an earlier block, or at an earlier index. */
  predicate Before(deposits: seq<Deposit>, log: Log, j: nat)
    requires j < |deposits|
  {
    deposits[j].block < log.block || (log.deposit && j < log.index)
  }

  // --------------------------------------------------------- absorbing logs

  /** lastReceivedMerkleIndex and the leaves of the trie. */
  datatype Tracker = Tracker(last: int, trie: seq<nat>)

  /** The log is of the deposit that comes next. */
  predicate IsNext(t: Tracker, log: Log) {
    log.deposit && log.index == t.last + 1
  }

  /** A log whose index comes next is counted and, if the trie's operations succeed and the trie is
      as long as it should be, inserted. One already seen is skipped. */
  function Absorb(t: Tracker, log: Log, inserted: bool): Tracker {
    if !IsNext(t, log) then t
    else Tracker(log.index, if inserted && |t.trie| == log.index then t.trie + [log.leaf] else t.trie)
  }

  /** The log is refused: it is not the next one, nor one already seen. */
  predicate Refused(t: Tracker, log: Log) {
    log.deposit && log.index > t.last + 1
  }

  function AbsorbAll(t: Tracker, logs: seq<Log>): Tracker {
    if logs == [] then t else Absorb(AbsorbAll(t, logs[..|logs| - 1]), logs[|logs| - 1], true)
  }

  function Leaves(deposits: seq<Deposit>): seq<nat> {
    seq(|deposits|, i requires 0 <= i < |deposits| => deposits[i].leaf)
  }

  /** The trie holds exactly the first last + 1 deposits of the contract. */
  ghost predicate IsPrefix(deposits: seq<Deposit>, t: Tracker) {
    -1 <= t.last < |deposits| && t.trie == Leaves(deposits)[..t.last + 1]
  }

  /** Every deposit up to the block is in the trie. */
  ghost predicate AppliedTo(deposits: seq<Deposit>, t: Tracker, block: nat) {
    forall i :: 0 <= i < |deposits| && deposits[i].block <= block ==> i <= t.last
  }

  lemma AbsorbKeepsPrefix(deposits: seq<Deposit>, t: Tracker, log: Log)
    requires IsPrefix(deposits, t) && Truthful(deposits, log)
    ensures IsPrefix(deposits, Absorb(t, log, true)) && Absorb(t, log, true).last >= t.last
    ensures log.deposit && !Refused(t, log) ==> log.index <= Absorb(t, log, true).last
  {
    if log.deposit && log.index == t.last + 1 {
      assert Leaves(deposits)[..log.index + 1] == Leaves(deposits)[..log.index] + [Leaves(deposits)[log.index]];
    }
  }

  /** Exactly once and in order: whatever truthful logs come, in any order, any number of
      times, with any gaps, the trie stays a prefix of the contract's deposits. */
  lemma {:induction false} PrefixForEver(deposits: seq<Deposit>, t: Tracker, logs: seq<Log>)
    requires IsPrefix(deposits, t) && forall k :: 0 <= k < |logs| ==> Truthful(deposits, logs[k])
    ensures IsPrefix(deposits, AbsorbAll(t, logs)) && AbsorbAll(t, logs).last >= t.last
  {
    if logs != [] {
      PrefixForEver(deposits, t, logs[..|logs| - 1]);
      AbsorbKeepsPrefix(deposits, AbsorbAll(t, logs[..|logs| - 1]), logs[|logs| - 1]);
    }
  }

  /** A log, and whether the trie's operations succeed on it. */
  datatype Delivery = Delivery(log: Log, inserted: bool)

  function AbsorbEach(t: Tracker, ds: seq<Delivery>): Tracker {
    if ds == [] then t
    else
      var n := |ds| - 1;
      Absorb(AbsorbEach(t, ds[..n]), ds[n].log, ds[n].inserted)
  }

  /** A trie operation fails on a deposit that has just been counted. */
  ghost predicate LostAt(t: Tracker, ds: seq<Delivery>, k: int) {
    0 <= k < |ds| && !ds[k].inserted && IsNext(AbsorbEach(t, ds[..k]), ds[k].log)
  }

  ghost predicate Lost(t: Tracker, ds: seq<Delivery>) {
    exists k :: LostAt(t, ds, k)
  }

  lemma LostFront(t: Tracker, ds: seq<Delivery>)
    requires ds != []
    ensures Lost(t, ds) <==> Lost(t, ds[..|ds| - 1]) || LostAt(t, ds, |ds| - 1)
  {
    var n := |ds| - 1;
    forall k | 0 <= k < n ensures LostAt(t, ds, k) <==> LostAt(t, ds[..n], k) {
      assert ds[..n][..k] == ds[..k];
    }
    if Lost(t, ds) {
      var k :| LostAt(t, ds, k);
      assert k < n ==> LostAt(t, ds[..n], k);
    }
    if Lost(t, ds[..n]) {
      var k :| LostAt(t, ds[..n], k);
      assert LostAt(t, ds, k);
    }
  }

  /** If the trie's operations can fail, the trie stays a prefix exactly as long as none fails on a
      deposit that has just been counted. From then on nothing is inserted any more. */
  lemma {:induction false} PrefixExactly(deposits: seq<Deposit>, t: Tracker, ds: seq<Delivery>)
    requires IsPrefix(deposits, t) && forall k :: 0 <= k < |ds| ==> Truthful(deposits, ds[k].log)
    ensures var t' := AbsorbEach(t, ds);
      && (IsPrefix(deposits, t') <==> !Lost(t, ds))
      && (Lost(t, ds) <==> |t'.trie| <= t'.last)
  {
    if ds != [] {
      var n := |ds| - 1;
      PrefixExactly(deposits, t, ds[..n]);
      LostFront(t, ds);
      var before := AbsorbEach(t, ds[..n]);
      if !Lost(t, ds[..n]) {
        AbsorbKeepsPrefix(deposits, before, ds[n].log);
      }
    }
  }

  /** Once a counted deposit is lost, the trie does not change whatever is delivered. */
  lemma {:induction false} StuckForEver(t: Tracker, ds: seq<Delivery>)
    requires |t.trie| <= t.last
    ensures AbsorbEach(t, ds).trie == t.trie && |t.trie| <= AbsorbEach(t, ds).last
  {
    if ds != [] {
      StuckForEver(t, ds[..|ds| - 1]);
    }
  }

  /** A trie operation that fails once: the deposit is skipped when it is delivered again. */
  lemma LostDeposit()
    ensures var d, log := Deposit(1, 7), Log(1, true, 0, 7);
      var t := AbsorbEach(Tracker(-1, []), [Delivery(log, false), Delivery(log, true)]);
      Truthful([d], log) && t == Tracker(0, [])
  {
    var log := Log(1, true, 0, 7);
    var ds := [Delivery(log, false), Delivery(log, true)];
    assert ds[..1] == [Delivery(log, false)] && ds[..1][..0] == [];
    assert AbsorbEach(Tracker(-1, []), ds[..1]) == Tracker(0, []);
  }

  /** In a complete answer to a query that overlaps what is applied already, no log is refused,
      and what was delivered is applied. */
  lemma {:induction false} DeliveredIsApplied(deposits: seq<Deposit>, t: Tracker, from: nat, to: nat, logs: seq<Log>, k: nat)
    requires IsPrefix(deposits, t) && Complete(deposits, from, to, logs) && k <= |logs|
    requires forall i :: 0 <= i < |deposits| && deposits[i].block < from ==> i <= t.last
    ensures var t' := AbsorbAll(t, logs[..k]);
      && IsPrefix(deposits, t') && t'.last >= t.last
      && (forall i :: 0 <= i < k && logs[i].deposit ==> logs[i].index <= t'.last)
      && (k < |logs| ==> !Refused(t', logs[k]))
    decreases k
  {
    var t' := AbsorbAll(t, logs[..k]);
    if k > 0 {
      DeliveredIsApplied(deposits, t, from, to, logs, k - 1);
      assert logs[..k][..k - 1] == logs[..k - 1];
      AbsorbKeepsPrefix(deposits, AbsorbAll(t, logs[..k - 1]), logs[k - 1]);
    } else {
      assert logs[..0] == [];
    }
    if k < |logs| && Refused(t', logs[k]) {
      var j := logs[k].index - 1;
      assert Truthful(deposits, logs[k]);
      assert Before(deposits, logs[k], j);
      assert deposits[j].block < from || Delivered(logs, k, j);
    }
  }

  /** When the answer's next log is in a later block than `block`, or the answer is at its end,
      every deposit up to `block` is applied. */
  lemma BlockIsDone(deposits: seq<Deposit>, t: Tracker, from: nat, to: nat, logs: seq<Log>, k: nat, block: nat)
    requires IsPrefix(deposits, t) && Complete(deposits, from, to, logs) && k <= |logs|
    requires forall i :: 0 <= i < |deposits| && deposits[i].block < from ==> i <= t.last
    requires if k < |logs| then block < logs[k].block else block <= to
    ensures AppliedTo(deposits, AbsorbAll(t, logs[..k]), block)
  {
    DeliveredIsApplied(deposits, t, from, to, logs, k);
    var t' := AbsorbAll(t, logs[..k]);
    forall j | 0 <= j < |deposits| && deposits[j].block <= block ensures j <= t'.last {
      if deposits[j].block >= from {
        assert k < |logs| ==> Before(deposits, logs[k], j);
        assert Delivered(logs, k, j);
        var i :| 0 <= i < k && IsLogOf(logs[i], j);
      }
    }
  }
}

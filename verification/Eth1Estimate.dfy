/** What the estimates of BlockByTimestamp (beacon-chain/execution/block_reader.go) are worth on a
    chain whose blocks come at the expected interval. */
module Eth1Estimate {
  import opened Eth1Search
  import opened Options

  /** Blocks come at the given interval, and no sum of a time or a height wraps around. */
  ghost predicate Regular(chain: seq<Header>, secondsPerBlock: uint64, time: uint64) {
    && secondsPerBlock > 0 && WellFormed(chain)
    && (forall i :: 0 <= i < |chain| ==> chain[i].time == chain[0].time + i * secondsPerBlock)
    && time + SEARCH_THRESHOLD * secondsPerBlock < TWO_TO_64
    && (forall i :: 0 <= i < |chain| ==> chain[i].time + SEARCH_THRESHOLD * secondsPerBlock < TWO_TO_64)
    && time + |chain| < TWO_TO_64
  }

  /** On a regular chain a cursor further from the time than the threshold jumps, unless the jump
      would leave the chain, and lands less than one block from it. */
  lemma RegularJump(chain: seq<Header>, k: nat, time: uint64, latest: uint64, secondsPerBlock: uint64)
    requires Regular(chain, secondsPerBlock, time) && k <= latest < |chain|
    ensures var r := Jump(chain[k], time, latest, secondsPerBlock);
      var buffer := SEARCH_THRESHOLD * secondsPerBlock;
      && (r.Some? ==> chain[k].time + buffer < time || time + buffer < chain[k].time)
      && (r.Some? ==> r.value <= latest && chain[r.value].time - secondsPerBlock < time < chain[r.value].time + secondsPerBlock)
      && (chain[k].time + buffer < time < chain[latest].time ==> r.Some?)
      && (chain[0].time + secondsPerBlock <= time && time + buffer < chain[k].time ==> r.Some?)
  {
    var buffer := SEARCH_THRESHOLD * secondsPerBlock;
    assert Mul64(SEARCH_THRESHOLD, secondsPerBlock) == buffer;
    if chain[k].time + buffer < time {
      JumpForward(chain, k, time, latest, secondsPerBlock);
    } else if time + buffer < chain[k].time {
      JumpBack(chain, k, time, latest, secondsPerBlock);
    }
  }

  lemma JumpForward(chain: seq<Header>, k: nat, time: uint64, latest: uint64, secondsPerBlock: uint64)
    requires Regular(chain, secondsPerBlock, time) && k <= latest < |chain| && chain[k].time <= time
    ensures var blocks := Div64(time - chain[k].time, secondsPerBlock);
      && k + blocks < TWO_TO_64
      && (k + blocks <= latest ==> chain[k + blocks].time <= time < chain[k + blocks].time + secondsPerBlock)
      && (time < chain[latest].time ==> k + blocks <= latest)
  {
    var blocks := Div64(time - chain[k].time, secondsPerBlock);
    Distribute(secondsPerBlock, k, blocks);
    if k + blocks > latest {
      Monotone(secondsPerBlock, latest, k + blocks);
    }
  }

  lemma JumpBack(chain: seq<Header>, k: nat, time: uint64, latest: uint64, secondsPerBlock: uint64)
    requires Regular(chain, secondsPerBlock, time) && k <= latest < |chain| && time < chain[k].time
    ensures var blocks := Div64(chain[k].time - time, secondsPerBlock);
      && (blocks < k ==> time <= chain[k - blocks].time < time + secondsPerBlock)
      && (chain[0].time + secondsPerBlock <= time ==> blocks < k)
  {
    var blocks := Div64(chain[k].time - time, secondsPerBlock);
    if blocks < k {
      Distribute(secondsPerBlock, k - blocks, blocks);
    } else {
      Monotone(secondsPerBlock, k, blocks);
    }
  }

  lemma Distribute(a: nat, b: nat, c: nat)
    ensures (b + c) * a == b * a + c * a && c * a == a * c
  {
  }

  lemma Monotone(a: nat, b: nat, c: nat)
    requires b <= c
    ensures b * a <= c * a && c * a == a * c
  {
  }
}

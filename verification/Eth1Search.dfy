/** BlockByTimestamp of beacon-chain/execution/block_reader.go: estimates that may
    jump anywhere, then a walk, over uint64 arithmetic that may wrap around. */
module Eth1Search {
  import opened Options

  const TWO_TO_64 := 0x1_0000_0000_0000_0000
  const SEARCH_THRESHOLD := 5
  const REPEATED_SEARCHES := 2 * SEARCH_THRESHOLD

  type uint64 = n: nat | n < TWO_TO_64

  datatype Header = Header(number: uint64, time: uint64)

  datatype Result = Found(header: Header) | TimeTooLate | Unavailable

  function Add64(a: uint64, b: uint64): uint64 { if a + b < TWO_TO_64 then a + b else a + b - TWO_TO_64 }
  function Sub64(a: uint64, b: uint64): uint64 { if a >= b then a - b else a + TWO_TO_64 - b }
  function Mul64(a: uint64, b: uint64): uint64 { (a * b) % TWO_TO_64 }

  /** The quotient a / b of two uint64 values. */
  function Div64(a: uint64, b: uint64): (r: uint64)
    requires b > 0
    ensures r <= a && b * r <= a < b * r + b
    decreases a
  {
    if a < b then 0
    else
      var r := Div64(a - b, b);
      assert b * (1 + r) == b + b * r;
      1 + r
  }

  /** big.Int.Uint64: the low 64 bits of the absolute value. */
  function Uint64(n: int): uint64 {
    (if n < 0 then -n else n) % TWO_TO_64
  }

  lemma Uint64OfSmall(n: int)
    requires -TWO_TO_64 < n < TWO_TO_64
    ensures Uint64(n) == if n < 0 then -n else n
  {
  }

  /** Block numbers are positions and times grow strictly. */
  ghost predicate WellFormed(chain: seq<Header>) {
    && 0 < |chain| < TWO_TO_64 / 2
    && (forall i :: 0 <= i < |chain| ==> chain[i].number == i)
    && (forall i, j :: 0 <= i < j < |chain| ==> chain[i].time < chain[j].time)
  }

  /** The specification: the latest block up to `latest` that is not after `time`. */
  ghost predicate IsLastNotAfter(chain: seq<Header>, latest: nat, time: nat, h: Header) {
    && h.number <= latest < |chain| && chain[h.number] == h && h.time <= time
    && forall i :: h.number < i <= latest ==> chain[i].time > time
  }

  lemma LastNotAfterAt(chain: seq<Header>, latest: nat, time: nat, k: nat)
    requires WellFormed(chain) && k <= latest < |chain|
    requires chain[k].time <= time && (k < latest ==> chain[k + 1].time > time)
    ensures IsLastNotAfter(chain, latest, time, chain[k])
  {
  }

  /** The height to jump to from the cursor, unless the cursor is near enough to the time or
      the estimate is out of bounds. */
  function Jump(cursor: Header, time: uint64, latest: uint64, secondsPerBlock: uint64): (r: Option<uint64>)
    requires secondsPerBlock > 0 && cursor.number <= latest
    ensures r.Some? ==> r.value <= latest
  {
    var buffer := Mul64(SEARCH_THRESHOLD, secondsPerBlock);
    if time > Add64(cursor.time, buffer) then
      var blocks := Div64(Sub64(time, cursor.time), secondsPerBlock);
      if Add64(cursor.number, blocks) > latest then None else Some(Add64(cursor.number, blocks))
    else if Add64(time, buffer) < cursor.time then
      var blocks := Div64(Sub64(cursor.time, time), secondsPerBlock);
      if blocks >= cursor.number then None else Some(Sub64(cursor.number, blocks))
    else None
  }

  ghost predicate UpTo(asked: set<nat>, bound: nat) {
    forall n :: n in asked ==> n <= bound
  }

  class BlockReader {
    /** The execution client's chain, and which of its headers the client can return. */
    const chain: seq<Header>
    const served: nat -> bool
    const secondsPerBlock: uint64
    var cache: map<nat, Header>

    ghost predicate Valid()
      reads this
    {
      && WellFormed(chain) && secondsPerBlock > 0
      && forall n :: n in cache ==> n < |chain| && cache[n] == chain[n]
    }

    constructor (chain: seq<Header>, served: nat -> bool, secondsPerBlock: uint64)
      requires WellFormed(chain) && secondsPerBlock > 0
      ensures Valid() && this.chain == chain && this.served == served && cache == map[]
    {
      this.chain := chain;
      this.served := served;
      this.secondsPerBlock := secondsPerBlock;
      cache := map[];
    }

    /** The header at a height cannot be had: it is not cached, and the client does not have or
        does not return it. */
    ghost predicate Refused(n: nat)
      reads this
    {
      n !in cache && (n >= |chain| || !served(n))
    }

    ghost predicate SomeRefused(asked: set<nat>)
      reads this
    {
      exists n :: n in asked && Refused(n)
    }

    /** Lookups since then have added to the cache only, and what cannot be had stays so. */
    twostate predicate Grown()
      reads this
    {
      && (forall n :: n in old(cache) ==> n in cache)
      && (forall n: nat :: Refused(n) <==> old(Refused(n)))
    }

    method RetrieveHeaderInfo(n: uint64) returns (r: Result)
      requires Valid()
      modifies this
      ensures Valid() && Grown()
      ensures r == if Refused(n) then Unavailable else Found(chain[n])
    {
      if n in cache {
        return Found(cache[n]);
      }
      if n >= |chain| || !served(n) {
        return Unavailable;
      }
      cache := cache[n := chain[n]];
      return Found(chain[n]);
    }

    /** A lookup, added to those of the call that makes it. */
    method Look(n: uint64, ghost before: set<nat>) returns (r: Result, ghost asked: set<nat>)
      requires Valid() && !SomeRefused(before)
      modifies this
      ensures Valid() && Grown() && asked == before + {n as nat}
      ensures r == if Refused(n) then Unavailable else Found(chain[n])
      ensures r.Unavailable? <==> SomeRefused(asked)
    {
      r := RetrieveHeaderInfo(n);
      asked := before + {n as nat};
    }

    /** Walks down from a block after the target time. Below block 0 the number turns negative
        and its Uint64 climbs again, over blocks that are all too late, until there is none.
        `asked` are the heights this call looks up. */
    method FindMaxTarget(upper: uint64, target: uint64) returns (r: Result, ghost asked: set<nat>)
      requires Valid() && upper < |chain|
      modifies this
      ensures Valid() && Grown()
      ensures r != TimeTooLate && (r.Unavailable? <==> SomeRefused(asked))
      ensures r.Found? ==> IsLastNotAfter(chain, upper, target, r.header)
      ensures chain[0].time <= target ==> UpTo(asked, upper)
      ensures chain[0].time > target ==> r.Unavailable?
    {
      asked := {};
      var bn: int := upper;
      while true
        invariant Valid() && Grown() && !SomeRefused(asked)
        invariant -|chain| <= bn <= upper
        invariant 0 <= bn < upper ==> chain[bn + 1].time > target
        invariant bn < 0 ==> chain[0].time > target
        invariant chain[0].time <= target ==> bn >= 0 && UpTo(asked, upper)
        decreases |chain| + bn
      {
        var n := Uint64(bn);
        Uint64OfSmall(bn);
        var info;
        info, asked := Look(n, asked);
        if !info.Found? {
          return info, asked;
        }
        if info.header.time <= target {
          assert bn >= 0;
          LastNotAfterAt(chain, upper, target, bn);
          return info, asked;
        }
        bn := bn - 1;
      }
    }

    /** The block before the first one after the target time. */
    method BlockBefore(h: Header, target: uint64, ghost latest: nat, ghost before: set<nat>)
      returns (r: Result, ghost asked: set<nat>)
      requires Valid() && 0 < h.number <= latest < |chain| && h == chain[h.number]
      requires chain[h.number - 1].time <= target < h.time && UpTo(before, latest) && !SomeRefused(before)
      modifies this
      ensures Valid() && Grown()
      ensures r != TimeTooLate && (r.Unavailable? <==> SomeRefused(asked))
      ensures r.Found? ==> IsLastNotAfter(chain, latest, target, r.header)
      ensures UpTo(asked, latest)
    {
      LastNotAfterAt(chain, latest, target, h.number - 1);
      r, asked := Look(Sub64(h.number, 1), before);
    }

    /** Walks up from a block before the target time. */
    method FindMinTarget(lower: uint64, target: uint64, ghost latest: nat) returns (r: Result, ghost asked: set<nat>)
      requires Valid() && lower <= latest < |chain| && chain[lower].time < target <= chain[latest].time
      modifies this
      ensures Valid() && Grown()
      ensures r != TimeTooLate && (r.Unavailable? <==> SomeRefused(asked))
      ensures r.Found? ==> IsLastNotAfter(chain, latest, target, r.header)
      ensures UpTo(asked, latest)
    {
      asked := {};
      var bn := lower;
      while true
        invariant Valid() && Grown() && !SomeRefused(asked)
        invariant lower <= bn <= latest
        invariant bn > lower ==> chain[bn - 1].time < target
        invariant UpTo(asked, latest)
        decreases latest - bn
      {
        var info;
        info, asked := Look(bn, asked);
        if !info.Found? {
          return info, asked;
        }
        if info.header.time > target {
          r, asked := BlockBefore(info.header, target, latest, asked);
          return;
        }
        if info.header.time == target {
          LastNotAfterAt(chain, latest, target, bn);
          return info, asked;
        }
        bn := bn + 1;
      }
    }

    /** The cursor after at most ten jumps; it is always a block of the chain up to the latest. */
    method Estimate(time: uint64, latest: uint64) returns (ok: bool, cursor: Header, ghost asked: set<nat>)
      requires Valid() && latest < |chain| && time <= chain[latest].time
      modifies this
      ensures Valid() && Grown() && UpTo(asked, latest)
      ensures !ok <==> SomeRefused(asked)
      ensures ok ==> cursor.number <= latest && cursor == chain[cursor.number]
    {
      asked := {};
      cursor := chain[latest];
      for i := 0 to REPEATED_SEARCHES
        invariant Valid() && Grown() && UpTo(asked, latest) && !SomeRefused(asked)
        invariant cursor.number <= latest && cursor == chain[cursor.number]
      {
        var estimated := Jump(cursor, time, latest, secondsPerBlock);
        if estimated.None? {
          break;
        }
        var info;
        info, asked := Look(estimated.value, asked);
        if !info.Found? {
          return false, cursor, asked;
        }
        cursor := info.header;
      }
      ok := true;
    }

    /** However the estimates jump, the answer is the specified block. There is an error exactly if
        the time is after the latest block, or a header that this call asked for cannot be had;
        and no height above the latest is asked for unless the time is before the first block. */
    method BlockByTimestamp(time: uint64, latest: uint64) returns (r: Result, ghost asked: set<nat>)
      requires Valid() && latest < |chain|
      modifies this
      ensures Valid() && Grown()
      ensures r.TimeTooLate? <==> time > chain[latest].time
      ensures r.Unavailable? <==> SomeRefused(asked)
      ensures r.Found? ==> IsLastNotAfter(chain, latest, time, r.header)
      ensures time < chain[0].time ==> r.Unavailable?
      ensures time >= chain[0].time ==> UpTo(asked, latest)
      // Hence a block is found whenever the headers up to the latest can be had.
      ensures chain[0].time <= time <= chain[latest].time && (forall n: nat :: n <= latest ==> !old(Refused(n))) ==> r.Found?
    {
      asked := {};
      if time > chain[latest].time {
        return TimeTooLate, asked;
      }
      var ok, cursor;
      ok, cursor, asked := Estimate(time, latest);
      if !ok {
        return Unavailable, asked;
      }
      ghost var walked;
      if cursor.time == time {
        r := RetrieveHeaderInfo(cursor.number);
        walked := {cursor.number as nat};
      } else if cursor.time > time {
        r, walked := FindMaxTarget(cursor.number, time);
      } else {
        r, walked := FindMinTarget(cursor.number, time, latest);
      }
      asked := asked + walked;
    }
  }
}

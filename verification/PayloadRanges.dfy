/** computeRanges (beacon-chain/execution/payload_body.go): block numbers cut into contiguous
    runs, each of which is one request to the engine. */
module PayloadRanges {
  import opened Sequences

  const TWO_TO_64: nat := 0x1_0000_0000_0000_0000

  type Hash = nat
  type uint64 = n: nat | n < TWO_TO_64

  datatype HashBlockNumber = HashBlockNumber(h: Hash, n: uint64)

  datatype Range = Range(start: uint64, count: nat, hbns: seq<HashBlockNumber>)

  function Add64(a: nat, b: nat): nat {
    if a + b < TWO_TO_64 then a + b else a + b - TWO_TO_64
  }

  ghost predicate Sorted(s: seq<HashBlockNumber>) {
    forall i, j :: 0 <= i < j < |s| ==> s[i].n <= s[j].n
  }

  /** Element k of a run has the number start + k. */
  ghost predicate IsRun(r: Range) {
    r.count == |r.hbns| && forall k :: 0 <= k < |r.hbns| ==> r.hbns[k].n == r.start + k
  }

  function Flatten(ranges: seq<Range>): seq<HashBlockNumber> {
    if ranges == [] then [] else Flatten(ranges[..|ranges| - 1]) + ranges[|ranges| - 1].hbns
  }

  /** Non-empty runs, no two of which in succession could be one. */
  ghost predicate MaximalRuns(ranges: seq<Range>) {
    && (forall i :: 0 <= i < |ranges| ==> ranges[i].hbns != [] && IsRun(ranges[i]))
    && (forall i, j :: 0 <= i < |ranges| && 0 <= j < |ranges| && j == i + 1 ==> ranges[j].start != ranges[i].start + ranges[i].count)
  }

  // ------------------------------------------------------------ sort.Slice

  method SortByNumber(s: seq<HashBlockNumber>) returns (r: seq<HashBlockNumber>)
    ensures Sorted(r) && |r| == |s| && multiset(r) == multiset(s)
  {
    r := [];
    for i := 0 to |s|
      invariant Sorted(r) && |r| == i && multiset(r) == multiset(s[..i])
    {
      assert s[..i + 1] == s[..i] + [s[i]];
      r := InsertByNumber(r, s[i]);
    }
    assert s[..|s|] == s;
  }

  method InsertByNumber(s: seq<HashBlockNumber>, x: HashBlockNumber) returns (r: seq<HashBlockNumber>)
    requires Sorted(s)
    ensures Sorted(r) && |r| == |s| + 1 && multiset(r) == multiset(s) + multiset{x}
  {
    var k := |s|;
    while k > 0 && s[k - 1].n > x.n
      invariant 0 <= k <= |s|
      invariant forall j :: k <= j < |s| ==> x.n <= s[j].n
    {
      k := k - 1;
    }
    r := s[..k] + [x] + s[k..];
    InsertSorted(s, k, x, r);
    InsertMultiset(s, k, x);
  }

  lemma InsertSorted(s: seq<HashBlockNumber>, k: nat, x: HashBlockNumber, r: seq<HashBlockNumber>)
    requires Sorted(s) && k <= |s| && r == s[..k] + [x] + s[k..]
    requires (k > 0 ==> s[k - 1].n <= x.n) && forall j :: k <= j < |s| ==> x.n <= s[j].n
    ensures Sorted(r)
  {
    forall i, j | 0 <= i < j < |r| ensures r[i].n <= r[j].n {
      var before := if i < k then s[i] else if i == k then x else s[i - 1];
      var after := if j < k then s[j] else if j == k then x else s[j - 1];
      assert r[i] == before && r[j] == after;
    }
  }

  // ------------------------------------------------------------ computeRanges

  method ComputeRanges(unsorted: seq<HashBlockNumber>) returns (ranges: seq<Range>)
    ensures MaximalRuns(ranges)
    ensures Sorted(Flatten(ranges)) && multiset(Flatten(ranges)) == multiset(unsorted)
  {
    if |unsorted| == 0 {
      return [];
    }
    var hbns := SortByNumber(unsorted);
    ranges := CutRuns(hbns);
  }

  /** The loop over the sorted list. */
  method CutRuns(hbns: seq<HashBlockNumber>) returns (ranges: seq<Range>)
    requires Sorted(hbns) && hbns != []
    ensures MaximalRuns(ranges) && Flatten(ranges) == hbns
  {
    ranges := [];
    var start, count := hbns[0].n, 0;
    for i := 0 to |hbns|
      invariant count <= i && (i > 0 ==> count > 0)
      invariant CutUpTo(hbns, ranges, start, count, i)
    {
      CutStep(hbns, ranges, start, count, i);
      if hbns[i].n == Add64(start, count) {
        count := count + 1;
        continue;
      }
      ranges := ranges + [Range(start, count, hbns[i - count..i])];
      start, count := hbns[i].n, 1;
    }
    CutClose(hbns, ranges, start, count, |hbns|);
    assert hbns[..|hbns|] == hbns;
    ranges := ranges + [Range(start, count, hbns[|hbns| - count..|hbns|])];
  }

  /** The places from..to of the list hold start, start + 1, and so on. */
  ghost predicate InStep(hbns: seq<HashBlockNumber>, from: nat, to: nat, start: nat) {
    from <= to <= |hbns| && forall k {:trigger hbns[k]} :: from <= k < to ==> hbns[k].n == start + k - from
  }

  /** A run with this start and length may follow the ranges. */
  ghost predicate MayFollow(ranges: seq<Range>, start: nat) {
    ranges != [] ==> start != ranges[|ranges| - 1].start + ranges[|ranges| - 1].count
  }

  /** The first i elements are cut into ranges and an open run of count elements. */
  ghost predicate CutUpTo(hbns: seq<HashBlockNumber>, ranges: seq<Range>, start: uint64, count: nat, i: nat)
    requires count <= i <= |hbns|
  {
    && i - count < |hbns| && start == hbns[i - count].n && InStep(hbns, i - count, i, start)
    && MaximalRuns(ranges) && Flatten(ranges) == hbns[..i - count] && MayFollow(ranges, start)
  }

  lemma CutClose(hbns: seq<HashBlockNumber>, ranges: seq<Range>, start: uint64, count: nat, i: nat)
    requires 0 < count <= i <= |hbns| && CutUpTo(hbns, ranges, start, count, i)
    ensures var closed := ranges + [Range(start, count, hbns[i - count..i])];
      MaximalRuns(closed) && Flatten(closed) == hbns[..i]
  {
    var r := Range(start, count, hbns[i - count..i]);
    FlattenAppend(ranges, r);
    assert hbns[..i] == hbns[..i - count] + r.hbns;
    RunsAppend(ranges, r);
  }

  lemma RunsAppend(ranges: seq<Range>, r: Range)
    requires MaximalRuns(ranges) && r.hbns != [] && IsRun(r) && MayFollow(ranges, r.start)
    ensures MaximalRuns(ranges + [r])
  {
  }

  lemma CutStep(hbns: seq<HashBlockNumber>, ranges: seq<Range>, start: uint64, count: nat, i: nat)
    requires Sorted(hbns) && count <= i < |hbns| && CutUpTo(hbns, ranges, start, count, i)
    requires i > 0 ==> count > 0
    ensures if hbns[i].n == Add64(start, count) then CutUpTo(hbns, ranges, start, count + 1, i + 1)
      else count > 0 && CutUpTo(hbns, ranges + [Range(start, count, hbns[i - count..i])], hbns[i].n, 1, i + 1)
  {
    RunStep(hbns, i, start, count);
    if count > 0 {
      CutClose(hbns, ranges, start, count, i);
    }
  }

  lemma FlattenAppend(ranges: seq<Range>, r: Range)
    ensures Flatten(ranges + [r]) == Flatten(ranges) + r.hbns
  {
    assert (ranges + [r])[..|ranges|] == ranges;
  }

  /** The wrap-around of the uint64 sum is never seen, and an element in step extends the run. */
  lemma RunStep(hbns: seq<HashBlockNumber>, i: nat, start: uint64, count: nat)
    requires Sorted(hbns) && count <= i < |hbns| && start == hbns[i - count].n && InStep(hbns, i - count, i, start)
    ensures hbns[i].n == Add64(start, count) <==> hbns[i].n == start + count
    ensures hbns[i].n == start + count ==> InStep(hbns, i - count, i + 1, start)
  {
    assert count > 0 ==> hbns[i - 1].n == start + count - 1;
  }

  /** Sorted input has only one such cut: the same list is never cut in two ways. */
  lemma {:induction false} RunsUnique(a: seq<Range>, b: seq<Range>)
    requires MaximalRuns(a) && MaximalRuns(b) && Flatten(a) == Flatten(b)
    ensures a == b
  {
    if a != [] && b != [] {
      LastRunEqual(a, b);
      var a', b' := a[..|a| - 1], b[..|b| - 1];
      RunsPrefix(a);
      RunsPrefix(b);
      RunsUnique(a', b');
      assert a == a' + [a[|a| - 1]] && b == b' + [b[|b| - 1]];
    }
  }

  lemma RunsPrefix(a: seq<Range>)
    requires a != [] && MaximalRuns(a)
    ensures MaximalRuns(a[..|a| - 1])
  {
  }

  lemma {:induction false} LastRunEqual(a: seq<Range>, b: seq<Range>)
    requires a != [] && b != [] && MaximalRuns(a) && MaximalRuns(b) && Flatten(a) == Flatten(b)
    ensures a[|a| - 1] == b[|b| - 1] && Flatten(a[..|a| - 1]) == Flatten(b[..|b| - 1])
  {
    var ra, rb := a[|a| - 1], b[|b| - 1];
    assert |ra.hbns| == |rb.hbns| by {
      LastRunLength(a, b);
      LastRunLength(b, a);
    }
    SplitAt(Flatten(a[..|a| - 1]), ra.hbns, Flatten(b[..|b| - 1]), rb.hbns);
    assert ra.start == ra.hbns[0].n == rb.start;
  }

  lemma {:induction false} SplitAt(a: seq<HashBlockNumber>, a': seq<HashBlockNumber>, b: seq<HashBlockNumber>, b': seq<HashBlockNumber>)
    requires a + a' == b + b' && |a'| == |b'|
    ensures a == b && a' == b'
  {
    assert a == (a + a')[..|a|] && b == (b + b')[..|b|];
    assert a' == (a + a')[|a|..] && b' == (b + b')[|b|..];
  }

  lemma {:induction false} LastRunLength(a: seq<Range>, b: seq<Range>)
    requires a != [] && b != [] && MaximalRuns(a) && MaximalRuns(b) && Flatten(a) == Flatten(b)
    ensures |a[|a| - 1].hbns| >= |b[|b| - 1].hbns|
  {
    var ra, rb := a[|a| - 1], b[|b| - 1];
    var all := Flatten(a);
    var p := |all| - |ra.hbns|;
    assert all[p] == ra.hbns[0];
    if |a| > 1 {
      // the element before ra is the last of the previous run, and not in step with ra
      var prev := a[|a| - 2];
      assert Flatten(a[..|a| - 1]) == Flatten(a[..|a| - 1][..|a| - 2]) + prev.hbns;
      assert all[p - 1] == prev.hbns[|prev.hbns| - 1];
      assert all[p].n != all[p - 1].n + 1;
    }
  }
}

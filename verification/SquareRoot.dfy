/** CachedSquareRoot (math/math_helper.go): Newton's method on uint64 from the last cached root. */
module SquareRoot {
  import opened Options

  const TWO_TO_64: nat := 0x1_0000_0000_0000_0000

  predicate IsRoot(r: nat, n: nat) {
    r * r <= n < (r + 1) * (r + 1)
  }

  /** The greatest number whose square is at most n. */
  function FloorRoot(n: nat): (r: nat)
    ensures IsRoot(r, n)
  {
    if n == 0 then 0
    else
      var r := FloorRoot(n - 1);
      if (r + 1) * (r + 1) <= n then r + 1 else r
  }

  lemma RootUnique(r: nat, s: nat, n: nat)
    requires IsRoot(r, n) && IsRoot(s, n)
    ensures r == s
  {
    if r < s {
      MulMonotone(r + 1, s);
    } else if s < r {
      MulMonotone(s + 1, r);
    }
  }

  lemma MulMonotone(a: nat, b: nat)
    requires a <= b
    ensures a * a <= b * b
  {
    assert b * b == a * a + (b - a) * (a + b);
  }

  // ------------------------------------------------------------ one Newton step

  function Newton(x: nat, n: nat): nat
    requires x > 0
  {
    (x + n / x) / 2
  }

  lemma Quotient(n: nat, x: nat)
    requires x > 0
    ensures n / x * x <= n < n / x * x + x
  {
    assert n == x * (n / x) + n % x;
  }

  /** From any starting point, a step never lands below the root. */
  lemma StepNotBelow(x: nat, n: nat)
    requires x > 0
    ensures n < (Newton(x, n) + 1) * (Newton(x, n) + 1)
  {
    var q := n / x;
    var y := Newton(x, n);
    Quotient(n, x);
    assert n < (q + 1) * x by { assert (q + 1) * x == q * x + x; }
    MeanBound(x, q + 1, y + 1);
  }

  /** The inequality of the two means: a square of side at least (a + b) / 2 covers a * b. */
  lemma MeanBound(a: nat, b: nat, side: nat)
    requires 2 * side >= a + b
    ensures a * b <= side * side
  {
    MulMonotone(a + b, 2 * side);
    var d := a - b;
    assert (a + b) * (a + b) == 4 * (a * b) + d * d;
    assert d * d >= 0;
    assert (2 * side) * (2 * side) == 4 * (side * side);
  }

  /** The candidate x is the root exactly when the loop's exit test holds, if it is not below. */
  lemma ExitTest(x: nat, n: nat)
    requires x > 0 && n < (x + 1) * (x + 1)
    ensures x <= n / x <==> IsRoot(x, n)
    ensures x > n / x ==> Newton(x, n) < x
  {
    var q := n / x;
    Quotient(n, x);
    if x <= q {
      assert q * x == x * x + (q - x) * x;
    } else {
      assert x * x == (q + 1) * x + (x - q - 1) * x;
      assert (q + 1) * x == q * x + x;
    }
  }

  // ------------------------------------------------------------ histories

  datatype Cache = Cache(squareRoot: nat, balance: nat)

  const SEED := Cache(126491106, 15999999897103236)

  ghost predicate Sound(c: Cache) {
    0 < c.balance < TWO_TO_64 && IsRoot(c.squareRoot, c.balance)
  }

  /** What a call leaves that has divided by zero. */
  predicate Broken(c: Cache) {
    0 < c.balance < TWO_TO_64 && c.squareRoot == 0
  }

  /** The call whose uint64 addition wraps around, so that the next division is by zero. */
  predicate Overflows(c: Cache, balance: nat) {
    balance == TWO_TO_64 - 1 && c.balance in {1, 2, 3}
  }

  /** The cache after a call, and its result; None if it panics. */
  function Call(c: Cache, balance: nat): (Cache, Option<nat>) {
    if balance == 0 then (c, Some(0))
    else if Broken(c) then
      if balance == c.balance then (c, Some(0)) else (Cache(0, balance), None)
    else if Overflows(c, balance) then (Cache(0, balance), None)
    else (Cache(FloorRoot(balance), balance), Some(FloorRoot(balance)))
  }

  /** The cache after a history of calls, and their results; a panic is recovered from. */
  function Replay(c: Cache, history: seq<nat>): (r: (Cache, seq<Option<nat>>))
    ensures |r.1| == |history|
  {
    if history == [] then (c, [])
    else
      var n := |history| - 1;
      var front := Replay(c, history[..n]);
      var last := Call(front.0, history[n]);
      (last.0, front.1 + [last.1])
  }

  /** The balance in the cache after a history: its last non-zero balance. */
  function LastBalance(c: Cache, history: seq<nat>): nat {
    if history == [] then c.balance
    else if history[|history| - 1] != 0 then history[|history| - 1]
    else LastBalance(c, history[..|history| - 1])
  }

  ghost predicate Balances(history: seq<nat>) {
    forall i :: 0 <= i < |history| ==> history[i] < TWO_TO_64
  }

  /** The balance 2^64-1 is asked for directly after 1, 2 or 3, zeros aside. */
  ghost predicate FatalAt(c: Cache, history: seq<nat>, i: int) {
    0 <= i < |history| && history[i] == TWO_TO_64 - 1 && LastBalance(c, history[..i]) in {1, 2, 3}
  }

  ghost predicate Fatal(c: Cache, history: seq<nat>) {
    exists i :: FatalAt(c, history, i)
  }

  lemma {:induction false} ReplayBalance(c: Cache, history: seq<nat>)
    requires Sound(c) && Balances(history)
    ensures var c' := Replay(c, history).0;
      c'.balance == LastBalance(c, history) && (Sound(c') || Broken(c'))
  {
    if history != [] {
      ReplayBalance(c, history[..|history| - 1]);
    }
  }

  lemma FatalFront(c: Cache, history: seq<nat>)
    requires history != []
    ensures var n := |history| - 1;
      Fatal(c, history) <==> Fatal(c, history[..n]) || FatalAt(c, history, n)
  {
    var n := |history| - 1;
    forall i | 0 <= i < n ensures FatalAt(c, history, i) <==> FatalAt(c, history[..n], i) {
      assert history[..n][..i] == history[..i];
    }
    if Fatal(c, history) {
      var i :| FatalAt(c, history, i);
      assert i < n ==> FatalAt(c, history[..n], i);
    }
    if Fatal(c, history[..n]) {
      var i :| FatalAt(c, history[..n], i);
      assert FatalAt(c, history, i);
    }
  }

  /** A history breaks the cache exactly when it asks for the root of 2^64-1 just after the root of
      1, 2 or 3. */
  lemma {:induction false} BreaksExactly(c: Cache, history: seq<nat>)
    requires Sound(c) && Balances(history)
    ensures Broken(Replay(c, history).0) <==> Fatal(c, history)
  {
    if history == [] {
      RootPositive(c.squareRoot, c.balance);
    } else {
      var n := |history| - 1;
      FatalFront(c, history);
      BreaksExactly(c, history[..n]);
      ReplayBalance(c, history[..n]);
      ReplayBalance(c, history);
      assert history[n] > 0 ==> FloorRoot(history[n]) > 0 by {
        if history[n] > 0 {
          RootPositive(FloorRoot(history[n]), history[n]);
        }
      }
    }
  }

  /** Until then every result is the floor of the square root; the fatal call panics; and from then
      on a call for the balance that is in the cache returns 0, and one for another panics. */
  lemma {:induction false} ResultsExactly(c: Cache, history: seq<nat>, i: nat)
    requires Sound(c) && Balances(history) && i < |history|
    ensures Replay(c, history).1[i] ==
      if history[i] == 0 then Some(0)
      else if Fatal(c, history[..i]) then (if history[i] == LastBalance(c, history[..i]) then Some(0) else None)
      else if FatalAt(c, history, i) then None
      else Some(FloorRoot(history[i]))
  {
    var n := |history| - 1;
    if i < n {
      ResultsExactly(c, history[..n], i);
      assert history[..n][..i] == history[..i];
    } else {
      BreaksExactly(c, history[..n]);
      ReplayBalance(c, history[..n]);
    }
  }

  /** Below 2^64-1 every history gets the floor of each square root. */
  lemma SmallBalancesGetRoots(c: Cache, history: seq<nat>, i: nat)
    requires Sound(c) && i < |history| && forall j :: 0 <= j < |history| ==> history[j] < TWO_TO_64 - 1
    ensures Replay(c, history).1[i] == Some(FloorRoot(history[i]))
  {
    assert FloorRoot(0) == 0;
    ResultsExactly(c, history, i);
  }

  /** The fatal history, from the start of the program. */
  lemma FatalHistory()
    ensures Sound(SEED) && Replay(SEED, [1, TWO_TO_64 - 1]).1 == [Some(1), None]
    ensures Replay(SEED, [1, TWO_TO_64 - 1, TWO_TO_64 - 1, 4]).1 == [Some(1), None, Some(0), None]
  {
    RootUnique(FloorRoot(1), 1, 1);
    var max := TWO_TO_64 - 1;
    assert Replay(SEED, []) == (SEED, []);
    ReplayStep(SEED, [], 1);
    ReplayStep(SEED, [1], max);
    ReplayStep(SEED, [1, max], max);
    ReplayStep(SEED, [1, max, max], 4);
    assert [] + [1] == [1] && [1] + [max] == [1, max];
    assert [1, max] + [max] == [1, max, max] && [1, max, max] + [4] == [1, max, max, 4];
  }

  lemma ReplayStep(c: Cache, history: seq<nat>, n: nat)
    ensures var front := Replay(c, history); var last := Call(front.0, n);
      Replay(c, history + [n]) == (last.0, front.1 + [last.1])
  {
    assert (history + [n])[..|history|] == history;
  }

  // ------------------------------------------------------------ the code

  class SquareRootCache {
    var squareRoot: nat
    var balance: nat

    ghost function Value(): Cache
      reads this
    {
      Cache(squareRoot, balance)
    }

    ghost predicate Valid()
      reads this
    {
      Sound(Value()) || Broken(Value())
    }

    constructor ()
      ensures Value() == SEED && Sound(Value())
    {
      squareRoot, balance := 126491106, 15999999897103236;
    }

    /** None: the call panics, having divided by zero. */
    method CachedSquareRoot(n: nat) returns (r: Option<nat>)
      requires n < TWO_TO_64 && Valid()
      modifies this
      ensures Valid() && (Value(), r) == Call(old(Value()), n)
      ensures old(Sound(Value())) ==> r == if Overflows(old(Value()), n) then None else Some(FloorRoot(n))
    {
      if n == 0 {
        return Some(0);
      }
      CachedIsRoot(squareRoot, balance);
      if n == balance {
        return Some(squareRoot);
      }
      ghost var cached := balance;
      balance := n;
      if squareRoot == 0 {
        return None;
      }
      r := Iterate(n, cached);
      FloorRootSound(n);
    }

    /** The loop, from the last root. */
    method Iterate(n: nat, ghost cached: nat) returns (r: Option<nat>)
      requires 0 < n < TWO_TO_64 && squareRoot > 0 && Sound(Cache(squareRoot, cached))
      modifies this`squareRoot
      ensures r == if Overflows(Cache(old(squareRoot), cached), n) then None else Some(FloorRoot(n))
      ensures squareRoot == if r.None? then 0 else FloorRoot(n)
    {
      ghost var start := squareRoot;
      ghost var first := true;
      FirstSum(start, cached, n);
      var val := n / squareRoot;
      while true
        invariant squareRoot > 0 && val == n / squareRoot
        invariant first ==> squareRoot == start
        invariant !first ==> val < squareRoot < TWO_TO_64 / 2 && n < (squareRoot + 1) * (squareRoot + 1)
        invariant !first ==> !(start == 1 && n == TWO_TO_64 - 1)
        decreases first, squareRoot
      {
        var sum := squareRoot + val;
        if sum < TWO_TO_64 {
          StepNotBelow(squareRoot, n);
        }
        squareRoot := (if sum < TWO_TO_64 then sum else sum - TWO_TO_64) / 2;
        if squareRoot == 0 {
          return None;
        }
        ExitTest(squareRoot, n);
        first := false;
        val := n / squareRoot;
        if squareRoot <= val {
          RootUnique(squareRoot, FloorRoot(n), n);
          return Some(squareRoot);
        }
      }
    }

    /** A history of calls, each of which may panic and be recovered from. */
    method Run(history: seq<nat>) returns (results: seq<Option<nat>>)
      requires Balances(history) && Valid()
      modifies this
      ensures Valid() && (Value(), results) == Replay(old(Value()), history)
    {
      results := [];
      for i := 0 to |history|
        invariant Valid() && (Value(), results) == Replay(old(Value()), history[..i])
      {
        assert history[..i + 1][..i] == history[..i];
        var r := CachedSquareRoot(history[i]);
        results := results + [r];
      }
      assert history[..|history|] == history;
    }
  }

  lemma FloorRootSound(n: nat)
    requires 0 < n < TWO_TO_64
    ensures FloorRoot(n) > 0 && Sound(Cache(FloorRoot(n), n))
  {
    RootPositive(FloorRoot(n), n);
  }

  lemma CachedIsRoot(root: nat, n: nat)
    requires Sound(Cache(root, n)) || Broken(Cache(root, n))
    ensures root > 0 <==> Sound(Cache(root, n))
    ensures Sound(Cache(root, n)) ==> root == FloorRoot(n) && !Broken(Cache(root, n))
  {
    if Sound(Cache(root, n)) {
      RootPositive(root, n);
      RootUnique(root, FloorRoot(n), n);
    }
  }

  lemma RootPositive(r: nat, n: nat)
    requires IsRoot(r, n) && n > 0
    ensures r > 0
    ensures r == 1 <==> n in {1, 2, 3}
  {
    if r == 0 {
      assert false;
    }
    if r >= 2 {
      MulMonotone(2, r);
    }
  }

  /** The first addition wraps around exactly from the root 1 to the balance 2^64-1. */
  lemma FirstSum(root: nat, cached: nat, n: nat)
    requires IsRoot(root, cached) && 0 < cached < TWO_TO_64 && 0 < n < TWO_TO_64
    ensures root > 0
    ensures root == 1 <==> cached in {1, 2, 3}
    ensures root == 1 && n == TWO_TO_64 - 1 ==> root + n / root == TWO_TO_64
    ensures !(root == 1 && n == TWO_TO_64 - 1) ==> 2 <= root + n / root < TWO_TO_64
  {
    RootPositive(root, cached);
    RootSmall(root, cached);
    if root > 1 {
      AtMostHalf(n, root);
    }
  }

  lemma AtMostHalf(n: nat, x: nat)
    requires x > 1
    ensures 2 * (n / x) <= n
  {
    Quotient(n, x);
    Double(n / x, x);
  }

  lemma Double(q: nat, x: nat)
    requires x > 1
    ensures 2 * q <= q * x
  {
    if q > 0 {
      Double(q - 1, x);
      assert q * x == (q - 1) * x + x;
    }
  }

  lemma RootSmall(r: nat, n: nat)
    requires r * r <= n < TWO_TO_64
    ensures r < 0x1_0000_0000
  {
    if r >= 0x1_0000_0000 {
      MulMonotone(0x1_0000_0000, r);
    }
  }
}

/** The key lists of async/multilock.go: duplicate removal, sorting, and the
    order on keys that every Lock call follows. */
module MultilockKeys {
  import opened Options
  import opened Sequences

  type Key = string

  /** Byte-wise lexicographic order, as sort.Strings uses it. */
  predicate Less(a: Key, b: Key) {
    |b| != 0 &&
    (|a| == 0 || a[0] < b[0] || (a[0] == b[0] && Less(a[1..], b[1..])))
  }

  ghost predicate StrictlySorted(keys: seq<Key>) {
    forall i, j :: 0 <= i < j < |keys| ==> Less(keys[i], keys[j])
  }

  ghost predicate Distinct(keys: seq<Key>) {
    forall i, j :: 0 <= i < j < |keys| ==> keys[i] != keys[j]
  }

  lemma LessIrreflexive(a: Key)
    ensures !Less(a, a)
  {
    if |a| != 0 {
      LessIrreflexive(a[1..]);
    }
  }

  lemma {:induction false} LessTransitive(a: Key, b: Key, c: Key)
    requires Less(a, b) && Less(b, c)
    ensures Less(a, c)
  {
    if |a| != 0 && a[0] == b[0] == c[0] {
      LessTransitive(a[1..], b[1..], c[1..]);
    }
  }

  lemma {:induction false} LessTotal(a: Key, b: Key)
    ensures a == b || Less(a, b) || Less(b, a)
  {
    if |a| != 0 && |b| != 0 && a[0] == b[0] {
      LessTotal(a[1..], b[1..]);
      assert a == [a[0]] + a[1..] && b == [b[0]] + b[1..];
    }
  }

  /** A non-empty finite set of keys has a greatest element. */
  lemma {:induction false} GreatestKey(keys: set<Key>) returns (m: Key)
    requires keys != {}
    ensures m in keys
    ensures forall k :: k in keys ==> !Less(m, k)
    decreases |keys|
  {
    m :| m in keys;
    var rest := keys - {m};
    LessIrreflexive(m);
    if rest != {} {
      var n := GreatestKey(rest);
      LessIrreflexive(n);
      LessTotal(m, n);
      if Less(m, n) {
        m := n;
        forall k | k in keys ensures !Less(m, k) {
          if k !in rest && Less(m, k) {
            LessTransitive(k, m, k);
            LessIrreflexive(k);
          }
        }
      } else {
        forall k | k in keys ensures !Less(m, k) {
          if k in rest && Less(m, k) {
            LessTransitive(n, m, k);
          }
        }
      }
    }
  }

  /** The elements of arr without those that occur earlier in arr. */
  function FirstOccurrences(arr: seq<Key>): (r: seq<Key>)
    ensures Distinct(r)
    ensures forall k :: k in r <==> k in arr
  {
    if arr == [] then []
    else
      var last := arr[|arr| - 1];
      var r := FirstOccurrences(arr[..|arr| - 1]);
      assert arr == arr[..|arr| - 1] + [last];
      if last in r then r else r + [last]
  }

  /** unique: the first occurrence of every element, in order. */
  method Unique(arr: seq<Key>) returns (result: seq<Key>)
    ensures result == FirstOccurrences(arr)
  {
    if |arr| <= 1 {
      return arr;
    }
    var found: set<Key> := {};
    result := [];
    for i := 0 to |arr|
      invariant result == FirstOccurrences(arr[..i])
      invariant forall k :: k in found <==> k in result
    {
      assert arr[..i + 1][..i] == arr[..i];
      if arr[i] !in found {
        found := found + {arr[i]};
        result := result + [arr[i]];
      }
    }
    assert arr[..|arr|] == arr;
  }

  /** The result of inserting `k` in a strictly sorted list that lacks it. */
  method Insert(sorted: seq<Key>, k: Key) returns (result: seq<Key>)
    requires StrictlySorted(sorted) && k !in sorted
    ensures StrictlySorted(result)
    ensures multiset(result) == multiset(sorted) + multiset{k}
  {
    var i := 0;
    while i < |sorted| && Less(sorted[i], k)
      invariant 0 <= i <= |sorted|
      invariant forall j :: 0 <= j < i ==> Less(sorted[j], k)
    {
      i := i + 1;
    }
    result := sorted[..i] + [k] + sorted[i..];
    if i < |sorted| {
      LessTotal(sorted[i], k);
      forall j | i < j < |sorted| ensures Less(k, sorted[j]) {
        LessTransitive(k, sorted[i], sorted[j]);
      }
    }
    InsertSorted(sorted, i, k, result);
    InsertMultiset(sorted, i, k);
  }

  lemma InsertSorted(sorted: seq<Key>, i: nat, k: Key, result: seq<Key>)
    requires StrictlySorted(sorted) && i <= |sorted| && result == sorted[..i] + [k] + sorted[i..]
    requires forall j :: 0 <= j < |sorted| ==> if j < i then Less(sorted[j], k) else Less(k, sorted[j])
    ensures StrictlySorted(result)
  {
    forall a, b | 0 <= a < b < |result| ensures Less(result[a], result[b]) {
      var x := if a < i then sorted[a] else if a == i then k else sorted[a - 1];
      var y := if b < i then sorted[b] else if b == i then k else sorted[b - 1];
      assert result[a] == x && result[b] == y;
    }
  }

  /** sort.Strings on a list without duplicates. */
  method Sort(keys: seq<Key>) returns (result: seq<Key>)
    requires Distinct(keys)
    ensures StrictlySorted(result)
    ensures multiset(result) == multiset(keys)
  {
    result := [];
    for i := 0 to |keys|
      invariant StrictlySorted(result)
      invariant multiset(result) == multiset(keys[..i])
    {
      assert keys[..i + 1] == keys[..i] + [keys[i]];
      assert forall k :: k in result <==> k in multiset(result);
      assert keys[i] !in keys[..i];
      result := Insert(result, keys[i]);
    }
    assert keys[..|keys|] == keys;
  }

  /** NewMultilock: no object for an empty list, otherwise the sorted,
      duplicate-free list of exactly the given keys. */
  method NewMultilock(locks: seq<Key>) returns (r: Option<seq<Key>>)
    ensures r.None? <==> locks == []
    ensures r.Some? ==> StrictlySorted(r.value)
    ensures r.Some? ==> forall k :: k in r.value <==> k in locks
  {
    if |locks| == 0 {
      return None;
    }
    var keys := Unique(locks);
    var sorted := Sort(keys);
    assert forall k :: k in sorted <==> k in multiset(sorted);
    assert forall k :: k in keys <==> k in multiset(keys);
    return Some(sorted);
  }
}

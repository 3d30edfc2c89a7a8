/** blobNotifierMap of beacon-chain/blockchain/service.go: one channel per block
    root, and the indices that were announced on it. */
module BlobNotifier {
  import opened Options

  type Root = nat

  /** The two maps. Channels are numbered in the order of their creation. */
  datatype Registry = Registry(notifiers: map<Root, nat>, seen: map<Root, seq<bool>>, channels: nat)

  function Unseen(max: nat): seq<bool> {
    seq(max, i => false)
  }

  function SeenOf(r: Registry, root: Root, max: nat): (s: seq<bool>)
    requires root in r.seen ==> |r.seen[root]| == max
    ensures |s| == max
  {
    if root in r.seen then r.seen[root] else Unseen(max)
  }

  /** The channel of a root, made if there is none. */
  function WithChannel(r: Registry, root: Root): Registry {
    if root in r.notifiers then r
    else r.(notifiers := r.notifiers[root := r.channels], channels := r.channels + 1)
  }

  /** What notifyIndex does under its lock, and the channel it then sends on, if any. */
  function Notified(r: Registry, root: Root, idx: nat, max: nat): (Registry, Option<nat>)
    requires root in r.seen ==> |r.seen[root]| == max
  {
    if idx >= max || SeenOf(r, root, max)[idx] then (r, None)
    else
      var r' := WithChannel(r.(seen := r.seen[root := SeenOf(r, root, max)[idx := true]]), root);
      (r', Some(r'.notifiers[root]))
  }

  function Forgotten(r: Registry, root: Root): Registry {
    r.(notifiers := r.notifiers - {root}, seen := r.seen - {root})
  }

  /** The index was announced for the root. */
  predicate Seen(r: Registry, root: Root, i: nat) {
    root in r.seen && i < |r.seen[root]| && r.seen[root][i]
  }

  /** Nothing has changed for the root. */
  predicate SameFor(r: Registry, r': Registry, root: Root) {
    && (root in r.notifiers <==> root in r'.notifiers)
    && (root in r.notifiers ==> r.notifiers[root] == r'.notifiers[root])
    && (root in r.seen <==> root in r'.seen)
    && (root in r.seen ==> r.seen[root] == r'.seen[root])
  }

  /** A call to notifyIndex, with the number of blobs that its slot allows. */
  datatype Call = Call(root: Root, idx: nat)

  /** The list of a root has the length that its slot allows. */
  ghost predicate Sized(r: Registry, max: Root -> nat) {
    forall root :: root in r.seen ==> |r.seen[root]| == max(root)
  }

  /** The registry after some calls. */
  function AfterCalls(r: Registry, calls: seq<Call>, max: Root -> nat): (r': Registry)
    requires Sized(r, max)
    ensures Sized(r', max)
  {
    if calls == [] then r
    else
      var n := |calls| - 1;
      Notified(AfterCalls(r, calls[..n], max), calls[n].root, calls[n].idx, max(calls[n].root)).0
  }

  /** The channel that the j-th call sends on, if any. */
  function SentOn(r: Registry, calls: seq<Call>, max: Root -> nat, j: nat): Option<nat>
    requires Sized(r, max) && j < |calls|
  {
    Notified(AfterCalls(r, calls[..j], max), calls[j].root, calls[j].idx, max(calls[j].root)).1
  }

  lemma NotifiedSeen(r: Registry, call: Call, max: nat, root: Root, i: nat)
    requires call.root in r.seen ==> |r.seen[call.root]| == max
    requires Seen(r, root, i) || (call == Call(root, i) && i < max)
    ensures Seen(Notified(r, call.root, call.idx, max).0, root, i)
  {
  }

  lemma {:induction false} StaysSeen(r: Registry, calls: seq<Call>, max: Root -> nat, i: nat)
    requires Sized(r, max) && i < |calls| && calls[i].idx < max(calls[i].root)
    ensures Seen(AfterCalls(r, calls, max), calls[i].root, calls[i].idx)
  {
    var n := |calls| - 1;
    if i < n {
      StaysSeen(r, calls[..n], max, i);
    }
    NotifiedSeen(AfterCalls(r, calls[..n], max), calls[n], max(calls[n].root), calls[i].root, calls[i].idx);
  }

  /** However often an index is announced for a root, at most the first announcement is sent, as
      long as the root is not deleted. */
  lemma AnnouncedOnce(r: Registry, calls: seq<Call>, max: Root -> nat, i: nat, j: nat)
    requires Sized(r, max) && i < j < |calls| && calls[i] == calls[j]
    ensures SentOn(r, calls, max, j).None?
  {
    if calls[i].idx < max(calls[i].root) {
      StaysSeen(r, calls[..j], max, i);
    }
  }

  class BlobNotifierMap {
    var notifiers: map<Root, nat>
    var seenIndex: map<Root, seq<bool>>
    var channels: nat

    function Value(): Registry
      reads this
    {
      Registry(notifiers, seenIndex, channels)
    }

    constructor ()
      ensures Value() == Registry(map[], map[], 0)
    {
      notifiers := map[];
      seenIndex := map[];
      channels := 0;
    }

    /** The part of notifyIndex under the lock; the send on `c` comes after it. */
    method NotifyIndex(root: Root, idx: nat, max: nat) returns (c: Option<nat>)
      requires root in seenIndex ==> |seenIndex[root]| == max
      modifies this
      ensures (Value(), c) == Notified(old(Value()), root, idx, max)
      // It is announced unless it is out of bounds or was announced before,
      ensures c.Some? <==> idx < max && !Seen(old(Value()), root, idx)
      // on the channel of the root, which stays if there was one,
      ensures c.Some? ==> root in notifiers && c.value == notifiers[root]
      ensures c.Some? ==> c.value == if root in old(notifiers) then old(notifiers)[root] else old(channels)
      // and nothing else is seen or changed.
      ensures forall i: nat :: Seen(Value(), root, i) <==> Seen(old(Value()), root, i) || (c.Some? && i == idx)
      ensures forall other :: other != root || c.None? ==> SameFor(old(Value()), Value(), other)
    {
      if idx >= max {
        return None;
      }
      var seen: seq<bool>;
      if root in seenIndex {
        seen := seenIndex[root];
      } else {
        seen := seq(max, i => false);
      }
      if seen[idx] {
        return None;
      }
      seen := seen[idx := true];
      seenIndex := seenIndex[root := seen];
      if root !in notifiers {
        notifiers := notifiers[root := channels];
        channels := channels + 1;
      }
      return Some(notifiers[root]);
    }

    method ForRoot(root: Root) returns (c: nat)
      modifies this
      ensures Value() == WithChannel(old(Value()), root)
      ensures root in notifiers && c == notifiers[root]
      ensures c == if root in old(notifiers) then old(notifiers)[root] else old(channels)
      ensures forall other :: other != root ==> SameFor(old(Value()), Value(), other)
    {
      if root !in notifiers {
        notifiers := notifiers[root := channels];
        channels := channels + 1;
      }
      c := notifiers[root];
    }

    method Delete(root: Root)
      modifies this
      ensures Value() == Forgotten(old(Value()), root)
      ensures root !in notifiers && forall i: nat :: !Seen(Value(), root, i)
      ensures forall other :: other != root ==> SameFor(old(Value()), Value(), other)
      ensures channels == old(channels)
    {
      seenIndex := seenIndex - {root};
      notifiers := notifiers - {root};
    }
  }

  datatype Missing = TooManyBlobs | Indices(missing: set<nat>)

  /** missingBlobIndices: the indices with a commitment that the store lacks. */
  method MissingBlobIndices(stored: set<nat>, commitments: seq<bool>, max: nat) returns (r: Missing)
    ensures r == MissingOf(stored, commitments, max)
  {
    if |commitments| == 0 {
      return Indices({});
    }
    if |commitments| > max {
      return TooManyBlobs;
    }
    var missing: set<nat> := {};
    for i := 0 to |commitments|
      invariant missing == set j: nat | j < i && commitments[j] && j !in stored
    {
      if commitments[i] && i !in stored {
        missing := missing + {i};
      }
    }
    return Indices(missing);
  }

  function MissingOf(stored: set<nat>, commitments: seq<bool>, max: nat): Missing {
    if commitments != [] && |commitments| > max then TooManyBlobs
    else Indices(LackingIndices(stored, commitments))
  }

  function LackingIndices(stored: set<nat>, commitments: seq<bool>): set<nat> {
    set j: nat | j < |commitments| && commitments[j] && j !in stored
  }
}

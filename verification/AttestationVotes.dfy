/** The attestation cache (beacon-chain/cache/attestation.go) as a value: groups of
    attestations under one identifier, and what every operation does to the recorded votes. */
module AttestationVotes {
  import opened Options

  /** What NewId computes from the data, version and committees of an attestation. */
  type Id = nat

  /** A signature is the multiset of the positions whose signatures it aggregates; None if its
      bytes are not a signature. */
  datatype Att = Att(bits: seq<bool>, signature: Option<multiset<nat>>)

  datatype Group = Group(slot: nat, atts: seq<Att>)

  type State = map<Id, Group>

  // --------------------------------------------------------------- bit lists

  predicate BitAt(bits: seq<bool>, i: nat) {
    i < |bits| && bits[i]
  }

  /** Has no effect beyond the end of the list. */
  function SetBitAt(bits: seq<bool>, i: nat): seq<bool> {
    if i < |bits| then bits[i := true] else bits
  }

  /** The first of BitIndices, or the length if no bit is set. */
  function FirstBit(bits: seq<bool>): (r: nat)
    ensures r <= |bits|
    ensures r < |bits| ==> bits[r]
    ensures forall i :: 0 <= i < r ==> !bits[i]
  {
    if bits == [] || bits[0] then 0 else 1 + FirstBit(bits[1..])
  }

  /** IsAggregated: more than one bit is set. */
  predicate Aggregated(bits: seq<bool>) {
    exists i, j :: 0 <= i < j < |bits| && bits[i] && bits[j]
  }

  /** Contains fails on lists of different lengths. */
  function Contains(bits: seq<bool>, other: seq<bool>): Option<bool> {
    if |bits| != |other| then None
    else Some(forall i :: 0 <= i < |other| && other[i] ==> bits[i])
  }

  function AggregateSig(a: Option<multiset<nat>>, b: Option<multiset<nat>>): Option<multiset<nat>> {
    if a.None? || b.None? then None else Some(a.value + b.value)
  }

  // --------------------------------------------------------------- operations

  datatype Outcome = Outcome(state: State, ok: bool)

  function Add(s: State, id: Option<Id>, slot: nat, att: Att): Outcome {
    var bit := FirstBit(att.bits);
    if bit == |att.bits| then Outcome(s, true)
    else if id.None? then Outcome(s, false)
    else if id.value !in s then Outcome(s[id.value := Group(slot, [att])], true)
    else
      var g := s[id.value];
      if Aggregated(att.bits) then Outcome(s[id.value := g.(atts := g.atts + [att])], true)
      else if g.atts == [] || BitAt(g.atts[0].bits, bit) then Outcome(s, true)
      else
        var signature := AggregateSig(g.atts[0].signature, att.signature);
        if signature.None? then Outcome(s, false)
        else
          var a := Att(SetBitAt(g.atts[0].bits, bit), signature);
          Outcome(s[id.value := g.(atts := g.atts[0 := a])], true)
  }

  function Uncovered(atts: seq<Att>, bits: seq<bool>): seq<Att> {
    if atts == [] then []
    else
      var n := |atts| - 1;
      Uncovered(atts[..n], bits) + (if Contains(bits, atts[n].bits) == Some(true) then [] else [atts[n]])
  }

  /** The first attestation that cannot be compared, or the length if there is none. */
  function FirstMismatch(atts: seq<Att>, bits: seq<bool>): (k: nat)
    ensures k <= |atts|
    ensures forall i :: 0 <= i < k ==> |atts[i].bits| == |bits|
    ensures k < |atts| ==> |atts[k].bits| != |bits|
  {
    if atts == [] || |atts[0].bits| != |bits| then 0 else 1 + FirstMismatch(atts[1..], bits)
  }

  lemma {:induction false} UncoveredShorter(atts: seq<Att>, bits: seq<bool>)
    ensures |Uncovered(atts, bits)| <= |atts|
  {
    if atts != [] {
      UncoveredShorter(atts[..|atts| - 1], bits);
    }
  }

  /** What DeleteCovered's loop leaves in a list, the number of attestations in front that it has
      moved there, and whether it could compare all. */
  datatype Compaction = Compaction(after: seq<Att>, moved: nat, comparable: bool)

  function CompactionOf(atts: seq<Att>, bits: seq<bool>): (c: Compaction)
    ensures c.moved <= |c.after|
  {
    var k := FirstMismatch(atts, bits);
    var kept := Uncovered(atts[..k], bits);
    UncoveredShorter(atts[..k], bits);
    Compaction(kept + atts[|kept|..], |kept|, k == |atts|)
  }

  /** On a mismatch the list is left as compacted so far, at its old length. */
  function StoreCompaction(s: State, id: Id, c: Compaction): Outcome
    requires id in s && c.moved <= |c.after|
  {
    if !c.comparable then Outcome(s[id := s[id].(atts := c.after)], false)
    else if c.moved == 0 then Outcome(s - {id}, true)
    else Outcome(s[id := s[id].(atts := c.after[..c.moved])], true)
  }

  function DeleteCovered(s: State, id: Option<Id>, bits: seq<bool>): Outcome {
    if id.None? then Outcome(s, false)
    else if id.value !in s then Outcome(s, true)
    else StoreCompaction(s, id.value, CompactionOf(s[id.value].atts, bits))
  }

  function PruneBefore(s: State, slot: nat): State {
    map id | id in s && s[id].slot >= slot :: s[id]
  }

  /** The elements at the given places. */
  function Places(atts: seq<Att>, at: seq<nat>): (r: seq<Att>)
    requires forall j :: 0 <= j < |at| ==> at[j] < |atts|
    ensures |r| == |at|
  {
    seq(|at|, j requires 0 <= j < |at| => atts[at[j]])
  }

  /** The places of the attestations to keep among the first i. */
  function UncoveredPlaces(atts: seq<Att>, bits: seq<bool>, i: nat): (at: seq<nat>)
    requires i <= |atts|
    ensures forall j :: 0 <= j < |at| ==> at[j] < |atts|
  {
    if i == 0 then []
    else UncoveredPlaces(atts, bits, i - 1) + (if Contains(bits, atts[i - 1].bits) == Some(true) then [] else [i - 1])
  }

  lemma {:induction false} UncoveredAtPlaces(atts: seq<Att>, bits: seq<bool>, i: nat)
    requires i <= |atts|
    ensures Uncovered(atts[..i], bits) == Places(atts, UncoveredPlaces(atts, bits, i))
  {
    if i > 0 {
      UncoveredAtPlaces(atts, bits, i - 1);
      assert atts[..i][..i - 1] == atts[..i - 1];
    }
  }

  /** The first i attestations can be compared. */
  ghost predicate Comparable(atts: seq<Att>, bits: seq<bool>, i: nat) {
    i <= |atts| && forall j :: 0 <= j < i ==> |atts[j].bits| == |bits|
  }

  lemma KeptAll(atts: seq<Att>, bits: seq<bool>, i: nat)
    requires Comparable(atts, bits, i) && (i < |atts| ==> |atts[i].bits| != |bits|)
    ensures var at := UncoveredPlaces(atts, bits, i);
      |at| <= |atts| && CompactionOf(atts, bits) == Compaction(Places(atts, at) + atts[|at|..], |at|, i == |atts|)
  {
    assert FirstMismatch(atts, bits) == i;
    UncoveredAtPlaces(atts, bits, i);
    UncoveredShorter(atts[..i], bits);
  }

  /** PruneBefore when the groups in todo are still to be looked at. */
  function PruneRest(s: State, slot: nat, todo: set<Id>): State {
    map id | id in s && (id in todo || s[id].slot >= slot) :: s[id]
  }

  lemma PruneEnds(s: State, slot: nat)
    ensures PruneRest(s, slot, s.Keys) == s && PruneRest(s, slot, {}) == PruneBefore(s, slot)
  {
  }

  lemma PruneStep(s: State, slot: nat, todo: set<Id>, id: Id)
    requires id in s && id in todo
    ensures id in PruneRest(s, slot, todo) && PruneRest(s, slot, todo)[id] == s[id]
    ensures PruneRest(s, slot, todo - {id}) ==
      if s[id].slot < slot then PruneRest(s, slot, todo) - {id} else PruneRest(s, slot, todo)
  {
  }

  /** The number of stored attestations. */
  ghost function Size(s: State): nat {
    if s == map[] then 0
    else
      var id :| id in s;
      |s[id].atts| + Size(s - {id})
  }

  lemma {:induction false} SizeWithout(s: State, id: Id)
    requires id in s
    ensures Size(s) == |s[id].atts| + Size(s - {id})
    decreases |s|
  {
    var first :| id in s && first in s && Size(s) == |s[first].atts| + Size(s - {first});
    if first != id {
      SizeWithout(s - {first}, id);
      SizeWithout(s - {id}, first);
      assert s - {first} - {id} == s - {id} - {first};
    }
  }

  /** AggregateIsRedundant's scan of a group: None for an error. */
  function Redundant(atts: seq<Att>, bits: seq<bool>): Option<bool> {
    if atts == [] then Some(false)
    else match Contains(atts[0].bits, bits)
      case None => None
      case Some(contained) => if contained then Some(true) else Redundant(atts[1..], bits)
  }

  // --------------------------------------------------------------- invariant

  /** The committee size and the slot that an identifier stands for. */
  datatype Duties = Duties(size: Id -> nat, slot: Id -> nat)

  ghost function Signers(bits: seq<bool>): multiset<nat> {
    multiset(set i: nat | i < |bits| && bits[i])
  }

  /** The bits of one committee, and a signature that aggregates exactly the set bits, once each. */
  ghost predicate AttOk(a: Att, size: nat) {
    |a.bits| == size && a.signature == Some(Signers(a.bits))
  }

  ghost predicate GroupOk(g: Group, size: nat, slot: nat) {
    && g.slot == slot && g.atts != []
    && forall i :: 0 <= i < |g.atts| ==> AttOk(g.atts[i], size)
  }

  ghost predicate Inv(d: Duties, s: State) {
    forall id :: id in s ==> GroupOk(s[id], d.size(id), d.slot(id))
  }

  lemma SetBitSigners(bits: seq<bool>, i: nat)
    requires i < |bits| && !bits[i]
    ensures Signers(bits[i := true]) == Signers(bits) + multiset{i}
  {
    var bits' := bits[i := true];
    var before := set j: nat | j < |bits| && bits[j];
    var after := set j: nat | j < |bits'| && bits'[j];
    assert after == before + {i} && i !in before;
  }

  lemma SingleSigner(bits: seq<bool>)
    requires FirstBit(bits) < |bits| && !Aggregated(bits)
    ensures Signers(bits) == multiset{FirstBit(bits)}
  {
    var signers := set j: nat | j < |bits| && bits[j];
    var bit := FirstBit(bits);
    assert bit in signers;
    assert forall j :: j in signers ==> j == bit;
    assert signers == {bit};
  }

  /** Merging a single vote into the running aggregate keeps signature and bits in step exactly
      when the aggregate has that bit. */
  lemma MergeInStep(a: Att, att: Att)
    requires AttOk(a, |a.bits|) && AttOk(att, |att.bits|)
    requires FirstBit(att.bits) < |att.bits| && !Aggregated(att.bits) && !BitAt(a.bits, FirstBit(att.bits))
    ensures var bit := FirstBit(att.bits);
      AttOk(Att(SetBitAt(a.bits, bit), AggregateSig(a.signature, att.signature)), |a.bits|) <==> bit < |a.bits|
  {
    var bit := FirstBit(att.bits);
    SingleSigner(att.bits);
    if bit < |a.bits| {
      SetBitSigners(a.bits, bit);
    } else {
      assert Signers(a.bits)[bit] == 0;
      assert (Signers(a.bits) + multiset{bit})[bit] == 1;
    }
  }

  /** A vote at a position that the running aggregate lacks is signed for but not recorded. */
  lemma MergeOutOfStep()
    ensures var a, att := Att([true], Some(multiset{0})), Att([false, true], Some(multiset{1}));
      && AttOk(a, 1) && AttOk(att, 2)
      && var s := Add(map[0 := Group(0, [a])], Some(0), 0, att).state;
         s[0].atts == [Att([true], Some(multiset{0, 1}))] && !AttOk(s[0].atts[0], 1)
  {
    var a, att := Att([true], Some(multiset{0})), Att([false, true], Some(multiset{1}));
    assert [true][0] && FirstBit([true]) == 0;
    assert [false, true][1..] == [true] && FirstBit([false, true]) == 1;
    SingleSigner([true]);
    SingleSigner([false, true]);
    MergeInStep(a, att);
    var zero: multiset<nat>, one: multiset<nat>, both: multiset<nat> := multiset{0}, multiset{1}, multiset{0, 1};
    assert zero + one == both;
    var merged := Att(SetBitAt(a.bits, 1), Some(multiset{0, 1}));
    assert [a][0 := merged] == [merged];
    assert !AttOk(merged, 1);
  }

  // --------------------------------------------------------------- runs

  datatype Op =
    | AddOp(id: Option<Id>, slot: nat, att: Att)
    | DeleteOp(id: Option<Id>, bits: seq<bool>)
    | PruneOp(slot: nat)

  function Apply(s: State, op: Op): State {
    match op
    case AddOp(id, slot, att) => Add(s, id, slot, att).state
    case DeleteOp(id, bits) => DeleteCovered(s, id, bits).state
    case PruneOp(slot) => PruneBefore(s, slot)
  }

  /** Attestations arrive verified: bits of their committee and a signature of the set bits. */
  ghost predicate Verified(d: Duties, op: Op) {
    match op
    case AddOp(id, slot, att) => id.Some? ==> slot == d.slot(id.value) && AttOk(att, d.size(id.value))
    case DeleteOp(id, bits) => id.Some? ==> |bits| == d.size(id.value)
    case PruneOp(slot) => true
  }

  function Run(s: State, ops: seq<Op>): State {
    if ops == [] then s else Apply(Run(s, ops[..|ops| - 1]), ops[|ops| - 1])
  }

  lemma AddKeepsInv(d: Duties, s: State, id: Option<Id>, slot: nat, att: Att)
    requires Inv(d, s) && Verified(d, AddOp(id, slot, att))
    ensures Inv(d, Add(s, id, slot, att).state)
  {
    var bit := FirstBit(att.bits);
    if id.Some? && id.value in s && bit < |att.bits| && !Aggregated(att.bits) {
      var a := s[id.value].atts[0];
      assert AttOk(a, d.size(id.value));
      if !BitAt(a.bits, bit) {
        MergeInStep(a, att);
      }
    }
  }

  lemma {:induction false} UncoveredOk(atts: seq<Att>, bits: seq<bool>, size: nat)
    requires forall i :: 0 <= i < |atts| ==> AttOk(atts[i], size)
    ensures forall i :: 0 <= i < |Uncovered(atts, bits)| ==> AttOk(Uncovered(atts, bits)[i], size)
  {
    if atts != [] {
      UncoveredOk(atts[..|atts| - 1], bits, size);
    }
  }

  lemma AllComparable(atts: seq<Att>, bits: seq<bool>)
    requires forall i :: 0 <= i < |atts| ==> |atts[i].bits| == |bits|
    ensures var c := CompactionOf(atts, bits); c.comparable && c.after[..c.moved] == Uncovered(atts, bits)
  {
    assert FirstMismatch(atts, bits) == |atts|;
    assert atts[..|atts|] == atts;
  }

  lemma DeleteKeepsInv(d: Duties, s: State, id: Option<Id>, bits: seq<bool>)
    requires Inv(d, s) && Verified(d, DeleteOp(id, bits))
    ensures Inv(d, DeleteCovered(s, id, bits).state)
    ensures id.Some? ==> DeleteCovered(s, id, bits).ok
  {
    if id.Some? && id.value in s {
      var g := s[id.value];
      forall i | 0 <= i < |g.atts| ensures |g.atts[i].bits| == |bits| {
        assert AttOk(g.atts[i], d.size(id.value));
      }
      AllComparable(g.atts, bits);
      UncoveredOk(g.atts, bits, d.size(id.value));
    }
  }

  /** On every run no group is empty and each stored signature aggregates its set bits once each. */
  lemma {:induction false} RunKeepsInv(d: Duties, ops: seq<Op>)
    requires forall i :: 0 <= i < |ops| ==> Verified(d, ops[i])
    ensures Inv(d, Run(map[], ops))
  {
    if ops != [] {
      var n := |ops| - 1;
      RunKeepsInv(d, ops[..n]);
      var s := Run(map[], ops[..n]);
      match ops[n]
      case AddOp(id, slot, att) => AddKeepsInv(d, s, id, slot, att);
      case DeleteOp(id, bits) => DeleteKeepsInv(d, s, id, bits);
      case PruneOp(_) =>
    }
  }

  // --------------------------------------------------------------- votes

  ghost predicate VotedIn(atts: seq<Att>, v: nat) {
    exists i :: 0 <= i < |atts| && BitAt(atts[i].bits, v)
  }

  ghost predicate Voted(s: State, id: Id, v: nat) {
    id in s && VotedIn(s[id].atts, v)
  }

  /** Add records exactly the votes of its attestation, and leaves other groups alone. */
  lemma AddRecordsVotes(d: Duties, s: State, id: Id, slot: nat, att: Att, other: Id, v: nat)
    requires Inv(d, s) && Verified(d, AddOp(Some(id), slot, att))
    ensures var r := Add(s, Some(id), slot, att);
      r.ok && (Voted(r.state, other, v) <==> Voted(s, other, v) || (other == id && BitAt(att.bits, v)))
  {
    var bit := FirstBit(att.bits);
    if bit < |att.bits| {
      if id !in s {
        assert [att][0] == att;
      } else {
        assert AttOk(s[id].atts[0], d.size(id));
        if Aggregated(att.bits) {
          AppendVotes(s[id].atts, att, v);
        } else if BitAt(s[id].atts[0].bits, bit) {
          assert BitAt(att.bits, v) ==> v == bit;
        } else {
          MergeVotes(s[id].atts, att, Add(s, Some(id), slot, att).state[id].atts[0], v);
        }
      }
    }
  }

  lemma AppendVotes(atts: seq<Att>, att: Att, v: nat)
    ensures VotedIn(atts + [att], v) <==> VotedIn(atts, v) || BitAt(att.bits, v)
  {
    var all := atts + [att];
    if VotedIn(atts, v) {
      var i :| 0 <= i < |atts| && BitAt(atts[i].bits, v);
      assert BitAt(all[i].bits, v);
    }
    assert all[|atts|] == att;
  }

  lemma MergeVotes(atts: seq<Att>, att: Att, a: Att, v: nat)
    requires atts != [] && FirstBit(att.bits) < |att.bits| == |atts[0].bits| && !Aggregated(att.bits)
    requires a.bits == SetBitAt(atts[0].bits, FirstBit(att.bits))
    ensures VotedIn(atts[0 := a], v) <==> VotedIn(atts, v) || BitAt(att.bits, v)
  {
    var merged := atts[0 := a];
    if VotedIn(atts, v) {
      var i :| 0 <= i < |atts| && BitAt(atts[i].bits, v);
      assert BitAt(merged[i].bits, v);
    }
    if VotedIn(merged, v) {
      var i :| 0 <= i < |merged| && BitAt(merged[i].bits, v);
      assert BitAt(atts[i].bits, v) || v == FirstBit(att.bits);
    }
    assert BitAt(merged[0].bits, FirstBit(att.bits));
  }

  /** After Add, the attestation is redundant. */
  lemma AddMakesRedundant(d: Duties, s: State, id: Id, slot: nat, att: Att)
    requires Inv(d, s) && Verified(d, AddOp(Some(id), slot, att)) && FirstBit(att.bits) < |att.bits|
    ensures var s' := Add(s, Some(id), slot, att).state;
      id in s' && Redundant(s'[id].atts, att.bits) == Some(true)
  {
    AddKeepsInv(d, s, Some(id), slot, att);
    var atts := Add(s, Some(id), slot, att).state[id].atts;
    var i := if id in s && Aggregated(att.bits) then |atts| - 1 else 0;
    assert id in s ==> AttOk(s[id].atts[0], d.size(id));
    assert Contains(atts[i].bits, att.bits) == Some(true);
    forall j | 0 <= j < |atts| ensures |atts[j].bits| == |att.bits| {
      assert AttOk(atts[j], d.size(id));
    }
    ScanFinds(atts, att.bits, i);
  }

  lemma {:induction false} ScanFinds(atts: seq<Att>, bits: seq<bool>, i: nat)
    requires i < |atts| && Contains(atts[i].bits, bits) == Some(true)
    requires forall j :: 0 <= j < |atts| ==> |atts[j].bits| == |bits|
    ensures Redundant(atts, bits) == Some(true)
  {
    if i > 0 {
      ScanFinds(atts[1..], bits, i - 1);
    }
  }

  /** What the scan's verdict means: it is that of the first attestation that contains the bits or
      cannot be compared, and negative if there is none. */
  lemma {:induction false} ScanVerdict(atts: seq<Att>, bits: seq<bool>) returns (k: nat)
    ensures k <= |atts| && forall i :: 0 <= i < k ==> Contains(atts[i].bits, bits) == Some(false)
    ensures k < |atts| ==> Contains(atts[k].bits, bits) != Some(false)
    ensures Redundant(atts, bits) == if k < |atts| then Contains(atts[k].bits, bits) else Some(false)
  {
    k := 0;
    if atts != [] && Contains(atts[0].bits, bits) == Some(false) {
      var rest := ScanVerdict(atts[1..], bits);
      k := rest + 1;
    }
  }

  /** A redundant attestation has only votes that are recorded already. */
  lemma RedundantVotesRecorded(s: State, id: Id, bits: seq<bool>, v: nat)
    requires id in s && Redundant(s[id].atts, bits) == Some(true) && BitAt(bits, v)
    ensures Voted(s, id, v)
  {
    var k := ScanVerdict(s[id].atts, bits);
    assert BitAt(s[id].atts[k].bits, v);
  }

  /** The given places of a list, in order, are exactly those of the attestations that are not
      covered, and kept is what is there. */
  ghost predicate IsFilter(atts: seq<Att>, bits: seq<bool>, kept: seq<Att>, at: seq<nat>) {
    && |at| == |kept|
    && (forall j :: 0 <= j < |at| ==> at[j] < |atts| && kept[j] == atts[at[j]])
    && (forall j, k :: 0 <= j < k < |at| ==> at[j] < at[k])
    && (forall i: nat :: i < |atts| ==> (i in at <==> Contains(bits, atts[i].bits) != Some(true)))
  }

  lemma FilterStep(atts: seq<Att>, bits: seq<bool>, kept: seq<Att>, at: seq<nat>, a: Att)
    requires IsFilter(atts, bits, kept, at)
    ensures if Contains(bits, a.bits) == Some(true) then IsFilter(atts + [a], bits, kept, at)
      else IsFilter(atts + [a], bits, kept + [a], at + [|atts|])
  {
    assert |atts| !in at;
    var at' := at + [|atts|];
    assert forall i: nat :: i in at' <==> i in at || i == |atts|;
  }

  /** The compaction keeps exactly the attestations that are not covered, in order. */
  lemma {:induction false} UncoveredIsFilter(atts: seq<Att>, bits: seq<bool>) returns (at: seq<nat>)
    ensures IsFilter(atts, bits, Uncovered(atts, bits), at)
  {
    at := [];
    if atts != [] {
      var n := |atts| - 1;
      at := UncoveredIsFilter(atts[..n], bits);
      FilterStep(atts[..n], bits, Uncovered(atts[..n], bits), at, atts[n]);
      assert atts[..n] + [atts[n]] == atts;
      if Contains(bits, atts[n].bits) == Some(true) {
        assert Uncovered(atts, bits) == Uncovered(atts[..n], bits);
      } else {
        at := at + [n];
      }
    }
  }

  /** Each of the attestations is contained in the bits. */
  ghost predicate AllCovered(atts: seq<Att>, bits: seq<bool>) {
    forall i :: 0 <= i < |atts| ==> Contains(bits, atts[i].bits) == Some(true)
  }

  lemma {:induction false} NoneUncovered(atts: seq<Att>, bits: seq<bool>)
    ensures Uncovered(atts, bits) == [] <==> AllCovered(atts, bits)
  {
    if atts != [] {
      var n := |atts| - 1;
      NoneUncovered(atts[..n], bits);
      assert AllCovered(atts, bits) ==> forall i :: 0 <= i < n ==> Contains(bits, atts[..n][i].bits) == Some(true);
      assert atts == atts[..n] + [atts[n]];
    }
  }

  lemma DeletedGroup(s: State, id: Id, bits: seq<bool>)
    requires id in s && forall i :: 0 <= i < |s[id].atts| ==> |s[id].atts[i].bits| == |bits|
    ensures var kept := Uncovered(s[id].atts, bits);
      DeleteCovered(s, Some(id), bits) == Outcome(if kept == [] then s - {id} else s[id := s[id].(atts := kept)], true)
  {
    AllComparable(s[id].atts, bits);
  }

  /** On a group of the same length of bits, DeleteCovered leaves exactly the attestations that the
      given bits do not contain, in order, removes the group if there is none, and changes nothing
      else. */
  lemma DeletesExactly(s: State, id: Id, bits: seq<bool>) returns (at: seq<nat>)
    requires id in s && forall i :: 0 <= i < |s[id].atts| ==> |s[id].atts[i].bits| == |bits|
    ensures var r := DeleteCovered(s, Some(id), bits);
      && r.ok && r.state - {id} == s - {id}
      && (id !in r.state <==> AllCovered(s[id].atts, bits))
      && (id in r.state ==> r.state[id].slot == s[id].slot && IsFilter(s[id].atts, bits, r.state[id].atts, at))
  {
    DeletedGroup(s, id, bits);
    NoneUncovered(s[id].atts, bits);
    at := UncoveredIsFilter(s[id].atts, bits);
  }

  /** At the first attestation that cannot be compared, DeleteCovered fails: the attestations to
      keep before it have moved to the front, over those that were there, and the list keeps its
      length. */
  lemma DeleteStops(s: State, id: Id, bits: seq<bool>, k: nat) returns (kept: seq<Att>, at: seq<nat>)
    requires id in s && k < |s[id].atts| && |s[id].atts[k].bits| != |bits|
    requires forall i :: 0 <= i < k ==> |s[id].atts[i].bits| == |bits|
    ensures IsFilter(s[id].atts[..k], bits, kept, at) && |kept| <= k
    ensures DeleteCovered(s, Some(id), bits) == Outcome(s[id := s[id].(atts := kept + s[id].atts[|kept|..])], false)
  {
    var atts := s[id].atts;
    assert FirstMismatch(atts, bits) == k;
    kept := Uncovered(atts[..k], bits);
    at := UncoveredIsFilter(atts[..k], bits);
    UncoveredShorter(atts[..k], bits);
  }

  /** DeleteCovered removes no vote outside the given bits. */
  lemma DeleteKeepsOtherVotes(d: Duties, s: State, id: Option<Id>, bits: seq<bool>, other: Id, v: nat)
    requires Inv(d, s) && Verified(d, DeleteOp(id, bits))
    requires Some(other) == id ==> !BitAt(bits, v)
    ensures Voted(DeleteCovered(s, id, bits).state, other, v) <==> Voted(s, other, v)
  {
    if id == Some(other) && other in s {
      var g := s[other];
      DeleteKeepsInv(d, s, id, bits);
      forall i | 0 <= i < |g.atts| ensures |g.atts[i].bits| == |bits| {
        assert AttOk(g.atts[i], d.size(other));
      }
      AllComparable(g.atts, bits);
      UncoveredVotes(g.atts, bits, v);
    }
  }

  lemma {:induction false} UncoveredVotes(atts: seq<Att>, bits: seq<bool>, v: nat)
    requires forall i :: 0 <= i < |atts| ==> |atts[i].bits| == |bits|
    requires !BitAt(bits, v)
    ensures VotedIn(Uncovered(atts, bits), v) <==> VotedIn(atts, v)
  {
    if atts != [] {
      var n := |atts| - 1;
      UncoveredVotes(atts[..n], bits, v);
      assert atts == atts[..n] + [atts[n]];
      AppendVotes(atts[..n], atts[n], v);
      AppendVotes(Uncovered(atts[..n], bits), atts[n], v);
      if Contains(bits, atts[n].bits) == Some(true) {
        assert Uncovered(atts, bits) == Uncovered(atts[..n], bits);
        assert !BitAt(atts[n].bits, v);
      }
    }
  }

  /** Whether an operation may drop the vote of v in the group id. */
  ghost predicate Drops(d: Duties, op: Op, id: Id, v: nat) {
    match op
    case AddOp(_, _, _) => false
    case DeleteOp(target, bits) => target == Some(id) && BitAt(bits, v)
    case PruneOp(slot) => d.slot(id) < slot
  }

  lemma StepKeepsVote(d: Duties, s: State, op: Op, id: Id, v: nat)
    requires Inv(d, s) && Verified(d, op) && Voted(s, id, v) && !Drops(d, op, id, v)
    ensures Voted(Apply(s, op), id, v)
  {
    match op
    case AddOp(target, slot, att) =>
      if target.Some? {
        AddRecordsVotes(d, s, target.value, slot, att, id, v);
      }
    case DeleteOp(target, bits) => DeleteKeepsOtherVotes(d, s, target, bits, id, v);
    case PruneOp(_) => assert GroupOk(s[id], d.size(id), d.slot(id));
  }

  /** On every run, an added vote stays recorded until a DeleteCovered with that bit, or a
      PruneBefore of its slot. */
  lemma {:induction false} VotesAreNotLost(d: Duties, ops: seq<Op>, k: nat, id: Id, v: nat)
    requires forall i :: 0 <= i < |ops| ==> Verified(d, ops[i])
    requires k < |ops| && ops[k].AddOp? && ops[k].id == Some(id) && BitAt(ops[k].att.bits, v)
    requires forall i :: k < i < |ops| ==> !Drops(d, ops[i], id, v)
    ensures Voted(Run(map[], ops), id, v)
    decreases |ops|
  {
    var n := |ops| - 1;
    var s := Run(map[], ops[..n]);
    RunKeepsInv(d, ops[..n]);
    if k == n {
      AddRecordsVotes(d, s, id, ops[n].slot, ops[n].att, id, v);
    } else {
      VotesAreNotLost(d, ops[..n], k, id, v);
      StepKeepsVote(d, s, ops[n], id, v);
    }
  }

  lemma UncoveredHasNoMore(atts: seq<Att>, bits: seq<bool>, v: nat)
    requires VotedIn(Uncovered(atts, bits), v)
    ensures VotedIn(atts, v)
  {
    var kept := Uncovered(atts, bits);
    var at := UncoveredIsFilter(atts, bits);
    var i :| 0 <= i < |kept| && BitAt(kept[i].bits, v);
    assert BitAt(atts[at[i]].bits, v);
  }

  lemma DeleteAddsNoVote(d: Duties, s: State, id: Option<Id>, bits: seq<bool>, other: Id, v: nat)
    requires Inv(d, s) && Verified(d, DeleteOp(id, bits)) && Voted(DeleteCovered(s, id, bits).state, other, v)
    ensures Voted(s, other, v)
  {
    if id == Some(other) && other in s {
      forall i | 0 <= i < |s[other].atts| ensures |s[other].atts[i].bits| == |bits| {
        assert AttOk(s[other].atts[i], d.size(other));
      }
      AllComparable(s[other].atts, bits);
      UncoveredHasNoMore(s[other].atts, bits, v);
    }
  }

  /** A vote that is recorded after a step was so before, or is added by it. */
  lemma StepAddsVote(d: Duties, s: State, op: Op, id: Id, v: nat)
    requires Inv(d, s) && Verified(d, op) && Voted(Apply(s, op), id, v)
    ensures Voted(s, id, v) || (op.AddOp? && op.id == Some(id) && BitAt(op.att.bits, v))
    ensures op.PruneOp? ==> op.slot <= d.slot(id)
  {
    match op
    case AddOp(target, slot, att) =>
      if target.Some? {
        AddRecordsVotes(d, s, target.value, slot, att, id, v);
      }
    case DeleteOp(target, bits) => DeleteAddsNoVote(d, s, target, bits, id, v);
    case PruneOp(slot) => assert GroupOk(s[id], d.size(id), d.slot(id));
  }

  /** On every run, a recorded vote has been added, and its slot has not been pruned since. */
  lemma {:induction false} VotesWereAdded(d: Duties, ops: seq<Op>, id: Id, v: nat) returns (k: nat)
    requires forall i :: 0 <= i < |ops| ==> Verified(d, ops[i])
    requires Voted(Run(map[], ops), id, v)
    ensures k < |ops| && ops[k].AddOp? && ops[k].id == Some(id) && BitAt(ops[k].att.bits, v)
    ensures forall i :: k < i < |ops| && ops[i].PruneOp? ==> ops[i].slot <= d.slot(id)
    decreases |ops|
  {
    k := |ops| - 1;
    var s := Run(map[], ops[..k]);
    RunKeepsInv(d, ops[..k]);
    StepAddsVote(d, s, ops[k], id, v);
    if Voted(s, id, v) {
      k := VotesWereAdded(d, ops[..k], id, v);
    }
  }

  /** An aggregate is appended to its group; a single vote changes at most the bits and signature
      of the first attestation. */
  lemma AddChangesOnly(s: State, id: Id, slot: nat, att: Att)
    requires id in s && s[id].atts != [] && FirstBit(att.bits) < |att.bits|
    ensures var s' := Add(s, Some(id), slot, att).state;
      && id in s' && s'[id].slot == s[id].slot && s' - {id} == s - {id}
      && (Aggregated(att.bits) ==> s'[id].atts == s[id].atts + [att])
      && (!Aggregated(att.bits) ==> |s'[id].atts| == |s[id].atts| && s'[id].atts[1..] == s[id].atts[1..])
  {
  }

  /** While only single votes arrive, every group is one running aggregate, whose bits are
      exactly the votes that came for it. */
  lemma {:induction false} SinglesMakeOneAggregate(d: Duties, ops: seq<Op>, id: Id, v: nat)
    requires forall i :: 0 <= i < |ops| ==> Verified(d, ops[i]) && ops[i].AddOp? && !Aggregated(ops[i].att.bits)
    ensures var s := Run(map[], ops);
      && (id in s ==> |s[id].atts| == 1)
      && (id in s && BitAt(s[id].atts[0].bits, v) <==>
            exists k :: 0 <= k < |ops| && ops[k].id == Some(id) && BitAt(ops[k].att.bits, v))
  {
    if ops != [] {
      var n := |ops| - 1;
      var s, op := Run(map[], ops[..n]), ops[n];
      SinglesMakeOneAggregate(d, ops[..n], id, v);
      RunKeepsInv(d, ops[..n]);
      SingleStep(d, s, op, id, v);
      assert forall k :: 0 <= k < n ==> ops[..n][k] == ops[k];
    }
  }

  lemma SingleStep(d: Duties, s: State, op: Op, id: Id, v: nat)
    requires Inv(d, s) && Verified(d, op) && op.AddOp? && !Aggregated(op.att.bits)
    requires id in s ==> |s[id].atts| == 1
    ensures var s' := Apply(s, op);
      && (id in s' ==> |s'[id].atts| == 1)
      && (id in s' && BitAt(s'[id].atts[0].bits, v) <==>
            (id in s && BitAt(s[id].atts[0].bits, v)) || (op.id == Some(id) && BitAt(op.att.bits, v)))
  {
    var s' := Apply(s, op);
    if op.id.Some? {
      AddRecordsVotes(d, s, op.id.value, op.slot, op.att, id, v);
    }
    assert id in s' ==> |s'[id].atts| == 1;
    assert Voted(s', id, v) <==> Voted(s, id, v) || (op.id == Some(id) && BitAt(op.att.bits, v));
  }
}

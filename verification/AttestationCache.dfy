/** The attestation cache as it is stored: groups of attestation objects whose bits and
    signatures are overwritten in place. */
module AttestationCache {
  import opened Options
  import Votes = AttestationVotes

  class Attestation {
    /** None if NewId fails on this attestation. */
    const id: Option<Votes.Id>
    const slot: nat
    var bits: seq<bool>
    var signature: Option<multiset<nat>>

    function Value(): Votes.Att
      reads this
    {
      Votes.Att(bits, signature)
    }

    constructor (id: Option<Votes.Id>, slot: nat, bits: seq<bool>, signature: Option<multiset<nat>>)
      ensures this.id == id && this.slot == slot && Value() == Votes.Att(bits, signature)
    {
      this.id, this.slot, this.bits, this.signature := id, slot, bits, signature;
    }

    method Clone() returns (c: Attestation)
      ensures fresh(c) && c.id == id && c.slot == slot && c.Value() == Value()
    {
      c := new Attestation(id, slot, bits, signature);
    }
  }

  datatype AttGroup = AttGroup(slot: nat, atts: seq<Attestation>)

  type Groups = map<Votes.Id, AttGroup>

  // ------------------------------------------------------------ what a heap stands for

  /** The values of some objects. */
  type Values = map<Attestation, Votes.Att>

  ghost function ValuesOf(objects: set<Attestation>): Values
    reads objects
  {
    map a | a in objects :: a.Value()
  }

  /** A list of objects with the given identifier. */
  ghost predicate Keyed(list: seq<Attestation>, id: Votes.Id, vals: Values) {
    forall i :: 0 <= i < |list| ==> list[i] in vals && list[i].id == Some(id)
  }

  ghost predicate AllKeyed(atts: Groups, vals: Values) {
    forall id :: id in atts ==> Keyed(atts[id].atts, id, vals)
  }

  ghost predicate Distinct(list: seq<Attestation>) {
    forall i, j :: 0 <= i < j < |list| ==> list[i] != list[j]
  }

  ghost function ListOf(list: seq<Attestation>, vals: Values): (r: seq<Votes.Att>)
    requires forall i :: 0 <= i < |list| ==> list[i] in vals
  {
    seq(|list|, i requires 0 <= i < |list| => vals[list[i]])
  }

  ghost function ContentsOf(atts: Groups, vals: Values): Votes.State
    requires AllKeyed(atts, vals)
  {
    map id | id in atts :: GroupOf(atts, vals, id)
  }

  ghost function GroupOf(atts: Groups, vals: Values, id: Votes.Id): Votes.Group
    requires AllKeyed(atts, vals) && id in atts
  {
    assert Keyed(atts[id].atts, id, vals);
    Votes.Group(atts[id].slot, ListOf(atts[id].atts, vals))
  }

  lemma SetContents(atts: Groups, vals: Values, id: Votes.Id, group: AttGroup)
    requires AllKeyed(atts, vals) && Keyed(group.atts, id, vals)
    ensures AllKeyed(atts[id := group], vals)
    ensures ContentsOf(atts[id := group], vals) ==
      ContentsOf(atts, vals)[id := Votes.Group(group.slot, ListOf(group.atts, vals))]
  {
  }

  lemma RemoveContents(atts: Groups, vals: Values, id: Votes.Id)
    requires AllKeyed(atts, vals)
    ensures AllKeyed(atts - {id}, vals) && ContentsOf(atts - {id}, vals) == ContentsOf(atts, vals) - {id}
  {
  }

  /** Another object changes nothing. */
  lemma MoreValues(atts: Groups, vals: Values, a: Attestation, v: Votes.Att)
    requires AllKeyed(atts, vals) && (a in vals ==> vals[a] == v)
    ensures AllKeyed(atts, vals[a := v]) && ContentsOf(atts, vals[a := v]) == ContentsOf(atts, vals)
  {
    forall id | id in atts ensures Keyed(atts[id].atts, id, vals[a := v]) {
      assert Keyed(atts[id].atts, id, vals);
    }
    forall id | id in atts ensures GroupOf(atts, vals[a := v], id) == GroupOf(atts, vals, id) {
      assert Keyed(atts[id].atts, id, vals);
    }
  }

  /** The values of a list when its first object has taken a new one: it may be there twice. */
  ghost function SharedAtts(values: seq<Votes.Att>, list: seq<Attestation>): seq<Votes.Att> {
    seq(|values|, j requires 0 <= j < |values| => if j < |list| && list[j] == list[0] then values[0] else values[j])
  }

  /** A new value of the first object of a group is seen in that group only. */
  lemma OverwriteContents(atts: Groups, vals: Values, id: Votes.Id, v: Votes.Att)
    requires AllKeyed(atts, vals) && id in atts && atts[id].atts != []
    ensures var a, s := atts[id].atts[0], ContentsOf(atts, vals);
      && AllKeyed(atts, vals[a := v])
      && ContentsOf(atts, vals[a := v]) == s[id := s[id].(atts := SharedAtts(s[id].atts[0 := v], atts[id].atts))]
  {
    var list, s := atts[id].atts, ContentsOf(atts, vals);
    var vals' := vals[list[0] := v];
    assert Keyed(list, id, vals);
    forall k | k in atts ensures Keyed(atts[k].atts, k, vals') {
      assert Keyed(atts[k].atts, k, vals);
    }
    assert ListOf(list, vals') == SharedAtts(s[id].atts[0 := v], list);
    forall k | k in atts && k != id ensures GroupOf(atts, vals', k) == s[k] {
      assert Keyed(atts[k].atts, k, vals);
      assert ListOf(atts[k].atts, vals') == ListOf(atts[k].atts, vals);
    }
  }

  /** A state with the new value of a group's first object at all its places. */
  ghost function Shared(s: Votes.State, id: Option<Votes.Id>, atts: Groups): Votes.State {
    if id.Some? && id.value in s && id.value in atts
    then s[id.value := s[id.value].(atts := SharedAtts(s[id.value].atts, atts[id.value].atts))]
    else s
  }

  lemma SharedSame(values: seq<Votes.Att>, list: seq<Attestation>)
    requires |list| <= |values| && forall j :: 0 <= j < |list| && list[j] == list[0] ==> values[j] == values[0]
    ensures SharedAtts(values, list) == values
  {
  }

  /** What only reads is not affected by sharing. */
  lemma SharesNothing(atts: Groups, vals: Values, id: Option<Votes.Id>)
    requires AllKeyed(atts, vals)
    ensures Shared(ContentsOf(atts, vals), id, atts) == ContentsOf(atts, vals)
  {
    if id.Some? && id.value in atts {
      assert Keyed(atts[id.value].atts, id.value, vals);
      SharedSame(ListOf(atts[id.value].atts, vals), atts[id.value].atts);
    }
  }

  // ------------------------------------------------------------ the code

  class Cache {
    var atts: Groups
    /** The objects that are or were stored. */
    ghost var objects: set<Attestation>

    /** Every object is in the group of its identifier. */
    ghost predicate Valid()
      reads this, objects
    {
      AllKeyed(atts, ValuesOf(objects))
    }

    ghost function Contents(): Votes.State
      requires Valid()
      reads this, objects
    {
      ContentsOf(atts, ValuesOf(objects))
    }

    /** No attestation object is stored twice. */
    ghost predicate Intact()
      reads this
    {
      forall id :: id in atts ==> Distinct(atts[id].atts)
    }

    constructor ()
      ensures Valid() && Intact() && Contents() == map[] && objects == {}
    {
      atts := map[];
      objects := {};
    }

    // ---------------------------------------------------------- Add

    /** What Add does to the cache as a value; an object that is in a list twice is merged into at
        both places. */
    method Add(att: Attestation?) returns (ok: bool)
      requires Valid()
      modifies this, objects
      ensures Valid() && (old(Intact()) ==> Intact())
      ensures att == null ==> ok && Contents() == old(Contents())
      ensures att != null ==>
        var r := Votes.Add(old(Contents()), att.id, att.slot, old(att.Value()));
        && ok == r.ok && Contents() == Shared(r.state, att.id, old(atts))
        && (old(Intact()) ==> Contents() == r.state)
    {
      if att == null {
        return true;
      }
      SharesNothing(atts, ValuesOf(objects), att.id);
      var bit := Votes.FirstBit(att.bits);
      if bit == |att.bits| {
        return true;
      }
      if att.id.None? {
        return false;
      }
      var id := att.id.value;
      if id !in atts {
        NewGroup(id, att);
        return true;
      }
      if Votes.Aggregated(att.bits) {
        Append(id, att);
        return true;
      }
      if |atts[id].atts| == 0 {
        return true;
      }
      ok := Merge(id, att, bit);
    }

    /** The caller's own object becomes the running aggregate. */
    method NewGroup(id: Votes.Id, att: Attestation)
      requires Valid() && id !in atts && att.id == Some(id)
      modifies this
      ensures Valid() && (old(Intact()) ==> Intact())
      ensures Contents() == old(Contents())[id := Votes.Group(att.slot, [att.Value()])]
    {
      ghost var vals := ValuesOf(objects);
      MoreValues(atts, vals, att, att.Value());
      SetContents(atts, vals[att := att.Value()], id, AttGroup(att.slot, [att]));
      atts := atts[id := AttGroup(att.slot, [att])];
      objects := objects + {att};
      assert ValuesOf(objects) == vals[att := att.Value()];
      assert ListOf([att], ValuesOf(objects)) == [att.Value()];
    }

    method Append(id: Votes.Id, att: Attestation)
      requires Valid() && id in atts && att.id == Some(id)
      modifies this
      ensures Valid() && (old(Intact()) ==> Intact())
      ensures var s := old(Contents()); var appended := s[id := s[id].(atts := s[id].atts + [att.Value()])];
        Contents() == appended == Shared(appended, Some(id), old(atts))
    {
      var c := att.Clone();
      var group := atts[id];
      ghost var vals, v := ValuesOf(objects), att.Value();
      assert Keyed(group.atts, id, vals) && c !in vals;
      MoreValues(atts, vals, c, v);
      assert Keyed(group.atts, id, vals[c := v]);
      SetContents(atts, vals[c := v], id, group.(atts := group.atts + [c]));
      atts := atts[id := group.(atts := group.atts + [c])];
      objects := objects + {c};
      assert ValuesOf(objects) == vals[c := v];
      assert ListOf(group.atts + [c], vals[c := v]) == ListOf(group.atts, vals) + [v];
      SharedSame(ListOf(group.atts, vals) + [v], group.atts);
    }

    method Merge(id: Votes.Id, att: Attestation, bit: nat) returns (ok: bool)
      requires Valid() && id in atts && atts[id].atts != []
      modifies objects
      ensures Valid()
      ensures var s := old(Contents()); var g := s[id];
        var sig := Votes.AggregateSig(g.atts[0].signature, old(att.signature));
        if Votes.BitAt(g.atts[0].bits, bit) then ok && Contents() == s
        else if sig.None? then !ok && Contents() == s
        else
          var merged := s[id := g.(atts := g.atts[0 := Votes.Att(Votes.SetBitAt(g.atts[0].bits, bit), sig)])];
          ok && Contents() == Shared(merged, Some(id), atts) && (Intact() ==> Contents() == merged)
    {
      ghost var vals := ValuesOf(objects);
      var a := atts[id].atts[0];
      assert Keyed(atts[id].atts, id, vals);
      if Votes.BitAt(a.bits, bit) {
        return true;
      }
      var sig := Votes.AggregateSig(a.signature, att.signature);
      if sig.None? {
        return false;
      }
      a.bits := Votes.SetBitAt(a.bits, bit);
      a.signature := sig;
      assert ValuesOf(objects) == vals[a := a.Value()];
      OverwriteContents(atts, vals, id, a.Value());
      ok := true;
      if Intact() {
        assert Distinct(atts[id].atts);
        SharedSame(ListOf(atts[id].atts, vals)[0 := a.Value()], atts[id].atts);
      }
    }

    // ---------------------------------------------------------- DeleteCovered

    method DeleteCovered(att: Attestation?) returns (ok: bool)
      requires Valid()
      modifies this
      ensures Valid() && (ok && old(Intact()) ==> Intact())
      ensures att == null ==> ok && Contents() == old(Contents())
      ensures att != null ==>
        var r := Votes.DeleteCovered(old(Contents()), att.id, att.bits);
        ok == r.ok && Contents() == r.state
    {
      if att == null {
        return true;
      }
      if att.id.None? {
        return false;
      }
      var id := att.id.value;
      if id !in atts {
        return true;
      }
      ghost var vals := ValuesOf(objects);
      assert Keyed(atts[id].atts, id, vals);
      var compacted, idx;
      compacted, idx, ok := Compact(atts[id].atts, att.bits, id, vals);
      StoreCompacted(id, compacted, idx, ok, vals);
    }

    /** Puts the compacted list in the place of the old one, or removes an empty group. */
    method StoreCompacted(id: Votes.Id, compacted: seq<Attestation>, idx: nat, ok: bool, ghost vals: Values)
      requires Valid() && id in atts && vals == ValuesOf(objects) && idx <= |compacted| && Keyed(compacted, id, vals)
      modifies this
      ensures Valid() && objects == old(objects)
      ensures Votes.Outcome(ContentsOf(atts, vals), ok) ==
        Votes.StoreCompaction(ContentsOf(old(atts), vals), id, Votes.Compaction(ListOf(compacted, vals), idx, ok))
      ensures ok && old(Intact()) && Distinct(compacted[..idx]) ==> Intact()
    {
      var list := if ok then compacted[..idx] else compacted;
      assert Keyed(compacted[..idx], id, vals);
      assert ListOf(compacted[..idx], vals) == ListOf(compacted, vals)[..idx];
      if ok && idx == 0 {
        RemoveContents(atts, vals, id);
        atts := atts - {id};
      } else {
        SetContents(atts, vals, id, atts[id].(atts := list));
        atts := atts[id := atts[id].(atts := list)];
      }
    }

    // ---------------------------------------------------------- PruneBefore

    method PruneBefore(slot: nat) returns (pruneCount: nat)
      requires Valid()
      modifies this
      ensures Valid() && (old(Intact()) ==> Intact())
      ensures Contents() == Votes.PruneBefore(old(Contents()), slot)
      ensures pruneCount + Votes.Size(Contents()) == Votes.Size(old(Contents()))
    {
      pruneCount := 0;
      var todo := atts.Keys;
      ghost var s, vals := Contents(), ValuesOf(objects);
      ghost var now := s;
      Votes.PruneEnds(s, slot);
      while todo != {}
        invariant todo <= s.Keys && AllKeyed(atts, vals) && objects == old(objects)
        invariant ContentsOf(atts, vals) == now == Votes.PruneRest(s, slot, todo)
        invariant pruneCount + Votes.Size(now) == Votes.Size(s)
        invariant old(Intact()) ==> Intact()
        decreases |todo|
      {
        var id :| id in todo;
        Votes.PruneStep(s, slot, todo, id);
        if atts[id].slot < slot {
          Votes.SizeWithout(now, id);
          RemoveContents(atts, vals, id);
          pruneCount := pruneCount + |atts[id].atts|;
          atts := atts - {id};
          now := now - {id};
        }
        todo := todo - {id};
      }
    }

    // ---------------------------------------------------------- AggregateIsRedundant

    method AggregateIsRedundant(att: Attestation?) returns (redundant: bool, ok: bool)
      requires Valid()
      ensures att == null ==> redundant && ok
      ensures att != null && att.id.None? ==> redundant && !ok
      ensures att != null && att.id.Some? ==>
        var s := Contents();
        var r := if att.id.value in s then Votes.Redundant(s[att.id.value].atts, att.bits) else Some(false);
        ok == r.Some? && redundant == (if r.Some? then r.value else true)
    {
      if att == null {
        return true, true;
      }
      if att.id.None? {
        return true, false;
      }
      var id := att.id.value;
      if id !in atts {
        return false, true;
      }
      var list := atts[id].atts;
      ghost var vals := ValuesOf(objects);
      assert Keyed(list, id, vals);
      ghost var values := ListOf(list, vals);
      var i := 0;
      while i < |list|
        invariant 0 <= i <= |list|
        invariant Votes.Redundant(values, att.bits) == Votes.Redundant(values[i..], att.bits)
      {
        assert values[i] == list[i].Value();
        var contained := Votes.Contains(list[i].bits, att.bits);
        if contained.None? {
          return true, false;
        } else if contained.value {
          return true, true;
        }
        i := i + 1;
      }
      return false, true;
    }
  }

  // ------------------------------------------------------------ compaction

  /** DeleteCovered's loop on the list of a group. */
  method Compact(list: seq<Attestation>, bits: seq<bool>, ghost id: Votes.Id, ghost vals: Values)
    returns (r: seq<Attestation>, idx: nat, ok: bool)
    requires Keyed(list, id, vals) && forall a :: a in vals ==> vals[a] == a.Value()
    ensures idx <= |r| && Keyed(r, id, vals) && (Distinct(list) ==> Distinct(r[..idx]))
    ensures Votes.CompactionOf(ListOf(list, vals), bits) == Votes.Compaction(ListOf(r, vals), idx, ok)
  {
    ghost var values := ListOf(list, vals);
    ghost var at, i;
    r, idx, ok, at, i := MoveUncovered(list, bits, values);
    Votes.KeptAll(values, bits, i);
    MovedKeyed(r, list, at, i, id, vals);
    MovedValues(r, list, at, i, vals);
  }

  /** Attestations to keep are moved to the front of the list that is being read. No place is
      overwritten before it is read. */
  method MoveUncovered(list: seq<Attestation>, bits: seq<bool>, ghost values: seq<Votes.Att>)
    returns (r: seq<Attestation>, idx: nat, ok: bool, ghost at: seq<nat>, ghost rounds: nat)
    requires |values| == |list| && forall j :: 0 <= j < |list| ==> values[j] == list[j].Value()
    ensures idx == |at| && Moved(r, list, at, rounds) && ok == (rounds == |list|)
    ensures at == Votes.UncoveredPlaces(values, bits, rounds)
    ensures Votes.Comparable(values, bits, rounds) && (!ok ==> |values[rounds].bits| != |bits|)
  {
    r, idx, at := list, 0, [];
    var i := 0;
    while i < |r|
      invariant idx == |at| && Moved(r, list, at, i)
      invariant Votes.Comparable(values, bits, i) && at == Votes.UncoveredPlaces(values, bits, i)
    {
      MovedPlace(r, list, at, i);
      var a := r[i];
      assert a.bits == values[i].bits;
      var covered := Votes.Contains(bits, a.bits);
      if covered.None? {
        return r, idx, false, at, i;
      }
      if !covered.value {
        MoveStep(r, list, at, i);
        r := r[idx := a];
        idx := idx + 1;
        at := at + [i];
      }
      i := i + 1;
    }
    return r, idx, true, at, i;
  }

  /** After i rounds, the first places of r hold the objects at the given places of list, in order,
      and the others are as they were. */
  ghost predicate Moved(r: seq<Attestation>, list: seq<Attestation>, at: seq<nat>, i: nat) {
    && |at| <= i <= |list| == |r|
    && (forall j {:trigger at[j]} :: 0 <= j < |at| ==> at[j] < i && r[j] == list[at[j]])
    && (forall j, k :: 0 <= j < k < |at| ==> at[j] < at[k])
    && (forall j {:trigger r[j]} :: |at| <= j < |list| ==> r[j] == list[j])
  }

  /** The place that is read next has not been overwritten. */
  lemma MovedPlace(r: seq<Attestation>, list: seq<Attestation>, at: seq<nat>, i: nat)
    requires Moved(r, list, at, i) && i < |r|
    ensures r[i] == list[i]
  {
  }

  lemma MoveStep(r: seq<Attestation>, list: seq<Attestation>, at: seq<nat>, i: nat)
    requires Moved(r, list, at, i) && i < |r|
    ensures Moved(r[|at| := list[i]], list, at + [i], i + 1)
  {
  }

  lemma MovedKeyed(r: seq<Attestation>, list: seq<Attestation>, at: seq<nat>, i: nat, id: Votes.Id, vals: Values)
    requires Moved(r, list, at, i) && Keyed(list, id, vals)
    ensures Keyed(r, id, vals) && (Distinct(list) ==> Distinct(r[..|at|]))
  {
    assert forall j :: 0 <= j < |r| ==> r[j] == if j < |at| then list[at[j]] else list[j];
    var front := r[..|at|];
    assert forall j :: 0 <= j < |at| ==> front[j] == list[at[j]];
  }

  lemma MovedValues(r: seq<Attestation>, list: seq<Attestation>, at: seq<nat>, i: nat, vals: Values)
    requires Moved(r, list, at, i) && forall j :: 0 <= j < |list| ==> list[j] in vals && r[j] in vals
    ensures var values := ListOf(list, vals);
      |at| <= |list| && ListOf(r, vals) == Votes.Places(values, at) + values[|at|..]
  {
    var values := ListOf(list, vals);
    forall j | 0 <= j < |r| ensures ListOf(r, vals)[j] == (Votes.Places(values, at) + values[|at|..])[j] {
      assert r[j] == if j < |at| then list[at[j]] else list[j];
    }
  }
}

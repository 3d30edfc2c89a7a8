/** The comparisons of beacon-chain/light-client/lightclient.go.

    `is_better_update` of the Altair light client sync protocol compares in
    eight stages; it is shown to be the lexicographic order of one key. */
module LightClientUpdates {
  import opened Options

  const SLOTS_PER_EPOCH := 32
  const EPOCHS_PER_SYNC_COMMITTEE_PERIOD := 256

  /** slots.SyncCommitteePeriod(slots.ToEpoch(slot)) */
  function PeriodOf(slot: nat): nat {
    slot / SLOTS_PER_EPOCH / EPOCHS_PER_SYNC_COMMITTEE_PERIOD
  }

  /** A sync committee period is 8192 slots. */
  lemma PeriodIsRange(slot: nat, p: nat)
    ensures PeriodOf(slot) == p <==> p * 8192 <= slot < (p + 1) * 8192
    ensures PeriodOf(slot) == slot / 8192
  {
  }

  /** The fields of an update that the comparisons read; `id` stands for the rest. */
  datatype Update = Update(
    id: nat,
    participants: nat,
    committeeSize: nat,
    attestedSlot: nat,
    signatureSlot: nat,
    finalizedSlot: nat,
    hasSyncCommitteeBranch: bool,
    hasFinalityBranch: bool)

  predicate Supermajority(participants: nat, committeeSize: nat) {
    participants * 3 >= committeeSize * 2
  }

  predicate RelevantSyncCommittee(u: Update) {
    u.hasSyncCommitteeBranch && PeriodOf(u.attestedSlot) == PeriodOf(u.signatureSlot)
  }

  predicate SyncCommitteeFinality(u: Update) {
    PeriodOf(u.finalizedSlot) == PeriodOf(u.attestedSlot)
  }

  /** IsBetterUpdate, branch by branch; both supermajorities use the new update's committee. */
  predicate IsBetterUpdate(newer: Update, older: Option<Update>) {
    if older.None? then true else
    var old' := older.value;
    var newSuper := Supermajority(newer.participants, newer.committeeSize);
    var oldSuper := Supermajority(old'.participants, newer.committeeSize);
    if newSuper != oldSuper then newSuper
    else if !newSuper && newer.participants != old'.participants then newer.participants > old'.participants
    else if RelevantSyncCommittee(newer) != RelevantSyncCommittee(old') then RelevantSyncCommittee(newer)
    else if newer.hasFinalityBranch != old'.hasFinalityBranch then newer.hasFinalityBranch
    else if newer.hasFinalityBranch && SyncCommitteeFinality(newer) != SyncCommitteeFinality(old') then
      SyncCommitteeFinality(newer)
    else if newer.participants != old'.participants then newer.participants > old'.participants
    else if newer.attestedSlot != old'.attestedSlot then newer.attestedSlot < old'.attestedSlot
    else newer.signatureSlot < old'.signatureSlot
  }

  predicate Better(a: Update, b: Update) {
    IsBetterUpdate(a, Some(b))
  }

  // ------------------------------------------------- lexicographic order

  predicate LexLess(a: seq<int>, b: seq<int>)
    requires |a| == |b|
  {
    |a| != 0 && (a[0] < b[0] || (a[0] == b[0] && LexLess(a[1..], b[1..])))
  }

  lemma {:induction false} LexTotal(a: seq<int>, b: seq<int>)
    requires |a| == |b|
    ensures a == b || LexLess(a, b) || LexLess(b, a)
    ensures !(LexLess(a, b) && LexLess(b, a))
    ensures a == b ==> !LexLess(a, b)
  {
    if |a| != 0 {
      LexTotal(a[1..], b[1..]);
      assert a == [a[0]] + a[1..] && b == [b[0]] + b[1..];
    }
  }

  lemma {:induction false} LexTransitive(a: seq<int>, b: seq<int>, c: seq<int>)
    requires |a| == |b| == |c| && LexLess(a, b) && LexLess(b, c)
    ensures LexLess(a, c)
  {
    if a[0] == b[0] == c[0] {
      LexTransitive(a[1..], b[1..], c[1..]);
    }
  }

  function Bit(b: bool): int {
    if b then 1 else 0
  }

  /** What IsBetterUpdate maximises, first component first, in terms of the update's fields alone. */
  function Quality(u: Update): (q: seq<int>)
    ensures |q| == 8
  {
    var super := u.participants * 3 >= u.committeeSize * 2;
    [Bit(super),
     if super then 0 else u.participants,
     Bit(u.hasSyncCommitteeBranch && u.attestedSlot / 8192 == u.signatureSlot / 8192),
     Bit(u.hasFinalityBranch),
     Bit(u.hasFinalityBranch && u.finalizedSlot / 8192 == u.attestedSlot / 8192),
     u.participants,
     0 - u.attestedSlot,
     0 - u.signatureSlot]
  }

  lemma LexEight(a: seq<int>, b: seq<int>)
    requires |a| == |b| == 8
    ensures LexLess(a, b) <==>
      if a[0] != b[0] then a[0] < b[0]
      else if a[1] != b[1] then a[1] < b[1]
      else if a[2] != b[2] then a[2] < b[2]
      else if a[3] != b[3] then a[3] < b[3]
      else if a[4] != b[4] then a[4] < b[4]
      else if a[5] != b[5] then a[5] < b[5]
      else if a[6] != b[6] then a[6] < b[6]
      else a[7] < b[7]
  {
    LexUnfold(a, b, 0); LexUnfold(a, b, 1); LexUnfold(a, b, 2); LexUnfold(a, b, 3);
    LexUnfold(a, b, 4); LexUnfold(a, b, 5); LexUnfold(a, b, 6); LexUnfold(a, b, 7);
    assert a[0..] == a && b[0..] == b && a[8..] == [] && b[8..] == [];
  }

  lemma LexUnfold(a: seq<int>, b: seq<int>, i: nat)
    requires |a| == |b| && i < |a|
    ensures LexLess(a[i..], b[i..]) <==> a[i] < b[i] || (a[i] == b[i] && LexLess(a[i + 1..], b[i + 1..]))
  {
    assert a[i..][1..] == a[i + 1..] && b[i..][1..] == b[i + 1..];
  }

  /** The least number of participants that is a supermajority. */
  function Threshold(committeeSize: nat): nat {
    (committeeSize * 2 + 2) / 3
  }

  lemma SupermajorityFromThreshold(participants: nat, committeeSize: nat)
    ensures Supermajority(participants, committeeSize) <==> participants >= Threshold(committeeSize)
  {
  }

  lemma PeriodsOnFields(u: Update)
    ensures RelevantSyncCommittee(u) <==> u.hasSyncCommitteeBranch && u.attestedSlot / 8192 == u.signatureSlot / 8192
    ensures SyncCommitteeFinality(u) <==> u.finalizedSlot / 8192 == u.attestedSlot / 8192
  {
    PeriodIsRange(u.attestedSlot, 0);
    PeriodIsRange(u.signatureSlot, 0);
    PeriodIsRange(u.finalizedSlot, 0);
  }

  /** For committees with the same threshold, in particular of the same size, the eight stages are
      exactly one lexicographic order. */
  lemma BetterIsLexicographic(a: Update, b: Update)
    requires Threshold(a.committeeSize) == Threshold(b.committeeSize)
    ensures Better(a, b) <==> LexLess(Quality(b), Quality(a))
  {
    SupermajorityFromThreshold(b.participants, a.committeeSize);
    SupermajorityFromThreshold(b.participants, b.committeeSize);
    PeriodsOnFields(a);
    PeriodsOnFields(b);
    LexEight(Quality(b), Quality(a));
  }

  /** Hence a strict weak order: irreflexive, asymmetric, transitive, with transitive ties. */
  lemma BetterIsStrictWeakOrder(a: Update, b: Update, c: Update)
    requires Threshold(a.committeeSize) == Threshold(b.committeeSize) == Threshold(c.committeeSize)
    ensures !Better(a, a)
    ensures !(Better(a, b) && Better(b, a))
    ensures Better(a, b) && Better(b, c) ==> Better(a, c)
    ensures !Better(a, b) && !Better(b, c) ==> !Better(a, c)
  {
    BetterIsLexicographic(a, a); BetterIsLexicographic(a, b); BetterIsLexicographic(b, a);
    BetterIsLexicographic(b, c); BetterIsLexicographic(a, c);
    var p, q, r := Quality(a), Quality(b), Quality(c);
    LexTotal(p, p); LexTotal(p, q); LexTotal(q, r); LexTotal(p, r);
    if LexLess(q, p) && LexLess(r, q) {
      LexTransitive(r, q, p);
    }
    if !LexLess(q, p) && !LexLess(r, q) && LexLess(r, p) {
      if LexLess(p, q) {
        LexTransitive(r, p, q);
      }
    }
  }

  /** Between two supermajorities, or equal participations, an update whose sync committee branch is
      signed in its own period beats one of which this is not so; if that does not decide, a finality
      branch does, and then a finalized block in the attested period. */
  lemma PeriodsDecide(a: Update, b: Update)
    requires a.committeeSize == b.committeeSize
    requires
      || a.participants == b.participants
      || (Supermajority(a.participants, a.committeeSize) && Supermajority(b.participants, b.committeeSize))
    ensures var relevantA := a.hasSyncCommitteeBranch && a.attestedSlot / 8192 == a.signatureSlot / 8192;
      var relevantB := b.hasSyncCommitteeBranch && b.attestedSlot / 8192 == b.signatureSlot / 8192;
      && (relevantA && !relevantB ==> Better(a, b) && !Better(b, a))
      && (relevantA == relevantB && a.hasFinalityBranch && !b.hasFinalityBranch ==> Better(a, b) && !Better(b, a))
      && (relevantA == relevantB && a.hasFinalityBranch && b.hasFinalityBranch
          && a.finalizedSlot / 8192 == a.attestedSlot / 8192 && b.finalizedSlot / 8192 != b.attestedSlot / 8192
          ==> Better(a, b) && !Better(b, a))
  {
    PeriodsOnFields(a);
    PeriodsOnFields(b);
  }

  /** Two updates tie exactly when nothing that IsBetterUpdate weighs tells them apart. */
  lemma TiesHaveEqualQuality(a: Update, b: Update)
    requires Threshold(a.committeeSize) == Threshold(b.committeeSize)
    ensures !Better(a, b) && !Better(b, a) <==> Quality(a) == Quality(b)
  {
    BetterIsLexicographic(a, b); BetterIsLexicographic(b, a);
    LexTotal(Quality(a), Quality(b));
  }

  /** An update of a committee of this size. */
  predicate OfCommittee(u: Update, size: nat) {
    u.committeeSize == size && u.participants <= size
  }

  /** Updates of two committees can each be better than the other if and only if the committees
      have different thresholds. */
  lemma MutuallyBetterExactly(m: nat, n: nat)
    ensures (exists a, b :: OfCommittee(a, m) && OfCommittee(b, n) && Better(a, b) && Better(b, a))
      <==> Threshold(m) != Threshold(n)
  {
    if Threshold(m) == Threshold(n) {
      forall a, b | OfCommittee(a, m) && OfCommittee(b, n) ensures !(Better(a, b) && Better(b, a)) {
        BetterIsStrictWeakOrder(a, b, a);
      }
    } else if Threshold(m) < Threshold(n) {
      MutuallyBetter(m, n, 0, 1);
    } else {
      MutuallyBetter(n, m, 1, 0);
    }
  }

  /** A bare supermajority of each; only the one with the smaller threshold has a finality branch. */
  lemma MutuallyBetter(m: nat, n: nat, idA: nat, idB: nat)
    requires Threshold(m) < Threshold(n)
    ensures var a, b := Update(idA, Threshold(m), m, 0, 0, 0, false, true), Update(idB, Threshold(n), n, 0, 0, 0, false, false);
      OfCommittee(a, m) && OfCommittee(b, n) && Better(a, b) && Better(b, a)
  {
    SupermajorityFromThreshold(Threshold(m), m);
    SupermajorityFromThreshold(Threshold(n), m);
    SupermajorityFromThreshold(Threshold(m), n);
    SupermajorityFromThreshold(Threshold(n), n);
  }

  // ----------------------------------------- finality and optimistic updates

  datatype FinalityUpdate = FinalityUpdate(
    id: nat,
    participants: nat,
    committeeSize: nat,
    finalizedSlot: nat,
    attestedSlot: nat,
    signatureSlot: nat)

  datatype OptimisticUpdate = OptimisticUpdate(id: nat, attestedSlot: nat)

  predicate IsBetterFinalityUpdate(newer: FinalityUpdate, older: Option<FinalityUpdate>) {
    if older.None? then true else
    var old' := older.value;
    if newer.finalizedSlot < old'.finalizedSlot then false
    else if newer.finalizedSlot == old'.finalizedSlot && newer.attestedSlot < old'.attestedSlot then false
    else if newer.finalizedSlot == old'.finalizedSlot && newer.attestedSlot == old'.attestedSlot
            && newer.signatureSlot <= old'.signatureSlot then false
    else true
  }

  predicate IsFinalityUpdateValidForBroadcast(newer: FinalityUpdate, older: Option<FinalityUpdate>) {
    if older.None? then true else
    var old' := older.value;
    var newSuper := Supermajority(newer.participants, newer.committeeSize);
    var lastSuper := Supermajority(old'.participants, old'.committeeSize);
    if newer.finalizedSlot < old'.finalizedSlot then false
    else if newer.finalizedSlot == old'.finalizedSlot && (lastSuper || !newSuper) then false
    else true
  }

  predicate IsBetterOptimisticUpdate(newer: OptimisticUpdate, older: Option<OptimisticUpdate>) {
    older.None? || newer.attestedSlot > older.value.attestedSlot
  }

  function FinalityQuality(u: FinalityUpdate): (q: seq<int>) {
    [u.finalizedSlot, u.attestedSlot, u.signatureSlot]
  }

  function BroadcastQuality(u: FinalityUpdate): (q: seq<int>) {
    [u.finalizedSlot, Bit(u.participants * 3 >= u.committeeSize * 2)]
  }

  /** Both finality tests are lexicographic orders too, the broadcast one on any committee sizes. */
  lemma FinalityTestsAreLexicographic(a: FinalityUpdate, b: FinalityUpdate)
    ensures IsBetterFinalityUpdate(a, Some(b)) <==> LexLess(FinalityQuality(b), FinalityQuality(a))
    ensures IsFinalityUpdateValidForBroadcast(a, Some(b)) <==> LexLess(BroadcastQuality(b), BroadcastQuality(a))
  {
    LexUnfold(FinalityQuality(b), FinalityQuality(a), 0);
    LexUnfold(FinalityQuality(b), FinalityQuality(a), 1);
    LexUnfold(FinalityQuality(b), FinalityQuality(a), 2);
    LexUnfold(BroadcastQuality(b), BroadcastQuality(a), 0);
    LexUnfold(BroadcastQuality(b), BroadcastQuality(a), 1);
    assert FinalityQuality(a)[0..] == FinalityQuality(a) && FinalityQuality(b)[0..] == FinalityQuality(b);
    assert BroadcastQuality(a)[0..] == BroadcastQuality(a) && BroadcastQuality(b)[0..] == BroadcastQuality(b);
  }

  lemma FinalityTestsAreStrictWeakOrders(a: FinalityUpdate, b: FinalityUpdate, c: FinalityUpdate)
    ensures !IsBetterFinalityUpdate(a, Some(a)) && !IsFinalityUpdateValidForBroadcast(a, Some(a))
    ensures !(IsBetterFinalityUpdate(a, Some(b)) && IsBetterFinalityUpdate(b, Some(a)))
    ensures !(IsFinalityUpdateValidForBroadcast(a, Some(b)) && IsFinalityUpdateValidForBroadcast(b, Some(a)))
    ensures IsBetterFinalityUpdate(a, Some(b)) && IsBetterFinalityUpdate(b, Some(c)) ==> IsBetterFinalityUpdate(a, Some(c))
    ensures !IsBetterFinalityUpdate(a, Some(b)) && !IsBetterFinalityUpdate(b, Some(c)) ==> !IsBetterFinalityUpdate(a, Some(c))
    ensures IsFinalityUpdateValidForBroadcast(a, Some(b)) && IsFinalityUpdateValidForBroadcast(b, Some(c))
            ==> IsFinalityUpdateValidForBroadcast(a, Some(c))
    ensures !IsFinalityUpdateValidForBroadcast(a, Some(b)) && !IsFinalityUpdateValidForBroadcast(b, Some(c))
            ==> !IsFinalityUpdateValidForBroadcast(a, Some(c))
  {
  }
}

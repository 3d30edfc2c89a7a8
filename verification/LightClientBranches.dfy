/** The values that the light client store works on: branches of cache entries,
    the best update per period, and the answer to a client. */
module LightClientBranches {
  import opened LightClientUpdates
  import opened Options

  /** What a cache item contributes to an answer. */
  datatype Entry = Entry(period: nat, slot: nat, best: Update)

  /** Walking back from the newest entry, the first one met of each period. */
  function FirstPerPeriod(branch: seq<Entry>): map<nat, Update> {
    if branch == [] then map[]
    else FirstPerPeriod(branch[1..])[branch[0].period := branch[0].best]
  }

  /** The entry kept for a period is the newest one of that period. */
  lemma {:induction false} FirstPerPeriodIsNewest(branch: seq<Entry>, i: nat)
    requires i < |branch| && forall j :: 0 <= j < i ==> branch[j].period != branch[i].period
    ensures branch[i].period in FirstPerPeriod(branch)
    ensures FirstPerPeriod(branch)[branch[i].period] == branch[i].best
  {
    if i != 0 {
      FirstPerPeriodIsNewest(branch[1..], i - 1);
    }
  }

  /** The first contiguous run of periods from `start` that have an update. */
  function Contiguous(updates: map<nat, Update>, start: nat, end: nat): seq<Update>
    decreases end + 1 - start
  {
    if start <= end && start in updates then [updates[start]] + Contiguous(updates, start + 1, end) else []
  }

  /** LightClientUpdates: the database, overlaid by the branch that ends at the head. */
  function Answer(db: map<nat, Update>, branch: seq<Entry>, start: nat, end: nat): seq<Update> {
    Contiguous(db + FirstPerPeriod(branch), start, end)
  }

  lemma {:induction false} FirstPerPeriodConcat(newer: seq<Entry>, older: seq<Entry>)
    ensures FirstPerPeriod(newer + older) == FirstPerPeriod(older) + FirstPerPeriod(newer)
  {
    if newer == [] {
      assert newer + older == older;
    } else {
      FirstPerPeriodConcat(newer[1..], older);
      assert (newer + older)[1..] == newer[1..] + older;
    }
  }

  /** Element i of an answer is the update of period start + i, and the answer ends at `end`
      or in front of the first period without an update. */
  lemma {:induction false} ContiguousIsFirstRun(updates: map<nat, Update>, start: nat, end: nat, i: nat)
    ensures var r := Contiguous(updates, start, end);
      && (i < |r| ==> start + i in updates && r[i] == updates[start + i])
      && (start <= end + 1 ==> start + |r| <= end + 1)
      && (start + |r| <= end ==> start + |r| !in updates)
    decreases end + 1 - start
  {
    if start <= end && start in updates {
      ContiguousIsFirstRun(updates, start + 1, end, if i == 0 then 0 else i - 1);
    }
  }

  /** Migration is invisible: moving the part `final` of a branch to the database, and cutting
      the branch anywhere behind its newer part, changes no answer. */
  lemma MigrationInvisible(db: map<nat, Update>, newer: seq<Entry>, final: seq<Entry>, kept: nat, start: nat, end: nat)
    requires kept <= |final|
    ensures Answer(db, newer + final, start, end)
         == Answer(db + FirstPerPeriod(final), newer + final[..kept], start, end)
  {
    FirstPerPeriodConcat(newer, final);
    FirstPerPeriodConcat(newer, final[..kept]);
    FirstPerPeriodConcat(final[..kept], final[kept..]);
    assert final == final[..kept] + final[kept..];
    OverlayTwice(db, FirstPerPeriod(final[kept..]), FirstPerPeriod(final[..kept]), FirstPerPeriod(newer));
  }

  lemma OverlayTwice<K, V>(db: map<K, V>, rest: map<K, V>, kept: map<K, V>, newer: map<K, V>)
    ensures db + ((rest + kept) + newer) == (db + (rest + kept)) + (kept + newer)
  {
  }

  /** No period shows the migration: outside the part of the branch that is left (now), the
      database with what was saved holds what the branch held (before), or else nothing new. */
  ghost predicate Unnoticed(db: map<nat, Update>, before: map<nat, Update>, saved: map<nat, Update>, now: map<nat, Update>) {
    forall p :: p !in now ==>
      if p in before then Get(db + saved, p) == Some(before[p])
      else p in saved ==> Get(db, p) == Some(saved[p])
  }

  /** Whatever branch is saved and wherever this one is cut, no answer changes if and only if no
      period shows it. */
  lemma MigrationNoticed(db: map<nat, Update>, branch: seq<Entry>, saved: map<nat, Update>, kept: nat)
    requires kept <= |branch|
    ensures (forall start: nat, end: nat :: Answer(db, branch, start, end) == Answer(db + saved, branch[..kept], start, end))
      <==> Unnoticed(db, FirstPerPeriod(branch), saved, FirstPerPeriod(branch[..kept]))
  {
    var before, now := FirstPerPeriod(branch), FirstPerPeriod(branch[..kept]);
    var a, b := db + before, (db + saved) + now;
    assert forall p :: p in now ==> p in before && before[p] == now[p] by {
      assert branch == branch[..kept] + branch[kept..];
      FirstPerPeriodConcat(branch[..kept], branch[kept..]);
    }
    OverlaysAgree(db, before, saved, now);
    if forall start: nat, end: nat :: Answer(db, branch, start, end) == Answer(db + saved, branch[..kept], start, end) {
      forall start: nat, end: nat ensures Contiguous(a, start, end) == Contiguous(b, start, end) {
        assert Answer(db, branch, start, end) == Answer(db + saved, branch[..kept], start, end);
      }
      AnswersDetermine(a, b);
    }
  }

  lemma OverlaysAgree(db: map<nat, Update>, before: map<nat, Update>, saved: map<nat, Update>, now: map<nat, Update>)
    requires forall p :: p in now ==> p in before && before[p] == now[p]
    ensures db + before == (db + saved) + now <==> Unnoticed(db, before, saved, now)
  {
    var a, b := db + before, (db + saved) + now;
    if a == b {
      forall p | p !in now
        ensures if p in before then Get(db + saved, p) == Some(before[p]) else p in saved ==> Get(db, p) == Some(saved[p])
      {
        assert Get(a, p) == Get(b, p) == Get(db + saved, p);
      }
    }
    if Unnoticed(db, before, saved, now) {
      forall p ensures Get(a, p) == Get(b, p) {
        assert p !in now && p !in before ==> Get(db + saved, p) == Get(db, p);
      }
      SameMap(a, b);
    }
  }

  lemma SameMap(a: map<nat, Update>, b: map<nat, Update>)
    requires forall p: nat :: Get(a, p) == Get(b, p)
    ensures a == b
  {
    forall p: nat ensures (p in a <==> p in b) && (p in a ==> a[p] == b[p]) {
      assert Get(a, p) == Get(b, p);
    }
  }

  /** The answers for all ranges say everything about the updates behind them. */
  lemma AnswersDetermine(a: map<nat, Update>, b: map<nat, Update>)
    requires forall start: nat, end: nat :: Contiguous(a, start, end) == Contiguous(b, start, end)
    ensures a == b
  {
    forall p: nat ensures Get(a, p) == Get(b, p) {
      assert Contiguous(a, p, p) == Contiguous(b, p, p);
      assert Contiguous(a, p, p) == if p in a then [a[p]] else [];
      assert Contiguous(b, p, p) == if p in b then [b[p]] else [];
    }
    SameMap(a, b);
  }

  function Get(m: map<nat, Update>, p: nat): Option<Update> {
    if p in m then Some(m[p]) else None
  }

  /** The better of a new update and what there was. */
  function Pick(update: Update, older: Option<Update>): Update {
    if IsBetterUpdate(update, older) then update else older.value
  }

  /** An update replaces an older one only if it is strictly better. */
  lemma PickKeepsOlder(update: Update, older: Update)
    requires update.committeeSize == older.committeeSize
    ensures Pick(update, Some(older)) == update <==> update == older || LexLess(Quality(older), Quality(update))
    ensures Pick(update, Some(older)) in {update, older} && Pick(update, None) == update
  {
    BetterIsLexicographic(update, older);
  }

  /** The best update that SaveLCData gives a new item, from the parent's entry if it is in
      the cache and from the database if not. */
  function BestOnSave(parent: Option<Entry>, db: map<nat, Update>, update: Update): Update {
    var period := PeriodOf(update.attestedSlot);
    match parent
    case Some(e) => if e.period != period then update else Pick(update, Some(e.best))
    case None => Pick(update, Get(db, period))
  }

  /** Whether a save gives the same best update when the parent's entry has left the cache and
      only the database speaks for it. */
  predicate SameWithoutParent(parent: Entry, db: map<nat, Update>, update: Update) {
    var period := PeriodOf(update.attestedSlot);
    var stored := Get(db, period);
    if parent.period != period then
      // at a period boundary the parent is not looked at, the database is
      stored == None || stored == Some(update) || IsBetterUpdate(update, stored)
    else
      || stored == Some(parent.best)
      || (Better(update, parent.best) && (IsBetterUpdate(update, stored) || stored == Some(update)))
      || (update == parent.best && IsBetterUpdate(update, stored))
  }

  lemma SaveWithoutParent(parent: Entry, db: map<nat, Update>, cold: map<nat, Update>, update: Update)
    ensures BestOnSave(Some(parent), db, update) == BestOnSave(None, cold, update)
      <==> SameWithoutParent(parent, cold, update)
  {
  }

  /** On a branch whose entries never get worse, the newest entry of the period decides: with it in
      the database, a block in the parent's period gets the same best update if and only if it
      beats that entry, or that entry is the parent's, or it is the block's own. */
  lemma NewestDecides(parent: Entry, cold: map<nat, Update>, update: Update)
    requires parent.period == PeriodOf(update.attestedSlot) && parent.period in cold
    requires update.committeeSize == parent.best.committeeSize == cold[parent.period].committeeSize
    requires !Better(parent.best, cold[parent.period])
    ensures var newest := cold[parent.period];
      SameWithoutParent(parent, cold, update) <==>
        newest == parent.best || Better(update, newest) || (newest == update && Better(update, parent.best))
  {
    BetterIsStrictWeakOrder(update, parent.best, cold[parent.period]);
  }
}

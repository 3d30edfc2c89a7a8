/** The light client cache (beacon-chain/light-client/cache.go) and its database as values: items
    linked to their parents, the branches they form, and what saving and migrating do to them. */
module LightClientCache {
  import opened LightClientBranches
  import opened LightClientUpdates
  import opened Options

  type Root = nat

  const SYNC_COMMITTEE_SIZE := 512

  class CacheItem {
    var parent: CacheItem?
    const period: nat
    const slot: nat
    const bestUpdate: Update
    const bestFinalityUpdate: FinalityUpdate
    /** Longer than the depth of any item this one was linked to. */
    ghost const depth: nat
    /** The updates saved on this branch in this item's period, up to this item, and the
        database's update for the period when the branch was started. */
    ghost const seen: set<Update>

    constructor (parent: CacheItem?, slot: nat, best: Update, finality: FinalityUpdate, ghost depth: nat, ghost seen: set<Update>)
      ensures this.parent == parent && this.slot == slot && this.period == PeriodOf(slot)
      ensures this.bestUpdate == best && this.bestFinalityUpdate == finality
      ensures this.depth == depth && this.seen == seen
    {
      this.parent := parent;
      this.period := PeriodOf(slot);
      this.slot := slot;
      this.bestUpdate := best;
      this.bestFinalityUpdate := finality;
      this.depth := depth;
      this.seen := seen;
    }
  }

  // ------------------------------------------------------------ branches

  /** The parent links of a set of items. */
  type Links = map<CacheItem, CacheItem?>

  ghost predicate LinkOk(links: Links, n: CacheItem)
    requires n in links
  {
    && n.period == PeriodOf(n.slot)
    && (links[n] != null ==>
          && links[n] in links && links[n].depth < n.depth
          && (links[n].period == n.period ==> links[n].seen <= n.seen))
  }

  ghost predicate Linked(links: Links) {
    forall n :: n in links ==> LinkOk(links, n)
  }

  /** Slots grow from parent to child, as they do along any beacon chain. */
  ghost predicate Increasing(links: Links) {
    forall n :: n in links && links[n] != null ==> links[n].slot < n.slot
  }

  /** The items met when walking back from n. */
  ghost function Path(links: Links, n: CacheItem?): seq<CacheItem>
    requires Linked(links) && (n == null || n in links)
    decreases if n == null then 0 else n.depth + 1
  {
    if n == null then []
    else
      assert LinkOk(links, n);
      [n] + Path(links, links[n])
  }

  lemma {:induction false} PathInside(links: Links, n: CacheItem?)
    requires Linked(links) && (n == null || n in links)
    ensures forall i :: 0 <= i < |Path(links, n)| ==> Path(links, n)[i] in links
    decreases if n == null then 0 else n.depth + 1
  {
    if n != null {
      assert LinkOk(links, n);
      PathInside(links, links[n]);
    }
  }

  ghost function EntryOf(n: CacheItem): Entry {
    Entry(n.period, n.slot, n.bestUpdate)
  }

  ghost function Entries(path: seq<CacheItem>): seq<Entry> {
    seq(|path|, i requires 0 <= i < |path| => EntryOf(path[i]))
  }

  lemma EntriesConcat(a: seq<CacheItem>, b: seq<CacheItem>)
    ensures Entries(a + b) == Entries(a) + Entries(b)
  {
  }

  lemma {:induction false} PathSuffix(links: Links, n: CacheItem, j: nat)
    requires Linked(links) && n in links && j < |Path(links, n)|
    ensures Path(links, n)[j] in links
    ensures Path(links, n)[j..] == Path(links, Path(links, n)[j])
    decreases j
  {
    assert LinkOk(links, n);
    if j != 0 {
      PathSuffix(links, links[n], j - 1);
      assert Path(links, n)[j..] == Path(links, links[n])[j - 1..];
    }
  }

  lemma PathAfter(links: Links, n: CacheItem, j: nat)
    requires Linked(links) && n in links && j < |Path(links, n)|
    ensures var f := Path(links, n)[j];
      f in links && (links[f] == null || links[f] in links) && Path(links, n)[j + 1..] == Path(links, links[f])
  {
    PathSuffix(links, n, j);
    assert LinkOk(links, Path(links, n)[j]);
    assert Path(links, n)[j..][1..] == Path(links, n)[j + 1..];
  }

  lemma PathAt(links: Links, n: CacheItem, i: nat, j: nat)
    requires Linked(links) && n in links && i <= j < |Path(links, n)|
    ensures var f := Path(links, n)[i];
      f in links && j - i < |Path(links, f)| && Path(links, f)[j - i] == Path(links, n)[j]
  {
    PathSuffix(links, n, i);
    assert Path(links, n)[i..][j - i] == Path(links, n)[j];
  }

  lemma {:induction false} PathSlots(links: Links, n: CacheItem, j: nat)
    requires Linked(links) && Increasing(links) && n in links && j < |Path(links, n)|
    ensures Path(links, n)[j].slot <= n.slot
    ensures forall i :: 0 <= i <= j ==> Path(links, n)[j].slot <= Path(links, n)[i].slot
    decreases j
  {
    assert LinkOk(links, n);
    if j != 0 {
      PathSlots(links, links[n], j - 1);
      var path, rest := Path(links, n), Path(links, links[n]);
      assert forall i :: 0 < i < |path| ==> path[i] == rest[i - 1];
    }
  }

  /** One step of the walk back: only an entry of a period not met yet counts. */
  lemma WalkStep(links: Links, n: CacheItem, updates: map<nat, Update>)
    requires Linked(links) && n in links
    ensures links[n] != null ==> links[n] in links && links[n].depth < n.depth
    ensures FirstPerPeriod(Entries(Path(links, n))) + updates
         == FirstPerPeriod(Entries(Path(links, links[n])))
            + (if n.period in updates then updates else updates[n.period := n.bestUpdate])
  {
    assert LinkOk(links, n);
    assert Entries(Path(links, n))[1..] == Entries(Path(links, links[n]));
  }

  // ------------------------------------------------------------ best of branch

  ghost predicate Maximum(seen: set<Update>, best: Update) {
    && best in seen
    && forall u :: u in seen ==> u.committeeSize == SYNC_COMMITTEE_SIZE && !Better(u, best)
  }

  ghost predicate Maximal(links: Links) {
    forall n :: n in links ==> Maximum(n.seen, n.bestUpdate)
  }

  ghost predicate Sized(updates: map<nat, Update>) {
    forall p :: p in updates ==> updates[p].committeeSize == SYNC_COMMITTEE_SIZE
  }

  lemma {:induction false} BestSizes(path: seq<CacheItem>)
    requires forall i :: 0 <= i < |path| ==> path[i].bestUpdate.committeeSize == SYNC_COMMITTEE_SIZE
    ensures Sized(FirstPerPeriod(Entries(path)))
  {
    if path != [] {
      assert Entries(path)[1..] == Entries(path[1..]);
      BestSizes(path[1..]);
    }
  }

  /** Along a branch within one period, what was seen is not forgotten. */
  lemma {:induction false} SeenGrows(links: Links, n: CacheItem, j: nat)
    requires Linked(links) && Increasing(links) && n in links && j < |Path(links, n)|
    requires Path(links, n)[j].period == n.period
    ensures Path(links, n)[j].seen <= n.seen
    decreases j
  {
    assert LinkOk(links, n);
    if j != 0 {
      var parent := links[n];
      assert LinkOk(links, parent);
      PathSlots(links, parent, j - 1);
      PathInside(links, parent);
      assert LinkOk(links, Path(links, parent)[j - 1]);
      PeriodMonotone(Path(links, parent)[j - 1].slot, parent.slot);
      PeriodMonotone(parent.slot, n.slot);
      SeenGrows(links, parent, j - 1);
    }
  }

  lemma PeriodMonotone(a: nat, b: nat)
    requires a <= b
    ensures PeriodOf(a) <= PeriodOf(b)
  {
  }

  /** Best of branch: the answer's update for a period is no worse than any update saved on the
      branch in that period, nor than the database's when the branch was started. */
  lemma BestOfBranch(links: Links, n: CacheItem, j: nat)
    requires Linked(links) && Increasing(links) && Maximal(links) && n in links && j < |Path(links, n)|
    ensures var item := Path(links, n)[j]; var answer := FirstPerPeriod(Entries(Path(links, n)));
      item.period in answer && forall u :: u in item.seen ==> !Better(u, answer[item.period])
  {
    var path := Path(links, n);
    var i := FirstOfPeriod(path, j);
    PathAt(links, n, i, j);
    SeenGrows(links, path[i], j - i);
    FirstPerPeriodIsNewest(Entries(path), i);
    assert Maximum(path[i].seen, path[i].bestUpdate);
  }

  lemma FirstOfPeriod(path: seq<CacheItem>, j: nat) returns (i: nat)
    requires j < |path|
    ensures i <= j && path[i].period == path[j].period && forall h :: 0 <= h < i ==> path[h].period != path[j].period
  {
    i := 0;
    while path[i].period != path[j].period
      invariant i <= j && forall h :: 0 <= h < i ==> path[h].period != path[j].period
      decreases j - i
    {
      i := i + 1;
    }
  }

  // ------------------------------------------------------------ views

  /** The entries of the cache, the links of all items there ever were, and the database. */
  datatype View = View(items: map<Root, CacheItem>, links: Links, db: map<nat, Update>)

  ghost predicate Rooted(v: View) {
    forall r :: r in v.items ==> v.items[r] in v.links
  }

  ghost predicate Ok(v: View) {
    Rooted(v) && Linked(v.links) && Maximal(v.links) && Sized(v.db)
  }

  ghost function PathFrom(v: View, root: Root): seq<CacheItem>
    requires Rooted(v) && Linked(v.links)
  {
    if root in v.items then Path(v.links, v.items[root]) else []
  }

  /** The best update per period on the branch that ends at a block. */
  ghost function Branch(v: View, root: Root): map<nat, Update>
    requires Rooted(v) && Linked(v.links)
  {
    FirstPerPeriod(Entries(PathFrom(v, root)))
  }

  /** What a client that asks for the periods start..end on the chain of a head whose parent is
      `root` is told. */
  ghost function Told(v: View, root: Root, start: nat, end: nat): seq<Update>
    requires Rooted(v) && Linked(v.links)
  {
    Answer(v.db, Entries(PathFrom(v, root)), start, end)
  }

  ghost predicate SameTold(v: View, v': View, root: Root)
    requires Rooted(v) && Linked(v.links) && Rooted(v') && Linked(v'.links)
  {
    forall start: nat, end: nat :: Told(v, root, start, end) == Told(v', root, start, end)
  }

  lemma BranchSizes(v: View, root: Root)
    requires Ok(v)
    ensures Sized(Branch(v, root))
  {
    var path := PathFrom(v, root);
    PathInside(v.links, if root in v.items then v.items[root] else null);
    assert forall i :: 0 <= i < |path| ==> Maximum(path[i].seen, path[i].bestUpdate);
    BestSizes(path);
  }

  /** A branch has its head's update for the head's period. */
  lemma HeadOfBranch(v: View, root: Root)
    requires Ok(v) && root in v.items
    ensures Get(Branch(v, root), v.items[root].period) == Some(v.items[root].bestUpdate)
  {
    var path := PathFrom(v, root);
    assert path[0] == v.items[root];
    FirstPerPeriodIsNewest(Entries(path), 0);
  }

  // ------------------------------------------------------------ saving

  /** The entry of a block, if it is in the cache. */
  ghost function EntryAt(v: View, root: Root): Option<Entry> {
    if root in v.items then Some(EntryOf(v.items[root])) else None
  }

  ghost function ItemAt(v: View, root: Root): CacheItem? {
    if root in v.items then v.items[root] else null
  }

  /** The updates of the new item's period that its branch has seen. */
  ghost function SeenOnSave(parent: CacheItem?, db: map<nat, Update>, update: Update): set<Update> {
    var period := PeriodOf(update.attestedSlot);
    if parent != null then (if parent.period == period then parent.seen + {update} else {update})
    else if period in db then {db[period], update}
    else {update}
  }

  /** The finality update of a new item: its own at a period boundary, else the better one of
      its own and its parent's, or the last one published if the parent is not in the cache. */
  ghost function FinalityOnSave(parent: CacheItem?, last: Option<FinalityUpdate>, period: nat, finality: FinalityUpdate): FinalityUpdate {
    var older := if parent != null then Some(parent.bestFinalityUpdate) else last;
    if (parent != null && parent.period != period) || IsBetterFinalityUpdate(finality, older) then finality else older.value
  }

  /** A new item's finality update is its own at a period boundary or if there is none to compare
      with; otherwise it is the later of the two by finalized, attested and signature slot, and the
      older one if they are equally late. */
  lemma FinalityOnSaveIsLatest(parent: CacheItem?, last: Option<FinalityUpdate>, period: nat, finality: FinalityUpdate)
    ensures var older := if parent != null then Some(parent.bestFinalityUpdate) else last;
      FinalityOnSave(parent, last, period, finality) ==
        if (parent != null && parent.period != period) || older.None? || LexLess(FinalityQuality(older.value), FinalityQuality(finality))
        then finality else older.value
  {
    var older := if parent != null then Some(parent.bestFinalityUpdate) else last;
    if older.Some? {
      FinalityTestsAreLexicographic(finality, older.value);
    }
  }

  lemma MaximumOnSave(v: View, parentRoot: Root, update: Update)
    requires Ok(v) && update.committeeSize == SYNC_COMMITTEE_SIZE
    ensures Maximum(SeenOnSave(ItemAt(v, parentRoot), v.db, update), BestOnSave(EntryAt(v, parentRoot), v.db, update))
  {
    var period := PeriodOf(update.attestedSlot);
    BetterIsStrictWeakOrder(update, update, update);
    if parentRoot in v.items {
      var parent := v.items[parentRoot];
      assert Maximum(parent.seen, parent.bestUpdate);
      BestKept(parent.seen, parent.bestUpdate, update);
    } else if period in v.db {
      BetterIsStrictWeakOrder(v.db[period], v.db[period], v.db[period]);
      BestKept({v.db[period]}, v.db[period], update);
    }
  }

  /** The better of a maximum and a new update is a maximum of both. */
  lemma BestKept(seen: set<Update>, best: Update, update: Update)
    requires best.committeeSize == update.committeeSize
    requires forall u :: u in seen ==> u.committeeSize == best.committeeSize && !Better(u, best)
    ensures forall u :: u in seen + {update, best} ==> !Better(u, Pick(update, Some(best)))
  {
    forall u | u in seen + {update, best} ensures !Better(u, Pick(update, Some(best))) {
      BetterIsStrictWeakOrder(u, update, best);
      BetterIsStrictWeakOrder(best, update, best);
    }
  }

  /** A new item under the root of its block. */
  ghost function WithItem(v: View, blockRoot: Root, item: CacheItem, parent: CacheItem?): View {
    View(v.items[blockRoot := item], v.links[item := parent], v.db)
  }

  ghost predicate Fits(v: View, item: CacheItem, parent: CacheItem?) {
    && item !in v.links && item.period == PeriodOf(item.slot) && Maximum(item.seen, item.bestUpdate)
    && (parent != null ==>
          && parent in v.links && parent.depth < item.depth
          && (parent.period == item.period ==> parent.seen <= item.seen))
  }

  lemma WithItemOk(v: View, blockRoot: Root, item: CacheItem, parent: CacheItem?)
    requires Ok(v) && Fits(v, item, parent)
    ensures Ok(WithItem(v, blockRoot, item, parent))
    ensures Increasing(v.links) && (parent != null ==> parent.slot < item.slot) ==>
      Increasing(WithItem(v, blockRoot, item, parent).links)
  {
    var links := WithItem(v, blockRoot, item, parent).links;
    forall n | n in links ensures LinkOk(links, n) {
      if n != item {
        assert LinkOk(v.links, n);
      }
    }
  }

  // ------------------------------------------------------------ migrating

  /** The parent link that cleanCache leaves behind. */
  function Cut(parent: CacheItem?, finalizedSlot: nat): CacheItem? {
    if parent != null && parent.slot < finalizedSlot then null else parent
  }

  ghost function CutLinks(links: Links, entries: set<CacheItem>, finalizedSlot: nat): Links {
    map n | n in links :: if n in entries then Cut(links[n], finalizedSlot) else links[n]
  }

  ghost function Younger(items: map<Root, CacheItem>, finalizedSlot: nat): map<Root, CacheItem> {
    map r | r in items && items[r].slot >= finalizedSlot :: items[r]
  }

  /** The updates of all periods but some. */
  function Saved(updates: map<nat, Update>, skipped: set<nat>): map<nat, Update> {
    map p | p in updates && p !in skipped :: updates[p]
  }

  ghost function Cleaned(v: View, finalizedSlot: nat): View {
    View(Younger(v.items, finalizedSlot), CutLinks(v.links, v.items.Values, finalizedSlot), v.db)
  }

  /** The branch of the finalized block's parent is saved, but for the failed periods, and the
      older part of the cache is dropped. */
  ghost function Migrated(v: View, finalParent: Root, finalizedSlot: nat, failed: set<nat>): View
    requires Rooted(v) && Linked(v.links)
  {
    Cleaned(v.(db := v.db + Saved(Branch(v, finalParent), failed)), finalizedSlot)
  }

  lemma CleanedOk(v: View, finalizedSlot: nat)
    requires Ok(v)
    ensures Ok(Cleaned(v, finalizedSlot))
    ensures Increasing(v.links) ==> Increasing(Cleaned(v, finalizedSlot).links)
  {
    var cut := Cleaned(v, finalizedSlot).links;
    forall n | n in cut ensures LinkOk(cut, n) {
      assert LinkOk(v.links, n);
    }
  }

  lemma MigratedOk(v: View, finalParent: Root, finalizedSlot: nat, failed: set<nat>)
    requires Ok(v)
    ensures Ok(Migrated(v, finalParent, finalizedSlot, failed))
    ensures Increasing(v.links) ==> Increasing(Migrated(v, finalParent, finalizedSlot, failed).links)
  {
    BranchSizes(v, finalParent);
    CleanedOk(v.(db := v.db + Saved(Branch(v, finalParent), failed)), finalizedSlot);
  }

  /** Cutting links to old parents shortens a path, but not its part that is not old. */
  lemma {:induction false} CutPath(links: Links, entries: set<CacheItem>, finalizedSlot: nat, n: CacheItem, k: nat)
    requires Linked(links) && Linked(CutLinks(links, entries, finalizedSlot)) && n in links
    requires k <= |Path(links, n)| && forall i :: 0 <= i < k ==> Path(links, n)[i].slot >= finalizedSlot
    ensures var now := Path(CutLinks(links, entries, finalizedSlot), n);
      k <= |now| <= |Path(links, n)| && now == Path(links, n)[..|now|]
    decreases n.depth
  {
    var cut := CutLinks(links, entries, finalizedSlot);
    assert LinkOk(links, n) && LinkOk(cut, n);
    var path := Path(links, n);
    if links[n] != null {
      var rest := Path(links, links[n]);
      assert path == [n] + rest && rest[0] == links[n];
      if cut[n] != null {
        assert forall i :: 0 <= i < k - 1 ==> rest[i] == path[i + 1];
        CutPath(links, entries, finalizedSlot, links[n], if k == 0 then 0 else k - 1);
      } else {
        assert path[1] == rest[0];
      }
    }
  }

  /** After the cleaning, the branch of a root is the front of what it was: at least its part that
      is not old, if the root is one of the entries that are left. */
  lemma BranchCut(v: View, finalizedSlot: nat, root: Root, k: nat)
    requires Ok(v) && Ok(Cleaned(v, finalizedSlot))
    requires k <= |PathFrom(v, root)| && forall i :: 0 <= i < k ==> PathFrom(v, root)[i].slot >= finalizedSlot
    ensures var before, now := PathFrom(v, root), PathFrom(Cleaned(v, finalizedSlot), root);
      k <= |now| <= |before| && now == before[..|now|]
  {
    if root in v.items {
      var before := PathFrom(v, root);
      assert before[0] == v.items[root];
      if root in Cleaned(v, finalizedSlot).items {
        CutPath(v.links, v.items.Values, finalizedSlot, v.items[root], k);
      }
    }
  }

  /** Migration changes no answer for a head if and only if no period shows it: each period that
      the cut branch no longer has is in the database as the branch had it, or is new to neither. */
  lemma MigrationExact(v: View, finalParent: Root, finalizedSlot: nat, failed: set<nat>, root: Root)
    requires Ok(v) && Ok(Migrated(v, finalParent, finalizedSlot, failed))
    ensures var v' := Migrated(v, finalParent, finalizedSlot, failed);
      SameTold(v, v', root) <==>
        Unnoticed(v.db, Branch(v, root), Saved(Branch(v, finalParent), failed), Branch(v', root))
  {
    var v' := Migrated(v, finalParent, finalizedSlot, failed);
    var saved := Saved(Branch(v, finalParent), failed);
    var w := v.(db := v.db + saved);
    assert PathFrom(w, root) == PathFrom(v, root);
    BranchCut(w, finalizedSlot, root, 0);
    var before, now := PathFrom(v, root), PathFrom(v', root);
    assert Entries(now) == Entries(before)[..|now|];
    MigrationNoticed(v.db, Entries(before), saved, |now|);
    ToldAll(v, v', root, saved, |now|);
  }

  lemma ToldAll(v: View, v': View, root: Root, saved: map<nat, Update>, kept: nat)
    requires Ok(v) && Ok(v') && v'.db == v.db + saved
    requires kept <= |PathFrom(v, root)| && Entries(PathFrom(v', root)) == Entries(PathFrom(v, root))[..kept]
    ensures var branch := Entries(PathFrom(v, root));
      SameTold(v, v', root) <==>
        forall start: nat, end: nat :: Answer(v.db, branch, start, end) == Answer(v.db + saved, branch[..kept], start, end)
  {
    var branch := Entries(PathFrom(v, root));
    if SameTold(v, v', root) {
      forall start: nat, end: nat ensures Answer(v.db, branch, start, end) == Answer(v.db + saved, branch[..kept], start, end) {
        assert Told(v, root, start, end) == Told(v', root, start, end);
      }
    }
  }

  // ---------------------------------------------- heads on the finalized chain

  /** The path consists of items no older than the finalized slot, followed by another path. */
  ghost predicate SplitsAt(path: seq<CacheItem>, final: seq<CacheItem>, finalizedSlot: nat, k: int) {
    0 <= k <= |path| && path[k..] == final && forall i :: 0 <= i < k ==> path[i].slot >= finalizedSlot
  }

  /** The head's parent is the finalized block's parent, or the finalized block or one of its
      descendants, along links to current entries. */
  ghost predicate OnFinalizedChain(v: View, root: Root, finalRoot: Root, finalParent: Root, finalizedSlot: nat)
    requires Ok(v)
  {
    || root == finalParent
    || (&& finalRoot in v.items && v.items[finalRoot].slot == finalizedSlot
        && v.links[v.items[finalRoot]] == ItemAt(v, finalParent)
        && v.items[finalRoot] in PathFrom(v, root))
  }

  lemma DescendantSplits(v: View, root: Root, finalRoot: Root, finalParent: Root, finalizedSlot: nat) returns (k: nat)
    requires Ok(v) && Increasing(v.links) && OnFinalizedChain(v, root, finalRoot, finalParent, finalizedSlot)
    ensures SplitsAt(PathFrom(v, root), PathFrom(v, finalParent), finalizedSlot, k)
  {
    var path, final := PathFrom(v, root), PathFrom(v, finalParent);
    if root == finalParent {
      k := 0;
    } else {
      var f := v.items[finalRoot];
      var j :| 0 <= j < |path| && path[j] == f;
      PathAfter(v.links, v.items[root], j);
      PathSlots(v.links, v.items[root], j);
      k := j + 1;
    }
  }

  /** No client whose head is on the finalized chain can tell. */
  lemma FinalizedChainUnaffected(v: View, finalRoot: Root, finalParent: Root, finalizedSlot: nat, root: Root)
    requires Ok(v) && Ok(Migrated(v, finalParent, finalizedSlot, {})) && Increasing(v.links)
    requires OnFinalizedChain(v, root, finalRoot, finalParent, finalizedSlot)
    ensures SameTold(v, Migrated(v, finalParent, finalizedSlot, {}), root)
  {
    var k := DescendantSplits(v, root, finalRoot, finalParent, finalizedSlot);
    var v' := Migrated(v, finalParent, finalizedSlot, {});
    var w := v.(db := v'.db);
    assert PathFrom(w, root) == PathFrom(v, root);
    BranchCut(w, finalizedSlot, root, k);
    assert Saved(Branch(v, finalParent), {}) == Branch(v, finalParent);
    forall start: nat, end: nat ensures Told(v, root, start, end) == Told(v', root, start, end) {
      CutAnswers(v.db, PathFrom(v, root), PathFrom(v, finalParent), PathFrom(v', root), k, start, end);
    }
  }

  lemma CutAnswers(db: map<nat, Update>, before: seq<CacheItem>, final: seq<CacheItem>, now: seq<CacheItem>, k: nat, start: nat, end: nat)
    requires k <= |now| <= |before| && now == before[..|now|] && before[k..] == final
    ensures Answer(db, Entries(before), start, end) == Answer(db + FirstPerPeriod(Entries(final)), Entries(now), start, end)
  {
    var newer, kept := before[..k], |now| - k;
    assert before == newer + final && now == newer + final[..kept];
    EntriesConcat(newer, final);
    EntriesConcat(newer, final[..kept]);
    assert Entries(final[..kept]) == Entries(final)[..kept];
    MigrationInvisible(db, Entries(newer), Entries(final), kept, start, end);
  }

  // ---------------------------------------------- saving after a migration

  /** On the finalized branch entries never get worse, so for a parent anywhere on it the newest
      entry of its period decides whether a later save ends up with the same best update. */
  lemma NewestOnBranchDecides(v: View, finalParent: Root, j: nat, update: Update)
    requires Ok(v) && Increasing(v.links) && j < |PathFrom(v, finalParent)|
    requires update.committeeSize == SYNC_COMMITTEE_SIZE
    requires PathFrom(v, finalParent)[j].period == PeriodOf(update.attestedSlot)
    ensures var parent, branch := EntryOf(PathFrom(v, finalParent)[j]), Branch(v, finalParent);
      parent.period in branch &&
      var newest := branch[parent.period];
      (BestOnSave(Some(parent), v.db, update) == BestOnSave(None, v.db + branch, update) <==>
        newest == parent.best || Better(update, newest) || (newest == update && Better(update, parent.best)))
  {
    var item := PathFrom(v, finalParent)[j];
    BestOfBranch(v.links, v.items[finalParent], j);
    PathInside(v.links, v.items[finalParent]);
    assert Maximum(item.seen, item.bestUpdate);
    BranchSizes(v, finalParent);
    SaveWithoutParent(EntryOf(item), v.db, v.db + Branch(v, finalParent), update);
    NewestDecides(EntryOf(item), v.db + Branch(v, finalParent), update);
  }
}

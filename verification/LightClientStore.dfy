/** beacon-chain/light-client/store.go: the light client store, over cache items that are linked in
    the heap and a per-period database. */
module LightClientStore {
  import opened LightClientBranches
  import opened LightClientCache
  import opened LightClientUpdates
  import opened Options

  /** Block, as the database returns it for the finalized root. */
  datatype BlockLookup = LookupFailed | NoBlock | Block(slot: nat, parentRoot: Root)

  /** What a new item is compared with. */
  datatype Parent = Parent(item: CacheItem?, period: nat, best: Option<Update>, finality: Option<FinalityUpdate>)

  ghost function LinksOf(nodes: set<CacheItem>): Links
    reads nodes`parent
  {
    map n | n in nodes :: n.parent
  }

  /** The update attests to a later slot than the last one. */
  predicate Later(update: OptimisticUpdate, last: Option<OptimisticUpdate>) {
    last.Some? ==> last.value.attestedSlot < update.attestedSlot
  }

  class Store {
    var items: map<Root, CacheItem>
    var db: map<nat, Update>
    var lastFinalityUpdate: Option<FinalityUpdate>
    var lastOptimisticUpdate: Option<OptimisticUpdate>
    /** Every item this store has created, replaced ones included. */
    ghost var nodes: set<CacheItem>

    ghost function Value(): View
      reads this`items, this`db, this`nodes, nodes`parent
    {
      View(items, LinksOf(nodes), db)
    }

    ghost predicate Valid()
      reads this`items, this`db, this`nodes, nodes`parent
    {
      Ok(Value())
    }

    constructor (db: map<nat, Update>)
      requires Sized(db)
      ensures Valid() && Value() == View(map[], map[], db) && nodes == {}
      ensures lastFinalityUpdate == None && lastOptimisticUpdate == None
    {
      items := map[];
      this.db := db;
      lastFinalityUpdate := None;
      lastOptimisticUpdate := None;
      nodes := {};
    }

    // ---------------------------------------------------------- SaveLCData

    /** SaveLCData, for the updates built from a block, its attested block and state. */
    method SaveLCData(update: Update, finalityUpdate: FinalityUpdate, optimisticUpdate: OptimisticUpdate,
                      blockRoot: Root, parentRoot: Root, newBlockIsHead: bool, dbReadFails: bool)
      returns (ok: bool)
      requires Valid() && update.committeeSize == SYNC_COMMITTEE_SIZE
      modifies this
      ensures Valid()
      ensures ok <==> parentRoot in old(items) || !dbReadFails
      ensures !ok ==> unchanged(this)
      ensures ok ==>
        && blockRoot in items && fresh(items[blockRoot]) && nodes == old(nodes) + {items[blockRoot]}
        && Value() == WithItem(old(Value()), blockRoot, items[blockRoot], ItemAt(old(Value()), parentRoot))
      ensures ok ==> var item, parent := items[blockRoot], ItemAt(old(Value()), parentRoot);
        && item.slot == update.attestedSlot && item.period == PeriodOf(item.slot)
        && item.bestUpdate == BestOnSave(EntryAt(old(Value()), parentRoot), db, update)
        && item.bestFinalityUpdate == FinalityOnSave(parent, old(lastFinalityUpdate), item.period, finalityUpdate)
        && item.seen == SeenOnSave(parent, db, update)
      ensures ok ==>
        var parent := ItemAt(old(Value()), parentRoot);
        var boundary := parent != null && parent.period != PeriodOf(update.attestedSlot);
        && lastOptimisticUpdate ==
             (if boundary || Later(optimisticUpdate, old(lastOptimisticUpdate))
              then Some(optimisticUpdate) else old(lastOptimisticUpdate))
        && lastFinalityUpdate ==
             (if newBlockIsHead then Some(items[blockRoot].bestFinalityUpdate) else old(lastFinalityUpdate))
      ensures old(Increasing(LinksOf(nodes))) && (parentRoot in old(items) ==> old(items)[parentRoot].slot < update.attestedSlot) ==>
        Increasing(LinksOf(nodes))
    {
      var period := PeriodOf(update.attestedSlot);
      var found := FindParent(parentRoot, period, dbReadFails);
      if found.None? {
        return false;
      }
      ghost var v := Value();
      var parent := found.value;
      var best, finality := ChooseUpdates(parent, update, finalityUpdate);
      PublishUpdates(parent.period != period, optimisticUpdate, finality, newBlockIsHead);
      MaximumOnSave(v, parentRoot, update);
      var item := AddItem(blockRoot, parent.item, update.attestedSlot, best, finality, SeenOnSave(parent.item, db, update), v);
      ok := true;
    }

    /** The parent to compare with: its cache item, or else an item made up from the database's
        update for the period and the last finality update. */
    method FindParent(parentRoot: Root, period: nat, dbReadFails: bool) returns (r: Option<Parent>)
      ensures r == if parentRoot in items then
                     var item := items[parentRoot];
                     Some(Parent(item, item.period, Some(item.bestUpdate), Some(item.bestFinalityUpdate)))
                   else if dbReadFails then None
                   else Some(Parent(null, period, Get(db, period), lastFinalityUpdate))
    {
      if parentRoot in items {
        var item := items[parentRoot];
        return Some(Parent(item, item.period, Some(item.bestUpdate), Some(item.bestFinalityUpdate)));
      }
      if dbReadFails {
        return None;
      }
      return Some(Parent(null, period, if period in db then Some(db[period]) else None, lastFinalityUpdate));
    }

    /** At a period boundary there is nothing to compare. */
    static method ChooseUpdates(parent: Parent, update: Update, finalityUpdate: FinalityUpdate)
      returns (best: Update, finality: FinalityUpdate)
      ensures var boundary := parent.period != PeriodOf(update.attestedSlot);
        && best == (if boundary then update else Pick(update, parent.best))
        && finality == (if boundary || IsBetterFinalityUpdate(finalityUpdate, parent.finality) then finalityUpdate
                        else parent.finality.value)
    {
      best, finality := update, finalityUpdate;
      if parent.period == PeriodOf(update.attestedSlot) {
        if !IsBetterUpdate(update, parent.best) {
          best := parent.best.value;
        }
        if !IsBetterFinalityUpdate(finalityUpdate, parent.finality) {
          finality := parent.finality.value;
        }
      }
    }

    method PublishUpdates(boundary: bool, optimisticUpdate: OptimisticUpdate, finality: FinalityUpdate, newBlockIsHead: bool)
      modifies this`lastOptimisticUpdate, this`lastFinalityUpdate
      ensures lastOptimisticUpdate ==
        if boundary || Later(optimisticUpdate, old(lastOptimisticUpdate))
        then Some(optimisticUpdate) else old(lastOptimisticUpdate)
      ensures lastFinalityUpdate == if newBlockIsHead then Some(finality) else old(lastFinalityUpdate)
    {
      if boundary || IsBetterOptimisticUpdate(optimisticUpdate, lastOptimisticUpdate) {
        lastOptimisticUpdate := Some(optimisticUpdate);
      }
      if newBlockIsHead {
        lastFinalityUpdate := Some(finality);
      }
    }

    /** Links a new item and stores it under the root of its block. */
    method AddItem(blockRoot: Root, parent: CacheItem?, slot: nat, best: Update, finality: FinalityUpdate,
                   ghost seen: set<Update>, ghost v: View)
      returns (item: CacheItem)
      requires v == Value() && Ok(v) && (parent != null ==> parent in nodes)
      requires parent != null && parent.period == PeriodOf(slot) ==> parent.seen <= seen
      requires Maximum(seen, best)
      modifies this`items, this`nodes
      ensures fresh(item) && items == v.items[blockRoot := item] && nodes == old(nodes) + {item}
      ensures Value() == WithItem(v, blockRoot, item, parent) && Ok(Value())
      ensures item.slot == slot && item.period == PeriodOf(slot) && item.seen == seen
      ensures item.bestUpdate == best && item.bestFinalityUpdate == finality
      ensures Increasing(v.links) && (parent != null ==> parent.slot < slot) ==> Increasing(LinksOf(nodes))
    {
      item := new CacheItem(parent, slot, best, finality, if parent == null then 0 else parent.depth + 1, seen);
      assert item !in v.links;
      items := items[blockRoot := item];
      nodes := nodes + {item};
      assert LinksOf(nodes) == v.links[item := parent];
      WithItemOk(v, blockRoot, item, parent);
    }

    // ---------------------------------------------------------- LightClientUpdates

    /** getCacheUpdatesByPeriod, for a head block whose parent is `root`. */
    method CacheUpdatesByPeriod(root: Root) returns (updates: map<nat, Update>)
      requires Valid()
      ensures updates == Branch(Value(), root)
    {
      updates := map[];
      if root !in items {
        return;
      }
      ghost var links := LinksOf(nodes);
      ghost var branch := Branch(Value(), root);
      var item: CacheItem? := items[root];
      while item != null
        invariant item == null || item in nodes
        invariant branch == FirstPerPeriod(Entries(Path(links, item))) + updates
        decreases if item == null then 0 else item.depth + 1
      {
        WalkStep(links, item, updates);
        if item.period !in updates {
          updates := updates[item.period := item.bestUpdate];
        }
        item := item.parent;
      }
    }

    /** LightClientUpdates; the database refuses a range that ends before it starts. */
    method LightClientUpdates(start: nat, end: nat, root: Root) returns (r: Option<seq<Update>>)
      requires Valid()
      ensures r == if start > end then None else Some(Told(Value(), root, start, end))
    {
      if start > end {
        return None;
      }
      var updates := InRange(db, start, end);
      var fromCache := CacheUpdatesByPeriod(root);
      updates := updates + fromCache;
      RangeSuffices(db, fromCache, start, end);
      var list := Collect(updates, start, end);
      return Some(list);
    }

    // ---------------------------------------------------------- MigrateToCold

    /** One round of cleanCache's loop. */
    method CleanEntry(k: Root, v: CacheItem, finalizedSlot: nat)
      requires k in items && items[k] == v
      modifies this`items, v`parent
      ensures items == if v.slot < finalizedSlot then old(items) - {k} else old(items)
      ensures v.parent == Cut(old(v.parent), finalizedSlot)
    {
      if v.slot < finalizedSlot {
        items := items - {k};
      }
      if v.parent != null && v.parent.slot < finalizedSlot {
        v.parent := null;
      }
    }

    /** The loop of cleanCache, over the map in any order. */
    method CleanEntries(finalizedSlot: nat)
      requires forall r :: r in items ==> items[r] in nodes
      modifies this`items, nodes`parent
      ensures items == Younger(old(items), finalizedSlot)
      ensures forall n :: n in nodes ==>
        n.parent == if n in old(items).Values then Cut(old(n.parent), finalizedSlot) else old(n.parent)
    {
      var todo := items.Keys;
      ghost var done: set<CacheItem> := {};
      while todo != {}
        invariant todo <= old(items).Keys
        invariant items == LeftOver(old(items), finalizedSlot, todo)
        invariant done <= old(items).Values
        invariant forall r :: r in old(items) && r !in todo ==> old(items)[r] in done
        invariant forall n :: n in nodes ==>
          n.parent == if n in done then Cut(old(n.parent), finalizedSlot) else old(n.parent)
        decreases |todo|
      {
        var k :| k in todo;
        LeftOverStep(old(items), finalizedSlot, todo, k);
        todo := todo - {k};
        done := done + {items[k]};
        CleanEntry(k, items[k], finalizedSlot);
      }
      assert done == old(items).Values;
    }

    /** cleanCache: entries older than the slot leave the map, and the entries of the map (the
        leaving ones too) lose a parent older than the slot. */
    method CleanCache(finalizedSlot: nat)
      requires forall r :: r in items ==> items[r] in nodes
      modifies this`items, nodes`parent
      ensures Value() == Cleaned(old(Value()), finalizedSlot)
    {
      ghost var links, entries := LinksOf(nodes), items.Values;
      CleanEntries(finalizedSlot);
      assert LinksOf(nodes) == CutLinks(links, entries, finalizedSlot);
    }

    /** Saves one period after the other; a failed save is skipped. */
    method SaveUpdates(updates: map<nat, Update>, failed: set<nat>)
      modifies this`db
      ensures db == old(db) + Saved(updates, failed)
    {
      var todo := updates.Keys;
      assert Saved(updates, failed + todo) == map[];
      assert db == db + map[];
      while todo != {}
        invariant todo <= updates.Keys
        invariant db == old(db) + Saved(updates, failed + todo)
        decreases |todo|
      {
        var p :| p in todo;
        SaveStep(old(db), updates, failed, todo, p);
        todo := todo - {p};
        if p !in failed {
          db := db[p := updates[p]];
        }
      }
      assert failed + {} == failed;
    }

    /** MigrateToCold; `finalized` is what the database has under the finalized root, and `failed`
        are the periods whose save to the database fails. */
    method MigrateToCold(finalizedRoot: Root, finalized: BlockLookup, failed: set<nat>) returns (ok: bool)
      requires Valid()
      modifies this`items, this`db, nodes`parent
      ensures ok <==> old(items) == map[] || finalized.Block?
      ensures !ok || old(items) == map[] ==> unchanged(this) && unchanged(nodes)
      ensures ok && old(items) != map[] ==>
        Value() == Migrated(old(Value()), finalized.parentRoot, finalized.slot, failed)
      ensures Valid() && (old(Increasing(LinksOf(nodes))) ==> Increasing(LinksOf(nodes)))
      // Exactly the heads for which no period shows the migration are told the same as before.
      ensures ok && old(items) != map[] ==> forall root ::
        SameTold(old(Value()), Value(), root) <==>
          Unnoticed(old(db), Branch(old(Value()), root), Saved(Branch(old(Value()), finalized.parentRoot), failed), Branch(Value(), root))
      // And these are all heads on the finalized chain, among others.
      ensures finalized.Block? && old(items) != map[] && failed == {} && old(Increasing(LinksOf(nodes))) ==> forall root ::
        OnFinalizedChain(old(Value()), root, finalizedRoot, finalized.parentRoot, finalized.slot) ==>
          SameTold(old(Value()), Value(), root)
    {
      if items == map[] {
        return true;
      }
      if !finalized.Block? {
        return false;
      }
      ghost var v := Value();
      var updates := CacheUpdatesByPeriod(finalized.parentRoot);
      SaveUpdates(updates, failed);
      CleanCache(finalized.slot);
      ok := true;
      MigratedOk(v, finalized.parentRoot, finalized.slot, failed);
      forall root {
        MigrationExact(v, finalized.parentRoot, finalized.slot, failed, root);
      }
      if failed == {} && Increasing(v.links) {
        forall root | OnFinalizedChain(v, root, finalizedRoot, finalized.parentRoot, finalized.slot)
          ensures SameTold(v, Value(), root)
        {
          FinalizedChainUnaffected(v, finalizedRoot, finalized.parentRoot, finalized.slot, root);
        }
      }
    }
  }

  /** The entries that are left when those under todo are still to be looked at. */
  function LeftOver(items: map<Root, CacheItem>, finalizedSlot: nat, todo: set<Root>): map<Root, CacheItem> {
    map r | r in items && (r in todo || items[r].slot >= finalizedSlot) :: items[r]
  }

  lemma LeftOverStep(items: map<Root, CacheItem>, finalizedSlot: nat, todo: set<Root>, k: Root)
    requires k in todo && k in items
    ensures k in LeftOver(items, finalizedSlot, todo) && LeftOver(items, finalizedSlot, todo)[k] == items[k]
    ensures LeftOver(items, finalizedSlot, todo - {k}) ==
      if items[k].slot < finalizedSlot then LeftOver(items, finalizedSlot, todo) - {k} else LeftOver(items, finalizedSlot, todo)
  {
  }

  lemma SaveStep(db: map<nat, Update>, updates: map<nat, Update>, failed: set<nat>, todo: set<nat>, p: nat)
    requires p in todo && p in updates
    ensures db + Saved(updates, failed + (todo - {p})) ==
      if p in failed then db + Saved(updates, failed + todo) else (db + Saved(updates, failed + todo))[p := updates[p]]
  {
    var before, after := Saved(updates, failed + todo), Saved(updates, failed + (todo - {p}));
    assert after == if p in failed then before else before[p := updates[p]];
  }

  /** What the database returns for a range of periods. */
  function InRange(db: map<nat, Update>, start: nat, end: nat): map<nat, Update> {
    map p | p in db && start <= p <= end :: db[p]
  }

  lemma RangeSuffices(db: map<nat, Update>, fromCache: map<nat, Update>, start: nat, end: nat)
    ensures Contiguous(InRange(db, start, end) + fromCache, start, end) == Contiguous(db + fromCache, start, end)
  {
    SameAnswer(InRange(db, start, end) + fromCache, db + fromCache, start, end);
  }

  /** The loop that stops at the first period without an update. */
  method Collect(updates: map<nat, Update>, start: nat, end: nat) returns (list: seq<Update>)
    requires start <= end
    ensures list == Contiguous(updates, start, end)
  {
    list := [];
    var i := start;
    while i <= end && i in updates
      invariant start <= i <= end + 1
      invariant list + Contiguous(updates, i, end) == Contiguous(updates, start, end)
    {
      list := list + [updates[i]];
      i := i + 1;
    }
  }

  lemma {:induction false} SameAnswer(a: map<nat, Update>, b: map<nat, Update>, start: nat, end: nat)
    requires forall p :: start <= p <= end ==> (p in a <==> p in b) && (p in b ==> a[p] == b[p])
    ensures Contiguous(a, start, end) == Contiguous(b, start, end)
    decreases end + 1 - start
  {
    if start <= end && start in a {
      SameAnswer(a, b, start + 1, end);
    }
  }

  // ------------------------------------------------------------ across calls

  /** A block saved after the migration of its parent gets the best update it would have had before,
      if and only if SameWithoutParent holds of the parent's entry and the database. */
  method SaveAfterMigration(store: Store, finalizedRoot: Root, finalized: BlockLookup, failed: set<nat>,
                            update: Update, finalityUpdate: FinalityUpdate, optimisticUpdate: OptimisticUpdate,
                            blockRoot: Root, parentRoot: Root, newBlockIsHead: bool)
    requires store.Valid() && finalized.Block? && update.committeeSize == SYNC_COMMITTEE_SIZE
    requires parentRoot in store.items && store.items[parentRoot].slot < finalized.slot
    modifies store, store.nodes
    ensures store.Valid() && blockRoot in store.items
    ensures var v := old(store.Value());
      store.items[blockRoot].bestUpdate == BestOnSave(EntryAt(v, parentRoot), v.db, update) <==>
        SameWithoutParent(EntryOf(v.items[parentRoot]), v.db + Saved(Branch(v, finalized.parentRoot), failed), update)
    // For a parent on the finalized branch, in its own period, the newest entry of the period decides.
    ensures var v := old(store.Value()); var parent := v.items[parentRoot];
      && Increasing(v.links) && parent in PathFrom(v, finalized.parentRoot) && failed == {}
      && parent.period == PeriodOf(update.attestedSlot) ==>
        parent.period in Branch(v, finalized.parentRoot) &&
        var newest := Branch(v, finalized.parentRoot)[parent.period];
        (store.items[blockRoot].bestUpdate == BestOnSave(EntryAt(v, parentRoot), v.db, update) <==>
          newest == parent.bestUpdate || Better(update, newest) || (newest == update && Better(update, parent.bestUpdate)))
  {
    ghost var v := store.Value();
    var ok := store.MigrateToCold(finalizedRoot, finalized, failed);
    ghost var cold := store.db;
    assert parentRoot !in store.items;
    ok := store.SaveLCData(update, finalityUpdate, optimisticUpdate, blockRoot, parentRoot, newBlockIsHead, false);
    SavedAfterMigration(v, finalized.parentRoot, failed, parentRoot, update);
  }

  lemma SavedAfterMigration(v: View, finalParent: Root, failed: set<nat>, parentRoot: Root, update: Update)
    requires Ok(v) && parentRoot in v.items && update.committeeSize == SYNC_COMMITTEE_SIZE
    ensures var parent, cold := v.items[parentRoot], v.db + Saved(Branch(v, finalParent), failed);
      BestOnSave(None, cold, update) == BestOnSave(EntryAt(v, parentRoot), v.db, update) <==>
        SameWithoutParent(EntryOf(parent), cold, update)
    ensures var parent, cold := v.items[parentRoot], v.db + Saved(Branch(v, finalParent), failed);
      && Increasing(v.links) && parent in PathFrom(v, finalParent) && failed == {}
      && parent.period == PeriodOf(update.attestedSlot) ==>
        parent.period in Branch(v, finalParent) &&
        var newest := Branch(v, finalParent)[parent.period];
        (BestOnSave(None, cold, update) == BestOnSave(EntryAt(v, parentRoot), v.db, update) <==>
          newest == parent.bestUpdate || Better(update, newest) || (newest == update && Better(update, parent.bestUpdate)))
  {
    var parent, path := v.items[parentRoot], PathFrom(v, finalParent);
    SaveWithoutParent(EntryOf(parent), v.db, v.db + Saved(Branch(v, finalParent), failed), update);
    if Increasing(v.links) && parent in path && failed == {} && parent.period == PeriodOf(update.attestedSlot) {
      var j :| 0 <= j < |path| && path[j] == parent;
      NewestOnBranchDecides(v, finalParent, j, update);
      assert Saved(Branch(v, finalParent), {}) == Branch(v, finalParent);
    }
  }

  const FIRST := Update(0, 400, SYNC_COMMITTEE_SIZE, 0, 1, 0, true, true)
  const SECOND := Update(1, 300, SYNC_COMMITTEE_SIZE, 0, 2, 0, true, true)
  const CHILD := Update(2, 400, SYNC_COMMITTEE_SIZE, 8192, 8193, 0, true, true)

  /** A head on the finalized chain that is told a worse update after a migration than before it.
      Block 1 is saved, then its child 2 in the next period, then block 1 again, as attested by a
      block of a fork; then block 2 is finalized. The child still hangs off the first item of block
      1, but the second one is migrated. */
  method ReplacedEntryNoticed() returns (told: Option<seq<Update>>, retold: Option<seq<Update>>)
    ensures told == Some([FIRST]) && retold == Some([SECOND]) && Better(FIRST, SECOND)
  {
    FirstIsBetter();
    var store, replaced, child, current := Fork();
    assert fresh(store.nodes);
    told, retold := AskTwice(store, store.Value());
  }

  method AskTwice(store: Store, ghost v: View) returns (told: Option<seq<Update>>, retold: Option<seq<Update>>)
    requires Ok(v) && store.Value() == v && v.items != map[] && ToldDifferently(v)
    modifies store`items, store`db, store.nodes`parent
    ensures told == Some([FIRST]) && retold == Some([SECOND])
  {
    told := store.LightClientUpdates(0, 0, 2);
    MigrateBlock(store, 2, 8192, 1, v);
    retold := store.LightClientUpdates(0, 0, 2);
  }

  lemma FirstIsBetter()
    ensures Better(FIRST, SECOND)
  {
  }

  method Fork() returns (store: Store, ghost replaced: CacheItem, ghost child: CacheItem, ghost current: CacheItem)
    ensures fresh(store) && fresh(replaced) && fresh(child) && fresh(current)
    ensures store.nodes == {replaced, child, current} && store.items != map[]
    ensures store.Valid() && ToldDifferently(store.Value())
  {
    store := new Store(map[]);
    replaced := SaveBlock(store, FIRST, 1, 0);
    ghost var v := store.Value();
    child := SaveBlock(store, CHILD, 2, 1);
    ghost var v' := store.Value();
    current := SaveBlock(store, SECOND, 1, 0);
    ForkViews(v, v', store.Value(), replaced, child, current);
    ForkTold(store.Value(), replaced, child, current);
  }

  ghost predicate ToldDifferently(v: View)
    requires Ok(v)
  {
    Told(v, 2, 0, 0) == [FIRST] && Ok(Migrated(v, 1, 8192, {})) && Told(Migrated(v, 1, 8192, {}), 2, 0, 0) == [SECOND]
  }

  lemma ForkTold(v: View, replaced: CacheItem, child: CacheItem, current: CacheItem)
    requires Ok(v) && IsReplaced(v, replaced, child, current)
    ensures v.items != map[] && ToldDifferently(v)
  {
    ToldBefore(v, replaced, child, current);
    MigratedOk(v, 1, 8192, {});
    ToldAfter(v, replaced, child, current);
  }

  lemma ForkViews(v: View, v': View, v'': View, replaced: CacheItem, child: CacheItem, current: CacheItem)
    requires v == WithItem(View(map[], map[], map[]), 1, replaced, null)
    requires v' == WithItem(v, 2, child, replaced) && v'' == WithItem(v', 1, current, null)
    requires replaced != child && child != current && current != replaced
    requires replaced.slot == FIRST.attestedSlot && child.slot == CHILD.attestedSlot && current.slot == SECOND.attestedSlot
    requires replaced.period == PeriodOf(replaced.slot)
    requires replaced.bestUpdate == BestOnSave(None, map[], FIRST)
    requires child.bestUpdate == BestOnSave(Some(EntryOf(replaced)), map[], CHILD)
    requires current.bestUpdate == BestOnSave(None, map[], SECOND)
    ensures IsReplaced(v'', replaced, child, current)
  {
  }

  /** SaveLCData with a contract that leaves out what is published. */
  method SaveBlock(store: Store, update: Update, blockRoot: Root, parentRoot: Root) returns (ghost item: CacheItem)
    requires store.Valid() && update.committeeSize == SYNC_COMMITTEE_SIZE
    modifies store
    ensures store.Valid() && fresh(item) && store.nodes == old(store.nodes) + {item}
    ensures store.Value() == WithItem(old(store.Value()), blockRoot, item, ItemAt(old(store.Value()), parentRoot))
    ensures item.slot == update.attestedSlot && item.period == PeriodOf(item.slot)
    ensures item.bestUpdate == BestOnSave(EntryAt(old(store.Value()), parentRoot), store.db, update)
  {
    var finality, optimistic := FinalityUpdate(0, 400, SYNC_COMMITTEE_SIZE, 0, 0, 1), OptimisticUpdate(0, 0);
    var ok := store.SaveLCData(update, finality, optimistic, blockRoot, parentRoot, true, false);
    item := store.items[blockRoot];
  }

  /** MigrateToCold with a contract that leaves out the answers. */
  method MigrateBlock(store: Store, finalizedRoot: Root, slot: nat, parentRoot: Root, ghost v: View)
    requires Ok(v) && store.Value() == v && v.items != map[]
    modifies store`items, store`db, store.nodes`parent
    ensures store.Valid() && store.Value() == Migrated(v, parentRoot, slot, {})
  {
    var ok := store.MigrateToCold(finalizedRoot, Block(slot, parentRoot), {});
  }

  /** Block 1 has been replaced, and its child hangs off the first item. */
  ghost predicate IsReplaced(v: View, replaced: CacheItem, child: CacheItem, current: CacheItem) {
    && 1 in v.items && v.items[1] == current && 2 in v.items && v.items[2] == child && v.db == map[]
    && replaced in v.links && v.links[replaced] == null
    && child in v.links && v.links[child] == replaced
    && current in v.links && v.links[current] == null
    && replaced.slot == current.slot == 0 && child.slot == 8192
    && replaced.bestUpdate == FIRST && child.bestUpdate == CHILD && current.bestUpdate == SECOND
  }

  lemma ToldBefore(v: View, replaced: CacheItem, child: CacheItem, current: CacheItem)
    requires Ok(v) && IsReplaced(v, replaced, child, current)
    ensures Told(v, 2, 0, 0) == [FIRST]
  {
    assert LinkOk(v.links, replaced) && LinkOk(v.links, child);
    OnePath(v.links, replaced);
    assert PathFrom(v, 2) == [child, replaced];
    FirstPerPeriodIsNewest(Entries([child, replaced]), 1);
  }

  lemma OnePath(links: Links, n: CacheItem)
    requires Linked(links) && n in links && links[n] == null
    ensures Path(links, n) == [n] && FirstPerPeriod(Entries(Path(links, n))) == map[PeriodOf(n.slot) := n.bestUpdate]
  {
    assert LinkOk(links, n);
    assert Entries([n])[1..] == [];
  }

  lemma ToldAfter(v: View, replaced: CacheItem, child: CacheItem, current: CacheItem)
    requires Ok(v) && Ok(Migrated(v, 1, 8192, {})) && IsReplaced(v, replaced, child, current)
    ensures Told(Migrated(v, 1, 8192, {}), 2, 0, 0) == [SECOND]
  {
    OnePath(v.links, current);
    var v' := Migrated(v, 1, 8192, {});
    assert Get(v'.db, 0) == Some(SECOND);
    assert v'.links[child] == null;
    OnePath(v'.links, child);
  }

  // ------------------------------------------------------------ a parent behind a better entry

  const WEAK := Update(0, 300, SYNC_COMMITTEE_SIZE, 5, 6, 0, true, true)
  const STRONG := Update(1, 500, SYNC_COMMITTEE_SIZE, 10, 11, 0, true, true)
  const MIDDLE := Update(2, 400, SYNC_COMMITTEE_SIZE, 7, 8, 0, true, true)

  /** Block 1 is saved, and its child 2 with a better update of the same period. Block 3, another
      child of 1, gets its own update if it is saved now, but that of block 2 if it is saved after a
      child of block 2 has been finalized. */
  method DeeperParentNoticed() returns (before: Update, after: Update)
    ensures before == MIDDLE && after == STRONG && Better(STRONG, MIDDLE) && Better(MIDDLE, WEAK)
  {
    MiddleIsBetween();
    before := SavedNow();
    after := SavedAfterwards();
  }

  method SavedNow() returns (best: Update)
    ensures best == MIDDLE
  {
    var store, first, second := WeakThenStrong();
    best := SaveThird(store);
  }

  method SavedAfterwards() returns (best: Update)
    ensures best == STRONG
  {
    var store, first, second := WeakThenStrong();
    assert fresh(store.nodes);
    MigrateBlock(store, 4, 20, 2, store.Value());
    best := SaveThird(store);
  }

  lemma MiddleIsBetween()
    ensures Better(STRONG, MIDDLE) && Better(MIDDLE, WEAK) && Better(STRONG, WEAK) && !Better(MIDDLE, STRONG)
  {
  }

  method WeakThenStrong() returns (store: Store, ghost first: CacheItem, ghost second: CacheItem)
    ensures fresh(store) && fresh(first) && fresh(second) && store.nodes == {first, second}
    ensures store.Valid() && store.items != map[] && IsWeakThenStrong(store.Value())
  {
    store := new Store(map[]);
    first := SaveBlock(store, WEAK, 1, 0);
    second := SaveBlock(store, STRONG, 2, 1);
    ThirdBlock(store.Value(), first, second);
  }

  /** Block 3 now, and after the migration. */
  ghost predicate IsWeakThenStrong(v: View)
    requires Ok(v)
  {
    var v' := Migrated(v, 2, 20, {});
    && BestOnSave(EntryAt(v, 1), v.db, MIDDLE) == MIDDLE
    && Ok(v') && BestOnSave(EntryAt(v', 1), v'.db, MIDDLE) == STRONG
  }

  lemma ThirdBlock(v: View, first: CacheItem, second: CacheItem)
    requires Ok(v) && v == WithItem(WithItem(View(map[], map[], map[]), 1, first, null), 2, second, first)
    requires first.slot == WEAK.attestedSlot && first.period == PeriodOf(first.slot)
    requires second.slot == STRONG.attestedSlot && second.period == PeriodOf(second.slot)
    requires first.bestUpdate == BestOnSave(None, map[], WEAK)
    requires second.bestUpdate == BestOnSave(Some(EntryOf(first)), map[], STRONG)
    ensures v.items != map[] && IsWeakThenStrong(v)
  {
    MiddleIsBetween();
    MigratedOk(v, 2, 20, {});
    NewestIsMigrated(v, second);
  }

  lemma NewestIsMigrated(v: View, second: CacheItem)
    requires Ok(v) && 2 in v.items && v.items[2] == second && second.slot == STRONG.attestedSlot && second.bestUpdate == STRONG
    ensures Get(Migrated(v, 2, 20, {}).db, 0) == Some(STRONG)
  {
    assert LinkOk(v.links, second);
    HeadOfBranch(v, 2);
    assert Get(Saved(Branch(v, 2), {}), 0) == Some(STRONG);
  }

  method SaveThird(store: Store) returns (best: Update)
    requires store.Valid()
    modifies store
    ensures best == BestOnSave(EntryAt(old(store.Value()), 1), old(store.db), MIDDLE)
  {
    ghost var item := SaveBlock(store, MIDDLE, 3, 1);
    best := store.items[3].bestUpdate;
  }
}

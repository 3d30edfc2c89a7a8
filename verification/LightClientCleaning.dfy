/** What cleanCache (beacon-chain/light-client/store.go) leaves of the cache. */
module LightClientCleaning {
  import opened LightClientCache

  lemma PathLink(links: Links, n: CacheItem, i: nat)
    requires Linked(links) && n in links && 0 < i < |Path(links, n)|
    ensures Path(links, n)[i - 1] in links && links[Path(links, n)[i - 1]] == Path(links, n)[i]
  {
    PathAfter(links, n, i - 1);
    assert Path(links, n)[i..][0] == Path(links, n)[i];
  }

  /** On a branch of current entries a link to an older parent is cut, wherever it is. */
  lemma CutPathYoung(links: Links, entries: set<CacheItem>, finalizedSlot: nat, n: CacheItem, i: nat)
    requires Linked(links) && Linked(CutLinks(links, entries, finalizedSlot)) && n in links && n.slot >= finalizedSlot
    requires forall j :: 0 <= j < |Path(links, n)| ==> Path(links, n)[j] in entries
    requires i < |Path(CutLinks(links, entries, finalizedSlot), n)|
    ensures Path(CutLinks(links, entries, finalizedSlot), n)[i].slot >= finalizedSlot
  {
    var cut := CutLinks(links, entries, finalizedSlot);
    var now := Path(cut, n);
    if i > 0 {
      CutPath(links, entries, finalizedSlot, n, 0);
      PathLink(cut, n, i);
      assert now[i - 1] == Path(links, n)[i - 1];
    }
  }

  /** Exactly the entries that are not older than the slot are left in the map, and a branch of
      current entries has none that is older. */
  lemma CleanedIsYoung(v: View, finalizedSlot: nat, root: Root)
    requires Ok(v) && Ok(Cleaned(v, finalizedSlot)) && root in v.items
    ensures var v' := Cleaned(v, finalizedSlot);
      && (root in v'.items <==> v.items[root].slot >= finalizedSlot)
      && (root in v'.items && (forall i :: 0 <= i < |PathFrom(v, root)| ==> PathFrom(v, root)[i] in v.items.Values) ==>
            forall i :: 0 <= i < |PathFrom(v', root)| ==> PathFrom(v', root)[i].slot >= finalizedSlot)
  {
    var v' := Cleaned(v, finalizedSlot);
    if root in v'.items && forall i :: 0 <= i < |PathFrom(v, root)| ==> PathFrom(v, root)[i] in v.items.Values {
      assert PathFrom(v, root) == Path(v.links, v.items[root]) && PathFrom(v', root) == Path(v'.links, v.items[root]);
      forall i | 0 <= i < |PathFrom(v', root)| ensures PathFrom(v', root)[i].slot >= finalizedSlot {
        CutPathYoung(v.links, v.items.Values, finalizedSlot, v.items[root], i);
      }
    }
  }
}

/**
 * The lazily loaded, reference-counted resource cache: a slot per asset
 * (`ResourceHolder`, with the loading step of `AnimationResource`), the keyed registry
 * of slots (`ResourceManager`), and the ownership extender that keeps type-erased claims
 * on assets (`ResourceOwner`).  Every handle copy and destruction is recorded in the
 * shared `UseCounts` table, which plays the part of the shared_ptr control blocks.
 *
 * Each method states the exact new state as a function of the old one; the functions
 * and lemmas of `Accounting` say what those transitions mean and that they keep the use
 * counts in agreement with the handles that exist.
 */
module Resources {
  import opened RefCounts
  import opened Accounting

  /**
   * One asset slot: `ResourceHolder<AnimationGroup>` as refined by `AnimationResource`.
   * `token` is `m_folderToken`; `res` is `m_res`.  The stream is not modelled.
   */
  class Slot {
    var token: string
    var res: Handle

    /** Default construction inside `map::emplace`: no token yet, nothing loaded. */
    constructor ()
      ensures token == "" && res == Null
    {
      token := "";
      res := Null;
    }

    function View(): SlotView
      reads this
    {
      SlotView(token, res)
    }

    /** setToken: records the folder token the asset is later loaded from. */
    method SetToken(t: string)
      modifies this
      ensures token == t && res == old(res)
    {
      token := t;
    }

    /** unloadIfUnused: drops `m_res` only when it is the instance's sole handle. */
    method UnloadIfUnused(rc: UseCounts)
      modifies this, rc
      ensures View() == SweepSlot(old(View()), old(rc.counts))
      ensures rc.counts == if Unique(old(rc.counts), old(res)) then old(rc.counts)[old(res).id := 0] else old(rc.counts)
    {
      if Unique(rc.counts, res) {
        rc.Release(res);
        res := Null;
      }
    }

    /**
     * onLoadResource: `m_res = std::make_shared<AnimationGroup>()`.  The slot now points at a
     * new instance; the handle it overwrites, if any, is released.
     */
    method OnLoadResource(rc: UseCounts)
      modifies this, rc
      ensures token == old(token)
      ensures res == Ptr(old(|rc.counts|))
      ensures rc.counts == ReleasedOne(old(rc.counts) + [1], old(res))
    {
      var created := rc.MakeShared();
      rc.Release(res);
      res := created;
    }

    /** getResource: loads on first use only, then returns the cached instance. */
    method GetResource(rc: UseCounts) returns (id: InstanceId)
      modifies this, rc
      ensures token == old(token) && res == Ptr(id)
      ensures old(res).Ptr? ==> id == old(res).id && rc.counts == old(rc.counts)
      ensures old(res).Null? ==> id == old(|rc.counts|) && rc.counts == old(rc.counts) + [1]
    {
      if res.Null? {
        OnLoadResource(rc);
      }
      id := res.id;
    }

    /** makeOwner: the owner stores a copy of `m_res`, which may be null. */
    method MakeOwner(owner: Owner, rc: UseCounts)
      modifies owner, rc
      ensures owner.claims == old(owner.claims) + [res]
      ensures rc.counts == Retained(old(rc.counts), res)
    {
      rc.Retain(res);
      owner.claims := owner.claims + [res];
    }
  }

  /** ResourceOwner: keeps type-erased claims on the assets of any slots. */
  class Owner {
    var claims: seq<Handle>

    constructor ()
      ensures claims == []
    {
      claims := [];
    }

    /**
     * ownResource: appends one claim holding a copy of the slot's current handle; that
     * instance gains one holder and the slot is left as it was.  The slot is not loaded
     * first, so owning an unloaded slot stores a null claim.
     */
    method OwnResource(slot: Slot, rc: UseCounts)
      modifies this, rc
      ensures claims == old(claims) + [slot.res]
      ensures rc.counts == Retained(old(rc.counts), slot.res)
      ensures unchanged(slot)
    {
      slot.MakeOwner(this, rc);
    }

    /**
     * disownAllResources: every claim is destroyed, so each instance loses the holders it
     * had here; no slot changes.
     */
    method DisownAllResources(rc: UseCounts)
      modifies this, rc
      ensures claims == []
      ensures rc.counts == Released(old(rc.counts), old(claims))
    {
      rc.ReleaseAll(claims);
      claims := [];
    }
  }

  /** ResourceManager: a map from key to slot. */
  class Registry<K(==)> {
    var entries: map<K, Slot>

    /** Distinct keys have distinct slots (each map value is its own object). */
    ghost predicate Valid()
      reads this
    {
      forall k1, k2 :: k1 in entries && k2 in entries && k1 != k2 ==> entries[k1] != entries[k2]
    }

    /** The slots as values, by key. */
    ghost function View(): map<K, SlotView>
      reads this, entries.Values
    {
      map k | k in entries :: entries[k].View()
    }

    constructor ()
      ensures entries == map[] && Valid()
    {
      entries := map[];
    }

    /**
     * registerResource: refuses a key that is present and leaves the registry as it was;
     * otherwise adds a new slot for the key with the token, unloaded, or loaded with a new
     * instance when loadASAP is set.
     */
    method RegisterResource(key: K, token: string, loadASAP: bool, rc: UseCounts) returns (r: Outcome)
      requires Valid()
      modifies this, rc
      ensures Valid()
      ensures (r, Store(View(), rc.counts)) == Register(Store(old(View()), old(rc.counts)), key, token, loadASAP)
      ensures key in old(entries) ==> entries == old(entries)
      ensures key !in old(entries) ==>
        fresh(entries[key]) && forall k :: k in old(entries) ==> k in entries && entries[k] == old(entries[k])
    {
      if key in entries {
        return Fail(DuplicateKey);
      }
      ghost var before := Store(View(), rc.counts);
      var slot := new Slot();
      entries := entries[key := slot];
      slot.SetToken(token);
      assert View() == before.slots[key := SlotView(token, Null)];
      if loadASAP {
        slot.OnLoadResource(rc);
      }
      r := Pass;
      assert r == Register(before, key, token, loadASAP).0;
      assert Store(View(), rc.counts) == Register(before, key, token, loadASAP).1;
    }

    /**
     * retrieveResource: fails for a key that is absent, creating nothing; otherwise returns
     * the slot's instance, loading a new one only when the slot is unloaded.
     */
    method RetrieveResource(key: K, rc: UseCounts) returns (r: Result<InstanceId>)
      requires Valid()
      modifies entries.Values, rc
      ensures entries == old(entries)
      ensures (r, Store(View(), rc.counts)) == Retrieve(Store(old(View()), old(rc.counts)), key)
    {
      if key !in entries {
        return Err(KeyNotFound);
      }
      ghost var before := Store(View(), rc.counts);
      var id := entries[key].GetResource(rc);
      assert forall k :: k in entries && k != key ==> entries[k] != entries[key];
      assert View() == before.slots[key := SlotView(before.slots[key].token, Ptr(id))];
      r := Ok(id);
      assert r == Retrieve(before, key).0;
      assert Store(View(), rc.counts) == Retrieve(before, key).1;
    }

    /**
     * unloadAllUnused: runs unloadIfUnused on every slot.  Keys and tokens stay as they
     * are; afterwards no slot is the sole holder of its instance.
     */
    method UnloadAllUnused(rc: UseCounts)
      requires Valid() && Tracked(Store(View(), rc.counts))
      modifies entries.Values, rc
      ensures entries == old(entries)
      ensures Store(View(), rc.counts) == Sweep(Store(old(View()), old(rc.counts)))
      ensures forall k :: k in entries ==> !Unique(rc.counts, entries[k].res)
    {
      ghost var v0 := View();
      ghost var c0 := rc.counts;
      var todo := entries.Keys;
      ghost var done: set<K> := {};
      while todo != {}
        invariant done + todo == v0.Keys && done !! todo
        invariant forall k :: k in entries ==> entries[k].View() == SweptView(v0, c0, done)[k]
        invariant rc.counts == SweptCounts(c0, v0, done)
        decreases todo
      {
        var k :| k in todo;
        SweepStep(c0, v0, done, k);
        entries[k].UnloadIfUnused(rc);
        todo := todo - {k};
        done := done + {k};
      }
      assert View() == SweptView(v0, c0, v0.Keys);
      SweepLeavesNoSoleHolder(c0, v0);
    }
  }
}

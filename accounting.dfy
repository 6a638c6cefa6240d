/**
 * What the use counts of the resource cache mean.  The state the cache's operations
 * touch is viewed as values: each registry slot as a token and a handle, the claims of
 * every ownership extender as one handle sequence per extender, and the control blocks
 * as a sequence of counts.  `Accounts` is the invariant that makes `unique()` a statement
 * about holders: the count of every instance is 1 when a slot points at it, plus the
 * number of claims that point at it.  The lemmas show that each operation keeps it, and
 * what the bulk eviction pass does to slots that are and are not held elsewhere.
 */
module Accounting {
  import opened RefCounts

  datatype Failure =
    | DuplicateKey   // ABX_ASSERT(result.second) fails in registerResource
    | KeyNotFound    // std::map::at throws std::out_of_range in retrieveResource

  datatype Outcome = Pass | Fail(failure: Failure)

  datatype Result<T> = Ok(value: T) | Err(failure: Failure)

  /** One registry entry: the token it resolves its stream from, and its `m_res`. */
  datatype SlotView = SlotView(token: string, res: Handle)

  /** The registry's slots by key, with the control blocks of every instance created so far. */
  datatype Store<K> = Store(slots: map<K, SlotView>, counts: seq<nat>)

  /** Ids of the instances that the slots under keys point at. */
  ghost function HeldIn<K>(v: map<K, SlotView>, keys: set<K>): set<InstanceId>
  {
    set k | k in v && k in keys && v[k].res.Ptr? :: v[k].res.id
  }

  /** Ids of the instances that some slot points at. */
  ghost function LoadedIds<K>(v: map<K, SlotView>): set<InstanceId>
  {
    HeldIn(v, v.Keys)
  }

  /** No two slots share an instance: each load creates its own. */
  ghost predicate DistinctLoaded<K>(v: map<K, SlotView>)
  {
    forall k1, k2 :: k1 in v && k2 in v && v[k1].res.Ptr? && v[k1].res == v[k2].res ==> k1 == k2
  }

  /** Every slot is null or points at an instance created so far. */
  ghost predicate SlotsBelow<K>(v: map<K, SlotView>, n: nat)
  {
    forall k :: k in v ==> Below(v[k].res, n)
  }

  ghost predicate ClaimsBelow(cls: seq<seq<Handle>>, n: nat)
  {
    forall i :: 0 <= i < |cls| ==> AllBelow(cls[i], n)
  }

  /** Number of claims, over all extenders, that point at instance id. */
  ghost function ClaimCount(cls: seq<seq<Handle>>, id: InstanceId): nat
  {
    if cls == [] then 0 else Occurrences(cls[0], id) + ClaimCount(cls[1..], id)
  }

  /** Number of handles to instance id that exist: its slot's (if any) and its claims. */
  ghost function HolderCount<K>(v: map<K, SlotView>, cls: seq<seq<Handle>>, id: InstanceId): nat
  {
    (if id in LoadedIds(v) then 1 else 0) + ClaimCount(cls, id)
  }

  /** The slots point only at instances created so far, and never two at the same one. */
  ghost predicate Tracked<K>(s: Store<K>)
  {
    SlotsBelow(s.slots, |s.counts|) && DistinctLoaded(s.slots)
  }

  /** The stored use counts agree with the handles that exist. */
  ghost predicate Accounts<K>(counts: seq<nat>, v: map<K, SlotView>, cls: seq<seq<Handle>>)
  {
    && Tracked(Store(v, counts))
    && ClaimsBelow(cls, |counts|)
    && forall id :: 0 <= id < |counts| ==> counts[id] == HolderCount(v, cls, id)
  }

  // ---------------------------------------------------------------------------
  // What registerResource, retrieveResource and unloadAllUnused do to the store

  /**
   * onLoadResource on the slot under key: `m_res = std::make_shared<...>()`.  The slot
   * keeps its token and now holds the one handle to a brand-new instance; the handle it
   * overwrote, if any, is destroyed, so that instance loses one holder.
   */
  function Load<K>(s: Store<K>, key: K): (r: Store<K>)
    requires key in s.slots
    ensures r.slots.Keys == s.slots.Keys
    ensures forall k :: k in s.slots && k != key ==> r.slots[k] == s.slots[k]
    ensures r.slots[key].token == s.slots[key].token
    ensures r.slots[key].res == Ptr(|s.counts|) && |r.counts| == |s.counts| + 1
    ensures s.slots[key].res.Null? ==> r.counts == s.counts + [1]
    ensures Releasable(s.counts, s.slots[key].res) ==> r.counts[|s.counts|] == 1
    ensures Releasable(s.counts, s.slots[key].res) ==>
      forall id :: 0 <= id < |s.counts| ==> r.counts[id] + Occurrences([s.slots[key].res], id) == s.counts[id]
    ensures Tracked(s) ==> Tracked(r)
  {
    Store(s.slots[key := SlotView(s.slots[key].token, Ptr(|s.counts|))], ReleasedOne(s.counts + [1], s.slots[key].res))
  }

  /**
   * registerResource: a key that is present is refused and the store is left as it was
   * (emplace does not overwrite); otherwise exactly that key is added, bound to token,
   * unloaded, or loaded with a new instance when loadASAP is set.
   */
  function Register<K>(s: Store<K>, key: K, token: string, loadASAP: bool): (r: (Outcome, Store<K>))
    ensures r.0 == Fail(DuplicateKey) <==> key in s.slots
    ensures r.0.Fail? ==> r.1 == s
    ensures r.0.Pass? ==>
      && r.1.slots.Keys == s.slots.Keys + {key}
      && (forall k :: k in s.slots ==> r.1.slots[k] == s.slots[k])
      && r.1.slots[key].token == token
      && (r.1.slots[key].res.Ptr? <==> loadASAP)
      && (loadASAP ==> r.1.slots[key].res == Ptr(|s.counts|))
      && r.1.counts == if loadASAP then s.counts + [1] else s.counts
    ensures Tracked(s) ==> Tracked(r.1)
  {
    if key in s.slots then (Fail(DuplicateKey), s)
    else
      var added := Store(s.slots[key := SlotView(token, Null)], s.counts);
      assert Tracked(s) ==> Tracked(added);
      (Pass, if loadASAP then Load(added, key) else added)
  }

  /**
   * retrieveResource: an absent key fails and creates nothing; a present key yields the
   * instance its slot holds afterwards, loading a new one only when the slot is unloaded.
   */
  function Retrieve<K>(s: Store<K>, key: K): (r: (Result<InstanceId>, Store<K>))
    ensures r.0 == Err(KeyNotFound) <==> key !in s.slots
    ensures r.0.Err? ==> r.1 == s
    ensures r.1.slots.Keys == s.slots.Keys
    ensures r.0.Ok? ==> r.1.slots[key] == SlotView(s.slots[key].token, Ptr(r.0.value))
    ensures forall k :: k in s.slots && k != key ==> r.1.slots[k] == s.slots[k]
    ensures key in s.slots && s.slots[key].res.Ptr? ==> r.1 == s
    ensures key in s.slots && s.slots[key].res.Null? ==>
      r.0 == Ok(|s.counts|) && r.1.counts == s.counts + [1]
    ensures Tracked(s) ==> Tracked(r.1)
  {
    if key !in s.slots then (Err(KeyNotFound), s)
    else if s.slots[key].res.Ptr? then (Ok(s.slots[key].res.id), s)
    else (Ok(|s.counts|), Load(s, key))
  }

  /** unloadAllUnused: unloadIfUnused applied to every slot of the store. */
  ghost function Sweep<K>(s: Store<K>): (r: Store<K>)
    ensures r.slots.Keys == s.slots.Keys
    ensures forall k :: k in r.slots ==> r.slots[k].token == s.slots[k].token
    ensures forall k :: k in r.slots ==> r.slots[k].res.Null? || r.slots[k] == s.slots[k]
    ensures |r.counts| == |s.counts|
    ensures Tracked(s) ==> Tracked(r)
  {
    Store(SweptView(s.slots, s.counts, s.slots.Keys), SweptCounts(s.counts, s.slots, s.slots.Keys))
  }

  /**
   * Two retrievals of the same key with nothing in between yield the same instance; the
   * second loads nothing, and the pair performs at most one load.
   */
  lemma RetrieveTwiceSameInstance<K>(s: Store<K>, key: K)
    requires key in s.slots
    ensures var (a, s1) := Retrieve(s, key);
      && a.Ok?
      && Retrieve(s1, key) == (a, s1)
      && |s.counts| <= |s1.counts| <= |s.counts| + 1
  {
  }

  // ---------------------------------------------------------------------------
  // Counting claims

  /** Replacing one extender's claims changes the claim count by the difference. */
  lemma {:induction false} ClaimCountUpdate(cls: seq<seq<Handle>>, i: nat, hs: seq<Handle>, id: InstanceId)
    requires i < |cls|
    ensures ClaimCount(cls[i := hs], id) + Occurrences(cls[i], id) == ClaimCount(cls, id) + Occurrences(hs, id)
  {
    if i == 0 {
      assert cls[i := hs][1..] == cls[1..];
    } else {
      ClaimCountUpdate(cls[1..], i - 1, hs, id);
      assert cls[i := hs][1..] == cls[1..][i - 1 := hs];
    }
  }

  /** No claim points at an instance that has not been created yet. */
  lemma {:induction false} UnclaimedBeyond(cls: seq<seq<Handle>>, n: nat, id: InstanceId)
    requires ClaimsBelow(cls, n)
    requires n <= id
    ensures ClaimCount(cls, id) == 0
  {
    if cls != [] {
      NoOccurrenceBeyond(cls[0], n, id);
      UnclaimedBeyond(cls[1..], n, id);
    }
  }

  /** A claim on instance id is one of the handles counted for id. */
  lemma ClaimIsCounted(cls: seq<seq<Handle>>, i: nat, j: nat)
    requires i < |cls| && j < |cls[i]| && cls[i][j].Ptr?
    ensures ClaimCount(cls, cls[i][j].id) >= 1
  {
    var id := cls[i][j].id;
    assert Ptr(id) in multiset(cls[i]);
    ClaimCountUpdate(cls, i, [], id);
  }

  // ---------------------------------------------------------------------------
  // The meaning of unique() and of a fresh load

  /** A loaded slot is the sole holder of its instance exactly when no claim points at it. */
  lemma SoleHolderIffUnclaimed<K>(counts: seq<nat>, v: map<K, SlotView>, cls: seq<seq<Handle>>, k: K)
    requires Accounts(counts, v, cls)
    requires k in v && v[k].res.Ptr?
    ensures Unique(counts, v[k].res) <==> ClaimCount(cls, v[k].res.id) == 0
  {
    assert v[k].res.id in LoadedIds(v);
  }

  /** A live claim keeps its instance's count positive, whatever the slots do. */
  lemma ClaimKeepsAlive<K>(counts: seq<nat>, v: map<K, SlotView>, cls: seq<seq<Handle>>, i: nat, j: nat)
    requires Accounts(counts, v, cls)
    requires i < |cls| && j < |cls[i]| && cls[i][j].Ptr?
    ensures cls[i][j].id < |counts| && counts[cls[i][j].id] >= 1
  {
    assert AllBelow(cls[i], |counts|);
    ClaimIsCounted(cls, i, j);
  }

  /** The next instance to be created is pointed at by no slot and no claim. */
  lemma FreshInstanceUnheld<K>(counts: seq<nat>, v: map<K, SlotView>, cls: seq<seq<Handle>>)
    requires Accounts(counts, v, cls)
    ensures |counts| !in LoadedIds(v)
    ensures ClaimCount(cls, |counts|) == 0
    ensures forall i, j :: 0 <= i < |cls| && 0 <= j < |cls[i]| ==> cls[i][j] != Ptr(|counts|)
  {
    UnclaimedBeyond(cls, |counts|, |counts|);
    forall i, j | 0 <= i < |cls| && 0 <= j < |cls[i]|
      ensures cls[i][j] != Ptr(|counts|)
    {
      assert AllBelow(cls[i], |counts|);
    }
  }

  // ---------------------------------------------------------------------------
  // Each operation keeps the accounts

  /** emplace adds an unloaded slot. */
  lemma AddKeepsAccounts<K>(counts: seq<nat>, v: map<K, SlotView>, cls: seq<seq<Handle>>, key: K, token: string)
    requires Accounts(counts, v, cls)
    requires key !in v
    ensures Accounts(counts, v[key := SlotView(token, Null)], cls)
  {
    var v' := v[key := SlotView(token, Null)];
    forall id | id in LoadedIds(v')
      ensures id in LoadedIds(v)
    {
      var k :| k in v' && v'[k].res.Ptr? && v'[k].res.id == id;
      assert k in v && v[k] == v'[k];
    }
    forall id | id in LoadedIds(v)
      ensures id in LoadedIds(v')
    {
      var k :| k in v && v[k].res.Ptr? && v[k].res.id == id;
      assert v'[k] == v[k];
    }
    assert LoadedIds(v') == LoadedIds(v);
  }

  /** onLoadResource on an unloaded slot: one new instance, held by that slot only. */
  lemma LoadKeepsAccounts<K>(counts: seq<nat>, v: map<K, SlotView>, cls: seq<seq<Handle>>, key: K)
    requires Accounts(counts, v, cls)
    requires key in v && v[key].res.Null?
    ensures Accounts(counts + [1], v[key := SlotView(v[key].token, Ptr(|counts|))], cls)
  {
    var n := |counts|;
    var v' := v[key := SlotView(v[key].token, Ptr(n))];
    var counts' := counts + [1];
    forall id | id in LoadedIds(v')
      ensures id in LoadedIds(v) + {n}
    {
      var k :| k in v' && v'[k].res.Ptr? && v'[k].res.id == id;
      assert k != key ==> k in v && v[k] == v'[k];
    }
    forall id | id in LoadedIds(v)
      ensures id in LoadedIds(v')
    {
      var k :| k in v && v[k].res.Ptr? && v[k].res.id == id;
      assert v'[k] == v[k];
    }
    assert key in v' && v'[key].res == Ptr(n);
    assert LoadedIds(v') == LoadedIds(v) + {n};
    FreshInstanceUnheld(counts, v, cls);
    forall i | 0 <= i < |cls|
      ensures AllBelow(cls[i], n + 1)
    {
      assert AllBelow(cls[i], n);
    }
    forall id | 0 <= id < |counts'|
      ensures counts'[id] == HolderCount(v', cls, id)
    {
      if id < n {
        assert counts'[id] == counts[id] == HolderCount(v, cls, id);
      }
    }
  }

  /** registerResource keeps the accounts, whether it fails, adds or adds and loads. */
  lemma RegisterKeepsAccounts<K>(s: Store<K>, cls: seq<seq<Handle>>, key: K, token: string, loadASAP: bool)
    requires Accounts(s.counts, s.slots, cls)
    ensures var s' := Register(s, key, token, loadASAP).1; Accounts(s'.counts, s'.slots, cls)
  {
    if key !in s.slots {
      var added := Store(s.slots[key := SlotView(token, Null)], s.counts);
      AddKeepsAccounts(s.counts, s.slots, cls, key, token);
      if loadASAP {
        LoadKeepsAccounts(added.counts, added.slots, cls, key);
      }
    }
  }

  /** retrieveResource keeps the accounts: a load adds one instance, held by its slot only. */
  lemma RetrieveKeepsAccounts<K>(s: Store<K>, cls: seq<seq<Handle>>, key: K)
    requires Accounts(s.counts, s.slots, cls)
    ensures var s' := Retrieve(s, key).1; Accounts(s'.counts, s'.slots, cls)
  {
    if key in s.slots && s.slots[key].res.Null? {
      LoadKeepsAccounts(s.counts, s.slots, cls, key);
    }
  }

  /** makeOwner: the extender's claims grow by a copy of the slot's handle. */
  lemma OwnKeepsAccounts<K>(counts: seq<nat>, v: map<K, SlotView>, cls: seq<seq<Handle>>, i: nat, key: K)
    requires Accounts(counts, v, cls)
    requires i < |cls| && key in v
    ensures Accounts(Retained(counts, v[key].res), v, cls[i := cls[i] + [v[key].res]])
    ensures forall id ::
      HolderCount(v, cls[i := cls[i] + [v[key].res]], id) == HolderCount(v, cls, id) + Occurrences([v[key].res], id)
  {
    var h := v[key].res;
    var cls' := cls[i := cls[i] + [h]];
    var counts' := Retained(counts, h);
    forall id
      ensures HolderCount(v, cls', id) == HolderCount(v, cls, id) + Occurrences([h], id)
    {
      ClaimCountUpdate(cls, i, cls[i] + [h], id);
      assert multiset(cls[i] + [h]) == multiset(cls[i]) + multiset([h]);
    }
  }

  /** disownAllResources: an extender's claims are dropped and each instance loses as many holders. */
  lemma DisownKeepsAccounts<K>(counts: seq<nat>, v: map<K, SlotView>, cls: seq<seq<Handle>>, i: nat)
    requires Accounts(counts, v, cls)
    requires i < |cls|
    ensures CoveredBy(counts, cls[i])
    ensures Accounts(Released(counts, cls[i]), v, cls[i := []])
    ensures forall id :: HolderCount(v, cls[i := []], id) + Occurrences(cls[i], id) == HolderCount(v, cls, id)
  {
    forall id
      ensures ClaimCount(cls[i := []], id) + Occurrences(cls[i], id) == ClaimCount(cls, id)
    {
      ClaimCountUpdate(cls, i, [], id);
    }
    forall id | 0 <= id < |counts|
      ensures Occurrences(cls[i], id) <= counts[id]
    {
    }
  }

  // ---------------------------------------------------------------------------
  // unloadIfUnused and unloadAllUnused

  /** unloadIfUnused on one slot: the pointer is dropped exactly when it is unique. */
  function SweepSlot(s: SlotView, counts: seq<nat>): (r: SlotView)
    ensures r.token == s.token
    ensures r.res.Null? <==> s.res.Null? || Unique(counts, s.res)
    ensures r.res.Ptr? ==> r == s
  {
    if Unique(counts, s.res) then s.(res := Null) else s
  }

  /** The slots after unloadIfUnused has run on the slots under done, judged by counts. */
  ghost function SweptView<K>(v: map<K, SlotView>, counts: seq<nat>, done: set<K>): (r: map<K, SlotView>)
    ensures r.Keys == v.Keys
    ensures forall k :: k in r ==> r[k].token == v[k].token
  {
    map k | k in v :: if k in done then SweepSlot(v[k], counts) else v[k]
  }

  /** The use counts after unloadIfUnused has run on the slots under done. */
  ghost function SweptCounts<K>(counts: seq<nat>, v: map<K, SlotView>, done: set<K>): (r: seq<nat>)
    ensures |r| == |counts|
  {
    seq(|counts|, id requires 0 <= id < |counts| =>
      if counts[id] == 1 && id in HeldIn(v, done) then 0 else counts[id])
  }

  /**
   * One step of the sweep: the next slot still has its original handle, and whether it is
   * unique is the same as before the sweep began, because no other slot shares its instance.
   * So the order in which slots are visited does not matter.
   */
  lemma SweepStep<K>(counts: seq<nat>, v: map<K, SlotView>, done: set<K>, k: K)
    requires SlotsBelow(v, |counts|) && DistinctLoaded(v)
    requires k in v && k !in done
    ensures SweptView(v, counts, done)[k] == v[k]
    ensures Unique(SweptCounts(counts, v, done), v[k].res) == Unique(counts, v[k].res)
    ensures SweptView(v, counts, done + {k}) == SweptView(v, counts, done)[k := SweepSlot(v[k], counts)]
    ensures SweptCounts(counts, v, done + {k}) ==
      if Unique(counts, v[k].res) then SweptCounts(counts, v, done)[v[k].res.id := 0]
      else SweptCounts(counts, v, done)
  {
    var c := SweptCounts(counts, v, done);
    var c' := SweptCounts(counts, v, done + {k});
    if v[k].res.Ptr? {
      var id := v[k].res.id;
      assert id !in HeldIn(v, done);
      assert HeldIn(v, done + {k}) == HeldIn(v, done) + {id};
      assert c[id] == counts[id];
    } else {
      assert HeldIn(v, done + {k}) == HeldIn(v, done);
    }
  }

  /** The sweep keeps the accounts: an evicted instance had no other holder, and now has none. */
  lemma SweepKeepsAccounts<K>(counts: seq<nat>, v: map<K, SlotView>, cls: seq<seq<Handle>>)
    requires Accounts(counts, v, cls)
    ensures Accounts(SweptCounts(counts, v, v.Keys), SweptView(v, counts, v.Keys), cls)
  {
    var v' := SweptView(v, counts, v.Keys);
    var c' := SweptCounts(counts, v, v.Keys);
    assert LoadedIds(v') <= LoadedIds(v);
    forall id | 0 <= id < |c'|
      ensures c'[id] == HolderCount(v', cls, id)
    {
      if id in LoadedIds(v) {
        var k :| k in v && v[k].res == Ptr(id);
        if counts[id] == 1 {
          assert v'[k].res == Null;
          assert id !in LoadedIds(v');
        } else {
          assert v'[k] == v[k];
          assert id in LoadedIds(v');
        }
      }
    }
  }

  /** After the sweep no slot is the sole holder of its instance. */
  lemma SweepLeavesNoSoleHolder<K>(counts: seq<nat>, v: map<K, SlotView>)
    requires SlotsBelow(v, |counts|) && DistinctLoaded(v)
    ensures forall k :: k in v ==>
      !Unique(SweptCounts(counts, v, v.Keys), SweptView(v, counts, v.Keys)[k].res)
  {
    var v' := SweptView(v, counts, v.Keys);
    var c' := SweptCounts(counts, v, v.Keys);
    forall k | k in v
      ensures !Unique(c', v'[k].res)
    {
      if v'[k].res.Ptr? {
        var id := v[k].res.id;
        assert counts[id] != 1;
        assert c'[id] == counts[id];
      }
    }
  }

  /**
   * What the sweep does to one slot: an unloaded slot stays unloaded; a loaded slot is
   * unloaded exactly when no claim points at its instance, and otherwise keeps the same
   * instance, whose count does not change.
   */
  lemma SweepEvictsExactlyUnclaimed<K>(counts: seq<nat>, v: map<K, SlotView>, cls: seq<seq<Handle>>, k: K)
    requires Accounts(counts, v, cls)
    requires k in v
    ensures v[k].res.Null? ==> SweptView(v, counts, v.Keys)[k] == v[k]
    ensures v[k].res.Ptr? ==>
      (SweptView(v, counts, v.Keys)[k].res.Null? <==> ClaimCount(cls, v[k].res.id) == 0)
    ensures v[k].res.Ptr? && ClaimCount(cls, v[k].res.id) > 0 ==>
      SweptView(v, counts, v.Keys)[k] == v[k] &&
      SweptCounts(counts, v, v.Keys)[v[k].res.id] == counts[v[k].res.id]
    ensures v[k].res.Ptr? && ClaimCount(cls, v[k].res.id) == 0 ==>
      SweptCounts(counts, v, v.Keys)[v[k].res.id] == 0
  {
    if v[k].res.Ptr? {
      SoleHolderIffUnclaimed(counts, v, cls, k);
      assert v[k].res.id in HeldIn(v, v.Keys);
    }
  }

  /** A claimed instance survives the sweep with its count unchanged, loaded or not. */
  lemma SweepKeepsClaimedAlive<K>(counts: seq<nat>, v: map<K, SlotView>, cls: seq<seq<Handle>>, i: nat, j: nat)
    requires Accounts(counts, v, cls)
    requires i < |cls| && j < |cls[i]| && cls[i][j].Ptr?
    ensures SweptCounts(counts, v, v.Keys)[cls[i][j].id] == counts[cls[i][j].id] >= 1
  {
    var id := cls[i][j].id;
    ClaimKeepsAlive(counts, v, cls, i, j);
    ClaimIsCounted(cls, i, j);
    if id in HeldIn(v, v.Keys) {
      assert counts[id] >= 2;
    }
  }

  /** A second sweep right after the first changes nothing. */
  lemma SweepIdempotent<K>(counts: seq<nat>, v: map<K, SlotView>)
    requires SlotsBelow(v, |counts|) && DistinctLoaded(v)
    ensures var v', c' := SweptView(v, counts, v.Keys), SweptCounts(counts, v, v.Keys);
      SweptView(v', c', v'.Keys) == v' && SweptCounts(c', v', v'.Keys) == c'
  {
    var v' := SweptView(v, counts, v.Keys);
    var c' := SweptCounts(counts, v, v.Keys);
    SweepLeavesNoSoleHolder(counts, v);
    assert SweptView(v', c', v'.Keys) == v';
    assert SweptCounts(c', v', v'.Keys) == c';
  }

  // ---------------------------------------------------------------------------
  // Eviction and reloading

  /**
   * An asset that no extender claims is evicted by the sweep, and the next retrieval of its
   * key loads a new instance: neither the evicted one nor one that any claim points at.
   */
  lemma EvictedReloadsFresh<K>(s: Store<K>, cls: seq<seq<Handle>>, key: K)
    requires Accounts(s.counts, s.slots, cls)
    requires key in s.slots && s.slots[key].res.Ptr?
    requires ClaimCount(cls, s.slots[key].res.id) == 0
    ensures Sweep(s).slots[key].res.Null?
    ensures var a := Retrieve(Sweep(s), key).0;
      a == Ok(|s.counts|) && a.value != s.slots[key].res.id && ClaimCount(cls, a.value) == 0
  {
    SweepEvictsExactlyUnclaimed(s.counts, s.slots, cls, key);
    UnclaimedBeyond(cls, |s.counts|, |s.counts|);
  }

  /**
   * A claimed asset is never evicted: its slot is not the sole holder, so after the sweep
   * the next retrieval returns the claimed instance itself and loads nothing.
   */
  lemma ClaimedNotEvicted<K>(s: Store<K>, cls: seq<seq<Handle>>, key: K)
    requires Accounts(s.counts, s.slots, cls)
    requires key in s.slots && s.slots[key].res.Ptr?
    requires ClaimCount(cls, s.slots[key].res.id) > 0
    ensures Retrieve(Sweep(s), key) == (Ok(s.slots[key].res.id), Sweep(s))
  {
    SweepEvictsExactlyUnclaimed(s.counts, s.slots, cls, key);
  }

  /**
   * disownAllResources, then unloadAllUnused, then retrieveResource: once the only claims
   * on a loaded asset are dropped, the sweep evicts it and the retrieval loads a new
   * instance, different from the one that was claimed.
   */
  lemma DisownEvictReloadsFresh<K>(s: Store<K>, cls: seq<seq<Handle>>, i: nat, key: K)
    requires Accounts(s.counts, s.slots, cls)
    requires i < |cls| && key in s.slots && s.slots[key].res.Ptr?
    requires ClaimCount(cls[i := []], s.slots[key].res.id) == 0
    ensures var a := Retrieve(Sweep(Store(s.slots, Released(s.counts, cls[i]))), key).0;
      a == Ok(|s.counts|) && a.value != s.slots[key].res.id
  {
    DisownKeepsAccounts(s.counts, s.slots, cls, i);
    EvictedReloadsFresh(Store(s.slots, Released(s.counts, cls[i])), cls[i := []], key);
  }
}

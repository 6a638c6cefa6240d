/**
 * Scene-index membership of a drawable (`MonitoredDrawable`).  A drawable carries a depth
 * layer, a texture id and a pointer to the `LayerGroup` that batches drawables for
 * rendering.  The group's index files each drawable under the key (layer, texture id);
 * every setter that changes one of the three keeps the drawable filed under its current
 * key, by erasing it under the old key and inserting it under the new one.
 *
 * The layer is a float in the program; it is only compared with `!=` and used as part of
 * a key, so here it is an integer standing for any value with equality.
 */
module Drawables {

  /** A depth layer, compared only for equality. */
  type Layer = int

  /** The key a group files a drawable under. */
  datatype Key = Key(z: Layer, texId: nat)

  /** A group's index: the drawables filed under each key (a missing key files none). */
  type Index = map<Key, set<MonitoredDrawable>>

  /** The drawables filed under k. */
  function Members(idx: Index, k: Key): set<MonitoredDrawable>
  {
    if k in idx then idx[k] else {}
  }

  /** insertDrawable: d is filed under k as well; nothing else changes. */
  function Inserted(idx: Index, k: Key, d: MonitoredDrawable): (r: Index)
    ensures Members(r, k) == Members(idx, k) + {d}
    ensures forall k' :: k' != k ==> Members(r, k') == Members(idx, k')
  {
    idx[k := Members(idx, k) + {d}]
  }

  /** eraseDrawable: d is no longer filed under k; nothing else changes. */
  function Erased(idx: Index, k: Key, d: MonitoredDrawable): (r: Index)
    ensures Members(r, k) == Members(idx, k) - {d}
    ensures forall k' :: k' != k ==> Members(r, k') == Members(idx, k')
  {
    idx[k := Members(idx, k) - {d}]
  }

  /** d is filed in idx under `at` and under no other key. */
  ghost predicate FiledOnlyUnder(idx: Index, d: MonitoredDrawable, at: Key)
  {
    forall k :: d in Members(idx, k) <==> k == at
  }

  /** d is filed in idx under no key at all. */
  ghost predicate Absent(idx: Index, d: MonitoredDrawable)
  {
    forall k :: d !in Members(idx, k)
  }

  /**
   * The erase-then-insert pair of a setter: if d was filed only under `from`, it is now
   * filed only under `to`, and every other drawable is filed exactly as before.
   */
  lemma MoveRefiles(idx: Index, d: MonitoredDrawable, from: Key, to: Key)
    requires FiledOnlyUnder(idx, d, from)
    ensures FiledOnlyUnder(Inserted(Erased(idx, from, d), to, d), d, to)
    ensures forall k, d' :: d' != d ==>
      (d' in Members(Inserted(Erased(idx, from, d), to, d), k) <==> d' in Members(idx, k))
  {
    var mid := Erased(idx, from, d);
    assert Absent(mid, d);
  }

  /** Erasing d under the only key it is filed under leaves it filed nowhere. */
  lemma EraseUnfiles(idx: Index, d: MonitoredDrawable, at: Key)
    requires FiledOnlyUnder(idx, d, at)
    ensures Absent(Erased(idx, at, d), d)
  {
  }

  /** LayerGroup, seen only through the two operations drawables call on it. */
  class LayerGroup {
    ghost var index: Index

    constructor ()
      ensures index == map[]
    {
      index := map[];
    }

    method InsertDrawable(z: Layer, texId: nat, d: MonitoredDrawable)
      modifies this
      ensures index == Inserted(old(index), Key(z, texId), d)
    {
      index := Inserted(index, Key(z, texId), d);
    }

    method EraseDrawable(z: Layer, texId: nat, d: MonitoredDrawable)
      modifies this
      ensures index == Erased(old(index), Key(z, texId), d)
    {
      index := Erased(index, Key(z, texId), d);
    }
  }

  class MonitoredDrawable {
    var zLayer: Layer
    var texId: nat
    var group: LayerGroup?

    /** The key the drawable should be filed under. */
    function CurrentKey(): Key
      reads this
    {
      Key(zLayer, texId)
    }

    /** The drawable is filed in its group, if it has one, under its current key only. */
    ghost predicate Filed()
      reads this, group
    {
      group != null ==> FiledOnlyUnder(group.index, this, CurrentKey())
    }

    /** A new drawable: layer 0, texture 0, in no group (and so trivially filed). */
    constructor ()
      ensures zLayer == 0 && texId == 0 && group == null
      ensures Filed()
    {
      zLayer := 0;
      texId := 0;
      group := null;
    }

    /** getZLayer: the layer a filed drawable is listed under in its group. */
    function GetZLayer(): (z: Layer)
      reads this, group
      ensures Filed() && group != null ==> this in Members(group.index, Key(z, texId))
      ensures Filed() && group != null ==> forall z' :: this in Members(group.index, Key(z', texId)) ==> z' == z
    {
      zLayer
    }

    /** getLayerGroup: the group, if any, that lists a filed drawable under its current key. */
    function GetLayerGroup(): (g: LayerGroup?)
      reads this, group
      ensures g == null <==> group == null
      ensures Filed() && g != null ==> this in Members(g.index, CurrentKey())
    {
      group
    }

    /** getTextureId: the texture id a filed drawable is listed under in its group. */
    function GetTextureId(): (id: nat)
      reads this, group
      ensures Filed() && group != null ==> this in Members(group.index, Key(zLayer, id))
      ensures Filed() && group != null ==> forall id' :: this in Members(group.index, Key(zLayer, id')) ==> id' == id
    {
      texId
    }

    /** removeFromGroup, with a guard for a drawable that is in no group. */
    method RemoveFromGroup()
      modifies group
      ensures group != null ==> group.index == Erased(old(group.index), CurrentKey(), this)
    {
      if group != null {
        group.EraseDrawable(zLayer, texId, this);
      }
    }

    /** updateIntoGroup, with a guard for a drawable that is in no group. */
    method UpdateIntoGroup()
      modifies group
      ensures group != null ==> group.index == Inserted(old(group.index), CurrentKey(), this)
    {
      if group != null {
        group.InsertDrawable(zLayer, texId, this);
      }
    }

    /**
     * setZLayer: the same layer changes nothing; a new layer refiles the drawable from
     * (old layer, texture) to (z, texture) and leaves every other entry as it was.
     */
    method SetZLayer(z: Layer)
      requires Filed()
      modifies this, group
      ensures group == old(group) && texId == old(texId)
      ensures GetZLayer() == z
      ensures z == old(zLayer) ==> unchanged(this) && (group != null ==> unchanged(group))
      ensures z != old(zLayer) && group != null ==>
        group.index == Inserted(Erased(old(group.index), Key(old(zLayer), texId), this), Key(z, texId), this)
      ensures Filed()
    {
      if z != zLayer {
        if group != null {
          MoveRefiles(group.index, this, CurrentKey(), Key(z, texId));
        }
        RemoveFromGroup();
        zLayer := z;
        UpdateIntoGroup();
      }
    }

    /**
     * setTextureId: the same id changes nothing; a new id refiles the drawable from
     * (layer, old id) to (layer, id) and leaves every other entry as it was.
     */
    method SetTextureId(id: nat)
      requires Filed()
      modifies this, group
      ensures group == old(group) && zLayer == old(zLayer)
      ensures GetTextureId() == id
      ensures id == old(texId) ==> unchanged(this) && (group != null ==> unchanged(group))
      ensures id != old(texId) && group != null ==>
        group.index == Inserted(Erased(old(group.index), Key(zLayer, old(texId)), this), Key(zLayer, id), this)
      ensures Filed()
    {
      if texId != id {
        if group != null {
          MoveRefiles(group.index, this, CurrentKey(), Key(zLayer, id));
        }
        RemoveFromGroup();
        texId := id;
        UpdateIntoGroup();
      }
    }

    /**
     * setLayerGroup: the same group changes nothing; another group loses the drawable
     * entirely, and g files it under the unchanged (layer, texture).  It is filed in g under
     * that key only, unless g already listed it under another key.
     */
    method SetLayerGroup(g: LayerGroup)
      requires Filed()
      modifies this, group, g
      ensures zLayer == old(zLayer) && texId == old(texId)
      ensures GetLayerGroup() == g
      ensures g == old(group) ==> unchanged(this) && unchanged(g)
      ensures g != old(group) ==>
        && g.index == Inserted(old(g.index), CurrentKey(), this)
        && (old(group) != null ==>
              old(group).index == Erased(old(group.index), CurrentKey(), this)
              && Absent(old(group).index, this))
      ensures (forall k :: k != CurrentKey() ==> this !in Members(old(g.index), k)) ==> Filed()
    {
      if g != group {
        if group != null {
          EraseUnfiles(group.index, this, CurrentKey());
        }
        RemoveFromGroup();
        group := g;
        UpdateIntoGroup();
      }
    }

    /** ~MonitoredDrawable: the drawable is erased from its group and filed there no more. */
    method Destroy()
      requires Filed()
      modifies group
      ensures group != null ==>
        group.index == Erased(old(group.index), CurrentKey(), this) && Absent(group.index, this)
    {
      if group != null {
        EraseUnfiles(group.index, this, CurrentKey());
      }
      RemoveFromGroup();
    }

    /**
     * setLayerGroup as written: removeFromGroup and updateIntoGroup call through m_group
     * without looking at it, so changing the group needs a current group to erase from.
     */
    method SetLayerGroupAsWritten(g: LayerGroup)
      requires AttachDefinedAsWritten(group, g)
      modifies this, group, g
      ensures zLayer == old(zLayer) && texId == old(texId) && group == g
      ensures g != old(group) ==>
        && old(group).index == Erased(old(group.index), CurrentKey(), this)
        && g.index == Inserted(old(g.index), CurrentKey(), this)
    {
      if g != group {
        group.EraseDrawable(zLayer, texId, this);
        group := g;
        group.InsertDrawable(zLayer, texId, this);
      }
    }
  }

  /** setLayerGroup(g) as written dereferences no null pointer from a drawable in group current. */
  predicate AttachDefinedAsWritten(current: LayerGroup?, g: LayerGroup)
  {
    g != current ==> current != null
  }

  /**
   * A new drawable has no group, so its first setLayerGroup, as written, dereferences a
   * null m_group; the guarded SetLayerGroup attaches it.
   */
  lemma FirstAttachDereferencesNull(g: LayerGroup)
    ensures !AttachDefinedAsWritten(null, g)
  {
  }

  /**
   * The path from the constructor to the dereference: a drawable fresh from its
   * constructor reports no group, so setLayerGroup(g) as written is undefined on it.
   */
  method NewDrawableCannotAttachAsWritten(g: LayerGroup) returns (d: MonitoredDrawable)
    ensures fresh(d) && d.GetLayerGroup() == null
    ensures !AttachDefinedAsWritten(d.GetLayerGroup(), g)
  {
    d := new MonitoredDrawable();
    FirstAttachDereferencesNull(g);
  }
}

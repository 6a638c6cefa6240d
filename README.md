# Resource cache and scene-index membership of Abaixo

This project models two small pieces of the Abaixo game engine in Dafny. It proves
properties of the model.

1. **The resource cache** (`sketches/resourcemanager.cpp`). It has three parts.
   - `ResourceHolder`, the *slot*, holds one asset. It loads the asset lazily through a
     `shared_ptr` and drops its pointer when no one else holds the asset.
   - `ResourceManager`, the *registry*, is a `std::map` from key to slot.
   - `ResourceOwner`, the *extender*, keeps type-erased claims on assets so that they
     stay alive.

   Reference counting is made explicit. Every `make_shared` creates an instance whose
   id is the number of instances created before it. The class `RefCounts.UseCounts`
   keeps the use count of every instance, like the shared_ptr control blocks.
   `shared_ptr::unique()` is `Unique`: the handle is non-null and its count is 1.
   `Accounting.Accounts` is the invariant that gives those counts a meaning. The count
   of an instance is 1 if a slot points at it, plus the number of claims that point at
   it.
2. **Scene-index membership** (`Sketches/monitoreddrawable.cpp`). A `MonitoredDrawable`
   keeps its entry in a `LayerGroup` index filed under its current (layer, texture id).
   It does this with an erase-then-insert pair whenever a setter changes the layer, the
   texture or the group.

Files:
- `refcount.dfy` (module `RefCounts`): handles, use counts, and copying and destroying
  handles.
- `accounting.dfy` (module `Accounting`): the value view of the cache and the
  `Accounts` invariant. It also has the functions that specify registration, retrieval
  and the eviction sweep, and the lemmas about them.
- `resources.dfy` (module `Resources`): the classes `Slot`, `Owner` and `Registry`.
  Each method states its new state as one of those functions applied to the old state.
- `drawables.dfy` (module `Drawables`): `LayerGroup` with its index as a ghost map, and
  `MonitoredDrawable`.
- `catalog.dfy` (module `Catalog`): the Pix/Chip/Heevahava registrations as a concrete
  scenario.

## Model

| member | source | states |
|---|---|---|
| `RefCounts.Unique` | sketches/resourcemanager.cpp:57 | `unique()` holds exactly when h is a live handle whose destruction would leave its instance with no holder. It is false for null. |
| `RefCounts.Retained` | sketches/resourcemanager.cpp:80 | Copying a handle gives its instance exactly one more holder and leaves every other count alone. Copying null changes nothing. |
| `RefCounts.ReleasedOne` | sketches/resourcemanager.cpp:58 | Destroying a live handle lowers its instance's count by exactly one and leaves the others alone. A count never goes below zero. |
| `RefCounts.Released` | sketches/resourcemanager.cpp:34 | Destroying a whole claim vector lowers each instance's count by the number of handles to it in the vector, provided the counts cover those handles. |
| `RefCounts.UseCounts.MakeShared` | sketches/resourcemanager.cpp:114 | `make_shared` returns a handle to an instance whose id was never used before. That instance's count is 1. No other count changes. |
| `RefCounts.UseCounts.Retain` | sketches/resourcemanager.cpp:80 | The control blocks after a handle is copied. |
| `RefCounts.UseCounts.Release` | sketches/resourcemanager.cpp:58 | The control blocks after a handle is overwritten with null. |
| `RefCounts.UseCounts.ReleaseAll` | sketches/resourcemanager.cpp:34 | The control blocks after every claim of a vector is destroyed. |
| `Accounting.Load` | sketches/resourcemanager.cpp:112-118 | `onLoadResource` gives the slot the one handle to a brand-new instance. The slot keeps its token and no other slot changes. The handle it overwrites is destroyed: the old instance loses exactly one holder, and loading an unloaded slot only appends the new count. Loading keeps the slots tracked (no shared instance, no unknown id). |
| `Accounting.Register` | sketches/resourcemanager.cpp:132-150 | Registration fails with `DuplicateKey` exactly when the key is present, and then changes nothing. Otherwise the key set grows by exactly that key and the existing entries are untouched. The new slot has the token and is loaded exactly when `loadASAP` is set, with a new instance. |
| `Accounting.Retrieve` | sketches/resourcemanager.cpp:152-154 | Retrieval fails with `KeyNotFound` exactly when the key is absent, and then creates nothing. Otherwise it returns the instance the slot holds afterwards. A loaded slot is returned as is, with no reload. An unloaded slot gets one new instance. |
| `Accounting.SweepSlot` | sketches/resourcemanager.cpp:56-59 | `unloadIfUnused` leaves a slot null exactly when it was null or its handle was unique. Otherwise the slot is unchanged. The token is always kept. |
| `Accounting.Sweep` | sketches/resourcemanager.cpp:156-161 | `unloadAllUnused` keeps the key set, every token and the number of instances. Each slot is either unloaded or unchanged. |
| `Accounting.RetrieveTwiceSameInstance` | sketches/resourcemanager.cpp:61-66 | Two retrievals of the same key with nothing in between return the same instance. The second changes nothing, and the pair loads at most once. |
| `Accounting.AddKeepsAccounts` | sketches/resourcemanager.cpp:133-137 | Adding an unloaded slot under a new key keeps the use counts in agreement with the holders. |
| `Accounting.LoadKeepsAccounts` | sketches/resourcemanager.cpp:112-118 | Loading an unloaded slot keeps the counts in agreement with the holders. The new instance has exactly one holder. |
| `Accounting.RegisterKeepsAccounts` | sketches/resourcemanager.cpp:132-150 | Every outcome of `registerResource` keeps the counts in agreement with the holders. |
| `Accounting.RetrieveKeepsAccounts` | sketches/resourcemanager.cpp:152-154 | Every outcome of `retrieveResource` keeps the counts in agreement with the holders. |
| `Accounting.OwnKeepsAccounts` | sketches/resourcemanager.cpp:79-81 | Appending a copy of a slot's handle to an extender's claims keeps the counts in agreement with the holders. That instance gains one holder. |
| `Accounting.DisownKeepsAccounts` | sketches/resourcemanager.cpp:33-35 | Clearing an extender's claims keeps the counts in agreement with the holders. Each instance loses exactly the claims it had there. |
| `Accounting.SoleHolderIffUnclaimed` | sketches/resourcemanager.cpp:57 | For a loaded slot, `unique()` holds exactly when no claim points at its instance. |
| `Accounting.ClaimKeepsAlive` | sketches/resourcemanager.cpp:18 | A live claim keeps its instance's use count at 1 or more. |
| `Accounting.FreshInstanceUnheld` | sketches/resourcemanager.cpp:114 | The next instance to be created is held by no slot and by no claim. |
| `Accounting.SweepStep` | sketches/resourcemanager.cpp:157-160 | Visiting one more slot in the sweep is decided by the counts from before the sweep. So the order in which the map is visited does not matter. |
| `Accounting.SweepKeepsAccounts` | sketches/resourcemanager.cpp:156-161 | The sweep keeps the counts in agreement with the holders. An evicted instance is left with no holder. |
| `Accounting.SweepLeavesNoSoleHolder` | sketches/resourcemanager.cpp:156-161 | After the sweep, no slot is the sole holder of its instance. |
| `Accounting.SweepEvictsExactlyUnclaimed` | sketches/resourcemanager.cpp:56-59 | An unloaded slot stays unloaded. A loaded slot is unloaded exactly when no claim points at its instance. Otherwise it keeps the same instance and that instance's count. |
| `Accounting.SweepKeepsClaimedAlive` | sketches/resourcemanager.cpp:56-59 | A claimed instance keeps its count (at least 1) through the sweep, whether or not a slot holds it. |
| `Accounting.SweepIdempotent` | sketches/resourcemanager.cpp:156-161 | A second sweep right after the first changes nothing. |
| `Accounting.EvictedReloadsFresh` | sketches/resourcemanager.cpp:56-66 | An unclaimed loaded asset is evicted. The next retrieval of its key loads a new instance, which is neither the evicted one nor a claimed one. |
| `Accounting.ClaimedNotEvicted` | sketches/resourcemanager.cpp:56-59 | A claimed asset is not evicted. The next retrieval returns the claimed instance itself and loads nothing. |
| `Accounting.DisownEvictReloadsFresh` | sketches/resourcemanager.cpp:33-35 | Suppose one extender held the only claims on an asset. After that extender disowns all, a sweep evicts the asset. The next retrieval yields a new id that differs from the claimed one. |
| `Resources.Slot.constructor` | sketches/resourcemanager.cpp:133-137 | The slot built inside `emplace` has no token and holds nothing. |
| `Resources.Slot.SetToken` | sketches/resourcemanager.cpp:107-110 | `setToken` records the folder token and leaves the handle alone. |
| `Resources.Slot.UnloadIfUnused` | sketches/resourcemanager.cpp:56-59 | The slot becomes `SweepSlot` of its old state. The instance's count drops to 0 exactly when the slot dropped a unique handle. |
| `Resources.Slot.OnLoadResource` | sketches/resourcemanager.cpp:112-118 | The slot points at a new instance. The handle it overwrites is released. The token is kept. |
| `Resources.Slot.GetResource` | sketches/resourcemanager.cpp:61-66 | A loaded slot returns its instance and changes no count. An unloaded slot loads exactly one new instance and returns it. |
| `Resources.Slot.MakeOwner` | sketches/resourcemanager.cpp:79-81 | The owner's claims grow by a copy of the slot's handle, which is null if the slot is unloaded. That instance gains one holder. |
| `Resources.Owner.constructor` | sketches/resourcemanager.cpp:23 | A new extender holds no claims. |
| `Resources.Owner.OwnResource` | sketches/resourcemanager.cpp:29-31 | Exactly one claim, a copy of the slot's current handle, is appended. The slot is unchanged, and only that instance's count rises, by one. |
| `Resources.Owner.DisownAllResources` | sketches/resourcemanager.cpp:33-35 | The claims become empty. The counts lose exactly the old claims. No slot changes. |
| `Resources.Registry.constructor` | sketches/resourcemanager.cpp:164 | A new registry has no entries. |
| `Resources.Registry.RegisterResource` | sketches/resourcemanager.cpp:132-150 | The registry and control blocks move exactly as `Register` says. A duplicate key leaves the map as it was. A new key gets a fresh slot, and every existing key keeps its own slot. |
| `Resources.Registry.RetrieveResource` | sketches/resourcemanager.cpp:152-154 | The registry and control blocks move exactly as `Retrieve` says. The map's slots are the same objects. |
| `Resources.Registry.UnloadAllUnused` | sketches/resourcemanager.cpp:156-161 | The registry and control blocks become `Sweep` of the old state, whatever the visiting order. Afterwards no slot's handle is unique. |
| `Drawables.Inserted` | Sketches/monitoreddrawable.cpp:92 | `insertDrawable` adds the drawable under that key. Every other key's set is unchanged. |
| `Drawables.Erased` | Sketches/monitoreddrawable.cpp:88 | `eraseDrawable` removes the drawable under that key. Every other key's set is unchanged. |
| `Drawables.MoveRefiles` | Sketches/monitoreddrawable.cpp:45-51 | Take a drawable filed only under the old key. Erasing it there and inserting it under the new key leaves it filed only under the new key. Every other drawable is filed as before. |
| `Drawables.EraseUnfiles` | Sketches/monitoreddrawable.cpp:87-89 | Erasing a drawable under the only key it is filed under leaves it filed nowhere. |
| `Drawables.LayerGroup.InsertDrawable` | Sketches/monitoreddrawable.cpp:92 | The group's index becomes `Inserted` of the old index. |
| `Drawables.LayerGroup.EraseDrawable` | Sketches/monitoreddrawable.cpp:88 | The group's index becomes `Erased` of the old index. |
| `Drawables.MonitoredDrawable.constructor` | Sketches/monitoreddrawable.cpp:33-37 | A new drawable has layer 0, texture 0 and no group. |
| `Drawables.MonitoredDrawable.GetZLayer` | Sketches/monitoreddrawable.cpp:53-55 | For a filed drawable in a group, the layer returned is the one, and the only one, it is listed under with its texture id. |
| `Drawables.MonitoredDrawable.GetLayerGroup` | Sketches/monitoreddrawable.cpp:67-69 | Null exactly when the drawable is in no group. Otherwise it is the group that lists the filed drawable under its current key. |
| `Drawables.MonitoredDrawable.GetTextureId` | Sketches/monitoreddrawable.cpp:81-83 | For a filed drawable in a group, the id returned is the one, and the only one, it is listed under with its layer. |
| `Drawables.MonitoredDrawable.RemoveFromGroup` | Sketches/monitoreddrawable.cpp:87-89 | The current group, if any, stops filing the drawable under its current key. |
| `Drawables.MonitoredDrawable.UpdateIntoGroup` | Sketches/monitoreddrawable.cpp:91-93 | The current group, if any, files the drawable under its current key. |
| `Drawables.MonitoredDrawable.SetZLayer` | Sketches/monitoreddrawable.cpp:45-51 | The same layer changes nothing, neither the fields nor any index. A new layer moves the drawable from (old layer, texture) to (z, texture), and nothing else in the index changes. `GetZLayer()` is then z, and the drawable is filed under its current key only. |
| `Drawables.MonitoredDrawable.SetTextureId` | Sketches/monitoreddrawable.cpp:73-79 | The same id changes nothing. A new id moves the drawable from (layer, old id) to (layer, id), and nothing else changes. `GetTextureId()` is then id, and the drawable is filed under its current key only. |
| `Drawables.MonitoredDrawable.SetLayerGroup` | Sketches/monitoreddrawable.cpp:59-65 | The same group changes nothing. Another group is used as follows. The old group loses the drawable under every key. The new group gains it under the unchanged (layer, texture). `GetLayerGroup()` is then g. |
| `Drawables.MonitoredDrawable.Destroy` | Sketches/monitoreddrawable.cpp:39-41 | The destructor erases the drawable from its group. The group then files it nowhere. |
| `Drawables.MonitoredDrawable.SetLayerGroupAsWritten` | Sketches/monitoreddrawable.cpp:59-65 | As written, changing the group erases through the current `m_group` without a check. So it needs a current group, and then it moves the drawable between the groups. |
| `Drawables.FirstAttachDereferencesNull` | Sketches/monitoreddrawable.cpp:36 | A drawable with no group (the state the constructor leaves) does not meet what the as-written `setLayerGroup` needs. |
| `Drawables.NewDrawableCannotAttachAsWritten` | Sketches/monitoreddrawable.cpp:33-37 | A drawable fresh from the constructor reports no group, so `setLayerGroup(g)` as written, with `&g != m_group`, reaches the unchecked `m_group->eraseDrawable` (line 88). |
| `Catalog.RegisterEager` | sketches/resourcemanager.cpp:214 | One macro use registers the animation with loadASAP set. Afterwards the key is present and the other entries are kept. A new key is bound to its folder and holds the next instance, with one new count. |
| `Catalog.RegisterGlobalResources` | sketches/resourcemanager.cpp:212-220 | Afterwards Pix, Chip and Heevahava are all registered and the existing entries are kept. Each one that was new is bound to its folder (`anim-pix`, `anim-chip`, `anim-heeva`) and is loaded. |
| `Catalog.GlobalRegistrationKeepsTracked` | sketches/resourcemanager.cpp:212-220 | Registering the catalogue keeps every loaded slot on its own instance with a known id. |
| `Catalog.GlobalResourcesLoadedEagerly` | sketches/resourcemanager.cpp:212-220 | Pix, Chip and Heevahava are registered eagerly, which creates three instances before any retrieval. Retrieving Pix returns the instance loaded at registration and loads nothing. Registering Pix again is refused and changes nothing. |
| `Catalog.LazyRegistrationLoadsOnFirstRetrieval` | sketches/resourcemanager.cpp:143-149 | A lazy registration loads nothing. The first retrieval loads once, and the second returns the same instance. |

Deviations from the source:
- The sketch does not compile as written. The model follows the evident intent at each
  of these points:
  - `friend ResourceHolder` (26) and `friend class ResourceManager` (84): the
    access-control plumbing is not modelled.
  - `unique_ptr<SharedPtrWrap>` (23) is read as a vector of claims (`SharedPtrHolder`).
  - `resHolder.clear()` (34) is read as `m_resources.clear()`.
  - `typedef T Type` (53) is read as `R`.
  - `emplace` (80) is read as `emplace_back`.
  - `auto res&` (113) is read as `auto& res`.
  - `result.iter` (143) is read as `result.first`.
  - The stray `;` at 152 is ignored.
  - `std::map<Id, ...>` (164) is read as `K`.
- In the drawable sketch, `removeFromGroup` and `updateIntoGroup`
  (monitoreddrawable.cpp:87-93) dereference `m_group` without a check. The model's
  `RemoveFromGroup` and `UpdateIntoGroup` skip the group call when there is no group
  (see Findings).
- Claims and eviction, as the code does them:
  - `ownResource` calls `makeOwner`, which copies `m_res` as it is. Owning an unloaded
    slot therefore stores a null claim; it does not load the slot.
  - With `unique()` as the eviction test, a slot whose instance is claimed is never the
    sole holder, so it is never evicted (`ClaimedNotEvicted`). A new instance appears
    only after the claims are dropped (`DisownEvictReloadsFresh`).
  - A duplicate registration is refused by `ABX_ASSERT`. The model treats that as a
    refusal that changes nothing. It does not model a build in which the assertion is
    compiled out and the existing slot's token would be reset.

## Left out

- Streams: `S::open`, `close`, `getStream`, `AnimationGroup::makeFilePath`,
  `setFolderName` and `loadFromStream`. They are external collaborators whose code is
  not part of this model. A load is "create one new instance", and it always succeeds.
- Load failure: it is not modelled, since the way `loadFromStream` fails is not visible.
  `onLoadResource` assigns `m_res` before `loadFromStream` runs, so a throwing load
  would leave the slot loaded with a partly populated asset.
- `setToken` builds the stream path from `token` after moving it into `m_folderToken`
  (resourcemanager.cpp:108-109). The path is therefore built from a moved-from string.
  This is not modelled because the stream is not modelled.
- `MasterManager` and the `_` macro table (resourcemanager.cpp:186-220) are
  bootstrapping code. They refer to an undeclared `our_mgr`. Their three registrations
  appear only as the `Catalog` scenario.
- Access control (`friend`, `makeFriendly`, `sf::NonCopyable`) and the virtual-destructor
  type erasure of `SharedPtrHolder`/`SharedPtrWrap`. A claim is just a handle, and an
  extender's claims are a sequence of handles.
- Destruction of the registry and its slots, and the closing of their streams. Memory
  beyond the use counts.
- The world is one registry plus any number of extenders. The invariant `Accounts` is
  stated over the values the objects hold. Those values are `Registry.View()`, each
  `Owner.claims`, and `UseCounts.counts`. Each method's postcondition is the transition
  whose preservation of `Accounts` the lemmas prove. Several registries sharing one set
  of control blocks are not modelled.
- `Resources.Registry.UnloadAllUnused` requires `Tracked`: every slot points at an
  instance that was created, and no two slots point at the same one. This holds of every
  state that `Register` and `Retrieve` produce from an empty registry. Without it, the
  outcome of the sweep could depend on the order of visiting.
- `LayerGroup` internals are not modelled, beyond filing and unfiling a drawable under a
  key. The layer is an integer that stands for a float compared only with `!=`. Float
  NaN, where `!=` is always true, is not modelled.
- `size_t` texture ids are unbounded naturals.
- `Drawables.MonitoredDrawable.SetLayerGroup`: promises that the new group files the
  drawable under its key only when that group did not already list it under another
  key. The model does not track which drawables point at which group.

## Findings

| source | as written | input that shows it | evidently intended | confidence | as-written member | corrected member |
|---|---|---|---|---|---|---|
| Sketches/monitoreddrawable.cpp:87-93 | `removeFromGroup` and `updateIntoGroup` call `m_group->eraseDrawable` and `m_group->insertDrawable` without checking `m_group` | A newly constructed drawable (`m_group == nullptr`, line 36) passed to `setLayerGroup(g)`: the call enters `removeFromGroup` with a null `m_group`. Destroying a drawable that never joined a group does the same. | With no current group, skip the erase and insert. Then the first `setLayerGroup` attaches the drawable, filed under its current key. | not executed | `Drawables.MonitoredDrawable.SetLayerGroupAsWritten`, `Drawables.FirstAttachDereferencesNull`, `Drawables.NewDrawableCannotAttachAsWritten` | `Drawables.MonitoredDrawable.SetLayerGroup` |

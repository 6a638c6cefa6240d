/**
 * The animation catalogue as a concrete run of the registry: the three animations that
 * `registerGlobalResources` registers, each with loadASAP set, and a lazily registered
 * variant for contrast.
 */
module Catalog {
  import opened RefCounts
  import opened Accounting

  datatype Animations = Pix | Chip | Heevahava

  /** The folder token each animation is loaded from. */
  function Folder(a: Animations): string
  {
    match a
    case Pix => "anim-pix"
    case Chip => "anim-chip"
    case Heevahava => "anim-heeva"
  }

  /**
   * One use of the registration macro: the animation is registered with its folder and
   * loadASAP set.  Afterwards it is registered; if it was new, it is bound to its folder and
   * holds the next instance; the existing entries are kept.
   */
  function RegisterEager(s: Store<Animations>, a: Animations): (r: Store<Animations>)
    ensures r.slots.Keys == s.slots.Keys + {a}
    ensures forall k :: k in s.slots ==> r.slots[k] == s.slots[k]
    ensures a !in s.slots ==> r.slots[a] == SlotView(Folder(a), Ptr(|s.counts|)) && r.counts == s.counts + [1]
    ensures Tracked(s) ==> Tracked(r)
  {
    Register(s, a, Folder(a), true).1
  }

  /**
   * registerGlobalResources: Pix, Chip and Heevahava with their folders, loaded at once.
   * Each animation ends up registered; one that was not registered before is bound to its
   * folder and loaded; the existing entries are kept.
   */
  function RegisterGlobalResources(s: Store<Animations>): (r: Store<Animations>)
    ensures r.slots.Keys == s.slots.Keys + {Pix, Chip, Heevahava}
    ensures forall k :: k in s.slots ==> r.slots[k] == s.slots[k]
    ensures Pix !in s.slots ==> r.slots[Pix].token == Folder(Pix) && r.slots[Pix].res.Ptr?
    ensures Chip !in s.slots ==> r.slots[Chip].token == Folder(Chip) && r.slots[Chip].res.Ptr?
    ensures Heevahava !in s.slots ==> r.slots[Heevahava].token == Folder(Heevahava) && r.slots[Heevahava].res.Ptr?
  {
    var s1 := RegisterEager(s, Pix);
    var s2 := RegisterEager(s1, Chip);
    var s3 := RegisterEager(s2, Heevahava);
    assert Pix in s1.slots && s3.slots[Pix] == s1.slots[Pix];
    assert Chip in s2.slots && s3.slots[Chip] == s2.slots[Chip];
    s3
  }

  /** Registering the catalogue keeps every loaded slot on its own, existing instance. */
  lemma GlobalRegistrationKeepsTracked(s: Store<Animations>)
    requires Tracked(s)
    ensures Tracked(RegisterGlobalResources(s))
  {
    var s1 := RegisterEager(s, Pix);
    var s2 := RegisterEager(s1, Chip);
    assert Tracked(s2);
  }

  /**
   * Eager registration loads during registration: the catalogue holds three instances
   * before anything is retrieved, and retrieving Pix returns the instance loaded for it
   * without a second load.  Registering Pix again is refused.
   */
  lemma GlobalResourcesLoadedEagerly()
    ensures var s := RegisterGlobalResources(Store(map[], []));
      && s.slots.Keys == {Pix, Chip, Heevahava}
      && s.counts == [1, 1, 1]
      && s.slots[Pix] == SlotView("anim-pix", Ptr(0))
      && Retrieve(s, Pix) == (Ok(0), s)
      && Register(s, Pix, "anim-pix", false) == (Fail(DuplicateKey), s)
  {
    var s1 := Register(Store(map[], []), Pix, "anim-pix", true).1;
    var s2 := Register(s1, Chip, "anim-chip", true).1;
    assert s2.slots[Pix] == SlotView("anim-pix", Ptr(0));
  }

  /**
   * Lazy registration loads nothing until the first retrieval, which loads once; the
   * second retrieval returns the same instance.
   */
  lemma LazyRegistrationLoadsOnFirstRetrieval()
    ensures var s := Register(Store(map[], []), Chip, "anim-chip", false).1;
      && s.slots[Chip] == SlotView("anim-chip", Null)
      && s.counts == []
      && Retrieve(s, Chip).0 == Ok(0)
      && Retrieve(Retrieve(s, Chip).1, Chip) == (Ok(0), Retrieve(s, Chip).1)
  {
  }
}

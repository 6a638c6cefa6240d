/**
 * Reference counting as the resource cache relies on it: the part of std::shared_ptr
 * that makes `unique()` meaningful.  Every `make_shared` creates one instance with its
 * own use count; copying a handle raises that count, destroying or overwriting a
 * handle lowers it.  The counts of all instances ever created live in one table,
 * `UseCounts`, indexed by instance id.
 */
module RefCounts {

  /** Identity of one asset instance: the n-th instance created has id n. */
  type InstanceId = nat

  /** A shared_ptr value: null, or a pointer to one instance. */
  datatype Handle = Null | Ptr(id: InstanceId)

  /** Number of handles in hs that point at instance id. */
  function Occurrences(hs: seq<Handle>, id: InstanceId): nat
  {
    multiset(hs)[Ptr(id)]
  }

  /** h is null or points at one of the first n instances. */
  predicate Below(h: Handle, n: nat)
  {
    h.Ptr? ==> h.id < n
  }

  predicate AllBelow(hs: seq<Handle>, n: nat)
  {
    forall j :: 0 <= j < |hs| ==> Below(hs[j], n)
  }

  /** The use counts after one more copy of h is made; copying null changes nothing. */
  function Retained(counts: seq<nat>, h: Handle): (r: seq<nat>)
    ensures |r| == |counts|
    ensures forall id :: 0 <= id < |r| ==> r[id] == counts[id] + Occurrences([h], id)
  {
    if h.Ptr? && h.id < |counts| then counts[h.id := counts[h.id] + 1] else counts
  }

  /**
   * shared_ptr::unique(): h is the only handle to its instance, so destroying h would
   * leave the instance with no holder; false for null.
   */
  predicate Unique(counts: seq<nat>, h: Handle)
    ensures Unique(counts, h) <==> h.Ptr? && Releasable(counts, h) && ReleasedOne(counts, h)[h.id] == 0
  {
    h.Ptr? && h.id < |counts| && counts[h.id] == 1
  }

  /** A live handle keeps its instance's count positive, so destroying it is defined. */
  predicate Releasable(counts: seq<nat>, h: Handle)
  {
    h.Ptr? ==> h.id < |counts| && counts[h.id] >= 1
  }

  /**
   * The use counts after handle h is destroyed; destroying null changes nothing.  A count
   * never goes below zero; when h is a live handle the count drops by exactly one.
   */
  function ReleasedOne(counts: seq<nat>, h: Handle): (r: seq<nat>)
    ensures |r| == |counts|
    ensures Releasable(counts, h) ==>
      forall id :: 0 <= id < |r| ==> r[id] + Occurrences([h], id) == counts[id]
  {
    if h.Ptr? && h.id < |counts| && counts[h.id] >= 1 then counts[h.id := counts[h.id] - 1] else counts
  }

  /** Every instance has at least as many counted holders as hs has handles to it. */
  predicate CoveredBy(counts: seq<nat>, hs: seq<Handle>)
  {
    && AllBelow(hs, |counts|)
    && forall id :: 0 <= id < |counts| ==> Occurrences(hs, id) <= counts[id]
  }

  /**
   * The use counts after every handle of hs is destroyed, first to last (vector::clear).
   * When the counts cover hs, each instance loses exactly its handles in hs.
   */
  function Released(counts: seq<nat>, hs: seq<Handle>): (r: seq<nat>)
    ensures |r| == |counts|
    ensures CoveredBy(counts, hs) ==>
      forall id :: 0 <= id < |r| ==> r[id] + Occurrences(hs, id) == counts[id]
    decreases |hs|
  {
    if hs == [] then counts
    else
      assert hs == [hs[0]] + hs[1..];
      Released(ReleasedOne(counts, hs[0]), hs[1..])
  }

  /** No handle among the first-n-bounded handles hs points at an instance numbered n or more. */
  lemma {:induction false} NoOccurrenceBeyond(hs: seq<Handle>, n: nat, id: InstanceId)
    requires AllBelow(hs, n)
    requires n <= id
    ensures Occurrences(hs, id) == 0
  {
  }

  /**
   * The control blocks of every instance created so far.  `counts[id]` is the use count of
   * instance id, and `|counts|` is the number of instances ever created (loads performed).
   */
  class UseCounts {
    var counts: seq<nat>

    constructor ()
      ensures counts == []
    {
      counts := [];
    }

    /** make_shared: a brand-new instance, whose one handle is returned. */
    method MakeShared() returns (h: Handle)
      modifies this
      ensures h == Ptr(old(|counts|))
      ensures counts == old(counts) + [1]
    {
      h := Ptr(|counts|);
      counts := counts + [1];
    }

    /** Copying a handle. */
    method Retain(h: Handle)
      modifies this
      ensures counts == Retained(old(counts), h)
    {
      counts := Retained(counts, h);
    }

    /** Destroying or overwriting a handle. */
    method Release(h: Handle)
      modifies this
      ensures counts == ReleasedOne(old(counts), h)
    {
      counts := ReleasedOne(counts, h);
    }

    /** Destroying every handle of hs. */
    method ReleaseAll(hs: seq<Handle>)
      modifies this
      ensures counts == Released(old(counts), hs)
    {
      counts := Released(counts, hs);
    }
  }
}

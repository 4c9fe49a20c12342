/** Sorting that keeps equal elements in their order, as Python's `sorted` does. */
module StableSort {

  /** An order in which some elements may be level with each other. */
  ghost predicate WeakOrder<T(!new)>(lt: (T, T) -> bool)
  {
    && (forall a: T, b: T :: lt(a, b) ==> !lt(b, a))
    && (forall a: T, b: T, c: T :: lt(a, b) && !lt(c, b) ==> lt(a, c))
  }

  /** Where `e` goes in a sorted sequence: behind everything that it does not come before. */
  function Slot<T>(s: seq<T>, e: T, lt: (T, T) -> bool): (p: nat)
    ensures p <= |s|
    ensures forall i :: p <= i < |s| ==> lt(e, s[i])
    ensures p > 0 ==> !lt(e, s[p - 1])
  {
    if s == [] || !lt(e, s[|s| - 1]) then |s| else Slot(s[..|s| - 1], e, lt)
  }

  function Insert<T>(s: seq<T>, e: T, lt: (T, T) -> bool): seq<T>
  {
    s[..Slot(s, e, lt)] + [e] + s[Slot(s, e, lt)..]
  }

  function Sort<T>(s: seq<T>, lt: (T, T) -> bool): seq<T>
  {
    if s == [] then [] else Insert(Sort(s[..|s| - 1], lt), s[|s| - 1], lt)
  }

  /** No element comes before one in front of it. */
  ghost predicate InOrder<T>(s: seq<T>, lt: (T, T) -> bool)
  {
    forall i, j :: 0 <= i < j < |s| ==> !lt(s[j], s[i])
  }

  /** An element comes before nothing that stands in front of its place. */
  lemma SlotDivides<T(!new)>(s: seq<T>, e: T, lt: (T, T) -> bool, i: nat)
    requires WeakOrder(lt) && InOrder(s, lt) && i < Slot(s, e, lt)
    ensures !lt(e, s[i])
  {
  }

  lemma InsertInOrder<T(!new)>(s: seq<T>, e: T, lt: (T, T) -> bool)
    requires WeakOrder(lt) && InOrder(s, lt)
    ensures InOrder(Insert(s, e, lt), lt)
  {
    var p, r := Slot(s, e, lt), Insert(s, e, lt);
    forall i, j | 0 <= i < j < |r|
      ensures !lt(r[j], r[i])
    {
      if j == p {
        SlotDivides(s, e, lt, i);
      } else if i == p {
        assert lt(e, s[j - 1]);
      }
    }
  }

  lemma {:induction false} SortInOrder<T(!new)>(s: seq<T>, lt: (T, T) -> bool)
    requires WeakOrder(lt)
    ensures InOrder(Sort(s, lt), lt)
    decreases |s|
  {
    if s != [] {
      SortInOrder(s[..|s| - 1], lt);
      InsertInOrder(Sort(s[..|s| - 1], lt), s[|s| - 1], lt);
    }
  }

  lemma InsertPermutes<T>(s: seq<T>, e: T, lt: (T, T) -> bool)
    ensures multiset(Insert(s, e, lt)) == multiset(s) + multiset{e}
  {
    var p := Slot(s, e, lt);
    assert s == s[..p] + s[p..];
  }

  lemma {:induction false} SortPermutes<T>(s: seq<T>, lt: (T, T) -> bool)
    ensures multiset(Sort(s, lt)) == multiset(s)
    decreases |s|
  {
    if s != [] {
      var before, last := s[..|s| - 1], s[|s| - 1];
      SortPermutes(before, lt);
      InsertPermutes(Sort(before, lt), last, lt);
      assert s == before + [last];
    }
  }
}

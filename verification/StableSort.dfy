// Filtering, and the stable sort that Python's sorted performs.
module StableSort {

  function Filter<T>(s: seq<T>, p: T -> bool): seq<T> {
    if s == [] then []
    else Filter(s[..|s| - 1], p) + if p(s[|s| - 1]) then [s[|s| - 1]] else []
  }

  lemma {:induction false} FilterHolds<T(!new)>(s: seq<T>, p: T -> bool)
    ensures forall x :: x in Filter(s, p) <==> x in s && p(x)
    ensures |Filter(s, p)| <= |s|
  {
    if s != [] {
      FilterHolds(s[..|s| - 1], p);
      assert s == s[..|s| - 1] + [s[|s| - 1]];
    }
  }

  lemma {:induction false} FilterAppend<T(!new)>(a: seq<T>, b: seq<T>, p: T -> bool)
    ensures Filter(a + b, p) == Filter(a, p) + Filter(b, p)
  {
    if b == [] {
      assert a + b == a;
    } else {
      FilterAppend(a, b[..|b| - 1], p);
      assert (a + b)[..|a + b| - 1] == a + b[..|b| - 1];
    }
  }

  lemma FilterPush<T(!new)>(s: seq<T>, x: T, p: T -> bool)
    ensures Filter(s + [x], p) == if p(x) then Filter(s, p) + [x] else Filter(s, p)
  {
    assert (s + [x])[..|s|] == s;
  }

  // One step of a loop that collects what passes.
  lemma FilterStep<T(!new)>(s: seq<T>, i: nat, p: T -> bool)
    requires i < |s|
    ensures Filter(s[..i + 1], p) == if p(s[i]) then Filter(s[..i], p) + [s[i]] else Filter(s[..i], p)
  {
    assert s[..i + 1] == s[..i] + [s[i]];
    FilterPush(s[..i], s[i], p);
  }

  lemma FilterHead<T(!new)>(s: seq<T>, i: nat, p: T -> bool)
    requires i <= |s| && Filter(s[..i], p) != []
    ensures Filter(s, p) != [] && Filter(s, p)[0] == Filter(s[..i], p)[0]
  {
    FilterAppend(s[..i], s[i..], p);
    assert s == s[..i] + s[i..];
  }

  lemma {:induction false} FilterSame<T(!new)>(s: seq<T>, p: T -> bool, q: T -> bool)
    requires forall x :: x in s ==> p(x) == q(x)
    ensures Filter(s, p) == Filter(s, q)
  {
    if s != [] {
      FilterSame(s[..|s| - 1], p, q);
    }
  }

  lemma FilterNone<T(!new)>(s: seq<T>, p: T -> bool)
    requires forall x :: x in s ==> !p(x)
    ensures Filter(s, p) == []
  {
    FilterHolds(s, p);
    IsEmpty(Filter(s, p));
  }

  lemma ScanPieces<T(!new)>(before: seq<T>, stretch: seq<T>, after: seq<T>, p: T -> bool, q: T -> bool)
    requires forall x :: x in before ==> !p(x)
    requires forall x :: x in after ==> !p(x)
    requires forall x :: x in stretch ==> p(x) == q(x)
    ensures Filter(before + stretch + after, p) == Filter(stretch, q)
  {
    FilterNone(before, p);
    FilterNone(after, p);
    FilterSame(stretch, p, q);
    FilterAppend(before, stretch, p);
    FilterAppend(before + stretch, after, p);
  }

  lemma Pieces<T(!new)>(s: seq<T>, l: nat, r: nat, before: seq<T>, stretch: seq<T>, after: seq<T>)
    requires l <= r <= |s| && before == s[..l] && stretch == s[l..r] && after == s[r..]
    ensures s == before + stretch + after
    ensures forall x :: x in before ==> exists i :: 0 <= i < l && s[i] == x
    ensures forall x :: x in stretch ==> exists i :: l <= i < r && s[i] == x
    ensures forall x :: x in after ==> exists i :: r <= i < |s| && s[i] == x
  {
  }

  // Only the stretch that can hold matches needs to be scanned, with what is left of the condition.
  lemma ScanStretch<T(!new)>(s: seq<T>, l: nat, r: nat, p: T -> bool, q: T -> bool)
    requires l <= r <= |s|
    requires forall i :: 0 <= i < |s| ==> p(s[i]) == (l <= i < r && q(s[i]))
    ensures Filter(s[l..r], q) == Filter(s, p)
  {
    var before, stretch, after := s[..l], s[l..r], s[r..];
    Pieces(s, l, r, before, stretch, after);
    ScanPieces(before, stretch, after, p, q);
  }

  lemma IsEmpty<T(!new)>(s: seq<T>)
    ensures (forall x :: x !in s) ==> s == []
  {
    if s != [] {
      assert s[0] in s;
    }
  }

  /* ------------------------------------------------------------------------ sorting */

  ghost predicate TotalPreorder<T(!new)>(le: (T, T) -> bool) {
    && (forall x, y :: le(x, y) || le(y, x))
    && (forall x, y, z :: le(x, y) && le(y, z) ==> le(x, z))
  }

  ghost predicate Ordered<T>(s: seq<T>, le: (T, T) -> bool) {
    forall i, j :: 0 <= i < j < |s| ==> le(s[i], s[j])
  }

  // x goes behind everything that may stand before it.
  function Insert<T>(s: seq<T>, x: T, le: (T, T) -> bool): (r: seq<T>)
    ensures |r| == |s| + 1
  {
    if s == [] || le(s[|s| - 1], x) then s + [x]
    else Insert(s[..|s| - 1], x, le) + [s[|s| - 1]]
  }

  function Sort<T>(s: seq<T>, le: (T, T) -> bool): (r: seq<T>)
    ensures |r| == |s|
  {
    if s == [] then [] else Insert(Sort(s[..|s| - 1], le), s[|s| - 1], le)
  }

  lemma OrderedPush<T(!new)>(s: seq<T>, x: T, le: (T, T) -> bool)
    requires Ordered(s, le) && forall y :: y in s ==> le(y, x)
    ensures Ordered(s + [x], le)
  {
    assert forall i :: 0 <= i < |s| ==> s[i] in s;
  }

  lemma {:induction false} InsertHolds<T(!new)>(s: seq<T>, x: T, le: (T, T) -> bool)
    ensures multiset(Insert(s, x, le)) == multiset(s) + multiset{x}
    ensures forall y :: y in Insert(s, x, le) <==> y in s || y == x
  {
    if s != [] && !le(s[|s| - 1], x) {
      InsertHolds(s[..|s| - 1], x, le);
      assert s == s[..|s| - 1] + [s[|s| - 1]];
    }
  }

  lemma AllMayPrecede<T(!new)>(s: seq<T>, x: T, le: (T, T) -> bool)
    requires TotalPreorder(le) && Ordered(s, le)
    requires s == [] || le(s[|s| - 1], x)
    ensures forall y :: y in s ==> le(y, x)
  {
    forall y | y in s
      ensures le(y, x)
    {
      var i :| 0 <= i < |s| && s[i] == y;
      assert i < |s| - 1 ==> le(y, s[|s| - 1]);
    }
  }

  lemma {:induction false} InsertKeepsOrder<T(!new)>(s: seq<T>, x: T, le: (T, T) -> bool)
    requires TotalPreorder(le) && Ordered(s, le)
    ensures Ordered(Insert(s, x, le), le)
  {
    if s == [] {
    } else if le(s[|s| - 1], x) {
      AllMayPrecede(s, x, le);
      OrderedPush(s, x, le);
    } else {
      var init, last := s[..|s| - 1], s[|s| - 1];
      InsertKeepsOrder(init, x, le);
      InsertHolds(init, x, le);
      assert forall y :: y in init ==> le(y, last);
      OrderedPush(Insert(init, x, le), last, le);
    }
  }

  // The sort is a permutation in order.
  lemma {:induction false} SortSorts<T(!new)>(s: seq<T>, le: (T, T) -> bool)
    requires TotalPreorder(le)
    ensures Ordered(Sort(s, le), le)
    ensures multiset(Sort(s, le)) == multiset(s)
    ensures forall x :: x in Sort(s, le) <==> x in s
  {
    if s != [] {
      var init, last := s[..|s| - 1], s[|s| - 1];
      SortSorts(init, le);
      InsertKeepsOrder(Sort(init, le), last, le);
      InsertHolds(Sort(init, le), last, le);
      assert s == init + [last];
    }
    assert forall x :: x in Sort(s, le) <==> x in multiset(Sort(s, le));
  }

  lemma InsertBehind<T(!new)>(s: seq<T>, x: T, le: (T, T) -> bool)
    requires forall y :: y in s ==> le(y, x)
    ensures Insert(s, x, le) == s + [x]
  {
  }

  lemma InsertBefore<T(!new)>(s: seq<T>, last: T, x: T, le: (T, T) -> bool)
    requires !le(last, x)
    ensures Insert(s + [last], x, le) == Insert(s, x, le) + [last]
  {
    assert (s + [last])[..|s|] == s;
  }

  lemma FilterInsertBehind<T(!new)>(s: seq<T>, x: T, le: (T, T) -> bool, p: T -> bool)
    requires forall y :: y in s ==> le(y, x)
    ensures Filter(Insert(s, x, le), p) == if p(x) then Insert(Filter(s, p), x, le) else Filter(s, p)
  {
    FilterHolds(s, p);
    FilterPush(s, x, p);
    InsertBehind(s, x, le);
    forall y | y in Filter(s, p)
      ensures le(y, x)
    {
      assert y in s;
    }
    InsertBehind(Filter(s, p), x, le);
  }

  lemma FilterInsertBefore<T(!new)>(s: seq<T>, last: T, x: T, le: (T, T) -> bool, p: T -> bool)
    requires !le(last, x)
    requires Filter(Insert(s, x, le), p) == if p(x) then Insert(Filter(s, p), x, le) else Filter(s, p)
    ensures Filter(Insert(s + [last], x, le), p) == if p(x) then Insert(Filter(s + [last], p), x, le) else Filter(s + [last], p)
  {
    InsertBefore(s, last, x, le);
    InsertBefore(Filter(s, p), last, x, le);
    FilterPush(Insert(s, x, le), last, p);
    FilterPush(s, last, p);
  }

  lemma {:induction false} FilterInsert<T(!new)>(s: seq<T>, x: T, le: (T, T) -> bool, p: T -> bool)
    requires TotalPreorder(le) && Ordered(s, le)
    ensures Filter(Insert(s, x, le), p) == if p(x) then Insert(Filter(s, p), x, le) else Filter(s, p)
  {
    if s == [] || le(s[|s| - 1], x) {
      AllMayPrecede(s, x, le);
      FilterInsertBehind(s, x, le, p);
    } else {
      var init, last := s[..|s| - 1], s[|s| - 1];
      assert s == init + [last];
      FilterInsert(init, x, le, p);
      FilterInsertBefore(init, last, x, le, p);
    }
  }

  lemma SortPush<T(!new)>(s: seq<T>, x: T, le: (T, T) -> bool)
    ensures Sort(s + [x], le) == Insert(Sort(s, le), x, le)
  {
    assert (s + [x])[..|s|] == s;
  }

  // Sorting and filtering commute, whatever the filter.
  lemma {:induction false} FilterSort<T(!new)>(s: seq<T>, le: (T, T) -> bool, p: T -> bool)
    requires TotalPreorder(le)
    ensures Filter(Sort(s, le), p) == Sort(Filter(s, p), le)
  {
    if s != [] {
      var init, last := s[..|s| - 1], s[|s| - 1];
      FilterSort(init, le, p);
      FilterSortPush(init, last, le, p);
      assert s == init + [last];
    }
  }

  lemma FilterSortPush<T(!new)>(init: seq<T>, last: T, le: (T, T) -> bool, p: T -> bool)
    requires TotalPreorder(le)
    requires Filter(Sort(init, le), p) == Sort(Filter(init, p), le)
    ensures Filter(Sort(init + [last], le), p) == Sort(Filter(init + [last], p), le)
  {
    SortSorts(init, le);
    SortPush(init, last, le);
    FilterPush(init, last, p);
    FilterInsert(Sort(init, le), last, le, p);
    SortPush(Filter(init, p), last, le);
  }

  lemma {:induction false} SortLevel<T(!new)>(s: seq<T>, le: (T, T) -> bool)
    requires forall i, j :: 0 <= i < |s| && 0 <= j < |s| ==> le(s[i], s[j])
    ensures Sort(s, le) == s
  {
    if s != [] {
      SortLevel(s[..|s| - 1], le);
    }
  }

  function Alike<T>(x: T, le: (T, T) -> bool): T -> bool {
    y => le(x, y) && le(y, x)
  }

  // Elements that compare equal stay in the order they came in.
  lemma SortIsStable<T(!new)>(s: seq<T>, le: (T, T) -> bool, x: T)
    requires TotalPreorder(le)
    ensures Filter(Sort(s, le), Alike(x, le)) == Filter(s, Alike(x, le))
  {
    var same := Filter(s, Alike(x, le));
    FilterSort(s, le, Alike(x, le));
    FilterHolds(s, Alike(x, le));
    forall i, j | 0 <= i < |same| && 0 <= j < |same|
      ensures le(same[i], same[j])
    {
      assert Alike(x, le)(same[i]) && Alike(x, le)(same[j]);
    }
    SortLevel(same, le);
  }

  ghost predicate FirstLeast<T>(s: seq<T>, le: (T, T) -> bool, k: nat) {
    && k < |s|
    && (forall j :: 0 <= j < k ==> !le(s[j], s[k]))
    && (forall j :: 0 <= j < |s| ==> le(s[k], s[j]))
  }

  lemma {:induction false} InsertHead<T(!new)>(s: seq<T>, x: T, le: (T, T) -> bool)
    requires TotalPreorder(le) && Ordered(s, le) && s != []
    ensures Insert(s, x, le)[0] == if le(s[0], x) then s[0] else x
  {
    if le(s[|s| - 1], x) {
      assert |s| > 1 ==> le(s[0], s[|s| - 1]);
    } else if |s| > 1 {
      InsertHead(s[..|s| - 1], x, le);
    }
  }

  lemma FirstLeastPush<T(!new)>(s: seq<T>, x: T, le: (T, T) -> bool, k: nat)
    requires TotalPreorder(le) && FirstLeast(s, le, k)
    ensures FirstLeast(s + [x], le, if le(s[k], x) then k else |s|)
  {
    assert le(x, x);
    forall j | 0 <= j < |s| && !le(s[k], x)
      ensures !le(s[j], x) && le(x, s[j])
    {
      assert le(s[k], s[j]) && le(x, s[k]);
    }
  }

  // The head of the sorted list is the first of the least elements.
  lemma {:induction false} HeadIsFirstLeast<T(!new)>(s: seq<T>, le: (T, T) -> bool) returns (k: nat)
    requires TotalPreorder(le) && s != []
    ensures FirstLeast(s, le, k) && Sort(s, le)[0] == s[k]
  {
    var init, last := s[..|s| - 1], s[|s| - 1];
    assert s == init + [last];
    SortPush(init, last, le);
    if init == [] {
      assert le(last, last);
      k := 0;
    } else {
      var least := HeadIsFirstLeast(init, le);
      SortSorts(init, le);
      InsertHead(Sort(init, le), last, le);
      FirstLeastPush(init, last, le, least);
      k := if le(init[least], last) then least else |init|;
    }
  }
}

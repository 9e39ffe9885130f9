/** Python's `list.sort`: a stable sort, with the order given as a total preorder. */
module StableSort {

  ghost predicate TotalPreorder<T(!new)>(le: (T, T) -> bool) {
    && (forall x, y :: le(x, y) || le(y, x))
    && (forall x, y, z :: le(x, y) && le(y, z) ==> le(x, z))
  }

  ghost predicate Sorted<T(!new)>(s: seq<T>, le: (T, T) -> bool) {
    forall i, j :: 0 <= i < j < |s| ==> le(s[i], s[j])
  }

  function Filter<T(!new)>(s: seq<T>, p: T -> bool): (r: seq<T>)
    ensures |r| <= |s|
    ensures forall x :: x in r <==> x in s && p(x)
  {
    if s == [] then [] else (if p(s[0]) then [s[0]] else []) + Filter(s[1..], p)
  }

  lemma FilterHead<T(!new)>(x: T, s: seq<T>, p: T -> bool)
    ensures Filter([x] + s, p) == if p(x) then [x] + Filter(s, p) else Filter(s, p)
  {
    assert ([x] + s)[1..] == s;
  }

  function Insert<T(!new)>(x: T, s: seq<T>, le: (T, T) -> bool): (r: seq<T>)
    ensures |r| == |s| + 1
  {
    if s == [] || le(x, s[0]) then [x] + s else [s[0]] + Insert(x, s[1..], le)
  }

  function Sort<T(!new)>(s: seq<T>, le: (T, T) -> bool): (r: seq<T>)
    ensures |r| == |s|
  {
    if s == [] then [] else Insert(s[0], Sort(s[1..], le), le)
  }

  lemma {:induction false} InsertMultiset<T(!new)>(x: T, s: seq<T>, le: (T, T) -> bool)
    ensures multiset(Insert(x, s, le)) == multiset(s) + multiset{x}
  {
    if s != [] && !le(x, s[0]) {
      InsertMultiset(x, s[1..], le);
      assert s == [s[0]] + s[1..];
    }
  }

  lemma {:induction false} SortMultiset<T(!new)>(s: seq<T>, le: (T, T) -> bool)
    ensures multiset(Sort(s, le)) == multiset(s)
  {
    if s != [] {
      SortMultiset(s[1..], le);
      InsertMultiset(s[0], Sort(s[1..], le), le);
      assert s == [s[0]] + s[1..];
    }
  }

  lemma {:induction false} InsertSorted<T(!new)>(x: T, s: seq<T>, le: (T, T) -> bool)
    requires TotalPreorder(le) && Sorted(s, le)
    ensures Sorted(Insert(x, s, le), le)
  {
    if s != [] && !le(x, s[0]) {
      InsertSorted(x, s[1..], le);
      InsertMultiset(x, s[1..], le);
      var r := Insert(x, s[1..], le);
      forall i | 0 <= i < |r|
        ensures le(s[0], r[i])
      {
        assert r[i] in multiset(r);
        if r[i] != x {
          assert r[i] in s[1..];
        }
      }
    }
  }

  lemma {:induction false} SortSorted<T(!new)>(s: seq<T>, le: (T, T) -> bool)
    requires TotalPreorder(le)
    ensures Sorted(Sort(s, le), le)
  {
    if s != [] {
      SortSorted(s[1..], le);
      InsertSorted(s[0], Sort(s[1..], le), le);
    }
  }

  lemma InsertFirst<T(!new)>(x: T, s: seq<T>, le: (T, T) -> bool)
    requires s == [] || le(x, s[0])
    ensures Insert(x, s, le) == [x] + s
  {
  }

  lemma InsertLater<T(!new)>(x: T, y: T, s: seq<T>, le: (T, T) -> bool)
    requires !le(x, y)
    ensures Insert(x, [y] + s, le) == [y] + Insert(x, s, le)
  {
    assert ([y] + s)[1..] == s;
  }

  lemma {:induction false} InsertFilter<T(!new)>(x: T, s: seq<T>, le: (T, T) -> bool, p: T -> bool)
    requires TotalPreorder(le) && Sorted(s, le)
    ensures Filter(Insert(x, s, le), p) == if p(x) then Insert(x, Filter(s, p), le) else Filter(s, p)
  {
    if s == [] || le(x, s[0]) {
      FilterHead(x, s, p);
      var f := Filter(s, p);
      assert f != [] ==> f[0] in s;
      assert f != [] ==> le(x, f[0]);
      InsertFirst(x, f, le);
    } else {
      hide Filter, Insert, TotalPreorder;
      var y, rest := s[0], s[1..];
      assert s == [y] + rest;
      InsertFilter(x, rest, le, p);
      InsertLater(x, y, rest, le);
      FilterHead(y, rest, p);
      FilterHead(y, Insert(x, rest, le), p);
      InsertLater(x, y, Filter(rest, p), le);
    }
  }

  /** Sorting and filtering commute; in particular rows with equal keys keep their order. */
  lemma {:induction false} SortFilter<T(!new)>(s: seq<T>, le: (T, T) -> bool, p: T -> bool)
    requires TotalPreorder(le)
    ensures Sort(Filter(s, p), le) == Filter(Sort(s, le), p)
  {
    if s != [] {
      hide Insert, TotalPreorder, Sorted;
      var x, rest := s[0], s[1..];
      assert s == [x] + rest;
      SortFilter(rest, le, p);
      SortSorted(rest, le);
      InsertFilter(x, Sort(rest, le), le, p);
      FilterHead(x, rest, p);
      if p(x) {
        assert ([x] + Filter(rest, p))[1..] == Filter(rest, p);
      }
    }
  }

  lemma {:induction false} SortEqualKeys<T(!new)>(s: seq<T>, le: (T, T) -> bool)
    requires forall i, j :: 0 <= i < |s| && 0 <= j < |s| ==> le(s[i], s[j])
    ensures Sort(s, le) == s
  {
    if s != [] {
      SortEqualKeys(s[1..], le);
    }
  }

  function EqualTo<T>(x: T, le: (T, T) -> bool): T -> bool {
    y => le(x, y) && le(y, x)
  }

  /** Elements with equal keys come in the same order in both. */
  ghost predicate SameOrderOnTies<T(!new)>(r: seq<T>, s: seq<T>, le: (T, T) -> bool) {
    forall x :: Filter(r, EqualTo(x, le)) == Filter(s, EqualTo(x, le))
  }

  /** A stable sorted permutation is unique: `Sort` is what any stable sort returns. */
  lemma StableSortUnique<T(!new)>(s: seq<T>, r: seq<T>, le: (T, T) -> bool)
    requires TotalPreorder(le) && Sorted(r, le) && multiset(r) == multiset(s) && SameOrderOnTies(r, s, le)
    ensures r == Sort(s, le)
  {
    hide TotalPreorder, Sort, Filter;
    var t := Sort(s, le);
    SortSorted(s, le);
    SortMultiset(s, le);
    forall x
      ensures Filter(r, EqualTo(x, le)) == Filter(t, EqualTo(x, le))
    {
      SortFilter(s, le, EqualTo(x, le));
      TiesUnchanged(Filter(s, EqualTo(x, le)), le, x);
    }
    SortedAgree(r, t, le);
  }

  lemma TiesUnchanged<T(!new)>(s: seq<T>, le: (T, T) -> bool, x: T)
    requires TotalPreorder(le) && forall y :: y in s ==> EqualTo(x, le)(y)
    ensures Sort(s, le) == s
  {
    forall i, j | 0 <= i < |s| && 0 <= j < |s|
      ensures le(s[i], s[j])
    {
      assert EqualTo(x, le)(s[i]) && EqualTo(x, le)(s[j]);
    }
    SortEqualKeys(s, le);
  }

  lemma SortedHeadIsLeast<T(!new)>(r: seq<T>, le: (T, T) -> bool, x: T)
    requires TotalPreorder(le) && Sorted(r, le) && x in r
    ensures le(r[0], x)
  {
    var i :| 0 <= i < |r| && r[i] == x;
    assert le(x, x);
  }

  lemma SameMembers<T(!new)>(r: seq<T>, t: seq<T>, x: T)
    requires multiset(r) == multiset(t) && x in r
    ensures x in t
  {
    assert x in multiset(r);
  }

  lemma HeadOfTies<T(!new)>(r: seq<T>, p: T -> bool)
    requires r != [] && p(r[0])
    ensures Filter(r, p) != [] && Filter(r, p)[0] == r[0]
  {
    assert r == [r[0]] + r[1..];
    FilterHead(r[0], r[1..], p);
  }

  /** Two sorted permutations of each other start with the same element when ties agree. */
  lemma SortedHeadsAgree<T(!new)>(r: seq<T>, t: seq<T>, le: (T, T) -> bool)
    requires TotalPreorder(le) && Sorted(r, le) && Sorted(t, le) && multiset(r) == multiset(t)
    requires SameOrderOnTies(r, t, le) && r != [] && t != []
    ensures r[0] == t[0]
  {
    hide Filter, TotalPreorder, Sorted;
    var x, y := r[0], t[0];
    SameMembers(r, t, x);
    SameMembers(t, r, y);
    SortedHeadIsLeast(r, le, x);
    SortedHeadIsLeast(r, le, y);
    SortedHeadIsLeast(t, le, x);
    HeadOfTies(r, EqualTo(x, le));
    HeadOfTies(t, EqualTo(x, le));
    assert Filter(r, EqualTo(x, le)) == Filter(t, EqualTo(x, le));
  }

  lemma DropHead<T(!new)>(x: T, r: seq<T>, t: seq<T>, p: T -> bool)
    requires Filter([x] + r, p) == Filter([x] + t, p)
    ensures Filter(r, p) == Filter(t, p)
  {
    FilterHead(x, r, p);
    FilterHead(x, t, p);
    if p(x) {
      assert ([x] + Filter(r, p))[1..] == Filter(r, p);
      assert ([x] + Filter(t, p))[1..] == Filter(t, p);
    }
  }

  lemma TailsOnTies<T(!new)>(r: seq<T>, t: seq<T>, le: (T, T) -> bool)
    requires SameOrderOnTies(r, t, le) && r != [] && t != [] && r[0] == t[0]
    ensures SameOrderOnTies(r[1..], t[1..], le)
  {
    hide Filter;
    var x := r[0];
    assert r == [x] + r[1..] && t == [x] + t[1..];
    forall z
      ensures Filter(r[1..], EqualTo(z, le)) == Filter(t[1..], EqualTo(z, le))
    {
      assert Filter(r, EqualTo(z, le)) == Filter(t, EqualTo(z, le));
      DropHead(x, r[1..], t[1..], EqualTo(z, le));
    }
  }

  lemma TailsMultiset<T(!new)>(r: seq<T>, t: seq<T>)
    requires multiset(r) == multiset(t) && r != [] && t != [] && r[0] == t[0]
    ensures multiset(r[1..]) == multiset(t[1..])
  {
    assert r == [r[0]] + r[1..] && t == [t[0]] + t[1..];
    assert multiset(r[1..]) == multiset(r) - multiset{r[0]};
    assert multiset(t[1..]) == multiset(t) - multiset{t[0]};
  }

  lemma {:induction false} SortedAgree<T(!new)>(r: seq<T>, t: seq<T>, le: (T, T) -> bool)
    requires TotalPreorder(le) && Sorted(r, le) && Sorted(t, le) && multiset(r) == multiset(t)
    requires SameOrderOnTies(r, t, le)
    ensures r == t
    decreases |r|
  {
    hide TotalPreorder, SameOrderOnTies;
    assert |multiset(r)| == |r| && |multiset(t)| == |t|;
    if r != [] {
      SortedHeadsAgree(r, t, le);
      TailsMultiset(r, t);
      TailsOnTies(r, t, le);
      SortedAgree(r[1..], t[1..], le);
      assert r == [r[0]] + r[1..] && t == [t[0]] + t[1..];
    }
  }

  // ----- filters ---------------------------------------------------------------

  lemma {:induction false} FilterAppend<T(!new)>(a: seq<T>, b: seq<T>, p: T -> bool)
    ensures Filter(a + b, p) == Filter(a, p) + Filter(b, p)
  {
    if a == [] {
      assert a + b == b;
    } else {
      assert (a + b)[1..] == a[1..] + b;
      FilterAppend(a[1..], b, p);
    }
  }

  /** Filtering by a weaker test first changes nothing. */
  lemma {:induction false} FilterFilter<T(!new)>(s: seq<T>, p: T -> bool, q: T -> bool)
    requires forall x :: x in s && q(x) ==> p(x)
    ensures Filter(Filter(s, p), q) == Filter(s, q)
  {
    if s != [] {
      hide Filter;
      FilterFilter(s[1..], p, q);
      assert s == [s[0]] + s[1..];
      FilterHead(s[0], s[1..], p);
      FilterHead(s[0], s[1..], q);
      FilterHead(s[0], Filter(s[1..], p), q);
    }
  }

  lemma {:induction false} FilterAll<T(!new)>(s: seq<T>, p: T -> bool)
    ensures (forall x :: x in s ==> p(x)) ==> Filter(s, p) == s
    ensures (forall x :: x in s ==> !p(x)) ==> Filter(s, p) == []
  {
    if s != [] {
      hide Filter;
      FilterAll(s[1..], p);
      assert s == [s[0]] + s[1..];
      FilterHead(s[0], s[1..], p);
    }
  }
}

// Python's stable sort and min, over any total preorder.
module Sorting {
  ghost predicate TotalPreorder<T(!new)>(le: (T, T) -> bool) {
    && (forall x, y :: le(x, y) || le(y, x))
    && (forall x, y, z :: le(x, y) && le(y, z) ==> le(x, z))
  }

  ghost predicate SortedBy<T>(s: seq<T>, le: (T, T) -> bool) {
    forall i, j :: 0 <= i < j < |s| ==> le(s[i], s[j])
  }

  function Insert<T>(x: T, s: seq<T>, le: (T, T) -> bool): seq<T> {
    if s == [] || le(x, s[0]) then [x] + s
    else [s[0]] + Insert(x, s[1..], le)
  }

  // An element goes before the equals that follow it in the input.
  function Sort<T>(s: seq<T>, le: (T, T) -> bool): seq<T> {
    if s == [] then [] else Insert(s[0], Sort(s[1..], le), le)
  }

  // min(s, key=...): the first of the least elements.
  function FirstMin<T>(s: seq<T>, le: (T, T) -> bool): T
    requires s != []
  {
    if |s| == 1 then s[0]
    else
      var m := FirstMin(s[1..], le);
      if le(s[0], m) then s[0] else m
  }

  lemma {:induction false} InsertPermutes<T>(x: T, s: seq<T>, le: (T, T) -> bool)
    ensures multiset(Insert(x, s, le)) == multiset{x} + multiset(s)
  {
    if !(s == [] || le(x, s[0])) {
      InsertPermutes(x, s[1..], le);
      assert s == [s[0]] + s[1..];
    }
  }

  lemma {:induction false} SortPermutes<T>(s: seq<T>, le: (T, T) -> bool)
    ensures multiset(Sort(s, le)) == multiset(s)
  {
    if s != [] {
      SortPermutes(s[1..], le);
      InsertPermutes(s[0], Sort(s[1..], le), le);
      assert s == [s[0]] + s[1..];
    }
  }

  lemma SameMembers<T>(a: seq<T>, b: seq<T>)
    requires multiset(a) == multiset(b)
    ensures |a| == |b| && forall x :: x in a <==> x in b
  {
    assert |a| == |multiset(a)| && |b| == |multiset(b)|;
    assert forall x :: x in a <==> x in multiset(a);
    assert forall x :: x in b <==> x in multiset(b);
  }

  lemma {:induction false} InsertSorted<T(!new)>(x: T, s: seq<T>, le: (T, T) -> bool)
    requires TotalPreorder(le) && SortedBy(s, le)
    ensures SortedBy(Insert(x, s, le), le)
  {
    if !(s == [] || le(x, s[0])) {
      InsertSorted(x, s[1..], le);
      InsertPermutes(x, s[1..], le);
      var rest := Insert(x, s[1..], le);
      forall j | 0 <= j < |rest| ensures le(s[0], rest[j]) {
        assert rest[j] in multiset(rest);
        assert rest[j] == x || rest[j] in s[1..];
      }
    }
  }

  lemma {:induction false} SortSorts<T(!new)>(s: seq<T>, le: (T, T) -> bool)
    requires TotalPreorder(le)
    ensures SortedBy(Sort(s, le), le)
  {
    if s != [] {
      SortSorts(s[1..], le);
      InsertSorted(s[0], Sort(s[1..], le), le);
    }
  }

  // The head of a stable sort is what min returns.
  lemma {:induction false} HeadIsFirstMin<T(!new)>(s: seq<T>, le: (T, T) -> bool)
    requires s != [] && TotalPreorder(le)
    ensures Sort(s, le) != [] && Sort(s, le)[0] == FirstMin(s, le)
  {
    if |s| > 1 {
      HeadIsFirstMin(s[1..], le);
    } else {
      assert Sort(s[1..], le) == [];
    }
  }

  lemma {:induction false} FirstMinIsLeast<T(!new)>(s: seq<T>, le: (T, T) -> bool)
    requires s != [] && TotalPreorder(le)
    ensures FirstMin(s, le) in s
    ensures forall x :: x in s ==> le(FirstMin(s, le), x)
  {
    if |s| > 1 {
      FirstMinIsLeast(s[1..], le);
      assert s == [s[0]] + s[1..];
    }
  }

  function Filter<T>(s: seq<T>, keep: T -> bool): seq<T> {
    if s == [] then []
    else (if keep(s[0]) then [s[0]] else []) + Filter(s[1..], keep)
  }

  lemma {:induction false} FilterMembers<T(!new)>(s: seq<T>, keep: T -> bool)
    ensures forall x :: x in Filter(s, keep) <==> x in s && keep(x)
  {
    if s != [] {
      FilterMembers(s[1..], keep);
      assert s == [s[0]] + s[1..];
    }
  }

  lemma Associative<T>(a: seq<T>, b: seq<T>, c: seq<T>)
    ensures a + (b + c) == (a + b) + c
  {
  }

  lemma {:induction false} FilterAppends<T>(a: seq<T>, b: seq<T>, keep: T -> bool)
    ensures Filter(a + b, keep) == Filter(a, keep) + Filter(b, keep)
  {
    if a == [] {
      assert a + b == b;
    } else {
      FilterAppends(a[1..], b, keep);
      var h := if keep(a[0]) then [a[0]] else [];
      var fa, fb := Filter(a[1..], keep), Filter(b, keep);
      assert Filter(a + b, keep) == h + (fa + fb) by {
        assert (a + b)[0] == a[0] && (a + b)[1..] == a[1..] + b;
      }
      Associative(h, fa, fb);
    }
  }

  lemma FilterStep<T>(s: seq<T>, i: nat, keep: T -> bool)
    requires i < |s|
    ensures Filter(s[..i + 1], keep) == Filter(s[..i], keep) + if keep(s[i]) then [s[i]] else []
  {
    FilterAppends(s[..i], [s[i]], keep);
    assert s[..i + 1] == s[..i] + [s[i]];
    assert Filter([s[i]], keep) == if keep(s[i]) then [s[i]] else [];
  }

  // Filtering out others does not change which element is picked.
  lemma {:induction false} FirstMinOfFilter<T(!new)>(s: seq<T>, le: (T, T) -> bool, keep: T -> bool)
    requires s != [] && TotalPreorder(le) && keep(FirstMin(s, le))
    ensures Filter(s, keep) != [] && FirstMin(Filter(s, keep), le) == FirstMin(s, le)
  {
    if |s| == 1 {
      assert Filter(s[1..], keep) == [];
    } else {
      var m := FirstMin(s[1..], le);
      var rest := Filter(s[1..], keep);
      if le(s[0], m) {
        FirstMinIsLeast(s[1..], le);
        if rest != [] {
          FirstMinIsLeast(rest, le);
          FilterMembers(s[1..], keep);
          assert FirstMin(rest, le) in s[1..];
          assert ([s[0]] + rest)[1..] == rest;
        }
      } else {
        FirstMinOfFilter(s[1..], le, keep);
        assert [] + rest == rest && ([s[0]] + rest)[1..] == rest;
      }
    }
  }
}

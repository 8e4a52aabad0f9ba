// Finite sets of reals and their ascending lists.
module RealSets {
  // ---- sorted({...}) -------------------------------------------------------

  predicate Ascending(s: seq<real>) {
    forall i, j :: 0 <= i < j < |s| ==> s[i] < s[j]
  }

  lemma Pick<T>(s: set<T>) returns (x: T)
    requires s != {}
    ensures x in s
  {
    x :| x in s;
  }

  lemma {:induction false} LeastExists(s: set<real>)
    requires s != {}
    ensures exists m :: m in s && forall x :: x in s ==> m <= x
  {
    var a := Pick(s);
    if s == {a} {
      assert a in s && forall x :: x in s ==> a <= x;
    } else {
      LeastExists(s - {a});
      var m :| m in s - {a} && forall x :: x in s - {a} ==> m <= x;
      var l := if a <= m then a else m;
      forall x | x in s ensures l <= x { if x != a { assert x in s - {a}; } }
      assert l in s;
    }
  }

  function Sorted(s: set<real>): (r: seq<real>)
    ensures Ascending(r)
    ensures forall x :: x in r <==> x in s
  {
    if s == {} then [] else
      LeastExists(s);
      var m :| m in s && forall x :: x in s ==> m <= x;
      var rest := Sorted(s - {m});
      LeastFirst(s, m, rest);
      [m] + rest
  }

  lemma LeastFirst(s: set<real>, m: real, rest: seq<real>)
    requires m in s && (forall x :: x in s ==> m <= x)
    requires Ascending(rest) && forall x :: x in rest <==> x in s - {m}
    ensures Ascending([m] + rest)
    ensures forall x :: x in [m] + rest <==> x in s
  {
    forall i | 0 <= i < |rest| ensures m < rest[i] { assert rest[i] in rest; }
  }

  lemma {:induction false} SortedUnique(a: seq<real>, b: seq<real>)
    requires Ascending(a) && Ascending(b)
    requires forall x :: x in a <==> x in b
    ensures a == b
  {
    assert |a| > 0 ==> a[0] in a;
    assert |b| > 0 ==> b[0] in b;
    if a != [] {
      var i :| 0 <= i < |a| && a[i] == b[0];
      var j :| 0 <= j < |b| && b[j] == a[0];
      assert a[0] == b[0];
      assert forall x :: x in a[1..] <==> x in a && x != a[0];
      assert forall x :: x in b[1..] <==> x in b && x != b[0];
      SortedUnique(a[1..], b[1..]);
      assert a == [a[0]] + a[1..] && b == [b[0]] + b[1..];
    }
  }

  function Largest(s: set<real>): (m: real)
    requires s != {}
    ensures m in s && forall x :: x in s ==> x <= m
  {
    var r := Sorted(s);
    assert r != [] by { var x := Pick(s); assert x in r; }
    assert forall x :: x in s ==> x in r;
    r[|r| - 1]
  }
}

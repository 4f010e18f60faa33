/** Choosing from finite sets, and putting sets of integers in order. */
module Sets {
  lemma SomeMember<T>(s: set<T>)
    ensures s != {} ==> exists x :: x in s
  {
    if !exists x :: x in s {
      assert s == {};
    }
  }

  lemma SomeInt(s: set<int>)
    ensures s != {} ==> exists x :: x in s
  {
    if !exists x :: x in s {
      assert s == {};
    }
  }

  function MaxOf(s: set<int>): (m: int)
    requires s != {}
    ensures m in s && forall x :: x in s ==> x <= m
  {
    HasMax(s);
    var x :| x in s && forall y :: y in s ==> y <= x;
    x
  }

  lemma {:induction false} HasMax(s: set<int>)
    requires s != {}
    ensures exists x :: x in s && forall y :: y in s ==> y <= x
  {
    SomeInt(s);
    var x :| x in s;
    var rest := s - {x};
    if rest == {} {
      assert s == {x};
    } else {
      HasMax(rest);
      var m :| m in rest && forall y :: y in rest ==> y <= m;
      var top := if x > m then x else m;
      assert top in s;
      forall y | y in s
        ensures y <= top
      {
        assert y == x || y in rest;
      }
    }
  }

  function MinOf(s: set<int>): (m: int)
    requires s != {}
    ensures m in s && forall x :: x in s ==> m <= x
  {
    var below := set x | x in s :: -x;
    HasMin(s, below);
    -MaxOf(below)
  }

  lemma HasMin(s: set<int>, below: set<int>)
    requires s != {} && below == set x | x in s :: -x
    ensures below != {} && forall x :: x in s <==> -x in below
  {
    SomeInt(s);
    var x :| x in s;
    assert -x in below;
    forall y | -y in below
      ensures y in s
    {
      var z :| z in s && -z == -y;
    }
  }

  /** In increasing order, as ORDER BY reads them. */
  function Ascending(s: set<int>): (ids: seq<int>)
    ensures forall x :: x in ids <==> x in s
    ensures forall j, k :: 0 <= j < k < |ids| ==> ids[j] < ids[k]
  {
    if s == {} then []
    else
      var m := MaxOf(s);
      Ascending(s - {m}) + [m]
  }
}

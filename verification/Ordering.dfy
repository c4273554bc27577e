/** Finite sets of numbers in ascending order. */
module Ordering {
  lemma {:induction false} HasLeast(s: set<int>)
    requires s != {}
    ensures exists m :: m in s && forall x :: x in s ==> m <= x
    decreases |s|
  {
    assert exists a :: a in s by {
      if forall a :: a !in s {
        assert false;
      }
    }
    var a :| a in s;
    if s != {a} {
      HasLeast(s - {a});
      var m :| m in s - {a} && forall x :: x in s - {a} ==> m <= x;
      var least := if a < m then a else m;
      assert least in s && forall x :: x in s ==> least <= x by {
        forall x | x in s ensures least <= x { assert x == a || x in s - {a}; }
      }
    } else {
      assert a in s && forall x :: x in s ==> a <= x;
    }
  }

  function First(s: set<int>): (m: int)
    requires s != {}
    ensures m in s && forall x :: x in s ==> m <= x
  {
    HasLeast(s);
    var m :| m in s && forall x :: x in s ==> m <= x;
    m
  }

  predicate Ascending(xs: seq<int>) {
    forall i, j :: 0 <= i < j < |xs| ==> xs[i] < xs[j]
  }

  /** The elements in ascending order. */
  function InOrder(s: set<int>): (xs: seq<int>)
    ensures Ascending(xs) && forall x :: x in xs <==> x in s
    decreases |s|
  {
    if s == {} then [] else
      var m := First(s);
      var rest := InOrder(s - {m});
      assert forall x :: x in rest ==> m < x;
      [m] + rest
  }

  function Latest(s: set<int>): (m: int)
    requires s != {}
    ensures m in s && forall x :: x in s ==> x <= m
  {
    var xs := InOrder(s);
    assert exists x :: x in s by {
      assert First(s) in s;
    }
    assert forall x :: x in s ==> exists i :: 0 <= i < |xs| && xs[i] == x;
    xs[|xs| - 1]
  }
}

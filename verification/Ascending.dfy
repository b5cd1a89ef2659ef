/**
 A finite set of integers listed in ascending order.
 */
module Ascending {

  lemma HasElement(s: set<int>)
    requires s != {}
    ensures exists d :: d in s
  {
    if !exists d :: d in s {}
  }

  predicate IsLeast(d: int, s: set<int>) {
    d in s && forall e | e in s :: d <= e
  }

  lemma LeastOfRest(d: int, m: int, s: set<int>)
    requires d in s && IsLeast(m, s - {d})
    ensures IsLeast(if d <= m then d else m, s)
  {
    forall e | e in s ensures (if d <= m then d else m) <= e {
      if e != d { assert e in s - {d}; }
    }
  }

  lemma {:induction false} HasLeast(s: set<int>)
    requires s != {}
    ensures exists d :: IsLeast(d, s)
  {
    HasElement(s);
    var d :| d in s;
    if s == {d} {
      assert IsLeast(d, s);
    } else {
      HasLeast(s - {d});
      var m :| IsLeast(m, s - {d});
      LeastOfRest(d, m, s);
    }
  }

  function Least(s: set<int>): (d: int)
    requires s != {}
    ensures IsLeast(d, s)
  {
    HasLeast(s);
    var d :| IsLeast(d, s);
    d
  }

  predicate Increasing(a: seq<int>) {
    forall i, j | 0 <= i < j < |a| :: a[i] < a[j]
  }

  /** `sorted` on a set of integers. */
  function InOrder(s: set<int>): (a: seq<int>)
    ensures |a| == |s| && forall d :: d in a <==> d in s
    decreases |s|
  {
    if s == {} then [] else [Least(s)] + InOrder(s - {Least(s)})
  }

  lemma {:induction false} InOrderIncreases(s: set<int>)
    ensures Increasing(InOrder(s))
    decreases |s|
  {
    if s != {} {
      var rest := InOrder(s - {Least(s)});
      InOrderIncreases(s - {Least(s)});
      forall k | 0 <= k < |rest| ensures Least(s) < rest[k] {
        assert rest[k] in s - {Least(s)};
      }
    }
  }
}

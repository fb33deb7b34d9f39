/** What a SELECT returns: the rows of a set, each once, in an order of its own. */
module Listings {

  ghost predicate Lists<T>(xs: seq<T>, s: set<T>) {
    && (forall x <- xs :: x in s)
    && (forall x <- s :: x in xs)
    && (forall j, k :: 0 <= j < k < |xs| ==> xs[j] != xs[k])
  }

  /** Some order; every caller is proved for all of them. */
  method Enumerate<T(==)>(s: set<T>) returns (xs: seq<T>)
    ensures Lists(xs, s)
  {
    xs := [];
    var rest := s;
    while rest != {}
      invariant rest <= s
      invariant Lists(xs, s - rest)
      decreases rest
    {
      var x :| x in rest;
      xs := xs + [x];
      rest := rest - {x};
    }
  }

  lemma {:induction false} ListingLength<T>(xs: seq<T>, s: set<T>)
    requires Lists(xs, s)
    ensures |xs| == |s|
    decreases |xs|
  {
    if xs == [] {
      assert s == {};
    } else {
      ListingTail(xs, s);
      ListingLength(xs[1..], s - {xs[0]});
    }
  }

  lemma ListingTail<T>(xs: seq<T>, s: set<T>)
    requires Lists(xs, s) && xs != []
    ensures Lists(xs[1..], s - {xs[0]})
  {
    var tail := xs[1..];
    forall x ensures x in tail <==> x in s - {xs[0]} {
      if x in tail {
        var k :| 0 <= k < |tail| && tail[k] == x;
        assert xs[k + 1] == x && xs[0] != xs[k + 1];
      }
      if x in s - {xs[0]} {
        var k :| 0 <= k < |xs| && xs[k] == x;
        assert tail[k - 1] == x;
      }
    }
  }
}

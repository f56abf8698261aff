/** How many elements of a list pass a test. */
module Counting {

  /** The positions whose element passes a test. */
  ghost function Places<T>(xs: seq<T>, test: T -> bool): set<nat> {
    set k: nat | k < |xs| && test(xs[k])
  }

  lemma PlacesGrow<T>(xs: seq<T>, test: T -> bool)
    requires xs != []
    ensures |Places(xs, test)| == |Places(xs[..|xs| - 1], test)| + if test(xs[|xs| - 1]) then 1 else 0
  {
    var n := |xs| - 1;
    assert Places(xs, test) == Places(xs[..n], test) + if test(xs[n]) then {n} else {};
  }

  lemma NoPlaces<T>(xs: seq<T>, test: T -> bool)
    ensures |Places(xs, test)| == 0 <==> forall x <- xs :: !test(x)
  {
    if x :| x in xs && test(x) {
      var k: nat :| k < |xs| && xs[k] == x;
      assert k in Places(xs, test);
    }
    if k :| k in Places(xs, test) {
      assert xs[k] in xs;
    } else {
      assert Places(xs, test) == {};
    }
  }
}

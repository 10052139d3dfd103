/** Nearest-value search: np.argmin(np.abs(s - a)), which returns the first index of minimal distance. */
module Nearest {

  /** |x - a| */
  function Dist(x: real, a: real): (d: real)
    ensures d >= 0.0
    ensures d == x - a || d == a - x
    ensures d == 0.0 <==> x == a
  {
    if x >= a then x - a else a - x
  }

  /** k is an index of s at minimal distance from a, and every earlier index is strictly farther. */
  ghost predicate IsFirstNearest(s: seq<real>, a: real, k: int) {
    && 0 <= k < |s|
    && (forall j :: 0 <= j < |s| ==> Dist(s[k], a) <= Dist(s[j], a))
    && (forall j :: 0 <= j < k ==> Dist(s[k], a) < Dist(s[j], a))
  }

  /** The index numpy's argmin picks: a later element replaces the best so far only when strictly closer. */
  function ArgMin(s: seq<real>, a: real): (k: nat)
    requires |s| > 0
    ensures IsFirstNearest(s, a, k)
  {
    if |s| == 1 then 0
    else
      var k := ArgMin(s[..|s| - 1], a);
      if Dist(s[|s| - 1], a) < Dist(s[k], a) then |s| - 1 else k
  }

  /** The first nearest index is unique, so ArgMin is the only answer consistent with it. */
  lemma ArgMinIsDetermined(s: seq<real>, a: real, k: int)
    requires IsFirstNearest(s, a, k)
    ensures ArgMin(s, a) == k
  {
  }
}

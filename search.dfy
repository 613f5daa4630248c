/**
 * Linear search over a list, as JavaScript's `Array.prototype.findIndex`
 * (and `find`, which returns the element at that index) perform it.
 */
module Search {

  /** Index of the first element satisfying `p`, or -1 when there is none. */
  function FindIndex<T>(s: seq<T>, p: T -> bool): (r: int)
    ensures -1 <= r < |s|
    ensures r >= 0 ==> p(s[r]) && forall k :: 0 <= k < r ==> !p(s[k])
    ensures r == -1 <==> forall k :: 0 <= k < |s| ==> !p(s[k])
  {
    if |s| == 0 then -1
    else if p(s[0]) then 0
    else
      var r := FindIndex(s[1..], p);
      if r == -1 then -1 else r + 1
  }

  /** The scan `findIndex` runs: front to back, stopping at the first match. */
  method Scan<T>(s: seq<T>, p: T -> bool) returns (index: int)
    ensures index == FindIndex(s, p)
  {
    index := 0;
    while index < |s| && !p(s[index])
      invariant 0 <= index <= |s|
      invariant forall k :: 0 <= k < index ==> !p(s[k])
    {
      index := index + 1;
    }
    if index == |s| {
      index := -1;
    }
  }

  /** Appending an element never changes an earlier match; it is found only when nothing before it matched. */
  lemma {:induction false} FindIndexAppend<T>(s: seq<T>, x: T, p: T -> bool)
    ensures FindIndex(s + [x], p) ==
              if FindIndex(s, p) >= 0 then FindIndex(s, p)
              else if p(x) then |s| else -1
  {
    var r, r' := FindIndex(s, p), FindIndex(s + [x], p);
    assert forall k :: 0 <= k < |s| ==> (s + [x])[k] == s[k];
    if r >= 0 {
      assert p((s + [x])[r]);
    } else if p(x) {
      assert p((s + [x])[|s|]);
    }
  }
}

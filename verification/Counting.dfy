/** How many positions have a property, one position at a time. */
module Counting {
  lemma CountNext(p: nat -> bool, n: nat)
    ensures |set i: nat | i < n + 1 && p(i)| == |set i: nat | i < n && p(i)| + (if p(n) then 1 else 0)
  {
    var before := set i: nat | i < n && p(i);
    assert (set i: nat | i < n + 1 && p(i)) == before + (if p(n) then {n} else {});
  }
}

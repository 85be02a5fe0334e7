/** Optional values, and identifiers not used yet. */
module Wrappers {
  datatype Option<+T> = None | Some(value: T)

  /** Identifiers not used yet never run out. */
  lemma {:induction false} Unused(used: set<nat>) returns (n: nat)
    ensures forall x :: x in used ==> x < n
    decreases |used|
  {
    if used == {} {
      n := 0;
    } else {
      var x :| x in used;
      var m := Unused(used - {x});
      n := if x < m then m else x + 1;
      forall y | y in used ensures y < n { assert y == x || y in used - {x}; }
    }
  }
}

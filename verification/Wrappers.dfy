/** Optional values and success-or-error results, shared by every module. */
module Wrappers {

  datatype Option<+T> = None | Some(value: T)

  datatype Result<+T, +E> = Ok(value: T) | Err(error: E)

  /** A strictly increasing list of indices below a bound. */
  predicate Increasing(list: seq<nat>, bound: nat) {
    && (forall a | 0 <= a < |list| :: list[a] < bound)
    && (forall a, b | 0 <= a < b < |list| :: list[a] < list[b])
  }

  function ToSet<T>(list: seq<T>): set<T> {
    set x | x in list
  }

  lemma Assoc<T>(a: seq<T>, b: seq<T>, c: seq<T>)
    ensures (a + b) + c == a + (b + c)
  {
  }

  lemma SubsetCount<T>(a: set<T>, b: set<T>)
    requires a <= b
    ensures |a| <= |b|
  {
    assert b == a + (b - a);
  }

  /** A number that is not used yet. */
  lemma {:induction false} Unused(used: set<nat>) returns (c: nat)
    ensures c !in used
    ensures forall d | d in used :: d < c
    decreases used
  {
    if used == {} {
      c := 0;
    } else {
      var d :| d in used;
      var above := Unused(used - {d});
      c := if d < above then above else d + 1;
      assert forall x | x in used :: x == d || x in used - {d};
    }
  }
}

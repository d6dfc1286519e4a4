/** Small datatypes shared by every component model. */
module Basics {

  datatype Option<+T> = None | Some(value: T)

  /** SQL's COALESCE of two nullable columns. */
  function Coalesce<T>(first: Option<T>, second: Option<T>): Option<T> {
    if first.Some? then first else second
  }

  function Min(a: int, b: int): int {
    if a <= b then a else b
  }

  function Max(a: int, b: int): int {
    if a >= b then a else b
  }

  ghost predicate IsLeast(keys: set<nat>, x: nat) {
    x in keys && forall y :: y in keys ==> x <= y
  }

  lemma LeastExists(keys: set<nat>) returns (x: nat)
    requires keys != {}
    ensures IsLeast(keys, x)
  {
    x :| x in keys;
    if keys != {x} {
      var z := LeastExists(keys - {x});
      if z < x {
        assert forall y :: y in keys ==> y == x || y in keys - {x};
        x := z;
      } else {
        assert forall y :: y in keys ==> y == x || y in keys - {x};
      }
    }
  }

  function Least(keys: set<nat>): (x: nat)
    requires keys != {}
    ensures IsLeast(keys, x)
  {
    assert exists x :: IsLeast(keys, x) by { var x := LeastExists(keys); }
    var x :| x in keys && forall y :: y in keys ==> x <= y;
    x
  }
}

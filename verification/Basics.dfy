/** Definitions shared by several components. */
module Basics {

  datatype Option<+T> = None | Some(value: T)

  type Byte = b: int | 0 <= b < 256

  lemma {:induction false} SubsetSize<T>(a: set<T>, b: set<T>)
    requires a <= b
    ensures |a| <= |b|
  {
    if a != {} {
      var x :| x in a;
      SubsetSize(a - {x}, b - {x});
    }
  }

  function Min(a: int, b: int): int {
    if a <= b then a else b
  }

  function Pow2(n: nat): (p: int)
    ensures p > 0
  {
    if n == 0 then 1 else 2 * Pow2(n - 1)
  }

  lemma ScaleMonotone(b: int, x: int, y: int)
    requires b > 0
    ensures x <= y <==> b * x <= b * y
  {
    if x <= y {
      assert 0 <= b * (y - x);
    } else {
      assert 0 < b * (x - y);
    }
  }

  /** A quotient, by its defining inequalities. */
  lemma QuotientBounds(a: int, b: int, q: int)
    requires b > 0
    ensures a / b == q <==> b * q <= a < b * (q + 1)
  {
    var k := a / b;
    assert b * k <= a < b * k + b;
    ScaleMonotone(b, k + 1, q);
    ScaleMonotone(b, q + 1, k);
  }

  /** The earliest of some instants. */
  ghost predicate IsEarliest(t: int, times: set<int>) {
    t in times && forall u :: u in times ==> t <= u
  }

  lemma {:induction false} EarliestExists(times: set<int>)
    requires exists u :: u in times
    ensures exists t :: IsEarliest(t, times)
  {
    var u :| u in times;
    var rest := times - {u};
    if exists v :: v in rest {
      EarliestExists(rest);
      var t :| IsEarliest(t, rest);
      forall v | v in times ensures v == u || t <= v {
        assert v == u || v in rest;
      }
      assert IsEarliest(if u < t then u else t, times);
    } else {
      forall v | v in times ensures u <= v {
        assert v == u || v in rest;
      }
      assert IsEarliest(u, times);
    }
  }

  ghost function Earliest(times: set<int>): (t: int)
    requires exists u :: u in times
    ensures IsEarliest(t, times)
  {
    EarliestExists(times);
    var t :| IsEarliest(t, times); t
  }
}

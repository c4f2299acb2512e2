/** Scalars of the motion pipeline: IEEE doubles seen as reals that may be NaN,
    numpy's rounding, sign and clipping. */
module Numeric {

  datatype Option<T> = None | Some(value: T)

  /** A float64 as the pipeline uses it: a finite value or NaN.
      Infinities never arise in the modelled computations. */
  datatype Num = Fin(v: real) | NaN

  /** Python's `a != b` on floats: NaN compares unequal to everything. */
  predicate NumNe(a: Num, b: Num) {
    a.NaN? || b.NaN? || a.v != b.v
  }

  function Abs(x: real): real {
    if x < 0.0 then -x else x
  }

  /** np.sign on a finite value. */
  function Sgn(x: real): (r: real)
    ensures r == 1.0 || r == 0.0 || r == -1.0
  {
    if x > 0.0 then 1.0 else if x < 0.0 then -1.0 else 0.0
  }

  /** np.sign: NaN stays NaN. */
  function Sign(x: Num): Num {
    match x
    case NaN => NaN
    case Fin(v) => Fin(Sgn(v))
  }

  function Add(a: Num, b: Num): Num {
    if a.NaN? || b.NaN? then NaN else Fin(a.v + b.v)
  }

  function Sub(a: Num, b: Num): Num {
    if a.NaN? || b.NaN? then NaN else Fin(a.v - b.v)
  }

  /** `a * c` for a finite factor c; NaN times anything is NaN. */
  function Scale(a: Num, c: real): Num {
    if a.NaN? then NaN else Fin(a.v * c)
  }

  /** np.round: to the nearest integer, ties to the even neighbour. */
  function RoundHalfEven(x: real): (r: int)
    ensures Abs(r as real - x) <= 0.5
    ensures Abs(r as real - x) == 0.5 ==> r % 2 == 0
    ensures x >= 0.0 ==> r >= 0
  {
    var f := x.Floor;
    var frac := x - f as real;
    if frac < 0.5 then f
    else if frac > 0.5 then f + 1
    else if f % 2 == 0 then f
    else f + 1
  }

  /** No integer is strictly closer to x than RoundHalfEven(x). */
  lemma {:induction false} RoundIsNearest(x: real, n: int)
    ensures Abs(RoundHalfEven(x) as real - x) <= Abs(n as real - x)
  {
    var r := RoundHalfEven(x);
    if n != r {
      if n < r {
        assert n as real <= r as real - 1.0;
      } else {
        assert n as real >= r as real + 1.0;
      }
    }
  }

  /** np.clip(x, lo, hi) is minimum(maximum(x, lo), hi): hi wins when lo > hi. */
  function Clip(x: real, lo: real, hi: real): (r: real)
    ensures lo <= hi ==> lo <= r <= hi
    ensures lo <= x <= hi ==> r == x
    ensures r == x || r == lo || r == hi
    ensures x < lo && lo <= hi ==> r == lo
    ensures x > hi || lo > hi ==> r == hi
  {
    var m := if x < lo then lo else x;
    if m > hi then hi else m
  }
}

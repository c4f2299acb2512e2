/** Step quantisation of a kinematics-space move (set_prev_common):
    `num_steps = round(|vec| * steps_pr_meter)` and
    `delta = sign(vec) * num_steps / steps_pr_meter`. */
module Quantise {
  import opened Numeric

  /** Whole steps an axis turns for a move of x metres. */
  function StepCount(x: Num, stepsPerMeter: real): Num {
    if x.NaN? then NaN else Fin(Steps(x.v, stepsPerMeter) as real)
  }

  /** `round(|x| * steps_pr_meter)` for a finite move. */
  function Steps(x: real, stepsPerMeter: real): int {
    RoundHalfEven(Abs(x) * stepsPerMeter)
  }

  /** The quantised move. With zero steps per metre the step count is 0 and
      the division is 0/0, which is NaN. */
  function Quantised(x: Num, stepsPerMeter: real): (r: Num)
    ensures r.NaN? <==> x.NaN? || stepsPerMeter == 0.0
    ensures r.Fin? ==> r.v * stepsPerMeter == Sgn(x.v) * (Steps(x.v, stepsPerMeter) as real)
  {
    if x.NaN? || stepsPerMeter == 0.0 then NaN
    else Fin(QuantisedValue(x.v, stepsPerMeter))
  }

  function QuantisedValue(x: real, stepsPerMeter: real): (r: real)
    requires stepsPerMeter != 0.0
    ensures r * stepsPerMeter == Sgn(x) * (Steps(x, stepsPerMeter) as real)
  {
    Sgn(x) * (Steps(x, stepsPerMeter) as real) / stepsPerMeter
  }

  function NumSteps(kv: seq<Num>, stepsPerMeter: seq<real>): (r: seq<Num>)
    requires |kv| == |stepsPerMeter|
    ensures |r| == |kv| && forall i :: 0 <= i < |kv| ==> r[i] == StepCount(kv[i], stepsPerMeter[i])
  {
    seq(|kv|, i requires 0 <= i < |kv| => StepCount(kv[i], stepsPerMeter[i]))
  }

  function QuantDelta(kv: seq<Num>, stepsPerMeter: seq<real>): (r: seq<Num>)
    requires |kv| == |stepsPerMeter|
    ensures |r| == |kv| && forall i :: 0 <= i < |kv| ==> r[i] == Quantised(kv[i], stepsPerMeter[i])
  {
    seq(|kv|, i requires 0 <= i < |kv| => Quantised(kv[i], stepsPerMeter[i]))
  }

  /** The quantised move is NaN exactly when the move is NaN or the axis has
      no steps per metre. */
  lemma QuantisedNaN(x: Num, stepsPerMeter: real)
    ensures Quantised(x, stepsPerMeter).NaN? <==> x.NaN? || stepsPerMeter == 0.0
    ensures StepCount(x, stepsPerMeter).NaN? <==> x.NaN?
  {
  }

  /** For a positive resolution the step count is a non-negative integer and
      the executed move is exactly that many steps of 1/steps_pr_meter, in
      the direction of the request, or no move at all. */
  lemma {:induction false} QuantiseExact(x: real, stepsPerMeter: real)
    requires stepsPerMeter > 0.0
    ensures Steps(x, stepsPerMeter) >= 0
    ensures StepCount(Fin(x), stepsPerMeter) == Fin(Steps(x, stepsPerMeter) as real)
    ensures Quantised(Fin(x), stepsPerMeter) == Fin(QuantisedValue(x, stepsPerMeter))
    ensures QuantisedValue(x, stepsPerMeter) * stepsPerMeter
            == Sgn(x) * (Steps(x, stepsPerMeter) as real)
    ensures QuantisedValue(x, stepsPerMeter) == 0.0 || Sgn(QuantisedValue(x, stepsPerMeter)) == Sgn(x)
  {
    StepsNearMove(x, stepsPerMeter);
    QuantisedBySign(x, stepsPerMeter);
    WholeSteps(x, stepsPerMeter, Steps(x, stepsPerMeter) as real, QuantisedValue(x, stepsPerMeter));
  }

  /** For a positive resolution the executed move lies within half a step of
      the requested one. */
  lemma {:induction false} QuantiseWithinHalfStep(x: real, stepsPerMeter: real)
    requires stepsPerMeter > 0.0
    ensures Abs(QuantisedValue(x, stepsPerMeter) - x) <= 0.5 / stepsPerMeter
  {
    StepsNearMove(x, stepsPerMeter);
    QuantisedBySign(x, stepsPerMeter);
    WithinHalf(x, stepsPerMeter, Steps(x, stepsPerMeter) as real, QuantisedValue(x, stepsPerMeter));
  }

  /** The arithmetic of QuantiseExact on plain values: d is n steps of 1/spm
      signed as x. */
  lemma WholeSteps(x: real, spm: real, n: real, d: real)
    requires spm > 0.0 && n >= 0.0 && -0.5 <= n - Abs(x) * spm <= 0.5
    requires x > 0.0 ==> d == n / spm
    requires x < 0.0 ==> d == -(n / spm)
    requires x == 0.0 ==> d == 0.0 && n == 0.0
    ensures d * spm == Sgn(x) * n
    ensures d == 0.0 || Sgn(d) == Sgn(x)
  {
    HalfStep(Abs(x), spm, n);
    SignOfQuotient(n, spm);
    if x < 0.0 {
      assert d * spm == -((n / spm) * spm);
    }
  }

  /** The arithmetic of QuantiseWithinHalfStep on plain values. */
  lemma WithinHalf(x: real, spm: real, n: real, d: real)
    requires spm > 0.0 && n >= 0.0 && -0.5 <= n - Abs(x) * spm <= 0.5
    requires x > 0.0 ==> d == n / spm
    requires x < 0.0 ==> d == -(n / spm)
    requires x == 0.0 ==> d == 0.0 && n == 0.0
    ensures Abs(d - x) <= 0.5 / spm
  {
    HalfStep(Abs(x), spm, n);
  }

  /** The step count is a whole number of steps within half a step of the
      move. */
  lemma StepsNearMove(x: real, spm: real)
    requires spm > 0.0
    ensures Steps(x, spm) >= 0 && -0.5 <= Steps(x, spm) as real - Abs(x) * spm <= 0.5
  {
    ProductNonnegative(Abs(x), spm);
  }

  /** The quantised move is the step count over the resolution, signed as
      the move. */
  lemma QuantisedBySign(x: real, spm: real)
    requires spm > 0.0
    ensures x > 0.0 ==> QuantisedValue(x, spm) == (Steps(x, spm) as real) / spm
    ensures x < 0.0 ==> QuantisedValue(x, spm) == -((Steps(x, spm) as real) / spm)
    ensures x == 0.0 ==> QuantisedValue(x, spm) == 0.0 && Steps(x, spm) == 0
  {
    if x < 0.0 {
      NegatedQuotient(Steps(x, spm) as real, spm);
    }
  }

  lemma ProductNonnegative(a: real, b: real)
    requires a >= 0.0 && b >= 0.0
    ensures a * b >= 0.0
  {
  }

  lemma NegatedQuotient(n: real, spm: real)
    requires spm > 0.0
    ensures (-1.0 * n) / spm == -(n / spm)
  {
  }

  lemma SignOfQuotient(n: real, spm: real)
    requires spm > 0.0 && n >= 0.0
    ensures n / spm >= 0.0 && (n > 0.0 ==> n / spm > 0.0)
  {
  }

  /** Division by the resolution keeps a half-step error within half a step. */
  lemma HalfStep(a: real, spm: real, n: real)
    requires spm > 0.0 && -0.5 <= n - a * spm <= 0.5
    ensures -0.5 / spm <= n / spm - a <= 0.5 / spm
    ensures (n / spm) * spm == n
  {
    var q := n / spm;
    assert q * spm == n;
    assert (q - a) * spm == n - a * spm;
    var h := 0.5 / spm;
    assert h * spm == 0.5;
    assert (h - (q - a)) * spm == 0.5 - (n - a * spm);
    assert (h + (q - a)) * spm == 0.5 + (n - a * spm);
    assert h - (q - a) >= 0.0;
    assert h + (q - a) >= 0.0;
  }
}

/** The computation of Path.set_prev_common as one value-level function: from
    the start position, the requested end position and the machine settings
    to every quantity the segment stores. The imperative Path methods are
    proved to compute exactly this; the lemmas here state what it means. */
module Pipeline {
  import opened Numeric
  import opened Axes
  import opened Transform
  import opened Positions
  import opened Quantise
  import opened Backlash
  import opened Remap

  /** The class-level settings of Path that the pipeline reads. */
  datatype Config = Config(
    axisConfig: int,
    stepsPerMeter: seq<real>,
    backlashCompensation: seq<real>,
    softMin: seq<real>,
    softMax: seq<real>,
    bedMatrix: Matrix3,
    /** Slot of the active tool, None when it is "E". */
    toolSlot: Option<nat>,
    /** Per slot, the slot handle_slaves copies into it. */
    masters: seq<Option<nat>>,
    /** Delta.inverse_kinematics2 and Delta.forward_kinematics2, which are
        not part of this model. */
    inverseKinematics: (real, real, real) -> Col3,
    forwardKinematics: Col3 -> Col3)
  {
    predicate WellFormed() {
      |stepsPerMeter| == MaxAxes && |backlashCompensation| == MaxAxes &&
      |softMin| == MaxAxes && |softMax| == MaxAxes &&
      |masters| == MaxAxes && ValidMasters(masters, MaxAxes) &&
      (toolSlot.Some? ==> toolSlot.value < MaxAxes)
    }
  }

  /** The per-segment switches of the Path constructor. */
  datatype Flags = Flags(useBedMatrix: bool, useBacklashCompensation: bool, enableSoftEndstops: bool)

  /** What set_prev_common leaves on the segment. `columns` holds
      (start_ABC, end_ABC) on a Delta machine. */
  datatype Resolution = Resolution(
    idealEndPos: Vec,
    levelEndPos: Vec,
    vec: Vec,
    columns: Option<(Col3, Col3)>,
    numSteps: seq<Num>,
    delta: seq<Num>,
    roundedVec: seq<Num>,
    compensation: seq<Num>,
    backlashState: seq<Num>,
    startPos: Vec,
    stepperEndPos: seq<Num>,
    endPos: Vec)
  {
    /** `np.isnan(vec).any()` on the executed move. */
    predicate Collapsed() {
      exists i :: 0 <= i < |roundedVec| && roundedVec[i].NaN?
    }
  }

  // ---- the steps

  /** Step 1: the soft-endstop clamp, when enabled. */
  function IdealTarget(c: Config, f: Flags, requested: Vec): (r: Vec)
    requires c.WellFormed() && IsVec(requested)
    ensures IsVec(r)
  {
    if f.enableSoftEndstops then ClipVec(requested, c.softMin, c.softMax) else requested
  }

  /** Step 2: bed levelling, when enabled. */
  function LevelTarget(c: Config, f: Flags, ideal: Vec): (r: Vec)
    requires IsVec(ideal)
    ensures IsVec(r)
  {
    if f.useBedMatrix then BedLevel(c.bedMatrix, ideal) else ideal
  }

  /** start_ABC: the predecessor's end_ABC when it has one, otherwise the
      inverse kinematics of the start position. */
  function StartColumns(c: Config, start: Vec, prevEndABC: Option<Col3>): Col3
    requires IsVec(start)
  {
    match prevEndABC
    case Some(p) => p
    case None => c.inverseKinematics(start[0], start[1], start[2])
  }

  /** Step 3: transform_vector. */
  function ToKinematic(c: Config, start: Vec, vec: Vec, startABC: Col3): (r: seq<Num>)
    requires IsVec(start) && IsVec(vec)
    ensures |r| == MaxAxes
  {
    if c.axisConfig == AxisConfigDelta then
      DeltaTransform(startABC, c.inverseKinematics(start[0] + vec[0], start[1] + vec[1], start[2] + vec[2]), Lift(vec))
    else TransformLinear(c.axisConfig, Lift(vec))
  }

  /** Step 5: reverse_transform_vector. */
  function FromKinematic(c: Config, delta: seq<Num>, startABC: Col3): (r: seq<Num>)
    requires |delta| == MaxAxes
    ensures |r| == MaxAxes
  {
    if c.axisConfig == AxisConfigDelta then DeltaReverse(startABC, c.forwardKinematics, delta)
    else ReverseLinear(c.axisConfig, delta)
  }

  /** `start_pos + delta` where delta may hold NaN. */
  function AddNum(start: Vec, d: seq<Num>): (r: seq<Num>)
    requires |start| == |d|
    ensures |r| == |d| && forall i :: 0 <= i < |d| ==> r[i] == Add(Fin(start[i]), d[i])
  {
    seq(|d|, i requires 0 <= i < |d| => Add(Fin(start[i]), d[i]))
  }

  predicate AllFinite(v: seq<Num>) {
    forall i :: 0 <= i < |v| ==> v[i].Fin?
  }

  /** `start_pos + vec` for a move without NaN. */
  function AddFin(start: Vec, d: seq<Num>): (r: Vec)
    requires |start| == |d| && AllFinite(d)
    ensures |r| == |d| && forall i :: 0 <= i < |d| ==> d[i] == Fin(r[i] - start[i])
  {
    seq(|d|, i requires 0 <= i < |d| => start[i] + d[i].v)
  }

  /** Steps 8 and 9: handle_tools then handle_slaves on one vector. */
  function Remapped<T>(c: Config, v: seq<T>, zero: T): (r: seq<T>)
    requires c.WellFormed() && |v| == MaxAxes
    ensures |r| == MaxAxes
  {
    var w := MaybeToolRemap(v, c.toolSlot, zero);
    MirrorSlaves(w, c.masters, |w|)
  }

  /** The whole of set_prev_common from `start` (the predecessor's end
      position), the requested ideal end position, the predecessor's
      end_ABC if it has one, and the backlash memory. A segment either
      freezes (the NaN collapse) or ends at start plus its executed move,
      and with backlash compensation off the memory is left as it was and
      the compensation is zero. */
  function Resolve(c: Config, f: Flags, start: Vec, requested: Vec, prevEndABC: Option<Col3>, state: seq<Num>): (r: Resolution)
    requires c.WellFormed() && IsVec(start) && IsVec(requested) && |state| == MaxAxes
    ensures IsVec(r.idealEndPos) && IsVec(r.levelEndPos) && IsVec(r.vec)
    ensures |r.numSteps| == |r.delta| == |r.roundedVec| == |r.compensation| == |r.backlashState| == MaxAxes
    ensures IsVec(r.startPos) && |r.stepperEndPos| == MaxAxes && IsVec(r.endPos)
    ensures FreezesOrMoves(r, start)
    ensures !f.useBacklashCompensation ==>
              r.backlashState == state && forall i :: 0 <= i < MaxAxes ==> r.compensation[i] == Fin(0.0)
  {
    var ideal := IdealTarget(c, f, requested);
    var level := LevelTarget(c, f, ideal);
    var vec := SubVec(level, start);
    var startABC := StartColumns(c, start, prevEndABC);
    var kv := ToKinematic(c, start, vec, startABC);
    var steps := NumSteps(kv, c.stepsPerMeter);
    var delta := QuantDelta(kv, c.stepsPerMeter);
    var rv := FromKinematic(c, delta, startABC);
    var columns := if c.axisConfig == AxisConfigDelta then Some((startABC, Col3Add(startABC, Col3Of(delta)))) else None;
    var comp := Compensation(delta, state, c.backlashCompensation, f.useBacklashCompensation);
    var next := NextState(delta, state, f.useBacklashCompensation);
    var startOut := Remapped(c, start, 0.0);
    var stepper := Remapped(c, AddNum(start, delta), Fin(0.0));
    var r :=
      if AllFinite(rv) then
        Resolution(ideal, level, vec, columns, steps, delta, rv, comp, next, startOut, stepper, AddFin(start, rv))
      else
        Resolution(ideal, level, vec, columns, Lift(Zeros(MaxAxes)), Lift(Zeros(MaxAxes)), rv, comp, next,
                   startOut, stepper, startOut);
    CollapseShape(r, start);
    r
  }

  /** Resolve taken apart: given the values that steps 1 to 5 produce, the
      fields of the resolution and the rest of the pipeline in terms of
      them. The imperative Path methods compute the steps one at a time. */
  lemma ResolveFromSteps(c: Config, f: Flags, start: Vec, requested: Vec, prevEndABC: Option<Col3>, state: seq<Num>,
                         ideal: Vec, level: Vec, vec: Vec, steps: seq<Num>, delta: seq<Num>, rv: seq<Num>)
    requires c.WellFormed() && IsVec(start) && IsVec(requested) && |state| == MaxAxes
    requires ideal == IdealTarget(c, f, requested) && level == LevelTarget(c, f, ideal) && vec == SubVec(level, start)
    requires var sc := StartColumns(c, start, prevEndABC);
             var kv := ToKinematic(c, start, vec, sc);
             steps == NumSteps(kv, c.stepsPerMeter) && delta == QuantDelta(kv, c.stepsPerMeter) &&
             rv == FromKinematic(c, delta, sc)
    ensures var r := Resolve(c, f, start, requested, prevEndABC, state);
            var sc := StartColumns(c, start, prevEndABC);
            r.idealEndPos == ideal && r.levelEndPos == level && r.vec == vec && r.roundedVec == rv &&
            r.columns == (if c.axisConfig == AxisConfigDelta then Some((sc, Col3Add(sc, Col3Of(delta)))) else None) &&
            r.compensation == Compensation(delta, state, c.backlashCompensation, f.useBacklashCompensation) &&
            r.backlashState == NextState(delta, state, f.useBacklashCompensation) &&
            r.startPos == Remapped(c, start, 0.0) &&
            r.stepperEndPos == Remapped(c, AddNum(start, delta), Fin(0.0)) &&
            (AllFinite(rv) ==> r.numSteps == steps && r.delta == delta && r.endPos == AddFin(start, rv)) &&
            (!AllFinite(rv) ==> r.numSteps == Lift(Zeros(MaxAxes)) && r.delta == Lift(Zeros(MaxAxes)) && r.endPos == r.startPos)
  {
  }

  /** The ideal end position a segment keeps is step 1 applied to the request. */
  lemma ResolveIdeal(c: Config, f: Flags, start: Vec, requested: Vec, prevEndABC: Option<Col3>, state: seq<Num>)
    requires c.WellFormed() && IsVec(start) && IsVec(requested) && |state| == MaxAxes
    ensures Resolve(c, f, start, requested, prevEndABC, state).idealEndPos == IdealTarget(c, f, requested)
  {
  }

  // ---- what the pipeline guarantees

  /** The NaN collapse: a segment whose executed move has a NaN component
      does not move. Its end position is its (remapped) start position and
      it carries no steps; any other segment ends exactly at the start plus
      the executed move. */
  predicate FreezesOrMoves(r: Resolution, start: Vec)
    requires IsVec(start) && IsVec(r.endPos) && |r.numSteps| == |r.delta| == |r.roundedVec| == MaxAxes
  {
    if r.Collapsed() then
      r.endPos == r.startPos &&
      (forall i :: 0 <= i < MaxAxes ==> r.numSteps[i] == Fin(0.0) && r.delta[i] == Fin(0.0))
    else
      forall i :: 0 <= i < MaxAxes ==> r.roundedVec[i] == Fin(r.endPos[i] - start[i])
  }

  /** FreezesOrMoves for any resolution built as steps 7 to 10 build it. */
  lemma CollapseShape(r: Resolution, start: Vec)
    requires IsVec(start) && IsVec(r.startPos) && IsVec(r.endPos) && |r.roundedVec| == MaxAxes
    requires AllFinite(r.roundedVec) ==> r.endPos == AddFin(start, r.roundedVec)
    requires !AllFinite(r.roundedVec) ==>
               r.numSteps == Lift(Zeros(MaxAxes)) && r.delta == Lift(Zeros(MaxAxes)) && r.endPos == r.startPos
    requires |r.numSteps| == |r.delta| == MaxAxes
    ensures FreezesOrMoves(r, start)
  {
    assert r.Collapsed() <==> !AllFinite(r.roundedVec);
  }

  /** On Cartesian, H-belt and CoreXY machines a segment collapses only
      through an axis with zero steps per metre: with every resolution
      non-zero the executed move is always a number. */
  lemma {:induction false} LinearNeverCollapses(c: Config, f: Flags, start: Vec, requested: Vec, prevEndABC: Option<Col3>, state: seq<Num>)
    requires c.WellFormed() && IsVec(start) && IsVec(requested) && |state| == MaxAxes
    requires IsLinearConfig(c.axisConfig)
    requires forall i :: 0 <= i < MaxAxes ==> c.stepsPerMeter[i] != 0.0
    ensures !Resolve(c, f, start, requested, prevEndABC, state).Collapsed()
  {
    var ideal := IdealTarget(c, f, requested);
    var level := LevelTarget(c, f, ideal);
    var vec := SubVec(level, start);
    var startABC := StartColumns(c, start, prevEndABC);
    var kv := ToKinematic(c, start, vec, startABC);
    assert kv == TransformLinear(c.axisConfig, Lift(vec));
    LinearKeepsFinite(c.axisConfig, Lift(vec));
    var delta := QuantDelta(kv, c.stepsPerMeter);
    assert AllFinite(delta);
    var rv := FromKinematic(c, delta, startABC);
    assert rv == ReverseLinear(c.axisConfig, delta);
    LinearKeepsFinite(c.axisConfig, delta);
    var r := Resolve(c, f, start, requested, prevEndABC, state);
    assert r.roundedVec == rv;
  }

  /** The belt matrices map numbers to numbers. */
  lemma LinearKeepsFinite(config: int, v: seq<Num>)
    requires |v| == MaxAxes && IsLinearConfig(config) && AllFinite(v)
    ensures AllFinite(TransformLinear(config, v)) && AllFinite(ReverseLinear(config, v))
  {
    assert v[0].Fin? && v[1].Fin?;
    var t := TransformLinear(config, v);
    var u := ReverseLinear(config, v);
    forall i | 0 <= i < MaxAxes
      ensures t[i].Fin? && u[i].Fin?
    {
      if i >= 2 {
        assert t[i] == t[2..][i - 2] == v[2..][i - 2];
        assert u[i] == u[2..][i - 2] == v[2..][i - 2];
      }
    }
  }

  /** On a Cartesian machine with positive resolutions every axis ends within
      half a step of the levelled target, after the whole, non-negative
      number of steps that QuantiseExact describes. */
  lemma {:induction false} CartesianEndWithinHalfStep(c: Config, f: Flags, start: Vec, requested: Vec, prevEndABC: Option<Col3>, state: seq<Num>)
    requires c.WellFormed() && IsVec(start) && IsVec(requested) && |state| == MaxAxes
    requires IsLinearConfig(c.axisConfig) && !IsBeltConfig(c.axisConfig)
    requires forall i :: 0 <= i < MaxAxes ==> c.stepsPerMeter[i] > 0.0
    ensures var r := Resolve(c, f, start, requested, prevEndABC, state);
            forall i :: 0 <= i < MaxAxes ==>
              Abs(r.endPos[i] - r.levelEndPos[i]) <= 0.5 / c.stepsPerMeter[i] &&
              r.numSteps[i] == Fin(Steps(r.vec[i], c.stepsPerMeter[i]) as real) &&
              Steps(r.vec[i], c.stepsPerMeter[i]) >= 0 &&
              r.endPos[i] == start[i] + QuantisedValue(r.vec[i], c.stepsPerMeter[i])
  {
    var ideal := IdealTarget(c, f, requested);
    var level := LevelTarget(c, f, ideal);
    var vec := SubVec(level, start);
    var sc := StartColumns(c, start, prevEndABC);
    var kv := ToKinematic(c, start, vec, sc);
    var steps := NumSteps(kv, c.stepsPerMeter);
    var delta := QuantDelta(kv, c.stepsPerMeter);
    var rv := FromKinematic(c, delta, sc);
    ResolveFromSteps(c, f, start, requested, prevEndABC, state, ideal, level, vec, steps, delta, rv);
    CartesianAxes(c, start, level, vec, sc, steps, delta, rv);
  }

  /** CartesianEndWithinHalfStep on the values of steps 3 to 5. */
  lemma CartesianAxes(c: Config, start: Vec, level: Vec, vec: Vec, sc: Col3, steps: seq<Num>, delta: seq<Num>, rv: seq<Num>)
    requires c.WellFormed() && IsVec(start) && IsVec(level) && vec == SubVec(level, start)
    requires IsLinearConfig(c.axisConfig) && !IsBeltConfig(c.axisConfig)
    requires forall i :: 0 <= i < MaxAxes ==> c.stepsPerMeter[i] > 0.0
    requires steps == NumSteps(ToKinematic(c, start, vec, sc), c.stepsPerMeter)
    requires delta == QuantDelta(ToKinematic(c, start, vec, sc), c.stepsPerMeter)
    requires rv == FromKinematic(c, delta, sc)
    ensures AllFinite(rv)
    ensures forall i :: 0 <= i < MaxAxes ==>
              Abs(AddFin(start, rv)[i] - level[i]) <= 0.5 / c.stepsPerMeter[i] &&
              steps[i] == Fin(Steps(vec[i], c.stepsPerMeter[i]) as real) &&
              Steps(vec[i], c.stepsPerMeter[i]) >= 0 &&
              AddFin(start, rv)[i] == start[i] + QuantisedValue(vec[i], c.stepsPerMeter[i])
  {
    assert ToKinematic(c, start, vec, sc) == Lift(vec);
    assert rv == delta;
    assert AllFinite(rv) by {
      forall i | 0 <= i < MaxAxes
        ensures rv[i].Fin?
      {
        assert rv[i] == Quantised(Fin(vec[i]), c.stepsPerMeter[i]);
      }
    }
    var e := AddFin(start, rv);
    forall i | 0 <= i < MaxAxes
      ensures Abs(e[i] - level[i]) <= 0.5 / c.stepsPerMeter[i]
      ensures steps[i] == Fin(Steps(vec[i], c.stepsPerMeter[i]) as real)
      ensures Steps(vec[i], c.stepsPerMeter[i]) >= 0
      ensures e[i] == start[i] + QuantisedValue(vec[i], c.stepsPerMeter[i])
    {
      AxisWithinHalfStep(vec[i], c.stepsPerMeter[i], start[i], level[i], e[i]);
    }
  }

  /** One Cartesian axis: the quantised move ends within half a step of the
      target after a whole number of steps. */
  lemma AxisWithinHalfStep(vec: real, spm: real, start: real, level: real, end: real)
    requires spm > 0.0 && vec == level - start && Fin(end - start) == Quantised(Fin(vec), spm)
    ensures Abs(end - level) <= 0.5 / spm && Steps(vec, spm) >= 0
    ensures StepCount(Fin(vec), spm) == Fin(Steps(vec, spm) as real)
    ensures end == start + QuantisedValue(vec, spm)
  {
    QuantiseExact(vec, spm);
    QuantiseWithinHalfStep(vec, spm);
    assert end - level == QuantisedValue(vec, spm) - vec;
  }

  /** The backlash compensation is computed and remembered but never reaches
      the positions: switching it off changes neither the end position, the
      step counts, the executed move nor the stepper position. */
  lemma {:induction false} BacklashNeverMovesEnd(c: Config, f: Flags, start: Vec, requested: Vec, prevEndABC: Option<Col3>, state: seq<Num>)
    requires c.WellFormed() && IsVec(start) && IsVec(requested) && |state| == MaxAxes
    ensures var r := Resolve(c, f, start, requested, prevEndABC, state);
            var q := Resolve(c, f.(useBacklashCompensation := !f.useBacklashCompensation), start, requested, prevEndABC, state);
            r.endPos == q.endPos && r.numSteps == q.numSteps && r.delta == q.delta &&
            r.roundedVec == q.roundedVec && r.stepperEndPos == q.stepperEndPos && r.startPos == q.startPos
  {
    var g := f.(useBacklashCompensation := !f.useBacklashCompensation);
    var ideal := IdealTarget(c, f, requested);
    assert IdealTarget(c, g, requested) == ideal;
    var level := LevelTarget(c, f, ideal);
    assert LevelTarget(c, g, ideal) == level;
    var vec := SubVec(level, start);
    var sc := StartColumns(c, start, prevEndABC);
    var kv := ToKinematic(c, start, vec, sc);
    var delta := QuantDelta(kv, c.stepsPerMeter);
    var rv := FromKinematic(c, delta, sc);
    ResolveFromSteps(c, f, start, requested, prevEndABC, state, ideal, level, vec, NumSteps(kv, c.stepsPerMeter), delta, rv);
    ResolveFromSteps(c, g, start, requested, prevEndABC, state, ideal, level, vec, NumSteps(kv, c.stepsPerMeter), delta, rv);
  }

  /** With soft endstops on and sane limits, the ideal target lies within
      them, and a target already inside them is kept as requested. */
  lemma {:induction false} SoftEndstopsBoundTarget(c: Config, f: Flags, start: Vec, requested: Vec, prevEndABC: Option<Col3>, state: seq<Num>)
    requires c.WellFormed() && IsVec(start) && IsVec(requested) && |state| == MaxAxes
    requires f.enableSoftEndstops
    ensures var r := Resolve(c, f, start, requested, prevEndABC, state);
            (forall i :: 0 <= i < MaxAxes && c.softMin[i] <= c.softMax[i] ==>
               c.softMin[i] <= r.idealEndPos[i] <= c.softMax[i]) &&
            (forall i :: 0 <= i < MaxAxes && c.softMin[i] <= requested[i] <= c.softMax[i] ==>
               r.idealEndPos[i] == requested[i])
  {
    ResolveIdeal(c, f, start, requested, prevEndABC, state);
    assert IdealTarget(c, f, requested) == ClipVec(requested, c.softMin, c.softMax);
  }

  /** Delta column bookkeeping: the segment starts from the predecessor's
      end_ABC when there is one, and its end_ABC is its start_ABC advanced by
      exactly the quantised column moves. The columns advance before the NaN
      collapse and the collapse does not undo them, so a collapsed segment
      advances them too, although its delta is zeroed. */
  lemma {:induction false} DeltaColumnsAdvanceByDelta(c: Config, f: Flags, start: Vec, requested: Vec, prevEndABC: Option<Col3>, state: seq<Num>)
    requires c.WellFormed() && IsVec(start) && IsVec(requested) && |state| == MaxAxes
    requires c.axisConfig == AxisConfigDelta
    ensures var r := Resolve(c, f, start, requested, prevEndABC, state);
            r.columns.Some? &&
            (prevEndABC.Some? ==> r.columns.value.0 == prevEndABC.value) &&
            r.columns.value.1 == Col3Add(r.columns.value.0,
                                         Col3Of(QuantDelta(ToKinematic(c, start, r.vec, r.columns.value.0), c.stepsPerMeter))) &&
            (!r.Collapsed() ==> r.columns.value.1 == Col3Add(r.columns.value.0, Col3Of(r.delta)))
  {
    var r := Resolve(c, f, start, requested, prevEndABC, state);
    var sc := StartColumns(c, start, prevEndABC);
    var delta := QuantDelta(ToKinematic(c, start, r.vec, sc), c.stepsPerMeter);
    ResolveFromSteps(c, f, start, requested, prevEndABC, state, r.idealEndPos, r.levelEndPos, r.vec,
                     NumSteps(ToKinematic(c, start, r.vec, sc), c.stepsPerMeter), delta, FromKinematic(c, delta, sc));
  }

  /** The columns and the position part ways on a collapse. On a Delta
      machine whose extruder has zero steps per metre, the extruder's
      quantised move is 0/0, so every segment collapses: it ends where it
      started with zero delta, yet its end_ABC is its start_ABC advanced by
      the quantised column moves, and the next segment starts from there.
      UnitXColumnMoves shows those moves need not be zero. */
  lemma {:induction false} CollapsedDeltaStillAdvancesColumns(c: Config, f: Flags, start: Vec, requested: Vec, prevEndABC: Option<Col3>, state: seq<Num>)
    requires c.WellFormed() && IsVec(start) && IsVec(requested) && |state| == MaxAxes
    requires c.axisConfig == AxisConfigDelta && c.stepsPerMeter[3] == 0.0
    ensures var r := Resolve(c, f, start, requested, prevEndABC, state);
            r.Collapsed() && r.endPos == r.startPos && r.delta == Lift(Zeros(MaxAxes)) && r.columns.Some? &&
            r.columns.value.1 == Col3Add(r.columns.value.0,
                                         Col3Of(QuantDelta(ToKinematic(c, start, r.vec, r.columns.value.0), c.stepsPerMeter)))
  {
    var r := Resolve(c, f, start, requested, prevEndABC, state);
    var sc := StartColumns(c, start, prevEndABC);
    var kv := ToKinematic(c, start, r.vec, sc);
    var delta := QuantDelta(kv, c.stepsPerMeter);
    var rv := FromKinematic(c, delta, sc);
    assert kv[3] == kv[3..][0] == Lift(r.vec)[3..][0];
    assert delta[3].NaN?;
    assert rv[3] == rv[3..][0] == delta[3..][0];
    ResolveFromSteps(c, f, start, requested, prevEndABC, state, r.idealEndPos, r.levelEndPos, r.vec,
                     NumSteps(kv, c.stepsPerMeter), delta, rv);
    assert r.roundedVec[3].NaN?;
  }

  /** The column moves of a move of X by 1 from the origin, with inverse
      kinematics that keep the coordinates and one step per metre on the
      columns: column A moves by one step and the others stay. */
  lemma UnitXColumnMoves(c: Config)
    requires c.WellFormed() && c.axisConfig == AxisConfigDelta
    requires c.stepsPerMeter[0] == 1.0 && c.stepsPerMeter[1] == 1.0 && c.stepsPerMeter[2] == 1.0
    requires forall x, y, z :: c.inverseKinematics(x, y, z) == Col3(Fin(x), Fin(y), Fin(z))
    ensures var origin := Col3(Fin(0.0), Fin(0.0), Fin(0.0));
            var start := Zeros(MaxAxes);
            var vec := SubVec([1.0] + Zeros(MaxAxes - 1), start);
            Col3Add(origin, Col3Of(QuantDelta(ToKinematic(c, start, vec, origin), c.stepsPerMeter))) ==
            Col3(Fin(1.0), Fin(0.0), Fin(0.0))
  {
    var origin := Col3(Fin(0.0), Fin(0.0), Fin(0.0));
    var start, requested := Zeros(MaxAxes), [1.0] + Zeros(MaxAxes - 1);
    var vec := SubVec(requested, start);
    var kv := ToKinematic(c, start, vec, origin);
    UnitXKinematics(c, start, requested, vec, origin);
    UnitXQuantised(kv, c.stepsPerMeter, QuantDelta(kv, c.stepsPerMeter));
  }

  /** Step 3 of the move in UnitXColumnMoves. */
  lemma UnitXKinematics(c: Config, start: Vec, requested: Vec, vec: Vec, origin: Col3)
    requires c.axisConfig == AxisConfigDelta && origin == Col3(Fin(0.0), Fin(0.0), Fin(0.0))
    requires forall x, y, z :: c.inverseKinematics(x, y, z) == Col3(Fin(x), Fin(y), Fin(z))
    requires start == Zeros(MaxAxes) && requested == [1.0] + Zeros(MaxAxes - 1) && vec == SubVec(requested, start)
    ensures var kv := ToKinematic(c, start, vec, origin);
            kv[0] == Fin(1.0) && kv[1] == Fin(0.0) && kv[2] == Fin(0.0)
  {
    assert vec[0] == 1.0 && vec[1] == 0.0 && vec[2] == 0.0;
    assert start[0] == 0.0 && start[1] == 0.0 && start[2] == 0.0;
  }

  /** Step 4 of the move in UnitXColumnMoves: one whole step on column A
      and none on the others. */
  lemma UnitXQuantised(kv: seq<Num>, stepsPerMeter: seq<real>, delta: seq<Num>)
    requires |kv| == |stepsPerMeter| == MaxAxes && delta == QuantDelta(kv, stepsPerMeter)
    requires kv[0] == Fin(1.0) && kv[1] == Fin(0.0) && kv[2] == Fin(0.0)
    requires stepsPerMeter[0] == 1.0 && stepsPerMeter[1] == 1.0 && stepsPerMeter[2] == 1.0
    ensures delta[0] == Fin(1.0) && delta[1] == Fin(0.0) && delta[2] == Fin(0.0)
  {
    assert Steps(1.0, 1.0) == 1 && Steps(0.0, 1.0) == 0;
  }

  /** A NaN in the Delta columns is sticky: when the predecessor's end_ABC
      holds a NaN (an unreachable point) and the forward kinematics turn NaN
      into NaN, the segment collapses and hands a NaN end_ABC on, so every
      following Delta segment collapses too until a G92 (which has no
      end_ABC) restarts the chain. */
  lemma {:induction false} DeltaNaNIsSticky(c: Config, f: Flags, start: Vec, requested: Vec, p: Col3, state: seq<Num>)
    requires c.WellFormed() && IsVec(start) && IsVec(requested) && |state| == MaxAxes
    requires c.axisConfig == AxisConfigDelta && HasNaN(p)
    requires forall q :: HasNaN(q) ==> HasNaN(c.forwardKinematics(q))
    ensures var r := Resolve(c, f, start, requested, Some(p), state);
            r.Collapsed() && r.columns.Some? && HasNaN(r.columns.value.1) && r.endPos == r.startPos
  {
    var r := Resolve(c, f, start, requested, Some(p), state);
    var vec := r.vec;
    var startABC := StartColumns(c, start, Some(p));
    assert startABC == p;
    var kv := ToKinematic(c, start, vec, startABC);
    var delta := QuantDelta(kv, c.stepsPerMeter);
    var rv := FromKinematic(c, delta, startABC);
    ResolveFromSteps(c, f, start, requested, Some(p), state, r.idealEndPos, r.levelEndPos, vec,
                     NumSteps(kv, c.stepsPerMeter), delta, rv);
    var fs := c.forwardKinematics(p);
    assert HasNaN(fs);
    var d := Col3Sub(c.forwardKinematics(Col3Add(p, Col3Of(delta))), fs);
    assert HasNaN(d);
    assert Col3Of(rv) == d;
    if rv[0].NaN? { assert r.Collapsed(); }
    else if rv[1].NaN? { assert r.Collapsed(); }
    else { assert rv[2].NaN?; assert r.Collapsed(); }
  }
}

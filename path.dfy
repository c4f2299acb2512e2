/** One requested move (Path and its subclasses AbsolutePath, RelativePath and
    G92Path). Linking a segment to its predecessor fixes where it starts and
    where it should end, and resolves it against the shared Settings. The
    start position is the predecessor's end-position array itself, so the
    in-place tool and slave remapping also rewrites the predecessor. */
module Paths {
  import opened Numeric
  import opened Axes
  import opened Transform
  import opened Positions
  import opened Quantise
  import opened Backlash
  import opened Remap
  import opened Pipeline
  import opened Machine
  import opened Splitting

  /** Path.ABSOLUTE, RELATIVE, G92, G2 and G3. */
  datatype Movement = Absolute | Relative | G92 | G2 | G3

  /** A fresh array holding `s`. */
  method ArrayOf<T>(s: seq<T>) returns (a: array<T>)
    ensures fresh(a) && a[..] == s
  {
    a := new T[|s|](i requires 0 <= i < |s| => s[i]);
  }

  /** The loop of set_prev over AXES: a copy of `base` in which every
      commanded axis takes its commanded value. */
  method Commanded(base: Vec, axes: map<char, real>) returns (r: Vec)
    requires IsVec(base)
    ensures r == Override(base, axes)
  {
    r := base;
    var index := 0;
    while index < MaxAxes
      invariant 0 <= index <= MaxAxes && |r| == MaxAxes
      invariant forall i :: 0 <= i < index ==> r[i] == Override(base, axes)[i]
      invariant forall i :: index <= i < MaxAxes ==> r[i] == base[i]
    {
      var axis := AXES[index];
      if axis in axes {
        r := r[index := axes[axis]];
      }
      index := index + 1;
    }
  }

  class Path {
    const movement: Movement
    const axes: map<char, real>
    const speed: real
    const accel: real
    const cancelable: bool
    const flags: Flags
    const splitSize: real := 0.001
    var prev: Path?
    var next: Path?
    /** The same array as prev.end_pos once linked. */
    var startPos: array?<real>
    var endPos: array?<real>
    var stepperEndPos: array?<Num>
    /** Vectors that are None in Python before linking are empty here. */
    var idealEndPos: Vec
    var levelEndPos: Vec
    var vec: Vec
    var numSteps: seq<Num>
    var delta: seq<Num>
    var roundedVec: seq<Num>
    var compensation: Option<seq<Num>>
    /** start_ABC and end_ABC, which only Delta machines set. */
    var startABC: Option<Col3>
    var endABC: Option<Col3>

    /** The state of Path.__init__ before linking. */
    predicate Unlinked()
      reads this
    {
      prev == null && next == null && startPos == null && endPos == null && stepperEndPos == null &&
      idealEndPos == [] && levelEndPos == [] && vec == [] && numSteps == [] && delta == [] &&
      roundedVec == [] && compensation.None? && startABC.None? && endABC.None?
    }

    /** AbsolutePath(axes, speed, accel, ...). */
    constructor Absolute(axes: map<char, real>, speed: real, accel: real, cancelable: bool,
                         useBedMatrix: bool, useBacklashCompensation: bool, enableSoftEndstops: bool)
      ensures Unlinked() && movement == Movement.Absolute
      ensures this.axes == axes && this.speed == speed && this.accel == accel && this.cancelable == cancelable
      ensures flags == Flags(useBedMatrix, useBacklashCompensation, enableSoftEndstops)
    {
      movement := Movement.Absolute;
      this.axes := axes;
      this.speed := speed;
      this.accel := accel;
      this.cancelable := cancelable;
      flags := Flags(useBedMatrix, useBacklashCompensation, enableSoftEndstops);
      prev := null;
      next := null;
      startPos := null;
      endPos := null;
      stepperEndPos := null;
      idealEndPos := [];
      levelEndPos := [];
      vec := [];
      numSteps := [];
      delta := [];
      roundedVec := [];
      compensation := None;
      startABC := None;
      endABC := None;
    }

    /** RelativePath(axes, speed, accel, ...). */
    constructor Relative(axes: map<char, real>, speed: real, accel: real, cancelable: bool,
                         useBedMatrix: bool, useBacklashCompensation: bool, enableSoftEndstops: bool)
      ensures Unlinked() && movement == Movement.Relative
      ensures this.axes == axes && this.speed == speed && this.accel == accel && this.cancelable == cancelable
      ensures flags == Flags(useBedMatrix, useBacklashCompensation, enableSoftEndstops)
    {
      movement := Movement.Relative;
      this.axes := axes;
      this.speed := speed;
      this.accel := accel;
      this.cancelable := cancelable;
      flags := Flags(useBedMatrix, useBacklashCompensation, enableSoftEndstops);
      prev := null;
      next := null;
      startPos := null;
      endPos := null;
      stepperEndPos := null;
      idealEndPos := [];
      levelEndPos := [];
      vec := [];
      numSteps := [];
      delta := [];
      roundedVec := [];
      compensation := None;
      startABC := None;
      endABC := None;
    }

    /** G92Path(axes, cancelable): the base constructor is called with speed
        and acceleration 0 and default switches, so `cancelable` is dropped. */
    constructor G92(axes: map<char, real>, cancelable: bool)
      ensures Unlinked() && movement == Movement.G92
      ensures this.axes == axes && speed == 0.0 && accel == 0.0 && !this.cancelable
      ensures flags == Flags(true, true, true)
    {
      movement := Movement.G92;
      this.axes := axes;
      speed := 0.0;
      accel := 0.0;
      this.cancelable := false;
      flags := Flags(true, true, true);
      prev := null;
      next := null;
      startPos := null;
      endPos := null;
      stepperEndPos := null;
      idealEndPos := [];
      levelEndPos := [];
      vec := [];
      numSteps := [];
      delta := [];
      roundedVec := [];
      compensation := None;
      startABC := None;
      endABC := None;
    }

    /** Path.unlink. */
    method Unlink()
      modifies this`next, this`prev
      ensures next == null && prev == null
    {
      next := null;
      prev := null;
    }

    /** A segment that can be a predecessor: set_prev has run on it. */
    predicate Placed()
      reads this
    {
      endPos != null && endPos.Length == MaxAxes && IsVec(idealEndPos)
    }

    /** `hasattr(self.prev, "end_ABC")`: the predecessor's end columns, if any. */
    function PrevEndABC(): Option<Col3>
      reads this, prev
    {
      if prev != null then prev.endABC else None
    }

    /** Path.transform_vector; `c` is the shared settings as the pipeline
        reads them (Settings.Config). */
    method TransformVector(c: Config, v: Vec, cur: Vec) returns (r: seq<Num>)
      requires IsVec(v) && IsVec(cur) && prev != this
      modifies this`startABC, this`endABC
      ensures var sc := StartColumns(c, cur, PrevEndABC());
              r == ToKinematic(c, cur, v, sc) &&
              if c.axisConfig == AxisConfigDelta then
                startABC == Some(sc) && endABC == Some(c.inverseKinematics(cur[0] + v[0], cur[1] + v[1], cur[2] + v[2]))
              else startABC == old(startABC) && endABC == old(endABC)
      ensures prev == old(prev) && next == old(next) && startPos == old(startPos) && compensation == old(compensation)
      ensures idealEndPos == old(idealEndPos) && levelEndPos == old(levelEndPos) && vec == old(vec)
      ensures numSteps == old(numSteps) && delta == old(delta)
    {
      r := Lift(v);
      if c.axisConfig == AxisConfigHBelt {
        r := Apply2(MatrixHInv, r);
      }
      if c.axisConfig == AxisConfigCoreXY {
        r := Apply2(MatrixXY, r);
      }
      if c.axisConfig == AxisConfigDelta {
        if prev != null && prev.endABC.Some? {
          startABC := prev.endABC;
        } else {
          startABC := Some(c.inverseKinematics(cur[0], cur[1], cur[2]));
        }
        endABC := Some(c.inverseKinematics(cur[0] + v[0], cur[1] + v[1], cur[2] + v[2]));
        r := DeltaTransform(startABC.value, endABC.value, r);
      }
    }

    /** Path.reverse_transform_vector; on a Delta machine it needs the start
        columns that transform_vector recorded. */
    method ReverseTransformVector(c: Config, d: seq<Num>) returns (r: seq<Num>)
      requires |d| == MaxAxes
      requires c.axisConfig == AxisConfigDelta ==> startABC.Some?
      modifies this`endABC
      ensures c.axisConfig == AxisConfigDelta ==>
                r == FromKinematic(c, d, startABC.value) &&
                endABC == Some(Col3Add(startABC.value, Col3Of(d)))
      ensures c.axisConfig != AxisConfigDelta ==>
                r == ReverseLinear(c.axisConfig, d) && endABC == old(endABC)
      ensures prev == old(prev) && next == old(next) && startPos == old(startPos) && compensation == old(compensation)
      ensures idealEndPos == old(idealEndPos) && levelEndPos == old(levelEndPos) && vec == old(vec)
      ensures numSteps == old(numSteps) && delta == old(delta)
      ensures startABC == old(startABC)
    {
      r := d;
      if c.axisConfig == AxisConfigHBelt {
        r := Apply2(MatrixH, r);
      }
      if c.axisConfig == AxisConfigCoreXY {
        r := Apply2(MatrixXYInv, r);
      }
      if c.axisConfig == AxisConfigDelta {
        endABC := Some(Col3Add(startABC.value, Col3Of(d)));
        var startXYZ := c.forwardKinematics(startABC.value);
        var endXYZ := c.forwardKinematics(endABC.value);
        var p := Col3Sub(endXYZ, startXYZ);
        r := [p.a, p.b, p.c] + d[3..];
      }
    }

    /** Path.backlash_compensate: axis by axis, a move whose direction is
        non-zero and differs from the remembered one produces
        direction * backlash distance and is remembered; the result is kept in
        `compensation` when any entry is non-zero. */
    method BacklashCompensate(s: Settings, c: Config) returns (r: seq<Num>)
      requires c.WellFormed() && s.backlashState.Length == MaxAxes && |delta| == MaxAxes
      modifies s.backlashState, this`compensation
      ensures r == Compensation(delta, old(s.backlashState[..]), c.backlashCompensation, flags.useBacklashCompensation)
      ensures s.backlashState[..] == NextState(delta, old(s.backlashState[..]), flags.useBacklashCompensation)
      ensures compensation == if flags.useBacklashCompensation && AnyNonzero(r) then Some(r) else old(compensation)
      ensures prev == old(prev) && next == old(next) && startPos == old(startPos) && startABC == old(startABC) && endABC == old(endABC)
      ensures idealEndPos == old(idealEndPos) && levelEndPos == old(levelEndPos) && vec == old(vec)
      ensures numSteps == old(numSteps) && delta == old(delta)
      ensures startPos != null ==> startPos[..] == old(startPos[..])
    {
      var ret := Lift(Zeros(MaxAxes));
      if flags.useBacklashCompensation {
        var index := 0;
        while index < MaxAxes
          invariant 0 <= index <= MaxAxes && |ret| == MaxAxes && compensation == old(compensation)
          invariant forall j :: 0 <= j < index ==>
                      ret[j] == AxisEntry(delta[j], old(s.backlashState[j]), c.backlashCompensation[j]) &&
                      s.backlashState[j] == AxisState(delta[j], old(s.backlashState[j]))
          invariant forall j :: index <= j < MaxAxes ==>
                      ret[j] == Fin(0.0) && s.backlashState[j] == old(s.backlashState[j])
        {
          var dirstate := Sign(delta[index]);
          if NumNe(dirstate, Fin(0.0)) && NumNe(dirstate, s.backlashState[index]) {
            ret := ret[index := Scale(dirstate, c.backlashCompensation[index])];
            s.backlashState[index] := dirstate;
          }
          index := index + 1;
        }
        if AnyNonzero(ret) {
          compensation := Some(ret);
        }
      } else {
        assert forall j :: 0 <= j < MaxAxes ==> !NumNe(ret[j], Fin(0.0));
      }
      r := ret;
    }

    /** Path.handle_tools: with a tool other than "E", its slot takes the E
        entry and the E entry becomes 0, in both position arrays. */
    method HandleTools(c: Config)
      requires c.WellFormed() && startPos != null && stepperEndPos != null
      requires startPos.Length == MaxAxes && stepperEndPos.Length == MaxAxes
      modifies startPos, stepperEndPos
      ensures startPos[..] == MaybeToolRemap(old(startPos[..]), c.toolSlot, 0.0)
      ensures stepperEndPos[..] == MaybeToolRemap(old(stepperEndPos[..]), c.toolSlot, Fin(0.0))
    {
      if c.toolSlot.Some? {
        var index := c.toolSlot.value;
        startPos[index] := startPos[ExtruderSlot];
        startPos[ExtruderSlot] := 0.0;
        stepperEndPos[index] := stepperEndPos[ExtruderSlot];
        stepperEndPos[ExtruderSlot] := Fin(0.0);
      }
    }

    /** Path.handle_slaves: every slot with a master (the slot of a key of
        Path.slaves whose name is set, while has_slaves holds) copies the
        master's slot, in both position arrays, in slot order. */
    method HandleSlaves(c: Config)
      requires c.WellFormed() && startPos != null && stepperEndPos != null
      requires startPos.Length == MaxAxes && stepperEndPos.Length == MaxAxes
      modifies startPos, stepperEndPos
      ensures startPos[..] == MirrorSlaves(old(startPos[..]), c.masters, startPos.Length)
      ensures stepperEndPos[..] == MirrorSlaves(old(stepperEndPos[..]), c.masters, stepperEndPos.Length)
    {
      var i := 0;
      while i < MaxAxes
        invariant 0 <= i <= MaxAxes
        invariant startPos[..] == MirrorSlaves(old(startPos[..]), c.masters, i)
        invariant stepperEndPos[..] == MirrorSlaves(old(stepperEndPos[..]), c.masters, i)
      {
        if c.masters[i].Some? {
          var m := c.masters[i].value;
          startPos[i] := startPos[m];
          stepperEndPos[i] := stepperEndPos[m];
        }
        i := i + 1;
      }
    }

    /** Steps 8 and 9 of set_prev_common: handle_tools then handle_slaves. */
    method RemapSlots(c: Config)
      requires c.WellFormed() && startPos != null && stepperEndPos != null
      requires startPos.Length == MaxAxes && stepperEndPos.Length == MaxAxes
      modifies startPos, stepperEndPos
      ensures startPos[..] == Remapped(c, old(startPos[..]), 0.0)
      ensures stepperEndPos[..] == Remapped(c, old(stepperEndPos[..]), Fin(0.0))
      ensures unchanged(this)
    {
      HandleTools(c);
      HandleSlaves(c);
    }

    /** The stored fields agree with resolution `r`. */
    predicate Holds(r: Resolution)
      reads this, startPos, endPos, stepperEndPos
    {
      startPos != null && endPos != null && stepperEndPos != null &&
      idealEndPos == r.idealEndPos && levelEndPos == r.levelEndPos && vec == r.vec &&
      numSteps == r.numSteps && delta == r.delta && roundedVec == r.roundedVec &&
      startPos[..] == r.startPos && stepperEndPos[..] == r.stepperEndPos && endPos[..] == r.endPos &&
      (r.columns.Some? ==> startABC == Some(r.columns.value.0) && endABC == Some(r.columns.value.1))
    }

    /** Everything set_prev_common leaves behind for resolution r: the
        positions Holds names, the backlash memory, the stored compensation
        (replaced only when compensation is on and moves some axis, else
        the one held before), and the A/B/C columns, which keep the values
        held before unless the Delta solver produced new ones. */
    ghost predicate Settled(s: Settings, r: Resolution, compensationBefore: Option<seq<Num>>,
                            startABCBefore: Option<Col3>, endABCBefore: Option<Col3>)
      reads this, s, startPos, endPos, stepperEndPos, s.backlashState
    {
      Holds(r) && s.backlashState[..] == r.backlashState &&
      compensation == (if flags.useBacklashCompensation && AnyNonzero(r.compensation) then Some(r.compensation) else compensationBefore) &&
      (r.columns.None? ==> startABC == startABCBefore && endABC == endABCBefore)
    }

    /** Steps 1 and 2 of set_prev_common and the move: the target clamped
        to the soft endstops and levelled by the bed matrix (each when the
        segment enables it), and the move from `start` to it. */
    method Target(c: Config, start: Vec)
      requires c.WellFormed() && IsVec(start) && IsVec(idealEndPos)
      modifies this`idealEndPos, this`levelEndPos, this`vec
      ensures idealEndPos == IdealTarget(c, flags, old(idealEndPos)) && levelEndPos == LevelTarget(c, flags, idealEndPos)
      ensures vec == SubVec(levelEndPos, start)
      ensures unchanged(this`prev, this`next, this`startPos, this`compensation, this`startABC, this`endABC)
    {
      if flags.enableSoftEndstops {
        idealEndPos := ClipVec(idealEndPos, c.softMin, c.softMax);
      }
      levelEndPos := idealEndPos;
      if flags.useBedMatrix {
        levelEndPos := BedLevel(c.bedMatrix, idealEndPos);
      }
      vec := SubVec(levelEndPos, start);
    }

    /** Steps 3 to 5 of set_prev_common: the move into machine space, whole
        steps, and the executed move back in Cartesian space. */
    method Kinematics(c: Config, start: Vec) returns (rv: seq<Num>)
      requires c.WellFormed() && IsVec(start) && IsVec(vec) && prev != this
      modifies this`numSteps, this`delta, this`startABC, this`endABC
      ensures var sc := StartColumns(c, start, old(PrevEndABC()));
              var kv := ToKinematic(c, start, vec, sc);
              numSteps == NumSteps(kv, c.stepsPerMeter) && delta == QuantDelta(kv, c.stepsPerMeter) &&
              rv == FromKinematic(c, delta, sc) &&
              (c.axisConfig == AxisConfigDelta ==> startABC == Some(sc) && endABC == Some(Col3Add(sc, Col3Of(delta))))
      ensures c.axisConfig != AxisConfigDelta ==> startABC == old(startABC) && endABC == old(endABC)
      ensures unchanged(this`prev, this`next, this`startPos, this`compensation, this`idealEndPos, this`levelEndPos, this`vec)
    {
      var kv := TransformVector(c, vec, start);
      numSteps := NumSteps(kv, c.stepsPerMeter);
      delta := QuantDelta(kv, c.stepsPerMeter);
      rv := ReverseTransformVector(c, delta);
    }

    /** Steps 1 to 5 of set_prev_common. */
    method ResolveMotion(c: Config, start: Vec) returns (rv: seq<Num>)
      requires c.WellFormed() && IsVec(start) && IsVec(idealEndPos) && prev != this
      modifies this`idealEndPos, this`levelEndPos, this`vec, this`numSteps, this`delta, this`startABC, this`endABC
      ensures idealEndPos == IdealTarget(c, flags, old(idealEndPos)) && levelEndPos == LevelTarget(c, flags, idealEndPos)
      ensures vec == SubVec(levelEndPos, start)
      ensures var sc := StartColumns(c, start, old(PrevEndABC()));
              var kv := ToKinematic(c, start, vec, sc);
              numSteps == NumSteps(kv, c.stepsPerMeter) && delta == QuantDelta(kv, c.stepsPerMeter) &&
              rv == FromKinematic(c, delta, sc) &&
              (c.axisConfig == AxisConfigDelta ==> startABC == Some(sc) && endABC == Some(Col3Add(sc, Col3Of(delta))))
      ensures c.axisConfig != AxisConfigDelta ==> startABC == old(startABC) && endABC == old(endABC)
      ensures prev == old(prev) && next == old(next) && startPos == old(startPos) && compensation == old(compensation)
    {
      Target(c, start);
      rv := Kinematics(c, start);
    }

    /** Steps 7 to 10 of set_prev_common: the end and stepper positions, the
        tool and slave remapping (in place, on the start array) and the NaN
        collapse, which makes end_pos the start array itself. */
    method UpdatePositions(s: Settings, c: Config, start: Vec, rv: seq<Num>, ghost r: Resolution)
      requires c.WellFormed() && IsVec(start) && |rv| == MaxAxes && |delta| == MaxAxes
      requires startPos != null && startPos[..] == start
      requires idealEndPos == r.idealEndPos && levelEndPos == r.levelEndPos && vec == r.vec && rv == r.roundedVec
      requires r.columns.Some? ==> startABC == Some(r.columns.value.0) && endABC == Some(r.columns.value.1)
      requires r.startPos == Remapped(c, start, 0.0)
      requires r.stepperEndPos == Remapped(c, AddNum(start, delta), Fin(0.0))
      requires AllFinite(rv) ==> numSteps == r.numSteps && delta == r.delta && r.endPos == AddFin(start, rv)
      requires !AllFinite(rv) ==> r.numSteps == Lift(Zeros(MaxAxes)) && r.delta == Lift(Zeros(MaxAxes)) && r.endPos == r.startPos
      modifies this`endPos, this`stepperEndPos, this`roundedVec, this`numSteps, this`delta, startPos
      ensures Holds(r) && fresh(stepperEndPos)
      ensures if r.Collapsed() then endPos == startPos else fresh(endPos)
      ensures unchanged(this`prev, this`next, this`startPos, this`startABC, this`endABC, this`compensation)
      ensures s.backlashState[..] == old(s.backlashState[..])
    {
      PlaceStepper(c, start);
      PlaceEnd(start, rv);
      assert r.Collapsed() <==> !AllFinite(rv);
    }

    /** Steps 7 to 9 of set_prev_common: the stepper end position, then the
        tool and slave remapping of both it and the start array. */
    method PlaceStepper(c: Config, start: Vec)
      requires c.WellFormed() && IsVec(start) && |delta| == MaxAxes
      requires startPos != null && startPos[..] == start
      modifies this`stepperEndPos, startPos
      ensures fresh(stepperEndPos)
      ensures startPos[..] == Remapped(c, start, 0.0) && stepperEndPos[..] == Remapped(c, AddNum(start, delta), Fin(0.0))
      ensures unchanged(this`prev, this`next, this`startPos, this`endPos, this`idealEndPos, this`levelEndPos, this`vec)
      ensures unchanged(this`numSteps, this`delta, this`roundedVec, this`compensation, this`startABC, this`endABC)
    {
      stepperEndPos := ArrayOf(AddNum(start, delta));
      RemapSlots(c);
    }

    /** Steps 7 and 10 of set_prev_common: the end position is the start plus
        the executed move, unless the move holds a NaN, in which case the
        segment collapses onto its start array and moves no step. */
    method PlaceEnd(start: Vec, rv: seq<Num>)
      requires IsVec(start) && |rv| == MaxAxes && startPos != null
      modifies this`endPos, this`roundedVec, this`numSteps, this`delta
      ensures roundedVec == rv
      ensures AllFinite(rv) ==> fresh(endPos) && endPos[..] == AddFin(start, rv) && numSteps == old(numSteps) && delta == old(delta)
      ensures !AllFinite(rv) ==> endPos == startPos && numSteps == Lift(Zeros(MaxAxes)) && delta == Lift(Zeros(MaxAxes))
      ensures unchanged(this`prev, this`next, this`startPos, this`stepperEndPos, this`idealEndPos, this`levelEndPos, this`vec)
      ensures unchanged(this`compensation, this`startABC, this`endABC)
      ensures startPos[..] == old(startPos[..]) && (stepperEndPos != null ==> stepperEndPos[..] == old(stepperEndPos[..]))
    {
      roundedVec := rv;
      if AllFinite(rv) {
        // end_pos = start_pos + vec, from the start position before remapping
        endPos := ArrayOf(AddFin(start, rv));
      } else {
        endPos := startPos;
        numSteps := Lift(Zeros(MaxAxes));
        delta := Lift(Zeros(MaxAxes));
      }
    }

    /** Steps 1 to 6 of set_prev_common. */
    method ResolveAndCompensate(s: Settings, c: Config, start: Vec, ghost r: Resolution) returns (rv: seq<Num>)
      requires c.WellFormed() && s.backlashState.Length == MaxAxes
      requires IsVec(start) && IsVec(idealEndPos) && prev != this
      requires startPos != null && startPos[..] == start
      requires r == Resolve(c, flags, start, idealEndPos, PrevEndABC(), s.backlashState[..])
      modifies this`idealEndPos, this`levelEndPos, this`vec, this`numSteps, this`delta, this`startABC, this`endABC
      modifies s.backlashState, this`compensation
      ensures idealEndPos == r.idealEndPos && levelEndPos == r.levelEndPos && vec == r.vec && rv == r.roundedVec
      ensures |delta| == MaxAxes && r.startPos == Remapped(c, start, 0.0)
      ensures r.stepperEndPos == Remapped(c, AddNum(start, delta), Fin(0.0))
      ensures AllFinite(rv) ==> numSteps == r.numSteps && delta == r.delta && r.endPos == AddFin(start, rv)
      ensures !AllFinite(rv) ==> r.numSteps == Lift(Zeros(MaxAxes)) && r.delta == Lift(Zeros(MaxAxes)) && r.endPos == r.startPos
      ensures r.columns.Some? ==> startABC == Some(r.columns.value.0) && endABC == Some(r.columns.value.1)
      ensures r.columns.None? ==> startABC == old(startABC) && endABC == old(endABC)
      ensures s.backlashState[..] == r.backlashState
      ensures compensation == (if flags.useBacklashCompensation && AnyNonzero(r.compensation) then Some(r.compensation) else old(compensation))
      ensures prev == old(prev) && next == old(next) && startPos == old(startPos) && startPos[..] == start
    {
      ghost var state := s.backlashState[..];
      ghost var requested := idealEndPos;
      ghost var prevEndABC := PrevEndABC();
      rv := ResolveMotion(c, start);
      ResolveFromSteps(c, flags, start, requested, prevEndABC, state, idealEndPos, levelEndPos, vec, numSteps, delta, rv);
      var _ := BacklashCompensate(s, c);
    }

    /** Path.set_prev_common: clamp, level, transform, quantise, reverse
        transform, backlash, end positions, tools, slaves, NaN collapse. A
        collapsed segment's end_pos becomes its start_pos array, so it too
        is the predecessor's end_pos. */
    method SetPrevCommon(s: Settings, c: Config, ghost r: Resolution)
      requires c.WellFormed() && s.backlashState.Length == MaxAxes
      requires startPos != null && startPos.Length == MaxAxes && IsVec(idealEndPos) && prev != this
      requires r == Resolve(c, flags, startPos[..], idealEndPos, PrevEndABC(), s.backlashState[..])
      modifies this`idealEndPos, this`levelEndPos, this`vec, this`numSteps, this`delta, this`roundedVec,
               this`endPos, this`stepperEndPos, this`startABC, this`endABC, this`compensation
      modifies startPos, s.backlashState
      ensures Settled(s, r, old(compensation), old(startABC), old(endABC)) && fresh(stepperEndPos)
      ensures if r.Collapsed() then endPos == startPos else fresh(endPos)
      ensures startPos == old(startPos) && prev == old(prev) && next == old(next)
    {
      var start := startPos[..];
      var rv := ResolveAndCompensate(s, c, start, r);
      UpdatePositions(s, c, start, rv, r);
    }

    /** The linking common to AbsolutePath.set_prev and RelativePath.set_prev:
        this segment follows p and its start_pos is p's end_pos array. */
    method Link(p: Path)
      requires p.Placed() && p != this
      modifies this`prev, p`next, this`startPos
      ensures prev == p && p.next == this && startPos == p.endPos
      ensures p.endPos == old(p.endPos) && p.idealEndPos == old(p.idealEndPos) && PrevEndABC() == old(p.endABC)
      ensures startPos[..] == old(p.endPos[..])
    {
      prev := p;
      p.next := this;
      startPos := p.endPos;
    }

    /** The first half of AbsolutePath.set_prev: link to p, take its end
        position, and aim at its ideal end position with the commanded axes
        replaced. */
    method AimAbsolute(p: Path)
      requires p.Placed() && p != this
      modifies this`prev, p`next, this`startPos, this`endPos, this`idealEndPos
      ensures prev == p && p.next == this && startPos == p.endPos && p.endPos == old(p.endPos)
      ensures startPos[..] == old(p.endPos[..]) && PrevEndABC() == old(p.endABC)
      ensures idealEndPos == Override(old(p.idealEndPos), axes)
      ensures fresh(endPos) && endPos[..] == old(p.endPos[..])
    {
      Link(p);
      endPos := ArrayOf(startPos[..]);
      idealEndPos := Commanded(p.idealEndPos, axes);
    }

    /** AbsolutePath.set_prev: start where the predecessor ended and aim at its
        ideal end position with the commanded axes replaced. */
    method SetPrevAbsolute(s: Settings, p: Path)
      requires s.Valid() && p.Placed() && p != this
      modifies this`prev, this`startPos, p`next, this`idealEndPos, this`levelEndPos, this`vec, this`numSteps, this`delta, this`roundedVec,
               this`endPos, this`stepperEndPos, this`startABC, this`endABC, this`compensation
      modifies p.endPos, s.backlashState
      ensures prev == p && p.next == this && startPos == old(p.endPos) && Placed() && next == old(next)
      ensures var r := old(Resolve(s.Config(), flags, p.endPos[..], Override(p.idealEndPos, axes), p.endABC, s.backlashState[..]));
              Settled(s, r, old(compensation), old(startABC), old(endABC)) &&
              (if r.Collapsed() then endPos == startPos else fresh(endPos)) && fresh(stepperEndPos)
    {
      var c := s.Config();
      ghost var start, requested, state := p.endPos[..], Override(p.idealEndPos, axes), s.backlashState[..];
      AimAbsolute(p);
      assert startPos[..] == start && idealEndPos == requested && s.backlashState[..] == state;
      ghost var r := Resolve(c, flags, start, requested, PrevEndABC(), state);
      SetPrevCommon(s, c, r);
    }

    /** The first half of RelativePath.set_prev: link to p, take its end
        position, and aim at its ideal end position plus the commanded
        displacement. */
    method AimRelative(p: Path)
      requires p.Placed() && p != this
      modifies this`prev, p`next, this`startPos, this`idealEndPos
      ensures prev == p && p.next == this && startPos == p.endPos && p.endPos == old(p.endPos)
      ensures startPos[..] == old(p.endPos[..]) && PrevEndABC() == old(p.endABC)
      ensures idealEndPos == RelativeTarget(old(p.idealEndPos), axes)
    {
      Link(p);
      var v := Commanded(Zeros(MaxAxes), axes);
      idealEndPos := AddVec(p.idealEndPos, v);
    }

    /** RelativePath.set_prev: start where the predecessor ended and aim at its
        ideal end position plus the commanded displacement. */
    method SetPrevRelative(s: Settings, p: Path)
      requires s.Valid() && p.Placed() && p != this
      modifies this`prev, this`startPos, p`next, this`idealEndPos, this`levelEndPos, this`vec, this`numSteps, this`delta, this`roundedVec,
               this`endPos, this`stepperEndPos, this`startABC, this`endABC, this`compensation
      modifies p.endPos, s.backlashState
      ensures prev == p && p.next == this && startPos == old(p.endPos) && Placed() && next == old(next)
      ensures var r := old(Resolve(s.Config(), flags, p.endPos[..], RelativeTarget(p.idealEndPos, axes), p.endABC, s.backlashState[..]));
              Settled(s, r, old(compensation), old(startABC), old(endABC)) &&
              (if r.Collapsed() then endPos == startPos else fresh(endPos)) && fresh(stepperEndPos)
    {
      var c := s.Config();
      ghost var start, requested, state := p.endPos[..], RelativeTarget(p.idealEndPos, axes), s.backlashState[..];
      AimRelative(p);
      assert startPos[..] == start && idealEndPos == requested && s.backlashState[..] == state;
      ghost var r := Resolve(c, flags, start, requested, PrevEndABC(), state);
      SetPrevCommon(s, c, r);
    }

    /** G92Path.set_prev: no motion. The position (and the ideal position)
        becomes the predecessor's, or zero without one, with the commanded
        axes set to the commanded values. */
    method SetPrevG92(p: Path?)
      requires p != null ==> p.Placed() && p != this
      modifies this`prev, this`startPos, this`endPos, this`idealEndPos, this`vec, this`roundedVec
      modifies (if p != null then {p} else {})`next
      ensures prev == p && Placed() && fresh(endPos)
      ensures p != null ==> p.next == this && startPos == old(p.endPos) &&
                            idealEndPos == Override(old(p.idealEndPos), axes) &&
                            endPos[..] == Override(old(p.endPos[..]), axes)
      ensures p == null ==> fresh(startPos) && startPos[..] == Zeros(MaxAxes) &&
                            idealEndPos == Override(Zeros(MaxAxes), axes) &&
                            endPos[..] == Override(Zeros(MaxAxes), axes)
      ensures vec == Zeros(MaxAxes) && roundedVec == Lift(Zeros(MaxAxes))
      ensures startABC == old(startABC) && endABC == old(endABC)
    {
      prev := p;
      var base: Vec;
      if p != null {
        startPos := p.endPos;
        base := p.idealEndPos;
        p.next := this;
      } else {
        startPos := ArrayOf(Zeros(MaxAxes));
        base := Zeros(MaxAxes);
      }
      var end := Commanded(startPos[..], axes);
      endPos := ArrayOf(end);
      idealEndPos := Commanded(base, axes);
      vec := Zeros(MaxAxes);
      roundedVec := Lift(vec);
    }

    /** Path.needs_splitting, given the magnitude get_magnitude returns: an
        arc always splits; otherwise only a Delta machine splits, and only a
        move longer than split_size that commands X or Y. */
    predicate NeedsSplitting(c: Config, mag: real)
      reads this
    {
      movement == G2 || movement == G3 ||
      (c.axisConfig == AxisConfigDelta && mag > splitSize && ('X' in axes || 'Y' in axes))
    }

    /** A straight move that needs splitting is a Delta move of X or Y
        longer than split_size, and so becomes at least one sub-segment. */
    lemma SplitMoveHasSubSegments(c: Config, mag: real)
      requires mag >= 0.0 && NeedsSplitting(c, mag) && movement != G2 && movement != G3
      ensures c.axisConfig == AxisConfigDelta && mag > splitSize && ('X' in axes || 'Y' in axes)
      ensures SegmentCount(mag, splitSize) >= 1
    {
      var q := mag / splitSize;
      assert q > 1.0 by {
        assert q * splitSize == mag;
      }
    }

    /** What get_delta_segments makes of this segment for `target`: a placed
        absolute segment with this segment's speed, acceleration,
        cancelability and bed-matrix switch, backlash compensation off and
        soft endstops on, whose ideal end position is `target` clamped to the
        soft limits. */
    predicate SubSegmentOf(parent: Path, target: Vec, softMin: Vec, softMax: Vec)
      requires IsVec(target) && IsVec(softMin) && IsVec(softMax)
      reads this`endPos, this`idealEndPos
    {
      endPos != null && endPos.Length == MaxAxes && IsVec(idealEndPos) &&
      movement == Movement.Absolute &&
      flags == Flags(parent.flags.useBedMatrix, false, true) &&
      speed == parent.speed && accel == parent.accel && cancelable == parent.cancelable &&
      idealEndPos == ClipVec(target, softMin, softMax)
    }

    /** One round of the loop of get_delta_segments: a new sub-segment that
        commands every axis to `target`, linked after `last`. */
    method NewSubSegment(s: Settings, last: Path, target: Vec) returns (path: Path)
      requires s.Valid() && last.Placed() && IsVec(target)
      modifies last`next, last.endPos, s.backlashState
      ensures fresh(path) && path.axes == AxesMap(target) && path.SubSegmentOf(this, target, s.softMin, s.softMax)
      ensures path.prev == last && last.next == path && path.next == null && path.startPos == last.endPos
      ensures path.endPos == last.endPos || fresh(path.endPos)
      ensures path.Holds(old(Resolve(s.Config(), Flags(flags.useBedMatrix, false, true), last.endPos[..], target, last.endABC, s.backlashState[..])))
      ensures s.backlashState[..] == old(s.backlashState[..])
    {
      ResolveIdeal(s.Config(), Flags(flags.useBedMatrix, false, true), last.endPos[..], target, last.endABC, s.backlashState[..]);
      path := new Path.Absolute(AxesMap(target), speed, accel, cancelable, flags.useBedMatrix, false, true);
      path.SetPrevFull(s, last, target);
    }

    /** AbsolutePath.set_prev for a segment that commands every axis to
        `target` with backlash compensation off: its ideal end position is
        `target` clamped to the soft limits when it enables them, and the
        backlash memory is left as it was. */
    method SetPrevFull(s: Settings, last: Path, target: Vec)
      requires s.Valid() && last.Placed() && last != this && IsVec(target)
      requires axes == AxesMap(target) && !flags.useBacklashCompensation && next == null
      modifies this`prev, this`startPos, last`next, this`idealEndPos, this`levelEndPos, this`vec, this`numSteps, this`delta, this`roundedVec,
               this`endPos, this`stepperEndPos, this`startABC, this`endABC, this`compensation
      modifies last.endPos, s.backlashState
      ensures prev == last && last.next == this && next == null && startPos == last.endPos
      ensures endPos == last.endPos || fresh(endPos)
      ensures Holds(old(Resolve(s.Config(), flags, last.endPos[..], target, last.endABC, s.backlashState[..])))
      ensures s.backlashState[..] == old(s.backlashState[..])
    {
      var c := s.Config();
      ghost var start, state := last.endPos[..], s.backlashState[..];
      AimFull(last, target);
      assert startPos[..] == start && s.backlashState[..] == state;
      ghost var r := Resolve(c, flags, start, target, PrevEndABC(), state);
      SetPrevCommon(s, c, r);
    }

    /** AimAbsolute for a segment that commands every axis: its ideal end
        position is the command itself. */
    method AimFull(p: Path, target: Vec)
      requires p.Placed() && p != this && IsVec(target) && axes == AxesMap(target)
      modifies this`prev, p`next, this`startPos, this`endPos, this`idealEndPos
      ensures prev == p && p.next == this && startPos == p.endPos && p.endPos == old(p.endPos)
      ensures startPos[..] == old(p.endPos[..]) && PrevEndABC() == old(p.endABC)
      ensures idealEndPos == target && fresh(endPos)
    {
      OverrideByFullCommand(p.idealEndPos, target);
      AimAbsolute(p);
    }

    /** Path.get_delta_segments, given the magnitude of the move. A move that
        needs no splitting is returned alone. Otherwise it becomes
        SegmentCount(mag, split_size) sub-segments aimed at the linspace
        points from the predecessor's ideal end position to this one's: the
        first follows this segment's predecessor, every other one the
        sub-segment before it, and the last one aims at this segment's ideal
        end position. */
    method GetDeltaSegments(s: Settings, mag: real) returns (segs: seq<Path>)
      requires s.Valid() && IsVec(idealEndPos) && mag >= 0.0
      requires NeedsSplitting(s.Config(), mag) ==> prev != null && prev.Placed() && prev != this
      modifies (if prev != null then {prev} else {})`next, s.backlashState, if prev != null && prev.endPos != null then {prev.endPos} else {}
      ensures !NeedsSplitting(s.Config(), mag) ==>
                segs == [this] && s.backlashState[..] == old(s.backlashState[..]) &&
                (prev != null ==> prev.next == old(prev.next) && prev.endPos == old(prev.endPos) &&
                                  (prev.endPos != null ==> prev.endPos[..] == old(prev.endPos[..])))
      ensures NeedsSplitting(s.Config(), mag) ==>
                var n := SegmentCount(mag, splitSize);
                var a := old(prev.idealEndPos);
                |segs| == n && s.backlashState[..] == old(s.backlashState[..]) &&
                (forall k :: 0 <= k < n ==>
                   fresh(segs[k]) && segs[k].SubSegmentOf(this, SplitPoint(a, idealEndPos, n, k + 1), s.softMin, s.softMax)) &&
                (n > 0 ==> segs[0].prev == prev && prev.next == segs[0] && segs[0].startPos == old(prev.endPos) &&
                           segs[n - 1].next == null &&
                           segs[n - 1].idealEndPos == ClipVec(idealEndPos, s.softMin, s.softMax)) &&
                (forall k :: 1 <= k < n ==>
                   segs[k].prev == segs[k - 1] && segs[k - 1].next == segs[k] && segs[k].startPos == segs[k - 1].endPos)
    {
      var c := s.Config();
      if !NeedsSplitting(c, mag) {
        return [this];
      }
      var n := SegmentCount(mag, splitSize);
      var a, b := prev.idealEndPos, idealEndPos;
      var targets := seq(n, k requires 0 <= k < n => SplitPoint(a, b, n, k + 1));
      segs := SplitAfter(s, prev, targets);
      if n > 0 {
        SplitEnds(a, b, n);
      }
    }

    /** The loop of get_delta_segments: one sub-segment per target, the
        first linked after `first` and each later one after the one before. */
    method SplitAfter(s: Settings, first: Path, targets: seq<Vec>) returns (segs: seq<Path>)
      requires s.Valid() && first.Placed() && forall k :: 0 <= k < |targets| ==> IsVec(targets[k])
      modifies first`next, first.endPos, s.backlashState
      ensures |segs| == |targets| && s.backlashState[..] == old(s.backlashState[..])
      ensures forall k :: 0 <= k < |targets| ==> fresh(segs[k]) && segs[k].SubSegmentOf(this, targets[k], s.softMin, s.softMax)
      ensures |segs| > 0 ==> segs[0].prev == first && first.next == segs[0] && segs[0].startPos == first.endPos &&
                             segs[|segs| - 1].next == null
      ensures forall k :: 1 <= k < |segs| ==>
                segs[k].prev == segs[k - 1] && segs[k - 1].next == segs[k] && segs[k].startPos == segs[k - 1].endPos
    {
      var firstEnd := first.endPos;
      var last := first;
      segs := [];
      while |segs| < |targets|
        invariant |segs| <= |targets| && first.endPos == firstEnd && s.backlashState[..] == old(s.backlashState[..])
        invariant last.Placed() && (last.endPos == firstEnd || fresh(last.endPos))
        invariant |segs| == 0 ==> last == first
        invariant |segs| > 0 ==> last == segs[|segs| - 1] && last.next == null
        invariant forall k :: 0 <= k < |segs| ==> fresh(segs[k]) && segs[k].SubSegmentOf(this, targets[k], s.softMin, s.softMax)
        invariant |segs| > 0 ==> segs[0].prev == first && first.next == segs[0] && segs[0].startPos == firstEnd
        invariant forall k :: 1 <= k < |segs| ==>
                    segs[k].prev == segs[k - 1] && segs[k - 1].next == segs[k] && segs[k].startPos == segs[k - 1].endPos
      {
        var path := LinkNext(s, first, firstEnd, targets, segs, last);
        segs := segs + [path];
        last := path;
      }
    }

    /** One round of that loop: the sub-segment for the next target, linked
        after the last one, keeps the chain. */
    method LinkNext(s: Settings, first: Path, firstEnd: array<real>, targets: seq<Vec>, segs: seq<Path>, last: Path)
      returns (path: Path)
      requires s.Valid() && last.Placed() && |segs| < |targets| && IsVec(targets[|segs|])
      requires forall k :: 0 <= k < |segs| ==> IsVec(targets[k])
      requires first.endPos == firstEnd
      requires |segs| == 0 ==> last == first
      requires |segs| > 0 ==> last == segs[|segs| - 1] && last.next == null
      requires forall k :: 0 <= k < |segs| ==> segs[k].SubSegmentOf(this, targets[k], s.softMin, s.softMax)
      requires |segs| > 0 ==> segs[0].prev == first && first.next == segs[0] && segs[0].startPos == firstEnd
      requires forall k :: 1 <= k < |segs| ==>
                 segs[k].prev == segs[k - 1] && segs[k - 1].next == segs[k] && segs[k].startPos == segs[k - 1].endPos
      modifies last`next, last.endPos, s.backlashState
      ensures fresh(path) && path.Placed() && path.next == null && (path.endPos == last.endPos || fresh(path.endPos))
      ensures first.endPos == firstEnd && s.backlashState[..] == old(s.backlashState[..])
      ensures forall k :: 0 <= k <= |segs| ==> (segs + [path])[k].SubSegmentOf(this, targets[k], s.softMin, s.softMax)
      ensures (segs + [path])[0].prev == first && first.next == (segs + [path])[0] && (segs + [path])[0].startPos == firstEnd
      ensures forall k :: 1 <= k <= |segs| ==>
                (segs + [path])[k].prev == (segs + [path])[k - 1] && (segs + [path])[k - 1].next == (segs + [path])[k] &&
                (segs + [path])[k].startPos == (segs + [path])[k - 1].endPos
    {
      path := NextSubSegment(s, last, targets[|segs|]);
    }

    /** NewSubSegment as the loop uses it: the sub-segment, its command, its
        links and its target. Its resolution is left aside, since the next
        round remaps its end_pos array in place. */
    method NextSubSegment(s: Settings, last: Path, target: Vec) returns (path: Path)
      requires s.Valid() && last.Placed() && IsVec(target)
      modifies last`next, last.endPos, s.backlashState
      ensures fresh(path) && path.axes == AxesMap(target) && path.SubSegmentOf(this, target, s.softMin, s.softMax)
      ensures path.prev == last && last.next == path && path.next == null && path.startPos == last.endPos
      ensures path.endPos == last.endPos || fresh(path.endPos)
      ensures s.backlashState[..] == old(s.backlashState[..])
    {
      path := NewSubSegment(s, last, target);
    }
  }
}

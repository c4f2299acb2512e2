/** The class-level state of Path that every segment shares: the per-axis
    settings read from the configuration, the backlash direction memory,
    the slave table, the machine geometry, the bed-levelling matrix and the
    printer's active tool. */
module Machine {
  import opened Numeric
  import opened Axes
  import opened Transform
  import opened Positions
  import opened Remap
  import opened Pipeline

  class Settings {
    var stepsPerMeter: seq<real>
    var backlashCompensation: seq<real>
    var softMin: seq<real>
    var softMax: seq<real>
    /** Path.backlash_state: updated in place by backlash_compensate,
        replaced by backlash_reset. */
    var backlashState: array<Num>
    /** Path.slaves by slot of its key: the name of the axis whose position
        that slot copies, "" for none. */
    var slaves: seq<string>
    var hasSlaves: bool
    var axisConfig: int
    var bedMatrix: Matrix3
    /** Path.printer.current_tool. */
    var currentTool: string
    /** Delta.inverse_kinematics2 and Delta.forward_kinematics2. */
    const inverseKinematics: (real, real, real) -> Col3
    const forwardKinematics: Col3 -> Col3

    /** Every per-axis table has one entry per axis, and every name the
        pipeline will look up (slave names, the active tool) is an axis. */
    predicate Valid()
      reads this
    {
      |stepsPerMeter| == MaxAxes && |backlashCompensation| == MaxAxes &&
      |softMin| == MaxAxes && |softMax| == MaxAxes &&
      backlashState.Length == MaxAxes &&
      |slaves| == MaxAxes &&
      (forall i :: 0 <= i < MaxAxes && slaves[i] != [] ==> AxisToIndex(slaves[i]).Some?) &&
      (currentTool != "E" ==> AxisToIndex(currentTool).Some?)
    }

    /** The settings as the pipeline sees them. */
    function Config(): (c: Config)
      requires Valid()
      reads this
      ensures c.WellFormed()
    {
      Pipeline.Config(axisConfig, stepsPerMeter, backlashCompensation, softMin, softMax, bedMatrix,
             ToolSlot(currentTool), MastersOf(slaves, hasSlaves), inverseKinematics, forwardKinematics)
    }

    /** The class attributes before any configuration: one step per metre,
        no backlash distance, zero soft limits, an empty direction memory, no
        slaves, an XY machine, the identity bed matrix and tool "E". */
    constructor(inverseKinematics: (real, real, real) -> Col3, forwardKinematics: Col3 -> Col3)
      ensures Valid()
      ensures stepsPerMeter == seq(MaxAxes, _ => 1.0)
      ensures backlashCompensation == Zeros(MaxAxes) && softMin == Zeros(MaxAxes) && softMax == Zeros(MaxAxes)
      ensures fresh(backlashState) && backlashState[..] == Lift(Zeros(MaxAxes))
      ensures slaves == seq(MaxAxes, _ => []) && !hasSlaves
      ensures axisConfig == AxisConfigXY && bedMatrix == Identity3 && currentTool == "E"
      ensures this.inverseKinematics == inverseKinematics && this.forwardKinematics == forwardKinematics
    {
      stepsPerMeter := seq(MaxAxes, _ => 1.0);
      backlashCompensation := Zeros(MaxAxes);
      softMin := Zeros(MaxAxes);
      softMax := Zeros(MaxAxes);
      backlashState := new Num[MaxAxes](_ => Fin(0.0));
      slaves := seq(MaxAxes, _ => []);
      hasSlaves := false;
      axisConfig := AxisConfigXY;
      bedMatrix := Identity3;
      currentTool := "E";
      this.inverseKinematics := inverseKinematics;
      this.forwardKinematics := forwardKinematics;
    }

    /** Path.add_slave: `slaves[master] = slave` and slave handling on. */
    method AddSlave(master: char, slave: string)
      requires Valid() && SlotOf(master).Some? && (slave == [] || AxisToIndex(slave).Some?)
      modifies this`slaves, this`hasSlaves
      ensures Valid() && hasSlaves
      ensures slaves == old(slaves)[SlotOf(master).value := slave]
    {
      slaves := slaves[SlotOf(master).value := slave];
      hasSlaves := true;
    }

    /** Path.backlash_reset: a new, all-zero direction memory. */
    method BacklashReset()
      requires Valid()
      modifies this`backlashState
      ensures Valid() && fresh(backlashState)
      ensures backlashState[..] == Lift(Zeros(MaxAxes))
    {
      backlashState := new Num[MaxAxes](_ => Fin(0.0));
    }

    /** Path.update_autolevel_matrix with the matrix that
        BedCompensation.create_rotation_matrix built from the probe data. */
    method UpdateAutolevelMatrix(m: Matrix3)
      requires Valid()
      modifies this`bedMatrix
      ensures Valid() && bedMatrix == m
    {
      bedMatrix := m;
    }
  }

  /** After add_slave(master, slave) on a fresh table, the pipeline copies the
      position of `slave` into `master`'s slot and leaves every other slot,
      `slave`'s included, alone. */
  lemma {:induction false} AddSlaveEffect<T>(v: seq<T>, master: char, slave: char)
    requires SlotOf(master).Some? && SlotOf(slave).Some? && master != slave && |v| == MaxAxes
    ensures var m, s := SlotOf(master).value, SlotOf(slave).value;
            var table := seq(MaxAxes, _ => [])[m := [slave]];
            var r := MirrorSlaves(v, MastersOf(table, true), MaxAxes);
            r[m] == v[s] && forall i :: 0 <= i < MaxAxes && i != m ==> r[i] == v[i]
  {
    var m, s := SlotOf(master).value, SlotOf(slave).value;
    IndexRoundTrip(s);
    assert [AXES[s]] == [slave] by {
      assert OccursAt([slave], s);
    }
    assert m != s by {
      assert OccursAt([master], m);
    }
    AddSlaveCopiesIntoMaster(v, m, s);
  }
}

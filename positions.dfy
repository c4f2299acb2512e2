/** Per-axis position vectors: the targets of absolute, relative and G92
    segments, the soft-endstop clamp and the bed-levelling matrix. */
module Positions {
  import opened Numeric
  import opened Axes

  /** A full position or displacement over the eight axes. */
  type Vec = seq<real>

  predicate IsVec(v: seq<real>) {
    |v| == MaxAxes
  }

  function SubVec(a: Vec, b: Vec): (r: Vec)
    requires |a| == |b|
    ensures |r| == |a| && forall i :: 0 <= i < |a| ==> r[i] == a[i] - b[i]
  {
    seq(|a|, i requires 0 <= i < |a| => a[i] - b[i])
  }

  function AddVec(a: Vec, b: Vec): (r: Vec)
    requires |a| == |b|
    ensures |r| == |a| && forall i :: 0 <= i < |a| ==> r[i] == a[i] + b[i]
  {
    seq(|a|, i requires 0 <= i < |a| => a[i] + b[i])
  }

  /** The float64 view of a vector of finite values. */
  function Lift(v: Vec): (r: seq<Num>)
    ensures |r| == |v| && forall i :: 0 <= i < |v| ==> r[i] == Fin(v[i])
  {
    seq(|v|, i requires 0 <= i < |v| => Fin(v[i]))
  }

  function Zeros(n: nat): (r: Vec)
    ensures |r| == n && forall i :: 0 <= i < n ==> r[i] == 0.0
  {
    seq(n, _ => 0.0)
  }

  // ---- targets of the three kinds of segment

  /** The slot of an axis letter (0..7), when it is one. */
  function SlotOf(c: char): Option<nat> {
    AxisToIndex([c])
  }

  /** AbsolutePath and G92Path: `base` with every axis named in the command
      replaced by its commanded value. Names that are not axis letters are
      ignored. */
  function Override(base: Vec, axes: map<char, real>): (r: Vec)
    requires IsVec(base)
    ensures IsVec(r)
    ensures forall i :: 0 <= i < MaxAxes ==> r[i] == if AXES[i] in axes then axes[AXES[i]] else base[i]
  {
    seq(MaxAxes, i requires 0 <= i < MaxAxes => if AXES[i] in axes then axes[AXES[i]] else base[i])
  }

  /** RelativePath: the command as a displacement, 0 on the axes it omits. */
  function CommandVec(axes: map<char, real>): (r: Vec)
    ensures IsVec(r)
  {
    Override(Zeros(MaxAxes), axes)
  }

  /** RelativePath: `prev.ideal_end_pos + vec`. */
  function RelativeTarget(prevIdeal: Vec, axes: map<char, real>): (r: Vec)
    requires IsVec(prevIdeal)
    ensures IsVec(r)
  {
    AddVec(prevIdeal, CommandVec(axes))
  }

  /** The absolute command that reaches the same place as relative command
      `rel` from `prevIdeal`: each commanded axis becomes previous plus offset. */
  function AbsoluteOf(prevIdeal: Vec, rel: map<char, real>): map<char, real>
    requires IsVec(prevIdeal)
  {
    map c | c in rel && c in AXES ::
      match SlotOf(c)
      case Some(j) => prevIdeal[j] + rel[c]
      case None => rel[c]
  }

  /** A relative move and the absolute move to "previous plus offset" on the
      same axes request the same ideal end position; every axis left out of
      the command keeps the previous ideal value. */
  lemma {:induction false} RelativeIsShiftedAbsolute(prevIdeal: Vec, rel: map<char, real>)
    requires IsVec(prevIdeal)
    ensures RelativeTarget(prevIdeal, rel) == Override(prevIdeal, AbsoluteOf(prevIdeal, rel))
    ensures forall i :: 0 <= i < MaxAxes && AXES[i] !in rel ==> RelativeTarget(prevIdeal, rel)[i] == prevIdeal[i]
  {
    var lhs := RelativeTarget(prevIdeal, rel);
    var rhs := Override(prevIdeal, AbsoluteOf(prevIdeal, rel));
    forall i | 0 <= i < MaxAxes
      ensures lhs[i] == rhs[i]
    {
      IndexRoundTrip(i);
    }
  }

  /** The command that names all eight axes with the values of `vals`. */
  function AxesMap(vals: Vec): (m: map<char, real>)
    requires IsVec(vals)
  {
    map c | c in AXES ::
      match SlotOf(c)
      case Some(j) => vals[j]
      case None => 0.0
  }

  /** A command naming every axis fixes the whole target, whatever the base. */
  lemma {:induction false} OverrideByFullCommand(base: Vec, vals: Vec)
    requires IsVec(base) && IsVec(vals)
    ensures Override(base, AxesMap(vals)) == vals
  {
    var r := Override(base, AxesMap(vals));
    forall i | 0 <= i < MaxAxes
      ensures r[i] == vals[i]
    {
      IndexRoundTrip(i);
    }
  }

  // ---- soft endstops

  /** np.clip(v, soft_min, soft_max), component by component. */
  function ClipVec(v: Vec, lo: Vec, hi: Vec): (r: Vec)
    requires |v| == |lo| == |hi|
    ensures |r| == |v|
    ensures forall i :: 0 <= i < |v| && lo[i] <= hi[i] ==> lo[i] <= r[i] <= hi[i]
    ensures forall i :: 0 <= i < |v| && lo[i] <= v[i] <= hi[i] ==> r[i] == v[i]
    ensures forall i :: 0 <= i < |v| ==> r[i] == Clip(v[i], lo[i], hi[i])
  {
    seq(|v|, i requires 0 <= i < |v| => Clip(v[i], lo[i], hi[i]))
  }

  /** Clamping twice is clamping once, whatever the limits. */
  lemma ClipVecIdempotent(v: Vec, lo: Vec, hi: Vec)
    requires |v| == |lo| == |hi|
    ensures ClipVec(ClipVec(v, lo, hi), lo, hi) == ClipVec(v, lo, hi)
  {
  }

  // ---- bed levelling

  /** A 3x3 matrix, row by row. */
  datatype Matrix3 = Matrix3(m00: real, m01: real, m02: real,
                             m10: real, m11: real, m12: real,
                             m20: real, m21: real, m22: real)

  const Identity3: Matrix3 := Matrix3(1.0, 0.0, 0.0, 0.0, 1.0, 0.0, 0.0, 0.0, 1.0)

  /** `level_end_pos[:3] = np.dot(matrix_bed_comp, ideal_end_pos[:3])`; the
      other axes pass through. */
  function BedLevel(m: Matrix3, v: Vec): (r: Vec)
    requires |v| >= 3
    ensures |r| == |v| && r[3..] == v[3..]
    ensures r[0] == Row(m.m00, m.m01, m.m02, v)
    ensures r[1] == Row(m.m10, m.m11, m.m12, v)
    ensures r[2] == Row(m.m20, m.m21, m.m22, v)
  {
    [Row(m.m00, m.m01, m.m02, v), Row(m.m10, m.m11, m.m12, v), Row(m.m20, m.m21, m.m22, v)] + v[3..]
  }

  /** One row of the levelling matrix applied to the first three axes. */
  function Row(x: real, y: real, z: real, v: Vec): real
    requires |v| >= 3
  {
    x * v[0] + y * v[1] + z * v[2]
  }

  /** With the identity matrix (the default before any probing) levelling
      changes nothing. */
  lemma {:induction false} BedLevelIdentity(v: Vec)
    requires |v| >= 3
    ensures BedLevel(Identity3, v) == v
  {
    assert v == [v[0], v[1], v[2]] + v[3..];
  }

  /** Levelling is linear: the levelled difference of two positions is the
      difference of the levelled positions, so a move between two levelled
      points is the levelled move. */
  lemma {:induction false} BedLevelLinear(m: Matrix3, a: Vec, b: Vec)
    requires IsVec(a) && IsVec(b)
    ensures BedLevel(m, SubVec(a, b)) == SubVec(BedLevel(m, a), BedLevel(m, b))
  {
    var d := SubVec(a, b);
    var la, lb := BedLevel(m, a), BedLevel(m, b);
    var l, r := BedLevel(m, d), SubVec(la, lb);
    RowLinear(m.m00, m.m01, m.m02, a, b);
    RowLinear(m.m10, m.m11, m.m12, a, b);
    RowLinear(m.m20, m.m21, m.m22, a, b);
    forall i | 3 <= i < MaxAxes
      ensures l[i] == r[i]
    {
      assert l[i] == l[3..][i - 3] == d[i];
      assert la[i] == la[3..][i - 3] == a[i];
      assert lb[i] == lb[3..][i - 3] == b[i];
    }
  }

  /** One row of the matrix applied to a difference. */
  lemma RowLinear(x: real, y: real, z: real, a: Vec, b: Vec)
    requires |a| == |b| >= 3
    ensures Row(x, y, z, SubVec(a, b)) == Row(x, y, z, a) - Row(x, y, z, b)
  {
    var d := SubVec(a, b);
    assert d[0] == a[0] - b[0] && d[1] == a[1] - b[1] && d[2] == a[2] - b[2];
  }
}

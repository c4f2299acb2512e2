/** The coordinate transforms of Path.transform_vector and
    Path.reverse_transform_vector: the fixed 2x2 belt matrices of the H-belt
    and CoreXY machines, and the column arithmetic around the Delta
    kinematics, whose formulas live outside this model. */
module Transform {
  import opened Numeric

  /** Values of Path.axis_config. Any other value matches no branch of the
      transforms and so behaves like the Cartesian identity. */
  const AxisConfigXY: int := 0
  const AxisConfigHBelt: int := 1
  const AxisConfigCoreXY: int := 2
  const AxisConfigDelta: int := 3

  /** The matrix [[a, b], [c, d]]. */
  datatype Matrix2 = Matrix2(a: real, b: real, c: real, d: real)

  const Identity2: Matrix2 := Matrix2(1.0, 0.0, 0.0, 1.0)
  const MatrixH: Matrix2 := Matrix2(-0.5, 0.5, -0.5, -0.5)
  /** np.linalg.inv(matrix_H); for this matrix the float result is exact. */
  const MatrixHInv: Matrix2 := Matrix2(-1.0, -1.0, 1.0, -1.0)
  const MatrixXY: Matrix2 := Matrix2(1.0, 1.0, 1.0, -1.0)
  /** np.linalg.inv(matrix_XY); for this matrix the float result is exact. */
  const MatrixXYInv: Matrix2 := Matrix2(0.5, 0.5, 0.5, -0.5)

  function Mul2(m: Matrix2, n: Matrix2): Matrix2 {
    Matrix2(m.a * n.a + m.b * n.c, m.a * n.b + m.b * n.d,
            m.c * n.a + m.d * n.c, m.c * n.b + m.d * n.d)
  }

  /** The precomputed inverses are two-sided inverses of the belt matrices. */
  lemma InversesAreExact()
    ensures Mul2(MatrixH, MatrixHInv) == Identity2 && Mul2(MatrixHInv, MatrixH) == Identity2
    ensures Mul2(MatrixXY, MatrixXYInv) == Identity2 && Mul2(MatrixXYInv, MatrixXY) == Identity2
  {
  }

  /** `ret[:2] = np.dot(m, v[0:2])`; a NaN in either input slot poisons both
      output slots, and slots 2.. are copied. */
  function Apply2(m: Matrix2, v: seq<Num>): (r: seq<Num>)
    requires |v| >= 2
    ensures |r| == |v| && r[2..] == v[2..]
    ensures v[0].NaN? || v[1].NaN? <==> r[0].NaN? && r[1].NaN?
  {
    var x, y := v[0], v[1];
    if x.NaN? || y.NaN? then [NaN, NaN] + v[2..]
    else [Fin(m.a * x.v + m.b * y.v), Fin(m.c * x.v + m.d * y.v)] + v[2..]
  }

  predicate IsLinearConfig(config: int) {
    config != AxisConfigDelta
  }

  /** transform_vector outside Delta mode: H-belt applies inv(matrix_H),
      CoreXY applies matrix_XY, every other configuration is the identity. */
  function TransformLinear(config: int, v: seq<Num>): (r: seq<Num>)
    requires |v| >= 2 && IsLinearConfig(config)
    ensures |r| == |v| && r[2..] == v[2..]
  {
    if config == AxisConfigHBelt then Apply2(MatrixHInv, v)
    else if config == AxisConfigCoreXY then Apply2(MatrixXY, v)
    else v
  }

  /** reverse_transform_vector outside Delta mode: the opposite matrices. */
  function ReverseLinear(config: int, v: seq<Num>): (r: seq<Num>)
    requires |v| >= 2 && IsLinearConfig(config)
    ensures |r| == |v| && r[2..] == v[2..]
  {
    if config == AxisConfigHBelt then Apply2(MatrixH, v)
    else if config == AxisConfigCoreXY then Apply2(MatrixXYInv, v)
    else v
  }

  predicate IsBeltConfig(config: int) {
    config == AxisConfigHBelt || config == AxisConfigCoreXY
  }

  /** Round trip of the linear transforms: reverse(transform(v)) gives v back
      exactly when the X and Y slots are both numbers or both NaN; on a
      Cartesian machine it always does. */
  lemma {:induction false} LinearRoundTrip(config: int, v: seq<Num>)
    requires |v| >= 2 && IsLinearConfig(config)
    ensures !IsBeltConfig(config) ==> ReverseLinear(config, TransformLinear(config, v)) == v
    ensures IsBeltConfig(config) ==>
              (ReverseLinear(config, TransformLinear(config, v)) == v <==> v[0].NaN? == v[1].NaN?)
  {
    var w := TransformLinear(config, v);
    var u := ReverseLinear(config, w);
    assert v == [v[0], v[1]] + v[2..];
    if IsBeltConfig(config) && v[0].Fin? && v[1].Fin? {
      var x, y := v[0].v, v[1].v;
      if config == AxisConfigHBelt {
        assert w == [Fin(-x - y), Fin(x - y)] + v[2..];
        assert u == [Fin(x), Fin(y)] + v[2..];
      } else {
        assert w == [Fin(x + y), Fin(x - y)] + v[2..];
        assert u == [Fin(x), Fin(y)] + v[2..];
      }
    } else if IsBeltConfig(config) && v[0].NaN? != v[1].NaN? {
      assert u[0].NaN? && u[1].NaN?;
    }
  }

  /** Three Delta column positions; each may be NaN. */
  datatype Col3 = Col3(a: Num, b: Num, c: Num)

  predicate HasNaN(p: Col3) {
    p.a.NaN? || p.b.NaN? || p.c.NaN?
  }

  function Col3Add(p: Col3, q: Col3): Col3 {
    Col3(Add(p.a, q.a), Add(p.b, q.b), Add(p.c, q.c))
  }

  function Col3Sub(p: Col3, q: Col3): Col3 {
    Col3(Sub(p.a, q.a), Sub(p.b, q.b), Sub(p.c, q.c))
  }

  /** The first three slots of a vector as a column triple. */
  function Col3Of(v: seq<Num>): Col3
    requires |v| >= 3
  {
    Col3(v[0], v[1], v[2])
  }

  /** Delta branch of transform_vector: `ret_vec[:3] = end_ABC - start_ABC`. */
  function DeltaTransform(startABC: Col3, endABC: Col3, v: seq<Num>): (r: seq<Num>)
    requires |v| >= 3
    ensures |r| == |v| && r[3..] == v[3..]
    ensures Col3Of(r) == Col3Sub(endABC, startABC)
  {
    var d := Col3Sub(endABC, startABC);
    [d.a, d.b, d.c] + v[3..]
  }

  /** Delta branch of reverse_transform_vector: the quantised column moves
      `d[:3]` are added to the start columns, and the Cartesian move is the
      difference of the forward kinematics at the two column positions. */
  function DeltaReverse(startABC: Col3, forward: Col3 -> Col3, d: seq<Num>): (r: seq<Num>)
    requires |d| >= 3
    ensures |r| == |d| && r[3..] == d[3..]
    ensures Col3Of(r) == Col3Sub(forward(Col3Add(startABC, Col3Of(d))), forward(startABC))
  {
    var p := Col3Sub(forward(Col3Add(startABC, Col3Of(d))), forward(startABC));
    [p.a, p.b, p.c] + d[3..]
  }
}

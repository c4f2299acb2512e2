# Redeem motion segments in Dafny

This project models the motion-segment core of the Redeem printer firmware,
`redeem/Path.py`. A `Path` is one requested move. Linking it to its
predecessor with `set_prev` fixes where it starts and what it aims for, and
then `set_prev_common` resolves it against the process-wide settings held as
class attributes of `Path`. The pipeline runs these steps in order:

1. clamp to the soft endstops;
2. multiply by the bed-levelling matrix;
3. transform into machine space (Cartesian, H-belt, CoreXY or Delta);
4. quantise to whole steps;
5. transform back;
6. update the backlash direction memory;
7. compute the end and stepper positions;
8. remap the tool's slot in place;
9. mirror the slave slots in place;
10. collapse a segment whose executed move holds a NaN.

On a Delta machine, `get_delta_segments` breaks a long move into chained
absolute sub-segments.

The model has two layers.

**Value layer (functions and lemmas).**
- `Numeric`: numpy's rounding, sign and clip. A float is `Num`, either a finite real or `NaN`.
- `Axes`: the axis names `"XYZEHABC"`, with `axis_to_index` and `index_to_axis`.
- `Transform`: the belt matrices and the Delta column arithmetic.
- `Positions`: absolute, relative and G92 targets, the clamp and bed levelling.
- `Quantise`, `Backlash`, `Remap` and `Splitting`: the remaining steps.
- `Pipeline`: the whole of `set_prev_common` as one function, `Resolve`, together with the lemmas that say what it guarantees.

**Imperative layer (module `Machine`, module `Paths`).**
- `Machine.Settings` is a class holding the shared class attributes. Its `backlashState` is an array updated in place.
- `Paths.Path` is a class whose methods assign the segment's fields step by step, as the Python methods do.
- `start_pos` is the predecessor's `end_pos` array itself. So the in-place tool and slave remapping also rewrites the predecessor, and a collapsed segment's `end_pos` is that same array.
- `set_prev` of an absolute or a relative segment is proved to leave every resolved field equal to `Resolve` of its start, its target and the shared direction memory (the predicate `Path.Holds`). The same proof covers the stored `compensation`, the memory's new value and, off Delta machines, the untouched `start_ABC` and `end_ABC` (the predicate `Path.Settled`).
- `NewSubSegment` states `Holds` for one sub-segment, against the memory and the predecessor's end position as they were before it was linked. `SplitAfter` and `GetDeltaSegments` state the links and targets of every sub-segment but not each one's resolution (see "Left out").
- A G92 segment does not go through `Resolve`. `SetPrevG92` states its fields directly.
- The properties of `Resolve` are proved as lemmas in `Pipeline`.

Behaviour of the code that the model keeps:
- **Unknown `axis_config`.** A value of `axis_config` other than the four known ones matches no branch of `transform_vector` or `reverse_transform_vector`. Such a machine moves like a Cartesian one.
- **Clamped ideal end position.** `set_prev_common` overwrites `ideal_end_pos` with the clamped value. The next segment's relative move therefore starts from the clamped position.
- **Columns after a collapse.** On a Delta machine `reverse_transform_vector` advances `end_ABC` before the NaN collapse, and the collapse resets only `end_pos`, `num_steps` and `delta`. A collapsed segment therefore hands on columns that have moved while its end position has not (CollapsedDeltaStillAdvancesColumns and UnitXColumnMoves).
- **Sub-segment count.** `get_delta_segments` asks `np.linspace` for `round(magnitude / split_size) + 1` points and deletes the first. A split move therefore has `round(magnitude / split_size)` sub-segments.
- **Slave direction.** `add_slave(master, slave)` stores `slaves[master] = slave`, and `handle_slaves` reads the key as the copying slot. So the axis passed as `master` copies the one passed as `slave`.
- **First move after a reset.** `backlash_reset` sets every stored direction to 0, and 0 differs from any non-zero direction. So the first move of each axis after a reset is compensated too.
- **G92 segments.** The `G92Path` constructor drops its `cancelable` argument and uses the default switches.

## Model

| member | source | states |
|---|---|---|
| Axes.AxisToIndex | redeem/Path.py:402-404 | the slot is the first position where the name occurs in `"XYZEHABC"`, no earlier position matches, and None (Python's ValueError) exactly when it occurs nowhere |
| Axes.IndexToAxis | redeem/Path.py:406-408 | defined exactly for -8..7; 0..7 give that letter and negative indices count from the end |
| Axes.IndexRoundTrip | redeem/Path.py:402-408 | for every slot 0..7, index_to_axis then axis_to_index gives the slot back |
| Axes.NameRoundTrip | redeem/Path.py:402-408 | for every axis letter, axis_to_index then index_to_axis gives the letter back |
| Numeric.RoundHalfEven | redeem/Path.py:369 | np.round: the result is within 0.5 of x, a tie goes to the even neighbour, and a non-negative x gives a non-negative count |
| Numeric.RoundIsNearest | redeem/Path.py:369 | no integer is strictly closer to x than the rounded value |
| Numeric.Clip | redeem/Path.py:355 | np.clip on one value: inside [lo, hi] when lo <= hi, unchanged when already inside, lo when below an ordered range, hi when above it or when the limits are crossed |
| Positions.ClipVec | redeem/Path.py:354-355 | component by component np.clip: each component is pinned as Clip pins it, so it lies within ordered soft limits and an in-range component is kept |
| Positions.ClipVecIdempotent | redeem/Path.py:354-355 | clamping twice equals clamping once, whatever the limits |
| Positions.BedLevel | redeem/Path.py:358-360 | the first three components are the matrix product with the ideal position; the other axes pass through |
| Positions.BedLevelIdentity | redeem/Path.py:77-79 | with the identity bed matrix, the default before probing, levelling changes nothing |
| Positions.BedLevelLinear | redeem/Path.py:358-364 | levelling is linear: the levelled difference of two positions is the difference of the levelled positions, on all eight axes |
| Positions.Override | redeem/Path.py:438-441 | each commanded axis takes its commanded value and every other axis keeps the base value |
| Positions.RelativeIsShiftedAbsolute | redeem/Path.py:458-466 | a relative move reaches the same ideal end position as the absolute move to previous-plus-offset on the same axes; omitted axes keep the previous ideal value |
| Positions.OverrideByFullCommand | redeem/Path.py:262-266 | a command naming all eight axes, as each sub-segment's is, fixes the whole target whatever the predecessor's |
| Transform.InversesAreExact | redeem/Path.py:67-75 | the precomputed inverses of matrix_H and matrix_XY are two-sided inverses |
| Transform.Apply2 | redeem/Path.py:135-140 | slots 2 onward are copied, and a NaN in X or Y poisons both output slots and only then |
| Transform.TransformLinear | redeem/Path.py:132-140 | outside Delta mode the transform keeps the length and passes slots 2 onward through unchanged |
| Transform.ReverseLinear | redeem/Path.py:155-163 | outside Delta mode the reverse transform keeps the length and passes slots 2 onward through unchanged |
| Transform.LinearRoundTrip | redeem/Path.py:132-163 | reverse(transform(v)) == v on a Cartesian machine; on H-belt and CoreXY it holds exactly when X and Y are both numbers or both NaN |
| Transform.DeltaTransform | redeem/Path.py:141-152 | the first three slots are end_ABC - start_ABC and the rest pass through |
| Transform.DeltaReverse | redeem/Path.py:164-174 | the first three slots are the forward kinematics at start_ABC plus the column moves minus that at start_ABC; the rest pass through |
| Backlash.Compensation | redeem/Path.py:181-196 | per axis, the entry is sign times the axis's backlash distance when compensation is on and the move is non-zero in a direction other than the stored one; it is 0 otherwise |
| Backlash.NextState | redeem/Path.py:185-191 | per axis, the stored direction becomes the move's sign exactly in the compensated case and is kept otherwise |
| Backlash.BacklashRule | redeem/Path.py:181-196 | per axis: with compensation on and a non-zero sign different from the stored one, the entry is sign times distance and the sign is stored; otherwise the entry is 0 and the state is unchanged |
| Backlash.NextStateKeepsDirections | redeem/Path.py:185-191 | a memory of directions (-1, 0, +1 or NaN) stays one after any move |
| Backlash.StateIsLastDirection | redeem/Path.py:185-191 | over any series of moves of one axis, the memory holds the sign of the last non-zero move, or its initial value if every move was zero |
| Backlash.CompensatedOnlyOnReversal | redeem/Path.py:185-191 | a move is compensated exactly when it is non-zero and its direction differs from the last non-zero move before it |
| Backlash.FirstMoveAfterResetCompensates | redeem/Path.py:177-191 | from a reset memory of 0, any non-zero move is compensated by sign times distance and its sign is stored |
| Quantise.Quantised | redeem/Path.py:369-370 | the executed move is NaN exactly when the move is NaN or the axis has zero steps per metre; otherwise it times steps_pr_meter is the move's sign times the whole step count |
| Quantise.QuantisedValue | redeem/Path.py:369-370 | for a non-zero resolution the executed move times steps_pr_meter is the move's sign times the whole step count |
| Quantise.QuantisedNaN | redeem/Path.py:369-370 | the quantised move is NaN exactly when the move is NaN or the axis has zero steps per metre; the step count is NaN exactly when the move is |
| Quantise.QuantiseExact | redeem/Path.py:369-370 | for a positive resolution: a non-negative whole step count, delta times steps_pr_meter equals sign times steps, and the executed move is zero or has the requested direction |
| Quantise.QuantiseWithinHalfStep | redeem/Path.py:369-370 | for a positive resolution the executed move is within half a step of the requested move |
| Quantise.StepsNearMove | redeem/Path.py:369 | the step count is non-negative and within half a step of the move times the resolution |
| Remap.ToolRemap | redeem/Path.py:198-206 | the tool's slot takes the E value, the E slot becomes zero, and every other slot is unchanged |
| Remap.ToolSlot | redeem/Path.py:200-202 | tool "E" means no remapping; any other tool remaps to its own index in `"XYZEHABC"` (None when it has none) |
| Remap.MastersOf | redeem/Path.py:208-215 | with has_slaves false nothing copies; otherwise each slot with a name copies the slot of that name |
| Remap.MirrorSlaves | redeem/Path.py:208-217 | the mirrored vector keeps its length; what it writes is stated by MirrorWithoutChains and what it keeps by MirrorKeepsUncopied |
| Remap.MirrorKeepsUncopied | redeem/Path.py:208-217 | whatever the copies configured, a slot with no master and a slot beyond the visited keys keep their values |
| Remap.MirrorNothing | redeem/Path.py:208-210 | with no copies configured the vector is unchanged |
| Remap.MirrorWithoutChains | redeem/Path.py:208-217 | when no master is itself a copy, each slave slot holds its master's original value and every other slot is unchanged, whatever the order |
| Remap.AddSlaveCopiesIntoMaster | redeem/Path.py:88-92 | after add_slave(master, slave) the master's slot copies the slave's position and every other slot is unchanged |
| Machine.Settings.constructor | redeem/Path.py:35-85 | the class attributes before configuration: one step per metre, zero backlash and soft limits, zero direction memory, no slaves, an XY machine, the identity bed matrix and tool "E" |
| Machine.Settings.AddSlave | redeem/Path.py:87-92 | `slaves[master] = slave` and slave handling switched on, nothing else changed |
| Machine.Settings.BacklashReset | redeem/Path.py:177-179 | the direction memory is a new all-zero array |
| Machine.Settings.UpdateAutolevelMatrix | redeem/Path.py:410-422 | the bed matrix is replaced by the given one |
| Machine.AddSlaveEffect | redeem/Path.py:88-92 | stated on axis letters: after add_slave the axis passed as master ends with the position of the axis passed as slave; every other axis, the slave included, is unchanged |
| Pipeline.Resolve | redeem/Path.py:351-396 | a segment whose executed move holds a NaN ends at its start position with zero steps and zero delta; every other segment ends exactly at start plus the executed move; with backlash compensation off the direction memory is kept and every compensation entry is 0 |
| Pipeline.LinearNeverCollapses | redeem/Path.py:366-371 | on Cartesian, H-belt and CoreXY machines with non-zero resolutions a segment never collapses |
| Pipeline.CartesianEndWithinHalfStep | redeem/Path.py:364-382 | on a Cartesian machine with positive resolutions every axis takes a non-negative whole number of steps and ends within half a step of the levelled target |
| Pipeline.BacklashNeverMovesEnd | redeem/Path.py:376-382 | switching backlash compensation off or on changes none of the end position, step counts, delta, executed move, stepper position and start position |
| Pipeline.SoftEndstopsBoundTarget | redeem/Path.py:353-355 | with soft endstops on, the ideal end position lies within ordered limits and a requested value already inside them is kept |
| Pipeline.DeltaColumnsAdvanceByDelta | redeem/Path.py:141-166 | on a Delta machine start_ABC is the predecessor's end_ABC when it has one, and end_ABC is start_ABC plus the quantised column moves, whether or not the segment then collapses; for a segment that does not collapse those moves are its delta |
| Pipeline.CollapsedDeltaStillAdvancesColumns | redeem/Path.py:164-175 | on a Delta machine whose extruder has zero steps per metre every segment collapses, ending at its start with zero delta, yet its end_ABC is still start_ABC plus the quantised column moves |
| Pipeline.UnitXColumnMoves | redeem/Path.py:141-152 | those column moves need not be zero: a move of X by 1 from the origin, with coordinate-keeping inverse kinematics and one step per metre, moves end_ABC from the origin to (1, 0, 0) |
| Pipeline.DeltaNaNIsSticky | redeem/Path.py:141-175 | when the forward kinematics turn NaN into NaN, a NaN in the predecessor's end_ABC collapses the segment and is handed on in its end_ABC |
| Paths.Commanded | redeem/Path.py:439-441 | the loop over AXES yields the base with every commanded axis overridden |
| Paths.Path.Absolute | redeem/Path.py:424-428 | a new, unlinked absolute segment with the given command, speed, acceleration and switches |
| Paths.Path.Relative | redeem/Path.py:446-450 | a new, unlinked relative segment with the given command, speed, acceleration and switches |
| Paths.Path.G92 | redeem/Path.py:473-475 | a new, unlinked G92 segment with speed and acceleration 0, not cancelable, all switches on |
| Paths.Path.Unlink | redeem/Path.py:127-130 | next and prev become None |
| Paths.Path.TransformVector | redeem/Path.py:132-153 | the result is the step-3 transform; on a Delta machine start_ABC and end_ABC are recorded; nothing else changes |
| Paths.Path.ReverseTransformVector | redeem/Path.py:155-175 | the result is the step-5 reverse transform; on a Delta machine end_ABC becomes start_ABC plus the column moves |
| Paths.Path.BacklashCompensate | redeem/Path.py:181-196 | the returned vector and the new shared direction memory follow the backlash rule; `compensation` is set only when some entry is non-zero; the start array is untouched |
| Paths.Path.HandleTools | redeem/Path.py:198-206 | both arrays are remapped in place for the active tool |
| Paths.Path.HandleSlaves | redeem/Path.py:208-217 | both arrays are mirrored in place, slot by slot |
| Paths.Path.RemapSlots | redeem/Path.py:388-391 | tools then slaves on both arrays, and no field of the segment changes |
| Paths.Path.Target | redeem/Path.py:353-364 | the ideal end position is clamped when enabled, the level position is levelled when enabled, and vec is level minus start |
| Paths.Path.Kinematics | redeem/Path.py:366-371 | num_steps, delta and the executed move are the quantised transform of vec; on a Delta machine the columns advance by delta |
| Paths.Path.ResolveMotion | redeem/Path.py:353-371 | steps 1 to 5 as Target then Kinematics |
| Paths.Path.UpdatePositions | redeem/Path.py:378-396 | end and stepper positions, remapping and collapse leave every field equal to the resolution; a collapsed end_pos is the start array itself |
| Paths.Path.ResolveAndCompensate | redeem/Path.py:353-376 | steps 1 to 6 agree with the resolution, and the shared memory is the resolution's next state |
| Paths.Path.SetPrevCommon | redeem/Path.py:351-396 | every field equals Resolve of the start, the target and the memory; the memory becomes the resolution's next state; `compensation` is the resolution's when compensation is on and some entry is non-zero and is kept otherwise; off Delta machines start_ABC and end_ABC are kept; a collapsed segment's end_pos is the start array and any other end_pos is a new array |
| Paths.Path.Link | redeem/Path.py:432-434 | prev is p, p.next is this, and start_pos is p's end_pos array |
| Paths.Path.AimAbsolute | redeem/Path.py:432-441 | links to p; end_pos is a new array holding p's end position; the ideal end position is p's with the commanded axes replaced |
| Paths.Path.SetPrevAbsolute | redeem/Path.py:430-443 | links to p and leaves next as it was; every field is Resolve toward p's ideal end position with the commanded axes replaced, from p's end position and the memory as they were; the memory, `compensation` and the Delta columns as SetPrevCommon states them |
| Paths.Path.AimRelative | redeem/Path.py:454-466 | links to p, and the ideal end position is p's plus the commanded displacement |
| Paths.Path.SetPrevRelative | redeem/Path.py:452-468 | links to p and leaves next as it was; every field is Resolve toward p's ideal end position plus the commanded displacement; the memory, `compensation` and the Delta columns as SetPrevCommon states them |
| Paths.Path.SetPrevG92 | redeem/Path.py:477-493 | no motion: the end and ideal positions are the predecessor's (zero without one) with the commanded axes set, vec is zero, start_ABC and end_ABC are kept, and of the predecessor only its next changes |
| Paths.Path.SplitMoveHasSubSegments | redeem/Path.py:219-229 | a straight move that needs splitting is on a Delta machine, longer than split_size and moves X or Y, and so has at least one sub-segment |
| Paths.Path.AimFull | redeem/Path.py:432-441 | set_prev's first half for a command naming all eight axes: links to p and the ideal end position is the command itself, whatever p's |
| Paths.Path.SetPrevFull | redeem/Path.py:430-443 | set_prev for a command naming all eight axes with compensation off: every field is Resolve toward the command, and the direction memory is unchanged |
| Paths.Path.NewSubSegment | redeem/Path.py:265-271 | one sub-segment: an absolute move of all eight axes to the target, with no backlash compensation and this segment's speed, acceleration and bed switch, linked after `last`; every field is Resolve from last's end position and the memory as they were, and the memory is unchanged |
| Paths.Path.NextSubSegment | redeem/Path.py:265-271 | the sub-segment of one loop round: its eight-axis command, its links and its target, with the memory unchanged |
| Paths.Path.SplitAfter | redeem/Path.py:263-273 | one sub-segment per target; the first is linked after `first`, each later one after its predecessor, and the last one ends the chain; the direction memory is unchanged |
| Paths.Path.GetDeltaSegments | redeem/Path.py:246-273 | returns [self], changing nothing, unless splitting is needed; otherwise SegmentCount chained absolute sub-segments aimed at the interpolated points, the first following this segment's predecessor and the last aiming at this segment's ideal end position, with the direction memory unchanged |
| Splitting.SegmentCount | redeem/Path.py:251 | np.round of magnitude over split_size: within 0.5 of the quotient, and even on a tie |
| Splitting.SplitPoint | redeem/Path.py:255-261 | a point of np.linspace: every axis of the j-th of n points lies between the start and the end value |
| Splitting.SplitEnds | redeem/Path.py:255-261 | the deleted first interpolated point is the predecessor's ideal end position and the last point is exactly this segment's |
| Splitting.SplitStepsEqual | redeem/Path.py:255-260 | consecutive interpolated points are the same fraction of the move apart on every axis |
| Splitting.SegmentLengthNearSplitSize | redeem/Path.py:251 | a move longer than split_size becomes at least one sub-segment, each covering between 0.75 and 1.5 split sizes |

## Left out

- Arc segmentation (`get_arc_segments`, `parametric_circle`, `inv_parametric_circle`, redeem/Path.py:276-348) is not modelled. It needs trigonometry, and as written it uses an undefined name `G2` and shadows the arc offset `i`. No constructor makes a G2 or G3 segment, so the arc case of `needs_splitting` and the dispatch of `get_segments` (redeem/Path.py:239-243) are not exercised.
- `is_G92` (redeem/Path.py:117-119) is not a member of its own. It is the test `movement == Movement.G92`, which the G92 constructor's contract states.
- The `__main__` block and `__str__` are not modelled. They are a demonstration and printing.
- `set_homing_feedrate` is not modelled. It is float work with `argmax` and `norm` on fields the core never sets.
- Paths.Path.GetDeltaSegments: `get_magnitude` (the Euclidean norm and its cache in `self.mag`) is a parameter `mag`. Nothing relates it to `vec`.
- Paths.Path.SplitAfter: does not restate each sub-segment's command map. NewSubSegment states that it names all eight axes with the target's values.
- Paths.Path.SplitAfter: does not state each sub-segment's resolution. Linking a later sub-segment remaps its predecessor's `end_pos` array in place (tools and slaves), so the earlier sub-segment's `Holds` no longer describes it. Only NewSubSegment states the resolution, for one round.
- Paths.Path.GetDeltaSegments: does not state each sub-segment's resolution, for the same reason as SplitAfter.
- Paths.Path.NextSubSegment: does not state the sub-segment's resolution, for the same reason as SplitAfter. It is the loop's form of NewSubSegment, which states it.
- Paths.Path.SetPrevAbsolute: requires a placed predecessor. `set_prev(None)` raises AttributeError at `prev.next = self` (redeem/Path.py:433), and the model does not follow a raise. The same holds for SetPrevRelative, and for GetDeltaSegments, which requires `prev` when the move is split.
- Paths.Path.SetPrevRelative: requires a placed predecessor, as SetPrevAbsolute does.
- Delta inverse and forward kinematics (the `Delta` module) and the matrix built by `BedCompensation.create_rotation_matrix` are parameters. They are not part of this model, and neither is `matrix_bed_comp_inv`, which nothing in the core reads.
- Floats are reals, and NaN is a value of its own. Infinities, overflow and rounding error of float64 are not modelled. With exact reals, `np.linspace` setting its last point to the stop value exactly coincides with the general formula.
- Machine.Settings.Valid: requires every slave name and the active tool to be axis names. `AXES.index` raises ValueError on any other name, and the model does not follow a raise.
- Paths.Path.HandleSlaves: visits the slots in AXES order. Python 2 visits the `slaves` dict in hash order, and that order only matters when a master is itself a slave (see MirrorWithoutChains).
- `current_tool is not "E"` is string inequality here. Python compares identity, which interned one-letter strings make agree.
- The per-axis speed, acceleration, jerk and homing tables (redeem/Path.py:36-42) and `speeds` are not used by the core and are not modelled.
- `cancelable` and the other switches are booleans. Python stores `int(...)`.
- The `printer` object is not modelled beyond its `current_tool`.


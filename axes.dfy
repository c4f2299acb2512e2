/** The eight logical axes and the two lookups between names and slots
    (Path.axis_to_index and Path.index_to_axis). */
module Axes {
  import opened Numeric

  /** Path.AXES: every per-axis array is indexed in this order. */
  const AXES: string := "XYZEHABC"
  const MaxAxes: nat := 8
  /** Slot of the extrusion axis "E", the one the tool remapping moves. */
  const ExtruderSlot: nat := 3

  /** Does `axis` occur in AXES starting at position j? */
  predicate OccursAt(axis: string, j: nat) {
    j + |axis| <= |AXES| && AXES[j..j + |axis|] == axis
  }

  /** First position at or after `from` where `axis` occurs in AXES. */
  function FindFrom(axis: string, from: nat): (r: Option<nat>)
    requires from <= |AXES|
    ensures r.Some? ==> from <= r.value && OccursAt(axis, r.value)
    ensures forall j: nat :: from <= j && (r.None? || j < r.value) ==> !OccursAt(axis, j)
    decreases |AXES| - from
  {
    if from + |axis| > |AXES| then None
    else if AXES[from..from + |axis|] == axis then Some(from)
    else FindFrom(axis, from + 1)
  }

  /** Path.axis_to_index is AXES.index(axis): the first occurrence of `axis`
      as a substring of AXES, or None where Python raises ValueError.
      A name of several letters or the empty string is searched like any
      other substring. */
  function AxisToIndex(axis: string): (r: Option<nat>)
    ensures r.Some? ==> OccursAt(axis, r.value) && r.value < MaxAxes
    ensures r.Some? ==> forall j: nat :: j < r.value ==> !OccursAt(axis, j)
    ensures r.None? <==> forall j: nat :: !OccursAt(axis, j)
  {
    FindFrom(axis, 0)
  }

  /** Path.index_to_axis is AXES[index]: Python indexing, so -8..-1 count
      from the end and anything else raises IndexError (None). */
  function IndexToAxis(index: int): (r: Option<char>)
    ensures r.Some? <==> -(MaxAxes as int) <= index < MaxAxes
    ensures 0 <= index < MaxAxes ==> r == Some(AXES[index])
    ensures -(MaxAxes as int) <= index < 0 ==> r == Some(AXES[index + MaxAxes])
  {
    if 0 <= index < |AXES| then Some(AXES[index])
    else if -|AXES| <= index < 0 then Some(AXES[index + |AXES|])
    else None
  }

  /** The letters of AXES are pairwise distinct. */
  lemma AxesDistinct(i: nat, j: nat)
    requires i < MaxAxes && j < MaxAxes && i != j
    ensures AXES[i] != AXES[j]
  {
  }

  /** Slot to name and back: index_to_axis then axis_to_index is the identity on 0..7. */
  lemma {:induction false} IndexRoundTrip(i: nat)
    requires i < MaxAxes
    ensures IndexToAxis(i) == Some(AXES[i])
    ensures AxisToIndex([AXES[i]]) == Some(i)
  {
    assert OccursAt([AXES[i]], i);
    forall j: nat | j < i
      ensures !OccursAt([AXES[i]], j)
    {
      AxesDistinct(i, j);
      assert AXES[j..j + 1] == [AXES[j]];
    }
  }

  /** Name to slot and back: every axis letter is found and maps back to itself. */
  lemma {:induction false} NameRoundTrip(c: char)
    requires c in AXES
    ensures AxisToIndex([c]).Some?
    ensures IndexToAxis(AxisToIndex([c]).value) == Some(c)
  {
    var i :| 0 <= i < |AXES| && AXES[i] == c;
    IndexRoundTrip(i);
  }
}

/** Slot remapping after quantisation: Path.handle_tools moves the extruder
    value to the active tool's slot, Path.handle_slaves copies positions
    between axes bound by Path.add_slave. */
module Remap {
  import opened Numeric
  import opened Axes

  /** handle_tools on one vector: the tool's slot takes the E value, then the
      E slot is set to zero (so a tool that resolves to slot 3 just zeroes it). */
  function ToolRemap<T>(v: seq<T>, tool: nat, zero: T): (r: seq<T>)
    requires |v| == MaxAxes && tool < MaxAxes
    ensures |r| == MaxAxes
    ensures r[ExtruderSlot] == zero
    ensures tool != ExtruderSlot ==> r[tool] == v[ExtruderSlot]
    ensures forall j :: 0 <= j < MaxAxes && j != tool && j != ExtruderSlot ==> r[j] == v[j]
  {
    v[tool := v[ExtruderSlot]][ExtruderSlot := zero]
  }

  /** The slot of the active tool when it is not "E" (`current_tool is not
      "E"`, taken as string inequality); None leaves the vectors alone. */
  function ToolSlot(currentTool: string): (r: Option<nat>)
    ensures r.Some? ==> r.value < MaxAxes
    ensures currentTool == "E" ==> r.None?
    ensures currentTool != "E" ==> r == AxisToIndex(currentTool)
  {
    if currentTool == "E" then None else AxisToIndex(currentTool)
  }

  /** Applies the tool remapping when there is one. */
  function MaybeToolRemap<T>(v: seq<T>, tool: Option<nat>, zero: T): (r: seq<T>)
    requires |v| == MaxAxes && (tool.Some? ==> tool.value < MaxAxes)
    ensures |r| == MaxAxes
  {
    match tool
    case None => v
    case Some(t) => ToolRemap(v, t, zero)
  }

  /** Per slot, the slot whose value it copies (None: it copies nothing). */
  predicate ValidMasters(masters: seq<Option<nat>>, len: nat) {
    forall i :: 0 <= i < |masters| && masters[i].Some? ==> masters[i].value < len
  }

  /** The copy table of handle_slaves. Path.slaves maps each axis letter (the
      key, treated as the copying slot) to a name ("" for none, which Python
      reads as false); nothing is copied while has_slaves is false. A name
      that is not an axis yields None here (Python raises there). */
  function MastersOf(slaves: seq<string>, hasSlaves: bool): (r: seq<Option<nat>>)
    ensures |r| == |slaves| && ValidMasters(r, MaxAxes)
    ensures !hasSlaves ==> forall i :: 0 <= i < |r| ==> r[i].None?
    ensures hasSlaves ==> forall i :: 0 <= i < |r| && slaves[i] != [] ==> r[i] == AxisToIndex(slaves[i])
  {
    if !hasSlaves then seq(|slaves|, _ => None)
    else seq(|slaves|, i requires 0 <= i < |slaves| => if slaves[i] == [] then None else AxisToIndex(slaves[i]))
  }

  /** handle_slaves on one vector after the first n keys, in slot order:
      slot i takes the current value of its master's slot. */
  function MirrorSlaves<T>(v: seq<T>, masters: seq<Option<nat>>, n: nat): (r: seq<T>)
    requires n <= |masters| == |v| && ValidMasters(masters, |v|)
    ensures |r| == |v|
    decreases n
  {
    if n == 0 then v
    else
      var w := MirrorSlaves(v, masters, n - 1);
      match masters[n - 1]
      case None => w
      case Some(m) => w[n - 1 := w[m]]
  }

  /** With no copies configured (has_slaves false) nothing changes. */
  lemma {:induction false} MirrorNothing<T>(v: seq<T>, masters: seq<Option<nat>>, n: nat)
    requires n <= |masters| == |v| && forall i :: 0 <= i < |masters| ==> masters[i].None?
    ensures MirrorSlaves(v, masters, n) == v
    decreases n
  {
    if n > 0 {
      MirrorNothing(v, masters, n - 1);
    }
  }

  /** Whatever the copies, a slot with no master and a slot past the first
      n keys keeps its value: a round of handle_slaves writes only its own
      key's slot. */
  lemma {:induction false} MirrorKeepsUncopied<T>(v: seq<T>, masters: seq<Option<nat>>, n: nat)
    requires n <= |masters| == |v| && ValidMasters(masters, |v|)
    ensures forall i :: n <= i < |v| ==> MirrorSlaves(v, masters, n)[i] == v[i]
    ensures forall i :: 0 <= i < n && masters[i].None? ==> MirrorSlaves(v, masters, n)[i] == v[i]
    decreases n
  {
    if n > 0 {
      MirrorKeepsUncopied(v, masters, n - 1);
    }
  }

  /** No master is itself copying another slot. */
  predicate NoChains(masters: seq<Option<nat>>) {
    forall i :: 0 <= i < |masters| && masters[i].Some? ==>
      masters[i].value < |masters| && masters[masters[i].value].None?
  }

  /** The value slot i ends with when there are no chains. */
  function Mirrored<T>(v: seq<T>, masters: seq<Option<nat>>, i: nat): T
    requires i < |v| == |masters| && ValidMasters(masters, |v|)
  {
    match masters[i]
    case None => v[i]
    case Some(m) => v[m]
  }

  /** Without chains the order of the copies does not matter: every slave
      slot holds its master's original value and every other slot is
      unchanged. */
  lemma {:induction false} MirrorWithoutChains<T>(v: seq<T>, masters: seq<Option<nat>>, n: nat)
    requires n <= |masters| == |v| && ValidMasters(masters, |v|) && NoChains(masters)
    ensures forall i :: 0 <= i < n ==> MirrorSlaves(v, masters, n)[i] == Mirrored(v, masters, i)
    ensures forall i :: n <= i < |v| ==> MirrorSlaves(v, masters, n)[i] == v[i]
    decreases n
  {
    if n > 0 {
      MirrorWithoutChains(v, masters, n - 1);
    }
  }

  /** `add_slave(master, slave)` stores `slaves[master] = slave`, and
      handle_slaves reads the key as the copying slot: so the axis passed as
      `master` ends up with the position of the axis passed as `slave`, and
      the `slave` axis keeps its own. */
  lemma {:induction false} AddSlaveCopiesIntoMaster<T>(v: seq<T>, master: nat, slave: nat)
    requires master < MaxAxes && slave < MaxAxes && master != slave && |v| == MaxAxes
    ensures var slaves := seq(MaxAxes, _ => [])[master := [AXES[slave]]];
            var r := MirrorSlaves(v, MastersOf(slaves, true), MaxAxes);
            r[master] == v[slave] && forall i :: 0 <= i < MaxAxes && i != master ==> r[i] == v[i]
  {
    var slaves: seq<string> := seq(MaxAxes, _ => [])[master := [AXES[slave]]];
    var masters := MastersOf(slaves, true);
    IndexRoundTrip(slave);
    assert masters[master] == Some(slave);
    assert forall i :: 0 <= i < MaxAxes && i != master ==> masters[i].None?;
    MirrorWithoutChains(v, masters, MaxAxes);
  }
}

/** Backlash direction memory (Path.backlash_compensate): per axis, the
    direction of the last move that changed it, and the one-off compensation
    distance produced when an axis reverses. */
module Backlash {
  import opened Numeric

  /** `dirstate != 0 and dirstate != backlash_state[i]` with dirstate =
      np.sign(d), both compared as floats (NaN is unequal to everything). */
  predicate Reverses(d: Num, state: Num) {
    NumNe(Sign(d), Fin(0.0)) && NumNe(Sign(d), state)
  }

  /** The entry of ret_vec for one axis. */
  function AxisEntry(d: Num, state: Num, distance: real): Num {
    if Reverses(d, state) then Scale(Sign(d), distance) else Fin(0.0)
  }

  /** The stored direction of one axis afterwards. */
  function AxisState(d: Num, state: Num): Num {
    if Reverses(d, state) then Sign(d) else state
  }

  /** ret_vec of backlash_compensate: all zeros when compensation is off. */
  function Compensation(delta: seq<Num>, state: seq<Num>, distance: seq<real>, enabled: bool): (r: seq<Num>)
    requires |delta| == |state| == |distance|
    ensures |r| == |delta|
    ensures forall i :: 0 <= i < |r| && !(enabled && Reverses(delta[i], state[i])) ==> r[i] == Fin(0.0)
    ensures forall i :: 0 <= i < |r| && enabled && Reverses(delta[i], state[i]) ==> r[i] == Scale(Sign(delta[i]), distance[i])
  {
    if enabled then seq(|delta|, i requires 0 <= i < |delta| => AxisEntry(delta[i], state[i], distance[i]))
    else seq(|delta|, _ => Fin(0.0))
  }

  /** backlash_state after backlash_compensate: untouched when compensation is off. */
  function NextState(delta: seq<Num>, state: seq<Num>, enabled: bool): (r: seq<Num>)
    requires |delta| == |state|
    ensures |r| == |delta|
    ensures forall i :: 0 <= i < |r| && !(enabled && Reverses(delta[i], state[i])) ==> r[i] == state[i]
    ensures forall i :: 0 <= i < |r| && enabled && Reverses(delta[i], state[i]) ==> r[i] == Sign(delta[i])
  {
    if enabled then seq(|delta|, i requires 0 <= i < |delta| => AxisState(delta[i], state[i]))
    else state
  }

  /** `np.any(ret_vec)`: some entry is non-zero (NaN counts as non-zero). */
  predicate AnyNonzero(v: seq<Num>) {
    exists i :: 0 <= i < |v| && NumNe(v[i], Fin(0.0))
  }

  /** The rule, axis by axis: with compensation on, an axis whose move has a
      non-zero sign different from the stored one gets sign * distance and
      stores the new sign; every other axis gets 0 and keeps its state. With
      compensation off nothing is produced and nothing changes. */
  lemma {:induction false} BacklashRule(delta: seq<Num>, state: seq<Num>, distance: seq<real>, enabled: bool, i: nat)
    requires |delta| == |state| == |distance| && i < |delta|
    ensures var entry, next := Compensation(delta, state, distance, enabled)[i], NextState(delta, state, enabled)[i];
            if enabled && Reverses(delta[i], state[i])
            then entry == Scale(Sign(delta[i]), distance[i]) && next == Sign(delta[i])
            else entry == Fin(0.0) && next == state[i]
  {
  }

  /** A stored direction: -1, 0, +1, or NaN after a NaN move. */
  predicate IsDirection(s: Num) {
    s == Fin(-1.0) || s == Fin(0.0) || s == Fin(1.0) || s.NaN?
  }

  predicate AllDirections(state: seq<Num>) {
    forall i :: 0 <= i < |state| ==> IsDirection(state[i])
  }

  /** The direction memory stays a direction memory. */
  lemma {:induction false} NextStateKeepsDirections(delta: seq<Num>, state: seq<Num>, enabled: bool)
    requires |delta| == |state| && AllDirections(state)
    ensures AllDirections(NextState(delta, state, enabled))
  {
    if enabled {
      var r := NextState(delta, state, enabled);
      forall i | 0 <= i < |r|
        ensures IsDirection(r[i])
      {
        assert r[i] == AxisState(delta[i], state[i]);
        if delta[i].Fin? {
          var s := Sgn(delta[i].v);
          assert s == 1.0 || s == 0.0 || s == -1.0;
        }
      }
    }
  }

  // ---- one axis over a series of finite moves

  /** The stored direction after the moves, in order, starting from s0. */
  function StateAfter(s0: Num, moves: seq<real>): Num
    decreases |moves|
  {
    if moves == [] then s0
    else AxisState(Fin(moves[|moves| - 1]), StateAfter(s0, moves[..|moves| - 1]))
  }

  /** Independent description: the sign of the last non-zero move, or s0 when
      every move was zero. */
  function LastDirection(s0: Num, moves: seq<real>): Num
    decreases |moves|
  {
    if moves == [] then s0
    else if moves[|moves| - 1] != 0.0 then Fin(Sgn(moves[|moves| - 1]))
    else LastDirection(s0, moves[..|moves| - 1])
  }

  /** The memory always holds the direction of the last non-zero move. */
  lemma {:induction false} StateIsLastDirection(s0: Num, moves: seq<real>)
    ensures StateAfter(s0, moves) == LastDirection(s0, moves)
    decreases |moves|
  {
    if moves != [] {
      StateIsLastDirection(s0, moves[..|moves| - 1]);
    }
  }

  /** Over any series of moves of one axis, move j is compensated exactly when
      it is non-zero and its direction differs from that of the last non-zero
      move before it (or from the initial memory): once per true reversal,
      never on a repeated direction or a zero move. */
  lemma {:induction false} CompensatedOnlyOnReversal(s0: Num, moves: seq<real>, j: nat, distance: real)
    requires j < |moves| && distance != 0.0
    ensures NumNe(AxisEntry(Fin(moves[j]), StateAfter(s0, moves[..j]), distance), Fin(0.0))
            <==> moves[j] != 0.0 && NumNe(Fin(Sgn(moves[j])), LastDirection(s0, moves[..j]))
  {
    StateIsLastDirection(s0, moves[..j]);
  }

  /** After backlash_reset every memory is 0, so the first non-zero move of
      an axis is compensated too. */
  lemma FirstMoveAfterResetCompensates(d: real, distance: real)
    requires d != 0.0
    ensures AxisEntry(Fin(d), Fin(0.0), distance) == Fin(Sgn(d) * distance)
    ensures AxisState(Fin(d), Fin(0.0)) == Fin(Sgn(d))
  {
  }
}

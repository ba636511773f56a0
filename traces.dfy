/** The "Add Trace" / "Clear Traces" store: a session list of frozen traces, each labelled
    with its damping type, its discriminant and the five parameters, where a parameter is
    marked changed when it is not isclose to the value stored in the previous trace. */
module Traces {
  import opened Damping
  import opened Solver

  datatype Option<T> = None | Some(value: T)

  /** The five parameters a label lists */
  datatype ParamKey = KeyB | KeyM | KeyK | KeyX0 | KeyV0

  /** The fixed order of the label's entries */
  const LabelOrder: seq<ParamKey> := [KeyB, KeyM, KeyK, KeyX0, KeyV0]

  /** The value a parameter dictionary holds for a key */
  function Value(p: Params, key: ParamKey): real
  {
    match key
    case KeyB => p.b
    case KeyM => p.m
    case KeyK => p.k
    case KeyX0 => p.x0
    case KeyV0 => p.v0
  }

  /** The parameter dictionary stored with a trace: b, m, k, x0, v0, delta, damping_type */
  datatype Snapshot = Snapshot(params: Params, delta: real, dampingType: DampingType)

  /** One "key=value" term of a label, emphasized when changed */
  datatype Entry = Entry(key: ParamKey, value: real, changed: bool)

  /** "<damping type> (delta) | b=.., m=.., k=.., x0=.., v0=.." as a structure */
  datatype Label = Label(dampingType: DampingType, delta: real, entries: seq<Entry>)

  /** A frozen trace: the time grid (by its duration), the curve, the parameters, the label */
  datatype Trace = Trace(tMax: real, curve: Curve, snapshot: Snapshot, traceLabel: Label)

  /** The parameter dictionary built for the current parameters when "Add Trace" is pressed */
  function CurrentSnapshot(p: Params): Snapshot
  {
    var delta := Discriminant(p.b, p.m, p.k);
    Snapshot(p, delta, TraceDampingType(delta))
  }

  /** fmt_param: a key is changed only when a previous trace exists and its stored value
      is not isclose to the new one */
  function FormatParam(key: ParamKey, val: real, prev: Option<Snapshot>): Entry
  {
    Entry(key, val, prev.Some? && !IsClose(Value(prev.value.params, key), val))
  }

  /** The label of a trace frozen with parameters cur after the trace holding prev */
  function BuildLabel(cur: Snapshot, prev: Option<Snapshot>): Label
  {
    var p := cur.params;
    Label(cur.dampingType, cur.delta,
          [FormatParam(KeyB, p.b, prev), FormatParam(KeyM, p.m, prev), FormatParam(KeyK, p.k, prev),
           FormatParam(KeyX0, p.x0, prev), FormatParam(KeyV0, p.v0, prev)])
  }

  /** The record "Add Trace" appends */
  function Freeze(p: Params, tMax: real, curve: Curve, prev: Option<Snapshot>): Trace
  {
    var cur := CurrentSnapshot(p);
    Trace(tMax, curve, cur, BuildLabel(cur, prev))
  }

  /** traces[-1]'s parameter dictionary, or none when the list is empty */
  function LastSnapshot(traces: seq<Trace>): Option<Snapshot>
  {
    if traces == [] then None else Some(traces[|traces| - 1].snapshot)
  }

  /** The entries of every label name the five parameters in the order b, m, k, x0, v0,
      with the current values */
  lemma LabelEntriesInOrder(cur: Snapshot, prev: Option<Snapshot>)
    ensures var es := BuildLabel(cur, prev).entries;
            |es| == |LabelOrder| &&
            forall i :: 0 <= i < |es| ==> es[i].key == LabelOrder[i] && es[i].value == Value(cur.params, LabelOrder[i])
  {
  }

  /** Without a previous trace nothing is marked changed */
  lemma FirstLabelMarksNothing(cur: Snapshot)
    ensures forall e :: e in BuildLabel(cur, None).entries ==> !e.changed
  {
  }

  /** After a previous trace, an entry is marked changed iff the new value is not isclose to
      the stored one */
  lemma LabelMarksExactlyChanged(cur: Snapshot, prev: Snapshot)
    ensures var es := BuildLabel(cur, Some(prev)).entries;
            |es| == |LabelOrder| &&
            forall i :: 0 <= i < |es| ==>
              (es[i].changed <==> !IsClose(Value(prev.params, LabelOrder[i]), Value(cur.params, LabelOrder[i])))
  {
  }

  /** Freezing the same parameters twice marks nothing changed in the second label */
  lemma DuplicateFreezeMarksNothing(p: Params, tMax: real, curve: Curve, traces: seq<Trace>)
    requires traces != [] && traces[|traces| - 1].snapshot.params == p
    ensures forall e :: e in Freeze(p, tMax, curve, LastSnapshot(traces)).traceLabel.entries ==> !e.changed
  {
  }

  /** The label's damping type and discriminant are those of the stored parameters */
  lemma LabelDescribesSnapshot(p: Params, tMax: real, curve: Curve, prev: Option<Snapshot>)
    ensures var t := Freeze(p, tMax, curve, prev);
            t.traceLabel.delta == Discriminant(p.b, p.m, p.k) &&
            t.traceLabel.dampingType == TraceDampingType(t.traceLabel.delta) &&
            t.snapshot.params == p
  {
  }

  /** The curve is solve_damped_oscillator's for parameters p, for some choice of the
      square roots it takes */
  ghost predicate IsSolvedCurve(p: Params, c: Curve)
  {
    exists omega0, delta, omegaD :: SolveInputs(p, omega0, delta, omegaD) && c == Solve(p, omega0, delta, omegaD)
  }

  /** Every trace holds the curve of its own parameters, and its label was built against
      the trace just before it (none for the first) */
  ghost predicate Chained(traces: seq<Trace>)
  {
    forall i :: 0 <= i < |traces| ==>
      traces[i].snapshot == CurrentSnapshot(traces[i].snapshot.params) &&
      IsSolvedCurve(traces[i].snapshot.params, traces[i].curve) &&
      traces[i].traceLabel == BuildLabel(traces[i].snapshot, LastSnapshot(traces[..i]))
  }

  /** Appending the record "Add Trace" builds from the current curve keeps the list chained */
  lemma ChainedAppend(traces: seq<Trace>, p: Params, tMax: real, curve: Curve)
    requires Chained(traces) && IsSolvedCurve(p, curve)
    ensures Chained(traces + [Freeze(p, tMax, curve, LastSnapshot(traces))])
  {
  }

  /** In a chained list every stored curve starts at its record's x0 with velocity v0, and
      its damping type is the sidebar's classification of its label's discriminant */
  lemma StoredCurveMatchesRecord(traces: seq<Trace>, i: int)
    requires Chained(traces) && 0 <= i < |traces|
    ensures var t := traces[i];
            InitialPosition(t.curve) == t.snapshot.params.x0 &&
            InitialVelocity(t.curve) == t.snapshot.params.v0 &&
            CurveType(t.curve) == SidebarDampingType(t.traceLabel.delta)
  {
    var p := traces[i].snapshot.params;
    assert IsSolvedCurve(p, traces[i].curve);
    var omega0, delta, omegaD :| SolveInputs(p, omega0, delta, omegaD) && traces[i].curve == Solve(p, omega0, delta, omegaD);
  }

  /** Example: freeze b=4, m=1, k=4, x0=1, v0=0, then the same with x0=2; the second label
      marks only x0 */
  lemma OnlyChangedPositionIsMarked()
    ensures var first := Freeze(Params(4.0, 1.0, 4.0, 1.0, 0.0), 10.0, CriticalCurve(2.0, 1.0, 2.0), None);
            var second := Freeze(Params(4.0, 1.0, 4.0, 2.0, 0.0), 10.0, CriticalCurve(2.0, 2.0, 4.0), Some(first.snapshot));
            first.traceLabel.dampingType == CriticallyDamped &&
            (forall i :: 0 <= i < |second.traceLabel.entries| ==>
               (second.traceLabel.entries[i].changed <==> second.traceLabel.entries[i].key == KeyX0))
  {
    var first := Freeze(Params(4.0, 1.0, 4.0, 1.0, 0.0), 10.0, CriticalCurve(2.0, 1.0, 2.0), None);
    assert !IsClose(1.0, 2.0);
    LabelMarksExactlyChanged(CurrentSnapshot(Params(4.0, 1.0, 4.0, 2.0, 0.0)), first.snapshot);
  }

  /** st.session_state.traces */
  class TraceStore {
    var traces: seq<Trace>

    ghost predicate Valid()
      reads this
    {
      Chained(traces)
    }

    /** The list is created empty once per session */
    constructor ()
      ensures Valid() && traces == []
    {
      traces := [];
    }

    /** The "Add Trace" button: store the current curve, compare with traces[-1] only and
        append one record. omega0, delta and omegaD are the square roots the solver takes. */
    method AddTrace(p: Params, omega0: real, delta: real, omegaD: real, tMax: real)
      requires Valid()
      requires SolveInputs(p, omega0, delta, omegaD)
      modifies this
      ensures Valid()
      ensures traces == old(traces) + [Freeze(p, tMax, Solve(p, omega0, delta, omegaD), LastSnapshot(old(traces)))]
      ensures |traces| == |old(traces)| + 1 && traces[..|old(traces)|] == old(traces)
      ensures LastSnapshot(traces) == Some(CurrentSnapshot(p))
    {
      var curve := Solve(p, omega0, delta, omegaD);
      var disc := Discriminant(p.b, p.m, p.k);
      var dampingType := TraceDampingType(disc);
      var current := Snapshot(p, disc, dampingType);
      var prev := if |traces| > 0 then Some(traces[|traces| - 1].snapshot) else None;
      var newLabel := BuildLabel(current, prev);
      ChainedAppend(traces, p, tMax, curve);
      traces := traces + [Trace(tMax, curve, current, newLabel)];
    }

    /** The "Clear Traces" button */
    method Clear()
      modifies this
      ensures Valid() && traces == []
    {
      traces := [];
    }
  }
}

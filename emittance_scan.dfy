/**
 * `scan_param_for_emittance`: a sweep of one MAD-X global over given sample
 * values. For each value the driver writes the global, runs TWISS, checks that
 * the machine is closed (SURVEY), runs EMIT twice and parses the output file.
 * A failed TWISS or an open machine records "no value" (NaN) for that point and
 * the sweep goes on; a parse failure ends the sweep.
 *
 * MAD-X itself is an oracle (`Engine`). The session writes everything it
 * prints to the output file the parser reads, so the file only grows.
 */
module EmittanceScan {
  import opened Wrappers
  import opened PyText
  import opened MadxOutput
  import opened MachineClosure

  datatype Command = Twiss | Survey | Emit

  /**
   * What MAD-X answers. Every answer may depend on the globals and on the
   * number of commands the session has run before, since the engine keeps
   * state between commands.
   */
  datatype Engine = Engine(
    twissConverges: (map<string, real>, nat) -> bool,
    surveyEnds: (map<string, real>, nat) -> SurveyEnds,
    output: (Command, map<string, real>, nat) -> string)

  /** `ScanConfig`, with the sample values given rather than computed by `np.linspace`. */
  datatype ScanConfig = ScanConfig(
    variableName: string,
    initialValue: real,
    scanStart: real,
    scanEnd: real,
    nPoints: int,
    scanSpace: seq<real>)

  /** The returned DataFrame: index, index name and the three columns; `None` is NaN. */
  datatype EmitResults = EmitResults(
    indexName: string,
    index: seq<real>,
    ex: seq<Option<Emittance>>,
    ey: seq<Option<Emittance>>,
    ez: seq<Option<Emittance>>)

  datatype Axis = X | Y | Z

  function Component(e: Emittances, axis: Axis): Emittance
  {
    match axis
    case X => e.x
    case Y => e.y
    case Z => e.z
  }

  /** One column of the table: the chosen component of each row, NaN where the row is. */
  function Column(rows: seq<Option<Emittances>>, axis: Axis): (column: seq<Option<Emittance>>)
    ensures |column| == |rows|
    ensures forall i :: 0 <= i < |rows| ==>
              column[i] == if rows[i].Some? then Some(Component(rows[i].value, axis)) else None
  {
    if rows == [] then []
    else
      var last := rows[|rows| - 1];
      Column(rows[..|rows| - 1], axis) + [if last.Some? then Some(Component(last.value, axis)) else None]
  }

  /** Recording one more row adds its components, or NaN, at the end of each column. */
  lemma ColumnsSnoc(rows: seq<Option<Emittances>>, row: Option<Emittances>)
    ensures Column(rows + [row], X) == Column(rows, X) + [if row.Some? then Some(row.value.x) else None]
    ensures Column(rows + [row], Y) == Column(rows, Y) + [if row.Some? then Some(row.value.y) else None]
    ensures Column(rows + [row], Z) == Column(rows, Z) + [if row.Some? then Some(row.value.z) else None]
  {
    assert (rows + [row])[..|rows|] == rows;
  }

  /**
   * The table built from the recorded rows, indexed by the sample values and
   * named after the swept variable: column `ex` holds each row's x, and so on,
   * with NaN in all three columns where the row is NaN.
   */
  function ResultsTable(config: ScanConfig, rows: seq<Option<Emittances>>): (t: EmitResults)
    ensures t.indexName == config.variableName && t.index == config.scanSpace
    ensures |t.ex| == |t.ey| == |t.ez| == |rows|
    ensures forall i :: 0 <= i < |rows| && rows[i].Some? ==>
              t.ex[i] == Some(rows[i].value.x) && t.ey[i] == Some(rows[i].value.y) && t.ez[i] == Some(rows[i].value.z)
    ensures forall i :: 0 <= i < |rows| && rows[i].None? ==> t.ex[i] == t.ey[i] == t.ez[i] == None
  {
    EmitResults(config.variableName, config.scanSpace, Column(rows, X), Column(rows, Y), Column(rows, Z))
  }

  // ---------------------------------------------------------------------
  // The specification of the sweep, as functions.

  /** The observable state of a session. */
  datatype SessionState = SessionState(globals: map<string, real>, output: string, issued: seq<Command>)

  /** What one point did: its row (or the parse error), its commands and its text. */
  datatype PointRun = PointRun(row: Result<Option<Emittances>, ParseError>, issued: seq<Command>, written: string)

  /** What a point that reaches EMIT prints: TWISS, SURVEY and two EMIT reports. */
  function FullPointText(e: Engine, g: map<string, real>, n: nat): string
  {
    e.output(Twiss, g, n) + e.output(Survey, g, n + 1) + e.output(Emit, g, n + 2) + e.output(Emit, g, n + 3)
  }

  /** A parse result as a row: the emittances, or the error that is raised. */
  function AsRow(parsed: Result<Emittances, ParseError>): Result<Option<Emittances>, ParseError>
  {
    match parsed
    case Success(em) => Success(Some(em))
    case Failure(err) => Failure(err)
  }

  /**
   * The body of the `try` for one point, under globals `g`, with `output` already
   * in the file and `n` commands run before.
   */
  function RunPoint(e: Engine, g: map<string, real>, output: string, n: nat, tol: real): (p: PointRun)
  {
    if !e.twissConverges(g, n) then
      PointRun(Success(None), [Twiss], e.output(Twiss, g, n))
    else if CheckClosure(e.surveyEnds(g, n + 1), tol).Failure? then
      PointRun(Success(None), [Twiss, Survey], e.output(Twiss, g, n) + e.output(Survey, g, n + 1))
    else
      var written := FullPointText(e, g, n);
      PointRun(AsRow(GetEmittancesFromMadxOutput(output + written, true)), [Twiss, Survey, Emit, Emit], written)
  }

  /** The state of a sweep: the session, the rows recorded so far, and the error that ended it. */
  datatype ScanState = ScanState(session: SessionState, rows: seq<Option<Emittances>>, failure: Option<ParseError>)

  /** One pass of the loop: set the global, then attempt the point. */
  function Step(e: Engine, st: ScanState, name: string, v: real, tol: real): (next: ScanState)
    ensures next.session.globals == st.session.globals[name := v]
    ensures st.session.output <= next.session.output && st.session.issued < next.session.issued
    ensures next.failure.None? ==> |next.rows| == |st.rows| + 1 && next.rows[..|st.rows|] == st.rows
    ensures next.failure.Some? ==> next.rows == st.rows
  {
    var g := st.session.globals[name := v];
    var p := RunPoint(e, g, st.session.output, |st.session.issued|, tol);
    var session := SessionState(g, st.session.output + p.written, st.session.issued + p.issued);
    match p.row
    case Success(row) => ScanState(session, st.rows + [row], None)
    case Failure(err) => ScanState(session, st.rows, Some(err))
  }

  /** The sweep over `space` from session state `s0`; a failure stops it. */
  function Scan(e: Engine, s0: SessionState, name: string, space: seq<real>, tol: real): (st: ScanState)
    decreases |space|
  {
    if space == [] then ScanState(s0, [], None)
    else
      var before := Scan(e, s0, name, space[..|space| - 1], tol);
      if before.failure.Some? then before
      else Step(e, before, name, space[|space| - 1], tol)
  }

  /** Point `i` of the sweep: run under `s0`'s globals with the swept one set to `space[i]`. */
  function PointAt(e: Engine, s0: SessionState, name: string, space: seq<real>, tol: real, i: nat): PointRun
    requires i < |space|
  {
    var before := Scan(e, s0, name, space[..i], tol);
    RunPoint(e, s0.globals[name := space[i]], before.session.output, |before.session.issued|, tol)
  }

  // ---------------------------------------------------------------------
  // The session and the driver.

  class Session {
    const engine: Engine
    var globals: map<string, real>
    /** The text of the output file MAD-X prints to. */
    var output: string
    /** The commands run so far, in order. */
    var issued: seq<Command>

    ghost function State(): SessionState
      reads this
    {
      SessionState(globals, output, issued)
    }

    constructor (engine: Engine, globals: map<string, real>, output: string)
      ensures this.engine == engine
      ensures State() == SessionState(globals, output, [])
    {
      this.engine := engine;
      this.globals := globals;
      this.output := output;
      this.issued := [];
    }

    /** `madx.globals[name] = value`. */
    method SetGlobal(name: string, value: real)
      modifies this
      ensures State() == SessionState(old(globals)[name := value], old(output), old(issued))
    {
      globals := globals[name := value];
    }

    /** `madx.twiss()`; `false` is `TwissFailed`. */
    method Twiss() returns (converged: bool)
      modifies this
      ensures converged == engine.twissConverges(globals, |old(issued)|)
      ensures State() == SessionState(old(globals), old(output) + engine.output(Command.Twiss, globals, |old(issued)|),
                                      old(issued) + [Command.Twiss])
    {
      converged := engine.twissConverges(globals, |issued|);
      output := output + engine.output(Command.Twiss, globals, |issued|);
      issued := issued + [Command.Twiss];
    }

    /** `madx.command.survey()` followed by reading the start and end markers. */
    method Survey() returns (ends: SurveyEnds)
      modifies this
      ensures ends == engine.surveyEnds(globals, |old(issued)|)
      ensures State() == SessionState(old(globals), old(output) + engine.output(Command.Survey, globals, |old(issued)|),
                                      old(issued) + [Command.Survey])
    {
      ends := engine.surveyEnds(globals, |issued|);
      output := output + engine.output(Command.Survey, globals, |issued|);
      issued := issued + [Command.Survey];
    }

    /** `madx.command.emit(deltap=madx.globals.deltap)`. */
    method Emit()
      modifies this
      ensures State() == SessionState(old(globals), old(output) + engine.output(Command.Emit, globals, |old(issued)|),
                                      old(issued) + [Command.Emit])
    {
      output := output + engine.output(Command.Emit, globals, |issued|);
      issued := issued + [Command.Emit];
    }

    /** `check_closed_machine(madx, tol)`: a SURVEY, then the closure check. */
    method CheckClosedMachine(tol: real) returns (r: Result<Closure, NotClosed>)
      modifies this
      ensures r == CheckClosure(engine.surveyEnds(globals, |old(issued)|), tol)
      ensures State() == SessionState(old(globals), old(output) + engine.output(Command.Survey, globals, |old(issued)|),
                                      old(issued) + [Command.Survey])
    {
      var ends := Survey();
      r := CheckClosure(ends, tol);
    }

    /**
     * The `try` block for one point: TWISS, the closure check, EMIT twice and the
     * parse. A caught failure gives `Success(None)`; a parse error is passed on.
     */
    method AttemptPoint(tol: real) returns (row: Result<Option<Emittances>, ParseError>)
      modifies this
      ensures var p := RunPoint(engine, old(globals), old(output), |old(issued)|, tol);
              row == p.row && State() == SessionState(old(globals), old(output) + p.written, old(issued) + p.issued)
    {
      var converged := Twiss();
      if !converged {
        return Success(None);
      }
      var closure := CheckClosedMachine(tol);
      if closure.Failure? {
        return Success(None);
      }
      ghost var n, g := |old(issued)|, globals;
      Emit();
      Emit();
      assert output == old(output) + FullPointText(engine, g, n);
      var parsed := GetEmittancesFromMadxOutput(output, true);
      if parsed.Failure? {
        return Failure(parsed.error);
      }
      row := Success(Some(parsed.value));
    }

    /**
     * `scan_param_for_emittance`. The final session state and the outcome are
     * those of `Scan`; a parse error is raised (returned as `Failure`) and no
     * table is built.
     */
    method ScanParamForEmittance(config: ScanConfig, tol: real) returns (r: Result<EmitResults, ParseError>)
      modifies this
      ensures var st := Scan(engine, old(State()), config.variableName, config.scanSpace, tol);
              State() == st.session
              && r == if st.failure.Some? then Failure(st.failure.value) else Success(ResultsTable(config, st.rows))
    {
      ghost var s0 := State();
      var name, space := config.variableName, config.scanSpace;
      var exRes, eyRes, ezRes := [], [], [];
      ghost var rows: seq<Option<Emittances>> := [];
      var i := 0;
      while i < |space|
        invariant 0 <= i <= |space|
        invariant Scan(engine, s0, name, space[..i], tol) == ScanState(State(), rows, None)
        invariant exRes == Column(rows, X) && eyRes == Column(rows, Y) && ezRes == Column(rows, Z)
      {
        ghost var before := State();
        SetGlobal(name, space[i]);
        var row := AttemptPoint(tol);
        ScanAdvance(engine, s0, name, space, tol, i, before, rows);
        match row {
          case Failure(err) =>
            ScanExtends(engine, s0, name, space, tol, i + 1);
            return Failure(err);
          case Success(value) =>
            ColumnsSnoc(rows, value);
            match value {
              case Some(em) =>
                exRes, eyRes, ezRes := exRes + [Some(em.x)], eyRes + [Some(em.y)], ezRes + [Some(em.z)];
              case None =>
                exRes, eyRes, ezRes := exRes + [None], eyRes + [None], ezRes + [None];
            }
            rows := rows + [value];
        }
        i := i + 1;
      }
      assert space[..i] == space;
      r := Success(EmitResults(name, space, exRes, eyRes, ezRes));
    }
  }

  // ---------------------------------------------------------------------
  // Properties of the sweep.

  /** The sweep up to point `i` is one more `Step` after the sweep before it, unless that one stopped. */
  lemma {:induction false} ScanStep(e: Engine, s0: SessionState, name: string, space: seq<real>, tol: real, i: nat)
    requires i < |space|
    ensures var before := Scan(e, s0, name, space[..i], tol);
            Scan(e, s0, name, space[..i + 1], tol)
            == if before.failure.Some? then before else Step(e, before, name, space[i], tol)
  {
    assert space[..i + 1][..i] == space[..i];
    assert space[..i + 1][i] == space[i];
  }

  /**
   * One pass of the loop from a state the sweep reached without failing: the
   * next point runs under that state's globals with the swept one set.
   */
  lemma {:induction false} ScanAdvance(e: Engine, s0: SessionState, name: string, space: seq<real>, tol: real, i: nat,
                    s: SessionState, rows: seq<Option<Emittances>>)
    requires i < |space|
    requires Scan(e, s0, name, space[..i], tol) == ScanState(s, rows, None)
    ensures var g := s.globals[name := space[i]];
            var p := RunPoint(e, g, s.output, |s.issued|, tol);
            var session := SessionState(g, s.output + p.written, s.issued + p.issued);
            Scan(e, s0, name, space[..i + 1], tol)
            == if p.row.Success? then ScanState(session, rows + [p.row.value], None)
               else ScanState(session, rows, Some(p.row.error))
  {
    ScanStep(e, s0, name, space, tol, i);
  }

  /** A shorter sweep is a prefix of a longer one; once stopped, it stays stopped. */
  lemma {:induction false} ScanExtends(e: Engine, s0: SessionState, name: string, space: seq<real>, tol: real, k: nat)
    requires k <= |space|
    ensures var b, st := Scan(e, s0, name, space[..k], tol), Scan(e, s0, name, space, tol);
            b.rows <= st.rows && b.session.output <= st.session.output && b.session.issued <= st.session.issued
            && (b.failure.Some? ==> st == b)
    decreases |space|
  {
    if k == |space| {
      assert space[..k] == space;
    } else {
      var shorter := space[..|space| - 1];
      ScanExtends(e, s0, name, shorter, tol, k);
      assert shorter[..k] == space[..k];
    }
  }

  /**
   * Row count: a completed sweep has exactly one row per sample value; a stopped
   * one has fewer.
   */
  lemma {:induction false} ScanRowCount(e: Engine, s0: SessionState, name: string, space: seq<real>, tol: real)
    ensures var st := Scan(e, s0, name, space, tol);
            (st.failure.None? ==> |st.rows| == |space|)
            && (st.failure.Some? ==> |st.rows| < |space|)
    decreases |space|
  {
    if space != [] {
      ScanRowCount(e, s0, name, space[..|space| - 1], tol);
    }
  }

  /**
   * The swept global holds the value of the last point attempted, including one
   * that failed; the initial value is never written back, and no other global
   * changes.
   */
  lemma {:induction false} ScanGlobals(e: Engine, s0: SessionState, name: string, space: seq<real>, tol: real)
    ensures var st := Scan(e, s0, name, space, tol);
            var attempted := if st.failure.None? then |space| else |st.rows| + 1;
            attempted <= |space|
            && st.session.globals == if attempted == 0 then s0.globals else s0.globals[name := space[attempted - 1]]
    decreases |space|
  {
    if space != [] {
      var shorter := space[..|space| - 1];
      var prev := Scan(e, s0, name, shorter, tol);
      ScanGlobals(e, s0, name, shorter, tol);
      ScanRowCount(e, s0, name, shorter, tol);
      if prev.failure.None? {
        var v := space[|space| - 1];
        var next := Step(e, prev, name, v, tol);
        assert Scan(e, s0, name, space, tol) == next;
        assert prev.session.globals[name := v] == s0.globals[name := v];
        if next.failure.Some? {
          assert |next.rows| + 1 == |space|;
        }
      }
    }
  }

  /** The globals a point is attempted under depend only on its own sample value. */
  lemma {:induction false} PointGlobals(e: Engine, s0: SessionState, name: string, space: seq<real>, tol: real, i: nat)
    requires i < |space|
    requires Scan(e, s0, name, space[..i], tol).failure.None?
    ensures Scan(e, s0, name, space[..i], tol).session.globals[name := space[i]] == s0.globals[name := space[i]]
  {
    ScanGlobals(e, s0, name, space[..i], tol);
    ScanRowCount(e, s0, name, space[..i], tol);
  }

  /**
   * Row `i` is the outcome of point `i`, which runs with the swept global set to
   * `space[i]`, and the commands of point `i` directly follow those of the
   * points before it.
   */
  lemma {:induction false} ScanRowAt(e: Engine, s0: SessionState, name: string, space: seq<real>, tol: real, i: nat)
    requires i < |Scan(e, s0, name, space, tol).rows|
    ensures i < |space|
    ensures var st, before, p := Scan(e, s0, name, space, tol), Scan(e, s0, name, space[..i], tol),
                                 PointAt(e, s0, name, space, tol, i);
            var n := |before.session.issued|;
            before.failure.None? && |before.rows| == i
            && p.row == Success(st.rows[i])
            && n + |p.issued| <= |st.session.issued|
            && st.session.issued[n..n + |p.issued|] == p.issued
  {
    ScanReachesRow(e, s0, name, space, tol, i);
    RowOfReachedPoint(e, s0, name, space, tol, i);
  }

  /** Row `i` of a sweep that reached point `i` with `i` rows is the row point `i` produced. */
  lemma {:induction false} RowOfReachedPoint(e: Engine, s0: SessionState, name: string, space: seq<real>, tol: real, i: nat)
    requires i < |space| && i < |Scan(e, s0, name, space, tol).rows|
    requires var before := Scan(e, s0, name, space[..i], tol);
             before.failure.None? && |before.rows| == i
    ensures var st, before, p := Scan(e, s0, name, space, tol), Scan(e, s0, name, space[..i], tol),
                                 PointAt(e, s0, name, space, tol, i);
            var n := |before.session.issued|;
            p.row == Success(st.rows[i])
            && n + |p.issued| <= |st.session.issued|
            && st.session.issued[n..n + |p.issued|] == p.issued
  {
    var st := Scan(e, s0, name, space, tol);
    var before, after := Scan(e, s0, name, space[..i], tol), Scan(e, s0, name, space[..i + 1], tol);
    var p := PointAt(e, s0, name, space, tol, i);
    NextPointParts(e, s0, name, space, tol, i);
    assert after.rows <= st.rows && after.session.issued <= st.session.issued
           && (after.failure.Some? ==> st == after) by {
      ScanExtends(e, s0, name, space, tol, i + 1);
    }
    RowFromParts(st, before, after, p, i);
  }

  /** The rows, commands and stop of the sweep after point `i`, from those before it and the point's run. */
  lemma {:induction false} NextPointParts(e: Engine, s0: SessionState, name: string, space: seq<real>, tol: real, i: nat)
    requires i < |space|
    requires Scan(e, s0, name, space[..i], tol).failure.None?
    ensures var before, after := Scan(e, s0, name, space[..i], tol), Scan(e, s0, name, space[..i + 1], tol);
            var p := PointAt(e, s0, name, space, tol, i);
            after.session.issued == before.session.issued + p.issued
            && after.rows == (if p.row.Success? then before.rows + [p.row.value] else before.rows)
            && (after.failure.None? <==> p.row.Success?)
  {
    ScanNextPoint(e, s0, name, space, tol, i);
  }

  /** A sweep that recorded row `i` reached point `i` with `i` rows and no failure. */
  lemma {:induction false} ScanReachesRow(e: Engine, s0: SessionState, name: string, space: seq<real>, tol: real, i: nat)
    requires i < |Scan(e, s0, name, space, tol).rows|
    ensures i < |space|
    ensures var before := Scan(e, s0, name, space[..i], tol);
            before.failure.None? && |before.rows| == i
  {
    ScanRowCount(e, s0, name, space, tol);
    ScanExtends(e, s0, name, space, tol, i);
    ScanRowCount(e, s0, name, space[..i], tol);
  }

  /** The sequence reasoning behind `ScanRowAt`, on the states themselves. */
  lemma RowFromParts(st: ScanState, before: ScanState, after: ScanState, p: PointRun, i: nat)
    requires |before.rows| == i < |st.rows|
    requires after.session.issued == before.session.issued + p.issued
    requires after.rows == (if p.row.Success? then before.rows + [p.row.value] else before.rows)
    requires after.failure.None? <==> p.row.Success?
    requires after.rows <= st.rows && after.session.issued <= st.session.issued
    requires after.failure.Some? ==> st == after
    ensures p.row == Success(st.rows[i])
    ensures var n := |before.session.issued|;
            n + |p.issued| <= |st.session.issued| && st.session.issued[n..n + |p.issued|] == p.issued
  {
    assert p.row.Success?;
    assert st.rows[i] == after.rows[i];
    var n := |before.session.issued|;
    assert st.session.issued[..|after.session.issued|] == after.session.issued;
    assert st.session.issued[n..n + |p.issued|] == after.session.issued[n..];
  }

  /** One more point of the sweep, when the points before it did not stop it. */
  lemma {:induction false} ScanNextPoint(e: Engine, s0: SessionState, name: string, space: seq<real>, tol: real, i: nat)
    requires i < |space|
    requires Scan(e, s0, name, space[..i], tol).failure.None?
    ensures var before, p := Scan(e, s0, name, space[..i], tol), PointAt(e, s0, name, space, tol, i);
            Scan(e, s0, name, space[..i + 1], tol)
            == ScanState(SessionState(s0.globals[name := space[i]], before.session.output + p.written,
                                      before.session.issued + p.issued),
                         if p.row.Success? then before.rows + [p.row.value] else before.rows,
                         if p.row.Success? then None else Some(p.row.error))
  {
    assert space[..i + 1][..i] == space[..i];
    assert space[..i + 1][i] == space[i];
    PointGlobals(e, s0, name, space, tol, i);
  }

  /**
   * A parse error at point `j` ends the sweep there: every earlier point
   * recorded a row, point `j` ran under `space[j]`, and nothing ran after it.
   * Only the parser stops it: point `j` got past TWISS and the closure check.
   */
  lemma {:induction false} ScanStopsAt(e: Engine, s0: SessionState, name: string, space: seq<real>, tol: real)
    requires Scan(e, s0, name, space, tol).failure.Some?
    ensures var st := Scan(e, s0, name, space, tol);
            var j := |st.rows|;
            j < |space|
            && var before, p := Scan(e, s0, name, space[..j], tol), PointAt(e, s0, name, space, tol, j);
               before.failure.None? && before.rows == st.rows
               && p.row == Failure(st.failure.value)
               && st.session == SessionState(s0.globals[name := space[j]],
                                             before.session.output + p.written,
                                             before.session.issued + p.issued)
               && var g, n := s0.globals[name := space[j]], |before.session.issued|;
                  e.twissConverges(g, n) && CheckClosure(e.surveyEnds(g, n + 1), tol).Success?
                  && p.issued == [Twiss, Survey, Emit, Emit]
                  && GetEmittancesFromMadxOutput(before.session.output + p.written, true) == Failure(st.failure.value)
  {
    StoppedSweep(e, s0, name, space, tol);
    var j := |Scan(e, s0, name, space, tol).rows|;
    var before := Scan(e, s0, name, space[..j], tol);
    FailedPointParsed(e, s0.globals[name := space[j]], before.session.output, |before.session.issued|, tol);
  }

  /** The point a stopped sweep stopped at, and the state it left. */
  lemma {:induction false} StoppedSweep(e: Engine, s0: SessionState, name: string, space: seq<real>, tol: real)
    requires Scan(e, s0, name, space, tol).failure.Some?
    ensures var st := Scan(e, s0, name, space, tol);
            var j := |st.rows|;
            j < |space|
            && var before, p := Scan(e, s0, name, space[..j], tol), PointAt(e, s0, name, space, tol, j);
               before.failure.None? && before.rows == st.rows
               && p.row == Failure(st.failure.value)
               && st.session == SessionState(s0.globals[name := space[j]],
                                             before.session.output + p.written,
                                             before.session.issued + p.issued)
    decreases |space|
  {
    var st := Scan(e, s0, name, space, tol);
    var shorter := space[..|space| - 1];
    var prev := Scan(e, s0, name, shorter, tol);
    ScanRowCount(e, s0, name, space, tol);
    ScanRowCount(e, s0, name, shorter, tol);
    if prev.failure.Some? {
      StoppedSweep(e, s0, name, shorter, tol);
      var j := |st.rows|;
      assert shorter[..j] == space[..j];
      assert shorter[j] == space[j];
    } else {
      var j := |st.rows|;
      assert j == |space| - 1;
      assert space[..j] == shorter;
      PointGlobals(e, s0, name, space, tol, j);
    }
  }

  /** Only the parser raises: a point that fails got past TWISS and the closure check and ran EMIT twice. */
  lemma FailedPointParsed(e: Engine, g: map<string, real>, output: string, n: nat, tol: real)
    requires RunPoint(e, g, output, n, tol).row.Failure?
    ensures var p := RunPoint(e, g, output, n, tol);
            e.twissConverges(g, n) && CheckClosure(e.surveyEnds(g, n + 1), tol).Success?
            && p.issued == [Twiss, Survey, Emit, Emit]
            && GetEmittancesFromMadxOutput(output + p.written, true) == Failure(p.row.error)
  {
  }

  /**
   * A caught failure does not stop the sweep: a point whose TWISS fails or whose
   * machine is open records NaN, and the sweep goes on.
   */
  lemma {:induction false} CaughtFailureContinues(e: Engine, s0: SessionState, name: string, space: seq<real>,
                                                  tol: real, i: nat)
    requires i < |space|
    requires Scan(e, s0, name, space[..i], tol).failure.None?
    requires var g, n := s0.globals[name := space[i]], |Scan(e, s0, name, space[..i], tol).session.issued|;
             !e.twissConverges(g, n) || CheckClosure(e.surveyEnds(g, n + 1), tol).Failure?
    ensures var before, after := Scan(e, s0, name, space[..i], tol), Scan(e, s0, name, space[..i + 1], tol);
            after.failure.None? && after.rows == before.rows + [None]
  {
    ScanNextPoint(e, s0, name, space, tol, i);
  }

  /**
   * The failure policy, point by point: a point whose TWISS fails records NaN
   * after TWISS alone; a point whose machine is open records NaN after TWISS and
   * SURVEY; any other point runs EMIT twice and records what the parser read.
   */
  lemma {:induction false} ScanFailurePolicy(e: Engine, s0: SessionState, name: string, space: seq<real>, tol: real, i: nat)
    requires i < |Scan(e, s0, name, space, tol).rows|
    ensures i < |space|
    ensures var st, before := Scan(e, s0, name, space, tol), Scan(e, s0, name, space[..i], tol);
            var g, n := s0.globals[name := space[i]], |before.session.issued|;
            var converged := e.twissConverges(g, n);
            var closure := CheckClosure(e.surveyEnds(g, n + 1), tol);
            var p := PointAt(e, s0, name, space, tol, i);
            (st.rows[i] == None <==> !converged || closure.Failure?)
            && (!converged ==> p.issued == [Twiss])
            && (converged && closure.Failure? ==> p.issued == [Twiss, Survey])
            && (converged && closure.Success? ==>
                  p.issued == [Twiss, Survey, Emit, Emit]
                  && GetEmittancesFromMadxOutput(before.session.output + p.written, true) == Success(st.rows[i].value))
  {
    ScanRowAt(e, s0, name, space, tol, i);
  }

  // ---------------------------------------------------------------------
  // What a point reads.

  predicate EndsWithNewline(s: string)
  {
    s != [] && s[|s| - 1] == '\n'
  }

  /**
   * A point whose first EMIT report ends its line, and whose second report
   * holds an emittance line, reads that second report and nothing older, in
   * metres.
   */
  lemma PointReadsOwnEmitReport(e: Engine, g: map<string, real>, output: string, n: nat, tol: real)
    requires e.twissConverges(g, n) && CheckClosure(e.surveyEnds(g, n + 1), tol).Success?
    requires EndsWithNewline(e.output(Emit, g, n + 2))
    requires EmitLines(e.output(Emit, g, n + 3)) != []
    ensures RunPoint(e, g, output, n, tol).row == AsRow(GetEmittancesFromMadxOutput(e.output(Emit, g, n + 3), true))
  {
    var tw, sv, e1, e2 := e.output(Twiss, g, n), e.output(Survey, g, n + 1), e.output(Emit, g, n + 2), e.output(Emit, g, n + 3);
    var first := output + tw + sv + e1;
    assert output + FullPointText(e, g, n) == first + e2;
    assert GetEmittancesFromMadxOutput(first + e2, true) == GetEmittancesFromMadxOutput(e2, true) by {
      assert first[|first| - 1] == '\n';
      EarlierOutputIgnored(first, e2, true);
    }
  }

  /**
   * A point whose commands print no emittance line reads the last report
   * already in the file: the row then repeats an earlier point's values.
   */
  lemma PointWithoutReportReadsEarlier(e: Engine, g: map<string, real>, output: string, n: nat, tol: real)
    requires e.twissConverges(g, n) && CheckClosure(e.surveyEnds(g, n + 1), tol).Success?
    requires output == [] || EndsWithNewline(output)
    requires EmitLines(RunPoint(e, g, output, n, tol).written) == []
    ensures RunPoint(e, g, output, n, tol).row == AsRow(GetEmittancesFromMadxOutput(output, true))
  {
    LaterOutputWithoutEmitLine(output, RunPoint(e, g, output, n, tol).written, true);
  }

  /** The three columns have one entry per sample value and agree on which are NaN. */
  lemma ResultsTableShape(config: ScanConfig, rows: seq<Option<Emittances>>)
    requires |rows| == |config.scanSpace|
    ensures var t := ResultsTable(config, rows);
            |t.ex| == |t.ey| == |t.ez| == |t.index| == |config.scanSpace|
            && t.indexName == config.variableName
            && forall i :: 0 <= i < |rows| ==>
                 (t.ex[i].None? <==> rows[i].None?) && (t.ey[i].None? <==> rows[i].None?)
                 && (t.ez[i].None? <==> rows[i].None?)
  {
  }

  // ---------------------------------------------------------------------
  // A sweep of three points whose middle TWISS fails.

  /**
   * An engine whose TWISS fails exactly when the global `name` equals `bad`,
   * whose ring is always closed, and whose EMIT prints `report` as one line.
   */
  function OneBadPointEngine(name: string, bad: real, report: string): Engine
  {
    Engine((g: map<string, real>, n: nat) => !(name in g && g[name] == bad),
           (g: map<string, real>, n: nat) => SurveyEnds(0.0, 0.0, 0.0, 0.0),
           (c: Command, g: map<string, real>, n: nat) => if c == Emit then report + "\n" else [])
  }

  lemma NoLineBreakInReport(fields: seq<string>)
    requires forall i :: 0 <= i < |fields| ==> IsWord(fields[i])
    ensures '\n' !in EmitReport(fields) && '\r' !in EmitReport(fields)
  {
    NoLineBreakInUnwords(fields);
  }

  lemma {:induction false} NoLineBreakInUnwords(ws: seq<string>)
    requires forall i :: 0 <= i < |ws| ==> IsWord(ws[i])
    ensures '\n' !in Unwords(ws) && '\r' !in Unwords(ws)
    decreases |ws|
  {
    if ws != [] {
      NoLineBreakInUnwords(ws[1..]);
    }
  }

  /** EMIT's report, as the engine prints it, parses to the report's first three fields. */
  lemma ReportLineParses(fields: seq<string>)
    requires |fields| >= 3 && forall i :: 0 <= i < |fields| ==> IsWord(fields[i])
    ensures EmitLines(EmitReport(fields) + "\n") != []
    ensures GetEmittancesFromMadxOutput(EmitReport(fields) + "\n", true)
         == Success(Emittances(Emittance(fields[0], MicronsPerMeter), Emittance(fields[1], MicronsPerMeter),
                               Emittance(fields[2], MicronsPerMeter)))
  {
    var report := EmitReport(fields);
    NoLineBreakInReport(fields);
    assert Join([report, []], '\n') == report + "\n";
    UnwordsPadded(fields);
    ParseEmitReport([report, []], 0, fields, seq(|fields|, _ => " ") + [[]], true);
  }

  /** A good point of that engine reads the report. */
  lemma OneBadPointGood(name: string, bad: real, fields: seq<string>, g: map<string, real>, output: string, n: nat)
    requires |fields| >= 3 && forall i :: 0 <= i < |fields| ==> IsWord(fields[i])
    requires name in g && g[name] != bad
    ensures var line := EmitReport(fields) + "\n";
            RunPoint(OneBadPointEngine(name, bad, EmitReport(fields)), g, output, n, DefaultTolerance)
            == PointRun(Success(Some(Emittances(Emittance(fields[0], MicronsPerMeter), Emittance(fields[1], MicronsPerMeter),
                                                Emittance(fields[2], MicronsPerMeter)))),
                        [Twiss, Survey, Emit, Emit], line + line)
  {
    var e := OneBadPointEngine(name, bad, EmitReport(fields));
    ReportLineParses(fields);
    PointReadsOwnEmitReport(e, g, output, n, DefaultTolerance);
    assert [] + [] + (EmitReport(fields) + "\n") == EmitReport(fields) + "\n";
  }

  /** The bad point of that engine records NaN after TWISS alone. */
  lemma OneBadPointBad(name: string, bad: real, report: string, g: map<string, real>, output: string, n: nat)
    requires name in g && g[name] == bad
    ensures RunPoint(OneBadPointEngine(name, bad, report), g, output, n, DefaultTolerance)
            == PointRun(Success(None), [Twiss], [])
  {
  }

  /**
   * Three samples, TWISS failing at the middle one: the sweep does not stop,
   * it has three rows, the middle one is NaN and the other two hold the report.
   */
  lemma MiddleTwissFailure(name: string, a: real, b: real, c: real, fields: seq<string>)
    requires a != b && c != b
    requires |fields| >= 3 && forall i :: 0 <= i < |fields| ==> IsWord(fields[i])
    ensures var e := OneBadPointEngine(name, b, EmitReport(fields));
            var st := Scan(e, SessionState(map[], [], []), name, [a, b, c], DefaultTolerance);
            var read := Some(Emittances(Emittance(fields[0], MicronsPerMeter), Emittance(fields[1], MicronsPerMeter),
                                        Emittance(fields[2], MicronsPerMeter)));
            st.failure.None? && st.rows == [read, None, read]
  {
    var e := OneBadPointEngine(name, b, EmitReport(fields));
    var s0 := SessionState(map[], [], []);
    var tol := DefaultTolerance;
    assert [a, b, c][..2] == [a, b] && [a, b][..1] == [a] && [a][..0] == [];
    var st0 := Scan(e, s0, name, [], tol);
    OneBadPointGood(name, b, fields, map[name := a], st0.session.output, 0);
    var st1 := Scan(e, s0, name, [a], tol);
    assert st1 == Step(e, st0, name, a, tol);
    OneBadPointBad(name, b, EmitReport(fields), st1.session.globals[name := b], st1.session.output, |st1.session.issued|);
    var st2 := Scan(e, s0, name, [a, b], tol);
    assert st2 == Step(e, st1, name, b, tol);
    OneBadPointGood(name, b, fields, st2.session.globals[name := c], st2.session.output, |st2.session.issued|);
    assert Scan(e, s0, name, [a, b, c], tol) == Step(e, st2, name, c, tol);
  }
}

/** The daemon's authoritative screen: what output does to it, and how damage
    becomes the delta or snapshot a client receives. The VT parser itself is
    abstract: `Fed` says what one batch of output may do to the screen. */
module Engine {
  import opened Options
  import opened TerminalTypes

  /** Inclusive columns of one damaged line. */
  datatype Span = Span(line: nat, first: nat, last: nat)

  datatype Damage = Full | Columns(spans: seq<Span>)

  const CLEAN: Damage := Columns([])

  datatype Engine = Engine(
    size: PtySize,
    visible: seq<Row>,
    history: seq<Row>,
    damage: Damage,
    generation: nat,
    cursor: Cursor,
    modes: TermModes,
    title: Option<string>)

  ghost predicate SizedRows(size: PtySize, rows: seq<Row>) {
    && |rows| == size.rows
    && forall i :: 0 <= i < |rows| ==> |rows[i].cells| == size.cols
  }

  predicate SpanIn(visible: seq<Row>, span: Span) {
    span.line < |visible| && span.first <= span.last < |visible[span.line].cells|
  }

  predicate SpansIn(visible: seq<Row>, spans: seq<Span>) {
    forall i :: 0 <= i < |spans| ==> SpanIn(visible, spans[i])
  }

  ghost predicate Valid(e: Engine) {
    && SizedRows(e.size, e.visible)
    && (e.damage.Columns? ==> SpansIn(e.visible, e.damage.spans))
  }

  ghost predicate Covers(span: Span, line: nat, col: nat) {
    span.line == line && span.first <= col <= span.last
  }

  ghost predicate Touched(d: Damage, line: nat, col: nat) {
    d.Full? || exists i :: 0 <= i < |d.spans| && Covers(d.spans[i], line, col)
  }

  ghost predicate TouchedLine(d: Damage, line: nat) {
    d.Full? || exists i :: 0 <= i < |d.spans| && d.spans[i].line == line
  }

  ghost predicate LineAgrees(a: Row, b: Row, d: Damage, line: nat) {
    && |a.cells| == |b.cells|
    && (forall col :: 0 <= col < |a.cells| && !Touched(d, line, col) ==> a.cells[col] == b.cells[col])
    && (!TouchedLine(d, line) ==> a.wrapped == b.wrapped)
  }

  /** The two screens differ only where `d` says something changed. */
  ghost predicate Agrees(a: seq<Row>, b: seq<Row>, d: Damage) {
    && |a| == |b|
    && forall line :: 0 <= line < |a| ==> LineAgrees(a[line], b[line], d, line)
  }

  ghost predicate DamageGrows(d: Damage, d': Damage) {
    d'.Full? || (d.Columns? && d.spans <= d'.spans)
  }

  /** One batch of output, before its damage is taken: the geometry stays, the
      damage accumulates and covers every cell that changed, and a history row
      keeps its absolute index until the generation moves. */
  ghost predicate Fed(e: Engine, e': Engine) {
    && Valid(e')
    && e'.size == e.size
    && DamageGrows(e.damage, e'.damage)
    && Agrees(e.visible, e'.visible, e'.damage)
    && e.generation <= e'.generation
    && (e.generation == e'.generation ==> e.history <= e'.history)
  }

  /** Where `RowSlice` stops: one past `last`, clipped to the line. */
  function SliceEnd(cols: nat, first: nat, last: nat): (end: nat)
    ensures first <= cols ==> first <= end <= cols
  {
    var clipped := if last + 1 < cols then last + 1 else cols;
    if clipped < first then first else clipped
  }

  function RowSlice(visible: seq<Row>, span: Span): (r: Row)
    requires SpanIn(visible, span)
  {
    var row := visible[span.line];
    Row(row.cells[span.first..SliceEnd(|row.cells|, span.first, span.last)], row.wrapped)
  }

  function Patches(visible: seq<Row>, spans: seq<Span>): (ps: seq<CellPatch>)
    requires SpansIn(visible, spans)
  {
    seq(|spans|, i requires 0 <= i < |spans| =>
      CellPatch(spans[i].line, spans[i].first, RowSlice(visible, spans[i])))
  }

  function WholeRows(visible: seq<Row>): (rows: seq<(nat, Row)>) {
    seq(|visible|, i requires 0 <= i < |visible| => (i as nat, visible[i]))
  }

  /** The delta `seqNo` carries: every line after a full repaint, otherwise one
      patch for each damaged span. */
  function BuildDelta(e: Engine, seqNo: nat): (d: TerminalDelta)
    requires Valid(e)
  {
    var (rows, patches) :=
      if e.damage.Full? then (WholeRows(e.visible), []) else ([], Patches(e.visible, e.damage.spans));
    TerminalDelta(seqNo, rows, patches, |e.history|, e.generation, e.cursor, e.modes)
  }

  const SCROLLBACK_TAIL: nat := 200

  function BuildSnapshot(e: Engine, seqNo: nat): (s: TerminalSnapshot)
  {
    var tail := if |e.history| < SCROLLBACK_TAIL then |e.history| else SCROLLBACK_TAIL;
    TerminalSnapshot(seqNo, e.size, e.visible, e.history[|e.history| - tail..], |e.history|,
                     e.generation, e.cursor, e.modes, e.title)
  }

  // ---- How a replica takes a delta ----

  function PutRows(visible: seq<Row>, rows: seq<(nat, Row)>): (r: seq<Row>)
    requires forall i :: 0 <= i < |rows| ==> rows[i].0 < |visible|
    ensures |r| == |visible|
    decreases |rows|
  {
    if rows == [] then visible else PutRows(visible[rows[0].0 := rows[0].1], rows[1..])
  }

  predicate PatchFits(visible: seq<Row>, p: CellPatch) {
    p.line < |visible| && p.first + |p.row.cells| <= |visible[p.line].cells|
  }

  function PatchRow(row: Row, p: CellPatch): (r: Row)
    requires p.first + |p.row.cells| <= |row.cells|
    ensures |r.cells| == |row.cells|
  {
    Row(row.cells[..p.first] + p.row.cells + row.cells[p.first + |p.row.cells|..], p.row.wrapped)
  }

  function PutPatches(visible: seq<Row>, patches: seq<CellPatch>): (r: seq<Row>)
    requires forall i :: 0 <= i < |patches| ==> PatchFits(visible, patches[i])
    ensures |r| == |visible|
    decreases |patches|
  {
    if patches == [] then visible
    else
      var p := patches[0];
      assert PatchFits(visible, p);
      var next := visible[p.line := PatchRow(visible[p.line], p)];
      assert forall i :: 0 <= i < |patches[1..]| ==> PatchFits(next, patches[1..][i]) by {
        forall i | 0 <= i < |patches[1..]| ensures PatchFits(next, patches[1..][i]) {
          assert PatchFits(visible, patches[i + 1]);
        }
      }
      PutPatches(next, patches[1..])
  }

  // ---- A delta repairs any screen that agrees outside its damage ----

  lemma AgreesRefl(a: seq<Row>, d: Damage)
    ensures Agrees(a, a, d)
  {
  }

  lemma AgreesTransGrow(a: seq<Row>, b: seq<Row>, c: seq<Row>, d: Damage, d': Damage)
    requires Agrees(a, b, d) && Agrees(b, c, d') && DamageGrows(d, d')
    ensures Agrees(a, c, d')
  {
    forall line | 0 <= line < |a| ensures LineAgrees(a[line], c[line], d', line) {
      assert LineAgrees(a[line], b[line], d, line);
      assert LineAgrees(b[line], c[line], d', line);
      if !d'.Full? {
        forall col | 0 <= col < |a[line].cells| && !Touched(d', line, col)
          ensures a[line].cells[col] == c[line].cells[col]
        {
          assert forall i :: 0 <= i < |d.spans| ==> d.spans[i] == d'.spans[i];
          assert !Touched(d, line, col);
        }
        assert forall i :: 0 <= i < |d.spans| ==> d.spans[i] == d'.spans[i];
      }
    }
  }

  lemma {:induction false} WholeRowsRepair(a: seq<Row>, b: seq<Row>, from: nat)
    requires |a| == |b| && from <= |b|
    requires forall i :: 0 <= i < from ==> a[i] == b[i]
    ensures PutRows(a, WholeRows(b)[from..]) == b
    decreases |b| - from
  {
    var rows := WholeRows(b)[from..];
    if from < |b| {
      assert rows[0] == (from, b[from]);
      assert rows[1..] == WholeRows(b)[from + 1..];
      WholeRowsRepair(a[from := b[from]], b, from + 1);
    } else {
      assert a == b;
    }
  }

  /** Writing the first span's patch settles its cells and leaves the rest. */
  lemma PatchStep(a: seq<Row>, b: seq<Row>, spans: seq<Span>)
    requires spans != [] && SpansIn(b, spans)
    requires Agrees(a, b, Columns(spans))
    ensures SpanIn(b, spans[0])
    ensures var p := CellPatch(spans[0].line, spans[0].first, RowSlice(b, spans[0]));
            PatchFits(a, p) &&
            Agrees(a[p.line := PatchRow(a[p.line], p)], b, Columns(spans[1..]))
  {
    var s := spans[0];
    assert SpanIn(b, s);
    var p := CellPatch(s.line, s.first, RowSlice(b, s));
    assert LineAgrees(a[s.line], b[s.line], Columns(spans), s.line);
    var a' := a[p.line := PatchRow(a[p.line], p)];
    assert forall i :: 1 <= i < |spans| ==> spans[1..][i - 1] == spans[i];
    forall line | 0 <= line < |a'| ensures LineAgrees(a'[line], b[line], Columns(spans[1..]), line) {
      assert LineAgrees(a[line], b[line], Columns(spans), line);
    }
  }

  lemma {:induction false} PatchesRepair(a: seq<Row>, b: seq<Row>, spans: seq<Span>)
    requires SpansIn(b, spans)
    requires Agrees(a, b, Columns(spans))
    ensures forall i :: 0 <= i < |spans| ==> PatchFits(a, Patches(b, spans)[i])
    ensures PutPatches(a, Patches(b, spans)) == b
    decreases |spans|
  {
    var ps := Patches(b, spans);
    forall i | 0 <= i < |spans| ensures PatchFits(a, ps[i]) {
      assert SpanIn(b, spans[i]);
      assert LineAgrees(a[spans[i].line], b[spans[i].line], Columns(spans), spans[i].line);
    }
    if spans == [] {
      forall line | 0 <= line < |a| ensures a[line] == b[line] {
        assert LineAgrees(a[line], b[line], CLEAN, line);
        assert a[line].cells == b[line].cells;
      }
      assert a == b;
    } else {
      PatchStep(a, b, spans);
      var a' := a[ps[0].line := PatchRow(a[ps[0].line], ps[0])];
      PatchesRepair(a', b, spans[1..]);
      assert ps[1..] == Patches(b, spans[1..]);
    }
  }

  ghost predicate DeltaFits(visible: seq<Row>, d: TerminalDelta) {
    && (forall i :: 0 <= i < |d.rows| ==> d.rows[i].0 < |visible|)
    && (forall i :: 0 <= i < |d.patches| ==> PatchFits(visible, d.patches[i]))
  }

  /** A delta built from `e` turns every screen that agrees with `e` outside
      its damage into exactly `e`'s screen. */
  lemma DeltaRepairs(a: seq<Row>, e: Engine, seqNo: nat)
    requires Valid(e) && Agrees(a, e.visible, e.damage)
    ensures var d := BuildDelta(e, seqNo);
            DeltaFits(a, d) && PutRows(a, d.rows) == (if e.damage.Full? then e.visible else a)
            && (e.damage.Columns? ==> PutPatches(a, d.patches) == e.visible)
  {
    if e.damage.Full? {
      WholeRowsRepair(a, e.visible, 0);
      assert WholeRows(e.visible)[0..] == WholeRows(e.visible);
    } else {
      PatchesRepair(a, e.visible, e.damage.spans);
    }
  }
}

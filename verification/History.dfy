/** Whether cached history is the daemon's history: the daemon side of a
    scrollback fetch, and every run of output, deltas, resyncs and fetches whose
    messages may arrive late, twice, out of order or not at all. */
module History {
  import opened Options
  import opened TerminalTypes
  import opened Engine
  import opened Scrollback
  import opened Replica

  const MAX_FETCH: nat := 4_096
  const MAX_FETCH_CELLS: nat := 512 * 1024

  // ---- The daemon's answer to a fetch ----

  function Blank(cols: nat): Row {
    Row(seq(cols, _ => Cell(" ", 0, 0, 0)), false)
  }

  /** The row at an absolute index: history, then the screen below it, then
      blanks. */
  function RowAt(e: Engine, absolute: nat): (r: Row) {
    if absolute < |e.history| then e.history[absolute]
    else if absolute - |e.history| < |e.visible| then e.visible[absolute - |e.history|]
    else Blank(e.size.cols)
  }

  datatype Fetched = Refused | Page(block: ScrollbackRows)

  function FetchCount(e: Engine, count: nat): (n: nat) {
    var budget := MAX_FETCH_CELLS / (if e.size.cols == 0 then 1 else e.size.cols);
    if count < budget then count else budget
  }

  function FetchScrollback(e: Engine, fromLine: int, count: nat): (r: Fetched) {
    if count == 0 then Page(ScrollbackRows(0, None, fromLine, []))
    else if count > MAX_FETCH || fromLine < 0 then Refused
    else if fromLine - |e.history| + FetchCount(e, count) > I64_MAX then Refused
    else Page(ScrollbackRows(e.generation, None, fromLine,
                             seq(FetchCount(e, count), i requires 0 <= i => RowAt(e, fromLine + i))))
  }

  function Min(a: nat, b: nat): nat {
    if a < b then a else b
  }

  /** A page holds as many rows as were asked for, or as fit the cell budget, of
      the daemon's generation, each the row at its own absolute index; a fetch
      is refused only for too many rows, a negative line or an index past the
      end of the counter. */
  lemma PageHolds(e: Engine, fromLine: int, count: nat)
    requires count > 0
    ensures var budget := MAX_FETCH_CELLS / (if e.size.cols == 0 then 1 else e.size.cols);
            match FetchScrollback(e, fromLine, count)
            case Refused =>
              count > MAX_FETCH || fromLine < 0 || fromLine + Min(count, budget) > I64_MAX + |e.history|
            case Page(block) =>
              && block.generation == e.generation && block.fromLine == fromLine >= 0 && count <= MAX_FETCH
              && |block.rows| == Min(count, budget)
              && forall i :: 0 <= i < |block.rows| ==>
                   block.rows[i] ==
                   if fromLine + i < |e.history| then e.history[fromLine + i]
                   else if fromLine + i < |e.history| + |e.visible| then e.visible[fromLine + i - |e.history|]
                   else Blank(e.size.cols)
  {
    var r := FetchScrollback(e, fromLine, count);
    if r.Page? {
      forall i | 0 <= i < |r.block.rows| ensures r.block.rows[i] == RowAt(e, fromLine + i) { }
    }
  }

  /** A replica just attached offers, above the viewport, the newest rows of the
      terminal's history: all of it, or the 200 a snapshot carries. */
  lemma AttachedOffersNewest(e: Engine, seqNo: nat, offset: int)
    requires |e.history| <= I64_MAX && 0 <= Min(SCROLLBACK_TAIL, |e.history|) + offset && offset < 0
    ensures ScrollbackRow(FromSnapshot(BuildSnapshot(e, seqNo)), offset) == Some(e.history[|e.history| + offset])
  {
    var s := BuildSnapshot(e, seqNo);
    SnapshotIsOffered(s, offset);
  }

  /** Later output within the generation can only add history below. */
  ghost predicate Matches(block: ScrollbackRows, history: seq<Row>) {
    forall at :: block.fromLine <= at < block.fromLine + |block.rows| && 0 <= at < |history| ==>
      block.rows[at - block.fromLine] == history[at]
  }

  ghost predicate Durable(e: Engine, block: ScrollbackRows) {
    forall e' :: Fed(e, e') && e'.generation == e.generation ==> Matches(block, e'.history)
  }

  /** A page stays true for the rest of its generation exactly when it was
      asked for no further than the history of the moment: past that end the
      daemon serves screen rows and blanks, which output may replace before
      they become history. */
  lemma FetchDurableIff(e: Engine, fromLine: int, count: nat)
    requires Valid(e) && count > 0 && FetchCount(e, count) > 0
    requires FetchScrollback(e, fromLine, count).Page?
    ensures var block := FetchScrollback(e, fromLine, count).block;
            Durable(e, block) <==> fromLine + |block.rows| <= |e.history|
  {
    var block := FetchScrollback(e, fromLine, count).block;
    if fromLine + |block.rows| <= |e.history| {
      forall e' | Fed(e, e') && e'.generation == e.generation ensures Matches(block, e'.history) {
        forall at | fromLine <= at < fromLine + |block.rows| && 0 <= at < |e'.history|
          ensures block.rows[at - fromLine] == e'.history[at]
        {
          assert block.rows[at - fromLine] == RowAt(e, fromLine + (at - fromLine));
          assert e.history[at] == e'.history[at];
        }
      }
    } else {
      var at := fromLine + |block.rows| - 1;
      var served := block.rows[at - fromLine];
      var other := Row(served.cells, !served.wrapped);
      var longer := e.history + seq(at + 1 - |e.history|, _ => other);
      var e' := e.(history := longer, damage := Full);
      assert Agrees(e.visible, e'.visible, Full);
      assert e.history <= longer;
      assert Fed(e, e');
      assert longer[at] == other;
      assert !Matches(block, e'.history);
    }
  }

  // ---- Every run ----

  datatype Carried = Delta(d: TerminalDelta) | Snapshot(s: TerminalSnapshot) | Block(b: ScrollbackRows)

  /** `archive` is each generation's history as last seen; `sent` is everything
      the daemon ever put on the wire. */
  datatype World = World(engine: Engine, archive: map<nat, seq<Row>>, sent: set<Carried>, grid: Grid)

  datatype Step =
    | Output(after: Engine)
    | TakeDamage
    | SendDelta(seqNo: nat)
    | SendSnapshot(seqNo: nat)
    | ServePage(fromLine: int, count: nat)
    | ServePageWithSnapshot(fromLine: int, count: nat, seqNo: nat)
    | Deliver(m: Carried)
    | Attach(s: TerminalSnapshot)

  function Receive(g: Grid, m: Carried): Grid {
    match m
    case Delta(d) => ApplyDelta(g, d).0
    case Snapshot(s) => ApplyResync(g, s).0
    case Block(b) => MergeScrollback(g, b)
  }

  function WithSnapshot(b: ScrollbackRows, e: Engine, seqNo: nat): ScrollbackRows {
    b.(snapshot := Some(BuildSnapshot(e, seqNo)))
  }

  /** The range of a fetch ends within the history of the moment. */
  predicate WithinHistory(e: Engine, fromLine: int, count: nat) {
    fromLine + FetchCount(e, count) <= |e.history|
  }

  ghost predicate Enabled(w: World, step: Step) {
    match step
    case Output(after) => Fed(w.engine, after)
    case TakeDamage => true
    case SendDelta(_) => Valid(w.engine)
    case SendSnapshot(_) => true
    case ServePage(fromLine, count) =>
      FetchScrollback(w.engine, fromLine, count).Page? && WithinHistory(w.engine, fromLine, count)
    case ServePageWithSnapshot(fromLine, count, _) =>
      FetchScrollback(w.engine, fromLine, count).Page? && WithinHistory(w.engine, fromLine, count)
    case Deliver(m) => m in w.sent
    case Attach(s) => Snapshot(s) in w.sent
  }

  function Next(w: World, step: Step): (w': World)
    requires Enabled(w, step)
  {
    match step
    case Output(after) => w.(engine := after, archive := w.archive[after.generation := after.history])
    case TakeDamage => w.(engine := w.engine.(damage := CLEAN))
    case SendDelta(seqNo) => w.(sent := w.sent + {Delta(BuildDelta(w.engine, seqNo))})
    case SendSnapshot(seqNo) => w.(sent := w.sent + {Snapshot(BuildSnapshot(w.engine, seqNo))})
    case ServePage(fromLine, count) =>
      w.(sent := w.sent + {Block(FetchScrollback(w.engine, fromLine, count).block)})
    case ServePageWithSnapshot(fromLine, count, seqNo) =>
      w.(sent := w.sent +
                 {Block(WithSnapshot(FetchScrollback(w.engine, fromLine, count).block, w.engine, seqNo))})
    case Deliver(m) => w.(grid := Receive(w.grid, m))
    case Attach(s) => w.(grid := FromSnapshot(s))
  }

  ghost predicate Initial(w: World) {
    && Valid(w.engine)
    && w.archive == map[w.engine.generation := w.engine.history]
    && w.sent == {}
    && w.grid == FromSnapshot(BuildSnapshot(w.engine, 0))
  }

  ghost predicate IsRun(run: seq<World>, steps: seq<Step>) {
    && |run| == |steps| + 1
    && Initial(run[0])
    && forall i {:trigger steps[i]} :: 0 <= i < |steps| ==> Enabled(run[i], steps[i]) && run[i + 1] == Next(run[i], steps[i])
  }

  // ---- What stays true ----

  ghost predicate SnapshotTrue(s: TerminalSnapshot, archive: map<nat, seq<Row>>) {
    && s.generation in archive
    && |s.scrollbackTail| <= s.scrollbackLen <= |archive[s.generation]|
    && s.scrollbackTail ==
       archive[s.generation][s.scrollbackLen - |s.scrollbackTail|..s.scrollbackLen]
  }

  ghost predicate BlockTrue(b: ScrollbackRows, archive: map<nat, seq<Row>>) {
    && (b.rows == [] ||
        (b.generation in archive && 0 <= b.fromLine && b.fromLine + |b.rows| <= |archive[b.generation]| &&
         b.rows == archive[b.generation][b.fromLine..b.fromLine + |b.rows|]))
    && (b.snapshot.Some? ==> SnapshotTrue(b.snapshot.value, archive))
  }

  ghost predicate CarriedTrue(m: Carried, archive: map<nat, seq<Row>>) {
    match m
    case Delta(d) => d.generation in archive
    case Snapshot(s) => SnapshotTrue(s, archive)
    case Block(b) => BlockTrue(b, archive)
  }

  ghost predicate RowsTrue(cache: Cache, rows: seq<Row>) {
    forall k :: k in cache ==> 0 <= k < |rows| && cache[k] == rows[k]
  }

  /** Every cached row is the daemon's row at that index of that generation. */
  ghost predicate CacheTrue(g: Grid, archive: map<nat, seq<Row>>) {
    && g.generation in archive
    && RowsTrue(g.cache, archive[g.generation])
    && |g.cache| <= MAX_CACHE_ROWS
  }

  ghost predicate Invariant(w: World) {
    && Valid(w.engine)
    && w.engine.generation in w.archive
    && w.archive[w.engine.generation] == w.engine.history
    && (forall g :: g in w.archive ==> g <= w.engine.generation)
    && (forall m :: m in w.sent ==> CarriedTrue(m, w.archive))
    && CacheTrue(w.grid, w.archive)
  }

  ghost predicate Extends(a: map<nat, seq<Row>>, a': map<nat, seq<Row>>) {
    forall g :: g in a ==> g in a' && a[g] <= a'[g]
  }

  lemma CarriedStaysTrue(m: Carried, a: map<nat, seq<Row>>, a': map<nat, seq<Row>>)
    requires CarriedTrue(m, a) && Extends(a, a')
    ensures CarriedTrue(m, a')
  {
  }

  lemma {:induction false} SeedRowsTrue(cache: Cache, base: int, tail: seq<Row>, k: nat, rows: seq<Row>)
    requires k <= |tail| && RowsTrue(cache, rows)
    requires 0 <= base && base + |tail| <= |rows| && tail == rows[base..base + |tail|]
    ensures RowsTrue(SeedRows(cache, base, tail, k), rows)
    decreases |tail| - k
  {
    if k < |tail| {
      SeedRowsTrue(cache[base + k := tail[k]], base, tail, k + 1, rows);
    }
  }

  lemma SnapshotCacheTrue(s: TerminalSnapshot, archive: map<nat, seq<Row>>)
    requires SnapshotTrue(s, archive)
    ensures CacheTrue(FromSnapshot(s), archive)
  {
    SeedTailBounded(s.scrollbackTail, s.scrollbackLen);
    SeedRowsTrue(map[], s.scrollbackLen - |s.scrollbackTail|, s.scrollbackTail, Skip(s.scrollbackTail),
                 archive[s.generation]);
  }

  lemma {:induction false} InsertRowsTrue(cache: Cache, from: int, page: seq<Row>, k: nat, rows: seq<Row>)
    requires k <= |page| && RowsTrue(cache, rows)
    requires 0 <= from && from + |page| <= |rows| && page == rows[from..from + |page|]
    ensures RowsTrue(InsertRows(cache, from, page, k), rows)
    decreases |page| - k
  {
    if k < |page| && from + k <= I64_MAX {
      InsertRowsTrue(Trim(cache[from + k := page[k]], from + k), from, page, k + 1, rows);
    }
  }

  lemma MergeTrue(g: Grid, b: ScrollbackRows, archive: map<nat, seq<Row>>)
    requires CacheTrue(g, archive) && BlockTrue(b, archive)
    ensures CacheTrue(MergeScrollback(g, b), archive)
  {
    if b.snapshot.Some? { SnapshotCacheTrue(b.snapshot.value, archive); }
    var base := if b.snapshot.Some? && g.generation != b.generation
                then FromSnapshot(b.snapshot.value) else g;
    InsertRowsBounded(base.cache, b.fromLine, b.rows, Skip(b.rows));
    if b.rows != [] && b.generation == base.generation {
      InsertRowsTrue(base.cache, b.fromLine, b.rows, Skip(b.rows), archive[b.generation]);
    }
  }

  lemma ReceiveTrue(g: Grid, m: Carried, archive: map<nat, seq<Row>>)
    requires CacheTrue(g, archive) && CarriedTrue(m, archive)
    ensures CacheTrue(Receive(g, m), archive)
  {
    match m
    case Delta(d) =>
    case Snapshot(s) => SnapshotCacheTrue(s, archive);
    case Block(b) => MergeTrue(g, b, archive);
  }

  lemma OutputKeeps(w: World, after: Engine)
    requires Invariant(w) && Fed(w.engine, after)
    ensures Invariant(Next(w, Output(after)))
  {
    var archive := w.archive[after.generation := after.history];
    assert Extends(w.archive, archive);
    forall m | m in w.sent ensures CarriedTrue(m, archive) {
      CarriedStaysTrue(m, w.archive, archive);
    }
  }

  lemma BlockServedTrue(e: Engine, fromLine: int, count: nat, archive: map<nat, seq<Row>>)
    requires e.generation in archive && archive[e.generation] == e.history
    requires FetchScrollback(e, fromLine, count).Page? && WithinHistory(e, fromLine, count)
    ensures BlockTrue(FetchScrollback(e, fromLine, count).block, archive)
  {
    var b := FetchScrollback(e, fromLine, count).block;
    if count > 0 {
      forall i | 0 <= i < |b.rows| ensures b.rows[i] == e.history[fromLine..fromLine + |b.rows|][i] {
        assert b.rows[i] == RowAt(e, fromLine + i);
      }
    }
  }

  lemma StepKeeps(w: World, step: Step)
    requires Invariant(w) && Enabled(w, step)
    ensures Invariant(Next(w, step))
  {
    match step
    case Output(after) => OutputKeeps(w, after);
    case TakeDamage =>
    case SendDelta(seqNo) =>
    case SendSnapshot(seqNo) =>
    case ServePage(fromLine, count) => BlockServedTrue(w.engine, fromLine, count, w.archive);
    case ServePageWithSnapshot(fromLine, count, seqNo) =>
      BlockServedTrue(w.engine, fromLine, count, w.archive);
    case Deliver(m) => ReceiveTrue(w.grid, m, w.archive);
    case Attach(s) =>
      assert CarriedTrue(Snapshot(s), w.archive);
      SnapshotCacheTrue(s, w.archive);
  }

  lemma {:induction false} RunKeeps(run: seq<World>, steps: seq<Step>, n: nat)
    requires IsRun(run, steps) && n < |run|
    ensures Invariant(run[n])
  {
    if n == 0 {
      assert SnapshotTrue(BuildSnapshot(run[0].engine, 0), run[0].archive);
      SnapshotCacheTrue(BuildSnapshot(run[0].engine, 0), run[0].archive);
    } else {
      RunKeeps(run, steps, n - 1);
      StepKeeps(run[n - 1], steps[n - 1]);
    }
  }

  /** In every state of every run the cache is within its cap and each row it
      offers at a viewport offset is the row its generation's history holds
      there; once the replica shows the daemon's own generation, that is the
      daemon's current history. */
  lemma CachedHistoryIsTrue(run: seq<World>, steps: seq<Step>, n: nat, offset: int)
    requires IsRun(run, steps) && n < |run|
    ensures var w := run[n]; var row := ScrollbackRow(w.grid, offset);
            && |w.grid.cache| <= MAX_CACHE_ROWS
            && (row.Some? ==>
                  && w.grid.generation in w.archive
                  && 0 <= w.grid.scrollbackLen + offset < |w.archive[w.grid.generation]|
                  && row.value == w.archive[w.grid.generation][w.grid.scrollbackLen + offset])
            && (row.Some? && w.grid.generation == w.engine.generation ==>
                  && w.grid.scrollbackLen + offset < |w.engine.history|
                  && row.value == w.engine.history[w.grid.scrollbackLen + offset])
  {
    RunKeeps(run, steps, n);
  }

  /** Without the range condition the guarantee breaks: with no history yet, a
      fetch of line 0 caches the screen's first line; the program repaints that
      line and scrolls it away, the generation does not move, and the replica
      still offers the old text as history. */
  lemma FetchPastTheEndMisleads(stale: Row, latest: Row, below: Row, base: Engine)
    requires stale != latest
    requires |stale.cells| == |latest.cells| == |below.cells| == base.size.cols > 0 && base.size.rows == 2
    requires base.size.cols <= MAX_FETCH_CELLS
    ensures var e := base.(visible := [stale, below], history := [], damage := CLEAN);
            var e' := base.(visible := [below, below], history := [latest], damage := Full);
            var g := FromSnapshot(BuildSnapshot(e, 0));
            && Valid(e) && Fed(e, e') && FetchScrollback(e, 0, 1).Page?
            && !WithinHistory(e, 0, 1)
            && var g' := ApplyDelta(MergeScrollback(g, FetchScrollback(e, 0, 1).block), BuildDelta(e', 1)).0;
               && g'.visible == e'.visible && g'.generation == e'.generation
               && ScrollbackRow(g', -1) == Some(stale) && e'.history[0] == latest
  {
    var e := base.(visible := [stale, below], history := [], damage := CLEAN);
    var e' := base.(visible := [below, below], history := [latest], damage := Full);
    var g := FromSnapshot(BuildSnapshot(e, 0));
    assert SeedTail([], 0) == map[];
    var block := FetchScrollback(e, 0, 1).block;
    assert MAX_FETCH_CELLS / base.size.cols >= 1;
    assert block.rows == [stale];
    var m := MergeScrollback(g, block);
    assert InsertPage(map[], 0, [stale]) == InsertRows(map[0 := stale], 0, [stale], 1) == map[0 := stale];
    assert m.cache == map[0 := stale];
    assert Agrees(m.visible, e'.visible, Full);
    DeltaRepairs(m.visible, e', 1);
  }
}

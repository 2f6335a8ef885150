/** The client's passive replica of one terminal as a value: what a snapshot, a
    delta, a resync and a fetched page of history each make of it. */
module Replica {
  import opened Options
  import opened TerminalTypes
  import opened Engine
  import opened Scrollback

  type TerminalId = nat

  datatype Grid = Grid(
    visible: seq<Row>,
    cache: Cache,
    scrollbackLen: nat,
    generation: nat,
    cursor: Cursor,
    modes: TermModes,
    lastSeq: nat,
    size: PtySize,
    title: Option<string>,
    bell: bool,
    activity: bool)

  /** `Panicked` is the slice panic of a delta that narrows a row it also
      patches; no delta the daemon builds does. */
  datatype DeltaOutcome = Applied | Stale | NeedsResync | Panicked

  datatype EventOutcome = EventApplied | EventNeedsResync | EventIgnored

  function FromSnapshot(s: TerminalSnapshot): (g: Grid) {
    Grid(s.visible, SeedTail(s.scrollbackTail, s.scrollbackLen), s.scrollbackLen, s.generation,
         s.cursor, s.modes, s.seqNo, s.size, s.title, false, false)
  }

  predicate RowsInside(visible: seq<Row>, rows: seq<(nat, Row)>) {
    forall i :: 0 <= i < |rows| ==> rows[i].0 < |visible|
  }

  predicate PatchesInside(visible: seq<Row>, patches: seq<CellPatch>) {
    forall i :: 0 <= i < |patches| ==> PatchFits(visible, patches[i])
  }

  /** The new screen, provided every row and patch lands inside it. */
  function Paint(visible: seq<Row>, d: TerminalDelta): (r: seq<Row>)
    requires RowsInside(visible, d.rows)
    requires PatchesInside(PutRows(visible, d.rows), d.patches)
  {
    PutPatches(PutRows(visible, d.rows), d.patches)
  }

  function ApplyDelta(g: Grid, d: TerminalDelta): (r: (Grid, DeltaOutcome)) {
    if d.seqNo <= g.lastSeq then (g, Stale)
    else if d.seqNo > g.lastSeq + 1 then (g, NeedsResync)
    else if !RowsInside(g.visible, d.rows) then (g, NeedsResync)
    else if !PatchesInside(g.visible, d.patches) then (g, NeedsResync)
    else if !PatchesInside(PutRows(g.visible, d.rows), d.patches) then (g, Panicked)
    else
      (g.(visible := Paint(g.visible, d),
          cache := if d.generation != g.generation then map[] else g.cache,
          scrollbackLen := d.scrollbackLen,
          generation := d.generation,
          cursor := d.cursor,
          modes := d.modes,
          lastSeq := d.seqNo),
       Applied)
  }

  /** A queued resync may predate a reattach and is then ignored. */
  function ApplyResync(g: Grid, s: TerminalSnapshot): (r: (Grid, EventOutcome)) {
    if s.seqNo < g.lastSeq then (g, EventIgnored) else (FromSnapshot(s), EventApplied)
  }

  function MergeScrollback(g: Grid, block: ScrollbackRows): (r: Grid) {
    if block.snapshot.Some? &&
       (block.snapshot.value.seqNo < g.lastSeq || block.snapshot.value.generation != block.generation)
    then g
    else
      var base := if block.snapshot.Some? && g.generation != block.generation
                  then FromSnapshot(block.snapshot.value) else g;
      if block.generation != base.generation then base
      else base.(cache := InsertPage(base.cache, block.fromLine, block.rows))
  }

  /** Cached history at a negative viewport offset. */
  function ScrollbackRow(g: Grid, offset: int): (r: Option<Row>) {
    if offset >= 0 || g.scrollbackLen > I64_MAX then None
    else if g.scrollbackLen + offset in g.cache then Some(g.cache[g.scrollbackLen + offset])
    else None
  }

  // ---- What the replica offers as history ----

  /** Attached with a snapshot, a replica offers the newest rows of its tail,
      up to the cap, the last of them just above the viewport. */
  lemma SnapshotIsOffered(s: TerminalSnapshot, offset: int)
    requires |s.scrollbackTail| <= s.scrollbackLen <= I64_MAX
    requires 0 <= |s.scrollbackTail| + offset && 0 <= MAX_CACHE_ROWS + offset && offset < 0
    ensures ScrollbackRow(FromSnapshot(s), offset) == Some(s.scrollbackTail[|s.scrollbackTail| + offset])
  {
    SeedTailHolds(s.scrollbackTail, s.scrollbackLen, s.scrollbackLen + offset);
  }

  /** The page is taken: it is of the replica's generation, or brings a snapshot
      of its own that is no older than the replica. */
  predicate TakesPage(g: Grid, block: ScrollbackRows) {
    if block.snapshot.Some?
    then block.snapshot.value.seqNo >= g.lastSeq && block.snapshot.value.generation == block.generation
    else block.generation == g.generation
  }

  /** Every row of a taken page of at most 2,501 rows is offered afterwards, at
      its own index, whatever the cache held before; with a page not taken the
      replica is as it was. */
  lemma TakenPageIsOffered(g: Grid, block: ScrollbackRows, i: nat)
    requires |g.cache| <= MAX_CACHE_ROWS && i < |block.rows| <= MAX_SAFE_PAGE
    requires block.fromLine + |block.rows| - 1 <= I64_MAX
    ensures var g' := MergeScrollback(g, block);
            if TakesPage(g, block)
            then g'.generation == block.generation && block.fromLine + i in g'.cache
                 && g'.cache[block.fromLine + i] == block.rows[i]
            else g' == g
  {
    var base := if block.snapshot.Some? && g.generation != block.generation
                then FromSnapshot(block.snapshot.value) else g;
    if block.snapshot.Some? {
      SeedTailBounded(block.snapshot.value.scrollbackTail, block.snapshot.value.scrollbackLen);
    }
    PageKeptFrom(base.cache, block.fromLine, block.rows, 0);
  }

  /** A delta that is applied keeps every cached row while the generation
      stays, and drops all of them when it moves. */
  lemma DeltaKeepsCache(g: Grid, d: TerminalDelta)
    ensures var r := ApplyDelta(g, d);
            r.1 == Applied ==> r.0.cache == (if d.generation == g.generation then g.cache else map[])
  {
  }

  // ---- Terminal arms of the event stream ----

  datatype TerminalEvent =
    | TerminalDeltaEvent(terminal: TerminalId, delta: TerminalDelta)
    | TerminalResyncEvent(terminal: TerminalId, snapshot: TerminalSnapshot)

  function OutcomeOf(o: DeltaOutcome): EventOutcome {
    if o.Applied? || o.Stale? then EventApplied else EventNeedsResync
  }

  function ApplyToGrid(g: Grid, e: TerminalEvent): (r: (Grid, EventOutcome)) {
    match e
    case TerminalDeltaEvent(_, d) => var (g', o) := ApplyDelta(g, d); (g', OutcomeOf(o))
    case TerminalResyncEvent(_, s) => ApplyResync(g, s)
  }

  function ApplyEvent(grids: map<TerminalId, Grid>, e: TerminalEvent)
    : (r: (map<TerminalId, Grid>, EventOutcome))
  {
    if e.terminal !in grids then (grids, EventIgnored)
    else
      var (g, o) := ApplyToGrid(grids[e.terminal], e);
      (grids[e.terminal := g], o)
  }
}

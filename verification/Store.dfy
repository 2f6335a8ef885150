/** The client's replicas as it holds them, updated in place. */
module Store {
  import opened Options
  import opened TerminalTypes
  import Engine
  import opened Scrollback
  import opened Replica
  import R = Replica

  /** One attached terminal, updated in place. */
  class CellGrid {
    var visible: seq<Row>
    var cache: Cache
    var scrollbackLen: nat
    var generation: nat
    var cursor: Cursor
    var modes: TermModes
    var lastSeq: nat
    var size: PtySize
    var title: Option<string>
    var bell: bool
    var activity: bool

    function State(): Grid
      reads this
    {
      Grid(visible, cache, scrollbackLen, generation, cursor, modes, lastSeq, size, title, bell, activity)
    }

    constructor FromSnapshot(s: TerminalSnapshot)
      ensures State() == R.FromSnapshot(s)
    {
      visible, cache := s.visible, map[];
      scrollbackLen, generation, cursor, modes := s.scrollbackLen, s.generation, s.cursor, s.modes;
      lastSeq, size, title, bell, activity := s.seqNo, s.size, s.title, false, false;
      new;
      SeedScrollbackTail(s);
    }

    method SeedScrollbackTail(s: TerminalSnapshot)
      requires cache == map[] && scrollbackLen == s.scrollbackLen
      modifies this`cache
      ensures cache == SeedTail(s.scrollbackTail, s.scrollbackLen)
    {
      var base := scrollbackLen - |s.scrollbackTail|;
      for i := Skip(s.scrollbackTail) to |s.scrollbackTail|
        invariant SeedRows(cache, base, s.scrollbackTail, i) == SeedTail(s.scrollbackTail, s.scrollbackLen)
      {
        cache := cache[base + i := s.scrollbackTail[i]];
      }
    }

    method ApplyDelta(d: TerminalDelta) returns (outcome: DeltaOutcome)
      modifies this
      ensures (State(), outcome) == R.ApplyDelta(old(State()), d)
    {
      if d.seqNo <= lastSeq { return Stale; }
      if d.seqNo > lastSeq + 1 { return NeedsResync; }
      if !RowsInside(visible, d.rows) { return NeedsResync; }
      if !PatchesInside(visible, d.patches) { return NeedsResync; }
      var screen := WriteRows(visible, d.rows);
      if !PatchesInside(screen, d.patches) { return Panicked; }
      screen := WritePatches(screen, d.patches);
      if d.generation != generation { cache := map[]; }
      visible, scrollbackLen, generation := screen, d.scrollbackLen, d.generation;
      cursor, modes, lastSeq := d.cursor, d.modes, d.seqNo;
      return Applied;
    }

    static method WriteRows(visible: seq<Row>, rows: seq<(nat, Row)>) returns (screen: seq<Row>)
      requires RowsInside(visible, rows)
      ensures screen == Engine.PutRows(visible, rows)
    {
      screen := visible;
      for i := 0 to |rows|
        invariant |screen| == |visible|
        invariant Engine.PutRows(screen, rows[i..]) == Engine.PutRows(visible, rows)
      {
        screen := screen[rows[i].0 := rows[i].1];
        assert rows[i..][1..] == rows[i + 1..];
      }
    }

    static method WritePatches(visible: seq<Row>, patches: seq<CellPatch>) returns (screen: seq<Row>)
      requires PatchesInside(visible, patches)
      ensures screen == Engine.PutPatches(visible, patches)
    {
      screen := visible;
      for i := 0 to |patches|
        invariant |screen| == |visible|
        invariant PatchesInside(screen, patches[i..])
        invariant Engine.PutPatches(screen, patches[i..]) == Engine.PutPatches(visible, patches)
      {
        var p := patches[i];
        assert patches[i..][0] == p && patches[i..][1..] == patches[i + 1..];
        screen := screen[p.line := Engine.PatchRow(screen[p.line], p)];
      }
    }

    method ApplyResync(s: TerminalSnapshot)
      modifies this
      ensures State() == R.FromSnapshot(s)
    {
      visible, cache := s.visible, map[];
      scrollbackLen, generation, cursor, modes := s.scrollbackLen, s.generation, s.cursor, s.modes;
      lastSeq, size, title, bell, activity := s.seqNo, s.size, s.title, false, false;
      SeedScrollbackTail(s);
    }

    method MergeScrollback(block: ScrollbackRows)
      modifies this
      ensures State() == R.MergeScrollback(old(State()), block)
    {
      if block.snapshot.Some? {
        var snapshot := block.snapshot.value;
        if snapshot.seqNo < lastSeq || snapshot.generation != block.generation { return; }
        if generation != block.generation { ApplyResync(snapshot); }
      }
      if block.generation != generation { return; }
      InsertPage(block.fromLine, block.rows);
    }

    method InsertPage(fromLine: int, rows: seq<Row>)
      modifies this`cache
      ensures cache == Scrollback.InsertPage(old(cache), fromLine, rows)
    {
      var i := Skip(rows);
      while i < |rows|
        invariant i <= |rows|
        invariant InsertRows(cache, fromLine, rows, i) == Scrollback.InsertPage(old(cache), fromLine, rows)
      {
        if fromLine + i > I64_MAX { break; }
        InsertRow(fromLine + i, rows[i]);
        i := i + 1;
      }
    }

    /** Insert one row, then give up the furthest rows while the cache is over its cap. */
    method InsertRow(absolute: int, row: Row)
      modifies this`cache
      ensures cache == Trim(old(cache)[absolute := row], absolute)
    {
      cache := cache[absolute := row];
      while |cache| > MAX_CACHE_ROWS
        invariant Trim(cache, absolute) == Trim(old(cache)[absolute := row], absolute)
        decreases |cache|
      {
        var first, last := First(cache.Keys), Last(cache.Keys);
        var gone := if AbsDiff(absolute, first) > AbsDiff(absolute, last) then first else last;
        assert (cache - {gone}).Keys == cache.Keys - {gone};
        cache := cache - {gone};
      }
    }
  }

  /** The terminal half of the client's store. */
  class Store {
    var terminals: map<TerminalId, Grid>

    constructor ()
      ensures terminals == map[]
    {
      terminals := map[];
    }

    method AttachTerminal(t: TerminalId, s: TerminalSnapshot)
      modifies this
      ensures terminals == old(terminals)[t := R.FromSnapshot(s)]
    {
      terminals := terminals[t := R.FromSnapshot(s)];
    }

    method DetachTerminal(t: TerminalId)
      modifies this
      ensures terminals == old(terminals) - {t}
    {
      terminals := terminals - {t};
    }

    method ApplyEvent(e: TerminalEvent) returns (outcome: EventOutcome)
      modifies this
      ensures (terminals, outcome) == R.ApplyEvent(old(terminals), e)
    {
      if e.terminal !in terminals { return EventIgnored; }
      var grid := terminals[e.terminal];
      match e
      case TerminalDeltaEvent(t, delta) =>
        var (applied, result) := R.ApplyDelta(grid, delta);
        terminals := terminals[t := applied];
        outcome := OutcomeOf(result);
      case TerminalResyncEvent(t, snapshot) =>
        if snapshot.seqNo < grid.lastSeq {
          assert terminals[t := grid] == terminals;
          outcome := EventIgnored;
        } else {
          terminals := terminals[t := R.FromSnapshot(snapshot)];
          outcome := EventApplied;
        }
    }

    method MergeScrollback(t: TerminalId, block: ScrollbackRows)
      modifies this
      ensures terminals == if t in old(terminals)
                           then old(terminals)[t := R.MergeScrollback(old(terminals)[t], block)]
                           else old(terminals)
    {
      if t in terminals {
        terminals := terminals[t := R.MergeScrollback(terminals[t], block)];
      }
    }
  }
}

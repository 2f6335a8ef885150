/** Exactly when a snapshot is the emission of the number it carries. */
module Snapshots {
  import opened Options
  import opened TerminalTypes
  import opened Engine
  import opened Replica
  import opened Emission
  import opened Handles
  import opened Flow
  import opened View
  import opened Replication

  /** The engine as the last emission left it. */
  function LastEmitted(term: Terminal): Engine
    requires EmitSeq(term) > 0
  {
    term.emitted[EmitSeq(term) - 1].(damage := CLEAN)
  }

  /** What a terminal with this past may hold now: what its last emission left,
      or anything output can have made of that since. */
  ghost predicate MayHold(term: Terminal, e: Engine)
    requires EmitSeq(term) > 0
  {
    if term.pending then Fed(LastEmitted(term), e) else e == LastEmitted(term)
  }

  ghost predicate IsItsEmission(term: Terminal)
    requires EmitSeq(term) > 0
  {
    OfSnapshot(SnapshotOf(term)) == OfEngine(term.emitted[EmitSeq(term) - 1], EmitSeq(term))
  }

  /** Whatever was fed since the last emission, a snapshot is the emission of
      its number. */
  ghost predicate AlwaysItsEmission(term: Terminal)
    requires EmitSeq(term) > 0
  {
    forall e :: MayHold(term, e) ==> IsItsEmission(term.(engine := e))
  }

  /** The same screen with one cell changed, all of it marked damaged. */
  function Repainted(e: Engine): Engine
    requires |e.visible| > 0 && |e.visible[0].cells| > 0
  {
    var row := e.visible[0];
    var cell := row.cells[0];
    e.(visible := e.visible[0 := row.(cells := row.cells[0 := cell.(flags := cell.flags + 1)])], damage := Full)
  }

  lemma RepaintIsFed(e: Engine)
    requires Valid(e) && e.size.rows > 0 && e.size.cols > 0
    ensures Fed(e, Repainted(e)) && Repainted(e).visible != e.visible
  {
    var e' := Repainted(e);
    assert e'.visible[0].cells[0] != e.visible[0].cells[0];
    assert Agrees(e.visible, e'.visible, Full);
  }

  /** A snapshot is certain to be the emission of its number if and only if
      nothing was fed since that emission. */
  lemma SettledIff(term: Terminal)
    requires TerminalValid(term) && EmitSeq(term) > 0
    requires LastEmitted(term).size.rows > 0 && LastEmitted(term).size.cols > 0
    ensures AlwaysItsEmission(term) <==> !term.pending
  {
    var last := LastEmitted(term);
    assert EmissionTrue(term, EmitSeq(term) - 1);
    if term.pending {
      RepaintIsFed(last);
      assert MayHold(term, Repainted(last)) && !IsItsEmission(term.(engine := Repainted(last)));
    }
  }

  // ---- Every terminal of every run holds what it may ----

  lemma FedTwice(a: Engine, b: Engine, c: Engine)
    requires Fed(a, b) && Fed(b, c)
    ensures Fed(a, c)
  {
    AgreesTransGrow(a.visible, b.visible, c.visible, b.damage, c.damage);
  }

  ghost predicate Holds(term: Terminal) {
    EmitSeq(term) > 0 ==> MayHold(term, term.engine)
  }

  lemma StepHolds(s: System, step: Step, t: Tid)
    requires Enabled(s, step) && t in Next(s, step).terminals
    requires t in s.terminals ==> Holds(s.terminals[t])
    ensures Holds(Next(s, step).terminals[t])
  {
    if step.Output? && step.t == t && EmitSeq(s.terminals[t]) > 0 && s.terminals[t].pending {
      FedTwice(LastEmitted(s.terminals[t]), s.terminals[t].engine, step.after);
    }
  }

  lemma {:induction false} TerminalHolds(run: seq<System>, steps: seq<Step>, n: nat, t: Tid)
    requires IsRun(run, steps) && n < |run| && t in run[n].terminals
    ensures Holds(run[n].terminals[t])
  {
    assert n > 0;
    if t in run[n - 1].terminals { TerminalHolds(run, steps, n - 1, t); }
    StepHolds(run[n - 1], steps[n - 1], t);
  }

  // ---- A replica that is not its emission ----

  const BLANK: Engine :=
    Engine(PtySize(1, 1), [Row([Cell("", 0, 0, 0)], false)], [], CLEAN, 0,
           Cursor(0, 0, 0, true), TermModes(false, 0, false), None)

  /** One emission out and a changed cell fed since; nobody is connected yet. */
  lemma PendingTerminal() returns (run: seq<System>, steps: seq<Step>)
    ensures IsOrderlyRun(run, steps) && run[|steps|].clients == map[] && 0 in run[|steps|].terminals
    ensures var term := run[|steps|].terminals[0];
            && term.live && EmitSeq(term) == 1 && term.engine == Repainted(BLANK)
            && term.emitted[0].visible == BLANK.visible
  {
    var e := BLANK.(damage := Full);
    assert Agrees(BLANK.visible, e.visible, Full);
    run, steps := [System(map[], map[])], [];
    run, steps := ExtendOrderly(run, steps, Spawn(0, BLANK));
    run, steps := ExtendOrderly(run, steps, Output(0, e));
    run, steps := ExtendOrderly(run, steps, EmitDelta(0));
    RepaintIsFed(BLANK);
    run, steps := ExtendOrderly(run, steps, Output(0, Repainted(BLANK)));
  }

  /** A new client attaches; its handler holds the snapshot of the moment. */
  lemma Attach(run: seq<System>, steps: seq<Step>, c: ClientId, t: Tid) returns (run': seq<System>, steps': seq<Step>)
    requires IsOrderlyRun(run, steps) && c !in run[|steps|].clients
    requires t in run[|steps|].terminals && run[|steps|].terminals[t].live
    ensures IsOrderlyRun(run', steps') && c in run'[|steps'|].clients && run'[|steps'|].terminals == run[|steps|].terminals
    ensures var client := run'[|steps'|].clients[c];
            && client.h.queue == [] && client.h.open && client.wire == [] && client.writer == Waiting
            && HandlerOf(client, t) == Holding(SnapshotOf(run[|steps|].terminals[t]))
  {
    run', steps' := ExtendOrderly(run, steps, Connect(c));
    run', steps' := ExtendOrderly(run', steps', Begin(c, t));
  }

  /** Its ack is queued, written and installed. */
  lemma Install(run: seq<System>, steps: seq<Step>, c: ClientId, t: Tid, s: TerminalSnapshot)
    returns (run': seq<System>, steps': seq<Step>)
    requires IsOrderlyRun(run, steps) && c in run[|steps|].clients
    requires var client := run[|steps|].clients[c];
             && client.h.queue == [] && client.h.open && client.wire == [] && client.writer == Waiting
             && HandlerOf(client, t) == Holding(s)
    ensures IsOrderlyRun(run', steps') && run'[|steps'|].terminals == run[|steps|].terminals
    ensures c in run'[|steps'|].clients && t in run'[|steps'|].clients[c].grids
    ensures run'[|steps'|].clients[c].grids[t] == FromSnapshot(s)
  {
    run', steps' := ExtendOrderly(run, steps, QueueAck(c, t));
    run', steps' := ExtendOrderly(run', steps', WriterTake(c));
    assert run'[|steps'|].clients[c].wire == [AttachAck(t, s)];
    run', steps' := ExtendOrderly(run', steps', InstallAck(c, 0));
  }

  /** A client attaches and installs its ack: its replica carries number 1 and is
      not emission 1. */
  lemma ReplicaRunsAhead() returns (run: seq<System>, steps: seq<Step>)
    ensures IsOrderlyRun(run, steps) && 0 in run[|steps|].terminals
    ensures 0 in run[|steps|].clients && 0 in run[|steps|].clients[0].grids
    ensures var g, term := run[|steps|].clients[0].grids[0], run[|steps|].terminals[0];
            && g.lastSeq == EmitSeq(term) == 1
            && OfGrid(g) != OfEngine(term.emitted[0], 1)
  {
    run, steps := PendingTerminal();
    ghost var term := run[|steps|].terminals[0];
    run, steps := Attach(run, steps, 0, 0);
    run, steps := Install(run, steps, 0, 0, SnapshotOf(term));
    RepaintIsFed(BLANK);
    assert OfGrid(FromSnapshot(SnapshotOf(term))).visible == Repainted(BLANK).visible;
  }
}

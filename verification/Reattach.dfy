/** Exactly when a client may attach again: once the handler of its last attach
    has finished. Before that, whatever else is on its way, attaching again can
    end in a sequence gap.

    One direction is the invariant of `Replication`; the other builds the run:
    the client attaches again, the first handler ends the withholding the second
    attach began, the queue drains, a delta goes out ahead of the second ack,
    and the delta behind that ack meets the replica out of turn. */
module Reattach {
  import opened Options
  import opened Sequences
  import opened TerminalTypes
  import opened Engine
  import opened Replica
  import opened Emission
  import opened Handles
  import opened Flow
  import opened View
  import opened Replication
  import opened ReplicationTheorems

  // ---- Everything on its way arrives ----

  lemma {:induction false} Listed(ids: set<Tid>) returns (order: seq<Tid>)
    ensures IsOrderOf(order, ids)
    decreases |ids|
  {
    if ids == {} {
      order := [];
    } else {
      var t := SomeMember(ids);
      var rest := Listed(ids - {t});
      order := [t] + rest;
    }
  }

  lemma {:induction false} RecoverOnlySettles(h: Handle, order: seq<Tid>, live: map<Tid, TerminalSnapshot>)
    ensures var h' := Recover(h, order, live);
            && h'.behind <= h.behind && h'.open == h.open
            && h'.subscriptions == h.subscriptions && h'.attaching == h.attaching
    decreases |order|
  {
    if order != [] && |h.queue| <= DELTA_LOW_WATER {
      if CanSend(h) {
        RecoverOnlySettles(RecoverOne(h, order[0], live), order[1..], live);
      } else if RecoveryEvent(h, order[0], live).None? {
        RecoverOnlySettles(h.(behind := h.behind - {order[0]}), order[1..], live);
      }
    }
  }

  /** What lag an open queue's recovery leaves has a message ahead of it. */
  lemma {:induction false} RecoverLeavesAMessage(h: Handle, order: seq<Tid>, live: map<Tid, TerminalSnapshot>)
    requires h.open && IsOrderOf(order, h.behind)
    ensures Recover(h, order, live).behind != {} ==> Recover(h, order, live).queue != []
    decreases |order|
  {
    if order == [] {
      assert h.behind == {} by {
        forall t ensures t !in h.behind { }
      }
    } else if |h.queue| <= DELTA_LOW_WATER {
      var h' := RecoverOne(h, order[0], live);
      assert IsOrderOf(order[1..], h'.behind);
      RecoverLeavesAMessage(h', order[1..], live);
    }
  }

  /** Recovery settles some lag, or leaves lag and queue as they were. */
  lemma RecoverSettles(h: Handle, order: seq<Tid>, live: map<Tid, TerminalSnapshot>)
    requires IsOrderOf(order, h.behind)
    ensures var h' := Recover(h, order, live);
            |h'.behind| < |h.behind| || (h'.behind == h.behind && h'.queue == h.queue)
  {
    if order != [] && |h.queue| <= DELTA_LOW_WATER {
      var t, h' := order[0], Recover(h, order, live);
      if CanSend(h) {
        RecoverOnlySettles(RecoverOne(h, t, live), order[1..], live);
        Fewer(h'.behind, h.behind, t);
      } else if RecoveryEvent(h, t, live).None? {
        RecoverOnlySettles(h.(behind := h.behind - {t}), order[1..], live);
        Fewer(h'.behind, h.behind, t);
      }
    }
  }

  lemma RecoverFacts(h: Handle, order: seq<Tid>, live: map<Tid, TerminalSnapshot>)
    requires IsOrderOf(order, h.behind)
    ensures var h' := Recover(h, order, live);
            && h'.open == h.open && h'.subscriptions == h.subscriptions && h'.attaching == h.attaching
            && (h.open && h'.behind != {} ==> h'.queue != [])
  {
    RecoverOnlySettles(h, order, live);
    if h.open { RecoverLeavesAMessage(h, order, live); }
  }

  lemma Fewer(a: set<Tid>, b: set<Tid>, t: Tid)
    requires a <= b - {t} && t in b
    ensures |a| < |b|
  {
    var gone := b - a;
    assert t in gone && b == a + gone;
  }

  function Rank(w: Writer): nat {
    match w
    case Waiting => 0
    case Recovering => 1
    case Asking => 2
    case Checking => 3
  }

  ghost predicate Still(c: Client) {
    c.h.queue == [] && c.wire == [] && c.writer == Waiting && c.owed == 0
  }

  ghost predicate Seen(c: Client) {
    c.h.open && WillBeSeen(c)
  }

  /** From `s` to `s'` messages of client `c` moved along and nothing else. */
  ghost predicate MovedAlong(s: System, s': System, c: ClientId) {
    && c in s.clients && c in s'.clients && s'.terminals == s.terminals
    && var x, y := s.clients[c], s'.clients[c];
       && y.attach == x.attach && y.h.subscriptions == x.h.subscriptions && y.h.attaching == x.h.attaching
       && (Seen(x) ==> Seen(y))
  }

  ghost predicate Continues(run: seq<System>, steps: seq<Step>, run': seq<System>, steps': seq<Step>) {
    && |run| == |steps| + 1 && |run'| == |steps'| + 1 && run <= run' && steps <= steps'
    && forall i :: |steps| <= i < |steps'| ==> !steps'[i].Begin?
  }

  lemma ContinuesTwice(r1: seq<System>, s1: seq<Step>, r2: seq<System>, s2: seq<Step>, r3: seq<System>, s3: seq<Step>)
    requires Continues(r1, s1, r2, s2) && Continues(r2, s2, r3, s3)
    ensures Continues(r1, s1, r3, s3)
  {
    forall i | |s1| <= i < |s3| ensures !s3[i].Begin? {
      if i < |s2| { assert s3[i] == s2[i]; }
    }
  }

  /** How far a client still is from having everything. */
  ghost predicate Nearer(x: Client, y: Client) {
    || y.owed < x.owed
    || (y.owed == x.owed && |y.h.behind| < |x.h.behind|)
    || (y.owed == x.owed && y.h.behind == x.h.behind && |y.h.queue| < |x.h.queue|)
    || (y.owed == x.owed && y.h.behind == x.h.behind && y.h.queue == x.h.queue &&
        (Rank(y.writer) < Rank(x.writer) || (y.writer == x.writer && |y.wire| < |x.wire|)))
  }

  lemma RecoveryMoves(s: System, c: ClientId) returns (step: Step)
    requires c in s.clients && (s.clients[c].writer == Recovering || s.clients[c].owed > 0)
    ensures Enabled(s, step) && !step.Begin? && MovedAlong(s, Next(s, step), c)
    ensures Nearer(s.clients[c], Next(s, step).clients[c])
  {
    var client := s.clients[c];
    var order := Listed(client.h.behind);
    RecoverFacts(client.h, order, Live(s));
    RecoverSettles(client.h, order, Live(s));
    step := if client.writer == Recovering then WriterRecovers(c, order) else HandlerRecovers(c, order);
  }

  lemma WriterMoves(s: System, c: ClientId) returns (step: Step)
    requires c in s.clients
    requires var x := s.clients[c]; x.writer == Checking || x.writer == Asking || (x.writer == Waiting && x.h.queue != [])
    ensures Enabled(s, step) && !step.Begin? && MovedAlong(s, Next(s, step), c)
    ensures Nearer(s.clients[c], Next(s, step).clients[c])
  {
    var client := s.clients[c];
    step := if client.writer == Checking then WriterCheck(c)
            else if client.writer == Asking then WriterAsk(c) else WriterTake(c);
  }

  /** The next step that brings a client's messages along. */
  lemma NextMove(s: System, c: ClientId) returns (step: Step)
    requires c in s.clients && !Still(s.clients[c])
    ensures Enabled(s, step) && !step.Begin? && MovedAlong(s, Next(s, step), c)
    ensures Nearer(s.clients[c], Next(s, step).clients[c])
  {
    var client := s.clients[c];
    if client.wire != [] {
      step := if client.wire[0].AttachAck? then InstallAck(c, 0) else TakeEvent(c);
    } else if client.writer == Recovering || (client.writer == Waiting && client.h.queue == []) {
      step := RecoveryMoves(s, c);
    } else {
      step := WriterMoves(s, c);
    }
  }

  lemma {:induction false} Settle(run: seq<System>, steps: seq<Step>, c: ClientId)
    returns (run': seq<System>, steps': seq<Step>)
    requires IsRun(run, steps) && c in run[|steps|].clients
    ensures IsRun(run', steps') && Continues(run, steps, run', steps')
    ensures MovedAlong(run[|steps|], run'[|steps'|], c) && Still(run'[|steps'|].clients[c])
    decreases run[|steps|].clients[c].owed, |run[|steps|].clients[c].h.behind|, |run[|steps|].clients[c].h.queue|,
              Rank(run[|steps|].clients[c].writer), |run[|steps|].clients[c].wire|
  {
    run', steps' := run, steps;
    if !Still(run[|steps|].clients[c]) {
      var step := NextMove(run[|steps|], c);
      var r1, s1 := Extend(run, steps, step);
      run', steps' := Settle(r1, s1, c);
      ContinuesTwice(run, steps, r1, s1, run', steps');
    }
  }

  // ---- The overtaking ----

  /** The client as every stage below finds it: lagging nowhere, subscribed to
      `t` with nothing withheld. */
  ghost predicate Streams(client: Client, t: Tid) {
    && client.h.open && client.h.behind == {} && t in client.h.subscriptions && t !in client.h.attaching
    && client.writer == Waiting
  }

  ghost predicate CanOutput(s: System, t: Tid) {
    t in s.terminals && s.terminals[t].live && Valid(s.terminals[t].engine)
  }

  /** The second attach begins, and the first one's `finish_attach` ends the
      withholding it began. */
  lemma BeginAgain(run: seq<System>, steps: seq<Step>, c: ClientId, t: Tid)
    returns (run': seq<System>, steps': seq<Step>)
    requires IsRun(run, steps) && Enabled(run[|steps|], Begin(c, t)) && !HandlerDone(run[|steps|].clients[c], t)
    ensures IsRun(run', steps') && |steps'| == |steps| + 2 && run <= run' && steps <= steps'
    ensures steps'[|steps|] == Begin(c, t) && !steps'[|steps| + 1].Begin?
    ensures c in run'[|steps'|].clients && run'[|steps'|].terminals == run[|steps|].terminals
    ensures var x, y := run[|steps|].clients[c], run'[|steps'|].clients[c];
            && t in y.h.subscriptions && t !in y.h.attaching && (Seen(x) ==> Seen(y))
            && HandlerOf(y, t) == Holding(SnapshotOf(run[|steps|].terminals[t]))
  {
    run', steps' := Extend(run, steps, Begin(c, t));
    run', steps' := Extend(run', steps', FinishLate(c, t));
  }

  lemma RepaintFeeds(e: Engine)
    requires Valid(e)
    ensures Fed(e, e.(damage := Full))
  {
    AgreesRefl(e.visible, Full);
  }

  /** One more delta goes out to the client. */
  lemma EmitOnce(run: seq<System>, steps: seq<Step>, c: ClientId, t: Tid)
    returns (run': seq<System>, steps': seq<Step>, delta: TerminalDelta)
    requires IsRun(run, steps) && c in run[|steps|].clients && CanOutput(run[|steps|], t)
    requires Streams(run[|steps|].clients[c], t) && |run[|steps|].clients[c].h.queue| < DELTA_HIGH_WATER
    ensures IsRun(run', steps') && Continues(run, steps, run', steps')
    ensures c in run'[|steps'|].clients && CanOutput(run'[|steps'|], t)
    ensures EmitSeq(run'[|steps'|].terminals[t]) == EmitSeq(run[|steps|].terminals[t]) + 1 == delta.seqNo
    ensures var client := run[|steps|].clients[c];
            run'[|steps'|].clients[c] == client.(h := client.h.(queue := client.h.queue + [DeltaMessage(t, delta)]))
  {
    var term := run[|steps|].terminals[t];
    RepaintFeeds(term.engine);
    run', steps' := Extend(run, steps, Output(t, term.engine.(damage := Full)));
    delta := BuildDelta(term.engine.(damage := Full), EmitSeq(term) + 1);
    run', steps' := Extend(run', steps', EmitDelta(t));
  }

  /** The second ack is queued and its handler finishes. */
  lemma AckAndFinish(run: seq<System>, steps: seq<Step>, c: ClientId, t: Tid, s: TerminalSnapshot)
    returns (run': seq<System>, steps': seq<Step>)
    requires IsRun(run, steps) && c in run[|steps|].clients
    requires Streams(run[|steps|].clients[c], t) && HandlerOf(run[|steps|].clients[c], t) == Holding(s)
    requires |run[|steps|].clients[c].h.queue| < DELTA_HIGH_WATER
    ensures IsRun(run', steps') && Continues(run, steps, run', steps') && run'[|steps'|].terminals == run[|steps|].terminals
    ensures c in run'[|steps'|].clients
    ensures var x, y := run[|steps|].clients[c], run'[|steps'|].clients[c];
            Streams(y, t) && y.h.queue == x.h.queue + [AttachAck(t, s)] && y.wire == x.wire
  {
    run', steps' := Extend(run, steps, QueueAck(c, t));
    run', steps' := Extend(run', steps', Finish(c, t));
  }

  /** The writer puts the first queued message on the wire and looks around. */
  lemma WriteOne(run: seq<System>, steps: seq<Step>, c: ClientId)
    returns (run': seq<System>, steps': seq<Step>)
    requires IsRun(run, steps) && c in run[|steps|].clients
    requires var client := run[|steps|].clients[c];
             && client.h.behind == {} && client.writer == Waiting
             && 0 < |client.h.queue| <= DELTA_LOW_WATER
    ensures IsRun(run', steps') && Continues(run, steps, run', steps') && run'[|steps'|].terminals == run[|steps|].terminals
    ensures c in run'[|steps'|].clients
    ensures var client := run[|steps|].clients[c];
            run'[|steps'|].clients[c] ==
            client.(wire := client.wire + [client.h.queue[0]], h := client.h.(queue := client.h.queue[1..]))
  {
    run', steps' := Extend(run, steps, WriterTake(c));
    run', steps' := Extend(run', steps', WriterCheck(c));
    run', steps' := Extend(run', steps', WriterAsk(c));
  }

  lemma WriteThree(run: seq<System>, steps: seq<Step>, c: ClientId, x: Message, y: Message, z: Message)
    returns (run': seq<System>, steps': seq<Step>)
    requires IsRun(run, steps) && c in run[|steps|].clients
    requires var client := run[|steps|].clients[c];
             client.h.behind == {} && client.writer == Waiting && client.h.queue == [x, y, z] && client.wire == []
    ensures IsRun(run', steps') && Continues(run, steps, run', steps') && c in run'[|steps'|].clients
    ensures run'[|steps'|].clients[c].wire == [x, y, z]
  {
    run', steps' := WriteOne(run, steps, c);
    assert run'[|steps'|].clients[c].h.queue == [y, z];
    run', steps' := WriteOne(run', steps', c);
    assert run'[|steps'|].clients[c].h.queue == [z];
    run', steps' := WriteOne(run', steps', c);
  }

  /** The last step of the run hands client `c` an event for `t` that its replica
      reports as a gap. */
  ghost predicate EndsInGap(run: seq<System>, steps: seq<Step>, c: ClientId, t: Tid) {
    && |run| == |steps| + 1 && steps != [] && steps[|steps| - 1] == TakeEvent(c)
    && var s := run[|steps| - 1];
       && c in s.clients && s.clients[c].wire != [] && Concerns(s.clients[c].wire[0], t)
       && IsTerminalOutput(s.clients[c].wire[0]) && t in s.clients[c].grids
       && ApplyToGrid(s.clients[c].grids[t], EventOf(s.clients[c].wire[0])).1 == EventNeedsResync
  }

  /** The head of the wire is taken, an ack installed. */
  lemma TakeHead(run: seq<System>, steps: seq<Step>, c: ClientId) returns (run': seq<System>, steps': seq<Step>)
    requires IsRun(run, steps) && c in run[|steps|].clients && run[|steps|].clients[c].wire != []
    ensures IsRun(run', steps') && Continues(run, steps, run', steps') && |steps'| == |steps| + 1
    ensures var m := run[|steps|].clients[c].wire[0];
            && steps'[|steps|] == (if m.AttachAck? then InstallAck(c, 0) else TakeEvent(c))
            && c in run'[|steps'|].clients && run'[|steps'|].clients[c].wire == run[|steps|].clients[c].wire[1..]
            && (m.AttachAck? ==> Get(run'[|steps'|].clients[c].grids, m.terminal) == Some(FromSnapshot(m.snapshot)))
  {
    var wire := run[|steps|].clients[c].wire;
    assert wire[..0] + wire[1..] == wire[1..];
    run', steps' := Extend(run, steps, if wire[0].AttachAck? then InstallAck(c, 0) else TakeEvent(c));
  }

  /** A delta, an ack from before it and the delta after it, taken in order. */
  lemma TakeThree(run: seq<System>, steps: seq<Step>, c: ClientId, t: Tid,
                  first: TerminalDelta, ack: TerminalSnapshot, second: TerminalDelta)
    returns (run': seq<System>, steps': seq<Step>)
    requires IsRun(run, steps) && c in run[|steps|].clients
    requires run[|steps|].clients[c].wire == [DeltaMessage(t, first), AttachAck(t, ack), DeltaMessage(t, second)]
    requires second.seqNo > ack.seqNo + 1
    ensures IsRun(run', steps') && Continues(run, steps, run', steps') && EndsInGap(run', steps', c, t)
  {
    var r1, s1 := TakeHead(run, steps, c);
    var r2, s2 := TakeHead(r1, s1, c);
    ContinuesTwice(run, steps, r1, s1, r2, s2);
    run', steps' := TakeHead(r2, s2, c);
    ContinuesTwice(run, steps, r2, s2, run', steps');
    assert r2[|s2|].clients[c].wire == [DeltaMessage(t, second)];
  }

  /** From the second attach on: a delta, the second ack, a delta. */
  lemma Overtake(run: seq<System>, steps: seq<Step>, c: ClientId, t: Tid)
    returns (run': seq<System>, steps': seq<Step>)
    requires IsRun(run, steps) && c in run[|steps|].clients && CanOutput(run[|steps|], t)
    requires var client := run[|steps|].clients[c];
             && Streams(client, t) && client.h.queue == [] && client.wire == []
             && HandlerOf(client, t) == Holding(SnapshotOf(run[|steps|].terminals[t]))
    ensures IsRun(run', steps') && Continues(run, steps, run', steps') && EndsInGap(run', steps', c, t)
  {
    var ack := SnapshotOf(run[|steps|].terminals[t]);
    var r1, s1, first := EmitOnce(run, steps, c, t);
    var r2, s2 := AckAndFinish(r1, s1, c, t, ack);
    ContinuesTwice(run, steps, r1, s1, r2, s2);
    var r3, s3, second := EmitOnce(r2, s2, c, t);
    ContinuesTwice(run, steps, r2, s2, r3, s3);
    assert r3[|s3|].clients[c].h.queue == [DeltaMessage(t, first), AttachAck(t, ack), DeltaMessage(t, second)];
    var r4, s4 := WriteThree(r3, s3, c, DeltaMessage(t, first), AttachAck(t, ack), DeltaMessage(t, second));
    ContinuesTwice(run, steps, r3, s3, r4, s4);
    run', steps' := TakeThree(r4, s4, c, t, first, ack, second);
    ContinuesTwice(run, steps, r4, s4, run', steps');
  }

  /** `run'` goes on from `run` with this attach, and then only with attaches
      that wait for the last handler. */
  ghost predicate GoesOn(run: seq<System>, steps: seq<Step>, run': seq<System>, steps': seq<Step>, c: ClientId, t: Tid) {
    && IsRun(run', steps') && run <= run' && steps <= steps'
    && |steps| < |steps'| && steps'[|steps|] == Begin(c, t)
    && forall i :: |steps| < i < |steps'| ==> Enabled(run'[i], steps'[i]) && Orderly(run'[i], steps'[i])
  }

  /** From every reachable state in which a client may attach and the handler of
      its last attach has not finished, whatever is on its way, some run goes on
      to an event its replica reports as a gap. */
  lemma UnfinishedAttachGaps(run: seq<System>, steps: seq<Step>, c: ClientId, t: Tid)
    returns (run': seq<System>, steps': seq<Step>)
    requires IsOrderlyRun(run, steps)
    requires Enabled(run[|steps|], Begin(c, t)) && !HandlerDone(run[|steps|].clients[c], t)
    ensures GoesOn(run, steps, run', steps', c, t) && EndsInGap(run', steps', c, t)
  {
    var n := |steps|;
    RunKeeps(run, steps, n);
    assert ClientInv(run[n].clients[c], run[n].terminals) && TerminalValid(run[n].terminals[t]);
    var r1, s1 := BeginAgain(run, steps, c, t);
    var r2, s2 := Settle(r1, s1, c);
    run', steps' := Overtake(r2, s2, c, t);
    ContinuesTwice(r1, s1, r2, s2, run', steps');
    forall i | n < i < |steps'| ensures Enabled(run'[i], steps'[i]) && Orderly(run'[i], steps'[i]) {
      if i < |s1| { assert i == n + 1 && steps'[i] == s1[i]; }
    }
  }

  /** No run that goes on with this attach ever ends in a gap, at any client. */
  ghost predicate NeverGaps(run: seq<System>, steps: seq<Step>, c: ClientId, t: Tid) {
    forall run', steps', d, u ::
      GoesOn(run, steps, run', steps', c, t) ==> !EndsInGap(run', steps', d, u)
  }

  lemma GoesOnOrderly(run: seq<System>, steps: seq<Step>, run': seq<System>, steps': seq<Step>, c: ClientId, t: Tid)
    requires IsOrderlyRun(run, steps) && GoesOn(run, steps, run', steps', c, t)
    requires Enabled(run[|steps|], Begin(c, t)) && HandlerDone(run[|steps|].clients[c], t)
    ensures IsOrderlyRun(run', steps')
  {
    forall i | 0 <= i < |steps'| ensures Enabled(run'[i], steps'[i]) && Orderly(run'[i], steps'[i]) {
      if i < |steps| {
        assert run'[i] == run[i] && steps'[i] == steps[i] && Orderly(run[i], steps[i]);
      } else if i == |steps| {
        assert run'[i] == run[i];
      }
    }
  }

  lemma OrderlyEndsInNoGap(run: seq<System>, steps: seq<Step>, d: ClientId, u: Tid)
    requires IsOrderlyRun(run, steps)
    ensures !EndsInGap(run, steps, d, u)
  {
    if steps != [] && steps[|steps| - 1] == TakeEvent(d) {
      var n := |steps| - 1;
      assert Enabled(run[n], steps[n]);
      var client := run[n].clients[d];
      if Concerns(client.wire[0], u) && u in client.grids {
        NoEventEverGaps(run, steps, n, u);
      }
    }
  }

  /** In any reachable state, attaching is safe if and only if the handler of the
      client's last attach of that terminal has finished. */
  lemma AttachSafeIff(run: seq<System>, steps: seq<Step>, c: ClientId, t: Tid)
    requires IsOrderlyRun(run, steps) && Enabled(run[|steps|], Begin(c, t))
    ensures NeverGaps(run, steps, c, t) <==> HandlerDone(run[|steps|].clients[c], t)
  {
    if HandlerDone(run[|steps|].clients[c], t) {
      forall run', steps', d, u | GoesOn(run, steps, run', steps', c, t) ensures !EndsInGap(run', steps', d, u) {
        GoesOnOrderly(run, steps, run', steps', c, t);
        OrderlyEndsInNoGap(run', steps', d, u);
      }
    } else {
      var run', steps' := UnfinishedAttachGaps(run, steps, c, t);
    }
  }
}

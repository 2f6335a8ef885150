/** What prompt delivery promises a sender and a session, for every run. */
module PromptTheorems {
  import opened Options
  import opened PromptText
  import opened Prompts
  import opened PromptSafety
  import opened PromptMoves

  /** In every run, what is pasted into a terminal is (a prefix, if the write
      broke off, of) a prompt accepted for that terminal, consumed exactly once,
      and no other paste anywhere carries the same prompt. */
  lemma PastedOnceWhereAccepted(run: seq<Daemon>, steps: seq<Step>, n: nat, t: TerminalId, i: nat)
    requires IsRun(run, steps) && n < |run| && i < |Out(run[n], t)| && Out(run[n], t)[i].Paste?
    ensures var s := run[n]; var chunk := Out(s, t)[i];
            && chunk.context in s.sent && s.sent[chunk.context].prompt.terminal == t
            && chunk.context in s.consumed
            && chunk.text <= Rendered(s.sent[chunk.context].prompt.text, s.consumed[chunk.context].bracketed)
            && forall u, j :: 0 <= j < |Out(s, u)| && Pastes(Out(s, u)[j], chunk.context) ==> u == t && j == i
  {
    RunKeeps(run, steps, n);
    var s := run[n];
    var chunk := Out(s, t)[i];
    assert TerminalTrue(s, t) && ChunkTrue(s, t, i);
    forall u, j | 0 <= j < |Out(s, u)| && Pastes(Out(s, u)[j], chunk.context) ensures u == t && j == i {
      assert TerminalTrue(s, u) && ChunkTrue(s, u, j);
    }
  }

  /** In every run, a carriage return written for a prompt stands right behind
      that prompt's whole paste, was asked for, and the session was hook-idle
      in the critical section that consumed the prompt. */
  lemma ReturnOnlyWhenIdle(run: seq<Daemon>, steps: seq<Step>, n: nat, t: TerminalId, i: nat)
    requires IsRun(run, steps) && n < |run| && i < |Out(run[n], t)| && Out(run[n], t)[i].Return?
    ensures var s := run[n]; var context := Out(s, t)[i].context;
            && context in s.sent && context in s.consumed
            && s.consumed[context].idle && s.sent[context].prompt.submit
            && i > 0
            && Out(s, t)[i - 1] == Paste(context, Rendered(s.sent[context].prompt.text, s.consumed[context].bracketed))
  {
    RunKeeps(run, steps, n);
    assert TerminalTrue(run[n], t) && ChunkTrue(run[n], t, i);
  }

  // ---- What a delivery reports ----

  lemma StepTells(s: Daemon, step: Step, w: Thread)
    requires Invariant(s) && Enabled(s, step) && w in Next(s, step).workers
    requires forall v :: v in s.workers ==> Told(s, s.workers[v])
    ensures Told(Next(s, step), Next(s, step).workers[w])
  {
    if WorkerStep(step) {
      IsReady(s, step.w);
      WorkerStepMoves(s, step);
      if w == step.w { MovedIsTold(s, Next(s, step), step, w); } else { ToldStays(s, Next(s, step), s.workers[w]); }
    } else {
      OtherStepLeaves(s, step);
      if w in s.workers { ToldStays(s, Next(s, step), s.workers[w]); }
    }
  }

  lemma {:induction false} RunTells(run: seq<Daemon>, steps: seq<Step>, n: nat, w: Thread)
    requires IsRun(run, steps) && n < |run| && w in run[n].workers
    ensures Told(run[n], run[n].workers[w])
    decreases n
  {
    if n > 0 {
      var s, step := run[n - 1], steps[n - 1];
      assert Enabled(s, step) && run[n] == Next(s, step);
      RunKeeps(run, steps, n - 1);
      forall v | v in s.workers ensures Told(s, s.workers[v]) {
        RunTells(run, steps, n - 1, v);
      }
      StepTells(s, step, w);
    }
  }

  lemma ReadyAlong(run: seq<Daemon>, steps: seq<Step>, n: nat, w: Thread)
    requires IsRun(run, steps) && n < |run| && w in run[n].workers
    ensures Ready(run[n], run[n].workers[w])
  {
    RunTells(run, steps, n, w);
    RunKeeps(run, steps, n);
    IsReady(run[n], w);
  }

  /** In every run, once a delivery has reported itself delivered, its whole
      prompt stands in its terminal's input; it reports the prompt submitted
      exactly if that was asked for and the session was hook-idle when the
      prompt was taken, and then the carriage return stands right behind it. */
  lemma DeliveredIsWritten(run: seq<Daemon>, steps: seq<Step>, n: nat, w: Thread)
    requires IsRun(run, steps) && n < |run| && w in run[n].workers
    requires run[n].workers[w].pc.Done? && run[n].workers[w].pc.outcome.Delivered?
    ensures var s, p, submitted := run[n], run[n].workers[w].prompt, run[n].workers[w].pc.outcome.submitted;
            && p.context in s.consumed
            && submitted == (p.submit && s.consumed[p.context].idle)
            && exists i ::
                 && 0 <= i < |Out(s, p.terminal)|
                 && Out(s, p.terminal)[i] == Paste(p.context, Rendered(p.text, s.consumed[p.context].bracketed))
                 && (submitted ==> i + 1 < |Out(s, p.terminal)| && Out(s, p.terminal)[i + 1] == Return(p.context))
  {
    RunTells(run, steps, n, w);
    var s, p := run[n], run[n].workers[w].prompt;
    var i: nat :| WrittenAt(Out(s, p.terminal), i, p.context, Rendered(p.text, s.consumed[p.context].bracketed),
                            s.workers[w].pc.outcome.submitted);
    assert Out(s, p.terminal)[i] == Paste(p.context, Rendered(p.text, s.consumed[p.context].bracketed));
  }

  /** In every run, every step of a delivery brings it further, so it is over
      after nine; it ends only for the reason it reports, and takes its prompt
      for writing only from a live agent, hook-idle unless the prompt was to be
      written at once. */
  lemma DeliveryEndsForAReason(run: seq<Daemon>, steps: seq<Step>, n: nat)
    requires IsRun(run, steps) && n < |steps| && WorkerStep(steps[n])
    ensures Moves(run[n], run[n + 1], steps[n], steps[n].w)
  {
    assert Enabled(run[n], steps[n]) && run[n + 1] == Next(run[n], steps[n]);
    ReadyAlong(run, steps, n, steps[n].w);
    WorkerStepMoves(run[n], steps[n]);
  }

  /** A request past its record: queued, about to be, or writing. */
  predicate PastRecord(x: Worker) {
    x.origin.Request? && Rank(x.pc) > 3 && !Turned(x.pc)
  }

  /** In every run, nothing of a request is queued or written before its record
      is stored. */
  lemma {:induction false} RecordedFirst(run: seq<Daemon>, steps: seq<Step>, n: nat, w: Thread)
    requires IsRun(run, steps) && n < |run| && w in run[n].workers && PastRecord(run[n].workers[w])
    ensures exists m :: 0 <= m < n && steps[m] == Record(w, true)
    decreases n
  {
    if n > 0 {
      RecordedBefore(run, steps, n - 1, w);
      if steps[n - 1] != Record(w, true) { RecordedFirst(run, steps, n - 1, w); }
    }
  }

  lemma RecordedBefore(run: seq<Daemon>, steps: seq<Step>, n: nat, w: Thread)
    requires IsRun(run, steps) && n < |steps| && w in run[n + 1].workers && PastRecord(run[n + 1].workers[w])
    ensures steps[n] == Record(w, true) || (w in run[n].workers && PastRecord(run[n].workers[w]))
  {
    assert Enabled(run[n], steps[n]) && run[n + 1] == Next(run[n], steps[n]);
    if WorkerStep(steps[n]) {
      DeliveryEndsForAReason(run, steps, n);
      MovesPastRecord(run[n], run[n + 1], steps[n], steps[n].w, w);
    } else {
      OtherStepLeaves(run[n], steps[n]);
    }
  }

  lemma MovesPastRecord(s: Daemon, s': Daemon, step: Step, v: Thread, w: Thread)
    requires Moves(s, s', step, v) && w in s'.workers && PastRecord(s'.workers[w])
    ensures step == Record(w, true) || (w in s.workers && PastRecord(s.workers[w]))
  {
  }

  /** The request that the prompt of this context came with. */
  ghost predicate AskedFor(s: Daemon, step: Step, context: ContextId) {
    && context in s.sent && step.Send?
    && var p := s.sent[context].prompt;
       && s.sent[context].sid == step.sid && s.sent[context].sender == step.w
       && Some(p.text) == CleanText(step.raw) && p.submit == step.submit
  }

  lemma SentStays(run: seq<Daemon>, steps: seq<Step>, n: nat)
    requires IsRun(run, steps) && n < |steps| && !steps[n].Send?
    ensures run[n + 1].sent == run[n].sent
  {
    assert Enabled(run[n], steps[n]) && run[n + 1] == Next(run[n], steps[n]);
    if WorkerStep(steps[n]) {
      ReadyAlong(run, steps, n, steps[n].w);
      WorkerStepMoves(run[n], steps[n]);
    } else {
      OtherStepLeaves(run[n], steps[n]);
    }
  }

  /** In every run, every accepted prompt is some request's cleaned text with
      the request's own wish to submit, for the session the request named. */
  lemma {:induction false} AcceptedAsAsked(run: seq<Daemon>, steps: seq<Step>, n: nat, context: ContextId)
    requires IsRun(run, steps) && n < |run| && context in run[n].sent
    ensures exists m :: 0 <= m < n && AskedFor(run[n], steps[m], context)
    decreases n
  {
    if n > 0 {
      var s, step := run[n - 1], steps[n - 1];
      assert Enabled(s, step) && run[n] == Next(s, step);
      if step.Send? && context == s.nextContext {
        assert AskedFor(run[n], step, context);
      } else {
        if !step.Send? { SentStays(run, steps, n - 1); }
        AcceptedAsAsked(run, steps, n - 1, context);
        var m :| 0 <= m < n - 1 && AskedFor(s, steps[m], context);
        assert AskedFor(run[n], steps[m], context);
      }
    }
  }

  /** A queued prompt waits in one slot only, for the session it was sent to,
      and nothing of it has been written. */
  lemma QueuedIsUnwritten(run: seq<Daemon>, steps: seq<Step>, n: nat, sid: SessionId)
    requires IsRun(run, steps) && n < |run| && sid in run[n].pending
    ensures var s := run[n]; var p := s.pending[sid];
            && p.context in s.sent && s.sent[p.context].sid == sid && s.sent[p.context].prompt == p
            && (forall other :: other in s.pending && other != sid ==> s.pending[other].context != p.context)
            && (forall t :: Unpasted(Out(s, t), p.context))
  {
    RunKeeps(run, steps, n);
    var s := run[n];
    assert Known(s, sid, s.pending[sid]);
    forall other | other in s.pending && other != sid ensures s.pending[other].context != s.pending[sid].context {
      assert Known(s, other, s.pending[other]);
    }
    forall t ensures Unpasted(Out(s, t), s.pending[sid].context) {
      FreshIsUnpasted(s, t, s.pending[sid].context);
    }
  }

  /** From `s` to `s'` the worker was not turned away over the slot, and no
      other prompt lost its own. */
  ghost predicate NotOvertaken(s: Daemon, s': Daemon, w: Thread) {
    && w in s.workers && w in s'.workers
    && s'.workers[w].pc != Done(Refused(Conflict))
    && s'.workers[w].pc != Done(Refused(AlreadyConsumed))
    && forall sid :: sid in s.pending && s.pending[sid].context != s.workers[w].prompt.context ==>
         sid in s'.pending && s'.pending[sid] == s.pending[sid]
  }

  /** What the gate is for: once a request has been recorded, or a drain has
      found its prompt under the gate, it is never turned away because another
      prompt took the slot or its own was consumed, and it displaces none. */
  lemma RecordedIsNotOvertaken(run: seq<Daemon>, steps: seq<Step>, n: nat)
    requires IsRun(run, steps) && n < |steps| && (steps[n].Enqueue? || steps[n].Decide?)
    ensures NotOvertaken(run[n], run[n + 1], steps[n].w)
  {
    assert Enabled(run[n], steps[n]) && run[n + 1] == Next(run[n], steps[n]);
    var s, w := run[n], steps[n].w;
    assert SlotFree(s, w) by {
      RunKeeps(run, steps, n);
      SlotIsHeld(s, w);
    }
    match steps[n]
    case Enqueue(_) => EnqueueDisplacesNone(s, w);
    case Decide(_, bracketed) => DecideDisplacesNone(s, w, bracketed);
  }

  ghost predicate SlotFree(s: Daemon, w: Thread) {
    && w in s.workers
    && var x := s.workers[w];
       && CheckTarget(s, x) != Some(Conflict) && CheckTarget(s, x) != Some(AlreadyConsumed)
       && (CheckTarget(s, x).None? && x.sid in s.pending ==> s.pending[x.sid] == x.prompt)
  }

  lemma SlotIsHeld(s: Daemon, w: Thread)
    requires Invariant(s) && w in s.workers && Accepted(s.workers[w].pc)
    ensures SlotFree(s, w)
  {
    assert WorkerTrue(s, w, s.workers[w]);
  }

  lemma FinishDisplacesNone(s: Daemon, w: Thread, outcome: Outcome)
    requires w in s.workers && outcome != Refused(Conflict) && outcome != Refused(AlreadyConsumed)
    ensures NotOvertaken(s, Finish(s, w, outcome), w)
  {
    assert Finish(s, w, outcome).pending == s.pending;
  }

  lemma EnqueuedDisplacesNone(s: Daemon, w: Thread)
    requires w in s.workers && (s.workers[w].sid in s.pending ==> s.pending[s.workers[w].sid] == s.workers[w].prompt)
    ensures NotOvertaken(s, Enqueued(s, w), w)
  {
    assert Enqueued(s, w).pending == s.pending[s.workers[w].sid := s.workers[w].prompt];
  }

  lemma ConsumeDisplacesNone(s: Daemon, w: Thread, bracketed: bool)
    requires w in s.workers && (s.workers[w].sid in s.pending ==> s.pending[s.workers[w].sid] == s.workers[w].prompt)
    ensures NotOvertaken(s, Consume(s, w, bracketed), w)
  {
    assert Consume(s, w, bracketed).pending == s.pending - {s.workers[w].sid};
  }

  lemma EnqueueDisplacesNone(s: Daemon, w: Thread)
    requires SlotFree(s, w)
    ensures NotOvertaken(s, DoEnqueue(s, w), w)
  {
    var x := s.workers[w];
    if CheckTarget(s, x).Some? {
      FinishDisplacesNone(s, w, Refused(CheckTarget(s, x).value));
    } else if !SessionIdle(s, x.sid) {
      EnqueuedDisplacesNone(s, w);
    } else {
      assert DoEnqueue(s, w).pending == s.pending;
    }
  }

  lemma DecideDisplacesNone(s: Daemon, w: Thread, bracketed: bool)
    requires SlotFree(s, w)
    ensures NotOvertaken(s, DoDecide(s, w, bracketed), w)
  {
    var x := s.workers[w];
    if CheckTarget(s, x).Some? {
      FinishDisplacesNone(s, w, Refused(CheckTarget(s, x).value));
    } else if !SessionIdle(s, x.sid) && x.when.Queue? {
      EnqueuedDisplacesNone(s, w);
    } else if x.prompt.terminal !in s.runtimes {
      FinishDisplacesNone(s, w, Refused(NoRuntime));
    } else {
      ConsumeDisplacesNone(s, w, bracketed);
    }
  }

  // ---- How a queued prompt leaves its slot ----

  predicate Ends(step: Step, sid: SessionId) {
    step == Restart(sid) || step == End(sid) || step == Remove(sid)
  }

  /** The step takes the session's queued prompt out for writing. */
  ghost predicate Consumes(s: Daemon, s': Daemon, step: Step, sid: SessionId)
    requires sid in s.pending
  {
    && step.Decide? && step.w in s.workers && step.w in s'.workers
    && s.workers[step.w].sid == sid && s.workers[step.w].prompt == s.pending[sid]
    && s.pending[sid].context !in s.consumed && s.pending[sid].context in s'.consumed
    && s'.workers[step.w].pc.Pasting?
  }

  lemma OtherStepsKeepSlots(s: Daemon, step: Step, sid: SessionId)
    requires Enabled(s, step) && !step.Enqueue? && !step.Decide? && sid in s.pending && !Ends(step, sid)
    requires WorkerStep(step) ==> Ready(s, s.workers[step.w])
    ensures sid in Next(s, step).pending && Next(s, step).pending[sid] == s.pending[sid]
  {
    match step
    case Enter(w) => EnterMoves(s, w);
    case LockGate(_) => LockMoves(s, step);
    case Inspect(w) => InspectMoves(s, w);
    case Record(w, ok) => RecordMoves(s, w, ok);
    case LockWriter(_) => LockMoves(s, step);
    case WritePaste(w, wrote, ok) => PasteMoves(s, w, wrote, ok);
    case WriteReturn(w, reached, ok) => ReturnMoves(s, w, reached, ok);
    case _ => QuietKeepsSlot(s, step, sid);
  }

  lemma QuietKeepsSlot(s: Daemon, step: Step, sid: SessionId)
    requires Enabled(s, step) && sid in s.pending && !Ends(step, sid)
    requires !WorkerStep(step)
    ensures sid in Next(s, step).pending && Next(s, step).pending[sid] == s.pending[sid]
  {
  }

  lemma EnqueueKeepsSlots(s: Daemon, w: Thread, sid: SessionId)
    requires SlotFree(s, w) && sid in s.pending
    ensures sid in DoEnqueue(s, w).pending && DoEnqueue(s, w).pending[sid] == s.pending[sid]
  {
    var x := s.workers[w];
    if CheckTarget(s, x).Some? {
      FinishMoves(s, w, Refused(CheckTarget(s, x).value));
    } else if !SessionIdle(s, x.sid) {
      EnqueuedFills(s, w);
    }
  }

  lemma DecideTakesOnlyItsOwn(s: Daemon, w: Thread, bracketed: bool, sid: SessionId)
    requires SlotFree(s, w) && SlotsTrue(s) && sid in s.pending
    ensures var s' := DoDecide(s, w, bracketed);
            || (sid in s'.pending && s'.pending[sid] == s.pending[sid])
            || Consumes(s, s', Decide(w, bracketed), sid)
  {
    var x := s.workers[w];
    if CheckTarget(s, x).Some? {
      FinishMoves(s, w, Refused(CheckTarget(s, x).value));
    } else if !SessionIdle(s, x.sid) && x.when.Queue? {
      EnqueuedFills(s, w);
    } else if x.prompt.terminal !in s.runtimes {
      FinishMoves(s, w, Refused(NoRuntime));
    } else {
      ConsumeMoves(s, w, bracketed);
    }
  }

  /** Over every step of every run, a queued prompt stays in its slot, unchanged,
      unless that step consumes it for writing, or restarts, ends or removes its
      own session. */
  lemma QueuedLeavesOnlyConsumed(run: seq<Daemon>, steps: seq<Step>, n: nat, sid: SessionId)
    requires IsRun(run, steps) && n < |steps| && sid in run[n].pending
    ensures || (sid in run[n + 1].pending && run[n + 1].pending[sid] == run[n].pending[sid])
            || Consumes(run[n], run[n + 1], steps[n], sid)
            || Ends(steps[n], sid)
  {
    var s, step := run[n], steps[n];
    assert Enabled(s, step) && run[n + 1] == Next(s, step);
    if step.Enqueue? || step.Decide? {
      assert SlotFree(s, step.w) && SlotsTrue(s) by {
        RunKeeps(run, steps, n);
        SlotIsHeld(s, step.w);
      }
      match step
      case Enqueue(w) => EnqueueKeepsSlots(s, w, sid);
      case Decide(w, bracketed) => DecideTakesOnlyItsOwn(s, w, bracketed, sid);
    } else if !Ends(step, sid) {
      if WorkerStep(step) { ReadyAlong(run, steps, n, step.w); }
      OtherStepsKeepSlots(s, step, sid);
    }
  }
}

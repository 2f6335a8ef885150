/** What one step does for the delivery it moves, told without the steps' own
    definitions: how far it goes, why it ends where it ends, and what it leaves
    on the terminal.

    A delivery passes its places in one order and never turns back. A refusal
    holds of the state it was made in; a request is recorded only for a target
    that could take it; a prompt is queued for a busy agent only, and taken for
    writing from a live one. What was written, what the section that took a
    prompt saw, and what was accepted stay as they are, so a delivery that says
    it delivered can be checked against its terminal at any later time. */
module PromptMoves {
  import opened Options
  import opened PromptText
  import opened Prompts
  import opened PromptSafety

  /** How far a delivery has come. */
  function Rank(pc: Pc): nat {
    match pc
    case Entering => 0
    case AwaitingGate => 1
    case Inspecting => 2
    case Recording => 3
    case Enqueueing => 4
    case AwaitingWriter => 5
    case Deciding => 6
    case Pasting(_, _) => 7
    case Submitting => 8
    case Done(_) => 9
  }

  /** The fact a refusal reports. */
  ghost predicate Holds(s: Daemon, x: Worker, why: Refusal) {
    match why
    case NoSession => x.sid !in s.sessions
    case NotLiveAgent => x.sid in s.sessions && !(s.sessions[x.sid].agent && s.sessions[x.sid].active)
    case NoTerminal => x.sid in s.sessions && s.sessions[x.sid].terminal == None
    case EndedTerminal => x.sid in s.sessions && s.sessions[x.sid].terminal != Some(x.prompt.terminal)
    case NotIdle => x.when == IfIdle && !SessionIdle(s, x.sid)
    case Conflict => x.sid in s.pending && (x.origin != Drain || s.pending[x.sid].context != x.prompt.context)
    case AlreadyConsumed => x.origin == Drain && x.sid !in s.pending
    case NoCaller => x.origin.Request? && x.origin.caller.Some? && x.origin.caller.value !in s.sessions
    case NoRuntime => x.prompt.terminal !in s.runtimes
    case NotRecorded => x.pc == Recording
    case UnknownPolicy => x.when == OtherPolicy
  }

  /** The target is a live agent in the terminal the prompt was accepted for. */
  predicate LiveAgent(s: Daemon, x: Worker) {
    LiveTarget(s, x) && s.sessions[x.sid].agent
  }

  /** The whole prompt stands in its terminal's input, and right behind it its
      carriage return if the delivery is said to have submitted it. */
  ghost predicate Written(s: Daemon, x: Worker, submitted: bool) {
    var p, chunks := x.prompt, Out(s, x.prompt.terminal);
    && p.context in s.consumed
    && submitted == (p.submit && s.consumed[p.context].idle)
    && exists i :: WrittenAt(chunks, i, p.context, Rendered(p.text, s.consumed[p.context].bracketed), submitted)
  }

  ghost predicate WrittenAt(chunks: seq<Chunk>, i: nat, context: ContextId, text: string, submitted: bool) {
    && i < |chunks| && chunks[i] == Paste(context, text)
    && (submitted ==> i + 1 < |chunks| && chunks[i + 1] == Return(context))
  }

  /** Why a delivery ends as it does. */
  ghost predicate Reason(s: Daemon, s': Daemon, step: Step, x: Worker, outcome: Outcome) {
    match outcome
    case Refused(why) => Holds(s, x, why) && (why.NotRecorded? ==> step.Record? && !step.ok)
    case Queued =>
      && x.when == Queue && LiveAgent(s, x) && !SessionIdle(s, x.sid)
      && x.sid in s'.pending && s'.pending[x.sid] == x.prompt
    case Delivered(submitted) => Written(s', x, submitted)
    case WriteFailed => (step.WritePaste? || step.WriteReturn?) && !step.ok
  }

  /** A prompt taken for writing is taken from a live agent, hook-idle unless it
      was to be written at once, and hook-idle no longer. */
  ghost predicate Taken(s: Daemon, s': Daemon, x: Worker) {
    && LiveAgent(s, x) && x.prompt.terminal in s.runtimes
    && (x.when != Now ==> SessionIdle(s, x.sid))
    && !SessionIdle(s', x.sid) && x.sid !in s'.pending
    && x.prompt.context !in s.consumed && x.prompt.context in s'.consumed
    && s'.consumed[x.prompt.context].idle == SessionIdle(s, x.sid)
  }

  /** Who it is for and what it brings stay as they are. */
  predicate SameErrand(x: Worker, y: Worker) {
    y.sid == x.sid && y.prompt == x.prompt && y.when == x.when && y.origin == x.origin
  }

  ghost predicate OnlyMoves(s: Daemon, s': Daemon, w: Thread) {
    && w in s.workers && w in s'.workers
    && s'.workers == s.workers[w := s'.workers[w]]
    && SameErrand(s.workers[w], s'.workers[w])
  }

  ghost predicate Moves(s: Daemon, s': Daemon, step: Step, w: Thread) {
    && OnlyMoves(s, s', w)
    && var x, y := s.workers[w], s'.workers[w];
       && Rank(x.pc) < Rank(y.pc)
       && (y.pc.Done? ==> Reason(s, s', step, x, y.pc.outcome))
       && (y.pc.Pasting? ==> Taken(s, s', x))
       && (x.origin.Request? && Rank(x.pc) <= 3 < Rank(y.pc) ==> step == Record(w, true) || Turned(y.pc))
       && (y.pc.Recording? ==> Recordable(s, x))
       && (y.pc.AwaitingWriter? && x.when.Queue? ==> SessionIdle(s, x.sid))
       && (PolicyKnown(x) ==> PolicyKnown(y))
  }

  /** A request is recorded from a caller that exists, for a live agent whose
      terminal runs and whose slot is free, hook-idle if that was asked. */
  ghost predicate Recordable(s: Daemon, x: Worker) {
    && LiveAgent(s, x) && x.prompt.terminal in s.runtimes && x.sid !in s.pending
    && (x.origin.Request? && x.origin.caller.Some? ==> x.origin.caller.value in s.sessions)
    && (x.when.IfIdle? ==> SessionIdle(s, x.sid))
  }

  /** Past its first check a delivery has a known policy, and only one that may
      be queued is about to be. */
  predicate PolicyKnown(x: Worker) {
    && (0 < Rank(x.pc) < 9 ==> !x.when.OtherPolicy?)
    && (x.pc.Enqueueing? ==> x.when.Queue?)
  }

  /** Ended with nothing queued or written. */
  predicate Turned(pc: Pc) {
    pc.Done? && pc.outcome.Refused?
  }

  /** What was written, and what was seen when it was taken, stays. */
  ghost predicate Grows(s: Daemon, s': Daemon) {
    && (forall t :: Out(s, t) <= Out(s', t))
    && (forall k :: k in s.consumed ==> k in s'.consumed && s'.consumed[k] == s.consumed[k])
  }

  predicate SameHistory(s: Daemon, s': Daemon) {
    s'.out == s.out && s'.consumed == s.consumed && s'.sent == s.sent
  }

  // ---- The operations ----

  lemma MoveMoves(s: Daemon, w: Thread, pc: Pc)
    requires w in s.workers
    ensures OnlyMoves(s, Move(s, w, pc), w) && Move(s, w, pc).workers[w].pc == pc
    ensures SameHistory(s, Move(s, w, pc)) && Move(s, w, pc).pending == s.pending
  {
  }

  lemma FinishMoves(s: Daemon, w: Thread, outcome: Outcome)
    requires w in s.workers
    ensures var s' := Finish(s, w, outcome);
            && OnlyMoves(s, s', w) && s'.workers[w].pc == Done(outcome)
            && SameHistory(s, s') && s'.pending == s.pending
  {
  }

  /** Going on short of the paste. */
  lemma MovesOn(s: Daemon, s': Daemon, step: Step, w: Thread)
    requires OnlyMoves(s, s', w) && !s'.workers[w].pc.Done? && !s'.workers[w].pc.Pasting?
    requires var x, y := s.workers[w], s'.workers[w];
             && Rank(x.pc) < Rank(y.pc)
             && (x.origin.Request? && Rank(x.pc) <= 3 < Rank(y.pc) ==> step == Record(w, true))
             && (y.pc.AwaitingWriter? && x.when.Queue? ==> SessionIdle(s, x.sid))
             && (Rank(x.pc) == 0 ==> !x.when.OtherPolicy?)
             && (y.pc.Enqueueing? ==> x.when.Queue?) && (y.pc.Recording? ==> Recordable(s, x))
    ensures Moves(s, s', step, w)
  {
  }

  /** Ending past the record. */
  lemma MovesOut(s: Daemon, s': Daemon, step: Step, w: Thread)
    requires OnlyMoves(s, s', w) && s'.workers[w].pc.Done? && 3 < Rank(s.workers[w].pc) < 9
    requires Reason(s, s', step, s.workers[w], s'.workers[w].pc.outcome)
    ensures Moves(s, s', step, w)
  {
  }

  lemma RefusedMoves(s: Daemon, step: Step, w: Thread, why: Refusal)
    requires w in s.workers && !s.workers[w].pc.Done? && Holds(s, s.workers[w], why)
    requires why.NotRecorded? ==> step == Record(w, false)
    ensures var s' := Finish(s, w, Refused(why));
            Moves(s, s', step, w) && SameHistory(s, s') && s'.pending == s.pending
  {
    FinishMoves(s, w, Refused(why));
  }

  lemma CheckedHolds(s: Daemon, x: Worker)
    ensures var refusal := CheckTarget(s, x);
            && (refusal.Some? ==> Holds(s, x, refusal.value) && !refusal.value.NotRecorded?)
            && (refusal.None? ==> LiveAgent(s, x) && (x.when.IfIdle? ==> SessionIdle(s, x.sid))
                                    && (x.origin.Request? ==> x.sid !in s.pending))
  {
  }

  lemma EnterMoves(s: Daemon, w: Thread)
    requires At(s, w, Entering)
    ensures Moves(s, DoEnter(s, w), Enter(w), w) && SameHistory(s, DoEnter(s, w)) && DoEnter(s, w).pending == s.pending
  {
    var x := s.workers[w];
    CheckedHolds(s, x);
    if x.when.OtherPolicy? {
      RefusedMoves(s, Enter(w), w, UnknownPolicy);
    } else if CheckTarget(s, x).Some? {
      RefusedMoves(s, Enter(w), w, CheckTarget(s, x).value);
    } else if x.sid in s.gates {
      EnteredMoves(s, DoEnter(s, w), w, s.gates[x.sid]);
    } else {
      EnteredMoves(s, DoEnter(s, w), w, s.nextGate);
    }
  }

  lemma EnteredMoves(s: Daemon, s': Daemon, w: Thread, gate: Gate)
    requires At(s, w, Entering) && !s.workers[w].when.OtherPolicy?
    requires s'.workers == s.workers[w := s.workers[w].(gate := gate, pc := AwaitingGate)]
    ensures Moves(s, s', Enter(w), w)
  {
    MovesOn(s, s', Enter(w), w);
  }

  lemma InspectMoves(s: Daemon, w: Thread)
    requires At(s, w, Inspecting)
    ensures Moves(s, DoInspect(s, w), Inspect(w), w)
    ensures SameHistory(s, DoInspect(s, w)) && DoInspect(s, w).pending == s.pending
  {
    var x := s.workers[w];
    CheckedHolds(s, x);
    if x.origin.Request? && x.origin.caller.Some? && x.origin.caller.value !in s.sessions {
      RefusedMoves(s, Inspect(w), w, NoCaller);
    } else if CheckTarget(s, x).Some? {
      RefusedMoves(s, Inspect(w), w, CheckTarget(s, x).value);
    } else if x.prompt.terminal !in s.runtimes {
      RefusedMoves(s, Inspect(w), w, NoRuntime);
    } else {
      MoveMoves(s, w, if x.origin.Request? then Recording else AfterRecord(x));
      MovesOn(s, DoInspect(s, w), Inspect(w), w);
    }
  }

  lemma RecordMoves(s: Daemon, w: Thread, ok: bool)
    requires At(s, w, Recording)
    ensures var s' := Next(s, Record(w, ok));
            Moves(s, s', Record(w, ok), w) && SameHistory(s, s') && s'.pending == s.pending
  {
    if ok {
      MoveMoves(s, w, AfterRecord(s.workers[w]));
      MovesOn(s, Next(s, Record(w, true)), Record(w, true), w);
    } else {
      RefusedMoves(s, Record(w, false), w, NotRecorded);
    }
  }

  lemma EnqueuedFills(s: Daemon, w: Thread)
    requires w in s.workers
    ensures var s' := Enqueued(s, w);
            && OnlyMoves(s, s', w) && s'.workers[w].pc == Done(Queued) && SameHistory(s, s')
            && s'.pending == s.pending[s.workers[w].sid := s.workers[w].prompt]
  {
    FinishMoves(s.(pending := s.pending[s.workers[w].sid := s.workers[w].prompt]), w, Queued);
  }

  lemma EnqueuedMoves(s: Daemon, step: Step, w: Thread)
    requires w in s.workers && 4 <= Rank(s.workers[w].pc) < 9 && s.workers[w].when.Queue?
    requires LiveAgent(s, s.workers[w]) && !SessionIdle(s, s.workers[w].sid)
    ensures Moves(s, Enqueued(s, w), step, w) && SameHistory(s, Enqueued(s, w))
  {
    EnqueuedFills(s, w);
    MovesOut(s, Enqueued(s, w), step, w);
  }

  lemma EnqueueMoves(s: Daemon, w: Thread)
    requires At(s, w, Enqueueing) && s.workers[w].when.Queue?
    ensures Moves(s, DoEnqueue(s, w), Enqueue(w), w) && SameHistory(s, DoEnqueue(s, w))
  {
    var x := s.workers[w];
    CheckedHolds(s, x);
    if CheckTarget(s, x).Some? {
      RefusedMoves(s, Enqueue(w), w, CheckTarget(s, x).value);
    } else if !SessionIdle(s, x.sid) {
      EnqueuedMoves(s, Enqueue(w), w);
    } else {
      MoveMoves(s, w, AwaitingWriter);
      MovesOn(s, DoEnqueue(s, w), Enqueue(w), w);
    }
  }

  lemma ConsumeMoves(s: Daemon, w: Thread, bracketed: bool)
    requires w in s.workers
    ensures var x, s' := s.workers[w], Consume(s, w, bracketed);
            && OnlyMoves(s, s', w) && s'.workers[w].pc.Pasting? && s'.out == s.out && s'.sent == s.sent
            && s'.pending == s.pending - {x.sid} && !SessionIdle(s', x.sid)
            && s'.consumed == s.consumed[x.prompt.context := Consumed(SessionIdle(s, x.sid), bracketed)]
  {
  }

  lemma TakenMoves(s: Daemon, w: Thread, bracketed: bool)
    requires At(s, w, Deciding) && LiveAgent(s, s.workers[w]) && s.workers[w].prompt.terminal in s.runtimes
    requires s.workers[w].when != Now ==> SessionIdle(s, s.workers[w].sid)
    requires s.workers[w].prompt.context !in s.consumed
    ensures var s' := Consume(s, w, bracketed);
            Moves(s, s', Decide(w, bracketed), w) && Grows(s, s') && s'.sent == s.sent
  {
    ConsumeMoves(s, w, bracketed);
  }

  lemma DecideMoves(s: Daemon, w: Thread, bracketed: bool)
    requires At(s, w, Deciding) && !s.workers[w].when.OtherPolicy?
    requires CheckTarget(s, s.workers[w]).None? ==> s.workers[w].prompt.context !in s.consumed
    ensures var s' := DoDecide(s, w, bracketed);
            Moves(s, s', Decide(w, bracketed), w) && Grows(s, s') && s'.sent == s.sent
  {
    var x := s.workers[w];
    CheckedHolds(s, x);
    if CheckTarget(s, x).Some? {
      RefusedMoves(s, Decide(w, bracketed), w, CheckTarget(s, x).value);
    } else if !SessionIdle(s, x.sid) && x.when.Queue? {
      EnqueuedMoves(s, Decide(w, bracketed), w);
    } else if x.prompt.terminal !in s.runtimes {
      RefusedMoves(s, Decide(w, bracketed), w, NoRuntime);
    } else {
      TakenMoves(s, w, bracketed);
    }
  }

  lemma PutGrows(s: Daemon, t: TerminalId, chunk: Chunk)
    ensures Grows(s, Put(s, t, chunk)) && Out(Put(s, t, chunk), t) == Out(s, t) + [chunk]
  {
  }

  /** Written first, then returned from. */
  lemma PutFinishMoves(s: Daemon, w: Thread, chunk: Chunk, outcome: Outcome)
    requires w in s.workers
    ensures var t := s.workers[w].prompt.terminal;
            var s' := Finish(Put(s, t, chunk), w, outcome);
            && OnlyMoves(s, s', w) && s'.workers[w].pc == Done(outcome) && Grows(s, s')
            && Out(s', t) == Out(s, t) + [chunk] && s'.consumed == s.consumed
            && s'.pending == s.pending && s'.sent == s.sent
  {
    var t := s.workers[w].prompt.terminal;
    PutGrows(s, t, chunk);
    FinishMoves(Put(s, t, chunk), w, outcome);
  }

  lemma PasteMoves(s: Daemon, w: Thread, wrote: string, ok: bool)
    requires Enabled(s, WritePaste(w, wrote, ok)) && WritingTrue(s, s.workers[w])
    ensures var s' := DoPaste(s, w, wrote, ok);
            Moves(s, s', WritePaste(w, wrote, ok), w) && Grows(s, s') && s'.pending == s.pending && s'.sent == s.sent
  {
    var x := s.workers[w];
    if !ok {
      PutFinishMoves(s, w, Paste(x.prompt.context, wrote), WriteFailed);
      MovesOut(s, DoPaste(s, w, wrote, ok), WritePaste(w, wrote, ok), w);
    } else {
      WholePasteMoves(s, w);
    }
  }

  lemma WholePasteMoves(s: Daemon, w: Thread)
    requires w in s.workers && s.workers[w].pc.Pasting? && WritingTrue(s, s.workers[w])
    ensures var wrote := Body(s.workers[w]);
            var s' := DoPaste(s, w, wrote, true);
            Moves(s, s', WritePaste(w, wrote, true), w) && Grows(s, s') && s'.pending == s.pending && s'.sent == s.sent
  {
    var x := s.workers[w];
    var wrote := Body(x);
    var chunk, s' := Paste(x.prompt.context, wrote), DoPaste(s, w, wrote, true);
    if x.pc.submitted {
      PutGrows(s, x.prompt.terminal, chunk);
      MoveMoves(Put(s, x.prompt.terminal, chunk), w, Submitting);
      MovesOn(s, s', WritePaste(w, wrote, true), w);
    } else {
      PutFinishMoves(s, w, chunk, Delivered(false));
      PasteIsWritten(s, s', x);
      MovesOut(s, s', WritePaste(w, wrote, true), w);
    }
  }

  lemma PasteIsWritten(s: Daemon, s': Daemon, x: Worker)
    requires x.pc.Pasting? && !x.pc.submitted && WritingTrue(s, x) && s'.consumed == s.consumed
    requires Out(s', x.prompt.terminal) == Out(s, x.prompt.terminal) + [Paste(x.prompt.context, Body(x))]
    ensures Written(s', x, false)
  {
    assert WrittenAt(Out(s', x.prompt.terminal), |Out(s, x.prompt.terminal)|, x.prompt.context, Body(x), false);
  }

  lemma ReturnIsWritten(s: Daemon, s': Daemon, x: Worker)
    requires x.pc.Submitting? && WritingTrue(s, x) && s'.consumed == s.consumed
    requires Out(s', x.prompt.terminal) == Out(s, x.prompt.terminal) + [Return(x.prompt.context)]
    ensures Written(s', x, true)
  {
    assert WrittenAt(Out(s', x.prompt.terminal), |Out(s, x.prompt.terminal)| - 1, x.prompt.context,
                     Rendered(x.prompt.text, s.consumed[x.prompt.context].bracketed), true);
  }

  lemma ReturnMoves(s: Daemon, w: Thread, reached: bool, ok: bool)
    requires Enabled(s, WriteReturn(w, reached, ok)) && WritingTrue(s, s.workers[w])
    ensures var s' := DoReturn(s, w, reached, ok);
            Moves(s, s', WriteReturn(w, reached, ok), w) && Grows(s, s') && s'.pending == s.pending && s'.sent == s.sent
  {
    var x := s.workers[w];
    var outcome := if ok then Delivered(true) else WriteFailed;
    if reached {
      PutFinishMoves(s, w, Return(x.prompt.context), outcome);
      if ok { ReturnIsWritten(s, DoReturn(s, w, reached, ok), x); }
    } else {
      FinishMoves(s, w, outcome);
    }
    MovesOut(s, DoReturn(s, w, reached, ok), WriteReturn(w, reached, ok), w);
  }

  // ---- Every step ----

  /** The step is of a delivery already under way. */
  predicate WorkerStep(step: Step) {
    !SessionStep(step) && !step.UserInput? && !step.Send? && !step.StartDrain?
  }

  /** What a delivery needs known of it for its next step. */
  ghost predicate Ready(s: Daemon, x: Worker) {
    && WritingTrue(s, x) && PolicyKnown(x)
    && (x.pc.Deciding? && CheckTarget(s, x).None? ==> x.prompt.context !in s.consumed)
  }

  lemma LockMoves(s: Daemon, step: Step)
    requires Enabled(s, step) && (step.LockGate? || step.LockWriter?)
    ensures var s' := Next(s, step);
            Moves(s, s', step, step.w) && SameHistory(s, s') && s'.pending == s.pending
  {
    var s' := Next(s, step);
    assert OnlyMoves(s, s', step.w);
    MovesOn(s, s', step, step.w);
  }

  lemma WorkerStepMoves(s: Daemon, step: Step)
    requires Enabled(s, step) && WorkerStep(step) && Ready(s, s.workers[step.w])
    ensures var s' := Next(s, step);
            Moves(s, s', step, step.w) && Grows(s, s') && s'.sent == s.sent
  {
    match step
    case Enter(w) => EnterMoves(s, w);
    case LockGate(w) => LockMoves(s, step);
    case Inspect(w) => InspectMoves(s, w);
    case Record(w, ok) => RecordMoves(s, w, ok);
    case Enqueue(w) => EnqueueMoves(s, w);
    case _ => WriterStepMoves(s, step);
  }

  lemma WriterStepMoves(s: Daemon, step: Step)
    requires Enabled(s, step) && WriterStep(step) && Ready(s, s.workers[step.w])
    ensures var s' := Next(s, step);
            Moves(s, s', step, step.w) && Grows(s, s') && s'.sent == s.sent
  {
    match step
    case LockWriter(w) => LockMoves(s, step);
    case Decide(w, bracketed) => DecideMoves(s, w, bracketed);
    case WritePaste(w, wrote, ok) => PasteMoves(s, w, wrote, ok);
    case WriteReturn(w, reached, ok) => ReturnMoves(s, w, reached, ok);
  }

  /** Deliveries under way stay where they are, new ones are at their start. */
  ghost predicate Leaves(s: Daemon, s': Daemon) {
    && (forall v :: v in s.workers ==> v in s'.workers && s'.workers[v] == s.workers[v])
    && (forall v :: v in s'.workers && v !in s.workers ==> s'.workers[v].pc == Entering)
  }

  /** Any other step leaves the deliveries under way alone. */
  lemma OtherStepLeaves(s: Daemon, step: Step)
    requires Enabled(s, step) && !WorkerStep(step)
    ensures Grows(s, Next(s, step)) && Leaves(s, Next(s, step)) && (!step.Send? ==> Next(s, step).sent == s.sent)
  {
    if step.UserInput? { PutGrows(s, step.t, Keys(step.keys)); }
  }

  /** What is known of a delivery at rest: its policy, and that what it reports
      delivered is written. */
  ghost predicate Told(s: Daemon, x: Worker) {
    PolicyKnown(x) && (x.pc.Done? && x.pc.outcome.Delivered? ==> Written(s, x, x.pc.outcome.submitted))
  }

  lemma WrittenStays(s: Daemon, s': Daemon, x: Worker, submitted: bool)
    requires Written(s, x, submitted) && Grows(s, s')
    ensures Written(s', x, submitted)
  {
    var p := x.prompt;
    var text := Rendered(p.text, s.consumed[p.context].bracketed);
    var i :| WrittenAt(Out(s, p.terminal), i, p.context, text, submitted);
    assert Out(s, p.terminal) <= Out(s', p.terminal);
    assert WrittenAt(Out(s', p.terminal), i, p.context, text, submitted);
  }

  lemma ToldStays(s: Daemon, s': Daemon, x: Worker)
    requires Told(s, x) && Grows(s, s')
    ensures Told(s', x)
  {
    if x.pc.Done? && x.pc.outcome.Delivered? { WrittenStays(s, s', x, x.pc.outcome.submitted); }
  }

  lemma MovedIsTold(s: Daemon, s': Daemon, step: Step, w: Thread)
    requires Moves(s, s', step, w) && Told(s, s.workers[w])
    ensures Told(s', s'.workers[w])
  {
    var x, y := s.workers[w], s'.workers[w];
    if y.pc.Done? && y.pc.outcome.Delivered? {
      assert Reason(s, s', step, x, y.pc.outcome);
      assert y.prompt == x.prompt;
    }
  }

  lemma IsReady(s: Daemon, w: Thread)
    requires Invariant(s) && w in s.workers && PolicyKnown(s.workers[w])
    ensures Ready(s, s.workers[w])
  {
    var x := s.workers[w];
    assert WorkerTrue(s, w, x);
    if x.pc.Deciding? && CheckTarget(s, x).None? { PassedCheck(s, w); }
  }
}

/** Prompt delivery: requests and queue drains racing for one session's slot,
    its gate and its terminal's writer, in steps no longer than one hold of the
    core lock. */
module Prompts {
  import opened Options
  import opened PromptText

  type SessionId = nat
  type TerminalId = nat
  type ContextId = nat
  type Thread = nat
  type Gate = nat

  datatype Session = Session(agent: bool, active: bool, terminal: Option<TerminalId>, idle: bool)

  datatype Prompt = Prompt(text: string, submit: bool, terminal: TerminalId, context: ContextId)

  datatype When = Now | IfIdle | Queue | OtherPolicy

  datatype Origin = Request(caller: Option<SessionId>) | Drain

  datatype Refusal =
    | NoSession | NotLiveAgent | NoTerminal | EndedTerminal | NotIdle | Conflict | AlreadyConsumed
    | NoCaller | NoRuntime | NotRecorded | UnknownPolicy

  datatype Outcome = Refused(why: Refusal) | Queued | Delivered(submitted: bool) | WriteFailed

  /** Where a `deliver` stands, named by what it does next. From `Inspecting`
      on it holds its gate, from `Deciding` on its terminal's writer too. */
  datatype Pc =
    | Entering
    | AwaitingGate
    | Inspecting
    | Recording
    | Enqueueing
    | AwaitingWriter
    | Deciding
    | Pasting(submitted: bool, bracketed: bool)
    | Submitting
    | Done(outcome: Outcome)

  datatype Worker = Worker(sid: SessionId, prompt: Prompt, when: When, origin: Origin, gate: Gate, pc: Pc)

  /** What a terminal's writer was given. */
  datatype Chunk = Paste(context: ContextId, text: string) | Return(context: ContextId) | Keys(text: string)

  /** An accepted request: its target, its prompt and the thread that brought it. */
  datatype Sent = Sent(sid: SessionId, prompt: Prompt, sender: Thread)

  /** What the critical section that took a prompt out saw. */
  datatype Consumed = Consumed(idle: bool, bracketed: bool)

  /** `sent` and `consumed` are history: every accepted request, and every
      prompt taken for writing. */
  datatype Daemon = Daemon(
    sessions: map<SessionId, Session>,
    runtimes: set<TerminalId>,
    launched: set<TerminalId>,
    pending: map<SessionId, Prompt>,
    gates: map<SessionId, Gate>,
    nextGate: Gate,
    gateHeld: map<Gate, Thread>,
    writerHeld: map<TerminalId, Thread>,
    out: map<TerminalId, seq<Chunk>>,
    workers: map<Thread, Worker>,
    nextContext: ContextId,
    sent: map<ContextId, Sent>,
    consumed: map<ContextId, Consumed>)

  const IDLE_DAEMON: Daemon :=
    Daemon(map[], {}, {}, map[], map[], 0, map[], map[], map[], map[], 0, map[], map[])

  predicate SessionIdle(s: Daemon, sid: SessionId) {
    sid in s.sessions && s.sessions[sid].idle
  }

  /** `check_target`: the first reason to refuse, if any. */
  function CheckTarget(s: Daemon, w: Worker): Option<Refusal> {
    if w.sid !in s.sessions then Some(NoSession)
    else
      var session := s.sessions[w.sid];
      if !session.agent || !session.active then Some(NotLiveAgent)
      else if session.terminal.None? then Some(NoTerminal)
      else if session.terminal.value != w.prompt.terminal then Some(EndedTerminal)
      else if !session.idle && w.when.IfIdle? then Some(NotIdle)
      else if w.sid in s.pending then
        if w.origin.Request? || s.pending[w.sid].context != w.prompt.context then Some(Conflict) else None
      else if !w.origin.Request? then Some(AlreadyConsumed)
      else None
  }

  datatype Step =
    | AddSession(sid: SessionId, agent: bool)
    | Launch(sid: SessionId, t: TerminalId)
    | Restart(sid: SessionId)
    | End(sid: SessionId)
    | Remove(sid: SessionId)
    | Reap(t: TerminalId)
    | Activity(sid: SessionId, idle: bool)
    | UserInput(t: TerminalId, keys: string)
    | Send(w: Thread, sid: SessionId, raw: string, submit: bool, when: When, caller: Option<SessionId>)
    | StartDrain(w: Thread, sid: SessionId)
    | Enter(w: Thread)
    | LockGate(w: Thread)
    | Inspect(w: Thread)
    | Record(w: Thread, ok: bool)
    | Enqueue(w: Thread)
    | LockWriter(w: Thread)
    | Decide(w: Thread, bracketed: bool)
    | WritePaste(w: Thread, wrote: string, ok: bool)
    | WriteReturn(w: Thread, reached: bool, ok: bool)

  predicate At(s: Daemon, w: Thread, pc: Pc) {
    w in s.workers && s.workers[w].pc == pc
  }

  /** What `Pasting` writes in full. */
  function Body(w: Worker): string
    requires w.pc.Pasting?
  {
    Rendered(w.prompt.text, w.pc.bracketed)
  }

  predicate Enabled(s: Daemon, step: Step) {
    match step
    case AddSession(sid, _) => sid !in s.sessions
    case Launch(sid, t) => sid in s.sessions && s.sessions[sid].active && t !in s.launched
    case Restart(sid) => sid in s.sessions
    case End(sid) => sid in s.sessions
    case Remove(sid) => sid in s.sessions
    case Reap(t) => true
    case Activity(sid, _) => sid in s.sessions
    case UserInput(t, _) => t in s.runtimes && t !in s.writerHeld
    case Send(w, sid, raw, _, _, _) =>
      w !in s.workers && CleanText(raw).Some? && sid in s.sessions && s.sessions[sid].terminal.Some?
    case StartDrain(w, sid) => w !in s.workers && SessionIdle(s, sid) && sid in s.pending
    case Enter(w) => At(s, w, Entering)
    case LockGate(w) => At(s, w, AwaitingGate) && s.workers[w].gate !in s.gateHeld
    case Inspect(w) => At(s, w, Inspecting)
    case Record(w, _) => At(s, w, Recording)
    case Enqueue(w) => At(s, w, Enqueueing)
    case LockWriter(w) => At(s, w, AwaitingWriter) && s.workers[w].prompt.terminal !in s.writerHeld
    case Decide(w, _) => At(s, w, Deciding)
    case WritePaste(w, wrote, ok) =>
      && w in s.workers && s.workers[w].pc.Pasting?
      && wrote <= Body(s.workers[w]) && (ok ==> wrote == Body(s.workers[w]))
    case WriteReturn(w, reached, ok) => At(s, w, Submitting) && (ok ==> reached)
  }

  function Move(s: Daemon, w: Thread, pc: Pc): Daemon
    requires w in s.workers
  {
    s.(workers := s.workers[w := s.workers[w].(pc := pc)])
  }

  /** The worker returns and drops the guards it holds. */
  function Finish(s: Daemon, w: Thread, outcome: Outcome): Daemon
    requires w in s.workers
  {
    var x := s.workers[w];
    Move(s.(gateHeld := if HoldsGate(x.pc) then s.gateHeld - {x.gate} else s.gateHeld,
            writerHeld := if HoldsWriter(x.pc) then s.writerHeld - {x.prompt.terminal} else s.writerHeld),
         w, Done(outcome))
  }

  predicate HoldsGate(pc: Pc) {
    !pc.Entering? && !pc.AwaitingGate? && !pc.Done?
  }

  predicate HoldsWriter(pc: Pc) {
    pc.Deciding? || pc.Pasting? || pc.Submitting?
  }

  function Out(s: Daemon, t: TerminalId): seq<Chunk> {
    if t in s.out then s.out[t] else []
  }

  function Put(s: Daemon, t: TerminalId, chunk: Chunk): Daemon {
    s.(out := s.out[t := Out(s, t) + [chunk]])
  }

  function Lower(s: Daemon, sid: SessionId): Daemon {
    if sid in s.sessions then s.(sessions := s.sessions[sid := s.sessions[sid].(idle := false)]) else s
  }

  function Enqueued(s: Daemon, w: Thread): Daemon
    requires w in s.workers
  {
    Finish(s.(pending := s.pending[s.workers[w].sid := s.workers[w].prompt]), w, Queued)
  }

  function DoEnter(s: Daemon, w: Thread): Daemon
    requires w in s.workers
  {
    var x := s.workers[w];
    var refusal := CheckTarget(s, x);
    if x.when.OtherPolicy? then Finish(s, w, Refused(UnknownPolicy))
    else if refusal.Some? then Finish(s, w, Refused(refusal.value))
    else if x.sid in s.gates then
      s.(workers := s.workers[w := x.(gate := s.gates[x.sid], pc := AwaitingGate)])
    else
      s.(gates := s.gates[x.sid := s.nextGate], nextGate := s.nextGate + 1,
         workers := s.workers[w := x.(gate := s.nextGate, pc := AwaitingGate)])
  }

  function AfterRecord(w: Worker): Pc {
    if w.when.Queue? then Enqueueing else AwaitingWriter
  }

  function DoInspect(s: Daemon, w: Thread): Daemon
    requires w in s.workers
  {
    var x := s.workers[w];
    var refusal := CheckTarget(s, x);
    if x.origin.Request? && x.origin.caller.Some? && x.origin.caller.value !in s.sessions
      then Finish(s, w, Refused(NoCaller))
    else if refusal.Some? then Finish(s, w, Refused(refusal.value))
    else if x.prompt.terminal !in s.runtimes then Finish(s, w, Refused(NoRuntime))
    else Move(s, w, if x.origin.Request? then Recording else AfterRecord(x))
  }

  function DoEnqueue(s: Daemon, w: Thread): Daemon
    requires w in s.workers
  {
    var x := s.workers[w];
    var refusal := CheckTarget(s, x);
    if refusal.Some? then Finish(s, w, Refused(refusal.value))
    else if !SessionIdle(s, x.sid) then Enqueued(s, w)
    else Move(s, w, AwaitingWriter)
  }

  function DoDecide(s: Daemon, w: Thread, bracketed: bool): Daemon
    requires w in s.workers
  {
    var x := s.workers[w];
    var refusal := CheckTarget(s, x);
    var idle := SessionIdle(s, x.sid);
    if refusal.Some? then Finish(s, w, Refused(refusal.value))
    else if !idle && x.when.Queue? then Enqueued(s, w)
    else if x.prompt.terminal !in s.runtimes then Finish(s, w, Refused(NoRuntime))
    else
      Move(Lower(s.(pending := s.pending - {x.sid},
                    consumed := s.consumed[x.prompt.context := Consumed(idle, bracketed)]), x.sid),
           w, Pasting(x.prompt.submit && idle, bracketed))
  }

  function DoPaste(s: Daemon, w: Thread, wrote: string, ok: bool): Daemon
    requires w in s.workers && s.workers[w].pc.Pasting?
  {
    var x := s.workers[w];
    var s' := Put(s, x.prompt.terminal, Paste(x.prompt.context, wrote));
    if !ok then Finish(s', w, WriteFailed)
    else if x.pc.submitted then Move(s', w, Submitting)
    else Finish(s', w, Delivered(false))
  }

  function DoReturn(s: Daemon, w: Thread, reached: bool, ok: bool): Daemon
    requires w in s.workers
  {
    var x := s.workers[w];
    var s' := if reached then Put(s, x.prompt.terminal, Return(x.prompt.context)) else s;
    Finish(s', w, if ok then Delivered(true) else WriteFailed)
  }

  function Forget(s: Daemon, sid: SessionId): Daemon {
    s.(pending := s.pending - {sid}, gates := s.gates - {sid})
  }

  function Next(s: Daemon, step: Step): (s': Daemon)
    requires Enabled(s, step)
  {
    match step
    case AddSession(sid, agent) => s.(sessions := s.sessions[sid := Session(agent, true, None, false)])
    case Launch(sid, t) =>
      s.(sessions := s.sessions[sid := s.sessions[sid].(terminal := Some(t))],
         runtimes := s.runtimes + {t}, launched := s.launched + {t})
    case Restart(sid) =>
      Forget(s.(sessions := s.sessions[sid := s.sessions[sid].(active := true, terminal := None, idle := false)]), sid)
    case End(sid) =>
      Forget(s.(sessions := s.sessions[sid := s.sessions[sid].(active := false, terminal := None)]), sid)
    case Remove(sid) => Forget(s.(sessions := s.sessions - {sid}), sid)
    case Reap(t) => s.(runtimes := s.runtimes - {t})
    case Activity(sid, idle) => s.(sessions := s.sessions[sid := s.sessions[sid].(idle := idle)])
    case UserInput(t, keys) => Put(s, t, Keys(keys))
    case Send(w, sid, raw, submit, when, caller) =>
      var prompt := Prompt(CleanText(raw).value, submit, s.sessions[sid].terminal.value, s.nextContext);
      s.(nextContext := s.nextContext + 1, sent := s.sent[s.nextContext := Sent(sid, prompt, w)],
         workers := s.workers[w := Worker(sid, prompt, when, Request(caller), 0, Entering)])
    case StartDrain(w, sid) =>
      s.(workers := s.workers[w := Worker(sid, s.pending[sid], Queue, Drain, 0, Entering)])
    case Enter(w) => DoEnter(s, w)
    case LockGate(w) => Move(s.(gateHeld := s.gateHeld[s.workers[w].gate := w]), w, Inspecting)
    case Inspect(w) => DoInspect(s, w)
    case Record(w, ok) =>
      if ok then Move(s, w, AfterRecord(s.workers[w])) else Finish(s, w, Refused(NotRecorded))
    case Enqueue(w) => DoEnqueue(s, w)
    case LockWriter(w) =>
      Move(s.(writerHeld := s.writerHeld[s.workers[w].prompt.terminal := w]), w, Deciding)
    case Decide(w, bracketed) => DoDecide(s, w, bracketed)
    case WritePaste(w, wrote, ok) => DoPaste(s, w, wrote, ok)
    case WriteReturn(w, reached, ok) => DoReturn(s, w, reached, ok)
  }

  ghost predicate IsRun(run: seq<Daemon>, steps: seq<Step>) {
    && |run| == |steps| + 1
    && run[0] == IDLE_DAEMON
    && forall i {:trigger steps[i]} :: 0 <= i < |steps| ==> Enabled(run[i], steps[i]) && run[i + 1] == Next(run[i], steps[i])
  }
}

/** What every step of prompt delivery keeps.

    Each accepted prompt is known by its context. Until it is taken for writing
    it is in one place only: with the request that brought it, or in its
    session's slot. A worker past the gate finds the slot as it left it while
    its target lives; a worker past the writer lock is the only one to write to
    its terminal, so a carriage return can only follow the paste it belongs to.
    What was written is checked chunk by chunk against what was accepted and
    what the section that consumed the prompt saw. */
module PromptSafety {
  import opened Options
  import opened PromptText
  import opened Prompts

  /** The session still runs in the terminal the prompt was accepted for. */
  predicate LiveTarget(s: Daemon, x: Worker) {
    Runs(s, x.sid, x.prompt.terminal)
  }

  predicate Runs(s: Daemon, sid: SessionId, t: TerminalId) {
    sid in s.sessions && s.sessions[sid].active && s.sessions[sid].terminal == Some(t)
  }

  predicate Unspent(pc: Pc) {
    !pc.Pasting? && !pc.Submitting? && !pc.Done?
  }

  /** Past the check under the gate and not yet decided. */
  predicate Accepted(pc: Pc) {
    pc.Recording? || pc.Enqueueing? || pc.AwaitingWriter? || pc.Deciding?
  }

  ghost predicate Known(s: Daemon, sid: SessionId, p: Prompt) {
    p.context in s.sent && s.sent[p.context].sid == sid && s.sent[p.context].prompt == p
  }

  ghost predicate SentTrue(s: Daemon) {
    && (forall k :: k in s.sent ==> k < s.nextContext && s.sent[k].prompt.context == k
                                    && s.sent[k].prompt.terminal in s.launched && Clean(s.sent[k].prompt.text))
    && (forall k :: k in s.consumed ==> k in s.sent)
    && (forall sid :: sid in s.sessions && s.sessions[sid].terminal.Some? ==>
          s.sessions[sid].terminal.value in s.launched)
  }

  ghost predicate SlotsTrue(s: Daemon) {
    forall sid :: sid in s.pending ==> Known(s, sid, s.pending[sid]) && s.pending[sid].context !in s.consumed
  }

  // ---- One worker ----

  ghost predicate HoldsLocks(s: Daemon, w: Thread, x: Worker) {
    && (HoldsGate(x.pc) ==> x.gate in s.gateHeld && s.gateHeld[x.gate] == w)
    && (HoldsWriter(x.pc) ==> x.prompt.terminal in s.writerHeld && s.writerHeld[x.prompt.terminal] == w)
  }

  /** A request that has neither queued nor written is the only trace of its prompt. */
  ghost predicate Reserved(s: Daemon, x: Worker) {
    x.origin.Request? && Unspent(x.pc) ==>
      && x.prompt.context !in s.consumed
      && (x.sid in s.pending ==> s.pending[x.sid].context != x.prompt.context)
  }

  ghost predicate WritingTrue(s: Daemon, x: Worker) {
    && (x.pc.Pasting? ==>
          && x.prompt.context in s.consumed
          && x.pc.bracketed == s.consumed[x.prompt.context].bracketed
          && x.pc.submitted == (x.prompt.submit && s.consumed[x.prompt.context].idle)
          && Unpasted(Out(s, x.prompt.terminal), x.prompt.context))
    && (x.pc.Submitting? ==>
          && x.prompt.context in s.consumed
          && x.prompt.submit && s.consumed[x.prompt.context].idle
          && Out(s, x.prompt.terminal) != []
          && Out(s, x.prompt.terminal)[|Out(s, x.prompt.terminal)| - 1] ==
             Paste(x.prompt.context, Rendered(x.prompt.text, s.consumed[x.prompt.context].bracketed)))
  }

  predicate Pastes(chunk: Chunk, context: ContextId) {
    chunk.Paste? && chunk.context == context
  }

  ghost predicate Unpasted(chunks: seq<Chunk>, context: ContextId) {
    forall i :: 0 <= i < |chunks| ==> !Pastes(chunks[i], context)
  }

  /** While its target lives, a worker's gate is the session's gate. */
  ghost predicate GateTrue(s: Daemon, x: Worker) {
    (HoldsGate(x.pc) || x.pc.AwaitingGate?) && LiveTarget(s, x) ==>
      x.sid in s.gates && s.gates[x.sid] == x.gate
  }

  /** While its target lives, the slot is as an accepted worker found it. */
  ghost predicate SlotHeld(s: Daemon, x: Worker) {
    Accepted(x.pc) && LiveTarget(s, x) ==>
      if x.origin.Request? then x.sid !in s.pending else x.sid in s.pending && s.pending[x.sid] == x.prompt
  }

  ghost predicate WorkerTrue(s: Daemon, w: Thread, x: Worker) {
    && Known(s, x.sid, x.prompt)
    && (x.origin.Request? ==> s.sent[x.prompt.context].sender == w)
    && HoldsLocks(s, w, x)
    && Reserved(s, x)
    && WritingTrue(s, x)
    && GateTrue(s, x)
    && SlotHeld(s, x)
  }

  ghost predicate WorkersTrue(s: Daemon) {
    forall w :: w in s.workers ==> WorkerTrue(s, w, s.workers[w])
  }

  // ---- One terminal's input ----

  ghost predicate ChunkTrue(s: Daemon, t: TerminalId, i: nat)
    requires i < |Out(s, t)|
  {
    var chunk := Out(s, t)[i];
    && (chunk.Paste? ==>
          && chunk.context in s.consumed && chunk.context in s.sent
          && s.sent[chunk.context].prompt.terminal == t
          && chunk.text <= Rendered(s.sent[chunk.context].prompt.text, s.consumed[chunk.context].bracketed))
    && (chunk.Return? ==>
          && chunk.context in s.consumed && chunk.context in s.sent
          && s.consumed[chunk.context].idle && s.sent[chunk.context].prompt.submit
          && i > 0
          && Out(s, t)[i - 1] ==
             Paste(chunk.context, Rendered(s.sent[chunk.context].prompt.text, s.consumed[chunk.context].bracketed)))
  }

  ghost predicate PastedOnce(chunks: seq<Chunk>) {
    forall i, j :: 0 <= i < j < |chunks| && chunks[i].Paste? ==> !Pastes(chunks[j], chunks[i].context)
  }

  ghost predicate OutTrue(s: Daemon) {
    forall t :: TerminalTrue(s, t)
  }

  ghost predicate TerminalTrue(s: Daemon, t: TerminalId) {
    && (forall i :: 0 <= i < |Out(s, t)| ==> ChunkTrue(s, t, i))
    && PastedOnce(Out(s, t))
  }

  ghost predicate Invariant(s: Daemon) {
    SentTrue(s) && SlotsTrue(s) && WorkersTrue(s) && OutTrue(s)
  }

  // ---- Steps around the workers ----

  /** The slot and the gate of a session are as they were. */
  ghost predicate SameAt(s: Daemon, s': Daemon, sid: SessionId) {
    && (sid in s'.pending <==> sid in s.pending) && (sid in s.pending ==> s'.pending[sid] == s.pending[sid])
    && (sid in s'.gates <==> sid in s.gates) && (sid in s.gates ==> s'.gates[sid] == s.gates[sid])
  }

  /** Sessions come, go and change terminal; slots and gates are dropped only
      with the target they belong to, and no terminal is launched twice. */
  ghost predicate Around(s: Daemon, s': Daemon) {
    && s' == s.(sessions := s'.sessions, runtimes := s'.runtimes, launched := s'.launched,
                pending := s'.pending, gates := s'.gates)
    && s.launched <= s'.launched
    && (forall sid :: sid in s'.sessions && s'.sessions[sid].terminal.Some? ==>
          s'.sessions[sid].terminal.value in s'.launched)
    && (forall sid :: sid in s'.pending ==> sid in s.pending && s'.pending[sid] == s.pending[sid])
    && (forall sid, t {:trigger Runs(s', sid, t)} ::
          Runs(s', sid, t) && t in s.launched ==> Runs(s, sid, t) && SameAt(s, s', sid))
  }

  lemma AroundKeepsWorker(s: Daemon, s': Daemon, w: Thread, x: Worker)
    requires SentTrue(s) && Around(s, s') && WorkerTrue(s, w, x)
    ensures WorkerTrue(s', w, x)
  {
    assert LiveTarget(s', x) ==> Runs(s', x.sid, x.prompt.terminal);
    assert Out(s', x.prompt.terminal) == Out(s, x.prompt.terminal);
  }

  lemma AroundKeeps(s: Daemon, s': Daemon)
    requires Invariant(s) && Around(s, s')
    ensures Invariant(s')
  {
    forall w | w in s'.workers ensures WorkerTrue(s', w, s'.workers[w]) {
      AroundKeepsWorker(s, s', w, s.workers[w]);
    }
    forall t ensures TerminalTrue(s', t) { assert TerminalTrue(s, t); OutUnchanged(s, s', t); }
  }

  lemma SessionAround(s: Daemon, sid: SessionId, session: Session, forget: bool)
    requires SentTrue(s)
    requires session.terminal.None? || (!forget && sid in s.sessions && session.terminal == s.sessions[sid].terminal
                                        && session.active == s.sessions[sid].active)
    ensures var s' := s.(sessions := s.sessions[sid := session]);
            Around(s, if forget then Forget(s', sid) else s')
  {
  }

  lemma LaunchAround(s: Daemon, sid: SessionId, t: TerminalId)
    requires SentTrue(s) && Enabled(s, Launch(sid, t))
    ensures Around(s, Next(s, Launch(sid, t)))
  {
  }

  lemma SessionStepKeeps(s: Daemon, step: Step)
    requires Invariant(s) && Enabled(s, step) && SessionStep(step)
    ensures Invariant(Next(s, step))
  {
    match step {
    case AddSession(sid, agent) => SessionAround(s, sid, Session(agent, true, None, false), false);
    case Launch(sid, t) => LaunchAround(s, sid, t);
    case Restart(sid) => SessionAround(s, sid, s.sessions[sid].(active := true, terminal := None, idle := false), true);
    case End(sid) => SessionAround(s, sid, s.sessions[sid].(active := false, terminal := None), true);
    case Remove(sid) => assert Around(s, Forget(s.(sessions := s.sessions - {sid}), sid));
    case Reap(t) => assert Around(s, s.(runtimes := s.runtimes - {t}));
    case Activity(sid, idle) => SessionAround(s, sid, s.sessions[sid].(idle := idle), false);
    }
    AroundKeeps(s, Next(s, step));
  }

  lemma OutUnchanged(s: Daemon, s': Daemon, t: TerminalId)
    requires TerminalTrue(s, t) && Out(s', t) == Out(s, t)
    requires forall k :: k in s.sent ==> k in s'.sent && s'.sent[k] == s.sent[k]
    requires forall k :: k in s.consumed ==> k in s'.consumed && s'.consumed[k] == s.consumed[k]
    ensures TerminalTrue(s', t)
  {
    forall i | 0 <= i < |Out(s', t)| ensures ChunkTrue(s', t, i) {
      assert ChunkTrue(s, t, i);
    }
  }

  lemma UserInputKeeps(s: Daemon, t: TerminalId, keys: string)
    requires Invariant(s) && Enabled(s, UserInput(t, keys))
    ensures Invariant(Next(s, UserInput(t, keys)))
  {
    var s' := Put(s, t, Keys(keys));
    forall w | w in s'.workers ensures WorkerTrue(s', w, s'.workers[w]) {
      assert WorkerTrue(s, w, s.workers[w]);
      UserInputKeepsWorker(s, t, keys, w, s.workers[w]);
    }
    AppendKeeps(s, s', t, Keys(keys));
  }

  /** A worker in the middle of writing holds its writer, so no keys come
      between its paste and its carriage return. */
  lemma UserInputKeepsWorker(s: Daemon, t: TerminalId, keys: string, w: Thread, x: Worker)
    requires WorkerTrue(s, w, x) && t !in s.writerHeld
    ensures WorkerTrue(Put(s, t, Keys(keys)), w, x)
  {
    var s' := Put(s, t, Keys(keys));
    assert LiveTarget(s', x) <==> LiveTarget(s, x);
    if HoldsWriter(x.pc) { assert Out(s', x.prompt.terminal) == Out(s, x.prompt.terminal); }
  }

  /** One more chunk on `t`: it has to be true where it lands, and no paste of
      an already pasted prompt. */
  lemma AppendKeeps(s: Daemon, s': Daemon, t: TerminalId, chunk: Chunk)
    requires OutTrue(s) && s'.out == s.out[t := Out(s, t) + [chunk]]
    requires s'.sent == s.sent && s'.consumed == s.consumed
    requires ChunkTrue(s', t, |Out(s, t)|)
    requires chunk.Paste? ==> Unpasted(Out(s, t), chunk.context)
    ensures OutTrue(s')
  {
    forall u ensures TerminalTrue(s', u) {
      assert TerminalTrue(s, u);
      if u != t {
        OutUnchanged(s, s', u);
      } else {
        forall i | 0 <= i < |Out(s, t)| ensures ChunkTrue(s', t, i) {
          assert ChunkTrue(s, t, i);
        }
      }
    }
  }

  /** Nothing a worker relies on changed. */
  ghost predicate SameFor(s: Daemon, s': Daemon, v: Thread, x: Worker) {
    && s'.sessions == s.sessions && SameAt(s, s', x.sid)
    && Known(s', x.sid, x.prompt) && HoldsLocks(s', v, x)
    && (x.prompt.context in s.sent ==> s'.sent[x.prompt.context] == s.sent[x.prompt.context])
    && (x.prompt.context in s'.consumed <==> x.prompt.context in s.consumed)
    && (x.prompt.context in s.consumed ==> s'.consumed[x.prompt.context] == s.consumed[x.prompt.context])
    && Out(s', x.prompt.terminal) == Out(s, x.prompt.terminal)
  }

  lemma SameForKeeps(s: Daemon, s': Daemon, v: Thread, x: Worker)
    requires WorkerTrue(s, v, x) && SameFor(s, s', v, x)
    ensures WorkerTrue(s', v, x)
  {
    assert LiveTarget(s', x) <==> LiveTarget(s, x);
  }

  function Accept(s: Daemon, w: Thread, x: Worker): Daemon {
    s.(nextContext := s.nextContext + 1, sent := s.sent[s.nextContext := Sent(x.sid, x.prompt, w)],
       workers := s.workers[w := x])
  }

  lemma SendKeepsWorkers(s: Daemon, w: Thread, x: Worker)
    requires SentTrue(s) && SlotsTrue(s) && WorkersTrue(s)
    requires w !in s.workers && x.pc.Entering? && x.prompt.context == s.nextContext
    ensures WorkersTrue(Accept(s, w, x))
  {
    var s' := Accept(s, w, x);
    forall v | v in s.workers ensures WorkerTrue(s', v, s.workers[v]) {
      assert WorkerTrue(s, v, s.workers[v]);
      SendKeepsOther(s, w, x, v, s.workers[v]);
    }
    NewWorkerTrue(s, w, x);
  }

  lemma SendKeepsOther(s: Daemon, w: Thread, x: Worker, v: Thread, y: Worker)
    requires SentTrue(s) && WorkerTrue(s, v, y) && x.prompt.context == s.nextContext
    ensures WorkerTrue(Accept(s, w, x), v, y)
  {
    SameForKeeps(s, Accept(s, w, x), v, y);
  }

  lemma NewWorkerTrue(s: Daemon, w: Thread, x: Worker)
    requires SentTrue(s) && SlotsTrue(s) && x.pc.Entering? && x.prompt.context == s.nextContext
    ensures WorkerTrue(Accept(s, w, x), w, x)
  {
    assert x.prompt.context !in s.consumed;
    assert x.sid in s.pending ==> Known(s, x.sid, s.pending[x.sid]);
  }

  lemma SendKeeps(s: Daemon, w: Thread, x: Worker)
    requires Invariant(s) && w !in s.workers && x.pc.Entering? && x.origin.Request?
    requires x.prompt.context == s.nextContext && Clean(x.prompt.text) && x.prompt.terminal in s.launched
    ensures Invariant(Accept(s, w, x))
  {
    var s' := Accept(s, w, x);
    SendKeepsWorkers(s, w, x);
    assert SlotsTrue(s');
    forall t ensures TerminalTrue(s', t) { assert TerminalTrue(s, t); OutUnchanged(s, s', t); }
  }

  lemma StartDrainKeeps(s: Daemon, step: Step)
    requires Invariant(s) && Enabled(s, step) && step.StartDrain?
    ensures Invariant(Next(s, step))
  {
    var s' := Next(s, step);
    forall w | w in s'.workers ensures WorkerTrue(s', w, s'.workers[w]) {
      assert w != step.w ==> WorkerTrue(s, w, s.workers[w]);
    }
    forall t ensures TerminalTrue(s', t) { assert TerminalTrue(s, t); OutUnchanged(s, s', t); }
  }

  // ---- Steps of a worker ----

  /** What is left to show when worker `w` moves and output stays. */
  lemma QuietStep(s: Daemon, s': Daemon, w: Thread, x: Worker)
    requires Invariant(s) && w in s.workers
    requires s'.workers == s.workers[w := x] && s'.out == s.out && s'.sent == s.sent
    requires s'.launched == s.launched && s'.nextContext == s.nextContext
    requires forall k :: k in s.consumed ==> k in s'.consumed && s'.consumed[k] == s.consumed[k]
    requires x.prompt == s.workers[w].prompt && x.origin == s.workers[w].origin
    requires SentTrue(s') && SlotsTrue(s') && WorkerTrue(s', w, x)
    requires forall v :: v in s.workers && v != w ==> WorkerTrue(s', v, s.workers[v])
    ensures Invariant(s')
  {
    forall t ensures TerminalTrue(s', t) { assert TerminalTrue(s, t); OutUnchanged(s, s', t); }
  }

  /** A returned worker's guards are dropped; nobody else's are. */
  lemma ReleaseKeeps(s: Daemon, s': Daemon)
    requires Invariant(s) && s' == s.(gateHeld := s'.gateHeld, writerHeld := s'.writerHeld)
    requires forall v :: v in s.workers ==> HoldsLocks(s, v, s.workers[v]) ==> HoldsLocks(s', v, s.workers[v])
    ensures Invariant(s')
  {
    forall v | v in s'.workers ensures WorkerTrue(s', v, s'.workers[v]) {
      assert WorkerTrue(s, v, s.workers[v]);
      SameForKeeps(s, s', v, s.workers[v]);
    }
    forall t ensures TerminalTrue(s', t) { assert TerminalTrue(s, t); OutUnchanged(s, s', t); }
  }

  lemma DoneKeeps(s: Daemon, w: Thread, outcome: Outcome)
    requires Invariant(s) && w in s.workers
    ensures Invariant(Move(s, w, Done(outcome)))
  {
    var s' := Move(s, w, Done(outcome));
    assert WorkerTrue(s, w, s.workers[w]);
    forall v | v in s.workers && v != w ensures WorkerTrue(s', v, s.workers[v]) {
      assert WorkerTrue(s, v, s.workers[v]);
      SameForKeeps(s, s', v, s.workers[v]);
    }
    QuietStep(s, s', w, s'.workers[w]);
  }

  /** Returning frees this worker's locks and no other's. `x` is the worker as
      it was when it held them. */
  lemma UnlockKeeps(s: Daemon, w: Thread, x: Worker, outcome: Outcome)
    requires w in s.workers && s.workers[w] == x.(pc := Done(outcome)) && HoldsLocks(s, w, x)
    requires Invariant(s)
    ensures Invariant(Finish(s.(workers := s.workers[w := x]), w, outcome))
  {
    var s' := Finish(s.(workers := s.workers[w := x]), w, outcome);
    assert s'.workers == s.workers;
    ReleaseKeeps(s, s');
  }

  lemma FinishKeeps(s: Daemon, w: Thread, outcome: Outcome)
    requires Invariant(s) && w in s.workers
    ensures Invariant(Finish(s, w, outcome))
  {
    var done := Move(s, w, Done(outcome));
    assert WorkerTrue(s, w, s.workers[w]);
    DoneKeeps(s, w, outcome);
    UnlockKeeps(done, w, s.workers[w], outcome);
    assert done.(workers := done.workers[w := s.workers[w]]) == s;
  }

  lemma EnterKeeps(s: Daemon, w: Thread)
    requires Invariant(s) && At(s, w, Entering)
    ensures Invariant(DoEnter(s, w))
  {
    var x := s.workers[w];
    if x.when.OtherPolicy? {
      FinishKeeps(s, w, Refused(UnknownPolicy));
    } else if CheckTarget(s, x).Some? {
      FinishKeeps(s, w, Refused(CheckTarget(s, x).value));
    } else if x.sid in s.gates {
      EnteredKeeps(s, w, DoEnter(s, w), s.gates[x.sid]);
    } else {
      EnteredKeeps(s, w, DoEnter(s, w), s.nextGate);
    }
  }

  lemma EnteredKeeps(s: Daemon, w: Thread, s': Daemon, gate: Gate)
    requires Invariant(s) && At(s, w, Entering)
    requires var sid := s.workers[w].sid;
             && s' == s.(gates := s'.gates, nextGate := s'.nextGate, workers := s'.workers)
             && (s'.gates == s.gates || (sid !in s.gates && s'.gates == s.gates[sid := gate]))
             && sid in s'.gates && s'.gates[sid] == gate
             && s'.workers == s.workers[w := s.workers[w].(gate := gate, pc := AwaitingGate)]
    ensures Invariant(s')
  {
    var x := s.workers[w];
    assert WorkerTrue(s, w, x);
    forall v | v in s.workers && v != w ensures WorkerTrue(s', v, s.workers[v]) {
      assert WorkerTrue(s, v, s.workers[v]);
      assert s'.gates == s.gates || s'.gates - {x.sid} == s.gates;
      GateAdded(s, s', v, s.workers[v], x.sid);
    }
    QuietStep(s, s', w, s'.workers[w]);
  }

  /** A gate made where there was none is nobody's yet. */
  lemma GateAdded(s: Daemon, s': Daemon, v: Thread, y: Worker, sid: SessionId)
    requires WorkerTrue(s, v, y)
    requires s'.gates == s.gates || (sid !in s.gates && sid in s'.gates && s'.gates - {sid} == s.gates)
    requires s' == s.(gates := s'.gates, nextGate := s'.nextGate, workers := s'.workers)
    ensures WorkerTrue(s', v, y)
  {
    assert forall i :: i != sid ==> (i in s'.gates <==> i in s'.gates - {sid});
    assert LiveTarget(s', y) <==> LiveTarget(s, y);
    assert Out(s', y.prompt.terminal) == Out(s, y.prompt.terminal);
    if y.sid in s.gates && y.sid != sid { assert s'.gates[y.sid] == (s'.gates - {sid})[y.sid]; }
  }

  lemma LockKeeps(s: Daemon, s': Daemon, w: Thread, pc: Pc)
    requires Invariant(s) && w in s.workers
    requires s' == Move(s.(gateHeld := s'.gateHeld, writerHeld := s'.writerHeld), w, pc)
    requires forall v :: v in s.workers && v != w && HoldsLocks(s, v, s.workers[v]) ==> HoldsLocks(s', v, s.workers[v])
    requires WorkerTrue(s', w, s.workers[w].(pc := pc))
    ensures Invariant(s')
  {
    forall v | v in s.workers && v != w ensures WorkerTrue(s', v, s.workers[v]) {
      assert WorkerTrue(s, v, s.workers[v]);
      SameForKeeps(s, s', v, s.workers[v]);
    }
    QuietStep(s, s', w, s'.workers[w]);
  }

  lemma LockGateKeeps(s: Daemon, w: Thread)
    requires Invariant(s) && Enabled(s, LockGate(w))
    ensures Invariant(Next(s, LockGate(w)))
  {
    var s' := Move(s.(gateHeld := s.gateHeld[s.workers[w].gate := w]), w, Inspecting);
    assert WorkerTrue(s, w, s.workers[w]);
    LockedKeeps(s, s', w, s.workers[w], Inspecting);
    LockKeeps(s, s', w, Inspecting);
  }

  lemma LockWriterKeeps(s: Daemon, w: Thread)
    requires Invariant(s) && Enabled(s, LockWriter(w))
    ensures Invariant(Next(s, LockWriter(w)))
  {
    var s' := Move(s.(writerHeld := s.writerHeld[s.workers[w].prompt.terminal := w]), w, Deciding);
    assert WorkerTrue(s, w, s.workers[w]);
    LockedKeeps(s, s', w, s.workers[w], Deciding);
    LockKeeps(s, s', w, Deciding);
  }

  lemma LockedKeeps(s: Daemon, s': Daemon, w: Thread, x: Worker, pc: Pc)
    requires WorkerTrue(s, w, x)
    requires s'.sessions == s.sessions && s'.pending == s.pending && s'.gates == s.gates
    requires s'.sent == s.sent && s'.consumed == s.consumed && s'.out == s.out
    requires HoldsLocks(s', w, x.(pc := pc))
    requires (x.pc == AwaitingGate && pc == Inspecting) || (x.pc == AwaitingWriter && pc == Deciding)
    ensures WorkerTrue(s', w, x.(pc := pc))
  {
    var y := x.(pc := pc);
    assert LiveTarget(s', y) <==> LiveTarget(s, x);
  }

  /** A check that passes found a live target and the slot its origin needs. */
  lemma PassedCheck(s: Daemon, w: Thread)
    requires Invariant(s) && w in s.workers && CheckTarget(s, s.workers[w]).None?
    ensures LiveTarget(s, s.workers[w])
    ensures var x := s.workers[w];
            if x.origin.Request? then x.sid !in s.pending else x.sid in s.pending && s.pending[x.sid] == x.prompt
  {
    assert WorkerTrue(s, w, s.workers[w]);
  }

  /** A move from one accepted place to another changes nothing else. */
  lemma AcceptKeeps(s: Daemon, w: Thread, pc: Pc)
    requires Invariant(s) && w in s.workers && HoldsGate(s.workers[w].pc) && Unspent(s.workers[w].pc)
    requires Accepted(pc) && !pc.Deciding?
    requires Accepted(s.workers[w].pc) || CheckTarget(s, s.workers[w]).None?
    ensures Invariant(Move(s, w, pc))
  {
    var s' := Move(s, w, pc);
    var x := s.workers[w];
    assert WorkerTrue(s, w, x);
    if CheckTarget(s, x).None? { PassedCheck(s, w); }
    AcceptOwn(s, s', w, x, pc);
    LockKeeps(s, s', w, pc);
  }

  lemma AcceptOwn(s: Daemon, s': Daemon, w: Thread, x: Worker, pc: Pc)
    requires WorkerTrue(s, w, x) && HoldsGate(x.pc) && Unspent(x.pc) && Accepted(pc) && !pc.Deciding?
    requires Accepted(x.pc) || (if x.origin.Request? then x.sid !in s.pending
                                else x.sid in s.pending && s.pending[x.sid] == x.prompt)
    requires s' == s.(workers := s'.workers)
    ensures WorkerTrue(s', w, x.(pc := pc))
  {
    assert LiveTarget(s', x.(pc := pc)) <==> LiveTarget(s, x);
  }

  /** Two workers past the gate with the same live session are one. */
  lemma GateExcludes(s: Daemon, w: Thread, v: Thread)
    requires Invariant(s) && w in s.workers && v in s.workers
    requires s.workers[w].sid == s.workers[v].sid
    requires HoldsGate(s.workers[w].pc) && HoldsGate(s.workers[v].pc)
    requires LiveTarget(s, s.workers[w]) && LiveTarget(s, s.workers[v])
    ensures w == v
  {
    assert WorkerTrue(s, w, s.workers[w]) && WorkerTrue(s, v, s.workers[v]);
  }

  lemma OtherUnconsumed(s: Daemon, w: Thread, v: Thread)
    requires Invariant(s) && w in s.workers && v in s.workers && v != w
    requires Accepted(s.workers[w].pc) && CheckTarget(s, s.workers[w]).None?
    requires s.workers[w].prompt.context !in s.consumed
    ensures s.workers[v].prompt.context == s.workers[w].prompt.context ==>
              !(s.workers[v].origin.Request? && Unspent(s.workers[v].pc)) &&
              !s.workers[v].pc.Pasting? && !s.workers[v].pc.Submitting?
    ensures s.workers[v].sid == s.workers[w].sid && Accepted(s.workers[v].pc) ==> !LiveTarget(s, s.workers[v])
  {
    var x, y := s.workers[w], s.workers[v];
    assert WorkerTrue(s, w, x) && WorkerTrue(s, v, y);
    PassedCheck(s, w);
    if y.sid == x.sid && Accepted(y.pc) && LiveTarget(s, y) { GateExcludes(s, w, v); }
  }

  /** The slot filled, the worker returned, its guards not yet dropped. */
  function Slotted(s: Daemon, w: Thread): Daemon
    requires w in s.workers
  {
    Move(s.(pending := s.pending[s.workers[w].sid := s.workers[w].prompt]), w, Done(Queued))
  }

  lemma SlottedKeepsOther(s: Daemon, w: Thread, v: Thread)
    requires Invariant(s) && w in s.workers && Accepted(s.workers[w].pc) && CheckTarget(s, s.workers[w]).None?
    requires s.workers[w].prompt.context !in s.consumed && v in s.workers && v != w
    ensures WorkerTrue(Slotted(s, w), v, s.workers[v])
  {
    var y, s' := s.workers[v], Slotted(s, w);
    assert WorkerTrue(s, v, y);
    OtherUnconsumed(s, w, v);
    assert LiveTarget(s', y) <==> LiveTarget(s, y);
    assert Out(s', y.prompt.terminal) == Out(s, y.prompt.terminal);
  }

  lemma SlottedKeeps(s: Daemon, w: Thread)
    requires Invariant(s) && w in s.workers && Accepted(s.workers[w].pc) && CheckTarget(s, s.workers[w]).None?
    ensures Invariant(Slotted(s, w))
  {
    var x, s' := s.workers[w], Slotted(s, w);
    assert WorkerTrue(s, w, x);
    PassedCheck(s, w);
    assert x.prompt.context !in s.consumed;
    forall v | v in s.workers && v != w ensures WorkerTrue(s', v, s.workers[v]) {
      SlottedKeepsOther(s, w, v);
    }
    QuietStep(s, s', w, s'.workers[w]);
  }

  lemma EnqueuedKeeps(s: Daemon, w: Thread)
    requires Invariant(s) && w in s.workers && Accepted(s.workers[w].pc) && CheckTarget(s, s.workers[w]).None?
    ensures Invariant(Enqueued(s, w))
  {
    var x, done := s.workers[w], Slotted(s, w);
    assert HoldsLocks(done, w, x) by { assert WorkerTrue(s, w, x); }
    SlottedKeeps(s, w);
    UnlockKeeps(done, w, x, Queued);
    EnqueuedIsSlotted(s, w);
  }

  lemma EnqueuedIsSlotted(s: Daemon, w: Thread)
    requires w in s.workers
    ensures Enqueued(s, w) == Finish(Slotted(s, w).(workers := Slotted(s, w).workers[w := s.workers[w]]), w, Queued)
  {
    assert Slotted(s, w).workers[w := s.workers[w]] == s.workers;
  }

  /** A prompt not yet consumed was never pasted. */
  lemma FreshIsUnpasted(s: Daemon, t: TerminalId, context: ContextId)
    requires OutTrue(s) && context !in s.consumed
    ensures Unpasted(Out(s, t), context)
  {
    assert TerminalTrue(s, t);
    forall i | 0 <= i < |Out(s, t)| ensures !Pastes(Out(s, t)[i], context) {
      assert ChunkTrue(s, t, i);
    }
  }

  function Consume(s: Daemon, w: Thread, bracketed: bool): Daemon
    requires w in s.workers
  {
    var x := s.workers[w];
    var idle := SessionIdle(s, x.sid);
    Move(Lower(s.(pending := s.pending - {x.sid},
                  consumed := s.consumed[x.prompt.context := Consumed(idle, bracketed)]), x.sid),
         w, Pasting(x.prompt.submit && idle, bracketed))
  }

  lemma ConsumedKeepsOther(s: Daemon, w: Thread, bracketed: bool, v: Thread)
    requires Invariant(s) && At(s, w, Deciding) && CheckTarget(s, s.workers[w]).None?
    requires s.workers[w].prompt.context !in s.consumed && v in s.workers && v != w
    ensures WorkerTrue(Consume(s, w, bracketed), v, s.workers[v])
  {
    var x, y := s.workers[w], s.workers[v];
    var s' := Consume(s, w, bracketed);
    assert WorkerTrue(s, v, y);
    OtherUnconsumed(s, w, v);
    assert LiveTarget(s', y) <==> LiveTarget(s, y);
    assert Out(s', y.prompt.terminal) == Out(s, y.prompt.terminal);
  }

  lemma ConsumedKeeps(s: Daemon, w: Thread, bracketed: bool)
    requires Invariant(s) && At(s, w, Deciding) && CheckTarget(s, s.workers[w]).None?
    ensures Invariant(Consume(s, w, bracketed))
  {
    var x := s.workers[w];
    var s' := Consume(s, w, bracketed);
    assert WorkerTrue(s, w, x);
    PassedCheck(s, w);
    assert x.prompt.context !in s.consumed;
    FreshIsUnpasted(s, x.prompt.terminal, x.prompt.context);
    forall v | v in s.workers && v != w ensures WorkerTrue(s', v, s.workers[v]) {
      ConsumedKeepsOther(s, w, bracketed, v);
    }
    assert SlotsTrue(s') by {
      forall sid | sid in s'.pending ensures s'.pending[sid].context != x.prompt.context {
        assert Known(s, sid, s.pending[sid]);
      }
    }
    assert Out(s', x.prompt.terminal) == Out(s, x.prompt.terminal);
    QuietStep(s, s', w, s'.workers[w]);
  }

  // ---- Steps that write ----

  /** Only the holder of a terminal's writer adds to its input. */
  lemma WriteKeepsOther(s: Daemon, s': Daemon, w: Thread, v: Thread, y: Worker)
    requires WorkerTrue(s, v, y) && v != w
    requires s' == s.(out := s'.out, workers := s'.workers)
    requires forall t :: Out(s', t) != Out(s, t) ==> t in s.writerHeld && s.writerHeld[t] == w
    ensures WorkerTrue(s', v, y)
  {
    assert LiveTarget(s', y) <==> LiveTarget(s, y);
  }

  lemma WriteKeeps(s: Daemon, w: Thread, chunk: Chunk, pc: Pc)
    requires Invariant(s) && w in s.workers && HoldsWriter(s.workers[w].pc) && (pc.Submitting? || pc.Done?)
    requires var s' := Move(Put(s, s.workers[w].prompt.terminal, chunk), w, pc);
             && ChunkTrue(s', s.workers[w].prompt.terminal, |Out(s, s.workers[w].prompt.terminal)|)
             && WritingTrue(s', s'.workers[w])
    requires chunk.Paste? ==> Unpasted(Out(s, s.workers[w].prompt.terminal), chunk.context)
    ensures Invariant(Move(Put(s, s.workers[w].prompt.terminal, chunk), w, pc))
  {
    var x := s.workers[w];
    var s' := Move(Put(s, x.prompt.terminal, chunk), w, pc);
    assert WorkerTrue(s, w, x);
    forall v | v in s.workers && v != w ensures WorkerTrue(s', v, s.workers[v]) {
      assert WorkerTrue(s, v, s.workers[v]);
      WriteKeepsOther(s, s', w, v, s.workers[v]);
    }
    AppendKeeps(s, s', x.prompt.terminal, chunk);
    assert LiveTarget(s', s'.workers[w]) <==> LiveTarget(s, x);
  }

  lemma ChunkStays(s: Daemon, s': Daemon, t: TerminalId, i: nat)
    requires i < |Out(s, t)| && ChunkTrue(s, t, i) && s'.out == s.out && s'.sent == s.sent && s'.consumed == s.consumed
    ensures i < |Out(s', t)| && ChunkTrue(s', t, i)
  {
  }

  /** The last write of a worker, then its return. */
  lemma WriteThenFinish(s: Daemon, w: Thread, chunk: Chunk, outcome: Outcome)
    requires Invariant(s) && w in s.workers && HoldsWriter(s.workers[w].pc)
    requires var t := s.workers[w].prompt.terminal; ChunkTrue(Put(s, t, chunk), t, |Out(s, t)|)
    requires chunk.Paste? ==> Unpasted(Out(s, s.workers[w].prompt.terminal), chunk.context)
    ensures Invariant(Finish(Put(s, s.workers[w].prompt.terminal, chunk), w, outcome))
  {
    var x := s.workers[w];
    var put := Put(s, x.prompt.terminal, chunk);
    var done := Move(put, w, Done(outcome));
    ChunkStays(put, done, x.prompt.terminal, |Out(s, x.prompt.terminal)|);
    assert HoldsLocks(done, w, x) by { assert WorkerTrue(s, w, x); }
    WriteKeeps(s, w, chunk, Done(outcome));
    UnlockKeeps(done, w, x, outcome);
    assert done.(workers := done.workers[w := x]) == put;
  }

  lemma PasteTrue(s: Daemon, w: Thread, wrote: string)
    requires w in s.workers && WorkerTrue(s, w, s.workers[w]) && s.workers[w].pc.Pasting?
    requires wrote <= Body(s.workers[w])
    ensures var p := s.workers[w].prompt;
            && ChunkTrue(Put(s, p.terminal, Paste(p.context, wrote)), p.terminal, |Out(s, p.terminal)|)
            && Unpasted(Out(s, p.terminal), p.context)
  {
  }

  lemma PasteKeeps(s: Daemon, w: Thread, wrote: string, ok: bool)
    requires Invariant(s) && Enabled(s, WritePaste(w, wrote, ok))
    ensures Invariant(DoPaste(s, w, wrote, ok))
  {
    var x := s.workers[w];
    var t, chunk := x.prompt.terminal, Paste(x.prompt.context, wrote);
    assert WorkerTrue(s, w, x);
    PasteTrue(s, w, wrote);
    if !ok {
      WriteThenFinish(s, w, chunk, WriteFailed);
    } else if !x.pc.submitted {
      WriteThenFinish(s, w, chunk, Delivered(false));
    } else {
      PastedWhole(s, w);
      WriteKeeps(s, w, chunk, Submitting);
    }
  }

  /** After the whole paste the worker may go on to its carriage return. */
  lemma PastedWhole(s: Daemon, w: Thread)
    requires w in s.workers && WorkerTrue(s, w, s.workers[w]) && s.workers[w].pc.Pasting? && s.workers[w].pc.submitted
    ensures var x := s.workers[w];
            var s' := Move(Put(s, x.prompt.terminal, Paste(x.prompt.context, Body(x))), w, Submitting);
            && ChunkTrue(s', x.prompt.terminal, |Out(s, x.prompt.terminal)|)
            && WritingTrue(s', s'.workers[w])
  {
    PasteTrue(s, w, Body(s.workers[w]));
  }

  lemma ReturnTrue(s: Daemon, w: Thread)
    requires w in s.workers && WorkerTrue(s, w, s.workers[w]) && s.workers[w].pc.Submitting?
    ensures var p := s.workers[w].prompt;
            ChunkTrue(Put(s, p.terminal, Return(p.context)), p.terminal, |Out(s, p.terminal)|)
  {
  }

  lemma ReturnKeeps(s: Daemon, w: Thread, reached: bool, ok: bool)
    requires Invariant(s) && Enabled(s, WriteReturn(w, reached, ok))
    ensures Invariant(DoReturn(s, w, reached, ok))
  {
    var outcome := if ok then Delivered(true) else WriteFailed;
    if !reached {
      FinishKeeps(s, w, outcome);
    } else {
      assert WorkerTrue(s, w, s.workers[w]);
      ReturnTrue(s, w);
      WriteThenFinish(s, w, Return(s.workers[w].prompt.context), outcome);
    }
  }

  lemma DecideKeeps(s: Daemon, w: Thread, bracketed: bool)
    requires Invariant(s) && At(s, w, Deciding)
    ensures Invariant(DoDecide(s, w, bracketed))
  {
    var x := s.workers[w];
    if CheckTarget(s, x).Some? {
      FinishKeeps(s, w, Refused(CheckTarget(s, x).value));
    } else if !SessionIdle(s, x.sid) && x.when.Queue? {
      EnqueuedKeeps(s, w);
    } else if x.prompt.terminal !in s.runtimes {
      FinishKeeps(s, w, Refused(NoRuntime));
    } else {
      ConsumedKeeps(s, w, bracketed);
    }
  }

  lemma InspectKeeps(s: Daemon, w: Thread)
    requires Invariant(s) && At(s, w, Inspecting)
    ensures Invariant(DoInspect(s, w))
  {
    var x := s.workers[w];
    if x.origin.Request? && x.origin.caller.Some? && x.origin.caller.value !in s.sessions {
      FinishKeeps(s, w, Refused(NoCaller));
    } else if CheckTarget(s, x).Some? {
      FinishKeeps(s, w, Refused(CheckTarget(s, x).value));
    } else if x.prompt.terminal !in s.runtimes {
      FinishKeeps(s, w, Refused(NoRuntime));
    } else {
      AcceptKeeps(s, w, if x.origin.Request? then Recording else AfterRecord(x));
    }
  }

  lemma EnqueueKeeps(s: Daemon, w: Thread)
    requires Invariant(s) && At(s, w, Enqueueing)
    ensures Invariant(DoEnqueue(s, w))
  {
    var x := s.workers[w];
    if CheckTarget(s, x).Some? {
      FinishKeeps(s, w, Refused(CheckTarget(s, x).value));
    } else if !SessionIdle(s, x.sid) {
      EnqueuedKeeps(s, w);
    } else {
      AcceptKeeps(s, w, AwaitingWriter);
    }
  }

  predicate SessionStep(step: Step) {
    step.AddSession? || step.Launch? || step.Restart? || step.End? || step.Remove? || step.Reap? || step.Activity?
  }

  predicate WriterStep(step: Step) {
    step.LockWriter? || step.Decide? || step.WritePaste? || step.WriteReturn?
  }

  lemma StepKeeps(s: Daemon, step: Step)
    requires Invariant(s) && Enabled(s, step)
    ensures Invariant(Next(s, step))
  {
    if SessionStep(step) {
      SessionStepKeeps(s, step);
    } else if WriterStep(step) {
      WriterStepKeeps(s, step);
    } else {
      GateStepKeeps(s, step);
    }
  }

  lemma GateStepKeeps(s: Daemon, step: Step)
    requires Invariant(s) && Enabled(s, step) && !SessionStep(step) && !WriterStep(step)
    ensures Invariant(Next(s, step))
  {
    match step
    case UserInput(t, keys) => UserInputKeeps(s, t, keys);
    case Send(w, sid, raw, submit, when, caller) =>
      FilterKeepsOnly(raw);
      assert SentTrue(s);
      SendKeeps(s, w, Next(s, step).workers[w]);
    case StartDrain(w, sid) => StartDrainKeeps(s, step);
    case Enter(w) => EnterKeeps(s, w);
    case LockGate(w) => LockGateKeeps(s, w);
    case Inspect(w) => InspectKeeps(s, w);
    case Record(w, ok) =>
      if ok { AcceptKeeps(s, w, AfterRecord(s.workers[w])); } else { FinishKeeps(s, w, Refused(NotRecorded)); }
    case Enqueue(w) => EnqueueKeeps(s, w);
  }

  lemma WriterStepKeeps(s: Daemon, step: Step)
    requires Invariant(s) && Enabled(s, step)
    requires WriterStep(step)
    ensures Invariant(Next(s, step))
  {
    match step
    case LockWriter(w) => LockWriterKeeps(s, w);
    case Decide(w, bracketed) => DecideKeeps(s, w, bracketed);
    case WritePaste(w, wrote, ok) => PasteKeeps(s, w, wrote, ok);
    case WriteReturn(w, reached, ok) => ReturnKeeps(s, w, reached, ok);
  }

  lemma {:induction false} RunKeeps(run: seq<Daemon>, steps: seq<Step>, n: nat)
    requires IsRun(run, steps) && n < |run|
    ensures Invariant(run[n])
  {
    if n > 0 {
      RunKeeps(run, steps, n - 1);
      StepKeeps(run[n - 1], steps[n - 1]);
    }
  }
}

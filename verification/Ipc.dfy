/** The client's request and response correlation: concurrent callers, the
    reader thread and any number of disconnects over one `pending` map and one
    `connected` flag, in lock-sized steps. */
module Ipc {
  import opened Options

  type RequestId = nat
  type CallId = nat

  /** A decoded response: the id it names and its body. */
  datatype Response = Response(id: RequestId, body: nat)

  datatype Outcome = Answer(body: nat) | Disconnected | Timeout | WriteFailed

  /** Where a call of `request_inner` stands: before its first connected check,
      about to draw an id, about to insert its waiter, about to check again,
      about to write, about to take its waiter back, blocked, or returned. */
  datatype Pc =
    | Checking
    | Numbering
    | Inserting
    | Rechecking
    | Writing
    | Undoing(why: Outcome)
    | Waiting
    | Returned(outcome: Outcome)

  /** `got` is every response, by its place in `routed`, that was ever put into
      this call's one-slot channel. */
  datatype Call = Call(pc: Pc, id: Option<RequestId>, timed: bool, got: seq<nat>)

  /** The reader thread: reading, between taking a waiter out of the map and
      sending to it, or gone. */
  datatype Reader = Reading | Handing(call: CallId, response: nat) | Stopped

  /** `owners` is history: which call drew an id. `clearing` counts disconnects
      that have lowered the flag and not yet cleared the map, `cleared` those
      that have finished. */
  datatype Connection = Connection(
    connected: bool,
    nextId: RequestId,
    pending: map<RequestId, CallId>,
    calls: map<CallId, Call>,
    reader: Reader,
    owners: map<RequestId, CallId>,
    routed: seq<Response>,
    clearing: nat,
    cleared: nat)

  const OPEN: Connection := Connection(true, 1, map[], map[], Reading, map[], [], 0, 0)

  datatype Step =
    | Begin(c: CallId, timed: bool)
    | FirstCheck(c: CallId)
    | DrawId(c: CallId)
    | Insert(c: CallId)
    | SecondCheck(c: CallId)
    | Write(c: CallId, ok: bool)
    | Undo(c: CallId)
    | Receive(c: CallId)
    | ReceiveClosed(c: CallId)
    | GiveUp(c: CallId)
    | Route(r: Response)
    | HandOver
    | ReaderStops
    | HandleDrops
    | Clear

  /** A sender of the call's channel still exists. */
  ghost predicate HasSender(s: Connection, c: CallId) {
    || (exists id :: id in s.pending && s.pending[id] == c)
    || (s.reader.Handing? && s.reader.call == c)
  }

  predicate At(s: Connection, c: CallId, pc: Pc) {
    c in s.calls && s.calls[c].pc == pc
  }

  ghost predicate Enabled(s: Connection, step: Step) {
    match step
    case Begin(c, _) => c !in s.calls
    case FirstCheck(c) => At(s, c, Checking)
    case DrawId(c) => At(s, c, Numbering)
    case Insert(c) => At(s, c, Inserting) && s.calls[c].id.Some?
    case SecondCheck(c) => At(s, c, Rechecking)
    case Write(c, _) => At(s, c, Writing)
    case Undo(c) => c in s.calls && s.calls[c].pc.Undoing? && s.calls[c].id.Some?
    case Receive(c) =>
      At(s, c, Waiting) && s.calls[c].got != [] && s.calls[c].got[0] < |s.routed|
    case ReceiveClosed(c) => At(s, c, Waiting) && s.calls[c].got == [] && !HasSender(s, c)
    case GiveUp(c) => At(s, c, Waiting) && s.calls[c].timed
    case Route(r) => s.reader.Reading?
    case HandOver =>
      // A full channel blocks the sender; one whose receiver is gone refuses at once.
      s.reader.Handing? && s.reader.call in s.calls &&
      (s.calls[s.reader.call].pc.Returned? || s.calls[s.reader.call].got == [])
    case ReaderStops => s.reader.Reading?
    case HandleDrops => true
    case Clear => s.clearing > 0
  }

  function Move(s: Connection, c: CallId, pc: Pc): Connection
    requires c in s.calls
  {
    s.(calls := s.calls[c := s.calls[c].(pc := pc)])
  }

  function Next(s: Connection, step: Step): (s': Connection)
    requires Enabled(s, step)
  {
    match step
    case Begin(c, timed) => s.(calls := s.calls[c := Call(Checking, None, timed, [])])
    case FirstCheck(c) => Move(s, c, if s.connected then Numbering else Returned(Disconnected))
    case DrawId(c) =>
      s.(nextId := s.nextId + 1, owners := s.owners[s.nextId := c],
         calls := s.calls[c := s.calls[c].(pc := Inserting, id := Some(s.nextId))])
    case Insert(c) => Move(s.(pending := s.pending[s.calls[c].id.value := c]), c, Rechecking)
    case SecondCheck(c) => Move(s, c, if s.connected then Writing else Undoing(Disconnected))
    case Write(c, ok) => Move(s, c, if ok then Waiting else Undoing(WriteFailed))
    case Undo(c) =>
      Move(s.(pending := s.pending - {s.calls[c].id.value}), c, Returned(s.calls[c].pc.why))
    case Receive(c) => Move(s, c, Returned(Answer(s.routed[s.calls[c].got[0]].body)))
    case ReceiveClosed(c) => Move(s, c, Returned(Disconnected))
    case GiveUp(c) => Move(s, c, Undoing(Timeout))
    case Route(r) =>
      s.(routed := s.routed + [r],
         reader := if r.id in s.pending then Handing(s.pending[r.id], |s.routed|) else Reading,
         pending := s.pending - {r.id})
    case HandOver =>
      var c, k := s.reader.call, s.reader.response;
      var call := s.calls[c];
      s.(reader := Reading,
         calls := s.calls[c := if call.pc.Returned? then call else call.(got := call.got + [k])])
    case ReaderStops => s.(reader := Stopped, connected := false, clearing := s.clearing + 1)
    case HandleDrops => s.(connected := false, clearing := s.clearing + 1)
    case Clear => s.(pending := map[], clearing := s.clearing - 1, cleared := s.cleared + 1)
  }

  ghost predicate IsRun(run: seq<Connection>, steps: seq<Step>) {
    && |run| == |steps| + 1
    && run[0] == OPEN
    && forall i {:trigger steps[i]} :: 0 <= i < |steps| ==> Enabled(run[i], steps[i]) && run[i + 1] == Next(run[i], steps[i])
  }

  // ---- What stays true ----

  predicate Registered(pc: Pc) {
    pc.Rechecking? || pc.Writing? || pc.Undoing? || pc.Waiting?
  }

  /** An id is drawn once, by the call that has it. */
  ghost predicate CallTrue(s: Connection, c: CallId, call: Call) {
    && (call.id.Some? ==> call.id.value in s.owners && s.owners[call.id.value] == c)
    && (call.pc.Checking? || call.pc.Numbering? ==> call.id == None && call.got == [])
    && (call.pc.Inserting? ==> call.id.Some? && call.got == [])
    && (Registered(call.pc) ==> call.id.Some?)
    && (call.pc.Undoing? ==> !call.pc.why.Answer?)
    && |call.got| <= 1
    && (call.got != [] ==>
          call.got[0] < |s.routed| && call.id == Some(s.routed[call.got[0]].id))
    && (call.pc.Returned? && call.pc.outcome.Answer? ==>
          call.got != [] && call.pc.outcome.body == s.routed[call.got[0]].body)
  }

  /** A pending waiter belongs to the unfinished call that drew its id, which
      nothing has answered. */
  ghost predicate PendingTrue(s: Connection, id: RequestId)
    requires id in s.pending
  {
    && s.pending[id] in s.calls
    && var call := s.calls[s.pending[id]];
       && call.id == Some(id) && Registered(call.pc) && call.got == []
       && (s.cleared > 0 ==> call.pc.Rechecking? || call.pc == Undoing(Disconnected))
  }

  ghost predicate HandingTrue(s: Connection) {
    s.reader.Handing? ==>
      && s.reader.call in s.calls && s.reader.response < |s.routed|
      && var call := s.calls[s.reader.call];
         && call.id == Some(s.routed[s.reader.response].id)
         && call.id.value !in s.pending
         && call.got == [] && (Registered(call.pc) || call.pc.Returned?)
  }

  ghost predicate Invariant(s: Connection) {
    && (s.connected <==> s.clearing == 0 && s.cleared == 0)
    && (forall id :: id in s.owners ==> id < s.nextId)
    && (forall c :: c in s.calls ==> CallTrue(s, c, s.calls[c]))
    && (forall id :: id in s.pending ==> PendingTrue(s, id))
    && HandingTrue(s)
  }

  /** A call moved without touching the map keeps all, if it stays as
      registered as its waiter needs. */
  lemma MoveKeeps(s: Connection, c: CallId, pc: Pc)
    requires Invariant(s) && c in s.calls && CallTrue(s, c, s.calls[c].(pc := pc))
    requires forall id :: id in s.pending && s.pending[id] == c ==>
               Registered(pc) && (s.cleared > 0 ==> pc.Rechecking? || pc == Undoing(Disconnected))
    requires s.reader.Handing? && s.reader.call == c ==> Registered(pc) || pc.Returned?
    ensures Invariant(Move(s, c, pc))
  {
    var s' := Move(s, c, pc);
    forall id | id in s'.pending ensures PendingTrue(s', id) {
      assert PendingTrue(s, id);
    }
    assert forall d :: d in s'.calls && d != c ==> CallTrue(s, d, s.calls[d]);
  }

  lemma BeginKeeps(s: Connection, c: CallId, timed: bool)
    requires Invariant(s) && Enabled(s, Begin(c, timed))
    ensures Invariant(Next(s, Begin(c, timed)))
  {
    var s' := Next(s, Begin(c, timed));
    forall id | id in s'.pending ensures PendingTrue(s', id) {
      assert PendingTrue(s, id);
    }
  }

  lemma DrawIdKeeps(s: Connection, c: CallId)
    requires Invariant(s) && Enabled(s, DrawId(c))
    ensures Invariant(Next(s, DrawId(c)))
  {
    var s' := Next(s, DrawId(c));
    assert CallTrue(s, c, s.calls[c]);
    forall id | id in s'.pending ensures PendingTrue(s', id) {
      assert PendingTrue(s, id);
    }
  }

  lemma InsertKeeps(s: Connection, c: CallId)
    requires Invariant(s) && Enabled(s, Insert(c))
    ensures Invariant(Next(s, Insert(c)))
  {
    var s' := Next(s, Insert(c));
    var id := s.calls[c].id.value;
    assert CallTrue(s, c, s.calls[c]);
    assert id !in s.pending by { assert id in s.pending ==> PendingTrue(s, id); }
    forall i | i in s'.pending ensures PendingTrue(s', i) {
      assert i != id ==> PendingTrue(s, i);
    }
    forall d | d in s'.calls ensures CallTrue(s', d, s'.calls[d]) {
      assert CallTrue(s, d, s.calls[d]);
    }
  }

  lemma UndoKeeps(s: Connection, c: CallId)
    requires Invariant(s) && Enabled(s, Undo(c))
    ensures Invariant(Next(s, Undo(c)))
  {
    var id := s.calls[c].id.value;
    assert CallTrue(s, c, s.calls[c]);
    var cut := s.(pending := s.pending - {id});
    assert Invariant(cut) by {
      assert forall i :: i in cut.pending ==> PendingTrue(s, i);
    }
    assert forall i :: i in cut.pending ==> PendingTrue(cut, i) && cut.pending[i] != c;
    MoveKeeps(cut, c, Returned(s.calls[c].pc.why));
  }

  lemma CallStepKeeps(s: Connection, step: Step)
    requires Invariant(s) && Enabled(s, step)
    requires step.FirstCheck? || step.SecondCheck? || step.Write? || step.Receive? || step.ReceiveClosed? || step.GiveUp?
    ensures Invariant(Next(s, step))
  {
    assert CallTrue(s, step.c, s.calls[step.c]);
    assert forall id :: id in s.pending ==> PendingTrue(s, id);
    match step
    case FirstCheck(c) => MoveKeeps(s, c, if s.connected then Numbering else Returned(Disconnected));
    case SecondCheck(c) => MoveKeeps(s, c, if s.connected then Writing else Undoing(Disconnected));
    case Write(c, ok) => MoveKeeps(s, c, if ok then Waiting else Undoing(WriteFailed));
    case Receive(c) => MoveKeeps(s, c, Returned(Answer(s.routed[s.calls[c].got[0]].body)));
    case ReceiveClosed(c) => MoveKeeps(s, c, Returned(Disconnected));
    case GiveUp(c) => MoveKeeps(s, c, Undoing(Timeout));
  }

  lemma RouteKeeps(s: Connection, r: Response)
    requires Invariant(s) && Enabled(s, Route(r))
    ensures Invariant(Next(s, Route(r)))
  {
    var s' := Next(s, Route(r));
    assert r.id in s.pending ==> PendingTrue(s, r.id);
    forall id | id in s'.pending ensures PendingTrue(s', id) {
      assert PendingTrue(s, id);
    }
    forall c | c in s'.calls ensures CallTrue(s', c, s'.calls[c]) {
      assert CallTrue(s, c, s.calls[c]);
    }
  }

  lemma HandOverKeeps(s: Connection)
    requires Invariant(s) && Enabled(s, HandOver)
    ensures Invariant(Next(s, HandOver))
  {
    var s' := Next(s, HandOver);
    forall id | id in s'.pending ensures PendingTrue(s', id) {
      assert PendingTrue(s, id) && s.pending[id] != s.reader.call;
    }
    forall c | c in s'.calls ensures CallTrue(s', c, s'.calls[c]) {
      assert CallTrue(s, c, s.calls[c]);
    }
  }

  lemma DisconnectKeeps(s: Connection, step: Step)
    requires Invariant(s) && Enabled(s, step) && (step.ReaderStops? || step.HandleDrops? || step.Clear?)
    ensures Invariant(Next(s, step))
  {
    var s' := Next(s, step);
    forall id | id in s'.pending ensures PendingTrue(s', id) {
      assert PendingTrue(s, id);
    }
  }

  lemma StepKeeps(s: Connection, step: Step)
    requires Invariant(s) && Enabled(s, step)
    ensures Invariant(Next(s, step))
  {
    match step
    case Begin(c, timed) => BeginKeeps(s, c, timed);
    case DrawId(c) => DrawIdKeeps(s, c);
    case Insert(c) => InsertKeeps(s, c);
    case Undo(c) => UndoKeeps(s, c);
    case FirstCheck(_) => CallStepKeeps(s, step);
    case SecondCheck(_) => CallStepKeeps(s, step);
    case Write(_, _) => CallStepKeeps(s, step);
    case Receive(_) => CallStepKeeps(s, step);
    case ReceiveClosed(_) => CallStepKeeps(s, step);
    case GiveUp(_) => CallStepKeeps(s, step);
    case Route(r) => RouteKeeps(s, r);
    case HandOver => HandOverKeeps(s);
    case _ => DisconnectKeeps(s, step);
  }

  lemma {:induction false} RunKeeps(run: seq<Connection>, steps: seq<Step>, n: nat)
    requires IsRun(run, steps) && n < |run|
    ensures Invariant(run[n])
  {
    if n > 0 {
      RunKeeps(run, steps, n - 1);
      StepKeeps(run[n - 1], steps[n - 1]);
    }
  }

  // ---- What callers rely on ----

  /** Once any disconnect has finished, a waiter is pending only while its own
      call has yet to check again, or has found the flag down and is about to
      take it back. At any time a returned call has left no waiter behind. */
  lemma NoWaiterIsStranded(run: seq<Connection>, steps: seq<Step>, n: nat, id: RequestId)
    requires IsRun(run, steps) && n < |run| && id in run[n].pending
    ensures var s := run[n];
            && s.pending[id] in s.calls && s.calls[s.pending[id]].id == Some(id)
            && !s.calls[s.pending[id]].pc.Returned?
            && (s.cleared > 0 ==>
                  At(s, s.pending[id], Rechecking) || At(s, s.pending[id], Undoing(Disconnected)))
  {
    RunKeeps(run, steps, n);
    assert PendingTrue(run[n], id);
  }

  /** The one step a call can take next on its own. */
  ghost predicate CanMove(s: Connection, c: CallId) {
    || Enabled(s, FirstCheck(c)) || Enabled(s, DrawId(c)) || Enabled(s, Insert(c)) || Enabled(s, SecondCheck(c))
    || Enabled(s, Write(c, false)) || Enabled(s, Undo(c)) || Enabled(s, Receive(c)) || Enabled(s, ReceiveClosed(c))
  }

  /** After a finished disconnect no call hangs: each that has not returned can
      take a step of its own, unless the reader holds its answer and can hand
      it over. */
  lemma DisconnectWakesEveryCaller(run: seq<Connection>, steps: seq<Step>, n: nat, c: CallId)
    requires IsRun(run, steps) && n < |run| && run[n].cleared > 0
    requires c in run[n].calls && !run[n].calls[c].pc.Returned?
    ensures CanMove(run[n], c) || (run[n].reader.Handing? && run[n].reader.call == c && Enabled(run[n], HandOver))
  {
    RunKeeps(run, steps, n);
    var s := run[n];
    assert CallTrue(s, c, s.calls[c]);
    if s.calls[c].pc.Waiting? {
      WaitingIsWoken(s, c);
    } else {
      assert CanMove(s, c);
    }
  }

  lemma WaitingIsWoken(s: Connection, c: CallId)
    requires Invariant(s) && s.cleared > 0 && At(s, c, Waiting)
    ensures Enabled(s, Receive(c)) || Enabled(s, ReceiveClosed(c)) || (s.reader.Handing? && s.reader.call == c && Enabled(s, HandOver))
  {
    assert CallTrue(s, c, s.calls[c]);
    if s.calls[c].got == [] {
      assert forall id :: id in s.pending ==> PendingTrue(s, id) && s.pending[id] != c;
    }
  }

  /** When nothing can move any more after a disconnect, every call has
      returned and no waiter is left. */
  lemma DisconnectSettles(run: seq<Connection>, steps: seq<Step>, n: nat)
    requires IsRun(run, steps) && n < |run| && run[n].cleared > 0
    requires forall c :: c in run[n].calls ==> !CanMove(run[n], c)
    requires !Enabled(run[n], HandOver)
    ensures forall c :: c in run[n].calls ==> run[n].calls[c].pc.Returned?
    ensures run[n].pending == map[]
  {
    var s := run[n];
    forall c | c in s.calls ensures s.calls[c].pc.Returned? {
      if !s.calls[c].pc.Returned? { DisconnectWakesEveryCaller(run, steps, n, c); }
    }
    RunKeeps(run, steps, n);
    forall id ensures id !in s.pending {
      assert id in s.pending ==> PendingTrue(s, id);
    }
  }

  /** A call that returns an answer returns the body of a response to its own
      id, and that response reached no other call. */
  lemma AnswerIsTheCallersOwn(run: seq<Connection>, steps: seq<Step>, n: nat, c: CallId)
    requires IsRun(run, steps) && n < |run| && c in run[n].calls
    requires run[n].calls[c].pc.Returned? && run[n].calls[c].pc.outcome.Answer?
    ensures var s, call := run[n], run[n].calls[c];
            && |call.got| == 1 && call.got[0] < |s.routed|
            && Some(s.routed[call.got[0]].id) == call.id
            && call.pc.outcome == Answer(s.routed[call.got[0]].body)
            && forall d :: d in s.calls && d != c ==> call.got[0] !in s.calls[d].got
  {
    RunKeeps(run, steps, n);
    assert CallTrue(run[n], c, run[n].calls[c]);
    forall d | d in run[n].calls && d != c ensures run[n].calls[c].got[0] !in run[n].calls[d].got {
      assert CallTrue(run[n], d, run[n].calls[d]);
    }
  }

  /** A call is handed at most one response, whatever the daemon repeats, and
      the reader is never held up by a full channel. */
  lemma HandOverNeverBlocks(run: seq<Connection>, steps: seq<Step>, n: nat)
    requires IsRun(run, steps) && n < |run|
    ensures run[n].reader.Handing? ==> Enabled(run[n], HandOver) && run[n].calls[run[n].reader.call].got == []
    ensures forall c :: c in run[n].calls ==> |run[n].calls[c].got| <= 1
  {
    RunKeeps(run, steps, n);
    assert forall c :: c in run[n].calls ==> CallTrue(run[n], c, run[n].calls[c]);
  }

  // ---- A call ends only for a reason ----

  /** While no disconnect has finished, an unanswered call that has inserted its
      waiter still has it: in the map, or in the reader's hand. */
  ghost predicate Attended(s: Connection, c: CallId)
    requires c in s.calls
  {
    var call := s.calls[c];
    Registered(call.pc) && s.cleared == 0 && call.got == [] ==>
      || (call.id.Some? && call.id.value in s.pending && s.pending[call.id.value] == c)
      || (s.reader.Handing? && s.reader.call == c)
  }

  /** A call that gives up as disconnected has seen the connection go, and one
      that times out was given a time. */
  ghost predicate Justified(s: Connection, call: Call) {
    && (call.pc == Returned(Disconnected) || call.pc == Undoing(Disconnected) ==> !s.connected)
    && (call.pc == Returned(Timeout) || call.pc == Undoing(Timeout) ==> call.timed)
  }

  ghost predicate EndsTrue(s: Connection) {
    forall c :: c in s.calls ==> Attended(s, c) && Justified(s, s.calls[c])
  }

  /** A waiter gone from the map went to the reader's hand, or with its call. */
  lemma AttendedStays(s: Connection, step: Step, c: CallId)
    requires Invariant(s) && Enabled(s, step) && c in s.calls && Attended(s, c)
    ensures c in Next(s, step).calls && Attended(Next(s, step), c)
  {
    match step
    case Insert(d) => WaiterStays(s, step, d, c);
    case Undo(d) => WaiterStays(s, step, d, c);
    case Route(r) => ReaderAttends(s, step, c);
    case HandOver => ReaderAttends(s, step, c);
    case _ => OthersLeaveWaiters(s, step, c);
  }

  lemma ReaderAttends(s: Connection, step: Step, c: CallId)
    requires Invariant(s) && Enabled(s, step) && (step.Route? || step.HandOver?) && c in s.calls && Attended(s, c)
    ensures c in Next(s, step).calls && Attended(Next(s, step), c)
  {
    assert CallTrue(s, c, s.calls[c]);
    if step.Route? { assert step.r.id in s.pending ==> PendingTrue(s, step.r.id); }
  }

  lemma OthersLeaveWaiters(s: Connection, step: Step, c: CallId)
    requires Invariant(s) && Enabled(s, step) && c in s.calls && Attended(s, c)
    requires !step.Insert? && !step.Undo? && !step.Route? && !step.HandOver?
    ensures c in Next(s, step).calls && Attended(Next(s, step), c)
  {
  }

  lemma WaiterStays(s: Connection, step: Step, d: CallId, c: CallId)
    requires Invariant(s) && Enabled(s, step) && (step == Insert(d) || step == Undo(d)) && c in s.calls && Attended(s, c)
    ensures c in Next(s, step).calls && Attended(Next(s, step), c)
  {
    assert CallTrue(s, c, s.calls[c]) && CallTrue(s, d, s.calls[d]);
  }

  lemma JustifiedStays(s: Connection, step: Step, c: CallId)
    requires Invariant(s) && Enabled(s, step) && c in s.calls && Attended(s, c) && Justified(s, s.calls[c])
    ensures c in Next(s, step).calls && Justified(Next(s, step), Next(s, step).calls[c])
  {
    assert CallTrue(s, c, s.calls[c]);
  }

  lemma {:induction false} RunEndsTrue(run: seq<Connection>, steps: seq<Step>, n: nat)
    requires IsRun(run, steps) && n < |run|
    ensures EndsTrue(run[n])
  {
    if n > 0 {
      RunEndsTrue(run, steps, n - 1);
      RunKeeps(run, steps, n - 1);
      var s, step := run[n - 1], steps[n - 1];
      forall c | c in run[n].calls ensures Attended(run[n], c) && Justified(run[n], run[n].calls[c]) {
        if c in s.calls {
          AttendedStays(s, step, c);
          JustifiedStays(s, step, c);
        }
      }
    }
  }

  /** While the connection is up no call returns disconnected; only a call given
      a time times out; and a blocked call that nothing has answered still has
      its waiter, in the map or in the reader's hand. */
  lemma CallsEndForAReason(run: seq<Connection>, steps: seq<Step>, n: nat, c: CallId)
    requires IsRun(run, steps) && n < |run| && c in run[n].calls
    ensures var s, call := run[n], run[n].calls[c];
            && (call.pc == Returned(Disconnected) ==> !s.connected)
            && (call.pc == Returned(Timeout) ==> call.timed)
            && (call.pc.Waiting? && call.got == [] && s.connected ==>
                  || (call.id.Some? && call.id.value in s.pending && s.pending[call.id.value] == c)
                  || (s.reader.Handing? && s.reader.call == c))
  {
    RunKeeps(run, steps, n);
    RunEndsTrue(run, steps, n);
    assert Attended(run[n], c) && Justified(run[n], run[n].calls[c]);
  }

  ghost predicate FailedToWrite(pc: Pc) {
    pc == Undoing(WriteFailed) || pc == Returned(WriteFailed)
  }

  lemma FailureBegins(s: Connection, step: Step, c: CallId)
    requires Enabled(s, step) && c in Next(s, step).calls && FailedToWrite(Next(s, step).calls[c].pc)
    ensures (c in s.calls && FailedToWrite(s.calls[c].pc)) || step == Write(c, false)
  {
  }

  /** A call reports a failed write only if its write failed. */
  lemma {:induction false} WriteFailureHappened(run: seq<Connection>, steps: seq<Step>, n: nat, c: CallId)
    requires IsRun(run, steps) && n < |run| && c in run[n].calls && FailedToWrite(run[n].calls[c].pc)
    ensures exists j :: 0 <= j < n && steps[j] == Write(c, false)
  {
    assert n > 0;
    assert Enabled(run[n - 1], steps[n - 1]) && run[n] == Next(run[n - 1], steps[n - 1]);
    FailureBegins(run[n - 1], steps[n - 1], c);
    if steps[n - 1] != Write(c, false) {
      WriteFailureHappened(run, steps, n - 1, c);
    }
  }

  // ---- A response reaches the call that waits for it ----

  /** Response `k` is in the reader's hand for call `c`, or in the call's
      channel, or found the call already returned. */
  ghost predicate Reaches(run: seq<Connection>, steps: seq<Step>, n: nat, m: nat, c: CallId, k: nat)
    requires m < |run| && |run| == |steps| + 1
  {
    || run[m].reader == Handing(c, k)
    || (c in run[m].calls && k in run[m].calls[c].got)
    || exists j :: n < j < m && FoundReturned(run, steps, j, c, k)
  }

  ghost predicate FoundReturned(run: seq<Connection>, steps: seq<Step>, j: int, c: CallId, k: nat)
    requires 0 <= j < |steps| && |run| == |steps| + 1
  {
    steps[j] == HandOver && run[j].reader == Handing(c, k) && c in run[j].calls && run[j].calls[c].pc.Returned?
  }

  lemma HandedStays(s: Connection, step: Step, c: CallId, k: nat)
    requires Enabled(s, step) && (s.reader == Handing(c, k) || (c in s.calls && k in s.calls[c].got))
    ensures var s' := Next(s, step);
            || s'.reader == Handing(c, k)
            || (c in s'.calls && k in s'.calls[c].got)
            || (step == HandOver && s.reader == Handing(c, k) && c in s.calls && s.calls[c].pc.Returned?)
  {
  }

  /** A response routed while its id is pending is, from then on, in the reader's
      hand for the call that waits, in that call's channel, or found the call
      returned when it was handed over. */
  lemma {:induction false} RoutedReachesItsCall(run: seq<Connection>, steps: seq<Step>, n: nat, m: nat, r: Response)
    requires IsRun(run, steps) && n < m < |run| && steps[n] == Route(r) && r.id in run[n].pending
    ensures Reaches(run, steps, n, m, run[n].pending[r.id], |run[n].routed|)
    decreases m - n
  {
    var c, k := run[n].pending[r.id], |run[n].routed|;
    if m == n + 1 {
      assert run[m] == Next(run[n], Route(r));
    } else {
      RoutedReachesItsCall(run, steps, n, m - 1, r);
      assert Enabled(run[m - 1], steps[m - 1]) && run[m] == Next(run[m - 1], steps[m - 1]);
      if j :| n < j < m - 1 && FoundReturned(run, steps, j, c, k) {
        assert FoundReturned(run, steps, j, c, k);
      } else {
        HandedStays(run[m - 1], steps[m - 1], c, k);
        assert FoundReturned(run, steps, m - 1, c, k) ==> Reaches(run, steps, n, m, c, k);
      }
    }
  }
}

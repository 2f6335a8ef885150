/** An editor's command port: a bounded queue, two coalesced debts beside it, one
    reload slot, and the thread that writes commands to the editor. */
module CommandPort {
  import opened Options

  type Path = string
  type Thread = nat

  /** `Wake` is the state request with id 0 that only wakes the writer. A reload
      and a discard both occupy the reload slot; marks are optional. */
  datatype Command = Wake | Plain(id: nat) | Marks(id: nat) | Reload(id: nat, revision: Option<string>)

  datatype PendingReload = PendingReload(id: nat, revision: Option<string>)

  // ---- The shared part, one operation at a time ----

  datatype Port = Port(queue: seq<Command>, reload: Option<PendingReload>, retarget: Option<Path>, refresh: bool)

  predicate HasRoom(p: Port, capacity: nat) {
    |p.queue| < capacity
  }

  function Enqueue(p: Port, command: Command, capacity: nat): Port {
    if HasRoom(p, capacity) then p.(queue := p.queue + [command]) else p
  }

  /** Whether `try_send` takes the command, or answers busy. */
  predicate Takes(p: Port, command: Command, capacity: nat) {
    HasRoom(p, capacity) && (command.Reload? ==> p.reload.None?)
  }

  function TrySend(p: Port, command: Command, capacity: nat): Port {
    if !Takes(p, command, capacity) then p
    else if command.Reload? then
      p.(queue := p.queue + [command], reload := Some(PendingReload(command.id, command.revision)))
    else p.(queue := p.queue + [command])
  }

  function FinishReload(p: Port, id: nat): Port {
    if p.reload.Some? && p.reload.value.id == id then p.(reload := None) else p
  }

  class LivePort {
    const capacity: nat
    var queue: seq<Command>
    var reload: Option<PendingReload>
    var retarget: Option<Path>
    var refresh: bool

    ghost function Value(): Port
      reads this
    {
      Port(queue, reload, retarget, refresh)
    }

    constructor (capacity: nat)
      ensures Value() == Port([], None, None, false) && this.capacity == capacity
    {
      this.capacity := capacity;
      queue, reload, retarget, refresh := [], None, None, false;
    }

    method Offer(command: Command) returns (sent: bool)
      modifies this
      ensures sent == HasRoom(old(Value()), capacity)
      ensures Value() == Enqueue(old(Value()), command, capacity)
    {
      sent := |queue| < capacity;
      if sent { queue := queue + [command]; }
    }

    /** `try_send`: enqueues or says busy, and a busy reload leaves the slot free. */
    method Send(command: Command) returns (sent: bool)
      modifies this
      ensures sent == Takes(old(Value()), command, capacity)
      ensures Value() == TrySend(old(Value()), command, capacity)
    {
      if command.Reload? {
        if reload.Some? { return false; }
        reload := Some(PendingReload(command.id, command.revision));
        sent := Offer(command);
        if !sent { reload := None; }
      } else {
        sent := Offer(command);
      }
    }

    /** `finish_reload`: the revision, for the outstanding id only. */
    method Finish(id: nat) returns (revision: Option<Option<string>>)
      modifies this
      ensures Value() == FinishReload(old(Value()), id)
      ensures revision == if old(reload).Some? && old(reload).value.id == id then Some(old(reload).value.revision) else None
    {
      if reload.Some? && reload.value.id == id {
        revision := Some(reload.value.revision);
        reload := None;
      } else {
        revision := None;
      }
    }
  }

  // ---- Setters, writer and reader together ----

  /** The command thread: blocked on the queue; with a command, before looking
      at the retarget slot; with a path to send; before looking at the refresh
      flag; with a refresh to send; with the command still to send; ended. */
  datatype Writer =
    | Blocked
    | Received(command: Command)
    | Retargeting(command: Command, path: nat)
    | Retargeted(command: Command)
    | Refreshing(command: Command)
    | Sending(command: Command)
    | Stopped

  /** History: `asked` is every path set, and the slot and `told` name paths by
      their place in it; `refreshes` counts refresh calls, `taken` and `shown`
      those covered by a taken flag and by a request sent; `accepted` and
      `handled` are commands in and out; `begun` and `finished` are reloads. */
  datatype Editor = Editor(
    queue: seq<Command>,
    reload: Option<PendingReload>,
    retarget: Option<nat>,
    refresh: bool,
    waking: set<Thread>,
    refreshing: set<Thread>,
    writer: Writer,
    asked: seq<Path>,
    told: seq<nat>,
    refreshes: nat,
    taken: nat,
    shown: nat,
    accepted: seq<Command>,
    handled: seq<Command>,
    begun: seq<PendingReload>,
    finished: seq<PendingReload>)

  const NEW_EDITOR: Editor :=
    Editor([], None, None, false, {}, {}, Blocked, [], [], 0, 0, 0, [], [], [], [])

  function PortOf(s: Editor): Port {
    Port(s.queue, s.reload, if s.retarget.Some? && s.retarget.value < |s.asked| then Some(s.asked[s.retarget.value]) else None, s.refresh)
  }

  /** How a send to the editor ends: written, refused by the encoder, or failed
      on the stream. */
  datatype SendResult = Written | Unencodable | Broken

  datatype Step =
    | SetRetarget(w: Thread, path: Path)
    | WakeRetarget(w: Thread)
    | SwapRefresh(w: Thread)
    | WakeRefresh(w: Thread)
    | Submit(command: Command)
    | Applied(id: nat)
    | Receive
    | TakeRetarget
    | SendRetarget(ok: bool)
    | TakeRefresh
    | SendRefresh(ok: bool)
    | SendCommand(result: SendResult)

  predicate Enabled(s: Editor, step: Step) {
    match step
    case SetRetarget(w, _) => w !in s.waking && w !in s.refreshing
    case WakeRetarget(w) => w in s.waking
    case SwapRefresh(w) => w !in s.waking && w !in s.refreshing
    case WakeRefresh(w) => w in s.refreshing
    case Submit(_) => true
    case Applied(_) => true
    case Receive => s.writer.Blocked? && s.queue != []
    case TakeRetarget => s.writer.Received?
    case SendRetarget(_) => s.writer.Retargeting?
    case TakeRefresh => s.writer.Retargeted?
    case SendRefresh(_) => s.writer.Refreshing?
    case SendCommand(_) => s.writer.Sending?
  }

  function Offered(s: Editor, command: Command, capacity: nat): Editor {
    if HasRoom(PortOf(s), capacity) then s.(queue := s.queue + [command], accepted := s.accepted + [command]) else s
  }

  function Submitted(s: Editor, command: Command, capacity: nat): Editor {
    if !Takes(PortOf(s), command, capacity) then s
    else
      var port := TrySend(PortOf(s), command, capacity);
      s.(queue := port.queue, reload := port.reload, accepted := s.accepted + [command],
         begun := if command.Reload? then s.begun + [PendingReload(command.id, command.revision)] else s.begun)
  }

  function Next(s: Editor, step: Step, capacity: nat): (s': Editor)
    requires Enabled(s, step)
  {
    match step
    case SetRetarget(w, path) => s.(retarget := Some(|s.asked|), asked := s.asked + [path], waking := s.waking + {w})
    case WakeRetarget(w) => Offered(s, Wake, capacity).(waking := s.waking - {w})
    case SwapRefresh(w) =>
      s.(refresh := true, refreshes := s.refreshes + 1,
         refreshing := if s.refresh then s.refreshing else s.refreshing + {w})
    case WakeRefresh(w) => Offered(s, Wake, capacity).(refreshing := s.refreshing - {w})
    case Submit(command) => Submitted(s, command, capacity)
    case Applied(id) =>
      s.(reload := FinishReload(PortOf(s), id).reload,
         finished := if s.reload.Some? && s.reload.value.id == id then s.finished + [s.reload.value] else s.finished)
    case Receive => s.(writer := Received(s.queue[0]), queue := s.queue[1..])
    case TakeRetarget =>
      if s.retarget.Some? then s.(retarget := None, writer := Retargeting(s.writer.command, s.retarget.value))
      else s.(writer := Retargeted(s.writer.command))
    case SendRetarget(ok) =>
      if ok then s.(told := s.told + [s.writer.path], writer := Retargeted(s.writer.command)) else s.(writer := Stopped)
    case TakeRefresh =>
      if s.refresh then s.(refresh := false, taken := s.refreshes, writer := Refreshing(s.writer.command))
      else s.(writer := Sending(s.writer.command))
    case SendRefresh(ok) =>
      if !ok then s.(writer := Stopped)
      else
        var s' := s.(shown := s.taken);
        if s.writer.command.Wake? then s'.(writer := Blocked, handled := s.handled + [Wake])
        else s'.(writer := Sending(s.writer.command))
    case SendCommand(result) =>
      if result.Written? || (result.Unencodable? && s.writer.command.Marks?)
      then s.(writer := Blocked, handled := s.handled + [s.writer.command])
      else s.(writer := Stopped)
  }

  ghost predicate IsRun(run: seq<Editor>, steps: seq<Step>, capacity: nat) {
    && |run| == |steps| + 1
    && run[0] == NEW_EDITOR
    && forall i {:trigger steps[i]} :: 0 <= i < |steps| ==> Enabled(run[i], steps[i]) && run[i + 1] == Next(run[i], steps[i], capacity)
  }

  // ---- What stays true ----

  /** A set slot has someone coming for it. */
  ghost predicate DebtsWake(s: Editor) {
    && (s.retarget.Some? && !s.writer.Stopped? ==> s.queue != [] || s.waking != {} || s.writer.Received?)
    && (s.refresh && !s.writer.Stopped? ==>
          || s.queue != [] || s.refreshing != {}
          || s.writer.Received? || s.writer.Retargeting? || s.writer.Retargeted?)
  }

  ghost predicate Rising(s: seq<nat>) {
    forall i, j :: 0 <= i < j < |s| ==> s[i] < s[j]
  }

  /** What is told is told in order, and nothing newer than what is told is
      missing from the slot and the writer's hand. */
  ghost predicate RetargetTrue(s: Editor) {
    && Rising(s.told)
    && (forall i :: 0 <= i < |s.told| ==> s.told[i] < |s.asked|)
    && (s.retarget.Some? ==> s.asked != [] && s.retarget.value == |s.asked| - 1)
    && (s.writer.Retargeting? ==>
          && s.writer.path < |s.asked|
          && (s.told != [] ==> s.told[|s.told| - 1] < s.writer.path)
          && (s.retarget.Some? ==> s.writer.path < s.retarget.value)
          && (s.retarget.None? ==> s.writer.path == |s.asked| - 1))
    && (s.retarget.Some? && s.told != [] ==> s.told[|s.told| - 1] < s.retarget.value)
    && (s.retarget.None? && !s.writer.Retargeting? && !s.writer.Stopped? && s.asked != [] ==>
          s.told != [] && s.told[|s.told| - 1] == |s.asked| - 1)
  }

  ghost predicate RefreshTrue(s: Editor) {
    && s.shown <= s.taken <= s.refreshes
    && (!s.refresh ==> s.taken == s.refreshes)
    && (!s.writer.Refreshing? && !s.writer.Stopped? ==> s.shown == s.taken)
  }

  function InHand(w: Writer): seq<Command> {
    if w.Blocked? || w.Stopped? then [] else [w.command]
  }

  /** Commands go out as they came in. */
  ghost predicate OrderTrue(s: Editor) {
    if s.writer.Stopped? then s.handled <= s.accepted
    else s.accepted == s.handled + InHand(s.writer) + s.queue
  }

  ghost predicate ReloadTrue(s: Editor) {
    s.begun == s.finished + if s.reload.Some? then [s.reload.value] else []
  }

  ghost predicate Invariant(s: Editor) {
    DebtsWake(s) && RetargetTrue(s) && RefreshTrue(s) && OrderTrue(s) && ReloadTrue(s)
  }

  lemma OfferKeepsOrder(s: Editor, command: Command, capacity: nat)
    requires OrderTrue(s)
    ensures OrderTrue(Offered(s, command, capacity))
  {
    assert s.handled + InHand(s.writer) + (s.queue + [command]) == s.handled + InHand(s.writer) + s.queue + [command];
  }

  lemma SubmitKeeps(s: Editor, command: Command, capacity: nat)
    requires Invariant(s)
    ensures Invariant(Submitted(s, command, capacity))
  {
    OfferKeepsOrder(s, command, capacity);
  }

  /** A wake that finds the queue full finds it non-empty. */
  lemma WakeKeeps(s: Editor, step: Step, capacity: nat)
    requires Invariant(s) && Enabled(s, step) && capacity > 0 && (step.WakeRetarget? || step.WakeRefresh?)
    ensures Invariant(Next(s, step, capacity))
  {
    var s' := Offered(s, Wake, capacity);
    OfferKeepsOrder(s, Wake, capacity);
    assert s'.queue != [];
    assert RetargetTrue(s') && RefreshTrue(s') && ReloadTrue(s');
  }

  lemma SetterKeeps(s: Editor, step: Step, capacity: nat)
    requires Invariant(s) && Enabled(s, step) && (step.SetRetarget? || step.SwapRefresh? || step.Applied?)
    ensures Invariant(Next(s, step, capacity))
  {
    var s' := Next(s, step, capacity);
    if step.SetRetarget? {
      assert step.w in s'.waking;
    } else if step.SwapRefresh? {
      assert !s.refresh ==> step.w in s'.refreshing;
    }
  }

  predicate WriterStep(step: Step) {
    step.Receive? || step.TakeRetarget? || step.SendRetarget? || step.TakeRefresh? || step.SendRefresh? || step.SendCommand?
  }

  lemma ReceiveKeepsOrder(s: Editor, capacity: nat)
    requires OrderTrue(s) && Enabled(s, Receive)
    ensures OrderTrue(Next(s, Receive, capacity))
  {
    assert s.queue == [s.queue[0]] + s.queue[1..];
    assert s.handled + [] + s.queue == s.handled + [s.queue[0]] + s.queue[1..];
  }

  lemma WriterKeepsOrder(s: Editor, step: Step, capacity: nat)
    requires OrderTrue(s) && Enabled(s, step) && WriterStep(step) && !step.Receive?
    ensures OrderTrue(Next(s, step, capacity))
  {
    var s' := Next(s, step, capacity);
    assert !s.writer.Stopped? && InHand(s.writer) == [s.writer.command];
    if s'.writer.Stopped? {
      assert s.handled <= s.handled + [s.writer.command] + s.queue;
    } else if s'.writer.Blocked? {
      assert s'.handled + [] + s.queue == s.handled + [s.writer.command] + s.queue;
    }
  }

  lemma RetargetSent(s: Editor, capacity: nat)
    requires RetargetTrue(s) && Enabled(s, SendRetarget(true))
    ensures RetargetTrue(Next(s, SendRetarget(true), capacity))
  {
    var path := s.writer.path;
    forall i, j | 0 <= i < j < |s.told + [path]| ensures (s.told + [path])[i] < (s.told + [path])[j] {
      if j == |s.told| { assert s.told[i] <= s.told[|s.told| - 1] < path; }
    }
  }

  lemma WriterKeepsRetarget(s: Editor, step: Step, capacity: nat)
    requires RetargetTrue(s) && Enabled(s, step) && WriterStep(step)
    ensures RetargetTrue(Next(s, step, capacity))
  {
    if step == SendRetarget(true) {
      RetargetSent(s, capacity);
    } else {
      assert Next(s, step, capacity).told == s.told;
    }
  }

  lemma WriterKeeps(s: Editor, step: Step, capacity: nat)
    requires Invariant(s) && Enabled(s, step) && WriterStep(step)
    ensures Invariant(Next(s, step, capacity))
  {
    if step.Receive? { ReceiveKeepsOrder(s, capacity); } else { WriterKeepsOrder(s, step, capacity); }
    WriterKeepsRetarget(s, step, capacity);
    WriterKeepsRest(s, step, capacity);
  }

  lemma WriterKeepsRest(s: Editor, step: Step, capacity: nat)
    requires DebtsWake(s) && RefreshTrue(s) && ReloadTrue(s) && Enabled(s, step) && WriterStep(step)
    ensures var s' := Next(s, step, capacity); DebtsWake(s') && RefreshTrue(s') && ReloadTrue(s')
  {
  }

  lemma StepKeeps(s: Editor, step: Step, capacity: nat)
    requires Invariant(s) && Enabled(s, step) && capacity > 0
    ensures Invariant(Next(s, step, capacity))
  {
    match step
    case SetRetarget(_, _) => SetterKeeps(s, step, capacity);
    case SwapRefresh(_) => SetterKeeps(s, step, capacity);
    case Applied(_) => SetterKeeps(s, step, capacity);
    case WakeRetarget(_) => WakeKeeps(s, step, capacity);
    case WakeRefresh(_) => WakeKeeps(s, step, capacity);
    case Submit(command) => SubmitKeeps(s, command, capacity);
    case _ => WriterKeeps(s, step, capacity);
  }

  lemma {:induction false} RunKeeps(run: seq<Editor>, steps: seq<Step>, capacity: nat, n: nat)
    requires IsRun(run, steps, capacity) && n < |run| && capacity > 0
    ensures Invariant(run[n])
  {
    if n > 0 {
      RunKeeps(run, steps, capacity, n - 1);
      StepKeeps(run[n - 1], steps[n - 1], capacity);
    }
  }

  // ---- What the session relies on ----

  /** While the writer lives, a set slot is never left without a wake. */
  lemma NoDebtWithoutAWake(run: seq<Editor>, steps: seq<Step>, capacity: nat, n: nat)
    requires IsRun(run, steps, capacity) && n < |run| && capacity > 0 && !run[n].writer.Stopped?
    ensures run[n].retarget.Some? ==> run[n].queue != [] || run[n].waking != {} || run[n].writer.Received?
    ensures run[n].refresh ==>
              || run[n].queue != [] || run[n].refreshing != {}
              || run[n].writer.Received? || run[n].writer.Retargeting? || run[n].writer.Retargeted?
  {
    RunKeeps(run, steps, capacity, n);
  }

  ghost predicate Quiet(s: Editor) {
    s.queue == [] && s.waking == {} && s.refreshing == {} && s.writer.Blocked?
  }

  /** Once everything has drained, no debt is left: the editor was told the
      last path set, the last thing it was told; a state request went out after
      every refresh call; and every accepted command was handled, in order. */
  lemma QuietOwesNothing(run: seq<Editor>, steps: seq<Step>, capacity: nat, n: nat)
    requires IsRun(run, steps, capacity) && n < |run| && capacity > 0 && Quiet(run[n])
    ensures var s := run[n];
            && s.retarget.None? && !s.refresh
            && (s.asked != [] ==> s.told != [] && s.told[|s.told| - 1] == |s.asked| - 1)
            && s.shown == s.refreshes
            && s.handled == s.accepted
  {
    RunKeeps(run, steps, capacity, n);
  }

  /** Paths are told in the order they were set, none twice. */
  lemma PathsToldInOrder(run: seq<Editor>, steps: seq<Step>, capacity: nat, n: nat)
    requires IsRun(run, steps, capacity) && n < |run| && capacity > 0
    ensures Rising(run[n].told) && forall i :: 0 <= i < |run[n].told| ==> run[n].told[i] < |run[n].asked|
  {
    RunKeeps(run, steps, capacity, n);
  }

  /** Reloads are outstanding one at a time, and each answered one was answered
      once, in turn, with its own id and revision. */
  lemma ReloadsAnsweredInTurn(run: seq<Editor>, steps: seq<Step>, capacity: nat, n: nat)
    requires IsRun(run, steps, capacity) && n < |run| && capacity > 0
    ensures run[n].begun == run[n].finished + if run[n].reload.Some? then [run[n].reload.value] else []
    ensures |run[n].begun| - |run[n].finished| <= 1
  {
    RunKeeps(run, steps, capacity, n);
  }

  /** A submitted command is accepted, and its reload begun, exactly if the queue
      has room and no other reload is unanswered; a refused one leaves no trace. */
  lemma SubmittedIsTakenIff(run: seq<Editor>, steps: seq<Step>, capacity: nat, n: nat, command: Command)
    requires IsRun(run, steps, capacity) && n < |steps| && capacity > 0 && steps[n] == Submit(command)
    ensures var s, s' := run[n], run[n + 1];
            if |s.queue| < capacity && (command.Reload? ==> s.begun == s.finished) then
              && s'.accepted == s.accepted + [command] && s'.queue == s.queue + [command]
              && s'.begun == s.begun + if command.Reload? then [PendingReload(command.id, command.revision)] else []
            else s' == s
  {
    assert run[n + 1] == Next(run[n], steps[n], capacity);
    RunKeeps(run, steps, capacity, n);
  }

  /** The editor's answer to the outstanding reload leaves none unanswered; any
      other answer settles nothing. */
  lemma AnswerSettles(run: seq<Editor>, steps: seq<Step>, capacity: nat, n: nat, id: nat)
    requires IsRun(run, steps, capacity) && n < |steps| && capacity > 0 && steps[n] == Applied(id)
    ensures var s, s' := run[n], run[n + 1];
            && s'.begun == s.begun
            && if s.begun != [] && s.begun != s.finished && s.begun[|s.begun| - 1].id == id then s'.finished == s.begun
               else s'.finished == s.finished
  {
    assert run[n + 1] == Next(run[n], steps[n], capacity);
    RunKeeps(run, steps, capacity, n);
  }

  /** The writer stops only over a send that failed, and a mark that cannot be
      encoded is no such failure. */
  lemma StopsOnlyOnFailure(run: seq<Editor>, steps: seq<Step>, capacity: nat, n: nat)
    requires IsRun(run, steps, capacity) && n < |steps| && !run[n].writer.Stopped? && run[n + 1].writer.Stopped?
    ensures || steps[n] == SendRetarget(false) || steps[n] == SendRefresh(false) || steps[n] == SendCommand(Broken)
            || (steps[n] == SendCommand(Unencodable) && !run[n].writer.command.Marks?)
  {
    assert Enabled(run[n], steps[n]) && run[n + 1] == Next(run[n], steps[n], capacity);
  }

  /** A command counts as handled only once it was sent itself; two do without:
      a mark that cannot be encoded, and a wake whose state request the refresh
      has just sent. */
  lemma HandledIsSent(run: seq<Editor>, steps: seq<Step>, capacity: nat, n: nat)
    requires IsRun(run, steps, capacity) && n < |steps| && run[n + 1].handled != run[n].handled
    ensures !run[n].writer.Blocked? && !run[n].writer.Stopped?
    ensures var command := run[n].writer.command;
            && run[n + 1].handled == run[n].handled + [command]
            && (|| steps[n] == SendCommand(Written)
                || (steps[n] == SendCommand(Unencodable) && command.Marks?)
                || (steps[n] == SendRefresh(true) && command == Wake))
  {
    assert Enabled(run[n], steps[n]) && run[n + 1] == Next(run[n], steps[n], capacity);
  }
}

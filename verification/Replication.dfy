/** The whole terminal replication protocol: every terminal, every client's
    daemon half, writer task, attach handlers, wire and replicas, under any
    interleaving of their steps.

    The invariant is, client by client and terminal by terminal, that of the
    view; beside it, that queues stay within bounds, that whoever lags will be
    looked at again, and that only terminals the daemon has started are named. */
module Replication {
  import opened Options
  import opened TerminalTypes
  import opened Engine
  import opened Replica
  import opened Emission
  import opened Handles
  import opened Flow
  import opened View

  type Tid = Handles.TerminalId

  /** The writer task: blocked on its queue, past a write and about to look at
      what is left, past that and about to ask whether the client lags, or on
      its way into recovery. */
  datatype Writer = Waiting | Checking | Asking | Recovering

  /** `attach` holds the latest handler of a terminal between `begin_attach` and
      `finish_attach`, `late` earlier ones that have acked and not finished,
      `owed` counts those about to recover, `wire` is what was written and not
      yet taken by the client. */
  datatype Client = Client(
    h: Handle,
    writer: Writer,
    attach: map<Tid, Handler>,
    late: multiset<Tid>,
    owed: nat,
    wire: seq<Message>,
    grids: map<Tid, Grid>)

  datatype System = System(terminals: map<Tid, Terminal>, clients: map<ClientId, Client>)

  const NEW_CLIENT: Client := Client(FRESH, Waiting, map[], multiset{}, 0, [], map[])

  function Get<T>(m: map<Tid, T>, t: Tid): Option<T> {
    if t in m then Some(m[t]) else None
  }

  function HandlerOf(c: Client, t: Tid): Handler {
    if t in c.attach then c.attach[t] else Idle
  }

  function ViewOf(c: Client, t: Tid): View {
    View(t, t in c.h.subscriptions, t in c.h.behind, Get(c.h.attaching, t), Get(c.h.finished, t),
         HandlerOf(c, t), Proj(c.wire + c.h.queue, t), Get(c.grids, t))
  }

  // ---- What a client does ----

  function ClientBegin(c: Client, t: Tid, s: TerminalSnapshot): Client {
    c.(h := BeginAttach(c.h, t), attach := c.attach[t := Holding(s)],
       late := if t in c.attach then c.late + multiset{t} else c.late)
  }

  function ClientQueueAck(c: Client, t: Tid): Client
    requires HandlerOf(c, t).Holding? && CanSend(c.h)
  {
    c.(h := Send(c.h, AttachAck(t, c.attach[t].snapshot)), attach := c.attach[t := Acked])
  }

  function ClientFinish(c: Client, t: Tid): Client {
    c.(h := FinishAttach(c.h, t), attach := c.attach - {t},
       owed := if Missed(c.h, t) then c.owed + 1 else c.owed)
  }

  function ClientFinishLate(c: Client, t: Tid): Client {
    c.(h := FinishAttach(c.h, t), late := c.late - multiset{t},
       owed := if Missed(c.h, t) then c.owed + 1 else c.owed)
  }

  function ClientOther(c: Client, tag: nat): Client {
    if CanSend(c.h) then c.(h := Send(c.h, OtherMessage(tag))) else c
  }

  function WriterTakes(c: Client): Client
    requires c.h.queue != []
  {
    c.(wire := c.wire + [c.h.queue[0]], h := c.h.(queue := c.h.queue[1..]), writer := Checking)
  }

  function WriterChecks(c: Client): Client {
    c.(writer := if |c.h.queue| <= DELTA_LOW_WATER then Asking else Waiting)
  }

  function WriterAsks(c: Client): Client {
    c.(writer := if c.h.behind != {} then Recovering else Waiting)
  }

  function ClientTakes(c: Client): Client
    requires c.wire != [] && !c.wire[0].AttachAck?
  {
    var rest := c.(wire := c.wire[1..]);
    if c.wire[0].OtherMessage? then rest else rest.(grids := ApplyEvent(c.grids, EventOf(c.wire[0])).0)
  }

  function ClientInstalls(c: Client, i: nat): Client
    requires i < |c.wire| && c.wire[i].AttachAck?
  {
    c.(wire := c.wire[..i] + c.wire[i + 1..],
       grids := c.grids[c.wire[i].terminal := FromSnapshot(c.wire[i].snapshot)])
  }

  // ---- Steps of the system ----

  datatype Step =
    | Spawn(t: Tid, engine: Engine)
    | Output(t: Tid, after: Engine)
    | EmitDelta(t: Tid)
    | Exit(t: Tid)
    | Connect(c: ClientId)
    | Disconnect(c: ClientId)
    | Begin(c: ClientId, t: Tid)
    | QueueAck(c: ClientId, t: Tid)
    | Finish(c: ClientId, t: Tid)
    | FinishLate(c: ClientId, t: Tid)
    | HandlerRecovers(c: ClientId, order: seq<Tid>)
    | Detach(c: ClientId, t: Tid)
    | SendOther(c: ClientId, tag: nat)
    | WriterTake(c: ClientId)
    | WriterCheck(c: ClientId)
    | WriterAsk(c: ClientId)
    | WriterRecovers(c: ClientId, order: seq<Tid>)
    | TakeEvent(c: ClientId)
    | InstallAck(c: ClientId, i: nat)
    | DropGrid(c: ClientId, t: Tid)

  function Live(s: System): map<Tid, TerminalSnapshot> {
    map t | t in s.terminals && s.terminals[t].live :: SnapshotOf(s.terminals[t])
  }

  /** The client's half of one attach at a time: it asks again only once it has
      the ack of its last attach. */
  ghost predicate MayAttach(c: Client, t: Tid) {
    !HandlerOf(c, t).Holding? && forall m :: m in c.wire + c.h.queue ==> !(m.AttachAck? && m.terminal == t)
  }

  /** The daemon's half: the handler of that attach has finished too. */
  predicate HandlerDone(c: Client, t: Tid) {
    t !in c.attach
  }

  ghost predicate Enabled(s: System, step: Step) {
    match step
    case Spawn(t, engine) => t !in s.terminals && Valid(engine)
    case Output(t, after) => t in s.terminals && CanFeed(s.terminals[t], after)
    case EmitDelta(t) => t in s.terminals && CanEmit(s.terminals[t]) && Valid(s.terminals[t].engine)
    case Exit(t) => t in s.terminals && s.terminals[t].live
    case Connect(c) => c !in s.clients
    case Disconnect(c) => c in s.clients
    case Begin(c, t) =>
      && c in s.clients && t in s.terminals && s.terminals[t].live
      && MayAttach(s.clients[c], t)
    case QueueAck(c, t) =>
      c in s.clients && HandlerOf(s.clients[c], t).Holding? && CanSend(s.clients[c].h)
    case Finish(c, t) => c in s.clients && HandlerOf(s.clients[c], t) == Acked
    case FinishLate(c, t) => c in s.clients && t in s.clients[c].late
    case HandlerRecovers(c, order) =>
      c in s.clients && s.clients[c].owed > 0 && IsOrderOf(order, s.clients[c].h.behind)
    case Detach(c, t) => c in s.clients
    case SendOther(c, _) => c in s.clients
    case WriterTake(c) => c in s.clients && s.clients[c].writer == Waiting && s.clients[c].h.queue != []
    case WriterCheck(c) => c in s.clients && s.clients[c].writer == Checking
    case WriterAsk(c) => c in s.clients && s.clients[c].writer == Asking
    case WriterRecovers(c, order) =>
      c in s.clients && s.clients[c].writer == Recovering && IsOrderOf(order, s.clients[c].h.behind)
    case TakeEvent(c) => c in s.clients && s.clients[c].wire != [] && !s.clients[c].wire[0].AttachAck?
    case InstallAck(c, i) => c in s.clients && i < |s.clients[c].wire| && s.clients[c].wire[i].AttachAck?
    case DropGrid(c, t) => c in s.clients
  }

  function Put(s: System, c: ClientId, client: Client): System {
    s.(clients := s.clients[c := client])
  }

  function EmitAll(s: System, t: Tid): System
    requires t in s.terminals && Valid(s.terminals[t].engine)
  {
    var term := s.terminals[t];
    var delta := BuildDelta(term.engine, EmitSeq(term) + 1);
    var resync := SnapshotOf(Emit(term));
    System(s.terminals[t := Emit(term)],
           map c | c in s.clients :: s.clients[c].(h := RouteDelta(s.clients[c].h, t, delta, resync)))
  }

  function ExitAll(s: System, t: Tid): System
    requires t in s.terminals
  {
    var term := s.terminals[t];
    System(s.terminals[t := term.(live := false)],
           map c | c in s.clients :: s.clients[c].(h := FinishTerminal(s.clients[c].h, t, SnapshotOf(term))))
  }

  function Next(s: System, step: Step): (s': System)
    requires Enabled(s, step)
  {
    match step
    case Spawn(t, engine) => s.(terminals := s.terminals[t := Started(engine)])
    case Output(t, after) => s.(terminals := s.terminals[t := Feed(s.terminals[t], after)])
    case EmitDelta(t) => EmitAll(s, t)
    case Exit(t) => ExitAll(s, t)
    case Connect(c) => Put(s, c, NEW_CLIENT)
    case Disconnect(c) => s.(clients := s.clients - {c})
    case Begin(c, t) => Put(s, c, ClientBegin(s.clients[c], t, SnapshotOf(s.terminals[t])))
    case QueueAck(c, t) => Put(s, c, ClientQueueAck(s.clients[c], t))
    case Finish(c, t) => Put(s, c, ClientFinish(s.clients[c], t))
    case FinishLate(c, t) => Put(s, c, ClientFinishLate(s.clients[c], t))
    case HandlerRecovers(c, order) =>
      var client := s.clients[c];
      Put(s, c, client.(h := Recover(client.h, order, Live(s)), owed := client.owed - 1))
    case Detach(c, t) => Put(s, c, s.clients[c].(h := Unsubscribe(s.clients[c].h, t)))
    case SendOther(c, tag) => Put(s, c, ClientOther(s.clients[c], tag))
    case WriterTake(c) => Put(s, c, WriterTakes(s.clients[c]))
    case WriterCheck(c) => Put(s, c, WriterChecks(s.clients[c]))
    case WriterAsk(c) => Put(s, c, WriterAsks(s.clients[c]))
    case WriterRecovers(c, order) =>
      var client := s.clients[c];
      Put(s, c, client.(h := Recover(client.h, order, Live(s)), writer := Waiting))
    case TakeEvent(c) => Put(s, c, ClientTakes(s.clients[c]))
    case InstallAck(c, i) => Put(s, c, ClientInstalls(s.clients[c], i))
    case DropGrid(c, t) => Put(s, c, s.clients[c].(grids := s.clients[c].grids - {t}))
  }

  ghost predicate IsRun(run: seq<System>, steps: seq<Step>) {
    && |run| == |steps| + 1
    && run[0] == System(map[], map[])
    && forall i {:trigger steps[i]} :: 0 <= i < |steps| ==> Enabled(run[i], steps[i]) && run[i + 1] == Next(run[i], steps[i])
  }

  /** A new attach finds the handler of the last one finished. */
  ghost predicate Orderly(s: System, step: Step)
    requires Enabled(s, step)
  {
    step.Begin? ==> HandlerDone(s.clients[step.c], step.t)
  }

  ghost predicate IsOrderlyRun(run: seq<System>, steps: seq<Step>) {
    IsRun(run, steps) && forall i {:trigger steps[i]} :: 0 <= i < |steps| ==> Enabled(run[i], steps[i]) && Orderly(run[i], steps[i])
  }

  // ---- The invariant ----

  function Load(queue: seq<Message>): (n: nat)
    ensures n <= |queue|
  {
    if queue == [] then 0 else (if IsTerminalOutput(queue[0]) then 1 else 0) + Load(queue[1..])
  }

  /** Whoever lags has a step coming that will look at it again. */
  ghost predicate WillBeSeen(c: Client) {
    c.h.behind != {} ==> c.h.queue != [] || c.writer != Waiting || c.owed > 0
  }

  ghost predicate ViewsTrue(c: Client, terms: map<Tid, Terminal>) {
    forall t {:trigger ViewOf(c, t)} :: t in terms ==> ViewInv(ViewOf(c, t), terms[t])
  }

  ghost predicate QueueBounded(h: Handle) {
    h.open && |h.queue| <= CLIENT_QUEUE_CAPACITY && Load(h.queue) <= DELTA_HIGH_WATER
  }

  ghost predicate ClientInv(c: Client, terms: map<Tid, Terminal>) {
    && ViewsTrue(c, terms)
    && c.h.subscriptions <= terms.Keys
    && c.h.behind <= c.h.subscriptions
    && QueueBounded(c.h)
    && WillBeSeen(c)
  }

  ghost predicate SystemInv(s: System) {
    && (forall t :: t in s.terminals ==> TerminalValid(s.terminals[t]))
    && (forall c :: c in s.clients ==> ClientInv(s.clients[c], s.terminals))
  }

  lemma {:induction false} LoadConcat(a: seq<Message>, b: seq<Message>)
    ensures Load(a + b) == Load(a) + Load(b)
    decreases |a|
  {
    if a == [] {
      assert a + b == b;
    } else {
      assert (a + b)[1..] == a[1..] + b;
      LoadConcat(a[1..], b);
    }
  }

  lemma LoadOne(m: Message)
    ensures Load([m]) == if IsTerminalOutput(m) then 1 else 0
  {
    assert [m][1..] == [];
  }

  /** Sending changes only the view of the terminal the message names. */
  lemma SendView(c: Client, h: Handle, m: Message, t: Tid)
    requires h.queue == c.h.queue + [m]
    ensures ViewOf(c.(h := h), t).msgs == ViewOf(c, t).msgs + (if Concerns(m, t) then [m] else [])
  {
    assert c.wire + h.queue == (c.wire + c.h.queue) + [m];
    ProjConcat(c.wire + c.h.queue, [m], t);
    ProjOne(m, t);
  }

  lemma SendBounded(h: Handle, m: Message)
    requires QueueBounded(h) && CanSend(h)
    requires IsTerminalOutput(m) ==> |h.queue| < DELTA_HIGH_WATER
    ensures QueueBounded(Send(h, m))
  {
    LoadConcat(h.queue, [m]);
    LoadOne(m);
  }

  // ---- Emission ----

  lemma RouteOther(c: Client, t: Tid, u: Tid, delta: TerminalDelta, resync: TerminalSnapshot)
    requires u != t
    ensures ViewOf(c.(h := RouteDelta(c.h, t, delta, resync)), u) == ViewOf(c, u)
  {
    var h := RouteDelta(c.h, t, delta, resync);
    if h.queue == c.h.queue + [DeltaMessage(t, delta)] {
      SendView(c, h, DeltaMessage(t, delta), u);
    } else if h.queue == c.h.queue + [ResyncMessage(t, resync)] {
      SendView(c, h, ResyncMessage(t, resync), u);
    }
  }

  lemma RouteOwn(c: Client, t: Tid, term: Terminal)
    requires TerminalValid(term) && CanEmit(term) && ViewInv(ViewOf(c, t), term) && QueueBounded(c.h)
    ensures var h := RouteDelta(c.h, t, BuildDelta(term.engine, EmitSeq(term) + 1), SnapshotOf(Emit(term)));
            ViewInv(ViewOf(c.(h := h), t), Emit(term))
  {
    var v := ViewOf(c, t);
    var delta := BuildDelta(term.engine, EmitSeq(term) + 1);
    var resync := SnapshotOf(Emit(term));
    var h := RouteDelta(c.h, t, delta, resync);
    var v' := ViewOf(c.(h := h), t);
    if !v.sub {
      assert v' == v;
      EmitKeepsRest(v, term);
    } else if v.attaching.Some? {
      assert v' == v.(attaching := Some(true));
      Withheld(v, term);
    } else if v.behind {
      FallsBehind(v, term);
      assert v.(behind := true) == v;
      if |c.h.queue| <= DELTA_LOW_WATER {
        SendView(c, h, ResyncMessage(t, resync), t);
        EmitKeepsTerminal(term);
        SnapshotShows(Emit(term));
        ResyncQueued(v, Emit(term), resync);
        assert v.finished.None?;
        assert v' == v.(msgs := v.msgs + [ResyncMessage(t, resync)], behind := false, finished := None);
      } else {
        assert v' == v;
      }
    } else if |c.h.queue| >= DELTA_HIGH_WATER {
      assert v' == v.(behind := true);
      FallsBehind(v, term);
    } else {
      SendView(c, h, DeltaMessage(t, delta), t);
      assert v' == v.(msgs := v.msgs + [DeltaMessage(t, delta)]);
      DeltaQueued(v, term);
    }
  }

  lemma RouteBounded(h: Handle, t: Tid, delta: TerminalDelta, resync: TerminalSnapshot)
    requires QueueBounded(h)
    ensures QueueBounded(RouteDelta(h, t, delta, resync))
  {
    if CanSend(h) && |h.queue| < DELTA_HIGH_WATER {
      SendBounded(h, DeltaMessage(t, delta));
      SendBounded(h, ResyncMessage(t, resync));
    }
  }

  lemma RouteView(c: Client, t: Tid, u: Tid, term: Terminal, other: Terminal)
    requires TerminalValid(term) && CanEmit(term) && QueueBounded(c.h)
    requires ViewInv(ViewOf(c, u), if u == t then term else other)
    ensures var h := RouteDelta(c.h, t, BuildDelta(term.engine, EmitSeq(term) + 1), SnapshotOf(Emit(term)));
            ViewInv(ViewOf(c.(h := h), u), if u == t then Emit(term) else other)
  {
    if u == t {
      RouteOwn(c, t, term);
    } else {
      RouteOther(c, t, u, BuildDelta(term.engine, EmitSeq(term) + 1), SnapshotOf(Emit(term)));
    }
  }

  lemma RouteKeeps(c: Client, t: Tid, terms: map<Tid, Terminal>)
    requires ClientInv(c, terms) && t in terms && TerminalValid(terms[t]) && CanEmit(terms[t])
    ensures var h := RouteDelta(c.h, t, BuildDelta(terms[t].engine, EmitSeq(terms[t]) + 1), SnapshotOf(Emit(terms[t])));
            ClientInv(c.(h := h), terms[t := Emit(terms[t])])
  {
    var delta := BuildDelta(terms[t].engine, EmitSeq(terms[t]) + 1);
    var resync := SnapshotOf(Emit(terms[t]));
    var c' := c.(h := RouteDelta(c.h, t, delta, resync));
    var terms' := terms[t := Emit(terms[t])];
    forall u | u in terms' ensures ViewInv(ViewOf(c', u), terms'[u]) {
      assert ViewInv(ViewOf(c, u), terms[u]);
      RouteView(c, t, u, terms[t], terms[u]);
    }
    RouteBounded(c.h, t, delta, resync);
  }

  // ---- Recovery ----

  ghost predicate LiveTrue(live: map<Tid, TerminalSnapshot>, terms: map<Tid, Terminal>) {
    && (forall t :: t in live ==> t in terms && Shows(OfSnapshot(live[t]), terms[t]) && live[t].seqNo == EmitSeq(terms[t]))
    && (forall t :: t in terms && terms[t].live ==> t in live)
  }

  lemma RecoverOneView(c: Client, t: Tid, u: Tid, live: map<Tid, TerminalSnapshot>, terms: map<Tid, Terminal>)
    requires ViewsTrue(c, terms) && LiveTrue(live, terms)
    requires t in c.h.behind && t in c.h.subscriptions && t in terms && CanSend(c.h) && u in terms
    ensures ViewInv(ViewOf(c.(h := RecoverOne(c.h, t, live)), u), terms[u])
  {
    var v := ViewOf(c, t);
    assert ViewInv(v, terms[t]);
    assert ViewInv(ViewOf(c, u), terms[u]);
    var event := RecoveryEvent(c.h, t, live);
    assert event.Some? && Shows(OfSnapshot(event.value), terms[t]) && event.value.seqNo == EmitSeq(terms[t]);
    var h := RecoverOne(c.h, t, live);
    SendView(c, h, ResyncMessage(t, event.value), u);
    if u == t {
      ResyncQueued(v, terms[t], event.value);
      assert ViewOf(c.(h := h), t) ==
             v.(msgs := v.msgs + [ResyncMessage(t, event.value)], behind := false, finished := None);
    } else {
      assert ViewOf(c.(h := h), u) == ViewOf(c, u);
    }
  }

  lemma {:induction false} RecoverKeeps(
      c: Client, order: seq<Tid>, live: map<Tid, TerminalSnapshot>, terms: map<Tid, Terminal>)
    requires ViewsTrue(c, terms) && QueueBounded(c.h) && LiveTrue(live, terms)
    requires c.h.subscriptions <= terms.Keys && c.h.behind <= c.h.subscriptions
    requires IsOrderOf(order, c.h.behind)
    ensures var h := Recover(c.h, order, live);
            && ViewsTrue(c.(h := h), terms) && QueueBounded(h)
            && h.subscriptions == c.h.subscriptions && h.behind <= c.h.behind
            && (h.behind != {} ==> h.queue != [])
    decreases |order|
  {
    if order == [] || |c.h.queue| > DELTA_LOW_WATER {
      assert c.h.behind != {} ==> c.h.queue != [] by {
        if order == [] { assert c.h.behind == {}; }
      }
    } else {
      var t := order[0];
      var c' := c.(h := RecoverOne(c.h, t, live));
      forall u | u in terms ensures ViewInv(ViewOf(c', u), terms[u]) {
        RecoverOneView(c, t, u, live, terms);
      }
      var event := RecoveryEvent(c.h, t, live);
      if event.Some? { SendBounded(c.h, ResyncMessage(t, event.value)); }
      assert IsOrderOf(order[1..], c'.h.behind);
      RecoverKeeps(c', order[1..], live, terms);
    }
  }

  lemma LiveIsTrue(s: System)
    requires forall t :: t in s.terminals ==> TerminalValid(s.terminals[t])
    ensures LiveTrue(Live(s), s.terminals)
  {
    forall t | t in Live(s) ensures Shows(OfSnapshot(Live(s)[t]), s.terminals[t]) {
      SnapshotShows(s.terminals[t]);
    }
  }

  // ---- The other steps, client by client ----

  lemma BeginKeeps(c: Client, t: Tid, terms: map<Tid, Terminal>)
    requires ClientInv(c, terms) && t in terms && TerminalValid(terms[t]) && terms[t].live
    requires MayAttach(c, t) && HandlerDone(c, t)
    ensures ClientInv(ClientBegin(c, t, SnapshotOf(terms[t])), terms)
  {
    var c' := ClientBegin(c, t, SnapshotOf(terms[t]));
    forall u | u in terms ensures ViewInv(ViewOf(c', u), terms[u]) {
      var v := ViewOf(c, u);
      assert ViewInv(v, terms[u]);
      if u == t {
        ProjOnly(c.wire + c.h.queue, t);
        assert NoAckDue(v);
        Begins(v, terms[t]);
        assert ViewOf(c', t) == v.(sub := true, behind := false, attaching := Some(false),
                                   handler := Holding(SnapshotOf(terms[t])));
      } else {
        assert ViewOf(c', u) == v;
      }
    }
  }

  lemma QueueAckKeeps(c: Client, t: Tid, terms: map<Tid, Terminal>)
    requires ClientInv(c, terms) && HandlerOf(c, t).Holding? && CanSend(c.h)
    ensures ClientInv(ClientQueueAck(c, t), terms)
  {
    var c' := ClientQueueAck(c, t);
    var ack := AttachAck(t, c.attach[t].snapshot);
    forall u | u in terms ensures ViewInv(ViewOf(c', u), terms[u]) {
      var v := ViewOf(c, u);
      assert ViewInv(v, terms[u]);
      SendView(c, c'.h, ack, u);
      if u == t {
        AckQueued(v, terms[t]);
        assert ViewOf(c', t) == v.(msgs := v.msgs + [ack], handler := Acked);
      } else {
        assert ViewOf(c', u) == v;
      }
    }
    SendBounded(c.h, ack);
  }

  lemma FinishKeeps(c: Client, t: Tid, terms: map<Tid, Terminal>)
    requires ClientInv(c, terms) && HandlerOf(c, t) == Acked
    ensures ClientInv(ClientFinish(c, t), terms)
  {
    var c' := ClientFinish(c, t);
    forall u | u in terms ensures ViewInv(ViewOf(c', u), terms[u]) {
      var v := ViewOf(c, u);
      assert ViewInv(v, terms[u]);
      if u == t {
        Finishes(v, terms[t]);
        assert ViewOf(c', t) == v.(attaching := None, handler := Idle,
                                   behind := if v.attaching == Some(true) && v.sub then true else v.behind);
      } else {
        assert ViewOf(c', u) == v;
      }
    }
  }

  lemma DetachKeeps(c: Client, t: Tid, terms: map<Tid, Terminal>)
    requires ClientInv(c, terms)
    ensures ClientInv(c.(h := Unsubscribe(c.h, t)), terms)
  {
    var c' := c.(h := Unsubscribe(c.h, t));
    forall u | u in terms ensures ViewInv(ViewOf(c', u), terms[u]) {
      var v := ViewOf(c, u);
      assert ViewInv(v, terms[u]);
      if u == t {
        Detaches(v, terms[t]);
        assert ViewOf(c', t) == v.(sub := false, behind := false, attaching := None, finished := None);
      } else {
        assert ViewOf(c', u) == v;
      }
    }
  }

  lemma OtherKeeps(c: Client, tag: nat, terms: map<Tid, Terminal>)
    requires ClientInv(c, terms)
    ensures ClientInv(ClientOther(c, tag), terms)
  {
    if CanSend(c.h) {
      var c' := ClientOther(c, tag);
      forall u | u in terms ensures ViewInv(ViewOf(c', u), terms[u]) {
        assert ViewInv(ViewOf(c, u), terms[u]);
        SendView(c, c'.h, OtherMessage(tag), u);
        assert ViewOf(c', u) == ViewOf(c, u);
      }
      SendBounded(c.h, OtherMessage(tag));
    }
  }

  lemma WriterTakeKeeps(c: Client, terms: map<Tid, Terminal>)
    requires ClientInv(c, terms) && c.h.queue != []
    ensures ClientInv(WriterTakes(c), terms)
  {
    var c' := WriterTakes(c);
    assert c'.wire + c'.h.queue == c.wire + c.h.queue;
    forall u | u in terms ensures ViewInv(ViewOf(c', u), terms[u]) {
      assert ViewOf(c', u) == ViewOf(c, u);
    }
  }

  lemma SameViews(c: Client, c': Client, terms: map<Tid, Terminal>)
    requires ViewsTrue(c, terms)
    requires c'.h == c.h && c'.attach == c.attach && c'.wire == c.wire && c'.grids == c.grids
    ensures ViewsTrue(c', terms)
  {
    forall u | u in terms ensures ViewInv(ViewOf(c', u), terms[u]) {
      assert ViewOf(c', u) == ViewOf(c, u);
    }
  }

  lemma TakenView(c: Client, u: Tid)
    requires c.wire != [] && !c.wire[0].AttachAck?
    ensures var v, v', m := ViewOf(c, u), ViewOf(ClientTakes(c), u), c.wire[0];
            if Concerns(m, u)
            then v.msgs != [] && v.msgs[0] == m
                 && v' == v.(msgs := v.msgs[1..], grid := ApplyOption(v.grid, EventOf(m)))
            else v' == v
  {
    var c', m, v := ClientTakes(c), c.wire[0], ViewOf(c, u);
    assert c.wire + c.h.queue == [m] + (c'.wire + c'.h.queue);
    ProjConcat([m], c'.wire + c'.h.queue, u);
    ProjOne(m, u);
    if Concerns(m, u) {
      assert v.msgs[1..] == ViewOf(c', u).msgs;
    }
  }

  lemma TakeEventView(c: Client, u: Tid, term: Terminal)
    requires ViewInv(ViewOf(c, u), term) && TerminalValid(term)
    requires c.wire != [] && !c.wire[0].AttachAck?
    ensures ViewInv(ViewOf(ClientTakes(c), u), term)
  {
    TakenView(c, u);
    if Concerns(c.wire[0], u) {
      TakesEvent(ViewOf(c, u), term);
    }
  }

  lemma TakeEventKeeps(c: Client, terms: map<Tid, Terminal>)
    requires ClientInv(c, terms) && forall t :: t in terms ==> TerminalValid(terms[t])
    requires c.wire != [] && !c.wire[0].AttachAck?
    ensures ClientInv(ClientTakes(c), terms)
  {
    forall u | u in terms ensures ViewInv(ViewOf(ClientTakes(c), u), terms[u]) {
      assert ViewInv(ViewOf(c, u), terms[u]);
      TakeEventView(c, u, terms[u]);
    }
  }

  /** Taking the ack out of the wire takes it out of its terminal's messages. */
  lemma InstallView(c: Client, i: nat, u: Tid)
    requires i < |c.wire| && c.wire[i].AttachAck?
    ensures var ack := c.wire[i]; var k := |Proj(c.wire[..i], u)|;
            var ms := ViewOf(c, u).msgs; var ms' := ViewOf(ClientInstalls(c, i), u).msgs;
            if Concerns(ack, u) then k < |ms| && ms[k] == ack && ms' == ms[..k] + ms[k + 1..] else ms' == ms
  {
    var c' := ClientInstalls(c, i);
    var ack := c.wire[i];
    var a, b := c.wire[..i], c.wire[i + 1..] + c.h.queue;
    assert c.wire + c.h.queue == (a + [ack]) + b;
    assert c'.wire + c'.h.queue == a + b;
    ProjConcat(a + [ack], b, u);
    ProjConcat(a, [ack], u);
    ProjConcat(a, b, u);
    ProjOne(ack, u);
  }

  lemma InstallAckKeeps(c: Client, i: nat, terms: map<Tid, Terminal>)
    requires ClientInv(c, terms)
    requires i < |c.wire| && c.wire[i].AttachAck?
    ensures ClientInv(ClientInstalls(c, i), terms)
  {
    var c' := ClientInstalls(c, i);
    var ack := c.wire[i];
    forall u | u in terms ensures ViewInv(ViewOf(c', u), terms[u]) {
      var v := ViewOf(c, u);
      assert ViewInv(v, terms[u]);
      InstallView(c, i, u);
      if Concerns(ack, u) {
        var k := |Proj(c.wire[..i], u)|;
        InstallsAck(v, terms[u], k);
        assert ViewOf(c', u) == v.(msgs := v.msgs[..k] + v.msgs[k + 1..], grid := Some(FromSnapshot(ack.snapshot)));
      } else {
        assert ViewOf(c', u) == v;
      }
    }
  }

  lemma DropGridKeeps(c: Client, t: Tid, terms: map<Tid, Terminal>)
    requires ClientInv(c, terms)
    ensures ClientInv(c.(grids := c.grids - {t}), terms)
  {
    var c' := c.(grids := c.grids - {t});
    forall u | u in terms ensures ViewInv(ViewOf(c', u), terms[u]) {
      var v := ViewOf(c, u);
      assert ViewInv(v, terms[u]);
      if u == t {
        DropsGrid(v, terms[t]);
        assert ViewOf(c', t) == v.(grid := None);
      } else {
        assert ViewOf(c', u) == v;
      }
    }
  }

  lemma ExitKeeps(c: Client, t: Tid, terms: map<Tid, Terminal>)
    requires ClientInv(c, terms) && t in terms && TerminalValid(terms[t])
    ensures ClientInv(c.(h := FinishTerminal(c.h, t, SnapshotOf(terms[t]))), terms[t := terms[t].(live := false)])
  {
    var c' := c.(h := FinishTerminal(c.h, t, SnapshotOf(terms[t])));
    var terms' := terms[t := terms[t].(live := false)];
    forall u | u in terms' ensures ViewInv(ViewOf(c', u), terms'[u]) {
      var v := ViewOf(c, u);
      assert ViewInv(v, terms[u]);
      if u == t {
        Exits(v, terms[t]);
        var last := if v.behind || v.attaching == Some(true) then Some(SnapshotOf(terms[t])) else v.finished;
        assert ViewOf(c', t) == v.(finished := last);
      } else {
        assert ViewOf(c', u) == v;
      }
    }
  }

  lemma OutputKeeps(c: Client, t: Tid, after: Engine, terms: map<Tid, Terminal>)
    requires ClientInv(c, terms) && t in terms && CanFeed(terms[t], after)
    ensures ClientInv(c, terms[t := Feed(terms[t], after)])
  {
    var terms' := terms[t := Feed(terms[t], after)];
    forall u | u in terms' ensures ViewInv(ViewOf(c, u), terms'[u]) {
      assert ViewInv(ViewOf(c, u), terms[u]);
      if u == t { FeedKeeps(ViewOf(c, t), terms[t], after); }
    }
  }

  /** A terminal nobody has heard of yet changes nothing for a client. */
  lemma SpawnKeeps(c: Client, t: Tid, engine: Engine, terms: map<Tid, Terminal>)
    requires ClientInv(c, terms) && Untouched(c, t)
    ensures ClientInv(c, terms[t := Started(engine)])
  {
    var terms' := terms[t := Started(engine)];
    forall u | u in terms' ensures ViewInv(ViewOf(c, u), terms'[u]) {
      if u != t { assert ViewInv(ViewOf(c, u), terms[u]); }
    }
  }

  ghost predicate Untouched(c: Client, t: Tid) {
    ViewOf(c, t) == View(t, false, false, None, None, Idle, [], None)
  }

  // ---- Only terminals the daemon has started are ever named ----

  ghost predicate Names(ms: seq<Message>, ids: set<Tid>) {
    forall i :: 0 <= i < |ms| ==> ms[i].OtherMessage? || ms[i].terminal in ids
  }

  ghost predicate HandleNames(h: Handle, ids: set<Tid>) {
    h.subscriptions <= ids && h.behind <= ids && h.attaching.Keys <= ids && h.finished.Keys <= ids
    && Names(h.queue, ids)
  }

  ghost predicate ClientNames(c: Client, ids: set<Tid>) {
    HandleNames(c.h, ids) && c.attach.Keys <= ids && c.grids.Keys <= ids && Names(c.wire, ids)
  }

  lemma {:induction false} ProjUnnamed(ms: seq<Message>, ids: set<Tid>, t: Tid)
    requires Names(ms, ids) && t !in ids
    ensures Proj(ms, t) == []
    decreases |ms|
  {
    if ms != [] {
      ProjUnnamed(ms[1..], ids, t);
    }
  }

  lemma UnnamedUntouched(c: Client, ids: set<Tid>, t: Tid)
    requires ClientNames(c, ids) && t !in ids
    ensures Untouched(c, t)
  {
    assert Names(c.wire + c.h.queue, ids);
    ProjUnnamed(c.wire + c.h.queue, ids, t);
  }

  lemma {:induction false} RecoverNames(h: Handle, order: seq<Tid>, live: map<Tid, TerminalSnapshot>, ids: set<Tid>)
    requires HandleNames(h, ids) && forall i :: 0 <= i < |order| ==> order[i] in ids
    ensures HandleNames(Recover(h, order, live), ids)
    decreases |order|
  {
    if order != [] && |h.queue| <= DELTA_LOW_WATER {
      if CanSend(h) {
        RecoverNames(RecoverOne(h, order[0], live), order[1..], live, ids);
      } else if RecoveryEvent(h, order[0], live).None? {
        RecoverNames(h.(behind := h.behind - {order[0]}), order[1..], live, ids);
      }
    }
  }

  // ---- Every step, every run ----

  ghost predicate AllNames(s: System) {
    forall c :: c in s.clients ==> ClientNames(s.clients[c], s.terminals.Keys)
  }

  ghost predicate Invariant(s: System) {
    && SystemInv(s)
    && AllNames(s)
    && (forall c :: c in s.clients ==> s.clients[c].late == multiset{})
  }

  lemma NewClientKeeps(terms: map<Tid, Terminal>)
    ensures ClientInv(NEW_CLIENT, terms)
  {
    forall u | u in terms ensures ViewInv(ViewOf(NEW_CLIENT, u), terms[u]) {
      assert ViewOf(NEW_CLIENT, u) == View(u, false, false, None, None, Idle, [], None);
    }
  }

  /** Recovery by whoever runs it leaves no lag behind an empty queue. */
  lemma RecoverStepKeeps(s: System, c: ClientId, order: seq<Tid>, c': Client)
    requires SystemInv(s) && c in s.clients && IsOrderOf(order, s.clients[c].h.behind)
    requires c'.h == Recover(s.clients[c].h, order, Live(s))
    requires c'.attach == s.clients[c].attach && c'.wire == s.clients[c].wire && c'.grids == s.clients[c].grids
    ensures ClientInv(c', s.terminals)
  {
    var client := s.clients[c];
    assert ClientInv(client, s.terminals);
    LiveIsTrue(s);
    RecoverKeeps(client, order, Live(s), s.terminals);
    SameViews(client.(h := c'.h), c', s.terminals);
  }

  lemma SpawnStepKeeps(s: System, t: Tid, engine: Engine)
    requires Invariant(s) && Enabled(s, Spawn(t, engine))
    ensures SystemInv(Next(s, Spawn(t, engine)))
  {
    var s' := Next(s, Spawn(t, engine));
    forall c | c in s'.clients ensures ClientInv(s'.clients[c], s'.terminals) {
      UnnamedUntouched(s.clients[c], s.terminals.Keys, t);
      SpawnKeeps(s.clients[c], t, engine, s.terminals);
    }
  }

  lemma EmitStepKeeps(s: System, t: Tid)
    requires SystemInv(s) && Enabled(s, EmitDelta(t))
    ensures SystemInv(EmitAll(s, t))
  {
    var s' := EmitAll(s, t);
    EmitKeepsTerminal(s.terminals[t]);
    forall c | c in s'.clients ensures ClientInv(s'.clients[c], s'.terminals) {
      RouteKeeps(s.clients[c], t, s.terminals);
    }
  }

  lemma ExitStepKeeps(s: System, t: Tid)
    requires SystemInv(s) && Enabled(s, Exit(t))
    ensures SystemInv(ExitAll(s, t))
  {
    var s' := ExitAll(s, t);
    ExitKeepsTerminal(s.terminals[t]);
    forall c | c in s'.clients ensures ClientInv(s'.clients[c], s'.terminals) {
      ExitKeeps(s.clients[c], t, s.terminals);
    }
  }

  lemma TerminalStepKeeps(s: System, step: Step)
    requires Invariant(s) && Enabled(s, step)
    requires TerminalStep(step)
    ensures SystemInv(Next(s, step))
  {
    match step
    case Spawn(t, engine) => SpawnStepKeeps(s, t, engine);
    case Output(t, after) =>
      FeedKeepsTerminal(s.terminals[t], after);
      forall c | c in s.clients ensures ClientInv(s.clients[c], Next(s, step).terminals) {
        OutputKeeps(s.clients[c], t, after, s.terminals);
      }
    case EmitDelta(t) => EmitStepKeeps(s, t);
    case Exit(t) => ExitStepKeeps(s, t);
  }

  lemma ExitKeepsTerminal(term: Terminal)
    requires TerminalValid(term)
    ensures TerminalValid(term.(live := false))
  {
    var term' := term.(live := false);
    forall i | 0 <= i < |term'.emitted| ensures EmissionTrue(term', i) {
      assert EmissionTrue(term, i);
    }
  }

  lemma PutKeeps(s: System, c: ClientId, client: Client)
    requires SystemInv(s) && ClientInv(client, s.terminals)
    ensures SystemInv(Put(s, c, client))
  {
  }

  lemma ClientStepKeeps(s: System, step: Step)
    requires SystemInv(s) && Enabled(s, step) && Orderly(s, step) && !TerminalStep(step) && !step.FinishLate?
    ensures SystemInv(Next(s, step))
  {
    if step.Disconnect? {
      assert forall c :: c in Next(s, step).clients ==> c in s.clients && Next(s, step).clients[c] == s.clients[c];
    } else {
      var client := Next(s, step).clients[step.c];
      assert Next(s, step) == Put(s, step.c, client);
      ClientStepClient(s, step);
      PutKeeps(s, step.c, client);
    }
  }

  /** The client whose step it is. */
  lemma ClientStepClient(s: System, step: Step)
    requires SystemInv(s) && Enabled(s, step) && Orderly(s, step)
    requires !TerminalStep(step) && !step.FinishLate? && !step.Disconnect?
    ensures ClientInv(Next(s, step).clients[step.c], s.terminals)
  {
    var terms := s.terminals;
    if step.Connect? {
      NewClientKeeps(terms);
    } else {
      assert ClientInv(s.clients[step.c], terms);
      match step
      case Begin(c, t) => BeginKeeps(s.clients[c], t, terms);
      case QueueAck(c, t) => QueueAckKeeps(s.clients[c], t, terms);
      case Finish(c, t) => FinishKeeps(s.clients[c], t, terms);
      case HandlerRecovers(c, order) => RecoverStepKeeps(s, c, order, Next(s, step).clients[c]);
      case Detach(c, t) => DetachKeeps(s.clients[c], t, terms);
      case SendOther(c, tag) => OtherKeeps(s.clients[c], tag, terms);
      case WriterTake(c) => WriterTakeKeeps(s.clients[c], terms);
      case WriterCheck(c) => SameViews(s.clients[c], WriterChecks(s.clients[c]), terms);
      case WriterAsk(c) => SameViews(s.clients[c], WriterAsks(s.clients[c]), terms);
      case WriterRecovers(c, order) => RecoverStepKeeps(s, c, order, Next(s, step).clients[c]);
      case TakeEvent(c) => TakeEventKeeps(s.clients[c], terms);
      case InstallAck(c, i) => InstallAckKeeps(s.clients[c], i, terms);
      case DropGrid(c, t) => DropGridKeeps(s.clients[c], t, terms);
    }
  }

  lemma RouteNames(h: Handle, t: Tid, delta: TerminalDelta, resync: TerminalSnapshot, ids: set<Tid>)
    requires HandleNames(h, ids) && t in ids
    ensures HandleNames(RouteDelta(h, t, delta, resync), ids)
  {
  }

  lemma TerminalStepNames(s: System, step: Step)
    requires AllNames(s) && Enabled(s, step) && TerminalStep(step)
    ensures AllNames(Next(s, step))
  {
    var s' := Next(s, step);
    forall c | c in s'.clients ensures ClientNames(s'.clients[c], s'.terminals.Keys) {
      assert ClientNames(s.clients[c], s.terminals.Keys);
      if step.EmitDelta? {
        var term := s.terminals[step.t];
        RouteNames(s.clients[c].h, step.t, BuildDelta(term.engine, EmitSeq(term) + 1), SnapshotOf(Emit(term)),
                   s.terminals.Keys);
      }
    }
  }

  predicate TerminalStep(step: Step) {
    step.Spawn? || step.Output? || step.EmitDelta? || step.Exit?
  }

  lemma DaemonHalfNames(s: System, step: Step, c: ClientId)
    requires Enabled(s, step) && c in s.clients && ClientNames(s.clients[c], s.terminals.Keys)
    requires step.Begin? || step.QueueAck? || step.Finish? || step.HandlerRecovers? || step.Detach? || step.WriterRecovers?
    ensures ClientNames(Next(s, step).clients[c], s.terminals.Keys)
  {
    if c == step.c && (step.HandlerRecovers? || step.WriterRecovers?) {
      RecoverNames(s.clients[c].h, step.order, Live(s), s.terminals.Keys);
    }
  }

  lemma WireNames(s: System, step: Step, c: ClientId)
    requires Enabled(s, step) && c in s.clients && ClientNames(s.clients[c], s.terminals.Keys)
    requires step.TakeEvent? || step.InstallAck? || step.DropGrid?
    ensures ClientNames(Next(s, step).clients[c], s.terminals.Keys)
  {
  }

  lemma WriterNames(s: System, step: Step, c: ClientId)
    requires Enabled(s, step) && c in s.clients && c in Next(s, step).clients
    requires ClientNames(s.clients[c], s.terminals.Keys)
    requires step.Connect? || step.Disconnect? || step.SendOther? || step.WriterTake? || step.WriterCheck? || step.WriterAsk?
    ensures ClientNames(Next(s, step).clients[c], s.terminals.Keys)
  {
  }

  lemma ClientStepNames(s: System, step: Step, c: ClientId)
    requires Enabled(s, step) && !TerminalStep(step) && !step.FinishLate?
    requires c in s.clients && c in Next(s, step).clients && ClientNames(s.clients[c], s.terminals.Keys)
    ensures ClientNames(Next(s, step).clients[c], s.terminals.Keys)
  {
    if step.Begin? || step.QueueAck? || step.Finish? || step.HandlerRecovers? || step.Detach? || step.WriterRecovers? {
      DaemonHalfNames(s, step, c);
    } else if step.TakeEvent? || step.InstallAck? || step.DropGrid? {
      WireNames(s, step, c);
    } else {
      WriterNames(s, step, c);
    }
  }

  lemma NamesKept(s: System, step: Step)
    requires AllNames(s) && Enabled(s, step) && !step.FinishLate?
    ensures AllNames(Next(s, step))
  {
    if TerminalStep(step) {
      TerminalStepNames(s, step);
    } else {
      var s' := Next(s, step);
      assert s'.terminals == s.terminals;
      forall c | c in s'.clients ensures ClientNames(s'.clients[c], s.terminals.Keys) {
        if c in s.clients { ClientStepNames(s, step, c); }
      }
    }
  }

  lemma StepKeeps(s: System, step: Step)
    requires Invariant(s) && Enabled(s, step) && Orderly(s, step)
    ensures Invariant(Next(s, step))
  {
    assert !step.FinishLate?;
    NamesKept(s, step);
    NoneLate(s, step);
    if TerminalStep(step) {
      TerminalStepKeeps(s, step);
    } else {
      ClientStepKeeps(s, step);
    }
  }

  lemma NoneLate(s: System, step: Step)
    requires Enabled(s, step) && Orderly(s, step) && forall c :: c in s.clients ==> s.clients[c].late == multiset{}
    ensures forall c :: c in Next(s, step).clients ==> Next(s, step).clients[c].late == multiset{}
  {
  }

  lemma {:induction false} RunKeeps(run: seq<System>, steps: seq<Step>, n: nat)
    requires IsOrderlyRun(run, steps) && n < |run|
    ensures Invariant(run[n])
  {
    if n > 0 {
      RunKeeps(run, steps, n - 1);
      assert Enabled(run[n - 1], steps[n - 1]) && Orderly(run[n - 1], steps[n - 1]);
      StepKeeps(run[n - 1], steps[n - 1]);
    }
  }

  /** A run taken one step further. */
  lemma Extend(run: seq<System>, steps: seq<Step>, step: Step) returns (run': seq<System>, steps': seq<Step>)
    requires IsRun(run, steps) && Enabled(run[|steps|], step)
    ensures IsRun(run', steps') && |steps'| == |steps| + 1
    ensures run <= run' && steps <= steps' && steps'[|steps|] == step
    ensures run'[|steps'|] == Next(run[|steps|], step)
  {
    run', steps' := run + [Next(run[|steps|], step)], steps + [step];
  }

  lemma ExtendOrderly(run: seq<System>, steps: seq<Step>, step: Step) returns (run': seq<System>, steps': seq<Step>)
    requires IsOrderlyRun(run, steps) && Enabled(run[|steps|], step) && Orderly(run[|steps|], step)
    ensures IsOrderlyRun(run', steps') && |steps'| == |steps| + 1
    ensures run <= run' && steps <= steps' && steps'[|steps|] == step
    ensures run'[|steps'|] == Next(run[|steps|], step)
  {
    run', steps' := Extend(run, steps, step);
    forall i | 0 <= i < |steps'| ensures Enabled(run'[i], steps'[i]) && Orderly(run'[i], steps'[i]) {
      if i < |steps| { assert Orderly(run[i], steps[i]); }
    }
  }
}

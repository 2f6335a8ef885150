/** What reaches a client's queue: an emission does, whenever there is room, a
    recovery gives up nothing it has not queued, and after a detach nothing more
    of that terminal arrives. */
module Routing {
  import opened Options
  import opened TerminalTypes
  import opened Engine
  import opened Replica
  import opened Emission
  import opened Handles
  import opened Flow
  import opened View
  import opened Replication

  // ---- Every emission reaches whoever has room ----

  /** Room enough for the next emission of `t`: a drained queue, or one not yet
      at the high-water mark for a client that does not lag. */
  predicate HasRoomFor(h: Handle, t: Tid) {
    |h.queue| <= DELTA_LOW_WATER || (t !in h.behind && |h.queue| < DELTA_HIGH_WATER)
  }

  lemma RoutedIsQueued(h: Handle, t: Tid, delta: TerminalDelta, resync: TerminalSnapshot)
    requires h.open && t in h.subscriptions && t !in h.attaching && HasRoomFor(h, t)
    ensures var h' := RouteDelta(h, t, delta, resync);
            && h'.behind == h.behind - {t}
            && h'.queue == h.queue + [if t in h.behind then ResyncMessage(t, resync) else DeltaMessage(t, delta)]
  {
    assert t !in h.behind ==> h.behind - {t} == h.behind;
  }

  /** After an emission of `t`, in any run, a subscriber that is not attaching
      and has room does not lag: one message more is queued, the delta or, if it
      lagged, a resync, and what is on its way ends at the new number. */
  lemma EmissionReachesSubscriber(run: seq<System>, steps: seq<Step>, n: nat, c: ClientId, t: Tid)
    requires IsOrderlyRun(run, steps) && n < |steps| && steps[n] == EmitDelta(t) && c in run[n].clients
    requires var h := run[n].clients[c].h; t in h.subscriptions && t !in h.attaching && HasRoomFor(h, t)
    ensures t in run[n + 1].terminals && c in run[n + 1].clients
    ensures var h, h', e := run[n].clients[c].h, run[n + 1].clients[c].h, EmitSeq(run[n + 1].terminals[t]);
            && e == EmitSeq(run[n].terminals[t]) + 1
            && t !in h'.behind
            && |h'.queue| == |h.queue| + 1 && h.queue <= h'.queue
            && var m := h'.queue[|h.queue|];
               && Concerns(m, t) && SeqOf(m) == e && (if t in h.behind then m.ResyncMessage? else m.DeltaMessage?)
    ensures var v := ViewOf(run[n + 1].clients[c], t);
            && Terminals(Pipe(v))
            && (v.grid.Some? ==> End(At(v), Pipe(v)) == Some(EmitSeq(run[n + 1].terminals[t])))
  {
    assert Enabled(run[n], steps[n]) && run[n + 1] == EmitAll(run[n], t);
    assert run[n].clients[c].h.open by {
      RunKeeps(run, steps, n);
      assert ClientInv(run[n].clients[c], run[n].terminals);
    }
    EmitQueues(run[n], c, t);
    assert ClientInv(run[n + 1].clients[c], run[n + 1].terminals) by { RunKeeps(run, steps, n + 1); }
    ReachesEnd(run[n + 1].clients[c], t, run[n + 1].terminals);
  }

  lemma EmitQueues(s: System, c: ClientId, t: Tid)
    requires Enabled(s, EmitDelta(t)) && c in s.clients
    requires var h := s.clients[c].h; h.open && t in h.subscriptions && t !in h.attaching && HasRoomFor(h, t)
    ensures var s' := EmitAll(s, t);
            && t in s'.terminals && c in s'.clients && EmitSeq(s'.terminals[t]) == EmitSeq(s.terminals[t]) + 1
            && var h, h' := s.clients[c].h, s'.clients[c].h;
               && h'.subscriptions == h.subscriptions && h'.attaching == h.attaching && h'.behind == h.behind - {t}
               && |h'.queue| == |h.queue| + 1 && h.queue <= h'.queue
               && var m := h'.queue[|h.queue|];
                  && Concerns(m, t) && SeqOf(m) == EmitSeq(s'.terminals[t])
                  && (if t in h.behind then m.ResyncMessage? else m.DeltaMessage?)
  {
    var term := s.terminals[t];
    RoutedIsQueued(s.clients[c].h, t, BuildDelta(term.engine, EmitSeq(term) + 1), SnapshotOf(Emit(term)));
  }

  lemma ReachesEnd(c: Client, t: Tid, terms: map<Tid, Terminal>)
    requires ClientInv(c, terms) && t in terms
    requires t in c.h.subscriptions && t !in c.h.behind && t !in c.h.attaching
    ensures var v := ViewOf(c, t);
            && Terminals(Pipe(v))
            && (v.grid.Some? ==> End(At(v), Pipe(v)) == Some(EmitSeq(terms[t])))
  {
    var v := ViewOf(c, t);
    assert ViewInv(v, terms[t]);
    if v.grid.Some? { EndIsSome(At(v), Pipe(v)); }
  }

  lemma {:induction false} EndIsSome(at: Option<nat>, ms: seq<Message>)
    requires Terminals(ms) && at.Some?
    ensures End(at, ms).Some?
    decreases |ms|
  {
    if ms != [] { EndIsSome(Take(at, ms[0]), ms[1..]); }
  }

  // ---- A detach ends it ----

  predicate IsEventOf(m: Message, t: Tid) {
    IsTerminalOutput(m) && m.terminal == t
  }

  /** How many events of `t` wait in a queue. */
  function Events(queue: seq<Message>, t: Tid): nat {
    if queue == [] then 0 else (if IsEventOf(queue[0], t) then 1 else 0) + Events(queue[1..], t)
  }

  lemma {:induction false} EventsAppend(queue: seq<Message>, m: Message, t: Tid)
    ensures Events(queue + [m], t) == Events(queue, t) + if IsEventOf(m, t) then 1 else 0
    decreases |queue|
  {
    if queue == [] {
      assert queue + [m] == [m] && [m][1..] == [];
    } else {
      assert (queue + [m])[0] == queue[0] && (queue + [m])[1..] == queue[1..] + [m];
      EventsAppend(queue[1..], m, t);
    }
  }

  lemma {:induction false} RecoverAddsNoOther(h: Handle, order: seq<Tid>, live: map<Tid, TerminalSnapshot>, t: Tid)
    requires t !in order
    ensures Events(Recover(h, order, live).queue, t) == Events(h.queue, t)
    ensures Recover(h, order, live).subscriptions == h.subscriptions
    decreases |order|
  {
    if order != [] && |h.queue| <= DELTA_LOW_WATER {
      if CanSend(h) {
        var event := RecoveryEvent(h, order[0], live);
        if event.Some? { EventsAppend(h.queue, ResyncMessage(order[0], event.value), t); }
        RecoverAddsNoOther(RecoverOne(h, order[0], live), order[1..], live, t);
      } else if RecoveryEvent(h, order[0], live).None? {
        RecoverAddsNoOther(h.(behind := h.behind - {order[0]}), order[1..], live, t);
      }
    }
  }

  lemma RouteAddsNoOther(h: Handle, u: Tid, delta: TerminalDelta, resync: TerminalSnapshot, t: Tid)
    requires t !in h.subscriptions
    ensures var h' := RouteDelta(h, u, delta, resync);
            h'.subscriptions == h.subscriptions && Events(h'.queue, t) == Events(h.queue, t)
  {
    EventsAppend(h.queue, DeltaMessage(u, delta), t);
    EventsAppend(h.queue, ResyncMessage(u, resync), t);
  }

  /** The client has no subscription of `t` and gains no event of it. */
  ghost predicate GainsNothing(x: Client, y: Client, t: Tid) {
    t !in y.h.subscriptions && Events(y.h.queue, t) <= Events(x.h.queue, t)
  }

  lemma TerminalStepGains(s: System, step: Step, c: ClientId, t: Tid)
    requires Enabled(s, step) && TerminalStep(step) && c in s.clients && t !in s.clients[c].h.subscriptions
    ensures GainsNothing(s.clients[c], Next(s, step).clients[c], t)
  {
    if step.EmitDelta? {
      var term := s.terminals[step.t];
      RouteAddsNoOther(s.clients[c].h, step.t, BuildDelta(term.engine, EmitSeq(term) + 1), SnapshotOf(Emit(term)), t);
    }
  }

  lemma SenderStepGains(s: System, step: Step, c: ClientId, t: Tid)
    requires Enabled(s, step) && c in s.clients && t !in s.clients[c].h.subscriptions
    requires s.clients[c].h.behind <= s.clients[c].h.subscriptions
    requires step.QueueAck? || step.SendOther? || step.HandlerRecovers? || step.WriterRecovers? || step.WriterTake?
    ensures GainsNothing(s.clients[c], Next(s, step).clients[c], t)
  {
    var h := s.clients[c].h;
    if step.c == c {
      match step
      case QueueAck(_, u) => EventsAppend(h.queue, AttachAck(u, s.clients[c].attach[u].snapshot), t);
      case SendOther(_, tag) => EventsAppend(h.queue, OtherMessage(tag), t);
      case HandlerRecovers(_, order) => RecoverAddsNoOther(h, order, Live(s), t);
      case WriterRecovers(_, order) => RecoverAddsNoOther(h, order, Live(s), t);
      case WriterTake(_) =>
    }
  }

  lemma OtherStepGains(s: System, step: Step, c: ClientId, t: Tid)
    requires Enabled(s, step) && !TerminalStep(step) && step != Begin(c, t)
    requires c in s.clients && c in Next(s, step).clients && t !in s.clients[c].h.subscriptions
    requires !(step.QueueAck? || step.SendOther? || step.HandlerRecovers? || step.WriterRecovers? || step.WriterTake?)
    ensures GainsNothing(s.clients[c], Next(s, step).clients[c], t)
  {
  }

  lemma UnsubscribedGainsNothing(s: System, step: Step, c: ClientId, t: Tid)
    requires Enabled(s, step) && step != Begin(c, t) && c in s.clients && c in Next(s, step).clients
    requires t !in s.clients[c].h.subscriptions && s.clients[c].h.behind <= s.clients[c].h.subscriptions
    ensures GainsNothing(s.clients[c], Next(s, step).clients[c], t)
  {
    if TerminalStep(step) {
      TerminalStepGains(s, step, c, t);
    } else if step.QueueAck? || step.SendOther? || step.HandlerRecovers? || step.WriterRecovers? || step.WriterTake? {
      SenderStepGains(s, step, c, t);
    } else {
      OtherStepGains(s, step, c, t);
    }
  }

  lemma StepGainsNothing(run: seq<System>, steps: seq<Step>, m: nat, c: ClientId, t: Tid)
    requires IsOrderlyRun(run, steps) && m < |steps| && steps[m] != Begin(c, t)
    requires c in run[m].clients && c in run[m + 1].clients && t !in run[m].clients[c].h.subscriptions
    ensures GainsNothing(run[m].clients[c], run[m + 1].clients[c], t)
  {
    assert run[m].clients[c].h.behind <= run[m].clients[c].h.subscriptions by {
      RunKeeps(run, steps, m);
      assert ClientInv(run[m].clients[c], run[m].terminals);
    }
    assert Enabled(run[m], steps[m]) && run[m + 1] == Next(run[m], steps[m]);
    UnsubscribedGainsNothing(run[m], steps[m], c, t);
  }

  /** Client `c` detached from `t` at step `n`, and up to state `m` stays connected
      and does not attach again. */
  ghost predicate Away(run: seq<System>, steps: seq<Step>, n: nat, m: nat, c: ClientId, t: Tid) {
    && n < m < |run| && m <= |steps| && steps[n] == Detach(c, t)
    && (forall k :: n <= k <= m ==> c in run[k].clients)
    && (forall k :: n < k < m ==> steps[k] != Begin(c, t))
  }

  lemma DetachUnsubscribes(run: seq<System>, steps: seq<Step>, n: nat, c: ClientId, t: Tid)
    requires IsRun(run, steps) && n < |steps| && steps[n] == Detach(c, t) && c in run[n].clients
    ensures c in run[n + 1].clients && t !in run[n + 1].clients[c].h.subscriptions
  {
    assert run[n + 1] == Next(run[n], Detach(c, t));
  }

  lemma {:induction false} StaysUnsubscribed(run: seq<System>, steps: seq<Step>, n: nat, m: nat, c: ClientId, t: Tid)
    requires IsOrderlyRun(run, steps) && Away(run, steps, n, m, c, t)
    ensures t !in run[m].clients[c].h.subscriptions
    decreases m - n
  {
    if m == n + 1 {
      DetachUnsubscribes(run, steps, n, c, t);
    } else {
      assert Away(run, steps, n, m - 1, c, t);
      StaysUnsubscribed(run, steps, n, m - 1, c, t);
      StepGainsNothing(run, steps, m - 1, c, t);
    }
  }

  /** After a client detached and before it attaches again, no step of the run
      adds an event of that terminal to its queue. */
  lemma DetachedGetsNothing(run: seq<System>, steps: seq<Step>, n: nat, m: nat, c: ClientId, t: Tid)
    requires IsOrderlyRun(run, steps) && n < m && Away(run, steps, n, m + 1, c, t)
    ensures Events(run[m + 1].clients[c].h.queue, t) <= Events(run[m].clients[c].h.queue, t)
  {
    assert Away(run, steps, n, m, c, t);
    StaysUnsubscribed(run, steps, n, m, c, t);
    StepGainsNothing(run, steps, m, c, t);
  }

  // ---- What recovery does with each lagging terminal ----

  /** Recovery of a lagging terminal loses nothing: either it lags no more, and
      the final snapshot kept for it, or else the live one, was queued if there
      is any; or it still lags and what was kept for it still is. */
  lemma {:induction false} RecoverLosesNothing(h: Handle, order: seq<Tid>, live: map<Tid, TerminalSnapshot>, t: Tid)
    requires t in h.behind && forall i, j :: 0 <= i < j < |order| ==> order[i] != order[j]
    ensures var h', event := Recover(h, order, live), RecoveryEvent(h, t, live);
            && h.queue <= h'.queue
            && (t in h'.behind && t in h.finished ==> t in h'.finished && h'.finished[t] == h.finished[t])
            && (t !in h'.behind && event.Some? ==> ResyncMessage(t, event.value) in h'.queue)
    decreases |order|
  {
    if order != [] && |h.queue| <= DELTA_LOW_WATER && (CanSend(h) || RecoveryEvent(h, order[0], live).None?) {
      var next := if CanSend(h) then RecoverOne(h, order[0], live) else h.(behind := h.behind - {order[0]});
      assert h.queue <= next.queue;
      if order[0] != t {
        RecoverLosesNothing(next, order[1..], live, t);
      } else {
        RecoverLeaves(next, order[1..], live, t);
        if CanSend(h) && RecoveryEvent(h, t, live).Some? {
          assert next.queue[|h.queue|] == ResyncMessage(t, RecoveryEvent(h, t, live).value);
          assert Recover(next, order[1..], live).queue[|h.queue|] == next.queue[|h.queue|];
        }
      }
    }
  }

  /** Recovery only adds to a queue, and marks nobody as lagging. */
  lemma {:induction false} RecoverLeaves(h: Handle, order: seq<Tid>, live: map<Tid, TerminalSnapshot>, t: Tid)
    ensures var h' := Recover(h, order, live); h.queue <= h'.queue && (t !in h.behind ==> t !in h'.behind)
    decreases |order|
  {
    if order != [] && |h.queue| <= DELTA_LOW_WATER && (CanSend(h) || RecoveryEvent(h, order[0], live).None?) {
      var next := if CanSend(h) then RecoverOne(h, order[0], live) else h.(behind := h.behind - {order[0]});
      assert h.queue <= next.queue;
      RecoverLeaves(next, order[1..], live, t);
    }
  }

  /** A snapshot that was built but could not be queued is kept for the next
      recovery, and its terminal still lags. */
  lemma UnsentIsKept(h: Handle, order: seq<Tid>, live: map<Tid, TerminalSnapshot>)
    requires order != [] && order[0] in h.behind && !h.open && |h.queue| <= DELTA_LOW_WATER
    ensures var h', event := Recover(h, order, live), RecoveryEvent(h, order[0], live);
            event.Some? ==> order[0] in h'.behind && RecoveryEvent(h', order[0], map[]) == event
  {
  }
}

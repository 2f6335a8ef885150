/** What the replication protocol promises, for every run. */
module ReplicationTheorems {
  import opened Options
  import opened TerminalTypes
  import opened Engine
  import opened Replica
  import opened Emission
  import opened Handles
  import opened Flow
  import opened View
  import opened Replication

  // ---- What a replica shows ----

  /** `p` is all the terminal was in state `m`, under the number it had there. */
  ghost predicate WasShown(run: seq<System>, m: nat, t: Tid, p: Picture) {
    && m < |run| && t in run[m].terminals
    && p.seqNo == EmitSeq(run[m].terminals[t])
    && p == OfEngine(run[m].terminals[t].engine, p.seqNo)
  }

  /** A step leaves a terminal's past alone and adds at most what it now is. */
  lemma StepPictures(s: System, step: Step, t: Tid)
    requires Enabled(s, step) && t in Next(s, step).terminals
    ensures var term := Next(s, step).terminals[t];
            && (t in s.terminals ==> s.terminals[t].emitted <= term.emitted)
            && forall p :: p in term.pictures ==>
                 (t in s.terminals && p in s.terminals[t].pictures) || p == OfEngine(term.engine, EmitSeq(term))
  {
  }

  lemma {:induction false} PictureHappened(run: seq<System>, steps: seq<Step>, n: nat, t: Tid, p: Picture)
    returns (m: nat)
    requires IsRun(run, steps) && n < |run| && t in run[n].terminals && p in run[n].terminals[t].pictures
    ensures m <= n && WasShown(run, m, t, p)
  {
    assert n > 0;
    StepPictures(run[n - 1], steps[n - 1], t);
    if t in run[n - 1].terminals && p in run[n - 1].terminals[t].pictures {
      m := PictureHappened(run, steps, n - 1, t, p);
    } else {
      m := n;
    }
  }

  /** In every reachable state each replica is, whole, what its terminal was at
      some moment of the run when the terminal had the replica's number. It
      differs from the screen its next delta leads to only where that delta
      writes, and is the daemon's very screen when it is at the current number
      with nothing left to emit. */
  lemma ReplicaShowsItsTerminal(run: seq<System>, steps: seq<Step>, n: nat, c: ClientId, t: Tid)
    requires IsOrderlyRun(run, steps) && n < |run|
    requires c in run[n].clients && t in run[n].clients[c].grids
    ensures t in run[n].terminals
    ensures exists m :: 0 <= m <= n && WasShown(run, m, t, OfGrid(run[n].clients[c].grids[t]))
    ensures var g, term := run[n].clients[c].grids[t], run[n].terminals[t];
            && g.lastSeq <= EmitSeq(term)
            && Agrees(g.visible, Target(term, g.lastSeq).visible, Target(term, g.lastSeq).damage)
            && (g.lastSeq == EmitSeq(term) && !term.pending ==> OfGrid(g) == OfEngine(term.engine, g.lastSeq))
  {
    RunKeeps(run, steps, n);
    var client := run[n].clients[c];
    assert ClientNames(client, run[n].terminals.Keys);
    assert ViewInv(ViewOf(client, t), run[n].terminals[t]);
    var m := PictureHappened(run, steps, n, t, OfGrid(client.grids[t]));
  }

  // ---- When it is the emission of its number ----

  lemma {:induction false} EmissionsStay(run: seq<System>, steps: seq<Step>, m: nat, n: nat, t: Tid)
    requires IsRun(run, steps) && m <= n < |run| && t in run[m].terminals
    ensures t in run[n].terminals && run[m].terminals[t].emitted <= run[n].terminals[t].emitted
    decreases n - m
  {
    if m < n {
      EmissionsStay(run, steps, m, n - 1, t);
      assert Enabled(run[n - 1], steps[n - 1]) && run[n] == Next(run[n - 1], steps[n - 1]);
      StepPictures(run[n - 1], steps[n - 1], t);
    }
  }

  /** The message step `m` gives client `c` for terminal `t`. */
  ghost predicate Gives(run: seq<System>, steps: seq<Step>, m: nat, c: ClientId, t: Tid, msg: Message) {
    && m < |steps| < |run| && c in run[m].clients && Concerns(msg, t)
    && var client := run[m].clients[c];
       || (steps[m] == TakeEvent(c) && client.wire != [] && client.wire[0] == msg && !msg.AttachAck?)
       || (steps[m].InstallAck? && steps[m].c == c && steps[m].i < |client.wire| && client.wire[steps[m].i] == msg)
  }

  /** That message set the grid, which is what the client still has in state `n`. */
  ghost predicate LastSet(run: seq<System>, steps: seq<Step>, m: nat, n: nat, c: ClientId, t: Tid, msg: Message) {
    && Gives(run, steps, m, c, t, msg) && m < n < |run|
    && c in run[n].clients && t in run[n].clients[c].grids
    && c in run[m + 1].clients && t in run[m + 1].clients[c].grids
    && run[n].clients[c].grids[t] == run[m + 1].clients[c].grids[t]
    && run[n].clients[c].grids[t].lastSeq == SeqOf(msg)
    && (msg.DeltaMessage? ==> t in run[m].clients[c].grids && run[m].clients[c].grids[t].lastSeq < SeqOf(msg))
  }

  /** The snapshot was taken in state `k` with everything emitted. */
  ghost predicate TakenSettled(run: seq<System>, k: nat, t: Tid, s: TerminalSnapshot) {
    && k < |run| && t in run[k].terminals && !run[k].terminals[t].pending
    && EmitSeq(run[k].terminals[t]) > 0 && s == SnapshotOf(run[k].terminals[t])
  }

  lemma SnapshotSets(run: seq<System>, steps: seq<Step>, m: nat, n: nat, c: ClientId, t: Tid, msg: Message)
    requires IsRun(run, steps) && LastSet(run, steps, m, n, c, t, msg) && !msg.DeltaMessage?
    requires t in run[m].clients[c].grids ==> run[m].clients[c].grids[t].lastSeq <= SeqOf(msg)
    ensures OfGrid(run[n].clients[c].grids[t]) == OfSnapshot(msg.snapshot)
  {
    assert run[m + 1] == Next(run[m], steps[m]);
    assert OfGrid(FromSnapshot(msg.snapshot)) == OfSnapshot(msg.snapshot);
  }

  /** A replica last set by a delta, or by a snapshot taken with nothing pending,
      is exactly the emission of its number. */
  lemma ReplicaIsItsEmission(
      run: seq<System>, steps: seq<Step>, k: nat, m: nat, n: nat, c: ClientId, t: Tid, msg: Message)
    requires IsOrderlyRun(run, steps) && LastSet(run, steps, m, n, c, t, msg)
    requires msg.DeltaMessage? || (k <= m && TakenSettled(run, k, t, msg.snapshot))
    ensures t in run[n].terminals
    ensures var g, term := run[n].clients[c].grids[t], run[n].terminals[t];
            && 1 <= g.lastSeq <= EmitSeq(term)
            && OfGrid(g) == OfEngine(term.emitted[g.lastSeq - 1], g.lastSeq)
  {
    if msg.DeltaMessage? {
      DeltaLeavesItsEmission(run, steps, m, n, c, t, msg);
    } else {
      RunKeeps(run, steps, k);
      SettledSnapshotIsItsEmission(run[k].terminals[t]);
      EmissionsStay(run, steps, k, n, t);
      if t in run[m].clients[c].grids { SequenceNeverDecreases(run, steps, m, c, t); }
      SnapshotSets(run, steps, m, n, c, t, msg);
    }
  }

  lemma DeltaLeavesItsEmission(run: seq<System>, steps: seq<Step>, m: nat, n: nat, c: ClientId, t: Tid, msg: Message)
    requires IsOrderlyRun(run, steps) && LastSet(run, steps, m, n, c, t, msg) && msg.DeltaMessage?
    ensures t in run[n].terminals
    ensures var g, term := run[n].clients[c].grids[t], run[n].terminals[t];
            && 1 <= g.lastSeq <= EmitSeq(term)
            && OfGrid(g) == OfEngine(term.emitted[g.lastSeq - 1], g.lastSeq)
  {
    assert Enabled(run[m], steps[m]) && run[m + 1] == Next(run[m], steps[m]);
    NoEventEverGaps(run, steps, m, t);
    EmissionsStay(run, steps, m, n, t);
  }

  lemma HeadView(client: Client, t: Tid)
    requires client.wire != [] && Concerns(client.wire[0], t)
    ensures ViewOf(client, t).msgs != [] && ViewOf(client, t).msgs[0] == client.wire[0]
  {
    var pipe := client.wire + client.h.queue;
    assert pipe[0] == client.wire[0];
  }

  /** No event a replica ever takes is reported as a sequence gap, and the delta
      that advances it leaves exactly the screen it was built from. */
  lemma NoEventEverGaps(run: seq<System>, steps: seq<Step>, n: nat, t: Tid)
    requires IsOrderlyRun(run, steps) && n < |steps| && steps[n].TakeEvent?
    requires var client := run[n].clients[steps[n].c]; Concerns(client.wire[0], t) && t in client.grids
    ensures t in run[n].terminals
    ensures var client := run[n].clients[steps[n].c];
            var g, m, term := client.grids[t], client.wire[0], run[n].terminals[t];
            && ApplyToGrid(g, EventOf(m)).1 != EventNeedsResync
            && (m.DeltaMessage? && g.lastSeq < m.delta.seqNo ==>
                  && m.delta.seqNo == g.lastSeq + 1 <= EmitSeq(term)
                  && OfGrid(ApplyToGrid(g, EventOf(m)).0) == OfEngine(term.emitted[g.lastSeq], m.delta.seqNo))
  {
    RunKeeps(run, steps, n);
    assert Enabled(run[n], steps[n]);
    assert ClientNames(run[n].clients[steps[n].c], run[n].terminals.Keys);
    assert ViewInv(ViewOf(run[n].clients[steps[n].c], t), run[n].terminals[t]);
    HeadLands(run[n].clients[steps[n].c], t, run[n].terminals[t]);
  }

  /** The event at the head of the wire lands on the replica it is for. */
  lemma HeadLands(client: Client, t: Tid, term: Terminal)
    requires ViewInv(ViewOf(client, t), term) && TerminalValid(term)
    requires client.wire != [] && !client.wire[0].AttachAck? && Concerns(client.wire[0], t) && t in client.grids
    ensures var g, m := client.grids[t], client.wire[0];
            && ApplyToGrid(g, EventOf(m)).1 != EventNeedsResync
            && g.lastSeq <= ApplyToGrid(g, EventOf(m)).0.lastSeq
            && (m.DeltaMessage? && g.lastSeq < m.delta.seqNo ==>
                  && m.delta.seqNo == g.lastSeq + 1 <= EmitSeq(term)
                  && OfGrid(ApplyToGrid(g, EventOf(m)).0) == OfEngine(term.emitted[g.lastSeq], m.delta.seqNo))
  {
    var v, m := ViewOf(client, t), client.wire[0];
    HeadView(client, t);
    TakesEvent(v, term);
    assert Pipe(v)[0] == m;
    assert MessageTrue(Pipe(v)[0], term) && Follows(At(v), Pipe(v)[0]);
    if m.DeltaMessage? && client.grids[t].lastSeq < m.delta.seqNo {
      NextDeltaLandsExactly(client.grids[t], term);
    }
  }

  /** A replica never goes back, not even when a reattach overtakes events
      queued before it. */
  lemma SequenceNeverDecreases(run: seq<System>, steps: seq<Step>, n: nat, c: ClientId, t: Tid)
    requires IsOrderlyRun(run, steps) && n < |steps|
    requires c in run[n].clients && t in run[n].clients[c].grids
    requires c in run[n + 1].clients && t in run[n + 1].clients[c].grids
    ensures run[n].clients[c].grids[t].lastSeq <= run[n + 1].clients[c].grids[t].lastSeq
  {
    assert Enabled(run[n], steps[n]) && run[n + 1] == Next(run[n], steps[n]);
    RunKeeps(run, steps, n);
    assert ClientNames(run[n].clients[c], run[n].terminals.Keys);
    assert ViewInv(ViewOf(run[n].clients[c], t), run[n].terminals[t]);
    StepNeverLowers(run[n], steps[n], c, t, run[n].terminals[t]);
  }

  lemma StepNeverLowers(s: System, step: Step, c: ClientId, t: Tid, term: Terminal)
    requires Enabled(s, step) && c in s.clients && t in s.clients[c].grids
    requires c in Next(s, step).clients && t in Next(s, step).clients[c].grids
    requires ViewInv(ViewOf(s.clients[c], t), term) && TerminalValid(term)
    ensures s.clients[c].grids[t].lastSeq <= Next(s, step).clients[c].grids[t].lastSeq
  {
    if step.TakeEvent? && step.c == c {
      if Concerns(s.clients[c].wire[0], t) { HeadLands(s.clients[c], t, term); }
    } else if step.InstallAck? && step.c == c {
      AckNeverLowers(s.clients[c], step.i, t, term);
    } else {
      GridsKept(s, step, c, t);
    }
  }

  /** Only taking an event or installing an ack changes a client's grids. */
  lemma GridsKept(s: System, step: Step, c: ClientId, t: Tid)
    requires Enabled(s, step) && c in s.clients && t in s.clients[c].grids
    requires c in Next(s, step).clients && t in Next(s, step).clients[c].grids
    requires (step.TakeEvent? || step.InstallAck?) ==> step.c != c
    ensures Next(s, step).clients[c].grids[t] == s.clients[c].grids[t]
  {
  }

  lemma AckNeverLowers(client: Client, i: nat, t: Tid, term: Terminal)
    requires ViewInv(ViewOf(client, t), term) && i < |client.wire| && client.wire[i].AttachAck? && t in client.grids
    ensures t in ClientInstalls(client, i).grids
    ensures client.grids[t].lastSeq <= ClientInstalls(client, i).grids[t].lastSeq
  {
    InstallView(client, i, t);
    if Concerns(client.wire[i], t) {
      InstallsAck(ViewOf(client, t), term, |Proj(client.wire[..i], t)|);
    }
  }

  /** Whoever lags is not forgotten: there is a message to drain, a writer about
      to look, or a finished attach about to recover. */
  lemma NoLagIsForgotten(run: seq<System>, steps: seq<Step>, n: nat, c: ClientId)
    requires IsOrderlyRun(run, steps) && n < |run| && c in run[n].clients
    requires run[n].clients[c].h.behind != {}
    ensures var client := run[n].clients[c];
            client.h.queue != [] || client.writer != Waiting || client.owed > 0
  {
    RunKeeps(run, steps, n);
    assert ClientInv(run[n].clients[c], run[n].terminals);
  }

  ghost predicate Drained(client: Client) {
    && client.h.queue == [] && client.wire == [] && client.writer == Waiting
    && client.owed == 0 && client.attach == map[]
  }

  /** Once everything towards a client has drained, each replica of a terminal
      it subscribes to is at that terminal's last number, live or ended, and
      shows its screen exactly if all output was emitted. */
  lemma DrainedReplicaIsCurrent(run: seq<System>, steps: seq<Step>, n: nat, c: ClientId, t: Tid)
    requires IsOrderlyRun(run, steps) && n < |run| && c in run[n].clients
    requires var client := run[n].clients[c];
             Drained(client) && t in client.h.subscriptions && t in client.grids
    ensures t in run[n].terminals
    ensures var g, term := run[n].clients[c].grids[t], run[n].terminals[t];
            && g.lastSeq == EmitSeq(term)
            && Agrees(g.visible, term.engine.visible, term.engine.damage)
            && (!term.pending ==> OfGrid(g) == OfEngine(term.engine, g.lastSeq))
  {
    RunKeeps(run, steps, n);
    var client := run[n].clients[c];
    assert ClientNames(client, run[n].terminals.Keys);
    assert ClientInv(client, run[n].terminals);
    var v := ViewOf(client, t);
    assert ViewInv(v, run[n].terminals[t]);
    assert client.wire + client.h.queue == [];
    assert Pipe(v) == [];
    assert UpToDate(v, run[n].terminals[t]);
  }

  /** Terminal output never holds more than its share of a queue, so a response
      is refused only when at least 192 other messages are already waiting. */
  lemma ResponsesKeepTheirRoom(run: seq<System>, steps: seq<Step>, n: nat, c: ClientId)
    requires IsOrderlyRun(run, steps) && n < |run| && c in run[n].clients
    ensures var h := run[n].clients[c].h;
            && Load(h.queue) <= DELTA_HIGH_WATER
            && (!CanSend(h) ==> |h.queue| - Load(h.queue) >= CLIENT_QUEUE_CAPACITY - DELTA_HIGH_WATER)
  {
    RunKeeps(run, steps, n);
    assert ClientInv(run[n].clients[c], run[n].terminals);
  }

  /** With everything emitted, a snapshot is the emission it is numbered after. */
  lemma SettledSnapshotIsItsEmission(term: Terminal)
    requires TerminalValid(term) && EmitSeq(term) > 0 && !term.pending
    ensures OfSnapshot(SnapshotOf(term)) == OfEngine(term.emitted[EmitSeq(term) - 1], EmitSeq(term))
  {
    assert EmissionTrue(term, EmitSeq(term) - 1);
  }
}

/** One terminal as one client stands to it: subscription and lag at the daemon,
    the attach handler, the messages on their way and the replica at the other
    end. `ViewInv` is what every step keeps: what is on its way is true and
    comes without a gap, an ack outranks what precedes it, the replica shows the
    terminal, and a subscriber that neither lags nor missed a delta will end at
    the current number. */
module View {
  import opened Options
  import opened TerminalTypes
  import opened Engine
  import opened Replica
  import opened Emission
  import opened Handles
  import opened Flow

  /** An attach handler between `begin_attach` and `finish_attach`: it first
      holds the snapshot, then has queued it as the ack. */
  datatype Handler = Idle | Holding(snapshot: TerminalSnapshot) | Acked

  datatype View = View(
    terminal: Handles.TerminalId,
    sub: bool,
    behind: bool,
    attaching: Option<bool>,
    finished: Option<TerminalSnapshot>,
    handler: Handler,
    msgs: seq<Message>,
    grid: Option<Grid>)

  function At(v: View): Option<nat> {
    if v.grid.Some? then Some(v.grid.value.lastSeq) else None
  }

  /** Everything still to reach the client, a held ack last. */
  function Pipe(v: View): seq<Message> {
    v.msgs + (if v.handler.Holding? then [AttachAck(v.terminal, v.handler.snapshot)] else [])
  }

  ghost predicate MessageTrue(m: Message, term: Terminal) {
    match m
    case DeltaMessage(_, d) => 1 <= d.seqNo <= EmitSeq(term) && Valid(term.emitted[d.seqNo - 1])
                               && d == DeltaAt(term, d.seqNo)
    case ResyncMessage(_, s) => Shows(OfSnapshot(s), term)
    case AttachAck(_, s) => Shows(OfSnapshot(s), term)
    case OtherMessage(_) => false
  }

  ghost predicate AllTrue(ms: seq<Message>, term: Terminal) {
    forall i :: 0 <= i < |ms| ==> MessageTrue(ms[i], term)
  }

  /** The only ack in `ms` is the one at `i`, and nothing before it is newer. */
  ghost predicate AckAt(ms: seq<Message>, i: nat, at: Option<nat>)
    requires i < |ms| && Terminals(ms)
  {
    && NoNewer(ms[..i], SeqOf(ms[i]))
    && (at.Some? ==> at.value <= SeqOf(ms[i]))
  }

  ghost predicate OneAck(ms: seq<Message>, at: Option<nat>)
    requires Terminals(ms)
  {
    forall i :: 0 <= i < |ms| && ms[i].AttachAck? ==> AckAt(ms, i, at)
  }

  ghost predicate UpToDate(v: View, term: Terminal)
    requires Terminals(Pipe(v))
  {
    End(At(v), Pipe(v)).None? || End(At(v), Pipe(v)).value == EmitSeq(term)
  }

  ghost predicate ViewInv(v: View, term: Terminal) {
    // what is on its way is true, ends without a gap, and an ack outranks what precedes it
    && AllTrue(Pipe(v), term)
    && Terminals(Pipe(v))
    && NoGap(At(v), Pipe(v))
    && OneAck(Pipe(v), At(v))
    // the replica shows the terminal
    && (v.grid.Some? ==> Shows(OfGrid(v.grid.value), term))
    // a subscriber neither lagging nor past a withheld delta ends at the current number
    && (v.sub && !v.behind && v.attaching != Some(true) ==> UpToDate(v, term))
    // bookkeeping
    && (v.behind ==> v.sub && v.attaching.None?)
    && (v.attaching.Some? ==> v.sub)
    && (v.sub ==> (v.attaching.Some? <==> v.handler != Idle))
    // the last grid of an ended terminal is kept for whoever still owes a resync
    && (v.finished.Some? ==>
          !term.live && v.finished.value.seqNo == EmitSeq(term) && Shows(OfSnapshot(v.finished.value), term))
    && (!term.live && (v.behind || v.attaching == Some(true)) ==> v.finished.Some?)
  }

  // ---- The terminal moves ----

  lemma TrueKept(ms: seq<Message>, term: Terminal, term': Terminal)
    requires AllTrue(ms, term)
    requires term.emitted <= term'.emitted
    requires forall p :: Shows(p, term) ==> Shows(p, term')
    ensures AllTrue(ms, term')
  {
    forall i | 0 <= i < |ms| ensures MessageTrue(ms[i], term') {
      assert MessageTrue(ms[i], term);
    }
  }

  lemma FeedKeeps(v: View, term: Terminal, after: Engine)
    requires ViewInv(v, term) && CanFeed(term, after)
    ensures ViewInv(v, Feed(term, after))
  {
    forall p | Shows(p, term) ensures Shows(p, Feed(term, after)) {
      FeedKeepsPicture(p, term, after);
    }
    TrueKept(Pipe(v), term, Feed(term, after));
  }

  /** Everything but being up to date survives an emission. */
  lemma EmitKeepsRest(v: View, term: Terminal)
    requires ViewInv(v, term) && term.live
    requires v.sub ==> v.behind || v.attaching == Some(true)
    ensures ViewInv(v, Emit(term))
  {
    forall p | Shows(p, term) ensures Shows(p, Emit(term)) {
      EmitKeepsPicture(p, term);
    }
    TrueKept(Pipe(v), term, Emit(term));
  }

  lemma Withheld(v: View, term: Terminal)
    requires ViewInv(v, term) && term.live && v.attaching.Some?
    ensures ViewInv(v.(attaching := Some(true)), Emit(term))
  {
    EmitKeepsRest(v.(attaching := Some(true)), term);
  }

  lemma FallsBehind(v: View, term: Terminal)
    requires ViewInv(v, term) && term.live && v.sub && v.attaching.None?
    ensures ViewInv(v.(behind := true), Emit(term))
  {
    EmitKeepsRest(v.(behind := true), term);
  }

  lemma DeltaQueued(v: View, term: Terminal)
    requires ViewInv(v, term) && TerminalValid(term) && CanEmit(term)
    requires v.sub && !v.behind && v.attaching.None?
    ensures var d := BuildDelta(term.engine, EmitSeq(term) + 1);
            ViewInv(v.(msgs := v.msgs + [DeltaMessage(v.terminal, d)]), Emit(term))
  {
    var m := DeltaMessage(v.terminal, BuildDelta(term.engine, EmitSeq(term) + 1));
    FallsBehind(v, term);
    assert Pipe(v) == v.msgs;
    AppendOne(At(v), v.msgs, m);
    var ms := v.msgs + [m];
    assert Pipe(v.(msgs := ms)) == ms;
    assert MessageTrue(m, Emit(term));
    assert AllTrue(ms, Emit(term));
    forall i | 0 <= i < |ms| && ms[i].AttachAck? ensures AckAt(ms, i, At(v)) {
      assert AckAt(v.msgs, i, At(v));
      assert ms[..i] == v.msgs[..i];
    }
  }

  /** A resync under the current number settles a lagging view. */
  lemma ResyncQueued(v: View, term: Terminal, s: TerminalSnapshot)
    requires ViewInv(v, term) && v.behind
    requires Shows(OfSnapshot(s), term) && s.seqNo == EmitSeq(term)
    ensures ViewInv(v.(msgs := v.msgs + [ResyncMessage(v.terminal, s)], behind := false, finished := None), term)
  {
    var m := ResyncMessage(v.terminal, s);
    assert Pipe(v) == v.msgs;
    AppendOne(At(v), v.msgs, m);
    EndBounded(At(v), v.msgs, term);
    var ms := v.msgs + [m];
    assert Pipe(v.(msgs := ms, behind := false, finished := None)) == ms;
    forall i | 0 <= i < |ms| && ms[i].AttachAck? ensures AckAt(ms, i, At(v)) {
      assert AckAt(v.msgs, i, At(v));
      assert ms[..i] == v.msgs[..i];
    }
  }

  lemma {:induction false} EndBounded(at: Option<nat>, ms: seq<Message>, term: Terminal)
    requires Terminals(ms) && AllTrue(ms, term)
    requires at.Some? ==> at.value <= EmitSeq(term)
    ensures End(at, ms).Some? ==> End(at, ms).value <= EmitSeq(term)
    decreases |ms|
  {
    if ms != [] {
      assert MessageTrue(ms[0], term);
      EndBounded(Take(at, ms[0]), ms[1..], term);
    }
  }

  lemma Exits(v: View, term: Terminal)
    requires ViewInv(v, term) && TerminalValid(term)
    ensures var last := if v.behind || v.attaching == Some(true) then Some(SnapshotOf(term)) else v.finished;
            ViewInv(v.(finished := last), term.(live := false))
  {
    SnapshotShows(term);
    var term' := term.(live := false);
    assert forall p :: Shows(p, term) ==> Shows(p, term');
    TrueKept(Pipe(v), term, term');
  }

  // ---- The client and its handler move ----

  ghost predicate NoAckDue(v: View) {
    v.handler == Idle && forall i :: 0 <= i < |v.msgs| ==> !v.msgs[i].AttachAck?
  }

  lemma Begins(v: View, term: Terminal)
    requires ViewInv(v, term) && TerminalValid(term) && term.live && NoAckDue(v)
    ensures ViewInv(v.(sub := true, behind := false, attaching := Some(false), handler := Holding(SnapshotOf(term))),
                    term)
  {
    SnapshotShows(term);
    var v' := v.(sub := true, behind := false, attaching := Some(false), handler := Holding(SnapshotOf(term)));
    var ack := AttachAck(v.terminal, SnapshotOf(term));
    assert Pipe(v) == v.msgs && Pipe(v') == v.msgs + [ack];
    AppendOne(At(v), v.msgs, ack);
    forall i | 0 <= i < |Pipe(v')| && Pipe(v')[i].AttachAck? ensures AckAt(Pipe(v'), i, At(v')) {
      assert i == |v.msgs|;
      assert Pipe(v')[..i] == v.msgs;
      assert forall j :: 0 <= j < |v.msgs| ==> MessageTrue(v.msgs[j], term);
    }
  }

  lemma AckQueued(v: View, term: Terminal)
    requires ViewInv(v, term) && v.handler.Holding?
    ensures ViewInv(v.(msgs := v.msgs + [AttachAck(v.terminal, v.handler.snapshot)], handler := Acked), term)
  {
    var v' := v.(msgs := v.msgs + [AttachAck(v.terminal, v.handler.snapshot)], handler := Acked);
    assert Pipe(v') == Pipe(v);
  }

  lemma Finishes(v: View, term: Terminal)
    requires ViewInv(v, term) && v.handler == Acked
    ensures ViewInv(v.(attaching := None, behind := if v.attaching == Some(true) && v.sub then true else v.behind,
                       handler := Idle), term)
  {
    var v' := v.(attaching := None, behind := if v.attaching == Some(true) && v.sub then true else v.behind,
                 handler := Idle);
    assert Pipe(v') == Pipe(v);
  }

  lemma Detaches(v: View, term: Terminal)
    requires ViewInv(v, term)
    ensures ViewInv(v.(sub := false, behind := false, attaching := None, finished := None), term)
  {
    var v' := v.(sub := false, behind := false, attaching := None, finished := None);
    assert Pipe(v') == Pipe(v);
  }

  lemma DropsGrid(v: View, term: Terminal)
    requires ViewInv(v, term)
    ensures ViewInv(v.(grid := None), term)
  {
    WithoutGrid(At(v), Pipe(v));
    var v' := v.(grid := None);
    assert Pipe(v') == Pipe(v);
    forall i | 0 <= i < |Pipe(v')| && Pipe(v')[i].AttachAck? ensures AckAt(Pipe(v'), i, None) {
      assert AckAt(Pipe(v), i, At(v));
    }
  }

  /** Losing the replica loses no gap-freedom, and where an ack is due the end
      is the same. */
  lemma {:induction false} WithoutGrid(at: Option<nat>, ms: seq<Message>)
    requires Terminals(ms) && NoGap(at, ms)
    ensures NoGap(None, ms)
    ensures End(None, ms).None? || End(None, ms) == End(at, ms)
    decreases |ms|
  {
    if ms != [] {
      if !ms[0].AttachAck? {
        WithoutGrid(Take(at, ms[0]), ms[1..]);
      }
    }
  }

  // ---- The client consumes ----

  function EventOf(m: Message): TerminalEvent
    requires IsTerminalOutput(m)
  {
    if m.DeltaMessage? then TerminalDeltaEvent(m.terminal, m.delta) else TerminalResyncEvent(m.terminal, m.snapshot)
  }

  /** A true message that follows the replica is never reported as a gap, moves
      the replica's number as `Take` says, and leaves it showing the terminal. */
  lemma EventLands(g: Grid, m: Message, term: Terminal)
    requires TerminalValid(term) && Shows(OfGrid(g), term)
    requires IsTerminalOutput(m) && MessageTrue(m, term) && Follows(Some(g.lastSeq), m)
    ensures var (g', outcome) := ApplyToGrid(g, EventOf(m));
            && outcome != EventNeedsResync
            && Some(g'.lastSeq) == Take(Some(g.lastSeq), m)
            && Shows(OfGrid(g'), term)
  {
    if m.DeltaMessage? {
      DeltaLands(g, m.delta, term);
    } else {
      assert OfGrid(FromSnapshot(m.snapshot)) == OfSnapshot(m.snapshot);
    }
  }

  lemma DeltaLands(g: Grid, d: TerminalDelta, term: Terminal)
    requires TerminalValid(term) && Shows(OfGrid(g), term)
    requires 1 <= d.seqNo <= EmitSeq(term) && Valid(term.emitted[d.seqNo - 1])
    requires d == DeltaAt(term, d.seqNo) && d.seqNo <= g.lastSeq + 1
    ensures var r := ApplyDelta(g, d);
            && (r.1 == Applied || r.1 == Stale)
            && r.0.lastSeq == Max(g.lastSeq, d.seqNo)
            && Shows(OfGrid(r.0), term)
  {
    if d.seqNo <= g.lastSeq {
      assert ApplyDelta(g, d) == (g, Stale);
    } else {
      NextDeltaLandsExactly(g, term);
      var r := ApplyDelta(g, DeltaAt(term, g.lastSeq + 1));
      assert OfGrid(r.0).seqNo == r.0.lastSeq;
    }
  }

  function ApplyOption(grid: Option<Grid>, e: TerminalEvent): Option<Grid> {
    if grid.None? then None else Some(ApplyToGrid(grid.value, e).0)
  }

  lemma TakesEvent(v: View, term: Terminal)
    requires ViewInv(v, term) && TerminalValid(term)
    requires v.msgs != [] && IsTerminalOutput(v.msgs[0])
    ensures ViewInv(v.(msgs := v.msgs[1..], grid := ApplyOption(v.grid, EventOf(v.msgs[0]))), term)
    ensures v.grid.Some? ==> ApplyToGrid(v.grid.value, EventOf(v.msgs[0])).1 != EventNeedsResync
    ensures v.grid.Some? ==> v.grid.value.lastSeq <= ApplyToGrid(v.grid.value, EventOf(v.msgs[0])).0.lastSeq
  {
    var m := v.msgs[0];
    var v' := v.(msgs := v.msgs[1..], grid := ApplyOption(v.grid, EventOf(m)));
    assert Pipe(v)[0] == m && Pipe(v)[1..] == Pipe(v');
    assert MessageTrue(m, term);
    if v.grid.Some? {
      EventLands(v.grid.value, m, term);
    }
    assert At(v') == Take(At(v), m);
    assert forall i :: 0 <= i < |Pipe(v')| ==> Pipe(v')[i] == Pipe(v)[i + 1];
    forall i | 0 <= i < |Pipe(v')| && Pipe(v')[i].AttachAck? ensures AckAt(Pipe(v'), i, At(v')) {
      assert AckAt(Pipe(v), i + 1, At(v));
      assert Pipe(v)[..i + 1][0] == m;
      forall j | 0 <= j < |Pipe(v')[..i]|
        ensures IsTerminalOutput(Pipe(v')[..i][j]) && SeqOf(Pipe(v')[..i][j]) <= SeqOf(Pipe(v')[i])
      {
        assert Pipe(v)[..i + 1][j + 1] == Pipe(v')[..i][j];
      }
    }
  }

  /** Installing the ack, even ahead of events queued before it. */
  lemma InstallsAck(v: View, term: Terminal, i: nat)
    requires ViewInv(v, term)
    requires i < |v.msgs| && v.msgs[i].AttachAck?
    ensures ViewInv(v.(msgs := v.msgs[..i] + v.msgs[i + 1..], grid := Some(FromSnapshot(v.msgs[i].snapshot))), term)
    ensures v.grid.Some? ==> v.grid.value.lastSeq <= v.msgs[i].snapshot.seqNo
  {
    var ack := v.msgs[i];
    var v' := v.(msgs := v.msgs[..i] + v.msgs[i + 1..], grid := Some(FromSnapshot(ack.snapshot)));
    var a, b := Pipe(v)[..i], Pipe(v)[i + 1..];
    assert Pipe(v)[i] == ack && Pipe(v) == a + [ack] + b && Pipe(v') == a + b;
    assert AckAt(Pipe(v), i, At(v));
    EarlyAck(At(v), a, ack, b);
    assert MessageTrue(ack, term);
    WithoutAck(Pipe(v), At(v), i, term);
  }

  /** With its one ack taken out, the rest is as true as before and has none. */
  lemma WithoutAck(ms: seq<Message>, at: Option<nat>, i: nat, term: Terminal)
    requires Terminals(ms) && OneAck(ms, at) && i < |ms| && ms[i].AttachAck?
    requires forall j :: 0 <= j < |ms| ==> MessageTrue(ms[j], term)
    ensures var rest := ms[..i] + ms[i + 1..];
            forall j :: 0 <= j < |rest| ==> MessageTrue(rest[j], term) && !rest[j].AttachAck?
  {
    var rest := ms[..i] + ms[i + 1..];
    forall j | 0 <= j < |rest| ensures MessageTrue(rest[j], term) && !rest[j].AttachAck? {
      var k := if j < i then j else j + 1;
      assert rest[j] == ms[k];
      AckUnique(ms, at, if j < i then k else i, if j < i then i else k);
    }
  }

  lemma AckUnique(ms: seq<Message>, at: Option<nat>, i: nat, k: nat)
    requires Terminals(ms) && OneAck(ms, at) && i < k < |ms|
    ensures !(ms[i].AttachAck? && ms[k].AttachAck?)
  {
    if ms[k].AttachAck? {
      assert AckAt(ms, k, at);
      assert ms[..k][i] == ms[i];
    }
  }
}

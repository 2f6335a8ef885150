/** One terminal of the daemon: output feeds the engine, an emission numbers the
    damage so far, and a snapshot shows the engine under the current number
    even while damage is still unemitted. */
module Emission {
  import opened Options
  import opened TerminalTypes
  import opened Engine
  import opened Replica

  /** All a client can see of a terminal, under a number. */
  datatype Picture = Picture(
    seqNo: nat, visible: seq<Row>, scrollbackLen: nat, generation: nat, cursor: Cursor, modes: TermModes)

  function OfEngine(e: Engine, seqNo: nat): Picture {
    Picture(seqNo, e.visible, |e.history|, e.generation, e.cursor, e.modes)
  }

  /** `emitted[s]` is the engine as delta `s + 1` was built from it; `pictures`
      is history: all the terminal ever was, under the number it then had. */
  datatype Terminal = Terminal(
    engine: Engine, pending: bool, live: bool, emitted: seq<Engine>, pictures: set<Picture>)

  function Started(engine: Engine): Terminal {
    Terminal(engine, false, true, [], {OfEngine(engine, 0)})
  }

  function EmitSeq(term: Terminal): nat {
    |term.emitted|
  }

  /** The engine state the next delta past `s` carries the reader to. */
  function Target(term: Terminal, s: nat): (e: Engine)
    requires s <= EmitSeq(term)
  {
    if s < |term.emitted| then term.emitted[s] else term.engine
  }

  function DeltaAt(term: Terminal, s: nat): (d: TerminalDelta)
    requires 1 <= s <= EmitSeq(term) && Valid(term.emitted[s - 1])
  {
    BuildDelta(term.emitted[s - 1], s)
  }

  function SnapshotOf(term: Terminal): (s: TerminalSnapshot) {
    BuildSnapshot(term.engine, EmitSeq(term))
  }

  ghost predicate CanFeed(term: Terminal, after: Engine) {
    term.live && Fed(term.engine, after)
  }

  function Feed(term: Terminal, after: Engine): (term': Terminal) {
    term.(engine := after, pending := true, pictures := term.pictures + {OfEngine(after, EmitSeq(term))})
  }

  predicate CanEmit(term: Terminal) {
    term.live && term.pending
  }

  function Emit(term: Terminal): (term': Terminal) {
    term.(engine := term.engine.(damage := CLEAN), pending := false, emitted := term.emitted + [term.engine],
          pictures := term.pictures + {OfEngine(term.engine, EmitSeq(term) + 1)})
  }

  // ---- What a reader at some sequence number looks like ----

  function OfSnapshot(s: TerminalSnapshot): Picture {
    Picture(s.seqNo, s.visible, s.scrollbackLen, s.generation, s.cursor, s.modes)
  }

  function OfGrid(g: Grid): Picture {
    Picture(g.lastSeq, g.visible, g.scrollbackLen, g.generation, g.cursor, g.modes)
  }

  /** `p` is the whole of what the terminal was at some moment, under the number
      of that moment; it differs from the screen the next delta leads to only
      where that delta writes; with nothing left to emit it is the daemon's. */
  ghost predicate Shows(p: Picture, term: Terminal) {
    && p in term.pictures
    && p.seqNo <= EmitSeq(term)
    && Agrees(p.visible, Target(term, p.seqNo).visible, Target(term, p.seqNo).damage)
    && (p.seqNo == EmitSeq(term) && !term.pending ==> p == OfEngine(term.engine, p.seqNo))
  }

  /** The screen of an emission is itself a picture under that number. */
  ghost predicate EmissionTrue(term: Terminal, s: nat)
    requires s < |term.emitted|
  {
    Valid(term.emitted[s]) && Shows(OfEngine(term.emitted[s], s + 1), term)
  }

  ghost predicate TerminalValid(term: Terminal) {
    && Valid(term.engine)
    && OfEngine(term.engine, EmitSeq(term)) in term.pictures
    && (forall s {:trigger EmissionTrue(term, s)} :: 0 <= s < |term.emitted| ==> EmissionTrue(term, s))
  }

  lemma FeedKeepsPicture(p: Picture, term: Terminal, after: Engine)
    requires CanFeed(term, after) && Shows(p, term)
    ensures Shows(p, Feed(term, after))
  {
    if p.seqNo == EmitSeq(term) {
      AgreesTransGrow(p.visible, term.engine.visible, after.visible, term.engine.damage, after.damage);
    }
  }

  lemma EmitKeepsPicture(p: Picture, term: Terminal)
    requires Shows(p, term)
    ensures Shows(p, Emit(term))
  {
  }

  lemma FeedKeepsTerminal(term: Terminal, after: Engine)
    requires CanFeed(term, after) && TerminalValid(term)
    ensures TerminalValid(Feed(term, after))
  {
    forall s | 0 <= s < |term.emitted| ensures EmissionTrue(Feed(term, after), s) {
      assert EmissionTrue(term, s);
      FeedKeepsPicture(OfEngine(term.emitted[s], s + 1), term, after);
    }
  }

  lemma EmitKeepsTerminal(term: Terminal)
    requires TerminalValid(term)
    ensures TerminalValid(Emit(term))
  {
    var term' := Emit(term);
    forall s | 0 <= s < |term'.emitted| ensures EmissionTrue(term', s) {
      if s < |term.emitted| {
        assert EmissionTrue(term, s);
        EmitKeepsPicture(OfEngine(term.emitted[s], s + 1), term);
      } else {
        AgreesRefl(term.engine.visible, CLEAN);
      }
    }
  }

  lemma SnapshotShows(term: Terminal)
    requires TerminalValid(term)
    ensures Shows(OfSnapshot(SnapshotOf(term)), term)
  {
    AgreesRefl(term.engine.visible, term.engine.damage);
  }

  /** The delta that follows what a replica holds always applies, and leaves it
      with exactly the screen that delta was built from. */
  lemma NextDeltaLandsExactly(g: Grid, term: Terminal)
    requires TerminalValid(term) && Shows(OfGrid(g), term) && g.lastSeq < EmitSeq(term)
    ensures EmissionTrue(term, g.lastSeq)
    ensures var r := ApplyDelta(g, DeltaAt(term, g.lastSeq + 1));
            && r.1 == Applied
            && OfGrid(r.0) == OfEngine(term.emitted[g.lastSeq], g.lastSeq + 1)
            && Shows(OfGrid(r.0), term)
  {
    assert EmissionTrue(term, g.lastSeq);
    var e := term.emitted[g.lastSeq];
    var d := DeltaAt(term, g.lastSeq + 1);
    DeltaRepairs(g.visible, e, g.lastSeq + 1);
    if e.damage.Full? {
      assert Paint(g.visible, d) == e.visible;
    } else {
      assert PutRows(g.visible, d.rows) == g.visible;
      assert Paint(g.visible, d) == e.visible;
    }
  }
}

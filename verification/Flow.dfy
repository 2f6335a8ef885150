/** The messages of one terminal on their way to one client, and the sequence
    number the client's replica ends at once it has taken them. */
module Flow {
  import opened Options
  import opened TerminalTypes
  import opened Handles

  predicate Concerns(m: Message, t: TerminalId) {
    !m.OtherMessage? && m.terminal == t
  }

  function Proj(pipe: seq<Message>, t: TerminalId): (ms: seq<Message>) {
    if pipe == [] then []
    else (if Concerns(pipe[0], t) then [pipe[0]] else []) + Proj(pipe[1..], t)
  }

  lemma {:induction false} ProjConcat(a: seq<Message>, b: seq<Message>, t: TerminalId)
    ensures Proj(a + b, t) == Proj(a, t) + Proj(b, t)
    decreases |a|
  {
    if a == [] {
      assert a + b == b;
    } else {
      var head := if Concerns(a[0], t) then [a[0]] else [];
      assert (a + b)[0] == a[0] && (a + b)[1..] == a[1..] + b;
      ProjConcat(a[1..], b, t);
      assert Proj(a + b, t) == head + (Proj(a[1..], t) + Proj(b, t)) == head + Proj(a[1..], t) + Proj(b, t);
    }
  }

  lemma ProjOne(m: Message, t: TerminalId)
    ensures Proj([m], t) == if Concerns(m, t) then [m] else []
  {
    assert [m][1..] == [];
  }

  lemma {:induction false} ProjOnly(pipe: seq<Message>, t: TerminalId)
    ensures forall i :: 0 <= i < |Proj(pipe, t)| ==> Concerns(Proj(pipe, t)[i], t) && Proj(pipe, t)[i] in pipe
    decreases |pipe|
  {
    if pipe != [] {
      ProjOnly(pipe[1..], t);
    }
  }

  function SeqOf(m: Message): (s: nat)
    requires !m.OtherMessage?
  {
    match m
    case DeltaMessage(_, d) => d.seqNo
    case ResyncMessage(_, s) => s.seqNo
    case AttachAck(_, s) => s.seqNo
  }

  ghost predicate Terminals(ms: seq<Message>) {
    forall i :: 0 <= i < |ms| ==> !ms[i].OtherMessage?
  }

  function Max(a: nat, b: nat): nat {
    if a < b then b else a
  }

  /** Where one message takes a replica; without one, only an ack makes one. */
  function Take(at: Option<nat>, m: Message): (r: Option<nat>)
    requires !m.OtherMessage?
  {
    if m.AttachAck? then Some(SeqOf(m))
    else if at.None? then None
    else Some(Max(at.value, SeqOf(m)))
  }

  function End(at: Option<nat>, ms: seq<Message>): (r: Option<nat>)
    requires Terminals(ms)
    decreases |ms|
  {
    if ms == [] then at else End(Take(at, ms[0]), ms[1..])
  }

  /** No delta arrives more than one past what the replica then holds. */
  predicate Follows(at: Option<nat>, m: Message)
    requires !m.OtherMessage?
  {
    m.DeltaMessage? && at.Some? ==> SeqOf(m) <= at.value + 1
  }

  ghost predicate NoGap(at: Option<nat>, ms: seq<Message>)
    requires Terminals(ms)
    decreases |ms|
  {
    ms == [] || (Follows(at, ms[0]) && NoGap(Take(at, ms[0]), ms[1..]))
  }

  lemma {:induction false} Append(at: Option<nat>, a: seq<Message>, b: seq<Message>)
    requires Terminals(a) && Terminals(b)
    ensures Terminals(a + b)
    ensures End(at, a + b) == End(End(at, a), b)
    ensures NoGap(at, a + b) <==> NoGap(at, a) && NoGap(End(at, a), b)
    decreases |a|
  {
    if a == [] {
      assert a + b == b;
    } else {
      assert (a + b)[1..] == a[1..] + b;
      Append(Take(at, a[0]), a[1..], b);
    }
  }

  lemma AppendOne(at: Option<nat>, a: seq<Message>, m: Message)
    requires Terminals(a) && !m.OtherMessage?
    ensures Terminals(a + [m])
    ensures End(at, a + [m]) == Take(End(at, a), m)
    ensures NoGap(at, a + [m]) <==> NoGap(at, a) && Follows(End(at, a), m)
  {
    Append(at, a, [m]);
    assert [m][1..] == [];
  }

  /** Everything in `ms` is an event no newer than `s`. */
  ghost predicate NoNewer(ms: seq<Message>, s: nat) {
    forall i :: 0 <= i < |ms| ==> IsTerminalOutput(ms[i]) && SeqOf(ms[i]) <= s
  }

  /** Events no newer than the replica leave its number alone. */
  lemma {:induction false} StaleKeeps(ms: seq<Message>, s: nat)
    requires Terminals(ms) && NoNewer(ms, s)
    ensures End(Some(s), ms) == Some(s) && NoGap(Some(s), ms)
    decreases |ms|
  {
    if ms != [] {
      assert Take(Some(s), ms[0]) == Some(s);
      StaleKeeps(ms[1..], s);
    }
  }

  /** An ack taken ahead of the events queued before it changes nothing about
      where the replica ends. */
  lemma EarlyAck(at: Option<nat>, a: seq<Message>, ack: Message, b: seq<Message>)
    requires ack.AttachAck? && Terminals(a) && Terminals(b)
    requires NoNewer(a, SeqOf(ack))
    requires Terminals(a + [ack] + b) && NoGap(at, a + [ack] + b)
    ensures Terminals(a + b)
    ensures NoGap(Some(SeqOf(ack)), a + b)
    ensures End(Some(SeqOf(ack)), a + b) == End(at, a + [ack] + b)
  {
    assert a + [ack] + b == a + ([ack] + b);
    Append(at, a, [ack] + b);
    assert ([ack] + b)[1..] == b;
    StaleKeeps(a, SeqOf(ack));
    Append(Some(SeqOf(ack)), a, b);
  }
}

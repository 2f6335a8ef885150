/** The documents one language server has open: what each lookup tells the
    server, and what the server then holds. */
module LspSync {
  import opened Options
  import opened Sequences

  const MAX_OPEN_DOCUMENTS := 64
  const I32_MAX := 0x7fff_ffff

  type Path = string

  /** What `DefaultHasher` makes of a text, whatever that is. */
  type Hash = string -> nat

  datatype Doc = Doc(path: Path, version: int, fingerprint: nat)

  /** A notification of the "Text Document Synchronization" section of LSP 3.17. */
  datatype Note =
    | DidOpen(path: Path, language: string, version: int, text: string)
    | DidChange(path: Path, version: int, text: string)
    | DidClose(path: Path)

  /** The next version; a signed 32-bit counter wraps. */
  function Bump(version: int): int {
    if version == I32_MAX then -I32_MAX - 1 else version + 1
  }

  function IndexOf(open: seq<Doc>, path: Path): (i: nat)
    ensures i <= |open| && (i < |open| ==> open[i].path == path)
    ensures forall k :: 0 <= k < i ==> open[k].path != path
  {
    if open == [] then 0 else if open[0].path == path then 0 else 1 + IndexOf(open[1..], path)
  }

  function Removed<T>(s: seq<T>, i: nat): seq<T>
    requires i < |s|
  {
    s[..i] + s[i + 1..]
  }

  /** One `sync`: the documents after it and what it told the server. */
  function Sync(open: seq<Doc>, path: Path, language: string, text: string, fingerprint: nat): (seq<Doc>, seq<Note>) {
    var i := IndexOf(open, path);
    if i < |open| then
      var doc := open[i];
      if doc.fingerprint == fingerprint then (Removed(open, i) + [doc], [])
      else
        (Removed(open, i) + [Doc(path, Bump(doc.version), fingerprint)], [DidChange(path, Bump(doc.version), text)])
    else if |open| >= MAX_OPEN_DOCUMENTS then
      (open[1..] + [Doc(path, 1, fingerprint)], [DidClose(open[0].path), DidOpen(path, language, 1, text)])
    else
      (open + [Doc(path, 1, fingerprint)], [DidOpen(path, language, 1, text)])
  }

  // ---- The server's side ----

  datatype Copy = Copy(version: int, text: string)

  /** No second open, no change or close of what is not open, and every change
      newer than the last. */
  predicate Accepts(mirror: map<Path, Copy>, note: Note) {
    match note
    case DidOpen(path, _, _, _) => path !in mirror
    case DidChange(path, version, _) => path in mirror && mirror[path].version < version
    case DidClose(path) => path in mirror
  }

  function Take(mirror: map<Path, Copy>, note: Note): map<Path, Copy> {
    match note
    case DidOpen(path, _, version, text) => mirror[path := Copy(version, text)]
    case DidChange(path, version, text) => mirror[path := Copy(version, text)]
    case DidClose(path) => mirror - {path}
  }

  predicate AcceptsAll(mirror: map<Path, Copy>, notes: seq<Note>)
    decreases |notes|
  {
    notes == [] || (Accepts(mirror, notes[0]) && AcceptsAll(Take(mirror, notes[0]), notes[1..]))
  }

  function TakeAll(mirror: map<Path, Copy>, notes: seq<Note>): map<Path, Copy>
    decreases |notes|
  {
    if notes == [] then mirror else TakeAll(Take(mirror, notes[0]), notes[1..])
  }

  lemma {:induction false} AcceptsAppend(mirror: map<Path, Copy>, a: seq<Note>, b: seq<Note>)
    ensures AcceptsAll(mirror, a + b) <==> AcceptsAll(mirror, a) && AcceptsAll(TakeAll(mirror, a), b)
    ensures TakeAll(mirror, a + b) == TakeAll(TakeAll(mirror, a), b)
    decreases |a|
  {
    if a == [] {
      assert a + b == b;
    } else {
      assert (a + b)[1..] == a[1..] + b;
      AcceptsAppend(Take(mirror, a[0]), a[1..], b);
    }
  }

  // ---- Every sequence of lookups ----

  datatype Lookup = Lookup(path: Path, language: string, text: string)

  /** `synced` is the text each path was last asked about with. */
  datatype Session = Session(open: seq<Doc>, sent: seq<Note>, synced: map<Path, string>)

  const NEW_SESSION := Session([], [], map[])

  function Step(s: Session, q: Lookup, hash: Hash): Session {
    var (open, notes) := Sync(s.open, q.path, q.language, q.text, hash(q.text));
    Session(open, s.sent + notes, s.synced[q.path := q.text])
  }

  function After(lookups: seq<Lookup>, hash: Hash): Session
    decreases |lookups|
  {
    if lookups == [] then NEW_SESSION else Step(After(lookups[..|lookups| - 1], hash), lookups[|lookups| - 1], hash)
  }

  function Paths(open: seq<Doc>): seq<Path> {
    seq(|open|, i requires 0 <= i < |open| => open[i].path)
  }

  /** The server's copy of one open document is what the document says. */
  ghost predicate CopyTrue(doc: Doc, mirror: map<Path, Copy>, synced: map<Path, string>, hash: Hash) {
    && doc.path in mirror && doc.path in synced
    && mirror[doc.path].version == doc.version
    && hash(mirror[doc.path].text) == doc.fingerprint == hash(synced[doc.path])
  }

  ghost predicate Mirrors(open: seq<Doc>, mirror: map<Path, Copy>, synced: map<Path, string>, hash: Hash) {
    && |open| <= MAX_OPEN_DOCUMENTS
    && Distinct(Paths(open))
    && (forall i :: 0 <= i < |open| ==> CopyTrue(open[i], mirror, synced, hash))
    && (forall path :: path in mirror ==> path in Paths(open))
  }

  ghost predicate Counted(open: seq<Doc>, upTo: int) {
    forall i :: 0 <= i < |open| ==> 1 <= open[i].version <= upTo
  }

  /** The lookup changes a document whose counter is at its end. */
  predicate Overruns(open: seq<Doc>, q: Lookup, hash: Hash) {
    var i := IndexOf(open, q.path);
    i < |open| && open[i].fingerprint != hash(q.text) && open[i].version == I32_MAX
  }

  lemma KnownKeeps(s: Session, q: Lookup, mirror: map<Path, Copy>, hash: Hash)
    requires Mirrors(s.open, mirror, s.synced, hash) && Counted(s.open, I32_MAX) && !Overruns(s.open, q, hash)
    requires IndexOf(s.open, q.path) < |s.open|
    ensures var notes := Sync(s.open, q.path, q.language, q.text, hash(q.text)).1;
            && AcceptsAll(mirror, notes)
            && Mirrors(Step(s, q, hash).open, TakeAll(mirror, notes), Step(s, q, hash).synced, hash)
  {
    var (open, notes) := Sync(s.open, q.path, q.language, q.text, hash(q.text));
    var i := IndexOf(s.open, q.path);
    var doc := s.open[i];
    assert CopyTrue(doc, mirror, s.synced, hash);
    RemovedKeeps(s.open, i, q.path);
    var mirror' := if notes == [] then mirror else Take(mirror, notes[0]);
    assert notes == [] || notes[1..] == [];
    assert TakeAll(mirror, notes) == mirror';
    var synced := s.synced[q.path := q.text];
    forall k | 0 <= k < |open| ensures CopyTrue(open[k], mirror', synced, hash) {
      if k < |open| - 1 {
        assert open[k] in s.open && open[k].path != q.path;
        assert CopyTrue(open[k], mirror, s.synced, hash);
      }
    }
    PathsAppend(Removed(s.open, i), open[|open| - 1]);
  }

  lemma PathsAppend(open: seq<Doc>, doc: Doc)
    ensures Paths(open + [doc]) == Paths(open) + [doc.path]
  {
  }

  lemma RemovedKeeps(open: seq<Doc>, i: nat, path: Path)
    requires i < |open| && Distinct(Paths(open)) && open[i].path == path
    ensures var rest := Removed(open, i);
            && Distinct(Paths(rest)) && path !in Paths(rest)
            && (forall p :: p in Paths(open) ==> p == path || p in Paths(rest))
            && (forall k :: 0 <= k < |rest| ==> rest[k] in open && rest[k].path != path)
  {
    var rest := Removed(open, i);
    forall k | 0 <= k < |rest| ensures rest[k] == open[if k < i then k else k + 1] && rest[k].path != path {
      var j := if k < i then k else k + 1;
      assert Paths(open)[j] != Paths(open)[i];
    }
    forall p | p in Paths(open) ensures p == path || p in Paths(rest) {
      var j :| 0 <= j < |open| && Paths(open)[j] == p;
      if j != i { assert Paths(rest)[if j < i then j else j - 1] == p; }
    }
    forall a, b | 0 <= a < b < |rest| ensures Paths(rest)[a] != Paths(rest)[b] {
      var a', b' := if a < i then a else a + 1, if b < i then b else b + 1;
      assert Paths(open)[a'] != Paths(open)[b'];
    }
  }

  lemma OpenKeeps(open: seq<Doc>, q: Lookup, mirror: map<Path, Copy>, synced: map<Path, string>, hash: Hash)
    requires Mirrors(open, mirror, synced, hash) && IndexOf(open, q.path) == |open| < MAX_OPEN_DOCUMENTS
    ensures var note := DidOpen(q.path, q.language, 1, q.text);
            && Accepts(mirror, note)
            && Mirrors(open + [Doc(q.path, 1, hash(q.text))], Take(mirror, note), synced[q.path := q.text], hash)
  {
    var doc := Doc(q.path, 1, hash(q.text));
    PathsAppend(open, doc);
    forall k | 0 <= k < |open| ensures CopyTrue(open[k], mirror[q.path := Copy(1, q.text)], synced[q.path := q.text], hash) {
      assert CopyTrue(open[k], mirror, synced, hash);
    }
  }

  lemma CloseKeeps(open: seq<Doc>, mirror: map<Path, Copy>, synced: map<Path, string>, hash: Hash)
    requires Mirrors(open, mirror, synced, hash) && open != []
    ensures Accepts(mirror, DidClose(open[0].path))
    ensures Mirrors(open[1..], Take(mirror, DidClose(open[0].path)), synced, hash)
  {
    assert CopyTrue(open[0], mirror, synced, hash);
    assert Removed(open, 0) == open[1..];
    RemovedKeeps(open, 0, open[0].path);
    forall k | 0 <= k < |open[1..]| ensures CopyTrue(open[1..][k], mirror - {open[0].path}, synced, hash) {
      assert CopyTrue(open[k + 1], mirror, synced, hash);
    }
  }

  lemma StepKeeps(s: Session, q: Lookup, mirror: map<Path, Copy>, hash: Hash)
    requires Mirrors(s.open, mirror, s.synced, hash) && Counted(s.open, I32_MAX) && !Overruns(s.open, q, hash)
    ensures var notes := Sync(s.open, q.path, q.language, q.text, hash(q.text)).1;
            && AcceptsAll(mirror, notes)
            && Mirrors(Step(s, q, hash).open, TakeAll(mirror, notes), Step(s, q, hash).synced, hash)
  {
    var open := s.open;
    var note := DidOpen(q.path, q.language, 1, q.text);
    if IndexOf(open, q.path) < |open| {
      KnownKeeps(s, q, mirror, hash);
    } else if |open| >= MAX_OPEN_DOCUMENTS {
      var close := DidClose(open[0].path);
      CloseKeeps(open, mirror, s.synced, hash);
      OpenKeeps(open[1..], q, Take(mirror, close), s.synced, hash);
      var notes := Sync(open, q.path, q.language, q.text, hash(q.text)).1;
      assert notes == [close, note] && notes[1..] == [note] && [note][1..] == [];
      assert TakeAll(mirror, notes) == TakeAll(Take(mirror, close), [note]) == Take(Take(mirror, close), note);
    } else {
      OpenKeeps(open, q, mirror, s.synced, hash);
      assert [note][1..] == [];
    }
  }

  /** Versions stay between 1 and one more than the highest before. */
  lemma StepCounts(s: Session, q: Lookup, hash: Hash, upTo: int)
    requires Counted(s.open, upTo) && 0 <= upTo <= I32_MAX && !Overruns(s.open, q, hash)
    ensures Counted(Step(s, q, hash).open, upTo + 1)
    ensures upTo == I32_MAX ==> Counted(Step(s, q, hash).open, I32_MAX)
  {
    var open := Step(s, q, hash).open;
    forall k | 0 <= k < |open| - 1 ensures 1 <= open[k].version <= upTo {
      assert open[k] in s.open;
    }
  }

  ghost predicate OverrunsAt(lookups: seq<Lookup>, n: nat, hash: Hash)
    requires n < |lookups|
  {
    Overruns(After(lookups[..n], hash).open, lookups[n], hash)
  }

  /** No lookup changes a document whose counter is at its end. */
  ghost predicate NeverOverruns(lookups: seq<Lookup>, hash: Hash) {
    forall n :: 0 <= n < |lookups| ==> !OverrunsAt(lookups, n, hash)
  }

  lemma InitOverruns(lookups: seq<Lookup>, hash: Hash)
    requires lookups != []
    ensures var init := lookups[..|lookups| - 1];
            NeverOverruns(lookups, hash) <==> NeverOverruns(init, hash) && !OverrunsAt(lookups, |lookups| - 1, hash)
  {
    var init := lookups[..|lookups| - 1];
    forall n | 0 <= n < |init| ensures OverrunsAt(init, n, hash) <==> OverrunsAt(lookups, n, hash) {
      assert init[..n] == lookups[..n];
    }
  }

  /** Over any lookups that overrun no counter: what is sent is well formed, and
      afterwards the server has open exactly the documents on the list, at most
      64, each at its version and with a text of the same fingerprint as the
      text last synced. */
  lemma {:induction false} ServerFollows(lookups: seq<Lookup>, hash: Hash)
    requires NeverOverruns(lookups, hash)
    ensures var s := After(lookups, hash);
            && AcceptsAll(map[], s.sent) && Mirrors(s.open, TakeAll(map[], s.sent), s.synced, hash)
            && Counted(s.open, I32_MAX)
    decreases |lookups|
  {
    if lookups != [] {
      var init, q := lookups[..|lookups| - 1], lookups[|lookups| - 1];
      InitOverruns(lookups, hash);
      ServerFollows(init, hash);
      var s := After(init, hash);
      StepKeeps(s, q, TakeAll(map[], s.sent), hash);
      StepCounts(s, q, hash, I32_MAX);
      AcceptsAppend(map[], s.sent, Sync(s.open, q.path, q.language, q.text, hash(q.text)).1);
    }
  }

  /** A change at the end of the counter wraps to a lower version and is refused. */
  lemma OverrunIsRefused(open: seq<Doc>, q: Lookup, mirror: map<Path, Copy>, synced: map<Path, string>, hash: Hash)
    requires Mirrors(open, mirror, synced, hash) && Overruns(open, q, hash)
    ensures !AcceptsAll(mirror, Sync(open, q.path, q.language, q.text, hash(q.text)).1)
  {
    assert CopyTrue(open[IndexOf(open, q.path)], mirror, synced, hash);
  }

  /** What is sent over any lookups is well formed if and only if no lookup
      changes a document whose 32-bit counter is at its end. */
  lemma {:induction false} WellFormedIff(lookups: seq<Lookup>, hash: Hash)
    ensures AcceptsAll(map[], After(lookups, hash).sent) <==> NeverOverruns(lookups, hash)
    decreases |lookups|
  {
    if NeverOverruns(lookups, hash) {
      ServerFollows(lookups, hash);
    } else {
      var init, q := lookups[..|lookups| - 1], lookups[|lookups| - 1];
      var s := After(init, hash);
      InitOverruns(lookups, hash);
      WellFormedIff(init, hash);
      AcceptsAppend(map[], s.sent, Sync(s.open, q.path, q.language, q.text, hash(q.text)).1);
      if NeverOverruns(init, hash) {
        ServerFollows(init, hash);
        OverrunIsRefused(s.open, q, TakeAll(map[], s.sent), s.synced, hash);
      }
    }
  }

  // ---- How many lookups are safe ----

  lemma {:induction false} FewLookupsCount(lookups: seq<Lookup>, hash: Hash)
    requires |lookups| <= I32_MAX
    ensures Counted(After(lookups, hash).open, |lookups|) && NeverOverruns(lookups, hash)
    decreases |lookups|
  {
    if lookups != [] {
      var init := lookups[..|lookups| - 1];
      FewLookupsCount(init, hash);
      InitOverruns(lookups, hash);
      StepCounts(After(init, hash), lookups[|lookups| - 1], hash, |init|);
    }
  }

  lemma AfterOneMore(lookups: seq<Lookup>, q: Lookup, hash: Hash)
    ensures After(lookups + [q], hash) == Step(After(lookups, hash), q, hash)
  {
    var longer := lookups + [q];
    assert longer[..|longer| - 1] == lookups && longer[|longer| - 1] == q;
  }

  lemma FirstOpens(q: Lookup, hash: Hash)
    ensures Step(NEW_SESSION, q, hash).open == [Doc(q.path, 1, hash(q.text))]
  {
  }

  lemma OneDocChanges(s: Session, path: Path, version: int, was: nat, q: Lookup, hash: Hash)
    requires s.open == [Doc(path, version, was)] && q.path == path && was != hash(q.text)
    ensures Step(s, q, hash).open == [Doc(path, Bump(version), hash(q.text))]
    ensures Overruns(s.open, q, hash) <==> version == I32_MAX
  {
    assert IndexOf(s.open, path) == 0 && Removed(s.open, 0) == [];
  }

  /** One document, looked up with two texts in turn, counts every lookup. */
  lemma {:induction false} Alternate(n: nat, path: Path, a: string, b: string, hash: Hash)
    returns (lookups: seq<Lookup>, last: string)
    requires 1 <= n <= I32_MAX && hash(a) != hash(b)
    ensures |lookups| == n && last in {a, b} && After(lookups, hash).open == [Doc(path, n, hash(last))]
  {
    if n == 1 {
      last := a;
      lookups := [] + [Lookup(path, "", a)];
      AfterOneMore([], Lookup(path, "", a), hash);
      FirstOpens(Lookup(path, "", a), hash);
    } else {
      var before, was := Alternate(n - 1, path, a, b, hash);
      last := if was == a then b else a;
      var q := Lookup(path, "", last);
      lookups := before + [q];
      AfterOneMore(before, q, hash);
      OneDocChanges(After(before, hash), path, n - 1, hash(was), q, hash);
    }
  }

  /** One lookup more, and the counter overruns. */
  lemma AlternatingOverruns(n: nat, path: Path, a: string, b: string, hash: Hash) returns (lookups: seq<Lookup>)
    requires n == I32_MAX && hash(a) != hash(b)
    ensures |lookups| == n + 1 && OverrunsAt(lookups, n, hash)
  {
    var before, was := Alternate(n, path, a, b, hash);
    var q := Lookup(path, "", if was == a then b else a);
    OneDocChanges(After(before, hash), path, n, hash(was), q, hash);
    lookups := before + [q];
    assert lookups[..n] == before && lookups[n] == q;
  }

  /** Every sequence of `n` lookups is told to the server in good form. */
  ghost predicate AlwaysWellFormed(n: nat, hash: Hash) {
    forall lookups: seq<Lookup> :: |lookups| == n ==> AcceptsAll(map[], After(lookups, hash).sent)
  }

  /** For any hash that tells some two texts apart, `n` lookups are certain to
      be well formed if and only if `n` is at most 2^31 - 1. */
  lemma SafeLengthIff(n: nat, a: string, b: string, hash: Hash)
    requires hash(a) != hash(b)
    ensures AlwaysWellFormed(n, hash) <==> n <= I32_MAX
  {
    if n <= I32_MAX {
      forall lookups: seq<Lookup> | |lookups| == n ensures AcceptsAll(map[], After(lookups, hash).sent) {
        FewLookupsCount(lookups, hash);
        WellFormedIff(lookups, hash);
      }
    } else {
      var m: nat := I32_MAX;
      var first := AlternatingOverruns(m, "", a, b, hash);
      var lookups := first + seq(n - m - 1, i => Lookup("", "", a));
      assert lookups[..m] == first[..m] && lookups[m] == first[m];
      assert OverrunsAt(lookups, m, hash);
      WellFormedIff(lookups, hash);
    }
  }

  // ---- Which documents are open ----

  function Without(paths: seq<Path>, path: Path): seq<Path> {
    if paths == [] then [] else if paths[0] == path then Without(paths[1..], path) else [paths[0]] + Without(paths[1..], path)
  }

  /** Every path ever looked up, the most recent last. */
  function Recency(lookups: seq<Lookup>): seq<Path>
    decreases |lookups|
  {
    if lookups == [] then []
    else Without(Recency(lookups[..|lookups| - 1]), lookups[|lookups| - 1].path) + [lookups[|lookups| - 1].path]
  }

  function Last(paths: seq<Path>, n: nat): seq<Path> {
    if |paths| <= n then paths else paths[|paths| - n..]
  }

  lemma {:induction false} WithoutAbsent(paths: seq<Path>, path: Path)
    requires path !in paths
    ensures Without(paths, path) == paths
    decreases |paths|
  {
    if paths != [] { WithoutAbsent(paths[1..], path); }
  }

  lemma {:induction false} WithoutSplits(a: seq<Path>, b: seq<Path>, path: Path)
    ensures Without(a + b, path) == Without(a, path) + Without(b, path)
    decreases |a|
  {
    if a == [] {
      assert a + b == b;
    } else {
      assert (a + b)[1..] == a[1..] + b;
      WithoutSplits(a[1..], b, path);
    }
  }

  lemma {:induction false} WithoutDistinct(paths: seq<Path>, path: Path)
    requires Distinct(paths)
    ensures Distinct(Without(paths, path)) && path !in Without(paths, path)
    ensures forall p :: p in Without(paths, path) ==> p in paths
    decreases |paths|
  {
    if paths != [] {
      WithoutDistinct(paths[1..], path);
      assert paths[0] !in paths[1..];
    }
  }

  lemma {:induction false} RecencyDistinct(lookups: seq<Lookup>)
    ensures Distinct(Recency(lookups))
    decreases |lookups|
  {
    if lookups != [] {
      var init, q := lookups[..|lookups| - 1], lookups[|lookups| - 1];
      RecencyDistinct(init);
      WithoutDistinct(Recency(init), q.path);
    }
  }

  lemma {:induction false} WithoutMiddle(a: seq<Path>, path: Path, b: seq<Path>)
    requires path !in a && path !in b
    ensures Without(a + [path] + b, path) == a + b
    decreases |a|
  {
    var whole := a + [path] + b;
    if a == [] {
      assert whole[0] == path && whole[1..] == b;
      WithoutAbsent(b, path);
    } else {
      assert whole[0] == a[0] && whole[1..] == a[1..] + [path] + b;
      WithoutMiddle(a[1..], path, b);
    }
  }

  lemma Parts(paths: seq<Path>, i: nat)
    requires Distinct(paths) && i < |paths|
    ensures paths == paths[..i] + [paths[i]] + paths[i + 1..]
    ensures paths[i] !in paths[..i] && paths[i] !in paths[i + 1..]
  {
  }

  lemma LastOf(older: seq<Path>, recent: seq<Path>, n: nat)
    requires |recent| == n || (|recent| <= n && older == [])
    ensures Last(older + recent, n) == recent
  {
  }

  lemma RemovedBehind(older: seq<Path>, open: seq<Path>, i: nat)
    requires i < |open|
    ensures var all, k := older + open, |older| + i;
            all[..k] == older + open[..i] && all[k + 1..] == open[i + 1..] && all[k] == open[i]
  {
  }

  lemma RecentKnown(all: seq<Path>, open: seq<Path>, i: nat)
    requires Distinct(all) && open == Last(all, MAX_OPEN_DOCUMENTS) && i < |open|
    ensures Removed(open, i) + [open[i]] == Last(Without(all, open[i]) + [open[i]], MAX_OPEN_DOCUMENTS)
  {
    var older := all[..|all| - |open|];
    assert all == older + open;
    KnownMoves(older, open, i);
    LastOf(older, Removed(open, i) + [open[i]], MAX_OPEN_DOCUMENTS);
  }

  lemma KnownMoves(older: seq<Path>, open: seq<Path>, i: nat)
    requires Distinct(older + open) && i < |open|
    ensures Without(older + open, open[i]) + [open[i]] == older + (Removed(open, i) + [open[i]])
  {
    KnownParts(older, open, i);
    WithoutMiddle(older + open[..i], open[i], open[i + 1..]);
    Regroup(older, open[..i], open[i + 1..], open[i]);
  }

  lemma KnownParts(older: seq<Path>, open: seq<Path>, i: nat)
    requires Distinct(older + open) && i < |open|
    ensures older + open == older + open[..i] + [open[i]] + open[i + 1..]
    ensures open[i] !in older + open[..i] && open[i] !in open[i + 1..]
  {
    RemovedBehind(older, open, i);
    Parts(older + open, |older| + i);
  }

  lemma Regroup(a: seq<Path>, b: seq<Path>, c: seq<Path>, path: Path)
    ensures a + b + c + [path] == a + (b + c + [path])
  {
  }

  lemma RecentNew(all: seq<Path>, open: seq<Path>, path: Path)
    requires open == Last(all, MAX_OPEN_DOCUMENTS) && path !in open
    ensures (if |open| >= MAX_OPEN_DOCUMENTS then open[1..] else open) + [path] ==
            Last(Without(all, path) + [path], MAX_OPEN_DOCUMENTS)
  {
    if |open| < MAX_OPEN_DOCUMENTS {
      assert all == open;
      WithoutAbsent(open, path);
    } else {
      RecentDisplaces(all[..|all| - |open|], open[0], open[1..], path);
      assert all == all[..|all| - |open|] + ([open[0]] + open[1..]);
    }
  }

  lemma RecentDisplaces(older: seq<Path>, first: Path, rest: seq<Path>, path: Path)
    requires |rest| == MAX_OPEN_DOCUMENTS - 1 && path != first && path !in rest
    ensures rest + [path] == Last(Without(older + ([first] + rest), path) + [path], MAX_OPEN_DOCUMENTS)
  {
    var without := Without(older, path);
    assert Without(older + ([first] + rest), path) == without + ([first] + rest) by {
      WithoutSplits(older, [first] + rest, path);
      WithoutAbsent([first] + rest, path);
    }
    Shift(without, first, rest, path);
    LastOf(without + [first], rest + [path], MAX_OPEN_DOCUMENTS);
  }

  lemma Shift(a: seq<Path>, first: Path, rest: seq<Path>, path: Path)
    ensures a + ([first] + rest) + [path] == a + [first] + (rest + [path])
  {
  }

  lemma PathsRemoved(open: seq<Doc>, i: nat, doc: Doc)
    requires i < |open|
    ensures Paths(Removed(open, i) + [doc]) == Removed(Paths(open), i) + [doc.path]
  {
  }

  /** One lookup keeps the open list the end of the recency list. */
  lemma RecentStep(all: seq<Path>, open: seq<Doc>, path: Path, language: string, text: string, fingerprint: nat)
    requires Distinct(all) && Paths(open) == Last(all, MAX_OPEN_DOCUMENTS)
    ensures Paths(Sync(open, path, language, text, fingerprint).0) == Last(Without(all, path) + [path], MAX_OPEN_DOCUMENTS)
  {
    var i := IndexOf(open, path);
    var open' := Sync(open, path, language, text, fingerprint).0;
    if i < |open| {
      PathsRemoved(open, i, open'[|open'| - 1]);
      RecentKnown(all, Paths(open), i);
    } else {
      assert path !in Paths(open);
      RecentNew(all, Paths(open), path);
      var kept := if |open| >= MAX_OPEN_DOCUMENTS then open[1..] else open;
      PathsAppend(kept, Doc(path, 1, fingerprint));
      assert |open| >= MAX_OPEN_DOCUMENTS ==> Paths(open[1..]) == Paths(open)[1..];
    }
  }

  /** What is open is the 64 most recently looked up paths, in that order: the
      document closed to make room is always the one unused the longest. */
  lemma {:induction false} OpenIsMostRecent(lookups: seq<Lookup>, hash: Hash)
    ensures Paths(After(lookups, hash).open) == Last(Recency(lookups), MAX_OPEN_DOCUMENTS)
    decreases |lookups|
  {
    if lookups != [] {
      var init, q := lookups[..|lookups| - 1], lookups[|lookups| - 1];
      OpenIsMostRecent(init, hash);
      RecencyDistinct(init);
      RecentStep(Recency(init), After(init, hash).open, q.path, q.language, q.text, hash(q.text));
    }
  }

  // ---- In place ----

  class Documents {
    var open: seq<Doc>

    constructor ()
      ensures open == []
    {
      open := [];
    }

    /** `sync`; returns what it tells the server, in order. */
    method SyncDocument(path: Path, language: string, text: string, fingerprint: nat) returns (notes: seq<Note>)
      modifies this
      ensures open == Sync(old(open), path, language, text, fingerprint).0
      ensures notes == Sync(old(open), path, language, text, fingerprint).1
    {
      var known := Position(path);
      notes := [];
      if known < |open| {
        var doc := open[known];
        open := open[..known] + open[known + 1..];
        var version := doc.version;
        if doc.fingerprint != fingerprint {
          version := Bump(doc.version);
          notes := [DidChange(doc.path, version, text)];
        }
        open := open + [Doc(doc.path, version, fingerprint)];
      } else {
        if |open| >= MAX_OPEN_DOCUMENTS {
          notes := [DidClose(open[0].path)];
          open := open[1..];
        }
        notes := notes + [DidOpen(path, language, 1, text)];
        open := open + [Doc(path, 1, fingerprint)];
      }
    }

    method Position(path: Path) returns (i: nat)
      ensures i == IndexOf(open, path)
    {
      i := 0;
      while i < |open| && open[i].path != path
        invariant i <= |open|
        invariant forall k :: 0 <= k < i ==> open[k].path != path
      {
        i := i + 1;
      }
    }
  }

  /** One more lookup tells the server only what it does not have: nothing if its
      copy has the text's fingerprint; the new text under the next version if it
      has another; and if it has none, the text as a first version, after closing
      the least recently used of 64. */
  lemma OnlyNewsIsSent(lookups: seq<Lookup>, q: Lookup, hash: Hash)
    requires NeverOverruns(lookups, hash)
    ensures var s, sent := After(lookups, hash), After(lookups + [q], hash).sent;
            var mirror := TakeAll(map[], s.sent);
            if q.path in mirror then
              if hash(mirror[q.path].text) == hash(q.text) then sent == s.sent
              else sent == s.sent + [DidChange(q.path, Bump(mirror[q.path].version), q.text)]
            else if |s.open| < MAX_OPEN_DOCUMENTS then sent == s.sent + [DidOpen(q.path, q.language, 1, q.text)]
            else sent == s.sent + [DidClose(s.open[0].path), DidOpen(q.path, q.language, 1, q.text)]
  {
    var s := After(lookups, hash);
    var mirror := TakeAll(map[], s.sent);
    ServerFollows(lookups, hash);
    AfterOneMore(lookups, q, hash);
    var i := IndexOf(s.open, q.path);
    if i < |s.open| {
      assert CopyTrue(s.open[i], mirror, s.synced, hash);
    } else {
      assert q.path !in Paths(s.open);
    }
  }
}

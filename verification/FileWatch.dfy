/** A directory watch: native callbacks that only enqueue, and the worker that
    coalesces and delivers, with a flag for what could not be enqueued and a
    resync owed for what could not be delivered.

    Each change is followed from its callback to the names that answer it. The
    flag is looked at only when names are sent, so it matters who wakes the
    worker after it was raised. */
module FileWatch {
  import opened Sequences
  import opened WatchedPaths

  type Thread = nat

  const CHANNEL := 16

  /** One native change; `id` tells two changes of one path apart. */
  datatype Change = Change(id: nat, path: Path)

  /** A callback: about to raise the flag for what it will not list, about to
      offer its list, or about to raise the flag because the offer failed. */
  datatype Callback = Raising(lost: set<Change>) | Offering(list: seq<Change>) | Refused(list: seq<Change>)

  /** The worker: waiting; gathering names; or sending them, of which `left`
      remain, having begun at `since` in the sent log. */
  datatype Worker =
    | Waiting
    | Gathering(pending: set<Path>)
    | Sending(all: set<Path>, left: set<Path>, since: nat)

  /** `sent` is every name the client's queue took. History: `happened` maps a
      change to the length of `sent` when it happened, `delivered` to where the
      delivery covering it began; `flagged`, `batch` and `owing` are the changes
      that rest on the flag, on the worker's set and on the owed resync. */
  datatype Watch = Watch(
    callbacks: map<Thread, Callback>,
    channel: seq<seq<Change>>,
    overflow: bool,
    owed: bool,
    worker: Worker,
    sent: seq<Path>,
    happened: map<Change, nat>,
    delivered: map<Change, nat>,
    flagged: set<Change>,
    batch: set<Change>,
    owing: set<Change>)

  const NEW_WATCH: Watch := Watch(map[], [], false, false, Waiting, [], map[], map[], {}, {}, {})

  datatype Surface = Surface(root: Path, directories: seq<Directory>)

  function PathsOf(list: seq<Change>): seq<Path> {
    seq(|list|, i requires 0 <= i < |list| => list[i].path)
  }

  /** A native event lists its paths if it is neither a rescan nor an error, and
      both their number and their lengths are within budget. */
  predicate Listed(list: seq<Change>) {
    |list| <= MAX_PATHS && forall c :: c in list ==> OsLen(c.path) <= MAX_PATH_BYTES
  }

  datatype Step =
    | Strike(w: Thread, list: seq<Change>)
    | StrikeUnlisted(w: Thread, lost: set<Change>)
    | Raise(w: Thread)
    | Offer(w: Thread)
    | RaiseLate(w: Thread)
    | Receive(pending: set<Path>, overflow: bool)
    | Retry
    | ReceiveMore(pending: set<Path>, overflow: bool)
    | Deadline
    | Send(name: Path, ok: bool)
    | Finish

  ghost predicate Enabled(s: Watch, step: Step, on: Surface) {
    match step
    case Strike(w, list) => w !in s.callbacks && Listed(list) && forall c :: c in list ==> c !in s.happened
    case StrikeUnlisted(w, lost) => w !in s.callbacks && forall c :: c in lost ==> c !in s.happened
    case Raise(w) => w in s.callbacks && s.callbacks[w].Raising?
    case Offer(w) => w in s.callbacks && s.callbacks[w].Offering?
    case RaiseLate(w) => w in s.callbacks && s.callbacks[w].Refused?
    case Receive(pending, overflow) =>
      s.worker.Waiting? && s.channel != [] &&
      Gathered(on.root, on.directories, PathsOf(s.channel[0]), {}, s.overflow, pending, overflow)
    case Retry => s.worker.Waiting? && s.owed
    case ReceiveMore(pending, overflow) =>
      s.worker.Gathering? && s.channel != [] &&
      Gathered(on.root, on.directories, PathsOf(s.channel[0]), s.worker.pending, s.overflow, pending, overflow)
    case Deadline => s.worker.Gathering?
    case Send(name, _) => s.worker.Sending? && name in s.worker.left
    case Finish => s.worker.Sending? && s.worker.left == {}
  }

  function Stamp(m: map<Change, nat>, keys: set<Change>, at: nat): map<Change, nat> {
    m + map c | c in keys :: at
  }

  ghost function Gather(s: Watch, pending: set<Path>, overflow: bool): Watch
    requires s.channel != []
  {
    s.(worker := Gathering(pending), overflow := overflow, channel := s.channel[1..], batch := s.batch + Elems(s.channel[0]))
  }

  /** Offered to a channel of 16. */
  function Offered(s: Watch, w: Thread, list: seq<Change>): Watch {
    if |s.channel| < CHANNEL then s.(channel := s.channel + [list], callbacks := s.callbacks - {w})
    else s.(callbacks := s.callbacks[w := Refused(list)])
  }

  /** The worker takes the flag and any owed resync into what it sends next. */
  function Taken(s: Watch): Watch
    requires s.worker.Gathering?
  {
    var all := if s.overflow || s.owed then {[]} else s.worker.pending;
    s.(worker := Sending(all, all, |s.sent|), overflow := false, owed := false,
       batch := s.batch + s.flagged + s.owing, flagged := {}, owing := {})
  }

  ghost function Next(s: Watch, step: Step, on: Surface): (s': Watch)
    requires Enabled(s, step, on)
  {
    match step
    case Strike(w, list) =>
      s.(callbacks := s.callbacks[w := Offering(list)], happened := Stamp(s.happened, Elems(list), |s.sent|))
    case StrikeUnlisted(w, lost) =>
      s.(callbacks := s.callbacks[w := Raising(lost)], happened := Stamp(s.happened, lost, |s.sent|))
    case Raise(w) =>
      s.(overflow := true, flagged := s.flagged + s.callbacks[w].lost, callbacks := s.callbacks[w := Offering([])])
    case Offer(w) => Offered(s, w, s.callbacks[w].list)
    case RaiseLate(w) =>
      s.(overflow := true, flagged := s.flagged + Elems(s.callbacks[w].list), callbacks := s.callbacks - {w})
    case Receive(pending, overflow) => Gather(s, pending, overflow)
    case Retry => s.(worker := Gathering({}))
    case ReceiveMore(pending, overflow) => Gather(s, pending, overflow)
    case Deadline => Taken(s)
    case Send(name, ok) =>
      if ok then s.(worker := s.worker.(left := s.worker.left - {name}), sent := s.sent + [name])
      else s.(worker := Waiting, owed := true, owing := s.batch, batch := {})
    case Finish => s.(worker := Waiting, delivered := Stamp(s.delivered, s.batch, s.worker.since), batch := {})
  }

  ghost predicate IsRun(run: seq<Watch>, steps: seq<Step>, on: Surface) {
    && |run| == |steps| + 1
    && run[0] == NEW_WATCH
    && forall i {:trigger steps[i]} :: 0 <= i < |steps| ==> Enabled(run[i], steps[i], on) && run[i + 1] == Next(run[i], steps[i], on)
  }

  // ---- What stays true ----

  ghost predicate InChannel(s: Watch, c: Change) {
    exists i :: 0 <= i < |s.channel| && c in s.channel[i]
  }

  ghost predicate Holds(h: Callback, c: Change) {
    match h
    case Raising(lost) => c in lost
    case Offering(list) => c in list
    case Refused(list) => c in list
  }

  ghost predicate InCallback(s: Watch, c: Change) {
    exists w :: w in s.callbacks && Holds(s.callbacks[w], c)
  }

  /** The change is somewhere it will be delivered from. */
  ghost predicate Represented(s: Watch, c: Change) {
    || InCallback(s, c) || InChannel(s, c)
    || c in s.flagged || c in s.batch || c in s.owing
  }

  /** A set of names that covers a change: a resync, or every name it has. */
  ghost predicate Covers(names: set<Path>, c: Change, on: Surface) {
    [] in names || forall name :: IsName(on.root, on.directories, c.path, name) ==> name in names
  }

  ghost predicate BatchTrue(s: Watch, on: Surface) {
    match s.worker
    case Waiting => s.batch == {}
    case Gathering(pending) =>
      |pending| <= MAX_PATHS && forall c :: c in s.batch ==> s.overflow || Covers(pending, c, on)
    case Sending(all, left, since) =>
      && |all| <= MAX_PATHS && left <= all && since <= |s.sent| && !s.owed
      && (forall name :: name in all && name !in left ==> name in s.sent[since..])
      && (forall c :: c in s.batch ==> Covers(all, c, on) && c in s.happened && s.happened[c] <= since)
  }

  ghost predicate Answered(s: Watch, c: Change, on: Surface) {
    && c in s.happened && c in s.delivered
    && s.happened[c] <= s.delivered[c] <= |s.sent|
    && Covers(Elems(s.sent[s.delivered[c]..]), c, on)
  }

  ghost predicate Invariant(s: Watch, on: Surface) {
    && (forall c :: c in s.happened ==> c in s.delivered || Represented(s, c))
    && (forall c :: c in s.happened ==> s.happened[c] <= |s.sent|)
    && (forall c :: Represented(s, c) ==> c in s.happened)
    && (forall c :: c in s.delivered ==> Answered(s, c, on))
    && (s.flagged != {} ==> s.overflow)
    && (s.owing != {} ==> s.owed)
    && BatchTrue(s, on)
  }

  /** What carries over when `sent` and the answered changes do not move. */
  lemma AnswersStay(s: Watch, s': Watch, on: Surface)
    requires Invariant(s, on)
    requires s'.sent == s.sent && s'.delivered == s.delivered
    requires forall c :: c in s.happened ==> c in s'.happened && s'.happened[c] == s.happened[c]
    ensures forall c :: c in s'.delivered ==> Answered(s', c, on)
  {
    forall c | c in s'.delivered ensures Answered(s', c, on) { assert Answered(s, c, on); }
  }

  lemma StrikeKeeps(s: Watch, w: Thread, h: Callback, latest: set<Change>, on: Surface)
    requires Invariant(s, on) && w !in s.callbacks && forall c :: c in latest <==> Holds(h, c)
    requires forall c :: c in latest ==> c !in s.happened
    ensures Invariant(s.(callbacks := s.callbacks[w := h], happened := Stamp(s.happened, latest, |s.sent|)), on)
  {
    var s' := s.(callbacks := s.callbacks[w := h], happened := Stamp(s.happened, latest, |s.sent|));
    AnswersStay(s, s', on);
    forall c | c in s'.happened ensures c in s'.delivered || Represented(s', c) {
      if c in latest {
        assert Holds(s'.callbacks[w], c);
      } else if c !in s.delivered {
        assert Represented(s, c);
        if InCallback(s, c) {
          var v :| v in s.callbacks && Holds(s.callbacks[v], c);
          assert Holds(s'.callbacks[v], c);
        }
      }
    }
    forall c | Represented(s', c) ensures c in s'.happened {
      if InCallback(s', c) && c !in latest {
        var v :| v in s'.callbacks && Holds(s'.callbacks[v], c);
        assert Holds(s.callbacks[v], c) && Represented(s, c);
      } else if c !in latest {
        assert Represented(s, c);
      }
    }
  }

  /** A callback's changes move on: to the flag, to the channel, or to a later
      moment of the callback itself. */
  lemma CallbackKeeps(s: Watch, w: Thread, s': Watch, on: Surface)
    requires Invariant(s, on) && w in s.callbacks
    requires s' == s.(callbacks := s'.callbacks, channel := s'.channel, overflow := s'.overflow, flagged := s'.flagged)
    requires forall v :: v in s.callbacks && v != w ==> v in s'.callbacks && s'.callbacks[v] == s.callbacks[v]
    requires forall v :: v in s'.callbacks && v != w ==> v in s.callbacks
    requires s.channel <= s'.channel && s.flagged <= s'.flagged && (s.overflow || s'.flagged != {} ==> s'.overflow)
    requires forall c :: Holds(s.callbacks[w], c) ==> Represented(s', c)
    requires w in s'.callbacks ==> forall c :: Holds(s'.callbacks[w], c) ==> Holds(s.callbacks[w], c)
    requires forall c :: c in s'.flagged && c !in s.flagged ==> Holds(s.callbacks[w], c)
    requires forall c :: InChannel(s', c) && !InChannel(s, c) ==> Holds(s.callbacks[w], c)
    ensures Invariant(s', on)
  {
    AnswersStay(s, s', on);
    forall c | c in s'.happened ensures c in s'.delivered || Represented(s', c) {
      if c !in s.delivered {
        assert Represented(s, c);
        if InCallback(s, c) {
          var v :| v in s.callbacks && Holds(s.callbacks[v], c);
          if v != w { assert Holds(s'.callbacks[v], c); }
        } else if InChannel(s, c) {
          var i :| 0 <= i < |s.channel| && c in s.channel[i];
          assert s'.channel[i] == s.channel[i];
        }
      }
    }
    forall c | Represented(s', c) ensures c in s'.happened {
      if InCallback(s', c) {
        var v :| v in s'.callbacks && Holds(s'.callbacks[v], c);
        assert Holds(s.callbacks[v], c) && Represented(s, c);
      } else {
        assert Holds(s.callbacks[w], c) || Represented(s, c);
        assert Holds(s.callbacks[w], c) ==> InCallback(s, c);
      }
    }
  }

  lemma RaiseKeeps(s: Watch, step: Step, on: Surface)
    requires Invariant(s, on) && Enabled(s, step, on) && (step.Raise? || step.RaiseLate?)
    ensures Invariant(Next(s, step, on), on)
  {
    CallbackKeeps(s, step.w, Next(s, step, on), on);
  }

  lemma OfferKeeps(s: Watch, w: Thread, on: Surface)
    requires Invariant(s, on) && Enabled(s, Offer(w), on)
    ensures Invariant(Next(s, Offer(w), on), on)
  {
    var list, s' := s.callbacks[w].list, Next(s, Offer(w), on);
    if |s.channel| < CHANNEL {
      assert s'.channel[|s.channel|] == list;
      forall c | InChannel(s', c) && !InChannel(s, c) ensures Holds(s.callbacks[w], c) {
        var i :| 0 <= i < |s'.channel| && c in s'.channel[i];
      }
    } else {
      assert forall c :: Holds(s.callbacks[w], c) ==> Holds(s'.callbacks[w], c);
    }
    CallbackKeeps(s, w, s', on);
  }

  /** Names gathered from one list cover every change on it. */
  lemma GatheredCovers(list: seq<Change>, pending: set<Path>, overflow: bool, pending': set<Path>, overflow': bool, c: Change, on: Surface)
    requires Gathered(on.root, on.directories, PathsOf(list), pending, overflow, pending', overflow') && c in list
    ensures overflow' || Covers(pending', c, on)
  {
    var i :| 0 <= i < |list| && list[i] == c;
    assert PathsOf(list)[i] == c.path;
  }

  lemma GatherKeeps(s: Watch, before: set<Path>, pending: set<Path>, overflow: bool, on: Surface)
    requires Invariant(s, on) && s.channel != []
    requires (s.worker.Waiting? && before == {}) || (s.worker.Gathering? && before == s.worker.pending)
    requires Gathered(on.root, on.directories, PathsOf(s.channel[0]), before, s.overflow, pending, overflow)
    ensures Invariant(Gather(s, pending, overflow), on)
  {
    var s' := Gather(s, pending, overflow);
    AnswersStay(s, s', on);
    forall c | c in s'.batch ensures s'.overflow || Covers(pending, c, on) {
      if c in s.channel[0] { GatheredCovers(s.channel[0], before, s.overflow, pending, overflow, c, on); }
    }
    forall c | c in s'.happened ensures c in s'.delivered || Represented(s', c) {
      if c !in s.delivered {
        assert Represented(s, c);
        if InChannel(s, c) {
          var i :| 0 <= i < |s.channel| && c in s.channel[i];
          if i > 0 { assert s'.channel[i - 1] == s.channel[i]; }
        } else if InCallback(s, c) {
          var v :| v in s.callbacks && Holds(s.callbacks[v], c);
          assert Holds(s'.callbacks[v], c);
        }
      }
    }
    forall c | Represented(s', c) ensures c in s'.happened {
      GatherRepresented(s, pending, overflow, c);
    }
  }

  lemma GatherRepresented(s: Watch, pending: set<Path>, overflow: bool, c: Change)
    requires s.channel != [] && Represented(Gather(s, pending, overflow), c)
    ensures Represented(s, c)
  {
    var s' := Gather(s, pending, overflow);
    if InCallback(s', c) {
      var v :| v in s'.callbacks && Holds(s'.callbacks[v], c);
      assert Holds(s.callbacks[v], c);
    } else if InChannel(s', c) {
      var i :| 0 <= i < |s'.channel| && c in s'.channel[i];
      assert s.channel[i + 1] == s'.channel[i];
    } else if c in s.channel[0] {
      assert InChannel(s, c);
    }
  }

  /** Steps that leave callbacks and channel alone: what is represented by the
      worker only changes hands. */
  lemma WorkerKeeps(s: Watch, s': Watch, on: Surface)
    requires Invariant(s, on)
    requires s'.callbacks == s.callbacks && s'.channel == s.channel && s'.happened == s.happened
    requires forall c :: c in s.flagged || c in s.batch || c in s.owing ==>
               c in s'.flagged || c in s'.batch || c in s'.owing || c in s'.delivered
    requires forall c :: c in s'.flagged || c in s'.batch || c in s'.owing ==> c in s.flagged || c in s.batch || c in s.owing
    requires s.delivered.Keys <= s'.delivered.Keys && |s.sent| <= |s'.sent|
    requires forall c :: c in s'.delivered ==> Answered(s', c, on)
    requires (s'.flagged != {} ==> s'.overflow) && (s'.owing != {} ==> s'.owed) && BatchTrue(s', on)
    ensures Invariant(s', on)
  {
    forall c ensures InCallback(s', c) <==> InCallback(s, c) { }
    forall c ensures InChannel(s', c) <==> InChannel(s, c) { }
    assert forall c :: Represented(s', c) ==> Represented(s, c);
    assert forall c :: Represented(s, c) ==> Represented(s', c) || c in s'.delivered;
  }

  lemma DeadlineKeeps(s: Watch, on: Surface)
    requires Invariant(s, on) && s.worker.Gathering?
    ensures Invariant(Taken(s), on)
  {
    var s' := Taken(s);
    AnswersStay(s, s', on);
    assert s'.sent[|s.sent|..] == [];
    forall c | c in s'.batch ensures Covers(s'.worker.all, c, on) && c in s.happened && s.happened[c] <= |s.sent| {
      assert Represented(s, c);
    }
    WorkerKeeps(s, s', on);
  }

  lemma SentGrows(s: Watch, s': Watch, c: Change, on: Surface)
    requires Answered(s, c, on) && s'.happened == s.happened && s'.delivered == s.delivered && s.sent <= s'.sent
    ensures Answered(s', c, on)
  {
    var k := s.delivered[c];
    assert forall name :: name in s.sent[k..] ==> name in s'.sent[k..] by {
      forall name | name in s.sent[k..] ensures name in s'.sent[k..] {
        var i :| k <= i < |s.sent| && s.sent[i] == name;
        assert s'.sent[i] == name;
      }
    }
  }

  lemma SendKeeps(s: Watch, name: Path, ok: bool, on: Surface)
    requires Invariant(s, on) && Enabled(s, Send(name, ok), on)
    ensures Invariant(Next(s, Send(name, ok), on), on)
  {
    var s' := Next(s, Send(name, ok), on);
    forall c | c in s'.delivered ensures Answered(s', c, on) {
      assert Answered(s, c, on);
      SentGrows(s, s', c, on);
    }
    if ok {
      assert s'.sent[s.worker.since..] == s.sent[s.worker.since..] + [name];
    }
    WorkerKeeps(s, s', on);
  }

  lemma FinishKeeps(s: Watch, on: Surface)
    requires Invariant(s, on) && Enabled(s, Finish, on)
    ensures Invariant(Next(s, Finish, on), on)
  {
    var s' := Next(s, Finish, on);
    forall c | c in s'.delivered ensures Answered(s', c, on) {
      if c in s.batch {
        assert Covers(s.worker.all, c, on);
        assert s.worker.all <= Elems(s.sent[s.worker.since..]);
      } else {
        assert Answered(s, c, on);
      }
    }
    WorkerKeeps(s, s', on);
  }

  lemma StepKeeps(s: Watch, step: Step, on: Surface)
    requires Invariant(s, on) && Enabled(s, step, on)
    ensures Invariant(Next(s, step, on), on)
  {
    match step
    case Strike(w, list) => StrikeKeeps(s, w, Offering(list), Elems(list), on);
    case StrikeUnlisted(w, lost) => StrikeKeeps(s, w, Raising(lost), lost, on);
    case Raise(_) => RaiseKeeps(s, step, on);
    case Offer(w) => OfferKeeps(s, w, on);
    case RaiseLate(_) => RaiseKeeps(s, step, on);
    case Receive(pending, overflow) => GatherKeeps(s, {}, pending, overflow, on);
    case Retry =>
      AnswersStay(s, Next(s, step, on), on);
      WorkerKeeps(s, Next(s, step, on), on);
    case ReceiveMore(pending, overflow) => GatherKeeps(s, s.worker.pending, pending, overflow, on);
    case Deadline => DeadlineKeeps(s, on);
    case Send(name, ok) => SendKeeps(s, name, ok, on);
    case Finish => FinishKeeps(s, on);
  }

  lemma {:induction false} RunKeeps(run: seq<Watch>, steps: seq<Step>, on: Surface, n: nat)
    requires IsRun(run, steps, on) && n < |run|
    ensures Invariant(run[n], on)
  {
    if n > 0 {
      RunKeeps(run, steps, on, n - 1);
      StepKeeps(run[n - 1], steps[n - 1], on);
    }
  }

  /** Every native change is answered by names sent after it happened, a resync
      or every name it has under the root, or is still represented: in a
      callback, in the channel, behind the raised flag, in the set the worker
      is gathering or sending, or in an owed resync. That set stays within 32. */
  lemma NoChangeIsLost(run: seq<Watch>, steps: seq<Step>, on: Surface, n: nat, c: Change)
    requires IsRun(run, steps, on) && n < |run| && c in run[n].happened
    ensures var s := run[n];
            || Answered(s, c, on)
            || InCallback(s, c) || InChannel(s, c)
            || (s.overflow && c in s.flagged) || (s.owed && c in s.owing)
            || (s.worker.Gathering? && (s.overflow || Covers(s.worker.pending, c, on)))
            || (s.worker.Sending? && Covers(s.worker.all, c, on))
    ensures run[n].worker.Gathering? ==> |run[n].worker.pending| <= MAX_PATHS
    ensures run[n].worker.Sending? ==> |run[n].worker.all| <= MAX_PATHS
  {
    RunKeeps(run, steps, on, n);
    assert Represented(run[n], c) || c in run[n].delivered;
  }

  // ---- What a client is told ----

  /** The name of a change that happened. */
  ghost predicate Caused(s: Watch, name: Path, on: Surface) {
    exists c :: c in s.happened && IsName(on.root, on.directories, c.path, name)
  }

  ghost predicate Quiet(s: Watch) {
    !s.overflow && !s.owed
  }

  /** Every name gathered or sent was caused, or is a resync where that is allowed. */
  ghost predicate NamesTrue(s: Watch, on: Surface, resync: bool) {
    && (s.worker.Gathering? ==> forall name :: name in s.worker.pending ==> Caused(s, name, on))
    && (s.worker.Sending? ==> forall name :: name in s.worker.left ==> Caused(s, name, on) || (resync && name == []))
    && (forall name :: name in s.sent ==> Caused(s, name, on) || (resync && name == []))
  }

  lemma GatherCaused(s: Watch, before: set<Path>, pending: set<Path>, overflow: bool, on: Surface, name: Path)
    requires Invariant(s, on) && s.channel != [] && name in pending && name !in before
    requires Gathered(on.root, on.directories, PathsOf(s.channel[0]), before, s.overflow, pending, overflow)
    ensures Caused(s, name, on)
  {
    var list := s.channel[0];
    var i :| 0 <= i < |PathsOf(list)| && IsName(on.root, on.directories, PathsOf(list)[i], name);
    assert list[i] in list && InChannel(s, list[i]) && Represented(s, list[i]);
  }

  lemma CauseStays(s: Watch, step: Step, on: Surface)
    requires Enabled(s, step, on)
    ensures forall name :: Caused(s, name, on) ==> Caused(Next(s, step, on), name, on)
  {
    assert forall c :: c in s.happened ==> c in Next(s, step, on).happened;
  }

  lemma StepNames(s: Watch, step: Step, on: Surface, resync: bool)
    requires Invariant(s, on) && NamesTrue(s, on, resync) && Enabled(s, step, on) && (Quiet(s) || resync)
    ensures NamesTrue(Next(s, step, on), on, resync)
  {
    CauseStays(s, step, on);
    if step.Receive? || step.ReceiveMore? {
      var before := if step.Receive? then {} else s.worker.pending;
      forall name | name in step.pending ensures Caused(s, name, on) {
        if name !in before { GatherCaused(s, before, step.pending, step.overflow, on, name); }
      }
    }
  }

  /** Nothing is sent unasked: every name sent, in every run, is a name of a
      change that happened or a resync, and a resync only once some list was
      lost to the flag or some send failed. */
  lemma {:induction false} NothingSentUnasked(run: seq<Watch>, steps: seq<Step>, on: Surface, n: nat, resync: bool)
    requires IsRun(run, steps, on) && n < |run|
    requires resync || forall m :: 0 <= m < n ==> Quiet(run[m])
    ensures NamesTrue(run[n], on, resync)
  {
    if n > 0 {
      NothingSentUnasked(run, steps, on, n - 1, resync);
      RunKeeps(run, steps, on, n - 1);
      StepNames(run[n - 1], steps[n - 1], on, resync);
    }
  }

  // ---- When a raised flag waits with nothing to wake the worker ----

  predicate WillWake(h: Callback) {
    h.Raising? || h.Offering?
  }

  /** Changes rest on the flag alone, past the worker's last look at it, with
      no list in the channel or on its way there and no retry due. */
  ghost predicate Stranded(s: Watch) {
    && s.flagged != {} && s.channel == [] && !s.owed && !s.worker.Gathering?
    && forall w :: w in s.callbacks ==> !WillWake(s.callbacks[w])
  }

  /** A refused callback raises its flag only after the worker has emptied the
      channel that refused it and looked at the flag. */
  ghost predicate LooksTooLate(s: Watch, step: Step) {
    && step.RaiseLate? && step.w in s.callbacks && s.callbacks[step.w].Refused? && s.callbacks[step.w].list != []
    && s.channel == [] && !s.owed && !s.worker.Gathering?
    && forall v :: v in s.callbacks ==> !WillWake(s.callbacks[v])
  }

  lemma StrandsIff(s: Watch, step: Step, on: Surface)
    requires Enabled(s, step, on) && !Stranded(s)
    ensures Stranded(Next(s, step, on)) <==> LooksTooLate(s, step)
  {
    var s' := Next(s, step, on);
    match step
    case Strike(w, _) => assert WillWake(s'.callbacks[w]);
    case StrikeUnlisted(w, _) => assert WillWake(s'.callbacks[w]);
    case Raise(w) => assert WillWake(s'.callbacks[w]);
    case Offer(w) => assert s'.channel != [];
    case RaiseLate(w) =>
      assert forall v :: v in s.callbacks && v != w ==> v in s'.callbacks && s'.callbacks[v] == s.callbacks[v];
      if s.callbacks[w].list != [] { assert s.callbacks[w].list[0] in s'.flagged; }
    case _ =>
  }

  lemma LateFlagStrands(s: Watch, step: Step, on: Surface)
    requires Enabled(s, step, on) && LooksTooLate(s, step)
    ensures Stranded(Next(s, step, on))
  {
    assert s.callbacks[step.w].list[0] in Next(s, step, on).flagged;
  }

  lemma {:induction false} StrandedSince(run: seq<Watch>, steps: seq<Step>, on: Surface, n: nat)
    requires IsRun(run, steps, on) && n < |run| && Stranded(run[n])
    ensures exists m :: 0 <= m < n && LooksTooLate(run[m], steps[m])
  {
    if n > 0 {
      if Stranded(run[n - 1]) {
        StrandedSince(run, steps, on, n - 1);
      } else {
        assert Enabled(run[n - 1], steps[n - 1], on) && run[n] == Next(run[n - 1], steps[n - 1], on);
        StrandsIff(run[n - 1], steps[n - 1], on);
      }
    }
  }

  /** A change is stranded exactly through such a late flag: each one strands,
      and nothing else does. */
  lemma OnlyALateFlagStrands(run: seq<Watch>, steps: seq<Step>, on: Surface, n: nat)
    requires IsRun(run, steps, on) && n < |run|
    ensures Stranded(run[n]) ==> exists m :: 0 <= m < n && LooksTooLate(run[m], steps[m])
    ensures n < |steps| && LooksTooLate(run[n], steps[n]) ==> Stranded(run[n + 1])
  {
    if Stranded(run[n]) { StrandedSince(run, steps, on, n); }
    if n < |steps| && LooksTooLate(run[n], steps[n]) {
      assert run[n + 1] == Next(run[n], steps[n], on);
      LateFlagStrands(run[n], steps[n], on);
    }
  }

  /** No callback of the run was ever refused by a full channel. */
  ghost predicate NeverRefused(run: seq<Watch>, steps: seq<Step>) {
    |run| == |steps| + 1 && forall i :: 0 <= i < |steps| && steps[i].Offer? ==> |run[i].channel| < CHANNEL
  }

  ghost predicate NoneRefused(s: Watch) {
    forall w :: w in s.callbacks ==> !s.callbacks[w].Refused?
  }

  lemma {:induction false} UnrefusedStays(run: seq<Watch>, steps: seq<Step>, on: Surface, n: nat)
    requires IsRun(run, steps, on) && NeverRefused(run, steps) && n < |run|
    ensures NoneRefused(run[n])
  {
    if n > 0 {
      UnrefusedStays(run, steps, on, n - 1);
      assert Enabled(run[n - 1], steps[n - 1], on) && run[n] == Next(run[n - 1], steps[n - 1], on);
      UnrefusedStep(run[n - 1], steps[n - 1], on);
    }
  }

  lemma UnrefusedStep(s: Watch, step: Step, on: Surface)
    requires Enabled(s, step, on) && NoneRefused(s) && (step.Offer? ==> |s.channel| < CHANNEL)
    ensures NoneRefused(Next(s, step, on))
  {
  }

  /** While the channel always has room for a callback's list, no change ever
      waits without a wake. */
  lemma RoomNeverStrands(run: seq<Watch>, steps: seq<Step>, on: Surface, n: nat)
    requires IsRun(run, steps, on) && NeverRefused(run, steps) && n < |run|
    ensures !Stranded(run[n])
  {
    OnlyALateFlagStrands(run, steps, on, n);
    if m :| 0 <= m < n && LooksTooLate(run[m], steps[m]) {
      UnrefusedStays(run, steps, on, m);
      assert false;
    }
  }

  // ---- A run that strands ----

  const NAME: Path := ["a"]
  const PLAIN: Surface := Surface([], [])

  lemma NameOnly(list: seq<Change>, pending: set<Path>)
    requires |list| == 1 && list[0].path == NAME && pending <= {NAME}
    ensures Gathered([], [], PathsOf(list), pending, false, {NAME}, false)
  {
    assert PathsOf(list)[0] == NAME;
    assert [] + NAME == NAME;
    forall i, name | 0 <= i < 1 && IsName([], [], PathsOf(list)[i], name) ensures name in {NAME} {
      assert [] + name == name;
    }
  }

  lemma Extend(run: seq<Watch>, steps: seq<Step>, step: Step) returns (run': seq<Watch>, steps': seq<Step>)
    requires IsRun(run, steps, PLAIN) && Enabled(run[|steps|], step, PLAIN)
    ensures IsRun(run', steps', PLAIN) && |steps'| == |steps| + 1
    ensures run <= run' && steps <= steps' && steps'[|steps|] == step
    ensures run'[|steps'|] == Next(run[|steps|], step, PLAIN)
  {
    run', steps' := run + [Next(run[|steps|], step, PLAIN)], steps + [step];
  }

  /** `k` lists of one change each wait; the worker has not begun. */
  ghost predicate Stuffed(s: Watch, k: nat) {
    && |s.channel| == k && s.worker.Waiting? && !s.overflow && !s.owed && s.flagged == {}
    && (forall i :: 0 <= i < k ==> |s.channel[i]| == 1 && s.channel[i][0].path == NAME)
    && (forall c :: c in s.happened ==> c.id < k)
  }

  lemma {:induction false} Fill(k: nat) returns (run: seq<Watch>, steps: seq<Step>)
    requires k <= CHANNEL
    ensures IsRun(run, steps, PLAIN) && Stuffed(run[|steps|], k) && run[|steps|].callbacks == map[]
  {
    if k == 0 {
      run, steps := [NEW_WATCH], [];
    } else {
      run, steps := Fill(k - 1);
      run, steps := Extend(run, steps, Strike(0, [Change(k - 1, NAME)]));
      run, steps := Extend(run, steps, Offer(0));
    }
  }

  ghost predicate Draining(s: Watch, k: nat) {
    && |s.channel| == k && s.worker == Gathering({NAME}) && !s.overflow && !s.owed && s.flagged == {}
    && (forall i :: 0 <= i < k ==> |s.channel[i]| == 1 && s.channel[i][0].path == NAME)
    && s.callbacks.Keys == {0} && s.callbacks[0].Refused? && s.callbacks[0].list != []
  }

  lemma {:induction false} Drain(k: nat, run: seq<Watch>, steps: seq<Step>) returns (run': seq<Watch>, steps': seq<Step>)
    requires IsRun(run, steps, PLAIN) && Draining(run[|steps|], k)
    ensures IsRun(run', steps', PLAIN) && Draining(run'[|steps'|], 0)
  {
    run', steps' := run, steps;
    if k > 0 {
      NameOnly(run[|steps|].channel[0], {NAME});
      run', steps' := Extend(run, steps, ReceiveMore({NAME}, false));
      run', steps' := Drain(k - 1, run', steps');
    }
  }

  lemma Refuse(run: seq<Watch>, steps: seq<Step>) returns (run': seq<Watch>, steps': seq<Step>)
    requires IsRun(run, steps, PLAIN) && Stuffed(run[|steps|], CHANNEL) && run[|steps|].callbacks == map[]
    ensures IsRun(run', steps', PLAIN) && Draining(run'[|steps'|], CHANNEL - 1)
  {
    run', steps' := Extend(run, steps, Strike(0, [Change(CHANNEL, NAME)]));
    run', steps' := Extend(run', steps', Offer(0));
    NameOnly(run'[|steps'|].channel[0], {});
    run', steps' := Extend(run', steps', Receive({NAME}, false));
  }

  lemma Deliver(run: seq<Watch>, steps: seq<Step>) returns (run': seq<Watch>, steps': seq<Step>)
    requires IsRun(run, steps, PLAIN) && Draining(run[|steps|], 0)
    ensures IsRun(run', steps', PLAIN) && LooksTooLate(run'[|steps'|], RaiseLate(0)) && run'[|steps'|].worker.Waiting?
  {
    run', steps' := Extend(run, steps, Deadline);
    run', steps' := Extend(run', steps', Send(NAME, true));
    run', steps' := Extend(run', steps', Finish);
  }

  /** Sixteen lists fill the channel, the seventeenth is refused; the worker
      drains and delivers the sixteen before the refused callback raises the
      flag, and then sleeps on the seventeenth change. */
  lemma LateFlagHappens() returns (run: seq<Watch>, steps: seq<Step>)
    ensures IsRun(run, steps, PLAIN) && Stranded(run[|steps|]) && run[|steps|].worker.Waiting?
  {
    run, steps := Fill(CHANNEL);
    run, steps := Refuse(run, steps);
    run, steps := Drain(CHANNEL - 1, run, steps);
    run, steps := Deliver(run, steps);
    ghost var n := |steps|;
    run, steps := Extend(run, steps, RaiseLate(0));
    OnlyALateFlagStrands(run, steps, PLAIN, n);
  }
}

/** The language-server pool: what each hold of the `slots` lock does, and every
    interleaving of lookups, starts, sweeps, exits and the final shutdown. */
module LspPool {
  import opened Options

  type Key = nat
  type Server = nat
  type Thread = nat

  datatype Slot = Running(server: Server) | Starting | Crashed(retryAt: Option<nat>)

  type Slots = map<Key, Slot>

  function Capacity(maxServers: nat): nat {
    if maxServers == 0 then 1 else maxServers
  }

  predicate IsRunning(slots: Slots, key: Key) {
    key in slots && slots[key].Running?
  }

  function RunningKeys(slots: Slots): set<Key> {
    set key | key in slots && slots[key].Running?
  }

  function ServersAt(slots: Slots, keys: set<Key>): set<Server> {
    set key | key in keys && key in slots && slots[key].Running? :: slots[key].server
  }

  // ---- What one lookup does under the lock ----

  datatype Verdict = Refuse | Use(server: Server) | Launch

  /** The first hold: use, refuse, or claim the key for a start. `retryAt` is
      what the crash history allows if the server is found exited. */
  function BeginVerdict(slots: Slots, closed: bool, exited: set<Server>, key: Key, now: nat): Verdict {
    if closed then Refuse
    else if key !in slots then Launch
    else match slots[key]
      case Starting => Refuse
      case Running(server) => if server in exited then Refuse else Use(server)
      case Crashed(retryAt) => if retryAt.Some? && retryAt.value <= now then Launch else Refuse
  }

  function BeginSlots(slots: Slots, closed: bool, exited: set<Server>, key: Key, now: nat, retryAt: Option<nat>): Slots {
    if closed then slots
    else if BeginVerdict(slots, closed, exited, key, now).Launch? then slots[key := Starting]
    else if IsRunning(slots, key) && slots[key].server in exited then slots[key := Crashed(retryAt)]
    else slots
  }

  /** The second hold, before eviction: adopt the server, or drop the claim. */
  function Landed(slots: Slots, key: Key, result: Option<Server>): Slots {
    match result
    case Some(server) => slots[key := Running(server)]
    case None => slots - {key}
  }

  function LastUsed(used: map<Server, nat>, server: Server): nat {
    if server in used then used[server] else 0
  }

  /** Least recently used, never `keep`, as many as exceed the budget left
      beside it. Equal times may fall either way. */
  ghost predicate IsEviction(slots: Slots, keep: Key, used: map<Server, nat>, maxServers: nat, victims: set<Key>) {
    var others := RunningKeys(slots) - {keep};
    var budget := Capacity(maxServers) - 1;
    && victims <= others
    && |victims| == (if |others| <= budget then 0 else |others| - budget)
    && forall v, k :: v in victims && k in others - victims ==> LastUsed(used, slots[v].server) <= LastUsed(used, slots[k].server)
  }

  /** Eviction leaves room for `keep`, and takes nothing unless over budget. */
  lemma EvictionFits(slots: Slots, keep: Key, used: map<Server, nat>, maxServers: nat, victims: set<Key>)
    requires IsEviction(slots, keep, used, maxServers, victims)
    ensures |RunningKeys(slots - victims)| <= Capacity(maxServers)
    ensures IsRunning(slots, keep) ==> IsRunning(slots - victims, keep)
    ensures |RunningKeys(slots) - {keep}| < Capacity(maxServers) ==> victims == {}
  {
    var others := RunningKeys(slots) - {keep};
    assert RunningKeys(slots - victims) <= (others - victims) + {keep};
    Smaller(RunningKeys(slots - victims), (others - victims) + {keep});
  }

  lemma {:induction false} Smaller<T>(a: set<T>, b: set<T>)
    requires a <= b
    ensures |a| <= |b|
    decreases |a|
  {
    if a != {} {
      var x :| x in a;
      Smaller(a - {x}, b - {x});
    }
  }

  /** A start that fails with a full pool still evicts: the budget is reckoned
      as if the key were kept. Exactly then a server is stopped for nothing. */
  lemma FailedStartEvictsIff(slots: Slots, key: Key, used: map<Server, nat>, maxServers: nat, victims: set<Key>)
    requires |RunningKeys(slots)| <= Capacity(maxServers) && key in slots && slots[key].Starting?
    requires IsEviction(Landed(slots, key, None), key, used, maxServers, victims)
    ensures victims != {} <==> |RunningKeys(slots)| == Capacity(maxServers)
  {
    assert RunningKeys(Landed(slots, key, None)) - {key} == RunningKeys(slots);
  }

  // ---- The whole pool ----

  /** A lookup between its two holds: before its start, and with its result. */
  datatype Starter = Launching(key: Key) | Holding(key: Key, result: Option<Server>)

  /** Servers are numbered as they start. `stopping` is those handed to
      `shutdown`. */
  datatype Pool = Pool(
    slots: Slots,
    closed: bool,
    starters: map<Thread, Starter>,
    nextServer: Server,
    exited: set<Server>,
    stopping: set<Server>)

  const NEW_POOL: Pool := Pool(map[], false, map[], 0, {}, {})

  datatype Step =
    | Begin(w: Thread, key: Key, now: nat, retryAt: Option<nat>)
    | Start(w: Thread, ok: bool)
    | Finish(w: Thread, used: map<Server, nat>, victims: set<Key>)
    | Sweep(idle: set<Server>)
    | ShutdownAll
    | Exit(server: Server)

  ghost predicate Enabled(s: Pool, step: Step, maxServers: nat) {
    match step
    case Begin(w, _, _, _) => w !in s.starters
    case Start(w, _) => w in s.starters && s.starters[w].Launching?
    case Finish(w, used, victims) =>
      && w in s.starters && s.starters[w].Holding?
      && (!s.closed ==>
            IsEviction(Landed(s.slots, s.starters[w].key, s.starters[w].result), s.starters[w].key, used, maxServers, victims))
    case Sweep(_) => true
    case ShutdownAll => true
    case Exit(server) => server < s.nextServer
  }

  function Swept(slots: Slots, idle: set<Server>): set<Key> {
    set key | key in slots && slots[key].Running? && slots[key].server in idle
  }

  function FinishStart(s: Pool, w: Thread, victims: set<Key>): Pool
    requires w in s.starters && s.starters[w].Holding?
  {
    var key, result := s.starters[w].key, s.starters[w].result;
    var rest := s.(starters := s.starters - {w});
    if s.closed then
      rest.(slots := s.slots - {key}, stopping := if result.Some? then s.stopping + {result.value} else s.stopping)
    else
      var landed := Landed(s.slots, key, result);
      rest.(slots := landed - victims, stopping := s.stopping + ServersAt(landed, victims))
  }

  function Next(s: Pool, step: Step, maxServers: nat): (s': Pool)
    requires Enabled(s, step, maxServers)
  {
    match step
    case Begin(w, key, now, retryAt) =>
      s.(slots := BeginSlots(s.slots, s.closed, s.exited, key, now, retryAt),
         starters := if BeginVerdict(s.slots, s.closed, s.exited, key, now).Launch?
                     then s.starters[w := Launching(key)] else s.starters)
    case Start(w, ok) =>
      var key := s.starters[w].key;
      if ok then s.(nextServer := s.nextServer + 1, starters := s.starters[w := Holding(key, Some(s.nextServer))])
      else s.(starters := s.starters[w := Holding(key, None)])
    case Finish(w, used, victims) => FinishStart(s, w, victims)
    case Sweep(idle) =>
      s.(slots := s.slots - Swept(s.slots, idle), stopping := s.stopping + ServersAt(s.slots, Swept(s.slots, idle)))
    case ShutdownAll =>
      s.(slots := map[], closed := true, stopping := s.stopping + ServersAt(s.slots, RunningKeys(s.slots)))
    case Exit(server) => s.(exited := s.exited + {server})
  }

  ghost predicate IsRun(run: seq<Pool>, steps: seq<Step>, maxServers: nat) {
    && |run| == |steps| + 1
    && run[0] == NEW_POOL
    && forall i {:trigger steps[i]} :: 0 <= i < |steps| ==>
         Enabled(run[i], steps[i], maxServers) && run[i + 1] == Next(run[i], steps[i], maxServers)
  }

  // ---- What stays true ----

  /** A start in flight owns its key's slot until the pool closes, and no two
      starts share a key. */
  ghost predicate ClaimsTrue(s: Pool) {
    && (forall w :: w in s.starters && !s.closed ==> s.starters[w].key in s.slots && s.slots[s.starters[w].key].Starting?)
    && (forall w, v :: w in s.starters && v in s.starters && w != v ==> s.starters[w].key != s.starters[v].key)
    && (forall key :: key in s.slots && s.slots[key].Starting? ==> exists w :: w in s.starters && s.starters[w].key == key)
  }

  ghost predicate HeldBy(s: Pool, w: Thread, server: Server) {
    w in s.starters && s.starters[w].Holding? && s.starters[w].result == Some(server)
  }

  ghost predicate InMap(s: Pool, key: Key, server: Server) {
    key in s.slots && s.slots[key] == Running(server)
  }

  /** Where a started server can be: in the map, held by its starter, exited,
      or handed to shutdown. */
  ghost predicate Accounted(s: Pool, server: Server) {
    || (exists key :: InMap(s, key, server))
    || (exists w :: HeldBy(s, w, server))
    || server in s.exited
    || server in s.stopping
  }

  /** Nobody else has a server the map or a starter has. */
  ghost predicate OwnersTrue(s: Pool) {
    && (forall key, server: nat :: InMap(s, key, server) ==> server < s.nextServer && server !in s.stopping)
    && (forall w, server: nat :: HeldBy(s, w, server) ==> server < s.nextServer && server !in s.stopping)
    && (forall key, other, server: nat :: InMap(s, key, server) && InMap(s, other, server) ==> key == other)
    && (forall w, v, server: nat :: HeldBy(s, w, server) && HeldBy(s, v, server) ==> w == v)
    && (forall key, w, server: nat :: !(InMap(s, key, server) && HeldBy(s, w, server)))
    && (forall server :: server in s.stopping ==> server < s.nextServer)
  }

  ghost predicate Invariant(s: Pool, maxServers: nat) {
    && |RunningKeys(s.slots)| <= Capacity(maxServers)
    && ClaimsTrue(s)
    && OwnersTrue(s)
    && (forall server: nat :: server < s.nextServer ==> Accounted(s, server))
    && (s.closed ==> s.slots == map[])
  }

  lemma BeginKeeps(s: Pool, w: Thread, key: Key, now: nat, retryAt: Option<nat>, maxServers: nat)
    requires Invariant(s, maxServers) && Enabled(s, Begin(w, key, now, retryAt), maxServers)
    ensures Invariant(Next(s, Begin(w, key, now, retryAt), maxServers), maxServers)
  {
    var s' := Next(s, Begin(w, key, now, retryAt), maxServers);
    Smaller(RunningKeys(s'.slots), RunningKeys(s.slots));
    forall server: nat | server < s'.nextServer ensures Accounted(s', server) {
      assert Accounted(s, server);
      if k :| InMap(s, k, server) {
        if server !in s.exited { assert InMap(s', k, server); }
      } else if v :| HeldBy(s, v, server) {
        assert HeldBy(s', v, server);
      }
    }
    forall k | k in s'.slots && s'.slots[k].Starting? ensures exists v :: v in s'.starters && s'.starters[v].key == k {
      if k in s.slots && s.slots[k].Starting? {
        var v :| v in s.starters && s.starters[v].key == k;
        assert v in s'.starters && s'.starters[v].key == k;
      } else {
        assert w in s'.starters && s'.starters[w].key == k;
      }
    }
    assert forall k, server :: InMap(s', k, server) ==> InMap(s, k, server);
    assert forall v, server :: HeldBy(s', v, server) ==> HeldBy(s, v, server);
  }

  lemma StartKeeps(s: Pool, w: Thread, ok: bool, maxServers: nat)
    requires Invariant(s, maxServers) && Enabled(s, Start(w, ok), maxServers)
    ensures Invariant(Next(s, Start(w, ok), maxServers), maxServers)
  {
    var s' := Next(s, Start(w, ok), maxServers);
    forall server: nat | server < s'.nextServer ensures Accounted(s', server) {
      if server < s.nextServer {
        assert Accounted(s, server);
        if k :| InMap(s, k, server) {
          assert InMap(s', k, server);
        } else if v :| HeldBy(s, v, server) {
          assert HeldBy(s', v, server);
        }
      } else {
        assert HeldBy(s', w, server);
      }
    }
    StartOwners(s, w, ok, maxServers);
    StartClaims(s, w, ok, maxServers);
  }

  lemma StartOwners(s: Pool, w: Thread, ok: bool, maxServers: nat)
    requires OwnersTrue(s) && Enabled(s, Start(w, ok), maxServers)
    ensures OwnersTrue(Next(s, Start(w, ok), maxServers))
  {
    var s' := Next(s, Start(w, ok), maxServers);
    assert forall k, server: nat :: InMap(s', k, server) ==> InMap(s, k, server);
    assert forall v, server: nat :: HeldBy(s', v, server) ==> HeldBy(s, v, server) || (v == w && server == s.nextServer);
  }

  lemma StartClaims(s: Pool, w: Thread, ok: bool, maxServers: nat)
    requires ClaimsTrue(s) && Enabled(s, Start(w, ok), maxServers)
    ensures ClaimsTrue(Next(s, Start(w, ok), maxServers))
  {
    var s' := Next(s, Start(w, ok), maxServers);
    forall k | k in s'.slots && s'.slots[k].Starting? ensures exists v :: v in s'.starters && s'.starters[v].key == k {
      var v :| v in s.starters && s.starters[v].key == k;
      assert v in s'.starters && s'.starters[v].key == k;
    }
  }

  /** Taking running servers out of the map and handing them to shutdown. */
  function Taken(s: Pool, keys: set<Key>): Pool {
    s.(slots := s.slots - keys, stopping := s.stopping + ServersAt(s.slots, keys))
  }

  lemma TakenKeeps(s: Pool, keys: set<Key>, maxServers: nat)
    requires ClaimsTrue(s) && OwnersTrue(s) && (s.closed ==> s.slots == map[])
    requires forall server: nat :: server < s.nextServer ==> Accounted(s, server)
    requires keys <= RunningKeys(s.slots) && |RunningKeys(s.slots - keys)| <= Capacity(maxServers)
    ensures Invariant(Taken(s, keys), maxServers)
  {
    var s' := Taken(s, keys);
    forall server: nat | server < s'.nextServer ensures Accounted(s', server) {
      assert Accounted(s, server);
      if k :| InMap(s, k, server) {
        if k in keys { assert server in s'.stopping; } else { assert InMap(s', k, server); }
      } else if v :| HeldBy(s, v, server) {
        assert HeldBy(s', v, server);
      }
    }
    assert forall k, server :: InMap(s', k, server) ==> InMap(s, k, server) && k !in keys;
    assert forall v, server :: HeldBy(s', v, server) ==> HeldBy(s, v, server);
    forall server | server in s'.stopping && server !in s.stopping ensures exists k :: k in keys && InMap(s, k, server) {
      var k :| k in keys && k in s.slots && s.slots[k].Running? && s.slots[k].server == server;
      assert InMap(s, k, server);
    }
  }

  /** The claim given up: the start failed, or its server is in the map. */
  lemma LandedKeeps(s: Pool, w: Thread, maxServers: nat)
    requires Invariant(s, maxServers) && !s.closed && w in s.starters && s.starters[w].Holding?
    ensures var s' := s.(slots := Landed(s.slots, s.starters[w].key, s.starters[w].result), starters := s.starters - {w});
            && ClaimsTrue(s') && OwnersTrue(s')
            && forall server: nat :: server < s'.nextServer ==> Accounted(s', server)
  {
    var key, result := s.starters[w].key, s.starters[w].result;
    var s' := s.(slots := Landed(s.slots, key, result), starters := s.starters - {w});
    forall server: nat | server < s'.nextServer ensures Accounted(s', server) {
      assert Accounted(s, server);
      if k :| InMap(s, k, server) {
        assert InMap(s', k, server);
      } else if v :| HeldBy(s, v, server) {
        if v == w { assert InMap(s', key, server); } else { assert HeldBy(s', v, server); }
      }
    }
    forall k | k in s'.slots && s'.slots[k].Starting? ensures exists v :: v in s'.starters && s'.starters[v].key == k {
      var v :| v in s.starters && s.starters[v].key == k;
      assert v in s'.starters && s'.starters[v].key == k;
    }
    LandedOwners(s, w);
  }

  lemma LandedOwners(s: Pool, w: Thread)
    requires ClaimsTrue(s) && OwnersTrue(s) && !s.closed && w in s.starters && s.starters[w].Holding?
    ensures OwnersTrue(s.(slots := Landed(s.slots, s.starters[w].key, s.starters[w].result), starters := s.starters - {w}))
  {
    var key, result := s.starters[w].key, s.starters[w].result;
    var s' := s.(slots := Landed(s.slots, key, result), starters := s.starters - {w});
    assert forall k, server :: InMap(s', k, server) ==> InMap(s, k, server) || (k == key && HeldBy(s, w, server));
    assert forall v, server :: HeldBy(s', v, server) ==> HeldBy(s, v, server) && v != w;
    assert forall server :: !InMap(s, key, server);
  }

  lemma FinishKeeps(s: Pool, w: Thread, used: map<Server, nat>, victims: set<Key>, maxServers: nat)
    requires Invariant(s, maxServers) && Enabled(s, Finish(w, used, victims), maxServers)
    ensures Invariant(FinishStart(s, w, victims), maxServers)
  {
    var key, result := s.starters[w].key, s.starters[w].result;
    if s.closed {
      LateFinishKeeps(s, w, victims, maxServers);
    } else {
      var landed := s.(slots := Landed(s.slots, key, result), starters := s.starters - {w});
      LandedKeeps(s, w, maxServers);
      EvictionFits(landed.slots, key, used, maxServers, victims);
      TakenKeeps(landed, victims, maxServers);
    }
  }

  lemma LateFinishKeeps(s: Pool, w: Thread, victims: set<Key>, maxServers: nat)
    requires Invariant(s, maxServers) && s.closed && w in s.starters && s.starters[w].Holding?
    ensures Invariant(FinishStart(s, w, victims), maxServers)
  {
    var s' := FinishStart(s, w, victims);
    assert s'.slots == map[];
    forall server: nat | server < s'.nextServer ensures Accounted(s', server) {
      assert Accounted(s, server);
      if v :| HeldBy(s, v, server) {
        if v != w { assert HeldBy(s', v, server); }
      } else {
        assert forall k :: !InMap(s, k, server);
      }
    }
    assert forall v, server :: HeldBy(s', v, server) ==> HeldBy(s, v, server) && v != w;
    assert s.starters[w].result.Some? ==> HeldBy(s, w, s.starters[w].result.value);
  }

  lemma StepKeeps(s: Pool, step: Step, maxServers: nat)
    requires Invariant(s, maxServers) && Enabled(s, step, maxServers)
    ensures Invariant(Next(s, step, maxServers), maxServers)
  {
    match step
    case Begin(w, key, now, retryAt) => BeginKeeps(s, w, key, now, retryAt, maxServers);
    case Start(w, ok) => StartKeeps(s, w, ok, maxServers);
    case Finish(w, used, victims) => FinishKeeps(s, w, used, victims, maxServers);
    case Sweep(idle) =>
      var keys := Swept(s.slots, idle);
      Smaller(RunningKeys(s.slots - keys), RunningKeys(s.slots));
      TakenKeeps(s, keys, maxServers);
    case ShutdownAll => ShutdownKeeps(s, maxServers);
    case Exit(server) => ExitKeeps(s, server, maxServers);
  }

  lemma ShutdownKeeps(s: Pool, maxServers: nat)
    requires Invariant(s, maxServers)
    ensures Invariant(Next(s, ShutdownAll, maxServers), maxServers)
  {
    var keys := RunningKeys(s.slots);
    Smaller(RunningKeys(s.slots - keys), RunningKeys(s.slots));
    TakenKeeps(s, keys, maxServers);
    var taken := Taken(s, keys);
    var s' := taken.(slots := map[], closed := true);
    assert RunningKeys(s'.slots) == {};
    forall server: nat | server < s'.nextServer ensures Accounted(s', server) {
      assert Accounted(taken, server);
      assert forall k :: !InMap(taken, k, server);
      if v :| HeldBy(taken, v, server) { assert HeldBy(s', v, server); }
    }
    assert forall v, server :: HeldBy(s', v, server) ==> HeldBy(taken, v, server);
  }

  lemma ExitKeeps(s: Pool, server: Server, maxServers: nat)
    requires Invariant(s, maxServers) && server < s.nextServer
    ensures Invariant(Next(s, Exit(server), maxServers), maxServers)
  {
    var s' := Next(s, Exit(server), maxServers);
    forall other: nat | other < s'.nextServer ensures Accounted(s', other) {
      assert Accounted(s, other);
      if k :| InMap(s, k, other) {
        assert InMap(s', k, other);
      } else if v :| HeldBy(s, v, other) {
        assert HeldBy(s', v, other);
      }
    }
    assert forall k, other :: InMap(s', k, other) ==> InMap(s, k, other);
    assert forall v, other :: HeldBy(s', v, other) ==> HeldBy(s, v, other);
    assert forall k :: k in s'.slots && s'.slots[k].Starting? ==> k in s.slots && s.slots[k].Starting?;
  }

  lemma {:induction false} RunKeeps(run: seq<Pool>, steps: seq<Step>, maxServers: nat, n: nat)
    requires IsRun(run, steps, maxServers) && n < |run|
    ensures Invariant(run[n], maxServers)
  {
    if n > 0 {
      RunKeeps(run, steps, maxServers, n - 1);
      StepKeeps(run[n - 1], steps[n - 1], maxServers);
    } else {
      assert RunningKeys(NEW_POOL.slots) == {};
    }
  }

  // ---- What the daemon relies on ----

  /** Outside a hold of the lock at most max(1, `max_servers`) servers run, and
      no two starts of one key are in flight. */
  lemma PoolWithinCapacity(run: seq<Pool>, steps: seq<Step>, maxServers: nat, n: nat)
    requires IsRun(run, steps, maxServers) && n < |run|
    ensures |RunningKeys(run[n].slots)| <= Capacity(maxServers)
    ensures forall w, v :: w in run[n].starters && v in run[n].starters && w != v ==>
              run[n].starters[w].key != run[n].starters[v].key
  {
    RunKeeps(run, steps, maxServers, n);
  }

  /** In every run, a lookup of a key whose server runs is answered with exactly
      that server and changes no slot; one of a key nobody holds claims it for a
      start. It is refused only if the pool is closed, a start of that key is in
      flight, its server has exited, or its time to retry has not come. */
  lemma LookupIsAnswered(run: seq<Pool>, steps: seq<Step>, maxServers: nat, n: nat)
    requires IsRun(run, steps, maxServers) && n < |steps| && steps[n].Begin?
    ensures var s, s', key, now := run[n], run[n + 1], steps[n].key, steps[n].now;
            var verdict := BeginVerdict(s.slots, s.closed, s.exited, key, now);
            && (forall server: nat :: !s.closed && InMap(s, key, server) && server !in s.exited ==>
                  verdict == Use(server) && s'.slots == s.slots && s'.starters == s.starters)
            && (!s.closed && key !in s.slots ==> verdict == Launch)
            && (verdict.Use? ==> InMap(s, key, verdict.server) && verdict.server !in s.exited)
            && (verdict.Launch? ==>
                  && !s.closed && s'.starters == s.starters[steps[n].w := Launching(key)]
                  && s'.slots == s.slots[key := Starting])
            && (!verdict.Launch? ==> s'.starters == s.starters)
            && (forall server: nat :: !s.closed && InMap(s, key, server) && server in s.exited ==>
                  s'.slots == s.slots[key := Crashed(steps[n].retryAt)])
            && (s.closed || (key in s.slots && !s.slots[key].Running? && verdict.Refuse?) ==> s'.slots == s.slots)
            && (verdict.Refuse? ==>
                  || s.closed
                  || (exists w :: w in s.starters && s.starters[w].key == key)
                  || (exists server: nat :: InMap(s, key, server) && server in s.exited)
                  || (key in s.slots && s.slots[key].Crashed? &&
                      (s.slots[key].retryAt.None? || now < s.slots[key].retryAt.value)))
  {
    assert Enabled(run[n], steps[n], maxServers) && run[n + 1] == Next(run[n], steps[n], maxServers);
    RunKeeps(run, steps, maxServers, n);
    var s, key := run[n], steps[n].key;
    if key in s.slots && s.slots[key].Running? { assert InMap(s, key, s.slots[key].server); }
  }

  /** A sweep stops exactly the idle servers: none of them is left in the map,
      each is handed to shutdown, and every other slot stays. */
  lemma SweepStopsTheIdle(run: seq<Pool>, steps: seq<Step>, maxServers: nat, n: nat)
    requires IsRun(run, steps, maxServers) && n < |steps| && steps[n].Sweep?
    ensures var s, s', idle := run[n], run[n + 1], steps[n].idle;
            && (forall key, server: nat :: InMap(s, key, server) && server in idle ==>
                  key !in s'.slots && server in s'.stopping)
            && (forall key :: key in s.slots && !(s.slots[key].Running? && s.slots[key].server in idle) ==>
                  key in s'.slots && s'.slots[key] == s.slots[key])
            && (forall server :: server in s'.stopping && server !in s.stopping ==> server in idle)
  {
    assert Enabled(run[n], steps[n], maxServers) && run[n + 1] == Next(run[n], steps[n], maxServers);
    var s, keys := run[n], Swept(run[n].slots, steps[n].idle);
    forall key, server: nat | InMap(s, key, server) && server in steps[n].idle ensures server in ServersAt(s.slots, keys) {
      assert key in keys && s.slots[key].server == server;
    }
  }

  /** Every server ever started is in the map, held by its starter, exited or
      handed to shutdown; the map and the starters share none, and hold none
      that was handed to shutdown. */
  lemma NoServerIsLost(run: seq<Pool>, steps: seq<Step>, maxServers: nat, n: nat, server: Server)
    requires IsRun(run, steps, maxServers) && n < |run| && server < run[n].nextServer
    ensures Accounted(run[n], server)
    ensures forall key :: InMap(run[n], key, server) ==>
              && server !in run[n].stopping
              && (forall w :: !HeldBy(run[n], w, server))
              && (forall other :: InMap(run[n], other, server) ==> other == key)
  {
    RunKeeps(run, steps, maxServers, n);
  }

  /** A finished start lands on its own claim, never on a running server, and
      keeps the server it brought through the eviction that follows. */
  lemma AdoptionOverwritesNothing(run: seq<Pool>, steps: seq<Step>, maxServers: nat, n: nat)
    requires IsRun(run, steps, maxServers) && n < |steps| && steps[n].Finish? && !run[n].closed
    ensures var s, s', w := run[n], run[n + 1], steps[n].w;
            && w in s.starters && s.starters[w].Holding?
            && s.starters[w].key in s.slots && s.slots[s.starters[w].key].Starting?
            && (s.starters[w].result.Some? ==> InMap(s', s.starters[w].key, s.starters[w].result.value))
            && forall key, server: nat :: InMap(s, key, server) ==>
                 InMap(s', key, server) || (key !in s'.slots && server in s'.stopping)
  {
    RunKeeps(run, steps, maxServers, n);
    var s, s', w, victims := run[n], run[n + 1], steps[n].w, steps[n].victims;
    assert Enabled(s, steps[n], maxServers) && s' == FinishStart(s, w, victims);
    var landed := Landed(s.slots, s.starters[w].key, s.starters[w].result);
    forall key, server: nat | InMap(s, key, server) && key in victims ensures server in s'.stopping {
      assert key in landed && landed[key] == Running(server);
    }
  }

  /** From the shutdown on, nothing is ever adopted. */
  lemma {:induction false} ShutdownIsFinal(run: seq<Pool>, steps: seq<Step>, maxServers: nat, n: nat, m: nat)
    requires IsRun(run, steps, maxServers) && n <= m < |run| && run[n].closed
    ensures run[m].closed && run[m].slots == map[]
    decreases m - n
  {
    RunKeeps(run, steps, maxServers, m);
    if n < m {
      ShutdownIsFinal(run, steps, maxServers, n, m - 1);
      assert Enabled(run[m - 1], steps[m - 1], maxServers) && run[m] == Next(run[m - 1], steps[m - 1], maxServers);
    }
  }

  /** Once the lookups in flight are over too, every server ever started has
      exited or was told to shut down. */
  lemma ShutdownReachesEveryServer(run: seq<Pool>, steps: seq<Step>, maxServers: nat, n: nat, server: Server)
    requires IsRun(run, steps, maxServers) && n < |run| && run[n].closed && run[n].starters == map[]
    requires server < run[n].nextServer
    ensures server in run[n].exited || server in run[n].stopping
  {
    RunKeeps(run, steps, maxServers, n);
    assert Accounted(run[n], server);
    assert forall key :: !InMap(run[n], key, server);
    assert forall w :: !HeldBy(run[n], w, server);
  }

  // ---- A failed start that evicts ----

  lemma Extend(run: seq<Pool>, steps: seq<Step>, maxServers: nat, step: Step)
    returns (run': seq<Pool>, steps': seq<Step>)
    requires IsRun(run, steps, maxServers) && Enabled(run[|steps|], step, maxServers)
    ensures IsRun(run', steps', maxServers) && |steps'| == |steps| + 1
    ensures run <= run' && steps <= steps' && steps'[|steps|] == step
    ensures run'[|steps'|] == Next(run[|steps|], step, maxServers)
  {
    run', steps' := run + [Next(run[|steps|], step, maxServers)], steps + [step];
  }

  /** Keys 0 to k - 1 run, and nothing else is going on. */
  ghost predicate Runs(s: Pool, k: nat) {
    && !s.closed && s.starters == map[] && s.exited == {} && |RunningKeys(s.slots)| == k
    && (forall key :: key in s.slots <==> 0 <= key < k)
    && (forall key :: key in s.slots ==> s.slots[key].Running?)
  }

  /** A lookup of a new key claims it and starts, or fails to start, a server. */
  lemma TryOne(run: seq<Pool>, steps: seq<Step>, maxServers: nat, k: nat, ok: bool)
    returns (run': seq<Pool>, steps': seq<Step>)
    requires IsRun(run, steps, maxServers) && Runs(run[|steps|], k)
    ensures IsRun(run', steps', maxServers) && |steps'| == |steps| + 2 && run <= run'
    ensures steps'[|steps| + 1] == Start(0, ok)
    ensures var s := run[|steps|];
            run'[|steps'|] == s.(slots := s.slots[k := Starting], nextServer := s.nextServer + (if ok then 1 else 0),
                                 starters := map[0 := Holding(k, if ok then Some(s.nextServer) else None)])
  {
    run', steps' := Extend(run, steps, maxServers, Begin(0, k, 0, None));
    run', steps' := Extend(run', steps', maxServers, Start(0, ok));
  }

  lemma OneMoreRuns(slots: Slots, k: Key, server: Server)
    requires k !in slots
    ensures RunningKeys(slots[k := Running(server)]) == RunningKeys(slots) + {k}
    ensures k !in RunningKeys(slots)
  {
  }

  /** With room for it, nothing has to go for one more. */
  lemma NothingToEvict(slots: Slots, keep: Key, maxServers: nat)
    requires |RunningKeys(slots) - {keep}| < Capacity(maxServers)
    ensures IsEviction(slots, keep, map[], maxServers, {})
  {
  }

  lemma StartOne(run: seq<Pool>, steps: seq<Step>, maxServers: nat, k: nat)
    returns (run': seq<Pool>, steps': seq<Step>)
    requires IsRun(run, steps, maxServers) && Runs(run[|steps|], k) && k < Capacity(maxServers)
    ensures IsRun(run', steps', maxServers) && Runs(run'[|steps'|], k + 1)
  {
    var s := run[|steps|];
    var landed := s.slots[k := Running(s.nextServer)];
    run', steps' := TryOne(run, steps, maxServers, k, true);
    assert Landed(run'[|steps'|].slots, k, Some(s.nextServer)) == landed;
    OneMoreRuns(s.slots, k, s.nextServer);
    assert RunningKeys(landed) - {k} == RunningKeys(s.slots);
    NothingToEvict(landed, k, maxServers);
    run', steps' := Extend(run', steps', maxServers, Finish(0, map[], {}));
    assert run'[|steps'|].slots == landed;
  }

  lemma {:induction false} FillPool(maxServers: nat, k: nat) returns (run: seq<Pool>, steps: seq<Step>)
    requires k <= Capacity(maxServers)
    ensures IsRun(run, steps, maxServers) && Runs(run[|steps|], k)
  {
    if k == 0 {
      run, steps := [NEW_POOL], [];
      assert RunningKeys(NEW_POOL.slots) == {};
    } else {
      run, steps := FillPool(maxServers, k - 1);
      run, steps := StartOne(run, steps, maxServers, k - 1);
    }
  }

  /** Finishing a failed start in a full pool stops the server of key 0. */
  lemma StopOne(run: seq<Pool>, steps: seq<Step>, maxServers: nat, full: Pool, k: nat)
    returns (run': seq<Pool>, steps': seq<Step>)
    requires IsRun(run, steps, maxServers) && Runs(full, k) && k == Capacity(maxServers)
    requires run[|steps|] == full.(slots := full.slots[k := Starting], starters := map[0 := Holding(k, None)])
    ensures IsRun(run', steps', maxServers) && |steps'| == |steps| + 1 && run <= run' && steps <= steps'
    ensures steps'[|steps|].Finish? && run'[|steps'|].slots == full.slots - {0}
    ensures 0 in full.slots && full.slots[0].server in run'[|steps'|].stopping
  {
    var landed := Landed(run[|steps|].slots, k, None);
    assert landed == full.slots;
    assert RunningKeys(landed) - {k} == RunningKeys(full.slots);
    assert 0 in full.slots && 0 in RunningKeys(full.slots);
    run', steps' := Extend(run, steps, maxServers, Finish(0, map[], {0}));
    assert full.slots[0].server in ServersAt(landed, {0});
  }

  /** For every configuration a run fills the pool, fails to start one more, and
      by that stops a server that was running well: one fewer is left. */
  lemma FailedStartHappens(maxServers: nat) returns (run: seq<Pool>, steps: seq<Step>, stopped: Server)
    ensures IsRun(run, steps, maxServers) && |steps| >= 3 && steps[|steps| - 1].Finish? && steps[|steps| - 2] == Start(0, false)
    ensures InMap(run[|steps| - 3], 0, stopped) && stopped !in run[|steps| - 3].exited
    ensures |RunningKeys(run[|steps| - 3].slots)| == Capacity(maxServers)
    ensures 0 !in run[|steps|].slots && stopped in run[|steps|].stopping
    ensures |RunningKeys(run[|steps|].slots)| == Capacity(maxServers) - 1
  {
    var k := Capacity(maxServers);
    var r0, s0 := FillPool(maxServers, k);
    var full := r0[|s0|];
    var r1, s1 := TryOne(r0, s0, maxServers, k, false);
    run, steps := StopOne(r1, s1, maxServers, full, k);
    stopped := full.slots[0].server;
    assert run[|s0|] == full;
    assert RunningKeys(run[|steps|].slots) == RunningKeys(full.slots) - {0} && 0 in RunningKeys(full.slots);
  }
}

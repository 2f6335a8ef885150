/** The navigation index: one listing per workspace, fenced by an epoch and a
    per-workspace generation so that a walk overtaken by a change is not kept. */
module FileIndex {
  import opened Options

  type WorkspaceId = nat
  type Root = string

  const U64 := 0x1_0000_0000_0000_0000

  function WrappingInc(x: nat): nat {
    if x + 1 == U64 then 0 else x + 1
  }

  datatype Entry<T> = Entry(root: Root, tree: T)
  datatype Slot<T> = Slot(generation: nat, entry: Option<Entry<T>>)
  datatype Generation = Generation(epoch: nat, local: nat)
  datatype Index<T> = Index(epoch: nat, workspaces: map<WorkspaceId, Slot<T>>)

  function Lookup<T>(x: Index<T>, ws: WorkspaceId, root: Root): Option<T> {
    if ws in x.workspaces && x.workspaces[ws].entry.Some? && x.workspaces[ws].entry.value.root == root
    then Some(x.workspaces[ws].entry.value.tree) else None
  }

  function Ensured<T>(x: Index<T>, ws: WorkspaceId): Index<T> {
    if ws in x.workspaces then x else x.(workspaces := x.workspaces[ws := Slot(0, None)])
  }

  function Fence<T>(x: Index<T>, ws: WorkspaceId): Generation {
    Generation(x.epoch, if ws in x.workspaces then x.workspaces[ws].generation else 0)
  }

  predicate Keeps<T(!new)>(x: Index<T>, ws: WorkspaceId, g: Generation) {
    g.epoch == x.epoch && ws in x.workspaces && x.workspaces[ws].generation == g.local
  }

  function Stored<T(!new)>(x: Index<T>, ws: WorkspaceId, root: Root, tree: T, g: Generation): Index<T> {
    if Keeps(x, ws, g) then x.(workspaces := x.workspaces[ws := Slot(g.local, Some(Entry(root, tree)))]) else x
  }

  function Invalidated<T>(x: Index<T>, ws: WorkspaceId): Index<T> {
    if ws in x.workspaces
    then x.(workspaces := x.workspaces[ws := Slot(WrappingInc(x.workspaces[ws].generation), None)]) else x
  }

  function Forgotten<T>(x: Index<T>, ws: WorkspaceId): Index<T> {
    x.(workspaces := x.workspaces - {ws})
  }

  function Cleared<T>(x: Index<T>): Index<T> {
    Index(WrappingInc(x.epoch), map[])
  }

  class Cache<T(!new)> {
    var epoch: nat
    var workspaces: map<WorkspaceId, Slot<T>>

    ghost function Value(): Index<T>
      reads this
    {
      Index(epoch, workspaces)
    }

    constructor ()
      ensures Value() == Index(0, map[])
    {
      epoch, workspaces := 0, map[];
    }

    method Get(ws: WorkspaceId, root: Root) returns (tree: Option<T>)
      ensures tree == Lookup(Value(), ws, root)
    {
      if ws !in workspaces { return None; }
      match workspaces[ws].entry {
        case None => tree := None;
        case Some(entry) => tree := if entry.root == root then Some(entry.tree) else None;
      }
    }

    method Begin(ws: WorkspaceId) returns (g: Generation)
      modifies this
      ensures g == Fence(old(Value()), ws) && Value() == Ensured(old(Value()), ws)
    {
      if ws !in workspaces {
        workspaces := workspaces[ws := Slot(0, None)];
      }
      g := Generation(epoch, workspaces[ws].generation);
    }

    method Put(ws: WorkspaceId, root: Root, tree: T, g: Generation)
      modifies this
      ensures Value() == Stored(old(Value()), ws, root, tree, g)
    {
      if g.epoch != epoch { return; }
      if ws !in workspaces { return; }
      var slot := workspaces[ws];
      if g.local != slot.generation { return; }
      workspaces := workspaces[ws := slot.(entry := Some(Entry(root, tree)))];
    }

    method Invalidate(ws: WorkspaceId)
      modifies this
      ensures Value() == Invalidated(old(Value()), ws)
    {
      if ws in workspaces {
        var slot := workspaces[ws];
        workspaces := workspaces[ws := Slot(WrappingInc(slot.generation), None)];
      }
    }

    method Forget(ws: WorkspaceId)
      modifies this
      ensures Value() == Forgotten(old(Value()), ws)
    {
      workspaces := workspaces - {ws};
    }

    method Clear()
      modifies this
      ensures Value() == Cleared(old(Value()))
    {
      epoch := WrappingInc(epoch);
      workspaces := map[];
    }
  }

  // ---- Overlapping walks ----

  type WalkId = nat

  /** How often a workspace's listing was dropped, by what. */
  datatype Drops = Drops(invalidates: nat, forgets: nat, clears: nat)

  /** A walk, with the drops its workspace had seen when it began. */
  datatype Walk = Walk(ws: WorkspaceId, root: Root, fence: Generation, seen: Drops)

  /** A listing is known by the walk that made it. */
  datatype World = World(index: Index<WalkId>, walks: map<WalkId, Walk>,
                         invalidates: map<WorkspaceId, nat>, forgets: map<WorkspaceId, nat>, clears: nat)

  const NEW_WORLD: World := World(Index(0, map[]), map[], map[], map[], 0)

  function Count(m: map<WorkspaceId, nat>, ws: WorkspaceId): nat {
    if ws in m then m[ws] else 0
  }

  function DropsOf(s: World, ws: WorkspaceId): Drops {
    Drops(Count(s.invalidates, ws), Count(s.forgets, ws), s.clears)
  }

  datatype Step =
    | Begin(w: WalkId, ws: WorkspaceId, root: Root)
    | Put(w: WalkId)
    | Invalidate(ws: WorkspaceId)
    | Forget(ws: WorkspaceId)
    | Clear

  /** Walks are numbered apart, and no counter has come round: fewer than 2^64
      invalidates of any workspace and fewer than 2^64 clears. */
  predicate Enabled(s: World, step: Step) {
    match step
    case Begin(w, _, _) => w !in s.walks
    case Put(w) => w in s.walks
    case Invalidate(ws) => Count(s.invalidates, ws) + 1 < U64
    case Forget(ws) => true
    case Clear => s.clears + 1 < U64
  }

  function Next(s: World, step: Step): (s': World)
    requires Enabled(s, step)
  {
    match step
    case Begin(w, ws, root) =>
      s.(index := Ensured(s.index, ws), walks := s.walks[w := Walk(ws, root, Fence(s.index, ws), DropsOf(s, ws))])
    case Put(w) => s.(index := Stored(s.index, s.walks[w].ws, s.walks[w].root, w, s.walks[w].fence))
    case Invalidate(ws) =>
      s.(index := Invalidated(s.index, ws), invalidates := s.invalidates[ws := Count(s.invalidates, ws) + 1])
    case Forget(ws) => s.(index := Forgotten(s.index, ws), forgets := s.forgets[ws := Count(s.forgets, ws) + 1])
    case Clear => s.(index := Cleared(s.index), clears := s.clears + 1)
  }

  ghost predicate IsRun(run: seq<World>, steps: seq<Step>) {
    && |run| == |steps| + 1
    && run[0] == NEW_WORLD
    && forall i {:trigger steps[i]} :: 0 <= i < |steps| ==> Enabled(run[i], steps[i]) && run[i + 1] == Next(run[i], steps[i])
  }

  /** Nothing was dropped since the walk began. */
  predicate Current(s: World, w: Walk) {
    w.seen == DropsOf(s, w.ws)
  }

  /** The workspace was forgotten while the walk ran. */
  predicate ForgottenSince(s: World, w: Walk) {
    w.seen.forgets < Count(s.forgets, w.ws)
  }

  ghost predicate WalkTrue(s: World, w: Walk) {
    && w.seen.invalidates <= Count(s.invalidates, w.ws) && w.seen.forgets <= Count(s.forgets, w.ws)
    && w.seen.clears <= s.clears
    && w.fence.epoch == w.seen.clears
    && (w.seen.clears == s.clears && w.seen.forgets == Count(s.forgets, w.ws) ==>
          && w.ws in s.index.workspaces
          && s.index.workspaces[w.ws].generation - w.fence.local == Count(s.invalidates, w.ws) - w.seen.invalidates)
  }

  ghost predicate SlotTrue(s: World, ws: WorkspaceId)
    requires ws in s.index.workspaces
  {
    s.index.workspaces[ws].generation <= Count(s.invalidates, ws)
  }

  ghost predicate Invariant(s: World) {
    && s.index.epoch == s.clears < U64
    && (forall ws :: ws in s.index.workspaces ==> SlotTrue(s, ws))
    && (forall ws :: Count(s.invalidates, ws) < U64)
    && (forall w :: w in s.walks ==> WalkTrue(s, s.walks[w]))
  }

  lemma StepKeeps(s: World, step: Step)
    requires Invariant(s) && Enabled(s, step)
    ensures Invariant(Next(s, step))
  {
    var s' := Next(s, step);
    forall ws ensures Count(s'.invalidates, ws) < U64 {
      assert Count(s.invalidates, ws) < U64;
    }
    forall w | w in s'.walks ensures WalkTrue(s', s'.walks[w]) {
      if w in s.walks { assert WalkTrue(s, s.walks[w]); }
    }
  }

  lemma {:induction false} RunKeeps(run: seq<World>, steps: seq<Step>, n: nat)
    requires IsRun(run, steps) && n < |run|
    ensures Invariant(run[n])
  {
    if n > 0 {
      RunKeeps(run, steps, n - 1);
      StepKeeps(run[n - 1], steps[n - 1]);
    }
  }

  /** An overtaken walk is kept exactly when its workspace was forgotten and
      begun again while it ran, with no clear in between and as many
      invalidates after the new beginning as the fence already counted. Every
      other walk kept is current. */
  lemma OvertakenIsKeptIff(run: seq<World>, steps: seq<Step>, n: nat, w: WalkId)
    requires IsRun(run, steps) && n < |run| && w in run[n].walks
    ensures var s, walk := run[n], run[n].walks[w];
            && (Keeps(s.index, walk.ws, walk.fence) ==> (Current(s, walk) <==> !ForgottenSince(s, walk)))
            && (Keeps(s.index, walk.ws, walk.fence) && !Current(s, walk) <==>
                  && ForgottenSince(s, walk) && walk.seen.clears == s.clears
                  && walk.ws in s.index.workspaces && s.index.workspaces[walk.ws].generation == walk.fence.local)
  {
    RunKeeps(run, steps, n);
    assert WalkTrue(run[n], run[n].walks[w]);
  }

  // ---- What a reader is handed ----

  /** No workspace is begun again once forgotten. */
  ghost predicate NeverRevived(run: seq<World>, steps: seq<Step>) {
    && |run| == |steps| + 1
    && forall i :: 0 <= i < |steps| && steps[i].Begin? ==> Count(run[i].forgets, steps[i].ws) == 0
  }

  /** A listing in its slot came from a current walk of that workspace. */
  ghost predicate ListingTrue(s: World, ws: WorkspaceId) {
    ws in s.index.workspaces && s.index.workspaces[ws].entry.Some? ==>
      && var entry := s.index.workspaces[ws].entry.value;
         && entry.tree in s.walks
         && s.walks[entry.tree].ws == ws && s.walks[entry.tree].root == entry.root
         && Current(s, s.walks[entry.tree])
  }

  ghost predicate Unrevived(s: World) {
    && (forall ws :: ListingTrue(s, ws))
    && (forall ws :: Count(s.forgets, ws) > 0 ==> ws !in s.index.workspaces)
  }

  lemma UnrevivedStep(s: World, step: Step)
    requires Invariant(s) && Unrevived(s) && Enabled(s, step)
    requires step.Begin? ==> Count(s.forgets, step.ws) == 0
    ensures Unrevived(Next(s, step))
  {
    var s' := Next(s, step);
    forall ws ensures ListingTrue(s', ws) {
      assert ListingTrue(s, ws);
      if step.Put? {
        assert WalkTrue(s, s.walks[step.w]);
      }
    }
  }

  lemma {:induction false} UnrevivedRun(run: seq<World>, steps: seq<Step>, n: nat)
    requires IsRun(run, steps) && NeverRevived(run, steps) && n < |run|
    ensures Unrevived(run[n])
  {
    if n > 0 {
      UnrevivedRun(run, steps, n - 1);
      RunKeeps(run, steps, n - 1);
      UnrevivedStep(run[n - 1], steps[n - 1]);
    }
  }

  /** Provided no forgotten workspace is begun again, whatever walks overlap: a
      listing handed out was made by a walk of that workspace and that root,
      begun after its last invalidate, forget or clear. */
  lemma ListingIsCurrent(run: seq<World>, steps: seq<Step>, n: nat, ws: WorkspaceId, root: Root)
    requires IsRun(run, steps) && NeverRevived(run, steps) && n < |run|
    requires Lookup(run[n].index, ws, root).Some?
    ensures var s := run[n]; var w := Lookup(s.index, ws, root).value;
            w in s.walks && s.walks[w].ws == ws && s.walks[w].root == root && Current(s, s.walks[w])
  {
    UnrevivedRun(run, steps, n);
    assert ListingTrue(run[n], ws);
  }

  predicate IsDrop(step: Step, ws: WorkspaceId) {
    step == Invalidate(ws) || step == Forget(ws) || step == Clear
  }

  /** A walk that nothing overtook is kept and handed out, until the next drop
      or the next walk of its workspace. */
  lemma CurrentWalkIsServed(run: seq<World>, steps: seq<Step>, n: nat, w: WalkId)
    requires IsRun(run, steps) && n < |steps| && steps[n] == Put(w) && Current(run[n], run[n].walks[w])
    ensures Lookup(run[n + 1].index, run[n].walks[w].ws, run[n].walks[w].root) == Some(w)
  {
    assert Enabled(run[n], steps[n]) && run[n + 1] == Next(run[n], steps[n]);
    RunKeeps(run, steps, n);
    assert WalkTrue(run[n], run[n].walks[w]);
  }

  lemma ServedUntilDropped(run: seq<World>, steps: seq<Step>, n: nat, ws: WorkspaceId, root: Root)
    requires IsRun(run, steps) && n < |steps|
    requires steps[n].Put? ==> run[n].walks[steps[n].w].ws != ws
    ensures Lookup(run[n + 1].index, ws, root) == if IsDrop(steps[n], ws) then None else Lookup(run[n].index, ws, root)
  {
    assert Enabled(run[n], steps[n]) && run[n + 1] == Next(run[n], steps[n]);
  }

  function Exec(s: World, steps: seq<Step>): (s': Option<World>)
    decreases |steps|
  {
    if steps == [] then Some(s)
    else if !Enabled(s, steps[0]) then None
    else Exec(Next(s, steps[0]), steps[1..])
  }

  /** With a workspace forgotten and begun again, a walk from before an
      invalidate is handed out after it. */
  lemma RevivedServesStale(ws: WorkspaceId, root: Root)
    ensures var run := [Begin(1, ws, root), Invalidate(ws), Forget(ws), Begin(2, ws, root), Put(1)];
            && Exec(NEW_WORLD, run).Some?
            && var s := Exec(NEW_WORLD, run).value;
               && Lookup(s.index, ws, root) == Some(1)
               && 1 in s.walks && s.walks[1].seen.invalidates < Count(s.invalidates, ws)
  {
    var s0 := NEW_WORLD;
    var s1 := Next(s0, Begin(1, ws, root));
    var s2 := Next(s1, Invalidate(ws));
    var s3 := Next(s2, Forget(ws));
    var s4 := Next(s3, Begin(2, ws, root));
    var s5 := Next(s4, Put(1));
    var run := [Begin(1, ws, root), Invalidate(ws), Forget(ws), Begin(2, ws, root), Put(1)];
    assert run[1..] == [Invalidate(ws), Forget(ws), Begin(2, ws, root), Put(1)];
    assert run[1..][1..] == [Forget(ws), Begin(2, ws, root), Put(1)];
    assert run[1..][1..][1..] == [Begin(2, ws, root), Put(1)];
    assert run[1..][1..][1..][1..] == [Put(1)];
    assert run[1..][1..][1..][1..][1..] == [];
    assert Exec(s4, [Put(1)]) == Exec(s5, []) == Some(s5);
    assert Exec(s2, [Forget(ws), Begin(2, ws, root), Put(1)]) == Exec(s3, [Begin(2, ws, root), Put(1)]) == Some(s5);
    assert Exec(s0, run) == Exec(s1, run[1..]) == Some(s5);
  }
}

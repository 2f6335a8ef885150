/** Reconciling a project's worktree rows with what git lists and what is on
    disk: the plan of one pass, its application, and why one pass is enough. */
module Worktrees {
  import opened Options

  type Path = seq<string>
  type WorkspaceId = nat

  datatype Scope = Exact | Subtree | OtherScope

  datatype Rule = Rule(scope: Scope, path: Path, onDisk: bool)

  datatype Listed = Listed(path: Path, branch: Option<string>, stale: bool)

  datatype Known = Known(id: WorkspaceId, path: Path, onDisk: bool, hasSessions: bool)

  datatype Plan = Plan(adopt: seq<Listed>, drop: seq<WorkspaceId>, kept: seq<WorkspaceId>, staleRules: seq<Path>)

  predicate Covers(rule: Rule, path: Path) {
    match rule.scope
    case Exact => rule.path == path
    case Subtree => rule.path <= path
    case OtherScope => false
  }

  predicate Ignores(rules: seq<Rule>, path: Path) {
    exists i :: 0 <= i < |rules| && Covers(rules[i], path)
  }

  predicate ListedLive(listed: seq<Listed>, path: Path) {
    exists i :: 0 <= i < |listed| && listed[i].path == path && !listed[i].stale
  }

  predicate ListedAtAll(listed: seq<Listed>, path: Path) {
    exists i :: 0 <= i < |listed| && listed[i].path == path
  }

  predicate HasRow(known: seq<Known>, path: Path) {
    exists i :: 0 <= i < |known| && known[i].path == path
  }

  predicate Adopts(l: Listed, known: seq<Known>, rules: seq<Rule>) {
    !l.stale && !Ignores(rules, l.path) && !HasRow(known, l.path)
  }

  predicate Forgets(row: Known, listed: seq<Listed>, rules: seq<Rule>) {
    Ignores(rules, row.path) || (!ListedLive(listed, row.path) && !row.onDisk)
  }

  predicate Spent(rule: Rule, listed: seq<Listed>) {
    rule.scope.Exact? && !ListedAtAll(listed, rule.path) && !rule.onDisk
  }

  function Adopted(some: seq<Listed>, known: seq<Known>, rules: seq<Rule>): seq<Listed> {
    if some == [] then []
    else (if Adopts(some[0], known, rules) then [some[0]] else []) + Adopted(some[1..], known, rules)
  }

  /** The ids of rows to forget, with sessions or without. */
  function Forgotten(rows: seq<Known>, listed: seq<Listed>, rules: seq<Rule>, hasSessions: bool): seq<WorkspaceId>
    decreases |rows|
  {
    if rows == [] then []
    else
      var row := rows[|rows| - 1];
      Forgotten(rows[..|rows| - 1], listed, rules, hasSessions) +
      if Forgets(row, listed, rules) && row.hasSessions == hasSessions then [row.id] else []
  }

  function SpentPaths(some: seq<Rule>, listed: seq<Listed>): seq<Path> {
    if some == [] then [] else (if Spent(some[0], listed) then [some[0].path] else []) + SpentPaths(some[1..], listed)
  }

  function PlanOf(listed: seq<Listed>, known: seq<Known>, rules: seq<Rule>): Plan {
    Plan(Adopted(listed, known, rules),
         Forgotten(known, listed, rules, false),
         Forgotten(known, listed, rules, true),
         SpentPaths(rules, listed))
  }

  /** `plan`. */
  method MakePlan(listed: seq<Listed>, known: seq<Known>, rules: seq<Rule>) returns (plan: Plan)
    ensures plan == PlanOf(listed, known, rules)
  {
    var drop, kept := [], [];
    for i := 0 to |known|
      invariant drop == Forgotten(known[..i], listed, rules, false)
      invariant kept == Forgotten(known[..i], listed, rules, true)
    {
      assert known[..i + 1][..i] == known[..i];
      var row := known[i];
      if !Forgets(row, listed, rules) {
        continue;
      }
      if row.hasSessions {
        kept := kept + [row.id];
      } else {
        drop := drop + [row.id];
      }
    }
    assert known[..|known|] == known;
    plan := Plan(Adopted(listed, known, rules), drop, kept, SpentPaths(rules, listed));
  }

  // ---- Applying a plan ----

  /** New rows, each with an id not seen before. */
  function NewRows(adopt: seq<Listed>, nextId: WorkspaceId, disk: set<Path>): seq<Known> {
    if adopt == [] then []
    else [Known(nextId, adopt[0].path, adopt[0].path in disk, false)] + NewRows(adopt[1..], nextId + 1, disk)
  }

  function Remaining(known: seq<Known>, drop: seq<WorkspaceId>): seq<Known>
    decreases |known|
  {
    if known == [] then []
    else Remaining(known[..|known| - 1], drop) + if known[|known| - 1].id in drop then [] else [known[|known| - 1]]
  }

  function ApplyRows(known: seq<Known>, plan: Plan, nextId: WorkspaceId, disk: set<Path>): seq<Known> {
    Remaining(known, plan.drop) + NewRows(plan.adopt, nextId, disk)
  }

  /** Collecting a path removes every stored rule at it. */
  function Uncollected(stored: seq<Rule>, gone: seq<Path>): seq<Rule> {
    if stored == [] then []
    else (if stored[0].path in gone then [] else [stored[0]]) + Uncollected(stored[1..], gone)
  }

  // ---- One pass is enough ----

  /** One stored rule per path, which the table's primary key keeps; rules from
      the configuration are subtrees and are never stored. */
  ghost predicate RulesTrue(stored: seq<Rule>, config: seq<Rule>) {
    && (forall i, j :: 0 <= i < j < |stored| ==> stored[i].path != stored[j].path)
    && (forall i :: 0 <= i < |config| ==> config[i].scope.Subtree?)
  }

  /** Rows and rules were looked up on the same disk, and ids are distinct. */
  ghost predicate FactsTrue(known: seq<Known>, stored: seq<Rule>, nextId: WorkspaceId, disk: set<Path>) {
    && (forall i :: 0 <= i < |known| ==> known[i].id < nextId && (known[i].onDisk <==> known[i].path in disk))
    && (forall i, j :: 0 <= i < j < |known| ==> known[i].id != known[j].id)
    && (forall i :: 0 <= i < |stored| ==> (stored[i].onDisk <==> stored[i].path in disk))
  }

  lemma {:induction false} AdoptedIn(some: seq<Listed>, known: seq<Known>, rules: seq<Rule>)
    ensures forall l :: l in Adopted(some, known, rules) <==> l in some && Adopts(l, known, rules)
    decreases |some|
  {
    if some != [] { AdoptedIn(some[1..], known, rules); }
  }

  lemma {:induction false} SpentIn(some: seq<Rule>, listed: seq<Listed>)
    ensures forall p :: p in SpentPaths(some, listed) <==> exists r :: r in some && Spent(r, listed) && r.path == p
    decreases |some|
  {
    if some != [] {
      SpentIn(some[1..], listed);
      assert some == [some[0]] + some[1..];
      forall p ensures p in SpentPaths(some, listed) <==> exists r :: r in some && Spent(r, listed) && r.path == p {
        if Spent(some[0], listed) && some[0].path == p { assert some[0] in some; }
        if r :| r in some[1..] && Spent(r, listed) && r.path == p { assert r in some; }
      }
    }
  }

  lemma {:induction false} UncollectedIn(stored: seq<Rule>, gone: seq<Path>)
    ensures forall r :: r in Uncollected(stored, gone) <==> r in stored && r.path !in gone
    decreases |stored|
  {
    if stored != [] { UncollectedIn(stored[1..], gone); }
  }

  lemma {:induction false} ForgottenIn(rows: seq<Known>, listed: seq<Listed>, rules: seq<Rule>, hasSessions: bool)
    ensures forall id :: id in Forgotten(rows, listed, rules, hasSessions) <==>
              exists k :: k in rows && Forgets(k, listed, rules) && k.hasSessions == hasSessions && k.id == id
    decreases |rows|
  {
    if rows != [] {
      var init, last := rows[..|rows| - 1], rows[|rows| - 1];
      ForgottenIn(init, listed, rules, hasSessions);
      assert rows == init + [last];
      forall id ensures id in Forgotten(rows, listed, rules, hasSessions) <==>
          exists k :: k in rows && Forgets(k, listed, rules) && k.hasSessions == hasSessions && k.id == id
      {
        if k :| k in init && Forgets(k, listed, rules) && k.hasSessions == hasSessions && k.id == id { assert k in rows; }
        if Forgets(last, listed, rules) && last.hasSessions == hasSessions && last.id == id { assert last in rows; }
      }
    }
  }

  lemma {:induction false} RemainingIn(known: seq<Known>, drop: seq<WorkspaceId>)
    ensures forall k :: k in Remaining(known, drop) <==> k in known && k.id !in drop
    decreases |known|
  {
    if known != [] {
      RemainingIn(known[..|known| - 1], drop);
      assert known == known[..|known| - 1] + [known[|known| - 1]];
    }
  }

  lemma {:induction false} NewRowsAre(adopt: seq<Listed>, nextId: WorkspaceId, disk: set<Path>)
    ensures var rows := NewRows(adopt, nextId, disk);
            && |rows| == |adopt|
            && forall i :: 0 <= i < |adopt| ==> rows[i].path == adopt[i].path && !rows[i].hasSessions && rows[i].id >= nextId
    decreases |adopt|
  {
    if adopt != [] { NewRowsAre(adopt[1..], nextId + 1, disk); }
  }

  /** What a path is to a second pass: still ignored, or ignored before only by
      a spent tombstone of its own. */
  lemma IgnoredAfter(listed: seq<Listed>, stored: seq<Rule>, config: seq<Rule>, path: Path)
    requires RulesTrue(stored, config)
    ensures var rules := stored + config;
            var rules' := Uncollected(stored, SpentPaths(rules, listed)) + config;
            && (Ignores(rules', path) ==> Ignores(rules, path))
            && (Ignores(rules, path) && !Ignores(rules', path) ==>
                  exists r :: r in stored && Spent(r, listed) && r.path == path)
  {
    var rules := stored + config;
    var gone := SpentPaths(rules, listed);
    var kept := Uncollected(stored, gone);
    SpentIn(rules, listed);
    UncollectedIn(stored, gone);
    assert forall r :: r in rules <==> r in stored || r in config;
    assert forall r :: r in kept + config <==> r in kept || r in config;
    IgnoresIn(rules, path);
    IgnoresIn(kept + config, path);
    if Ignores(rules, path) && !Ignores(kept + config, path) {
      var r :| r in rules && Covers(r, path);
      assert r in stored && r.path in gone;
      var q :| q in rules && Spent(q, listed) && q.path == r.path;
      assert q in stored;
      SameRule(stored, config, q, r);
    }
  }

  lemma IgnoresIn(rules: seq<Rule>, path: Path)
    ensures Ignores(rules, path) <==> exists r :: r in rules && Covers(r, path)
  {
    if r :| r in rules && Covers(r, path) {
      var i :| 0 <= i < |rules| && rules[i] == r;
    }
  }

  lemma SameRule(stored: seq<Rule>, config: seq<Rule>, a: Rule, b: Rule)
    requires RulesTrue(stored, config) && a in stored && b in stored && a.path == b.path
    ensures a == b
  {
    var i :| 0 <= i < |stored| && stored[i] == a;
    var j :| 0 <= j < |stored| && stored[j] == b;
  }

  /** A row is forgotten by the second pass exactly if it was by the first. */
  lemma ForgetsAgain(listed: seq<Listed>, stored: seq<Rule>, config: seq<Rule>, row: Known, disk: set<Path>)
    requires RulesTrue(stored, config) && (row.onDisk <==> row.path in disk)
    requires forall i :: 0 <= i < |stored| ==> (stored[i].onDisk <==> stored[i].path in disk)
    ensures var rules := stored + config;
            Forgets(row, listed, Uncollected(stored, SpentPaths(rules, listed)) + config) <==> Forgets(row, listed, rules)
  {
    IgnoredAfter(listed, stored, config, row.path);
    var rules := stored + config;
    if Ignores(rules, row.path) && !Ignores(Uncollected(stored, SpentPaths(rules, listed)) + config, row.path) {
      var r :| r in stored && Spent(r, listed) && r.path == row.path;
      assert !ListedLive(listed, row.path);
    }
  }

  lemma HasMember<T>(s: seq<T>)
    ensures s == [] || exists x :: x in s
  {
    if s != [] { assert s[0] in s; }
  }

  /** Nothing to adopt is left. */
  lemma NothingToAdopt(listed: seq<Listed>, known: seq<Known>, stored: seq<Rule>, config: seq<Rule>, nextId: WorkspaceId, disk: set<Path>)
    requires RulesTrue(stored, config) && FactsTrue(known, stored, nextId, disk)
    ensures var rules := stored + config;
            var plan := PlanOf(listed, known, rules);
            Adopted(listed, ApplyRows(known, plan, nextId, disk), Uncollected(stored, plan.staleRules) + config) == []
  {
    var rules := stored + config;
    var plan := PlanOf(listed, known, rules);
    var known', rules' := ApplyRows(known, plan, nextId, disk), Uncollected(stored, plan.staleRules) + config;
    forall l | l in listed ensures !Adopts(l, known', rules') {
      IgnoredAfter(listed, stored, config, l.path);
      if !l.stale && !Ignores(rules', l.path) {
        assert ListedAtAll(listed, l.path);
        if HasRow(known, l.path) {
          RowStays(listed, known, rules, l, nextId, disk);
        } else {
          RowAppears(listed, known, rules, l, nextId, disk);
        }
      }
    }
    AdoptedIn(listed, known', rules');
    HasMember(Adopted(listed, known', rules'));
  }

  lemma RowStays(listed: seq<Listed>, known: seq<Known>, rules: seq<Rule>, l: Listed, nextId: WorkspaceId, disk: set<Path>)
    requires l in listed && !l.stale && !Ignores(rules, l.path) && HasRow(known, l.path)
    requires forall i, j :: 0 <= i < j < |known| ==> known[i].id != known[j].id
    ensures HasRow(ApplyRows(known, PlanOf(listed, known, rules), nextId, disk), l.path)
  {
    var plan := PlanOf(listed, known, rules);
    var i :| 0 <= i < |known| && known[i].path == l.path;
    var row := known[i];
    assert ListedLive(listed, l.path) by {
      var j :| 0 <= j < |listed| && listed[j] == l;
    }
    ForgottenIn(known, listed, rules, false);
    RemainingIn(known, plan.drop);
    assert row in Remaining(known, plan.drop);
    var rest := Remaining(known, plan.drop);
    var j :| 0 <= j < |rest| && rest[j] == row;
    assert ApplyRows(known, plan, nextId, disk)[j] == row;
  }

  lemma RowAppears(listed: seq<Listed>, known: seq<Known>, rules: seq<Rule>, l: Listed, nextId: WorkspaceId, disk: set<Path>)
    requires l in listed && Adopts(l, known, rules)
    ensures HasRow(ApplyRows(known, PlanOf(listed, known, rules), nextId, disk), l.path)
  {
    var plan := PlanOf(listed, known, rules);
    AdoptedIn(listed, known, rules);
    var i :| 0 <= i < |plan.adopt| && plan.adopt[i] == l;
    NewRowsAre(plan.adopt, nextId, disk);
    var rest := Remaining(known, plan.drop);
    assert ApplyRows(known, plan, nextId, disk)[|rest| + i] == NewRows(plan.adopt, nextId, disk)[i];
  }

  lemma {:induction false} ForgottenAppend(a: seq<Known>, b: seq<Known>, listed: seq<Listed>, rules: seq<Rule>, hasSessions: bool)
    ensures Forgotten(a + b, listed, rules, hasSessions) ==
            Forgotten(a, listed, rules, hasSessions) + Forgotten(b, listed, rules, hasSessions)
    decreases |b|
  {
    if b == [] {
      assert a + b == a;
    } else {
      assert (a + b)[..|a + b| - 1] == a + b[..|b| - 1];
      ForgottenAppend(a, b[..|b| - 1], listed, rules, hasSessions);
    }
  }

  lemma {:induction false} NoneForgotten(rows: seq<Known>, listed: seq<Listed>, rules: seq<Rule>, hasSessions: bool)
    requires forall k :: k in rows ==> !Forgets(k, listed, rules)
    ensures Forgotten(rows, listed, rules, hasSessions) == []
    decreases |rows|
  {
    if rows != [] {
      NoneForgotten(rows[..|rows| - 1], listed, rules, hasSessions);
      assert rows[|rows| - 1] in rows;
    }
  }

  /** Of the rows left, exactly the session-held ones are forgotten again. */
  lemma {:induction false} SameKept(rows: seq<Known>, drop: seq<WorkspaceId>, listed: seq<Listed>, rules: seq<Rule>, rules': seq<Rule>)
    requires forall k :: k in rows ==> (Forgets(k, listed, rules') <==> Forgets(k, listed, rules))
    requires forall k :: k in rows ==> (k.id in drop <==> Forgets(k, listed, rules) && !k.hasSessions)
    ensures Forgotten(Remaining(rows, drop), listed, rules', true) == Forgotten(rows, listed, rules, true)
    ensures Forgotten(Remaining(rows, drop), listed, rules', false) == []
    decreases |rows|
  {
    if rows != [] {
      var init, last := rows[..|rows| - 1], rows[|rows| - 1];
      assert last in rows;
      SameKept(init, drop, listed, rules, rules');
      if last.id in drop {
        assert Remaining(rows, drop) == Remaining(init, drop);
      } else {
        assert Remaining(rows, drop)[..|Remaining(rows, drop)| - 1] == Remaining(init, drop);
      }
    }
  }

  /** Only the rows a plan means to forget carry a forgotten id. */
  lemma ForgottenIsExact(known: seq<Known>, listed: seq<Listed>, rules: seq<Rule>, hasSessions: bool, k: Known)
    requires forall i, j :: 0 <= i < j < |known| ==> known[i].id != known[j].id
    requires k in known
    ensures k.id in Forgotten(known, listed, rules, hasSessions) <==> Forgets(k, listed, rules) && k.hasSessions == hasSessions
  {
    ForgottenIn(known, listed, rules, hasSessions);
    if k.id in Forgotten(known, listed, rules, hasSessions) {
      var q :| q in known && Forgets(q, listed, rules) && q.hasSessions == hasSessions && q.id == k.id;
      var i :| 0 <= i < |known| && known[i] == q;
      var j :| 0 <= j < |known| && known[j] == k;
    }
  }

  lemma NewRowsAreSafe(listed: seq<Listed>, known: seq<Known>, stored: seq<Rule>, config: seq<Rule>, nextId: WorkspaceId, disk: set<Path>)
    requires RulesTrue(stored, config)
    ensures var rules := stored + config;
            var plan := PlanOf(listed, known, rules);
            forall k :: k in NewRows(plan.adopt, nextId, disk) ==>
              !Forgets(k, listed, Uncollected(stored, plan.staleRules) + config)
  {
    var rules := stored + config;
    var plan := PlanOf(listed, known, rules);
    var rows := NewRows(plan.adopt, nextId, disk);
    NewRowsAre(plan.adopt, nextId, disk);
    AdoptedIn(listed, known, rules);
    forall k | k in rows ensures !Forgets(k, listed, Uncollected(stored, plan.staleRules) + config) {
      var i :| 0 <= i < |rows| && rows[i] == k;
      var l := plan.adopt[i];
      assert l in plan.adopt;
      assert ListedLive(listed, l.path) by { var j :| 0 <= j < |listed| && listed[j] == l; }
      IgnoredAfter(listed, stored, config, l.path);
    }
  }

  lemma NothingToForget(listed: seq<Listed>, known: seq<Known>, stored: seq<Rule>, config: seq<Rule>, nextId: WorkspaceId, disk: set<Path>)
    requires RulesTrue(stored, config) && FactsTrue(known, stored, nextId, disk)
    ensures var rules := stored + config;
            var plan := PlanOf(listed, known, rules);
            var known', rules' := ApplyRows(known, plan, nextId, disk), Uncollected(stored, plan.staleRules) + config;
            && Forgotten(known', listed, rules', false) == []
            && Forgotten(known', listed, rules', true) == plan.kept
  {
    var rules := stored + config;
    var plan := PlanOf(listed, known, rules);
    var rules' := Uncollected(stored, plan.staleRules) + config;
    forall k | k in known
      ensures Forgets(k, listed, rules') <==> Forgets(k, listed, rules)
      ensures k.id in plan.drop <==> Forgets(k, listed, rules) && !k.hasSessions
    {
      ForgetsAgain(listed, stored, config, k, disk);
      ForgottenIsExact(known, listed, rules, false, k);
    }
    SameKept(known, plan.drop, listed, rules, rules');
    var rest, rows := Remaining(known, plan.drop), NewRows(plan.adopt, nextId, disk);
    NewRowsAreSafe(listed, known, stored, config, nextId, disk);
    NoneForgotten(rows, listed, rules', false);
    NoneForgotten(rows, listed, rules', true);
    ForgottenAppend(rest, rows, listed, rules', false);
    ForgottenAppend(rest, rows, listed, rules', true);
  }

  lemma NothingToCollect(listed: seq<Listed>, stored: seq<Rule>, config: seq<Rule>)
    requires RulesTrue(stored, config)
    ensures SpentPaths(Uncollected(stored, SpentPaths(stored + config, listed)) + config, listed) == []
  {
    var rules := stored + config;
    var gone := SpentPaths(rules, listed);
    var kept := Uncollected(stored, gone);
    SpentIn(rules, listed);
    UncollectedIn(stored, gone);
    SpentIn(kept + config, listed);
    forall r | r in kept + config ensures !Spent(r, listed) {
      if r in kept { assert r in stored && r in rules; }
    }
    HasMember(SpentPaths(kept + config, listed));
  }

  /** Applying the plan and planning again on the same listing and disk adopts,
      drops and collects nothing, and keeps the same session-held rows. */
  lemma OnePassConverges(listed: seq<Listed>, known: seq<Known>, stored: seq<Rule>, config: seq<Rule>, nextId: WorkspaceId, disk: set<Path>)
    requires RulesTrue(stored, config) && FactsTrue(known, stored, nextId, disk)
    ensures var plan := PlanOf(listed, known, stored + config);
            PlanOf(listed, ApplyRows(known, plan, nextId, disk), Uncollected(stored, plan.staleRules) + config) ==
            Plan([], [], plan.kept, [])
  {
    NothingToAdopt(listed, known, stored, config, nextId, disk);
    NothingToForget(listed, known, stored, config, nextId, disk);
    NothingToCollect(listed, stored, config);
  }

  // ---- What one pass leaves ----

  /** A rule hides the path: its own tombstone, or a subtree it lies in. */
  ghost predicate Hidden(rules: seq<Rule>, path: Path) {
    exists r :: r in rules && ((r.scope == Exact && r.path == path) || (r.scope == Subtree && r.path <= path))
  }

  lemma HiddenIsIgnored(rules: seq<Rule>, path: Path)
    ensures Hidden(rules, path) <==> Ignores(rules, path)
  {
    IgnoresIn(rules, path);
    if Hidden(rules, path) {
      var r :| r in rules && ((r.scope == Exact && r.path == path) || (r.scope == Subtree && r.path <= path));
      assert Covers(r, path);
    }
  }

  ghost predicate Live(listed: seq<Listed>, path: Path) {
    exists l :: l in listed && l.path == path && !l.stale
  }

  lemma LiveIsListed(listed: seq<Listed>, path: Path)
    ensures Live(listed, path) <==> ListedLive(listed, path)
  {
    if Live(listed, path) {
      var l :| l in listed && l.path == path && !l.stale;
      var i :| 0 <= i < |listed| && listed[i] == l;
    }
  }

  /** What becomes of each row: it goes only if hidden, or if both git and the
      disk say its worktree is gone, and then only if no session holds it; a
      row to go that a session holds is reported. */
  lemma RowFate(listed: seq<Listed>, known: seq<Known>, rules: seq<Rule>, nextId: WorkspaceId, disk: set<Path>, row: Known)
    requires forall i, j :: 0 <= i < j < |known| ==> known[i].id != known[j].id
    requires row in known && row.id < nextId
    ensures var plan := PlanOf(listed, known, rules);
            var goes := Hidden(rules, row.path) || (!Live(listed, row.path) && !row.onDisk);
            && (row in ApplyRows(known, plan, nextId, disk) <==> row.hasSessions || !goes)
            && (row.id in plan.kept <==> row.hasSessions && goes)
  {
    var plan := PlanOf(listed, known, rules);
    HiddenIsIgnored(rules, row.path);
    LiveIsListed(listed, row.path);
    ForgottenIsExact(known, listed, rules, false, row);
    ForgottenIsExact(known, listed, rules, true, row);
    RemainingIn(known, plan.drop);
    NewRowsAre(plan.adopt, nextId, disk);
  }

  /** A row is new after a pass only if git lists a live worktree there, no
      rule hides it and it had no row. */
  lemma NewRowsFrom(listed: seq<Listed>, known: seq<Known>, rules: seq<Rule>, nextId: WorkspaceId, disk: set<Path>, row: Known)
    requires row in ApplyRows(known, PlanOf(listed, known, rules), nextId, disk) && row !in known
    ensures Live(listed, row.path) && !Hidden(rules, row.path) && !HasRow(known, row.path)
    ensures row.id >= nextId && !row.hasSessions
  {
    var plan := PlanOf(listed, known, rules);
    var rest, rows := Remaining(known, plan.drop), NewRows(plan.adopt, nextId, disk);
    RemainingIn(known, plan.drop);
    NewRowsAre(plan.adopt, nextId, disk);
    AdoptedIn(listed, known, rules);
    assert row in rows;
    var i :| 0 <= i < |rows| && rows[i] == row;
    assert plan.adopt[i] in plan.adopt;
    HiddenIsIgnored(rules, row.path);
  }

  /** A stored rule is collected exactly if it is a tombstone of a path that is
      neither listed, live or stale, nor on disk. */
  lemma CollectedIff(listed: seq<Listed>, stored: seq<Rule>, config: seq<Rule>, rule: Rule)
    requires RulesTrue(stored, config) && rule in stored
    ensures rule !in Uncollected(stored, SpentPaths(stored + config, listed)) <==>
            rule.scope == Exact && !rule.onDisk && forall l :: l in listed ==> l.path != rule.path
  {
    var gone := SpentPaths(stored + config, listed);
    SpentIn(stored + config, listed);
    UncollectedIn(stored, gone);
    assert rule in stored + config;
    if rule.path in gone {
      var q :| q in stored + config && Spent(q, listed) && q.path == rule.path;
      assert q in stored;
      SameRule(stored, config, q, rule);
    }
    if !ListedAtAll(listed, rule.path) {
      forall l | l in listed ensures l.path != rule.path { var i :| 0 <= i < |listed| && listed[i] == l; }
    }
  }

  /** What holds of the rows after a pass, by the rules it leaves: every live
      worktree that is not hidden has a row, and every row no session holds is
      not hidden and is live or on disk. */
  ghost predicate Reconciled(listed: seq<Listed>, rows: seq<Known>, rules: seq<Rule>, disk: set<Path>) {
    && (forall l :: l in listed && !l.stale && !Hidden(rules, l.path) ==> HasRow(rows, l.path))
    && (forall k :: k in rows && !k.hasSessions ==> !Hidden(rules, k.path) && (Live(listed, k.path) || k.path in disk))
  }

  lemma PassReconciles(listed: seq<Listed>, known: seq<Known>, stored: seq<Rule>, config: seq<Rule>, nextId: WorkspaceId, disk: set<Path>)
    requires RulesTrue(stored, config) && FactsTrue(known, stored, nextId, disk)
    ensures var plan := PlanOf(listed, known, stored + config);
            Reconciled(listed, ApplyRows(known, plan, nextId, disk), Uncollected(stored, plan.staleRules) + config, disk)
  {
    var rules := stored + config;
    var plan := PlanOf(listed, known, rules);
    var rows, rules' := ApplyRows(known, plan, nextId, disk), Uncollected(stored, plan.staleRules) + config;
    NothingToAdopt(listed, known, stored, config, nextId, disk);
    AdoptedIn(listed, rows, rules');
    forall l | l in listed && !l.stale && !Hidden(rules', l.path) ensures HasRow(rows, l.path) {
      HiddenIsIgnored(rules', l.path);
      assert l !in Adopted(listed, rows, rules');
    }
    forall k | k in rows && !k.hasSessions
      ensures !Hidden(rules', k.path) && (Live(listed, k.path) || k.path in disk)
    {
      HiddenIsIgnored(rules, k.path);
      HiddenIsIgnored(rules', k.path);
      IgnoredAfter(listed, stored, config, k.path);
      if k in known {
        RowFate(listed, known, rules, nextId, disk, k);
      } else {
        NewRowsFrom(listed, known, rules, nextId, disk, k);
      }
    }
  }

  /** Two stored rules at one path would not converge: collecting the tombstone
      takes the subtree rule along, and what it hid is adopted by the next pass. */
  lemma TwoRulesAtAPathDiverge(path: Path, below: string)
    ensures var stored := [Rule(Exact, path, false), Rule(Subtree, path, false)];
            var listed := [Listed(path + [below], None, false)];
            var plan := PlanOf(listed, [], stored);
            && plan.adopt == []
            && PlanOf(listed, ApplyRows([], plan, 0, {}), Uncollected(stored, plan.staleRules)).adopt == listed
  {
    var tomb, policy := Rule(Exact, path, false), Rule(Subtree, path, false);
    var stored := [tomb, policy];
    var l := Listed(path + [below], None, false);
    var listed := [l];
    var plan := PlanOf(listed, [], stored);
    assert Covers(stored[1], l.path) && Ignores(stored, l.path);
    assert listed[1..] == [];
    assert |l.path| != |path|;
    assert Spent(tomb, listed);
    assert stored[1..] == [policy] && stored[1..][1..] == [];
    assert SpentPaths([policy], listed) == [];
    assert plan.staleRules == [path];
    assert Uncollected([policy], [path]) == [];
    assert Uncollected(stored, [path]) == [];
    assert !Adopts(listed[0], [], stored) && Adopted([], [], stored) == [];
    assert plan.adopt == [] && plan.drop == [];
    assert Remaining([], []) == [] && NewRows([], 0, {}) == [];
    assert ApplyRows([], plan, 0, {}) == [];
    assert Adopts(l, [], []);
    assert Adopted([], [], []) == [];
  }
}

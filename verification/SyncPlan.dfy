/**
 The synchronisation plan (scripts/lib/template_sync.py:725-815) and its application
 (scripts/lib/template_state.py:1232-1380): diff a target tree against a staged tree inside
 selected scopes, create directories, write files, remove, and link, in that order.

 A tree is a map from paths to lstat nodes; the root directory is implicit.  I/O errors,
 concurrent edits and temporary files are not modelled.
 */
module SyncPlan {
  import opened Common

  type Path = seq<string>

  datatype Node = File(data: string, mode: nat) | Dir(mode: nat) | Link(target: string)

  type Tree = map<Path, Node>

  datatype Scope = Scope(stem: Path, directory: bool)

  /** The mode `mkdir(parents=True)` gives to missing ancestors. */
  const DEFAULT := 0x1ED

  /** Permission bits that the readback compares. */
  const MODE_LIMIT := 512

  predicate IsTree(t: Tree) {
    forall p | p in t :: p != [] && (|p| > 1 ==> p[..|p| - 1] in t && t[p[..|p| - 1]].Dir?)
  }

  lemma {:induction false} Ancestor(t: Tree, p: Path, q: Path)
    requires IsTree(t) && p in t && q < p && q != []
    ensures q in t && t[q].Dir?
    decreases |p|
  {
    var up := p[..|p| - 1];
    assert up in t;
    if q != up {
      assert q < up;
      Ancestor(t, up, q);
    }
  }

  predicate Under(p: Path, s: Scope) { p == s.stem || (s.directory && s.stem <= p) }

  predicate InScope(p: Path, scopes: seq<Scope>) { exists k | 0 <= k < |scopes| :: Under(p, scopes[k]) }

  /** The only links that are read, written or removed: generated skill links. */
  predicate SkillLink(p: Path, target: string) {
    |p| == 3 && (p[0] == ".claude" || p[0] == ".qwen") && p[1] == "skills" && target == "../../.agents/skills/" + p[2]
  }

  /** `_tree` accepts every scope: stems have the announced type and links are supported. */
  predicate Readable(t: Tree, scopes: seq<Scope>) {
    && (forall k | 0 <= k < |scopes| :: scopes[k].stem in t ==> (t[scopes[k].stem].Dir? <==> scopes[k].directory))
    && (forall p | p in t && InScope(p, scopes) :: t[p].Link? ==> SkillLink(p, t[p].target))
  }

  predicate SameKind(a: Node, b: Node) {
    (a.File? && b.File?) || (a.Dir? && b.Dir?) || (a.Link? && b.Link?)
  }

  predicate Reachable(t: Tree, p: Path) {
    forall q | q in t && q < p :: t[q].Dir?
  }

  /** `_scope_shape`: no selected path below a link or a file. */
  predicate Shaped(t: Tree, scopes: seq<Scope>) {
    forall k | 0 <= k < |scopes| :: Reachable(t, scopes[k].stem)
  }

  datatype Plan = Plan(files: map<Path, Node>, links: map<Path, Node>, removals: set<Path>, modes: map<Path, Node>)

  predicate Differs(target: Tree, stage: Tree, p: Path)
    requires p in stage
  {
    p !in target || target[p] != stage[p]
  }

  predicate Comparable(target: Tree, stage: Tree, scopes: seq<Scope>) {
    && Readable(target, scopes) && Readable(stage, scopes)
    && forall p | p in target && p in stage && InScope(p, scopes) :: SameKind(target[p], stage[p])
  }

  function PlanOf(target: Tree, stage: Tree, scopes: seq<Scope>): Plan {
    Plan(
      map p | p in stage && InScope(p, scopes) && stage[p].File? && Differs(target, stage, p) :: stage[p],
      map p | p in stage && InScope(p, scopes) && stage[p].Link? && Differs(target, stage, p) :: stage[p],
      set p | p in target && InScope(p, scopes) && p !in stage,
      map p | p in stage && InScope(p, scopes) && stage[p].Dir? && Differs(target, stage, p) :: stage[p])
  }

  const NO_PLAN := Plan(map[], map[], {}, map[])

  lemma {:induction false} PlanAt(target: Tree, stage: Tree, scopes: seq<Scope>, p: Path)
    requires InScope(p, scopes)
    ensures var plan := PlanOf(target, stage, scopes);
            && (p in plan.files <==> p in stage && stage[p].File? && Differs(target, stage, p))
            && (p in plan.links <==> p in stage && stage[p].Link? && Differs(target, stage, p))
            && (p in plan.modes <==> p in stage && stage[p].Dir? && Differs(target, stage, p))
            && (p in plan.removals <==> p in target && p !in stage)
            && (p in plan.files ==> plan.files[p] == stage[p]) && (p in plan.links ==> plan.links[p] == stage[p])
            && (p in plan.modes ==> plan.modes[p] == stage[p])
  {}

  function Restricted(plan: Plan, s: set<Path>): Plan {
    Plan(map p | p in plan.files && p in s :: plan.files[p], map p | p in plan.links && p in s :: plan.links[p],
         plan.removals * s, map p | p in plan.modes && p in s :: plan.modes[p])
  }

  lemma {:induction false} NothingYet(plan: Plan)
    ensures Restricted(plan, {}) == NO_PLAN
  {}

  lemma {:induction false} OneMore(plan: Plan, s: set<Path>, p: Path, before: Plan, after: Plan)
    requires p !in s && before == Restricted(plan, s)
    requires after.files == if p in plan.files then before.files[p := plan.files[p]] else before.files
    requires after.links == if p in plan.links then before.links[p := plan.links[p]] else before.links
    requires after.modes == if p in plan.modes then before.modes[p := plan.modes[p]] else before.modes
    requires after.removals == if p in plan.removals then before.removals + {p} else before.removals
    ensures after == Restricted(plan, s + {p})
  {}

  lemma {:induction false} WholePlan(target: Tree, stage: Tree, scopes: seq<Scope>, all: set<Path>)
    requires all == set p | p in target.Keys + stage.Keys && InScope(p, scopes)
    ensures Restricted(PlanOf(target, stage, scopes), all) == PlanOf(target, stage, scopes)
  {}

  /** `_build_plan`: a loop over the union of both selected trees. */
  method BuildPlan(target: Tree, stage: Tree, scopes: seq<Scope>) returns (r: Option<Plan>)
    ensures r == if Comparable(target, stage, scopes) then Some(PlanOf(target, stage, scopes)) else None
  {
    if !Readable(target, scopes) || !Readable(stage, scopes) { return None; }
    hide PlanOf, Restricted, Readable;
    var all := set p | p in target.Keys + stage.Keys && InScope(p, scopes);
    var pending := all;
    var plan := NO_PLAN;
    ghost var whole := PlanOf(target, stage, scopes);
    NothingYet(whole);
    assert all - pending == {};
    while pending != {}
      invariant pending <= all
      invariant plan == Restricted(whole, all - pending)
      invariant forall p | p in all - pending && p in target && p in stage :: SameKind(target[p], stage[p])
      decreases pending
    {
      var p :| p in pending;
      ghost var before, seen := plan, all - pending;
      PlanAt(target, stage, scopes, p);
      pending := pending - {p};
      assert all - pending == seen + {p};
      if p !in stage {
        plan := plan.(removals := plan.removals + {p});
      } else if p in target && !SameKind(target[p], stage[p]) {
        return None;
      } else if stage[p].Dir? {
        if Differs(target, stage, p) { plan := plan.(modes := plan.modes[p := stage[p]]); }
      } else if stage[p].File? {
        if Differs(target, stage, p) { plan := plan.(files := plan.files[p := stage[p]]); }
      } else {
        if Differs(target, stage, p) { plan := plan.(links := plan.links[p := stage[p]]); }
      }
      OneMore(whole, seen, p, before, plan);
    }
    assert all - pending == all;
    WholePlan(target, stage, scopes, all);
    return Some(plan);
  }

  // ----- File system operations, each with its way to fail

  function Prefixes(p: Path): set<Path> { set k | 0 < k < |p| :: p[..k] }

  function WithParents(t: Tree, p: Path): Tree {
    t + map q | q in Prefixes(p) && q !in t :: Dir(DEFAULT)
  }

  /** `mkdir(parents=True)` followed by `chmod`, or `chmod` alone. */
  function MakeDirectory(t: Tree, p: Path, mode: nat): Option<Tree> {
    if p in t then if t[p].Dir? then Some(t[p := Dir(mode)]) else None
    else if Reachable(t, p) then Some(WithParents(t, p)[p := Dir(mode)]) else None
  }

  /** `atomic_write`: the new file replaces whatever is there, a directory excepted. */
  function WriteFile(t: Tree, p: Path, n: Node): Option<Tree> {
    if Reachable(t, p) && (p in t ==> !t[p].Dir?) then Some(WithParents(t, p)[p := n]) else None
  }

  function MakeLink(t: Tree, p: Path, n: Node): Option<Tree> {
    if Reachable(t, p) && (p in t ==> !t[p].Dir?) then Some(WithParents(t, p)[p := n]) else None
  }

  function Unlink(t: Tree, p: Path): Option<Tree> {
    if p in t && !t[p].Dir? then Some(t - {p}) else None
  }

  /** `rmdir` refuses a directory that is not empty. */
  function Rmdir(t: Tree, p: Path): Option<Tree> {
    if p in t && t[p].Dir? && forall q | q in t :: !(p < q) then Some(t - {p}) else None
  }

  /** `admit_plan`: every destination is reachable and of a replaceable type, every removal
      exists, and nothing is written at or below a removal. */
  predicate Admitted(t: Tree, plan: Plan) {
    && (forall p | p in plan.files :: Reachable(t, p) && (p in t ==> t[p].File?))
    && (forall p | p in plan.links ::
        Reachable(t, p) && (p in t ==> t[p].Link?) && plan.links[p].Link? && SkillLink(p, plan.links[p].target))
    && (forall p | p in plan.removals :: p in t && Reachable(t, p) && (t[p].Link? ==> SkillLink(p, t[p].target)))
    && (forall p, q | p in plan.files.Keys + plan.links.Keys && q in plan.removals :: !(q <= p))
  }

  /** `verify_plan`: contents, link targets, absence and the low mode bits are read back. */
  predicate Verified(t: Tree, plan: Plan) {
    && (forall p | p in plan.files :: p in t && t[p].File? && plan.files[p].File? && t[p].data == plan.files[p].data
                                      && t[p].mode % MODE_LIMIT == plan.files[p].mode)
    && (forall p | p in plan.links :: p in t && t[p] == plan.links[p])
    && (forall p | p in plan.removals :: p !in t)
  }

  // ----- What holds between the operations

  datatype Job = Job(target: Tree, stage: Tree, scopes: seq<Scope>)

  predicate Ready(j: Job) {
    IsTree(j.target) && IsTree(j.stage) && Shaped(j.target, j.scopes) && Comparable(j.target, j.stage, j.scopes)
  }

  predicate AboveStaged(j: Job, p: Path) {
    exists x | x in j.stage :: InScope(x, j.scopes) && p < x
  }

  predicate Allowed(j: Job, p: Path, n: Node) {
    if InScope(p, j.scopes) then (p in j.stage && n == j.stage[p]) || (p in j.target && n == j.target[p])
    else if p in j.target then n == j.target[p]
    else n == Dir(DEFAULT) && AboveStaged(j, p)
  }

  predicate Mid(j: Job, t: Tree) {
    && IsTree(t)
    && (forall p | p in t :: Allowed(j, p, t[p]))
    && (forall p | p in j.target && (!InScope(p, j.scopes) || p in j.stage) :: p in t)
  }

  /** A staged, selected path whose selected ancestors are already there. */
  predicate Placeable(j: Job, t: Tree, x: Path) {
    && x in j.stage && InScope(x, j.scopes)
    && forall q | q in j.stage && q < x && InScope(q, j.scopes) :: q in t
  }

  lemma {:induction false} AboveStem(scopes: seq<Scope>, x: Path, q: Path)
    requires InScope(x, scopes) && q < x && !InScope(q, scopes)
    ensures exists k | 0 <= k < |scopes| :: q < scopes[k].stem
  {
    var k :| 0 <= k < |scopes| && Under(x, scopes[k]);
    var s := scopes[k].stem;
    assert !Under(q, scopes[k]);
    if x != s {
      assert q == x[..|q|] && s == x[..|s|];
    }
  }

  lemma {:induction false} StagedReachable(j: Job, t: Tree, x: Path)
    requires Ready(j) && Mid(j, t) && x in j.stage && InScope(x, j.scopes)
    ensures Reachable(t, x)
  {
    forall q | q in t && q < x ensures t[q].Dir? {
      assert Allowed(j, q, t[q]);
      if q != [] { Ancestor(j.stage, x, q); }
      if !InScope(q, j.scopes) && q in j.target {
        AboveStem(j.scopes, x, q);
        var k :| 0 <= k < |j.scopes| && q < j.scopes[k].stem;
        assert Reachable(j.target, j.scopes[k].stem);
      }
    }
  }

  lemma {:induction false} PlacedTree(t: Tree, x: Path, n: Node)
    requires IsTree(t) && x != [] && Reachable(t, x) && (x in t ==> SameKind(t[x], n))
    ensures IsTree(WithParents(t, x)[x := n])
  {
    var u := WithParents(t, x)[x := n];
    forall p | p in u ensures p != [] && (|p| > 1 ==> p[..|p| - 1] in u && u[p[..|p| - 1]].Dir?) {
      if |p| > 1 {
        var up := p[..|p| - 1];
        if p in t {
          assert up in t && t[up].Dir?;
        } else {
          assert p == x[..|p|] && up == x[..|p| - 1];
          assert up in Prefixes(x) && up < x;
        }
      }
    }
  }

  /** `u` has the staged node `x`, has lost nothing, and has no other new selected node. */
  predicate Grown(j: Job, t: Tree, u: Tree, x: Path) {
    && x in u && x in j.stage && u[x] == j.stage[x] && t.Keys <= u.Keys
    && (forall p | p in t && p != x :: u[p] == t[p])
    && (forall p | p in u && p !in t && p != x :: !InScope(p, j.scopes))
  }

  predicate NewParent(j: Job, p: Path, n: Node) {
    !InScope(p, j.scopes) && n == Dir(DEFAULT) && AboveStaged(j, p) && p !in j.target
  }

  /** Parents that have to be created are unselected. */
  lemma {:induction false} NewParents(j: Job, t: Tree, x: Path, p: Path)
    requires Ready(j) && Mid(j, t) && Placeable(j, t, x) && p in Prefixes(x) && p !in t
    ensures NewParent(j, p, Dir(DEFAULT))
  {
    hide Readable, Shaped, Reachable, InScope, Comparable, Allowed;
    assert p < x && p != [];
    Ancestor(j.stage, x, p);
  }

  lemma NotRoot(j: Job, x: Path)
    requires Ready(j) && x in j.stage
    ensures x != []
  {}

  /** Placing a staged node keeps the middle state. */
  lemma {:induction false} Placed(j: Job, t: Tree, x: Path)
    requires Ready(j) && Mid(j, t) && Placeable(j, t, x) && (x in t ==> SameKind(t[x], j.stage[x]))
    ensures Mid(j, WithParents(t, x)[x := j.stage[x]]) && Grown(j, t, WithParents(t, x)[x := j.stage[x]], x)
  {
    hide Ready, InScope, Reachable, IsTree, SameKind, Prefixes;
    StagedReachable(j, t, x);
    NotRoot(j, x);
    PlacedTree(t, x, j.stage[x]);
    forall p | p in Prefixes(x) && p !in t ensures NewParent(j, p, Dir(DEFAULT)) { NewParents(j, t, x, p); }
    var u := WithParents(t, x)[x := j.stage[x]];
    forall p | p in u ensures Allowed(j, p, u[p]) {
      if p in t && p != x { assert Allowed(j, p, t[p]); }
    }
  }

  lemma {:induction false} Dropped(j: Job, t: Tree, x: Path)
    requires Mid(j, t) && x in j.target && InScope(x, j.scopes) && x !in j.stage && x in t
    requires forall q | q in t :: !(x < q)
    ensures Mid(j, t - {x})
  {
    var u := t - {x};
    forall p | p in u ensures p != [] && (|p| > 1 ==> p[..|p| - 1] in u && u[p[..|p| - 1]].Dir?) {
      assert p in t;
    }
  }

  lemma {:induction false} Extreme(s: set<Path>, deepest: bool) returns (p: Path)
    requires s != {}
    ensures p in s && forall q | q in s :: if deepest then |q| <= |p| else |p| <= |q|
    decreases s
  {
    p :| p in s;
    if s != {p} {
      var best := Extreme(s - {p}, deepest);
      if (if deepest then |best| >= |p| else |best| <= |p|) { p := best; }
      assert forall q | q in s :: q in s - {p} || q == p || q == best;
    }
  }

  /** Staged, selected nodes of one kind are in place, but for those still pending. */
  predicate InPlace(j: Job, t: Tree, kind: Node, pending: set<Path>) {
    forall p | p in j.stage && InScope(p, j.scopes) && SameKind(j.stage[p], kind) && p !in pending ::
        p in t && t[p] == j.stage[p]
  }

  /** Removed nodes are gone, but for those still pending. */
  predicate RemovedBut(j: Job, t: Tree, pending: set<Path>) {
    forall p | p in t && InScope(p, j.scopes) :: p in j.stage || p in pending
  }

  const DIR := Dir(0)
  const FILE := File("", 0)
  const LINK := Link("")

  // ----- The phases of an application

  predicate DirPhase(j: Job, t: Tree, pending: set<Path>) {
    && pending <= PlanOf(j.target, j.stage, j.scopes).modes.Keys
    && Mid(j, t) && InPlace(j, t, DIR, pending) && j.target.Keys <= t.Keys
    && (forall p | p in t && InScope(p, j.scopes) :: p in j.target || j.stage[p].Dir?)
  }

  predicate FilePhase(j: Job, t: Tree, pending: set<Path>) {
    && pending <= PlanOf(j.target, j.stage, j.scopes).files.Keys
    && Mid(j, t) && InPlace(j, t, DIR, {}) && InPlace(j, t, FILE, pending) && j.target.Keys <= t.Keys
    && (forall p | p in t && InScope(p, j.scopes) :: p in j.target || !j.stage[p].Link?)
  }

  predicate RemovePhase(j: Job, t: Tree, pending: set<Path>) {
    && pending <= PlanOf(j.target, j.stage, j.scopes).removals && pending <= t.Keys
    && Mid(j, t) && InPlace(j, t, DIR, {}) && InPlace(j, t, FILE, {}) && RemovedBut(j, t, pending)
  }

  predicate LinkPhase(j: Job, t: Tree, pending: set<Path>) {
    && pending <= PlanOf(j.target, j.stage, j.scopes).links.Keys
    && Mid(j, t) && InPlace(j, t, DIR, {}) && InPlace(j, t, FILE, {}) && InPlace(j, t, LINK, pending)
       && RemovedBut(j, t, {})
  }

  lemma {:induction false} WithPresent(t: Tree, p: Path)
    requires IsTree(t) && p in t
    ensures WithParents(t, p) == t
  {
    forall q | q in Prefixes(p) ensures q in t { Ancestor(t, p, q); }
  }

  lemma {:induction false} GrownKeeps(j: Job, t: Tree, u: Tree, x: Path, kind: Node, pending: set<Path>)
    requires Grown(j, t, u, x) && InPlace(j, t, kind, pending)
    ensures InPlace(j, u, kind, pending - {x})
  {}

  lemma {:induction false} StagedKind(j: Job, t: Tree, p: Path)
    requires Ready(j) && Mid(j, t) && p in j.stage && InScope(p, j.scopes) && p in t
    ensures SameKind(t[p], j.stage[p])
  {
    hide Readable, Shaped, InScope;
    assert Allowed(j, p, t[p]);
  }

  lemma {:induction false} DirStep(j: Job, t: Tree, pending: set<Path>, p: Path)
    requires Ready(j) && DirPhase(j, t, pending) && p in pending && forall q | q in pending :: |p| <= |q|
    ensures var u := MakeDirectory(t, p, j.stage[p].mode); u.Some? && DirPhase(j, u.value, pending - {p})
  {
    PlanAt(j.target, j.stage, j.scopes, p);
    hide PlanOf, Readable, Shaped, Allowed, WithParents, InScope, Reachable, SameKind;
    forall q | q in j.stage && q < p && InScope(q, j.scopes) ensures q in t {
      assert q != [];
      Ancestor(j.stage, p, q);
      assert SameKind(j.stage[q], DIR);
    }
    if p in t {
      StagedKind(j, t, p);
      WithPresent(t, p);
    }
    StagedReachable(j, t, p);
    Placed(j, t, p);
    GrownKeeps(j, t, WithParents(t, p)[p := j.stage[p]], p, DIR, pending);
  }

  lemma {:induction false} AncestorsPlaced(j: Job, t: Tree, x: Path)
    requires Ready(j) && InPlace(j, t, DIR, {}) && x in j.stage && InScope(x, j.scopes)
    ensures Placeable(j, t, x)
  {
    hide InScope;
    forall q | q in j.stage && q < x && InScope(q, j.scopes) ensures q in t {
      assert q != [];
      Ancestor(j.stage, x, q);
    }
  }

  lemma {:induction false} FileStep(j: Job, t: Tree, pending: set<Path>, p: Path)
    requires Ready(j) && FilePhase(j, t, pending) && p in pending
    ensures var u := WriteFile(t, p, j.stage[p]); u.Some? && FilePhase(j, u.value, pending - {p})
  {
    hide Readable, Shaped, Allowed, WithParents, InScope, Reachable, IsTree, Comparable;
    PlanAt(j.target, j.stage, j.scopes, p);
    AncestorsPlaced(j, t, p);
    if p in t { StagedKind(j, t, p); }
    StagedReachable(j, t, p);
    Placed(j, t, p);
    var u := WithParents(t, p)[p := j.stage[p]];
    GrownKeeps(j, t, u, p, DIR, {});
    GrownKeeps(j, t, u, p, FILE, pending);
  }

  lemma {:induction false} LinkStep(j: Job, t: Tree, pending: set<Path>, p: Path)
    requires Ready(j) && LinkPhase(j, t, pending) && p in pending
    ensures var u := MakeLink(t, p, j.stage[p]); u.Some? && LinkPhase(j, u.value, pending - {p})
  {
    hide Readable, Shaped, Allowed, WithParents, InScope, Reachable, IsTree, Comparable;
    PlanAt(j.target, j.stage, j.scopes, p);
    AncestorsPlaced(j, t, p);
    if p in t { StagedKind(j, t, p); }
    StagedReachable(j, t, p);
    Placed(j, t, p);
    var u := WithParents(t, p)[p := j.stage[p]];
    GrownKeeps(j, t, u, p, DIR, {});
    GrownKeeps(j, t, u, p, FILE, {});
    GrownKeeps(j, t, u, p, LINK, pending);
  }

  /** Whatever lies below a selected directory is selected. */
  lemma {:induction false} Below(j: Job, p: Path, q: Path)
    requires Ready(j) && p in j.target && j.target[p].Dir? && InScope(p, j.scopes) && p < q
    ensures InScope(q, j.scopes)
  {
    var k :| 0 <= k < |j.scopes| && Under(p, j.scopes[k]);
    assert p == j.scopes[k].stem ==> j.scopes[k].directory;
    assert Under(q, j.scopes[k]);
  }

  lemma {:induction false} PlanRemoval(j: Job, p: Path)
    requires p in PlanOf(j.target, j.stage, j.scopes).removals
    ensures p in j.target && InScope(p, j.scopes) && p !in j.stage
  {}

  /** At its turn a removed directory is empty: everything below it was selected for
      removal too, and deeper. */
  lemma {:induction false} NothingBelow(j: Job, t: Tree, pending: set<Path>, p: Path)
    requires Ready(j) && RemovePhase(j, t, pending) && p in pending
    requires t[p].Dir? ==> forall q | q in pending :: !(p < q)
    ensures forall q | q in t :: !(p < q)
    ensures p in j.target && InScope(p, j.scopes) && p !in j.stage
  {
    hide Readable, Shaped, InScope, Comparable, Reachable;
    PlanRemoval(j, p);
    forall q | q in t ensures !(p < q) {
      if p < q {
        Ancestor(t, q, p);
        assert Allowed(j, p, t[p]);
        Below(j, p, q);
        if q in j.stage { Ancestor(j.stage, q, p); }
      }
    }
  }

  lemma {:induction false} RemoveStep(j: Job, t: Tree, pending: set<Path>, p: Path)
    requires Ready(j) && RemovePhase(j, t, pending) && p in pending
    requires t[p].Dir? ==> forall q | q in pending :: !(p < q)
    ensures var u := if t[p].Dir? then Rmdir(t, p) else Unlink(t, p); u.Some? && RemovePhase(j, u.value, pending - {p})
  {
    hide Ready, InScope, Mid, PlanOf;
    NothingBelow(j, t, pending, p);
    Dropped(j, t, p);
  }

  // ----- From phase to phase

  lemma {:induction false} StartDirs(j: Job)
    requires Ready(j)
    ensures DirPhase(j, j.target, PlanOf(j.target, j.stage, j.scopes).modes.Keys)
  {
    hide Readable, Shaped, Reachable, InScope, Comparable;
    forall p | p in j.stage && InScope(p, j.scopes) { PlanAt(j.target, j.stage, j.scopes, p); }
  }

  lemma {:induction false} Unchanged(j: Job, t: Tree, p: Path)
    requires Mid(j, t) && p in j.stage && InScope(p, j.scopes) && !Differs(j.target, j.stage, p)
    ensures p in t && t[p] == j.stage[p]
  {
    hide InScope;
    assert Allowed(j, p, t[p]);
  }

  lemma {:induction false} StartFiles(j: Job, t: Tree)
    requires Ready(j) && DirPhase(j, t, {})
    ensures FilePhase(j, t, PlanOf(j.target, j.stage, j.scopes).files.Keys)
  {
    hide Ready, InScope, PlanOf, IsTree;
    forall p | p in j.stage && InScope(p, j.scopes)
      ensures p !in PlanOf(j.target, j.stage, j.scopes).files && j.stage[p].File? ==> p in t && t[p] == j.stage[p]
    {
      PlanAt(j.target, j.stage, j.scopes, p);
      if !Differs(j.target, j.stage, p) { Unchanged(j, t, p); }
    }
  }

  lemma {:induction false} StartRemovals(j: Job, t: Tree)
    requires Ready(j) && FilePhase(j, t, {})
    ensures RemovePhase(j, t, PlanOf(j.target, j.stage, j.scopes).removals)
  {
    hide Ready, InScope;
    forall p | p in t && InScope(p, j.scopes)
      ensures p in j.stage || p in PlanOf(j.target, j.stage, j.scopes).removals
    {
      assert Allowed(j, p, t[p]);
    }
  }

  lemma {:induction false} StartLinks(j: Job, t: Tree)
    requires Ready(j) && RemovePhase(j, t, {})
    ensures LinkPhase(j, t, PlanOf(j.target, j.stage, j.scopes).links.Keys)
  {
    hide Ready, InScope, Mid, PlanOf;
    forall p | p in j.stage && InScope(p, j.scopes)
      ensures p !in PlanOf(j.target, j.stage, j.scopes).links && j.stage[p].Link? ==> p in t && t[p] == j.stage[p]
    {
      PlanAt(j.target, j.stage, j.scopes, p);
      if !Differs(j.target, j.stage, p) { Unchanged(j, t, p); }
    }
  }

  /** The selected part is the staged one; unselected nodes are as before, and the only new
      ones are directories above selected paths. */
  predicate Converged(j: Job, t: Tree) {
    && (forall p | p in t && InScope(p, j.scopes) :: p in j.stage && t[p] == j.stage[p])
    && (forall p | p in j.stage && InScope(p, j.scopes) :: p in t)
    && (forall p | p in j.target && !InScope(p, j.scopes) :: p in t && t[p] == j.target[p])
    && (forall p | p in t && !InScope(p, j.scopes) && p !in j.target :: t[p] == Dir(DEFAULT) && AboveStaged(j, p))
  }

  lemma {:induction false} Arrived(j: Job, t: Tree)
    requires Ready(j) && LinkPhase(j, t, {})
    ensures Converged(j, t) && IsTree(t)
  {
    hide InScope, Ready;
    forall p | p in j.stage && InScope(p, j.scopes) ensures p in t && t[p] == j.stage[p] {
      assert SameKind(j.stage[p], DIR) || SameKind(j.stage[p], FILE) || SameKind(j.stage[p], LINK);
    }
    forall p | p in t ensures Allowed(j, p, t[p]) {}
  }

  lemma {:induction false} ConvergedComparable(j: Job, t: Tree)
    requires Ready(j) && Converged(j, t)
    ensures Comparable(t, j.stage, j.scopes)
  {
    hide Shaped, SkillLink;
    forall k | 0 <= k < |j.scopes| && j.scopes[k].stem in t
      ensures t[j.scopes[k].stem].Dir? <==> j.scopes[k].directory
    {
      assert Under(j.scopes[k].stem, j.scopes[k]);
      assert InScope(j.scopes[k].stem, j.scopes);
    }
  }

  /** After convergence there is nothing left to plan. */
  lemma {:induction false} ConvergedPlan(j: Job, t: Tree)
    requires Ready(j) && Converged(j, t)
    ensures Comparable(t, j.stage, j.scopes) && PlanOf(t, j.stage, j.scopes) == NO_PLAN
  {
    ConvergedComparable(j, t);
    hide Ready, Comparable, InScope, AboveStaged;
  }

  lemma NotRootTarget(j: Job, x: Path)
    requires Ready(j) && x in j.target
    ensures x != []
  {}

  lemma {:induction false} WriteAdmitted(j: Job, t: Tree, p: Path)
    requires Ready(j) && Mid(j, t) && p in j.stage && InScope(p, j.scopes)
    ensures Reachable(t, p) && (p in t ==> SameKind(t[p], j.stage[p]))
    ensures forall q | q in PlanOf(j.target, j.stage, j.scopes).removals :: !(q <= p)
  {
    hide Readable, Shaped, Comparable;
    StagedReachable(j, t, p);
    if p in t { StagedKind(j, t, p); }
    forall q | q in PlanOf(j.target, j.stage, j.scopes).removals ensures !(q <= p) {
      PlanRemoval(j, q);
      NotRootTarget(j, q);
      if q <= p && q != p { Ancestor(j.stage, p, q); }
    }
  }

  lemma {:induction false} RemovalAdmitted(j: Job, t: Tree, p: Path)
    requires Ready(j) && Mid(j, t) && p in PlanOf(j.target, j.stage, j.scopes).removals && p in t
    ensures Reachable(t, p) && (t[p].Link? ==> SkillLink(p, t[p].target))
  {
    PlanRemoval(j, p);
    assert Allowed(j, p, t[p]);
    forall q | q in t && q < p ensures t[q].Dir? {
      assert q != [];
      Ancestor(t, p, q);
    }
  }

  /** The admission of the plan, before and after the directories are created. */
  lemma {:induction false} AlwaysAdmitted(j: Job, t: Tree)
    requires Ready(j) && Mid(j, t) && PlanOf(j.target, j.stage, j.scopes).removals <= t.Keys
    ensures Admitted(t, PlanOf(j.target, j.stage, j.scopes))
  {
    hide Mid, Shaped, IsTree, Reachable, SkillLink;
    var plan := PlanOf(j.target, j.stage, j.scopes);
    forall p | p in plan.files.Keys + plan.links.Keys
      ensures Reachable(t, p) && (p in t ==> SameKind(t[p], j.stage[p])) && forall q | q in plan.removals :: !(q <= p)
    {
      WriteAdmitted(j, t, p);
    }
    forall p | p in plan.removals ensures Reachable(t, p) && (t[p].Link? ==> SkillLink(p, t[p].target)) {
      RemovalAdmitted(j, t, p);
    }
  }

  /** The readback fails exactly if a written file carries a mode bit above the permissions. */
  lemma {:induction false} ReadBack(j: Job, t: Tree)
    requires Ready(j) && Converged(j, t)
    ensures Verified(t, PlanOf(j.target, j.stage, j.scopes)) <==>
              forall p | p in PlanOf(j.target, j.stage, j.scopes).files :: j.stage[p].mode < MODE_LIMIT
  {
    hide Ready, InScope;
    var plan := PlanOf(j.target, j.stage, j.scopes);
    forall p | p in plan.files ensures p in t && t[p] == plan.files[p] == j.stage[p] && t[p].File? {}
    forall p | p in plan.files ensures t[p].mode % MODE_LIMIT == plan.files[p].mode <==> j.stage[p].mode < MODE_LIMIT {}
  }

  // ----- Applying

  datatype Outcome = Refused | Applied | ReadbackFailed | Partial

  lemma {:induction false} AdmittedFirst(j: Job)
    requires Ready(j)
    ensures Admitted(j.target, PlanOf(j.target, j.stage, j.scopes))
  {
    StartDirs(j);
    AlwaysAdmitted(j, j.target);
  }

  lemma {:induction false} AdmittedAgain(j: Job, t: Tree)
    requires Ready(j) && DirPhase(j, t, {})
    ensures Admitted(t, PlanOf(j.target, j.stage, j.scopes))
  {
    hide Ready, Mid, InPlace, Admitted;
    forall p | p in PlanOf(j.target, j.stage, j.scopes).removals ensures p in t { PlanRemoval(j, p); }
    AlwaysAdmitted(j, t);
  }

  class Worktree {
    var nodes: Tree

    /** `_create_and_mode_directories`: shallow directories first. */
    method CreateDirectories(modes: map<Path, Node>, ghost j: Job) returns (ok: bool)
      requires Ready(j) && nodes == j.target && modes == PlanOf(j.target, j.stage, j.scopes).modes
      modifies this
      ensures ok && DirPhase(j, nodes, {})
    {
      hide Ready, DirPhase;
      StartDirs(j);
      var pending := modes.Keys;
      while pending != {}
        invariant pending <= modes.Keys && DirPhase(j, nodes, pending)
        decreases pending
      {
        ghost var least := Extreme(pending, false);
        var p :| p in pending && forall q | q in pending :: |p| <= |q|;
        DirStep(j, nodes, pending, p);
        var next := MakeDirectory(nodes, p, modes[p].mode);
        if next.None? { return false; }
        nodes := next.value;
        pending := pending - {p};
      }
      ok := true;
    }

    /** The file writes of `write_plan`. */
    method WriteFiles(files: map<Path, Node>, ghost j: Job) returns (ok: bool)
      requires Ready(j) && FilePhase(j, nodes, files.Keys) && files == PlanOf(j.target, j.stage, j.scopes).files
      modifies this
      ensures ok && FilePhase(j, nodes, {})
    {
      hide Ready, FilePhase;
      var pending := files.Keys;
      while pending != {}
        invariant pending <= files.Keys && FilePhase(j, nodes, pending)
        decreases pending
      {
        var p :| p in pending;
        FileStep(j, nodes, pending, p);
        var next := WriteFile(nodes, p, files[p]);
        if next.None? { return false; }
        nodes := next.value;
        pending := pending - {p};
      }
      ok := true;
    }

    /** The removals of `write_plan`: files and links, then directories deepest first. */
    method RemoveAll(removals: set<Path>, ghost j: Job) returns (ok: bool)
      requires Ready(j) && RemovePhase(j, nodes, removals)
      modifies this
      ensures ok && RemovePhase(j, nodes, {})
    {
      hide Ready, InScope, Mid, PlanOf, InPlace, RemovedBut;
      var directories := set p | p in removals && nodes[p].Dir?;
      var files := removals - directories;
      ghost var start := nodes;
      assert directories + files == removals;
      while files != {}
        invariant files <= removals - directories && RemovePhase(j, nodes, directories + files)
        invariant forall p | p in nodes :: p in start && nodes[p] == start[p]
        decreases files
      {
        var p :| p in files;
        RemoveStep(j, nodes, directories + files, p);
        var next := Unlink(nodes, p);
        if next.None? { return false; }
        nodes := next.value;
        assert directories + files - {p} == directories + (files - {p});
        files := files - {p};
      }
      assert directories + files == directories;
      while directories != {}
        invariant directories <= removals && RemovePhase(j, nodes, directories)
        invariant forall p | p in nodes :: p in start && nodes[p] == start[p]
        invariant forall p | p in directories :: start[p].Dir?
        decreases directories
      {
        ghost var most := Extreme(directories, true);
        var p :| p in directories && forall q | q in directories :: |q| <= |p|;
        RemoveStep(j, nodes, directories, p);
        var next := Rmdir(nodes, p);
        if next.None? { return false; }
        nodes := next.value;
        directories := directories - {p};
      }
      ok := true;
    }

    method WriteLinks(links: map<Path, Node>, ghost j: Job) returns (ok: bool)
      requires Ready(j) && LinkPhase(j, nodes, links.Keys) && links == PlanOf(j.target, j.stage, j.scopes).links
      modifies this
      ensures ok && LinkPhase(j, nodes, {})
    {
      hide Ready, LinkPhase;
      var pending := links.Keys;
      while pending != {}
        invariant pending <= links.Keys && LinkPhase(j, nodes, pending)
        decreases pending
      {
        var p :| p in pending;
        LinkStep(j, nodes, pending, p);
        var next := MakeLink(nodes, p, links[p]);
        if next.None? { return false; }
        nodes := next.value;
        pending := pending - {p};
      }
      ok := true;
    }

    /** `_run` from the shape checks on.  The outcome is a refusal with the tree untouched, or
        a converged tree; no operation fails half-way.  The final readback refuses exactly if
        a written file has a mode bit above the permissions. */
    method Sync(stage: Tree, scopes: seq<Scope>) returns (r: Outcome)
      requires IsTree(nodes) && IsTree(stage)
      modifies this
      ensures r != Partial
      ensures r == Refused <==> !(Shaped(old(nodes), scopes) && Comparable(old(nodes), stage, scopes))
      ensures r == Refused ==> nodes == old(nodes)
      ensures r != Refused ==> Converged(Job(old(nodes), stage, scopes), nodes) && IsTree(nodes)
      ensures r != Refused ==> Comparable(nodes, stage, scopes) && PlanOf(nodes, stage, scopes) == NO_PLAN
      ensures r != Refused ==>
                (r == Applied <==> forall p | p in PlanOf(old(nodes), stage, scopes).files ::
                 stage[p].mode < MODE_LIMIT)
    {
      hide PlanOf, Converged, DirPhase, FilePhase, RemovePhase, LinkPhase;
      hide Comparable, Shaped, Admitted, Verified, IsTree;
      ghost var j := Job(nodes, stage, scopes);
      if !Shaped(nodes, scopes) { return Refused; }
      var built := BuildPlan(nodes, stage, scopes);
      if built.None? { return Refused; }
      var plan := built.value;
      AdmittedFirst(j);
      if !Admitted(nodes, plan) { return Refused; }
      var ok := CreateDirectories(plan.modes, j);
      if !ok { return Partial; }
      AdmittedAgain(j, nodes);
      if !Admitted(nodes, plan) { return Partial; }
      StartFiles(j, nodes);
      ok := WriteFiles(plan.files, j);
      if !ok { return Partial; }
      StartRemovals(j, nodes);
      ok := RemoveAll(plan.removals, j);
      if !ok { return Partial; }
      StartLinks(j, nodes);
      ok := WriteLinks(plan.links, j);
      if !ok { return Partial; }
      Arrived(j, nodes);
      ConvergedPlan(j, nodes);
      ReadBack(j, nodes);
      return if Verified(nodes, plan) then Applied else ReadbackFailed;
    }
  }

  /** A settings file with the sticky bit (mode 01644), as the target has it and the stage, a copy of
      the target with one setting rendered, keeps it. */
  const STICKY := 0x3A4

  const SETTINGS: Path := [".claude", "settings.json"]

  function Settings(data: string): Tree {
    map[[".claude"] := Dir(DEFAULT), SETTINGS := File(data, STICKY)]
  }

  const STICKY_JOB := Job(Settings("{}"), Settings("{\"env\":{}}"), [Scope(SETTINGS, false)])

  lemma {:induction false} OnlySettings()
    ensures forall p :: InScope(p, STICKY_JOB.scopes) <==> p == SETTINGS
  {
    assert Under(SETTINGS, STICKY_JOB.scopes[0]);
  }

  lemma {:induction false} SettingsTree(data: string)
    ensures var t := Settings(data); IsTree(t) && Reachable(t, SETTINGS) && Readable(t, STICKY_JOB.scopes)
    ensures var t := Settings(data);
            t.Keys == {[".claude"], SETTINGS} && t[SETTINGS] == File(data, STICKY) && t[[".claude"]] == Dir(DEFAULT)
  {
    var t := Settings(data);
    assert SETTINGS[..1] == [".claude"] && |SETTINGS| == 2 && |[".claude"]| == 1;
    OnlySettings();
  }

  lemma {:induction false} StickyReady()
    ensures Ready(STICKY_JOB) && Converged(STICKY_JOB, STICKY_JOB.stage)
    ensures SETTINGS in PlanOf(STICKY_JOB.target, STICKY_JOB.stage, STICKY_JOB.scopes).files
  {
    hide IsTree, Readable, InScope, Settings;
    var j := STICKY_JOB;
    SettingsTree("{}");
    SettingsTree("{\"env\":{}}");
    OnlySettings();
    assert |"{}"| == 2 && |"{\"env\":{}}"| == 10;
    PlanAt(j.target, j.stage, j.scopes, SETTINGS);
  }

  /** The plan for it is admitted and writes the file, which converges; and the readback of every
      converged tree fails. */
  lemma {:induction false} ReadbackCounterexample(t: Tree)
    ensures Ready(STICKY_JOB) && Converged(STICKY_JOB, STICKY_JOB.stage)
    ensures var j := STICKY_JOB; Converged(j, t) ==> !Verified(t, PlanOf(j.target, j.stage, j.scopes))
  {
    hide Ready, Converged, PlanOf, Verified, Settings;
    StickyReady();
    SettingsTree("{\"env\":{}}");
    if Converged(STICKY_JOB, t) { ReadBack(STICKY_JOB, t); }
  }

  // ----- What is refused

  /** The two families of generated links. */
  ghost predicate Generated(p: Path, target: string) {
    exists name ::
      (p == [".claude", "skills", name] || p == [".qwen", "skills", name]) && target == "../../.agents/skills/" + name
  }

  lemma {:induction false} SkillLinkIs(p: Path, target: string)
    ensures SkillLink(p, target) <==> Generated(p, target)
  {
    if SkillLink(p, target) { assert p == [p[0], "skills", p[2]]; }
  }

  /** A scope's own path has another type than announced. */
  predicate WrongStem(t: Tree, scopes: seq<Scope>) {
    exists k | 0 <= k < |scopes| :: scopes[k].stem in t && t[scopes[k].stem].Dir? != scopes[k].directory
  }

  /** A selected link is not a generated one. */
  ghost predicate ForeignLink(t: Tree, scopes: seq<Scope>) {
    exists p | p in t :: InScope(p, scopes) && t[p].Link? && !Generated(p, t[p].target)
  }

  /** Exactly what makes `Sync` refuse: a file or link above a scope in the target, a scope of another
      type than announced or a foreign link in either tree, or a path of two kinds. */
  lemma {:induction false} RefusedFor(target: Tree, stage: Tree, scopes: seq<Scope>)
    ensures !(Shaped(target, scopes) && Comparable(target, stage, scopes)) <==>
              || (exists k, q | 0 <= k < |scopes| && q in target :: q < scopes[k].stem && !target[q].Dir?)
              || WrongStem(target, scopes) || WrongStem(stage, scopes)
              || ForeignLink(target, scopes) || ForeignLink(stage, scopes)
              || (exists p | p in target && p in stage :: InScope(p, scopes) && !SameKind(target[p], stage[p]))
  {
    hide InScope, SkillLink, SameKind, Generated;
    forall p, link ensures SkillLink(p, link) <==> Generated(p, link) { SkillLinkIs(p, link); }
  }

  function Links(family: string): Tree {
    map[[family] := Dir(DEFAULT), [family, "skills"] := Dir(DEFAULT),
        [family, "skills", "review"] := Link("../../.agents/skills/review")]
  }

  const SKILL_SCOPES := [Scope([".claude", "skills"], true), Scope([".qwen", "skills"], true)]

  lemma {:induction false} LinksReadable(family: string)
    requires family == ".claude" || family == ".qwen"
    ensures Readable(Links(family), SKILL_SCOPES) && IsTree(Links(family))
    ensures InScope([family, "skills", "review"], SKILL_SCOPES)
  {
    var t := Links(family);
    var p, q, r := [family], [family, "skills"], [family, "skills", "review"];
    assert |p| == 1 && |q| == 2 && |r| == 3 && q[..1] == p && r[..2] == q;
    assert t.Keys == {p, q, r};
    var k := if family == ".claude" then 0 else 1;
    assert SKILL_SCOPES[k].stem == q <= r;
    assert Under(r, SKILL_SCOPES[k]);
    assert [".claude"][0] != [".qwen"][0];
    forall m | 0 <= m < 2 && SKILL_SCOPES[m].stem in t ensures SKILL_SCOPES[m].stem == q {
      assert |SKILL_SCOPES[m].stem| == 2;
    }
  }

  lemma {:induction false} ReadableUnion(a: Tree, b: Tree, scopes: seq<Scope>)
    requires Readable(a, scopes) && Readable(b, scopes)
    ensures Readable(a + b, scopes)
  {
    hide InScope, SkillLink;
  }

  lemma EmptyReadable(scopes: seq<Scope>)
    ensures Readable(map[], scopes)
  {}

  /** A stage with generated links of both families is accepted into an empty target, and both links are
      planned. */
  lemma {:induction false} LinksAccepted()
    ensures var stage := Links(".claude") + Links(".qwen");
            && Shaped(map[], SKILL_SCOPES) && Comparable(map[], stage, SKILL_SCOPES)
            && [".claude", "skills", "review"] in PlanOf(map[], stage, SKILL_SCOPES).links
            && [".qwen", "skills", "review"] in PlanOf(map[], stage, SKILL_SCOPES).links
  {
    hide Readable, InScope;
    LinksReadable(".claude");
    LinksReadable(".qwen");
    ReadableUnion(Links(".claude"), Links(".qwen"), SKILL_SCOPES);
    EmptyReadable(SKILL_SCOPES);
    var stage := Links(".claude") + Links(".qwen");
    assert [".claude", "skills", "review"][0] != [".qwen", "skills", "review"][0];
    PlanAt(map[], stage, SKILL_SCOPES, [".claude", "skills", "review"]);
    PlanAt(map[], stage, SKILL_SCOPES, [".qwen", "skills", "review"]);
  }

  /** The selected paths: each scope's own path, and everything below a directory scope. */
  lemma {:induction false} InScopeExactly(p: Path, scopes: seq<Scope>)
    ensures InScope(p, scopes) <==>
              exists k | 0 <= k < |scopes| ::
                p == scopes[k].stem || (scopes[k].directory && exists rest :: p == scopes[k].stem + rest)
  {
    forall k | 0 <= k < |scopes| && scopes[k].stem <= p ensures exists rest :: p == scopes[k].stem + rest {
      assert p == scopes[k].stem + p[|scopes[k].stem|..];
    }
  }
}

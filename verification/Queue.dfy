/**
 The validation queue (scripts/ci/validation-lock.py): generations that wait with
 FIFO tickets, publish one gate, launch a root command, child scopes and native
 observers, and are released or recovered after any crash.

 A generation is one `run` of the script; its index is its ticket sequence.  Steps of
 different processes interleave freely; a guardian may die between any two steps.

 Premises: the mutex serialises locked blocks and dies with its holder; leases are held
 exactly while their process lives; `scope_absent` and `observer_absent` are truthful;
 ordinary processes stay in their session.
 */
module Queue {
  import opened Common
  import C = ChildScope

  /** Where a guardian is in `run`.  Leased .. Unticketed happen under the mutex. */
  datatype Phase =
    | Waiting | Leased | Readied | Recorded | BackingOut | Linked | Unticketed
    | Running | Ending | Finished | Left

  datatype Root = NoRoot | Idle | Started | Over

  datatype ResourceState = Registered | Active | Closing | Complete

  datatype Observer = Observer(creates: bool, origin: Option<nat>, alive: bool, launched: bool, receipt: bool)

  datatype Resource = Resource(origin: Option<nat>, state: ResourceState, observers: seq<Observer>)

  datatype Gen = Gen(
    phase: Phase,
    ticket: bool,       // tickets/<token>.json exists
    recorded: bool,     // owners/<token>/gate exists
    root: Root,
    workers: bool,      // other processes of the root session
    barrier: bool,      // the guardian's end of the launch pipe
    launchByte: bool,
    accepting: bool,    // stage == "running"
    children: seq<C.Child>,
    resources: seq<Resource>)

  datatype Gate = Free | Legacy | Held(gen: nat)

  datatype State = State(now: nat, gate: Gate, mutex: Option<nat>, gens: seq<Gen>)

  /** Who asks for a native observer: the root command or a child command. */
  datatype Caller = FromRoot | FromChild(child: nat)

  /** `run`, from the lease to the launch byte, and its ways out. */
  datatype GuardianStep = Ready | Record | BackOut | BackedOut | Unticket | Launch | Abandon | CloseBarrier

  datatype RootStep = RootRead(spawned: bool) | RootEof | RootDies | RootWorkersEnd

  datatype ResourceStep =
    | Register(caller: Caller)
    | Write(resource: nat, state: ResourceState)
    | AddObserver(resource: nat, caller: Caller, creates: bool)
    | LaunchObserver(resource: nat, observer: nat)
    | ObserverEnds(resource: nat, observer: nat)
    | ObserverReceipt(resource: nat, observer: nat)

  datatype Local =
    | ByGuardian(guardian: GuardianStep)
    | Leave
    | InRoot(root: RootStep)
    | ReserveChild(cutoff: nat)
    | InChild(child: nat, step: C.Step)
    | OnResource(resource: ResourceStep)
    | Withdraw
    | DropTicket
    | Prune

  datatype Step =
    | Enqueue(lost: bool) | Tick(delta: nat) | LegacyTake | LegacyFree
    | Enter(gen: nat) | Link(gen: nat) | Release(gen: nat)
    | Within(gen: nat, what: Local)

  const NEW_GEN := Gen(Waiting, true, false, NoRoot, false, false, false, true, [], [])

  predicate Alive(g: Gen) { g.phase != Left }

  predicate RootAbsent(g: Gen) {
    && (g.root == NoRoot || g.root == Over) && !g.workers
    && forall k | 0 <= k < |g.children| :: !C.InRootSession(g.children[k])
  }

  predicate Silent(r: Resource) {
    forall k | 0 <= k < |r.observers| :: !r.observers[k].alive
  }

  /** The release predicate: `scope_absent` for the root and `custody_complete`. */
  predicate Releasable(g: Gen) {
    && RootAbsent(g)
    && (forall k | 0 <= k < |g.children| :: g.children[k].ordinaryStop)
    && (forall r | 0 <= r < |g.resources| :: g.resources[r].state == Complete && Silent(g.resources[r]))
  }

  /** The child's session has a process: its anchor, or the command. */
  predicate CommandAlive(c: C.Child) { c.workers || !(c.anchor.NoAnchor? || c.anchor.Newborn? || c.anchor.Gone?) }

  /** Some launched command of this generation is running. */
  predicate Busy(g: Gen) {
    || g.workers || g.root == Started
    || (exists k | 0 <= k < |g.children| :: CommandAlive(g.children[k]))
    || (exists r, k | 0 <= r < |g.resources| && 0 <= k < |g.resources[r].observers| ::
        g.resources[r].observers[k].alive)
  }

  predicate Prunable(s: State, j: nat)
    requires j < |s.gens|
  {
    !Alive(s.gens[j]) && (s.gens[j].recorded ==> s.gate != Held(j) && RootAbsent(s.gens[j]))
  }

  /** `live_tickets` keeps a dead guardian's ticket while its prepared scope may exist. */
  predicate LiveTicket(s: State, j: nat)
    requires j < |s.gens|
  {
    s.gens[j].ticket && (Alive(s.gens[j]) || !Prunable(s, j))
  }

  /** What one generation sees of the rest of the queue. */
  datatype View = View(now: nat, owner: bool, free: bool, unlocked: bool)

  function ViewOf(s: State, i: nat): View {
    View(s.now, s.gate == Held(i), s.gate == Free, s.mutex == None)
  }

  function ChildContext(g: Gen, v: View): C.Context {
    C.Context(v.now, v.owner, Alive(g), g.workers, RootAbsent(g))
  }

  predicate Published(g: Gen) {
    g.phase == Linked || g.phase == Unticketed || g.phase == Running || g.phase == Ending
  }

  /** A resource accepts effects while its originating child does. */
  predicate Effective(g: Gen, v: View, origin: Option<nat>) {
    origin.Some? ==>
      origin.value < |g.children| && C.Admissible(g.children[origin.value], C.Context(v.now, true, true, true, false))
  }

  predicate Authentic(g: Gen, v: View, caller: Caller) {
    && v.owner && Alive(g) && g.accepting
    && match caller
       case FromRoot => g.workers
       case FromChild(k) => && k < |g.children| && g.children[k].launchMay && g.children[k].workers
                            && g.children[k].anchor == C.Started && Effective(g, v, Some(k))
  }

  predicate Authorized(r: Resource, caller: Caller) {
    caller.FromChild? ==> r.origin == Some(caller.child)
  }

  predicate GuardianEnabled(g: Gen, st: GuardianStep, v: View) {
    match st
    case Ready => g.phase == Leased
    case Record => g.phase == Readied
    case BackOut => g.phase == Recorded && !v.free
    case BackedOut => g.phase == BackingOut && g.root == Over
    case Unticket => g.phase == Linked
    case Launch => g.phase == Unticketed
    case Abandon => g.phase == Linked || g.phase == Unticketed
    case CloseBarrier => g.phase == Running
  }

  function GuardianApply(g: Gen, st: GuardianStep): Gen {
    match st
    case Ready => g.(phase := Readied, root := Idle, barrier := true)
    case Record => g.(phase := Recorded, recorded := true, accepting := true, children := [], resources := [])
    case BackOut => g.(phase := BackingOut, barrier := false)
    case BackedOut => g.(phase := Waiting, recorded := false, root := NoRoot)
    case Unticket => g.(phase := Unticketed, ticket := false)
    case Launch => g.(phase := Running, launchByte := true)
    case Abandon => g.(phase := Ending, barrier := false)
    case CloseBarrier => g.(barrier := false)
  }

  predicate RootEnabled(g: Gen, st: RootStep) {
    match st
    case RootRead(_) => g.root == Idle && g.launchByte
    case RootEof => g.root == Idle && !g.launchByte && !g.barrier
    case RootDies => g.root == Idle || g.root == Started
    case RootWorkersEnd => g.workers
  }

  function RootApply(g: Gen, st: RootStep): Gen {
    match st
    case RootRead(spawned) => g.(root := Started, launchByte := false, workers := spawned)
    case RootEof => g.(root := Over)
    case RootDies => g.(root := Over)
    case RootWorkersEnd => g.(workers := false)
  }

  predicate ResourceEnabled(g: Gen, st: ResourceStep, v: View) {
    match st
    case Register(caller) => v.unlocked && Authentic(g, v, caller)
    case Write(r, _) => v.unlocked && r < |g.resources|
    case AddObserver(r, caller, creates) =>
      && v.unlocked && r < |g.resources| && Authentic(g, v, caller) && Authorized(g.resources[r], caller)
      && Effective(g, v, g.resources[r].origin)
      && g.resources[r].state != Closing && g.resources[r].state != Complete
      && (creates ==> g.resources[r].observers == [])
      && (forall k | 0 <= k < |g.resources[r].observers| ::
            !g.resources[r].observers[k].alive && g.resources[r].observers[k].receipt)
      && |g.resources[r].observers| < 256
    case LaunchObserver(r, k) =>
      r < |g.resources| && k < |g.resources[r].observers| && g.resources[r].observers[k].alive
    case ObserverEnds(r, k) => r < |g.resources| && k < |g.resources[r].observers|
    case ObserverReceipt(r, k) => r < |g.resources| && k < |g.resources[r].observers|
  }

  function CallerOrigin(caller: Caller): Option<nat> {
    if caller.FromRoot? then None else Some(caller.child)
  }

  function WithObserver(rs: seq<Resource>, r: nat, k: nat, o: Observer): seq<Resource>
    requires r < |rs| && k < |rs[r].observers|
  {
    rs[r := rs[r].(observers := rs[r].observers[k := o])]
  }

  /** `update_resource` replaces the record by the caller's snapshot, observers excepted. */
  function ResourcesAfter(rs: seq<Resource>, st: ResourceStep): seq<Resource>
    requires !st.Register? ==> st.resource < |rs|
    requires st.LaunchObserver? || st.ObserverEnds? || st.ObserverReceipt? ==> st.observer < |rs[st.resource].observers|
  {
    match st
    case Register(caller) => rs + [Resource(CallerOrigin(caller), Registered, [])]
    case Write(r, state) => rs[r := rs[r].(state := state)]
    case AddObserver(r, caller, creates) =>
      rs[r := Resource(rs[r].origin, Active, rs[r].observers + [Observer(creates, rs[r].origin, true, false, false)])]
    case LaunchObserver(r, k) => WithObserver(rs, r, k, rs[r].observers[k].(launched := true))
    case ObserverEnds(r, k) => WithObserver(rs, r, k, rs[r].observers[k].(alive := false))
    case ObserverReceipt(r, k) => WithObserver(rs, r, k, rs[r].observers[k].(receipt := true))
  }

  predicate LocalEnabled(g: Gen, st: Local, v: View) {
    match st
    case ByGuardian(a) => GuardianEnabled(g, a, v)
    case Leave => Alive(g)
    case InRoot(a) => RootEnabled(g, a)
    case ReserveChild(_) => v.unlocked && Authentic(g, v, FromRoot) && |g.children| < 256
    case InChild(k, step) =>
      k < |g.children| && C.Enabled(g.children[k], step, ChildContext(g, v)) && step != C.GuardianDies
    case OnResource(a) => ResourceEnabled(g, a, v)
    case Withdraw => v.owner
    case DropTicket => (g.phase == Waiting || g.phase == Finished || g.phase == Ending || g.phase == Running)
                       || (!Alive(g) && !v.owner && v.unlocked)
    case Prune => false
  }

  function Abandoned(g: Gen): Gen {
    g.(phase := Left, barrier := false,
       children := seq(|g.children|, k requires 0 <= k < |g.children| => C.Orphaned(g.children[k])))
  }

  function LocalApply(g: Gen, st: Local, v: View): Gen
    requires LocalEnabled(g, st, v)
  {
    match st
    case ByGuardian(a) => GuardianApply(g, a)
    case Leave => Abandoned(g)
    case InRoot(a) => RootApply(g, a)
    case ReserveChild(cutoff) => g.(children := g.children + [C.Reserve(cutoff)])
    case InChild(k, step) => g.(children := g.children[k := C.Apply(g.children[k], step, ChildContext(g, v))])
    case OnResource(a) => g.(resources := ResourcesAfter(g.resources, a))
    case Withdraw => g.(accepting := false)
    case DropTicket => g.(ticket := false)
  }

  predicate Enabled(s: State, st: Step) {
    match st
    case Enqueue(_) => s.mutex == None
    case Tick(_) => true
    case LegacyTake => s.gate == Free
    case LegacyFree => s.gate == Legacy
    case Enter(i) => i < |s.gens| && s.mutex == None && s.gate == Free && s.gens[i].phase == Waiting
                     && LiveTicket(s, i) && forall j | 0 <= j < i :: !LiveTicket(s, j)
    case Link(i) => i < |s.gens| && s.gens[i].phase == Recorded && s.gate == Free
    case Release(i) => i < |s.gens| && s.mutex == None && s.gate == Held(i) && Releasable(s.gens[i])
                       && (s.gens[i].phase == Running || s.gens[i].phase == Ending || s.gens[i].phase == Left)
    case Within(i, what) => i < |s.gens| && (if what == Prune then s.mutex == None && s.gens[i].ticket && Prunable(s, i)
                                             else LocalEnabled(s.gens[i], what, ViewOf(s, i)))
  }

  /** The mutex is given up at the end of the publication block and by death. */
  predicate Unlocks(what: Local) {
    what == Leave || (what.ByGuardian? && (what.guardian.BackedOut? || what.guardian.Launch? || what.guardian.Abandon?))
  }

  function Apply(s: State, st: Step): State
    requires Enabled(s, st)
  {
    match st
    case Enqueue(lost) => s.(gens := s.gens + [if lost then NEW_GEN.(phase := Left, ticket := false) else NEW_GEN])
    case Tick(delta) => s.(now := s.now + delta)
    case LegacyTake => s.(gate := Legacy)
    case LegacyFree => s.(gate := Free)
    case Enter(i) => s.(mutex := Some(i), gens := s.gens[i := s.gens[i].(phase := Leased)])
    case Link(i) => s.(gate := Held(i), gens := s.gens[i := s.gens[i].(phase := Linked)])
    case Release(i) => s.(gate := Free, gens :=
      s.gens[i := s.gens[i].(phase := if s.gens[i].phase == Left then Left else Finished)])
    case Within(i, what) =>
      if what == Prune then s.(gens := s.gens[i := s.gens[i].(ticket := false)])
      else s.(gens := s.gens[i := LocalApply(s.gens[i], what, ViewOf(s, i))],
              mutex := if Unlocks(what) && s.mutex == Some(i) then None else s.mutex)
  }

  // ----- Invariant of one generation

  predicate Preparing(g: Gen) {
    g.phase == Leased || g.phase == Readied || g.phase == Recorded || g.phase == BackingOut
  }

  predicate Unlaunched(g: Gen) {
    g.root != Started && !g.workers && !g.launchByte && g.children == [] && g.resources == []
  }

  predicate Quiet(g: Gen) {
    && RootAbsent(g)
    && (forall k | 0 <= k < |g.children| :: g.children[k].ordinaryStop)
    && (forall r | 0 <= r < |g.resources| :: Silent(g.resources[r]))
  }

  predicate ChildrenInv(g: Gen) {
    forall k | 0 <= k < |g.children| ::
      C.Inv(g.children[k]) && (g.children[k].pin || g.children[k].deciding ==> Alive(g))
  }

  predicate ResourceInv(r: Resource) {
    && |r.observers| <= 256
    && (forall k | 0 <= k < |r.observers| - 1 :: !r.observers[k].alive && r.observers[k].receipt)
    && (forall k | 0 < k < |r.observers| :: !r.observers[k].creates)
    && (forall k | 0 <= k < |r.observers| :: r.observers[k].origin == r.origin)
  }

  predicate ResourcesInv(g: Gen) {
    forall r | 0 <= r < |g.resources| :: ResourceInv(g.resources[r])
  }

  predicate PhaseInv(g: Gen, owner: bool) {
    && (g.phase == Waiting || Preparing(g) ==> !owner && Unlaunched(g))
    && (g.phase == Waiting || g.phase == Leased ==> g.root == NoRoot)
    && (Published(g) ==> owner)
    && (g.phase == Finished ==> !owner && Quiet(g))
    && (!owner ==> Unlaunched(g) || Quiet(g))
    && (g.phase == Left || g.phase == Ending ==> !g.barrier)
    && (g.phase == Waiting || g.phase == Leased || g.phase == Readied ==> !g.recorded)
    && (g.phase == Recorded || g.phase == BackingOut || Published(g) ==> g.recorded)
  }

  predicate GenInv(g: Gen, owner: bool) {
    ChildrenInv(g) && ResourcesInv(g) && PhaseInv(g, owner)
  }

  /** Only the owning generation has child steps left to take. */
  lemma {:induction false} OnlyOwnersServe(g: Gen, k: nat, step: C.Step, v: View)
    requires GenInv(g, v.owner) && LocalEnabled(g, InChild(k, step), v)
    ensures v.owner
  {}

  lemma {:induction false} ChildStepInv(g: Gen, k: nat, step: C.Step, v: View)
    requires ChildrenInv(g) && LocalEnabled(g, InChild(k, step), v)
    ensures ChildrenInv(LocalApply(g, InChild(k, step), v))
  {
    C.StepInv(g.children[k], step, ChildContext(g, v));
  }

  lemma {:induction false} LeaveKeepsChildren(g: Gen)
    requires ChildrenInv(g) && Alive(g)
    ensures ChildrenInv(Abandoned(g))
  {
    var g' := Abandoned(g);
    forall k | 0 <= k < |g.children| ensures C.Inv(g'.children[k]) && !g'.children[k].pin && !g'.children[k].deciding {
      assert C.Inv(g.children[k]);
    }
  }

  lemma {:induction false} LeaveKeepsPhase(g: Gen, owner: bool)
    requires PhaseInv(g, owner)
    ensures PhaseInv(Abandoned(g), owner)
  {
    var g' := Abandoned(g);
    forall k | 0 <= k < |g'.children|
      ensures g'.children[k].ordinaryStop == g.children[k].ordinaryStop
      ensures C.InRootSession(g'.children[k]) == C.InRootSession(g.children[k]) {}
  }

  lemma {:induction false} ResourceStepInv(g: Gen, st: ResourceStep, v: View)
    requires ResourcesInv(g) && ResourceEnabled(g, st, v)
    ensures ResourcesInv(g.(resources := ResourcesAfter(g.resources, st)))
  {
    var g' := g.(resources := ResourcesAfter(g.resources, st));
    forall r | 0 <= r < |g'.resources| ensures ResourceInv(g'.resources[r]) {
      if r < |g.resources| { assert ResourceInv(g.resources[r]); }
    }
  }

  lemma {:induction false} ResourceStepPhase(g: Gen, st: ResourceStep, v: View)
    requires PhaseInv(g, v.owner) && ResourceEnabled(g, st, v)
    ensures PhaseInv(g.(resources := ResourcesAfter(g.resources, st)), v.owner)
  {
    var g' := g.(resources := ResourcesAfter(g.resources, st));
    if !v.owner && Quiet(g) {
      assert forall r | 0 <= r < |g'.resources| :: Silent(g'.resources[r]);
    }
  }

  lemma {:induction false} GuardianStepPhase(g: Gen, st: GuardianStep, v: View)
    requires PhaseInv(g, v.owner) && GuardianEnabled(g, st, v)
    ensures PhaseInv(GuardianApply(g, st), v.owner)
    ensures GuardianApply(g, st).children == g.children && GuardianApply(g, st).resources == g.resources
  {}

  lemma {:induction false} RootStepPhase(g: Gen, st: RootStep, v: View)
    requires PhaseInv(g, v.owner) && RootEnabled(g, st)
    ensures PhaseInv(RootApply(g, st), v.owner)
  {}

  lemma {:induction false} InChildInv(g: Gen, k: nat, step: C.Step, v: View)
    requires GenInv(g, v.owner) && LocalEnabled(g, InChild(k, step), v)
    ensures GenInv(LocalApply(g, InChild(k, step), v), v.owner)
  {
    OnlyOwnersServe(g, k, step, v);
    ChildStepInv(g, k, step, v);
  }

  lemma {:induction false} ReserveChildInv(g: Gen, cutoff: nat, owner: bool)
    requires GenInv(g, owner) && owner && !Preparing(g) && g.phase != Waiting
    ensures GenInv(g.(children := g.children + [C.Reserve(cutoff)]), owner)
  {
    assert C.Inv(C.Reserve(cutoff));
  }

  lemma {:induction false} LeaveInv(g: Gen, owner: bool)
    requires GenInv(g, owner) && Alive(g)
    ensures GenInv(Abandoned(g), owner)
  {
    LeaveKeepsChildren(g);
    LeaveKeepsPhase(g, owner);
  }

  lemma {:induction false} OnResourceInv(g: Gen, st: ResourceStep, v: View)
    requires GenInv(g, v.owner) && ResourceEnabled(g, st, v)
    ensures GenInv(g.(resources := ResourcesAfter(g.resources, st)), v.owner)
  {
    ResourceStepInv(g, st, v);
    ResourceStepPhase(g, st, v);
  }

  lemma {:induction false} SessionInv(g: Gen, g': Gen, owner: bool)
    requires GenInv(g, owner) && PhaseInv(g', owner)
    requires g'.children == g.children && g'.resources == g.resources && (Alive(g) ==> Alive(g'))
    ensures GenInv(g', owner)
  {}

  lemma {:induction false} GuardianStepInv(g: Gen, st: GuardianStep, v: View)
    requires GenInv(g, v.owner) && GuardianEnabled(g, st, v)
    ensures GenInv(GuardianApply(g, st), v.owner)
  {
    GuardianStepPhase(g, st, v);
    SessionInv(g, GuardianApply(g, st), v.owner);
  }

  lemma {:induction false} RootStepInv(g: Gen, st: RootStep, v: View)
    requires GenInv(g, v.owner) && RootEnabled(g, st)
    ensures GenInv(RootApply(g, st), v.owner)
  {
    RootStepPhase(g, st, v);
    SessionInv(g, RootApply(g, st), v.owner);
  }

  lemma {:induction false} LocalInv(g: Gen, st: Local, v: View)
    requires GenInv(g, v.owner) && LocalEnabled(g, st, v)
    ensures GenInv(LocalApply(g, st, v), v.owner)
  {
    hide C.Apply, C.Enabled, C.Inv, ResourcesAfter, ChildContext;
    hide GuardianApply, RootApply, GuardianEnabled, RootEnabled;
    var g' := LocalApply(g, st, v);
    match st
    case ByGuardian(a) => GuardianStepInv(g, a, v);
    case Leave => LeaveInv(g, v.owner);
    case InRoot(a) => RootStepInv(g, a, v);
    case ReserveChild(cutoff) => ReserveChildInv(g, cutoff, v.owner);
    case InChild(k, step) => InChildInv(g, k, step, v);
    case OnResource(a) => OnResourceInv(g, a, v);
    case Withdraw => SessionInv(g, g', v.owner);
    case DropTicket => SessionInv(g, g', v.owner);
  }

  // ----- Invariant of the queue

  predicate GensInv(s: State) {
    forall i | 0 <= i < |s.gens| :: GenInv(s.gens[i], s.gate == Held(i))
  }

  predicate InBlock(g: Gen) {
    Preparing(g) || g.phase == Linked || g.phase == Unticketed
  }

  /** The mutex is held exactly by the guardian that is inside the publication block. */
  predicate MutexInv(s: State) {
    && (s.mutex.Some? ==> s.mutex.value < |s.gens|)
    && (forall i | 0 <= i < |s.gens| :: InBlock(s.gens[i]) <==> s.mutex == Some(i))
  }

  /** A preparing guardian holds its ticket, and no smaller ticket is live. */
  predicate FifoInv(s: State) {
    && (forall i | 0 <= i < |s.gens| && Preparing(s.gens[i]) :: s.gens[i].ticket)
    && (forall i, j | 0 <= j < i < |s.gens| && Preparing(s.gens[i]) :: !LiveTicket(s, j))
  }

  predicate Inv(s: State) {
    && GensInv(s) && MutexInv(s) && FifoInv(s)
    && (s.gate.Held? ==> s.gate.gen < |s.gens| && (s.mutex.None? || s.mutex == Some(s.gate.gen)))
  }

  const EMPTY := State(0, Free, None, [])

  /** How a step of one generation moves it with respect to the queue. */
  predicate Shape(g: Gen, g': Gen, unlocks: bool) {
    && (g'.ticket ==> g.ticket)
    && (Alive(g') ==> Alive(g))
    && (Preparing(g') ==> Preparing(g) && (g.ticket ==> g'.ticket))
    && (InBlock(g') <==> InBlock(g) && !unlocks)
    && (!Alive(g) ==> g'.recorded == g.recorded)
  }

  lemma {:induction false} GuardianShape(g: Gen, st: GuardianStep, v: View)
    requires GuardianEnabled(g, st, v)
    ensures Shape(g, GuardianApply(g, st), Unlocks(ByGuardian(st)))
  {}

  lemma {:induction false} LocalShape(g: Gen, st: Local, v: View)
    requires LocalEnabled(g, st, v)
    ensures Shape(g, LocalApply(g, st, v), Unlocks(st))
  {
    var g' := LocalApply(g, st, v);
    match st
    case ByGuardian(a) => GuardianShape(g, a, v);
    case InChild(k, step) => assert g'.phase == g.phase && g'.ticket == g.ticket;
    case _ =>
  }

  /** What is left of a dead guardian that owns no gate does not come back. */
  lemma {:induction false} AbsentStays(g: Gen, st: Local, v: View)
    requires GenInv(g, v.owner) && LocalEnabled(g, st, v) && !Alive(g) && !v.owner && RootAbsent(g)
    ensures RootAbsent(LocalApply(g, st, v))
  {
    match st
    case InChild(k, step) => OnlyOwnersServe(g, k, step, v);
    case _ =>
  }

  /** Within one generation no ticket becomes live. */
  lemma {:induction false} TicketsWithin(s: State, i: nat, what: Local, j: nat)
    requires Inv(s) && Enabled(s, Within(i, what)) && what != Prune && j < |s.gens| && !LiveTicket(s, j)
    ensures !LiveTicket(Apply(s, Within(i, what)), j)
  {
    hide LocalApply, LocalEnabled, GenInv, RootAbsent;
    if j == i {
      LocalShape(s.gens[i], what, ViewOf(s, i));
      if !Alive(s.gens[i]) && s.gate != Held(i) && RootAbsent(s.gens[i]) { AbsentStays(s.gens[i], what, ViewOf(s, i)); }
    }
  }

  lemma {:induction false} WithinInv(s: State, i: nat, what: Local)
    requires Inv(s) && Enabled(s, Within(i, what)) && what != Prune
    ensures Inv(Apply(s, Within(i, what)))
  {
    hide LocalApply, LocalEnabled, GenInv, LiveTicket;
    LocalInv(s.gens[i], what, ViewOf(s, i));
    LocalShape(s.gens[i], what, ViewOf(s, i));
    var s' := Apply(s, Within(i, what));
    forall j | 0 <= j < |s.gens| && !LiveTicket(s, j) ensures !LiveTicket(s', j) { TicketsWithin(s, i, what, j); }
  }

  lemma {:induction false} EnterInv(s: State, i: nat)
    requires Inv(s) && Enabled(s, Enter(i))
    ensures Inv(Apply(s, Enter(i)))
  {
    var s' := Apply(s, Enter(i));
    assert GenInv(s'.gens[i], s'.gate == Held(i));
    forall j | 0 <= j < i ensures !LiveTicket(s', j) { assert !LiveTicket(s, j); }
  }

  lemma {:induction false} LinkInv(s: State, i: nat)
    requires Inv(s) && Enabled(s, Link(i))
    ensures Inv(Apply(s, Link(i)))
  {
    assert GenInv(Apply(s, Link(i)).gens[i], true);
  }

  lemma {:induction false} ReleaseInv(s: State, i: nat)
    requires Inv(s) && Enabled(s, Release(i))
    ensures Inv(Apply(s, Release(i)))
  {
    assert Quiet(s.gens[i]);
    assert GenInv(Apply(s, Release(i)).gens[i], false);
  }

  lemma {:induction false} EnqueueInv(s: State, lost: bool)
    requires Inv(s) && Enabled(s, Enqueue(lost))
    ensures Inv(Apply(s, Enqueue(lost)))
  {
    var s' := Apply(s, Enqueue(lost));
    forall i | 0 <= i < |s'.gens| ensures GenInv(s'.gens[i], s'.gate == Held(i)) {
      assert i < |s.gens| ==> GenInv(s.gens[i], s.gate == Held(i));
    }
  }

  lemma {:induction false} TicketlessInv(g: Gen, owner: bool)
    requires GenInv(g, owner)
    ensures GenInv(g.(ticket := false), owner)
  {
    SessionInv(g, g.(ticket := false), owner);
  }

  lemma {:induction false} PruneInv(s: State, i: nat)
    requires Inv(s) && Enabled(s, Within(i, Prune))
    ensures Inv(Apply(s, Within(i, Prune)))
  {
    hide GenInv, RootAbsent;
    TicketlessInv(s.gens[i], s.gate == Held(i));
  }

  lemma {:induction false} GateInv(s: State, st: Step)
    requires Inv(s) && Enabled(s, st) && (st.Tick? || st.LegacyTake? || st.LegacyFree?)
    ensures Inv(Apply(s, st))
  {
    hide GenInv, RootAbsent;
    var s' := Apply(s, st);
    forall i | 0 <= i < |s.gens| ensures GenInv(s'.gens[i], s'.gate == Held(i)) {
      assert GenInv(s.gens[i], s.gate == Held(i)) && (s.gate == Held(i)) == (s'.gate == Held(i));
    }
    forall j | 0 <= j < |s.gens| ensures LiveTicket(s', j) == LiveTicket(s, j) {}
  }

  lemma {:induction false} StepInv(s: State, st: Step)
    requires Inv(s) && Enabled(s, st)
    ensures Inv(Apply(s, st))
  {
    hide Inv, Apply, Enabled;
    match st
    case Enter(i) => EnterInv(s, i);
    case Link(i) => LinkInv(s, i);
    case Release(i) => ReleaseInv(s, i);
    case Within(i, what) =>
      if what != Prune { WithinInv(s, i, what); }
      else { PruneInv(s, i); }
    case Enqueue(lost) => EnqueueInv(s, lost);
    case _ => GateInv(s, st);
  }

  // ----- Whole runs

  predicate Valid(s: State, run: seq<Step>)
    decreases |run|
  {
    run != [] ==> Enabled(s, run[0]) && Valid(Apply(s, run[0]), run[1..])
  }

  function Final(s: State, run: seq<Step>): State
    requires Valid(s, run)
    decreases |run|
  {
    if run == [] then s else Final(Apply(s, run[0]), run[1..])
  }

  lemma {:induction false} RunInv(s: State, run: seq<Step>)
    requires Inv(s) && Valid(s, run)
    ensures Inv(Final(s, run))
    decreases |run|
  {
    if run != [] {
      StepInv(s, run[0]);
      RunInv(Apply(s, run[0]), run[1..]);
    }
  }

  lemma {:induction false} IdleUnlessOwner(g: Gen)
    requires GenInv(g, false)
    ensures !Busy(g)
  {
    if Quiet(g) {
      forall k | 0 <= k < |g.children| ensures !CommandAlive(g.children[k]) {
        assert g.children[k].ordinaryStop && C.Inv(g.children[k]);
      }
    }
  }

  /** Mutual exclusion: in every run, whoever crashes when, only the generation that holds
      the gate has a root command, child command or native observer running. */
  lemma {:induction false} OnlyOwnerBusy(run: seq<Step>, i: nat)
    requires Valid(EMPTY, run) && i < |Final(EMPTY, run).gens|
    ensures var s := Final(EMPTY, run); Busy(s.gens[i]) ==> s.gate == Held(i)
  {
    RunInv(EMPTY, run);
    var s := Final(EMPTY, run);
    if s.gate != Held(i) { IdleUnlessOwner(s.gens[i]); }
  }

  /** A gate is published only when no launched process of any generation, earlier or
      later, is alive, and only by the live ticket with the smallest sequence. */
  lemma {:induction false} PublicationIsExclusive(run: seq<Step>, i: nat)
    requires Valid(EMPTY, run) && Enabled(Final(EMPTY, run), Link(i))
    ensures var s := Final(EMPTY, run);
            && (forall j | 0 <= j < |s.gens| :: !Busy(s.gens[j]))
            && LiveTicket(s, i) && (forall j | 0 <= j < i :: !LiveTicket(s, j)) && s.gate == Free
  {
    RunInv(EMPTY, run);
    var s := Final(EMPTY, run);
    forall j | 0 <= j < |s.gens| ensures !Busy(s.gens[j]) { IdleUnlessOwner(s.gens[j]); }
  }

  predicate Released(s: State, i: nat) {
    && i < |s.gens| && s.gate != Held(i)
    && (s.gens[i].phase == Finished || s.gens[i].phase == Left)
  }

  lemma {:induction false} ReleasedLocal(g: Gen, st: Local, v: View)
    requires (g.phase == Finished || g.phase == Left) && LocalEnabled(g, st, v)
    ensures LocalApply(g, st, v).phase == Finished || LocalApply(g, st, v).phase == Left
  {
    match st
    case InRoot(_) =>
    case InChild(_, _) =>
    case _ =>
  }

  lemma {:induction false} ReleasedStep(s: State, i: nat, st: Step)
    requires Inv(s) && Released(s, i) && Enabled(s, st)
    ensures Released(Apply(s, st), i)
  {
    match st
    case Within(j, what) =>
      if j == i && what != Prune { ReleasedLocal(s.gens[i], what, ViewOf(s, i)); }
    case _ =>
  }

  lemma {:induction false} ReleasedStays(s: State, i: nat, run: seq<Step>)
    requires Inv(s) && Released(s, i) && Valid(s, run)
    ensures i < |Final(s, run).gens| && !Busy(Final(s, run).gens[i])
    decreases |run|
  {
    if run == [] {
      IdleUnlessOwner(s.gens[i]);
    } else {
      StepInv(s, run[0]);
      ReleasedStep(s, i, run[0]);
      ReleasedStays(Apply(s, run[0]), i, run[1..]);
    }
  }

  /** The gate is taken only when free, by a publication or by a holder outside the queue, and given up
      only by whoever holds it. */
  lemma {:induction false} GateMoves(s: State, st: Step)
    requires Inv(s) && Enabled(s, st) && Apply(s, st).gate != s.gate
    ensures var t := Apply(s, st);
            match s.gate
            case Free => (st.Link? && t.gate == Held(st.gen)) || (st == LegacyTake && t.gate == Legacy)
            case Held(i) => st == Release(i) && t.gate == Free
            case Legacy => st == LegacyFree && t.gate == Free
  {}

  /** Neither release nor recovery removes the gate while anything of its generation runs
      or could still start: afterwards nothing of it is ever busy again. */
  lemma {:induction false} ReleaseIsFinal(run: seq<Step>, i: nat, more: seq<Step>)
    requires Valid(EMPTY, run) && Enabled(Final(EMPTY, run), Release(i))
    requires Valid(Apply(Final(EMPTY, run), Release(i)), more)
    ensures i < |Final(Apply(Final(EMPTY, run), Release(i)), more).gens|
    ensures !Busy(Final(Apply(Final(EMPTY, run), Release(i)), more).gens[i])
  {
    RunInv(EMPTY, run);
    StepInv(Final(EMPTY, run), Release(i));
    ReleasedStays(Apply(Final(EMPTY, run), Release(i)), i, more);
  }

  // ----- Observer custody

  /** The later observer list extends the earlier one; absence and receipts are kept. */
  predicate Extends(a: seq<Observer>, b: seq<Observer>) {
    && |a| <= |b|
    && forall k | 0 <= k < |a| ::
         && b[k].creates == a[k].creates && b[k].origin == a[k].origin
         && (b[k].alive ==> a[k].alive) && (a[k].receipt ==> b[k].receipt)
  }

  predicate CustodyKept(rs: seq<Resource>, rs': seq<Resource>) {
    && |rs| <= |rs'|
    && forall r | 0 <= r < |rs| :: rs'[r].origin == rs[r].origin && Extends(rs[r].observers, rs'[r].observers)
  }

  lemma {:induction false} LocalResources(g: Gen, st: Local, v: View)
    requires PhaseInv(g, v.owner) && LocalEnabled(g, st, v) && !st.OnResource?
    ensures LocalApply(g, st, v).resources == g.resources
  {
    match st
    case ByGuardian(a) => GuardianStepPhase(g, a, v);
    case InChild(_, _) =>
    case _ =>
  }

  /** Only resource steps of a generation change its resources. */
  lemma {:induction false} ResourcesChange(s: State, st: Step, i: nat)
    requires Inv(s) && Enabled(s, st) && i < |s.gens|
    ensures i < |Apply(s, st).gens|
    ensures Apply(s, st).gens[i].resources ==
            if st.Within? && st.gen == i && st.what.OnResource?
            then ResourcesAfter(s.gens[i].resources, st.what.resource)
            else s.gens[i].resources
  {
    match st
    case Within(j, what) =>
      if j == i && what != Prune && !what.OnResource? { LocalResources(s.gens[i], what, ViewOf(s, i)); }
    case _ =>
  }

  lemma {:induction false} ResourceStepCustody(g: Gen, st: ResourceStep, v: View)
    requires ResourceEnabled(g, st, v)
    ensures CustodyKept(g.resources, ResourcesAfter(g.resources, st))
  {
    var rs, rs' := g.resources, ResourcesAfter(g.resources, st);
    forall r | 0 <= r < |rs| ensures rs'[r].origin == rs[r].origin && Extends(rs[r].observers, rs'[r].observers) {}
  }

  lemma {:induction false} CustodyStep(s: State, st: Step, i: nat)
    requires Inv(s) && Enabled(s, st) && i < |s.gens|
    ensures i < |Apply(s, st).gens| && CustodyKept(s.gens[i].resources, Apply(s, st).gens[i].resources)
  {
    ResourcesChange(s, st, i);
    if st.Within? && st.gen == i && st.what.OnResource? {
      ResourceStepCustody(s.gens[i], st.what.resource, ViewOf(s, i));
    }
  }

  lemma {:induction false} CustodyTransitive(a: seq<Resource>, b: seq<Resource>, c: seq<Resource>)
    requires CustodyKept(a, b) && CustodyKept(b, c)
    ensures CustodyKept(a, c)
  {
    forall r | 0 <= r < |a| ensures Extends(a[r].observers, c[r].observers) {
      assert Extends(a[r].observers, b[r].observers) && Extends(b[r].observers, c[r].observers);
    }
  }

  lemma {:induction false} CustodyRun(s: State, run: seq<Step>, i: nat)
    requires Inv(s) && Valid(s, run) && i < |s.gens|
    ensures var t := Final(s, run);
            i < |t.gens| && CustodyKept(s.gens[i].resources, t.gens[i].resources) && ResourcesInv(t.gens[i])
    decreases |run|
  {
    if run != [] {
      StepInv(s, run[0]);
      CustodyStep(s, run[0], i);
      var m := Apply(s, run[0]);
      CustodyRun(m, run[1..], i);
      CustodyTransitive(s.gens[i].resources, m.gens[i].resources, Final(s, run).gens[i].resources);
    }
  }

  /** In every run, under every interleaving of readbacks, deaths and publications, the
      observer lists are append-only, and all but the last observer of a resource are
      absent with a terminal receipt, and only the first may create the container. */
  lemma {:induction false} ObserverCustody(run: seq<Step>, more: seq<Step>, i: nat)
    requires Valid(EMPTY, run) && Valid(Final(EMPTY, run), more) && i < |Final(EMPTY, run).gens|
    ensures var s, t := Final(EMPTY, run), Final(Final(EMPTY, run), more);
            i < |t.gens| && CustodyKept(s.gens[i].resources, t.gens[i].resources) && ResourcesInv(t.gens[i])
  {
    RunInv(EMPTY, run);
    CustodyRun(Final(EMPTY, run), more, i);
  }

  /** The originating child refuses effects for good: retired, cancelled or past its cutoff. */
  predicate ChildBarred(c: C.Child, now: nat) { c.retired || c.cancelAt.Some? || now >= c.cutoff }

  /** Effects on a resource are over: its generation lost its guardian or withdrew, or the
      originating child is barred. */
  predicate Barred(s: State, i: nat, r: nat)
    requires i < |s.gens| && r < |s.gens[i].resources|
  {
    var g := s.gens[i];
    var origin := g.resources[r].origin;
    || !Alive(g) || !g.accepting
    || (origin.Some? && origin.value < |g.children| && ChildBarred(g.children[origin.value], s.now))
  }

  lemma {:induction false} ChildConsistent(g: Gen, k: nat, v: View)
    requires GenInv(g, v.owner) && k < |g.children|
    ensures C.Inv(g.children[k]) && C.Consistent(g.children[k], ChildContext(g, v))
  {}

  lemma {:induction false} ChildBarredStep(g: Gen, step: C.Step, v: View, k: nat)
    requires GenInv(g, v.owner) && k < |g.children| && C.Enabled(g.children[k], step, ChildContext(g, v))
    requires ChildBarred(g.children[k], v.now)
    ensures ChildBarred(C.Apply(g.children[k], step, ChildContext(g, v)), v.now)
  {
    hide C.Apply, C.Enabled, C.Inv;
    ChildConsistent(g, k, v);
    C.StepInv(g.children[k], step, ChildContext(g, v));
  }

  lemma {:induction false} ChildBarredLocal(g: Gen, st: Local, v: View, k: nat)
    requires GenInv(g, v.owner) && LocalEnabled(g, st, v) && k < |g.children| && ChildBarred(g.children[k], v.now)
    ensures k < |LocalApply(g, st, v).children| && ChildBarred(LocalApply(g, st, v).children[k], v.now)
  {
    hide C.Apply, C.Enabled, C.Inv, C.InRootSession, RootAbsent;
    hide ResourcesAfter, ResourceEnabled, RootEnabled, ResourcesInv, Authentic;
    match st
    case ByGuardian(a) => GuardianStepPhase(g, a, v);
    case InChild(j, step) => if j == k { ChildBarredStep(g, step, v, k); }
    case _ =>
  }

  lemma {:induction false} ClosedLocal(g: Gen, st: Local, v: View)
    requires PhaseInv(g, v.owner) && LocalEnabled(g, st, v) && g.resources != [] && (!Alive(g) || !g.accepting)
    ensures !Alive(LocalApply(g, st, v)) || !LocalApply(g, st, v).accepting
  {
    hide C.Apply, C.Enabled, ResourcesAfter, ResourceEnabled;
    match st
    case InChild(_, _) =>
    case _ =>
  }

  lemma {:induction false} ClosedNow(g: Gen, st: Local, v: View)
    requires GenInv(g, v.owner) && LocalEnabled(g, st, v) && g.resources != [] && (!Alive(g) || !g.accepting)
    ensures !Alive(LocalApply(g, st, v)) || !LocalApply(g, st, v).accepting
  {
    hide LocalApply, LocalEnabled;
    ClosedLocal(g, st, v);
  }

  lemma {:induction false} ResourceStepCount(g: Gen, st: ResourceStep, v: View, r: nat)
    requires ResourceEnabled(g, st, v) && r < |g.resources|
    requires var o := g.resources[r].origin;
             !Alive(g) || !g.accepting || (o.Some? && o.value < |g.children| && ChildBarred(g.children[o.value], v.now))
    ensures r < |ResourcesAfter(g.resources, st)|
    ensures var before, after := g.resources[r], ResourcesAfter(g.resources, st)[r];
            after.origin == before.origin && |after.observers| == |before.observers|
  {}

  /** A barred resource gets no observer and keeps its origin. */
  lemma {:induction false} CustodyFrame(s: State, st: Step, i: nat, r: nat)
    requires Inv(s) && Enabled(s, st) && i < |s.gens| && r < |s.gens[i].resources| && Barred(s, i, r)
    ensures i < |Apply(s, st).gens| && r < |Apply(s, st).gens[i].resources|
    ensures var before, after := s.gens[i].resources[r], Apply(s, st).gens[i].resources[r];
            after.origin == before.origin && |after.observers| == |before.observers|
  {
    ResourcesChange(s, st, i);
    if st.Within? && st.gen == i && st.what.OnResource? {
      ResourceStepCount(s.gens[i], st.what.resource, ViewOf(s, i), r);
    }
  }

  lemma {:induction false} BarredStep(s: State, st: Step, i: nat, r: nat)
    requires Inv(s) && Enabled(s, st) && i < |s.gens| && r < |s.gens[i].resources| && Barred(s, i, r)
    ensures i < |Apply(s, st).gens| && r < |Apply(s, st).gens[i].resources| && Barred(Apply(s, st), i, r)
    ensures |Apply(s, st).gens[i].resources[r].observers| == |s.gens[i].resources[r].observers|
  {
    hide LocalApply, LocalEnabled, GenInv, ResourcesAfter, CustodyKept, Extends;
    CustodyFrame(s, st, i, r);
    if st.Within? && st.gen == i && st.what != Prune {
      var g, v := s.gens[i], ViewOf(s, i);
      var origin := g.resources[r].origin;
      assert GenInv(g, v.owner);
      if origin.Some? && origin.value < |g.children| && ChildBarred(g.children[origin.value], s.now) {
        ChildBarredLocal(g, st.what, v, origin.value);
      } else {
        ClosedNow(g, st.what, v);
      }
    }
  }

  lemma {:induction false} BarredRun(s: State, run: seq<Step>, i: nat, r: nat)
    requires Inv(s) && Valid(s, run) && i < |s.gens| && r < |s.gens[i].resources| && Barred(s, i, r)
    ensures var t := Final(s, run);
            && i < |t.gens| && r < |t.gens[i].resources| && Barred(t, i, r)
            && |t.gens[i].resources[r].observers| == |s.gens[i].resources[r].observers|
    decreases |run|
  {
    hide Barred, Apply, Enabled, Inv;
    if run != [] {
      StepInv(s, run[0]);
      BarredStep(s, run[0], i, r);
      BarredRun(Apply(s, run[0]), run[1..], i, r);
    }
  }

  /** In every run, once the originating child of a resource is cancelled, retired or past its
      cutoff, or its generation withdrew or lost its guardian, no continuation adds an observer. */
  lemma {:induction false} NoneAddedAfter(run: seq<Step>, more: seq<Step>, i: nat, r: nat)
    requires Valid(EMPTY, run) && Valid(Final(EMPTY, run), more)
    requires var s := Final(EMPTY, run); i < |s.gens| && r < |s.gens[i].resources| && Barred(s, i, r)
    ensures var s, t := Final(EMPTY, run), Final(Final(EMPTY, run), more);
            && i < |t.gens| && r < |t.gens[i].resources|
            && |t.gens[i].resources[r].observers| == |s.gens[i].resources[r].observers|
  {
    RunInv(EMPTY, run);
    BarredRun(Final(EMPTY, run), more, i, r);
  }
}

/**
 One ordinary child scope of the validation queue (scripts/ci/validation-lock.py).

 Four actors share one child record: the guardian (`service_children`,
 `advance_child`), the helper (`child_run`), the anchor process that the helper
 forks (`prepare_scope`) and a later recovery (`reconcile`).  Every durable write
 and every irreversible effect is a step of its own, so a crash may fall between
 any two of them.

 Premises: an ordinary process stays in its recorded session; `scope_absent` is
 truthful; JSON writes are atomic; the queue mutex keeps other locked blocks out
 between the launch decision and the launch byte (the flag `deciding`).
 */
module ChildScope {
  import opened Common

  datatype Stage = Reserved | Preparing | Prepared | Running | Stopped | Unknown

  /** The helper process, by what it has done so far. */
  datatype Helper = Unborn | Claimed | Authorized | Forked | Watching | Exited

  /** The anchor process.  `Newborn` is still in the helper's session. */
  datatype Anchor = NoAnchor | Newborn | Sessioned | Waiting | Started | Gone

  datatype Child = Child(
    // the durable record
    stage: Stage,
    cutoff: nat,
    cancelAt: Option<nat>,
    retired: bool,
    ordinaryStop: bool,
    waitCompleted: bool,
    scopeKnown: bool,
    prepared: bool,
    preparationMay: bool,
    launchMay: bool,
    fifo: bool,
    identityReceipt: bool,
    // processes, descriptors and pipe contents
    helper: Helper,
    anchor: Anchor,
    workers: bool,
    pin: bool,
    deciding: bool,
    launchByte: bool,
    // how many times the command was started
    starts: nat)

  /** What the rest of the generation looks like to one child. */
  datatype Context = Context(
    now: nat,
    owner: bool,        // this generation holds the gate
    guardian: bool,     // its guardian (hence its leases) is alive
    parent: bool,       // a command process of the root session is alive
    rootAbsent: bool)   // no process at all is left in the root session

  datatype HelperStep = Claim | Authorize | Fork | Publish | ReapAnchor | HelperLatch | HelperExit

  datatype SessionStep = EnterSession | WriteIdentity | ReadLaunch(spawned: bool) | ReadEof | AnchorDies | WorkersEnd

  datatype GuardianStep =
    | LatchCutoff | LatchRoot(when: nat) | LatchOrphan | CreatePin | Retire(lost: bool)
    | StopReserved | StopNeverPrepared | AdoptIdentity | DecideLaunch | WriteLaunch | StopAbsent

  datatype Step =
    | ByHelper(helper: HelperStep)
    | InSession(session: SessionStep)
    | ByGuardian(guardian: GuardianStep)
    | ParentCancel
    | GuardianDies
    | Recover

  function Reserve(cutoff: nat): Child {
    Child(Reserved, cutoff, None, false, false, false, false, false, false, false, false, false,
          Unborn, NoAnchor, false, false, false, false, 0)
  }

  predicate HelperLive(c: Child) {
    c.helper.Claimed? || c.helper.Authorized? || c.helper.Forked? || c.helper.Watching?
  }

  /** What `scope_absent` reports for the child's own session. */
  predicate SessionAbsent(c: Child) {
    !(c.anchor.Sessioned? || c.anchor.Waiting? || c.anchor.Started? || c.workers)
  }

  /** Processes that belong to the root session. */
  predicate InRootSession(c: Child) {
    HelperLive(c) || c.anchor == Newborn
  }

  /** The latch keeps the earliest cancellation time. */
  function Earlier(at: Option<nat>, when: nat): Option<nat> {
    Some(if at.Some? && at.value < when then at.value else when)
  }

  function Latched(c: Child, when: nat): Child {
    c.(cancelAt := Earlier(c.cancelAt, when))
  }

  /** The conditions a launch or a preparation needs from the record. */
  predicate Admissible(c: Child, x: Context) {
    !c.retired && c.cancelAt.None? && x.now < c.cutoff
  }

  predicate HelperEnabled(c: Child, s: HelperStep, x: Context) {
    match s
    case Claim => !c.deciding && x.owner && x.guardian && x.parent
                  && c.stage == Reserved && c.helper == Unborn && c.cancelAt.None? && x.now < c.cutoff
    case Authorize => !c.deciding && x.owner && x.guardian && c.helper == Claimed && Admissible(c, x) && c.fifo
    case Fork => c.helper == Authorized
    case Publish => !c.deciding && x.owner && x.guardian && c.helper == Forked && c.identityReceipt
                    && c.stage == Preparing && Admissible(c, x)
    case ReapAnchor => !c.deciding && x.owner && c.helper == Watching && c.anchor == Gone
    case HelperLatch => !c.deciding && x.owner && c.helper == Watching
    case HelperExit => HelperLive(c)
  }

  function HelperApply(c: Child, s: HelperStep, x: Context): Child {
    match s
    case Claim => c.(helper := Claimed, stage := Preparing)
    case Authorize => c.(helper := Authorized, preparationMay := true)
    case Fork => c.(helper := Forked, anchor := Newborn)
    case Publish => c.(helper := Watching, scopeKnown := true, prepared := true, stage := Prepared)
    case ReapAnchor => c.(helper := Exited, waitCompleted := true)
    case HelperLatch => Latched(c, x.now)
    case HelperExit => c.(helper := Exited)
  }

  predicate SessionEnabled(c: Child, s: SessionStep) {
    match s
    case EnterSession => c.anchor == Newborn
    case WriteIdentity => c.anchor == Sessioned && !c.identityReceipt
    case ReadLaunch(_) => c.anchor == Waiting && c.launchByte
    case ReadEof => c.anchor == Waiting && !c.launchByte && !c.pin
    case AnchorDies => !c.anchor.NoAnchor? && !c.anchor.Gone?
    case WorkersEnd => c.workers
  }

  function SessionApply(c: Child, s: SessionStep): Child {
    match s
    case EnterSession => c.(anchor := Sessioned)
    case WriteIdentity => c.(anchor := Waiting, identityReceipt := true)
    case ReadLaunch(spawned) => c.(anchor := Started, launchByte := false, workers := spawned, starts := c.starts + 1)
    case ReadEof => c.(anchor := Gone)
    case AnchorDies => c.(anchor := Gone)
    case WorkersEnd => c.(workers := false)
  }

  /** The guardian serves its own, not yet stopped, children under the mutex. */
  predicate Serving(c: Child, x: Context) {
    !c.deciding && x.owner && x.guardian && !c.ordinaryStop
  }

  /** Why `advance_child` retires without an error: cancelled before launch, lost its
      helper, reached its cutoff, or finished with only the anchor left (the last also
      covers the retirement that follows the second cancellation frame). */
  predicate RetireReason(c: Child, x: Context) {
    || c.cancelAt.Some?
    || (c.prepared && !c.launchMay && (!HelperLive(c) || x.now >= c.cutoff))
    || (c.launchMay && !c.workers)
  }

  predicate GuardianEnabled(c: Child, s: GuardianStep, x: Context) {
    match s
    case LatchCutoff => Serving(c, x) && x.now >= c.cutoff
    case LatchRoot(when) => Serving(c, x) && when <= x.now
    case LatchOrphan => Serving(c, x) && c.helper == Exited && !c.waitCompleted
    case CreatePin => Serving(c, x) && c.stage != Reserved && !c.fifo && !c.retired && c.cancelAt.None?
    case Retire(lost) => Serving(c, x) && (lost || RetireReason(c, x))
    case StopReserved => Serving(c, x) && c.stage == Reserved && c.cancelAt.Some? && c.retired
    case StopNeverPrepared => Serving(c, x) && c.stage != Reserved && !c.scopeKnown && c.retired
                              && !HelperLive(c) && !c.preparationMay
    case AdoptIdentity => Serving(c, x) && !c.scopeKnown && c.retired && !HelperLive(c) && c.preparationMay
                          && c.identityReceipt
    case DecideLaunch => Serving(c, x) && c.prepared && c.scopeKnown && !c.launchMay && Admissible(c, x)
                         && HelperLive(c) && c.pin && !c.anchor.NoAnchor? && !c.anchor.Gone?
    case WriteLaunch => c.deciding && x.guardian
    case StopAbsent => Serving(c, x) && c.retired && c.scopeKnown && (HelperLive(c) ==> c.waitCompleted)
                       && SessionAbsent(c)
  }

  function GuardianApply(c: Child, s: GuardianStep, x: Context): Child {
    match s
    case LatchCutoff => Latched(c, c.cutoff)
    case LatchRoot(when) => Latched(c, when)
    case LatchOrphan => Latched(c, x.now)
    case CreatePin => c.(fifo := true, pin := true)
    case Retire(lost) => c.(retired := true, pin := false, stage := if lost then Unknown else c.stage)
    case StopReserved => c.(stage := Stopped, ordinaryStop := true)
    case StopNeverPrepared => c.(stage := Stopped, ordinaryStop := true)
    case AdoptIdentity => c.(scopeKnown := true)
    case DecideLaunch => c.(stage := Running, launchMay := true, deciding := true)
    case WriteLaunch => c.(deciding := false, launchByte := true)
    case StopAbsent => c.(stage := Stopped, ordinaryStop := true)
  }

  /** Locked blocks exclude the guardian's launch critical section. */
  predicate Enabled(c: Child, s: Step, x: Context) {
    match s
    case ByHelper(h) => HelperEnabled(c, h, x)
    case InSession(a) => SessionEnabled(c, a)
    case ByGuardian(g) => GuardianEnabled(c, g, x)
    case ParentCancel => !c.deciding && x.owner && x.guardian && x.parent
    case GuardianDies => x.guardian
    case Recover => !x.guardian && x.owner && x.rootAbsent
  }

  /** The guardian's descriptors close with it; what it already wrote stays in the pipe. */
  function Orphaned(c: Child): Child {
    c.(pin := false, deciding := false)
  }

  /** `reconcile` on one child: recovery never signals, it only observes. */
  function Recovered(c: Child): Child {
    var r := c.(retired := true);
    if c.preparationMay && !c.identityReceipt then r.(stage := Unknown)
    else
      var r := if c.preparationMay then r.(scopeKnown := true) else r;
      var stop := if r.scopeKnown then SessionAbsent(r)
                  else if !r.preparationMay then true
                  else r.ordinaryStop;
      r.(ordinaryStop := stop, stage := if stop then Stopped else Unknown)
  }

  function Apply(c: Child, s: Step, x: Context): Child {
    match s
    case ByHelper(h) => HelperApply(c, h, x)
    case InSession(a) => SessionApply(c, a)
    case ByGuardian(g) => GuardianApply(c, g, x)
    case ParentCancel => Latched(c, x.now)
    case GuardianDies => Orphaned(c)
    case Recover => Recovered(c)
  }

  // ----- Invariant

  /** Nothing of this child runs, and nothing of it can start any more. */
  predicate Dead(c: Child) {
    && !c.workers
    && (c.anchor == Gone
        || (c.anchor == NoAnchor && (c.helper == Exited || (c.helper == Unborn && c.stage != Reserved))))
  }

  predicate Inv(c: Child) {
    // preparation
    && (c.stage == Reserved ==> c.helper == Unborn)
    && (c.helper.Unborn? || c.helper.Claimed? ==> !c.preparationMay)
    && (c.helper == Authorized ==> c.preparationMay && c.anchor == NoAnchor)
    && (!c.preparationMay ==> c.anchor == NoAnchor)
    && (c.helper.Forked? || c.helper.Watching? ==> c.preparationMay && c.anchor != NoAnchor)
    && (c.anchor.NoAnchor? || c.anchor.Newborn? || c.anchor.Sessioned? ==> !c.identityReceipt)
    && (c.anchor.Waiting? || c.anchor.Started? ==> c.identityReceipt)
    && (c.scopeKnown ==> c.identityReceipt)
    && (c.prepared ==> c.scopeKnown)
    && (c.helper == Watching ==> c.prepared)
    && (c.waitCompleted ==> c.helper == Exited && c.anchor == Gone)
    // launch
    && c.starts <= 1
    && (c.starts == 1 || c.launchByte || c.deciding || c.anchor == Started || c.workers ==> c.launchMay)
    && (c.launchMay ==> c.prepared)
    && (c.deciding ==> !c.launchByte && c.starts == 0 && !c.retired && c.cancelAt.None?)
    && (c.launchByte ==> c.starts == 0)
    && (c.starts == 0 ==> c.anchor != Started && !c.workers)
    // stop
    && (c.ordinaryStop ==> c.retired && Dead(c) && c.stage == Stopped && (c.preparationMay ==> c.identityReceipt))
  }

  /** Descriptors die with the guardian, and an empty root session holds no helper. */
  predicate Consistent(c: Child, x: Context) {
    && (x.rootAbsent ==> !InRootSession(c))
    && (c.pin || c.deciding ==> x.guardian)
  }

  /** What every step of any actor keeps. */
  predicate Keeps(c: Child, c': Child, x: Context) {
    && Inv(c')
    // stopping is final
    && (c.ordinaryStop ==> c'.ordinaryStop && c'.starts == c.starts)
    // once retired without a launch decision, no decision can follow
    && (c.retired ==> c'.retired && c'.launchMay == c.launchMay)
    // only an admissible decision makes a launch possible
    && (!c.launchMay && c'.launchMay ==> !c.retired && c.cancelAt.None? && x.now < c.cutoff && HelperLive(c))
    // descriptors stay with the guardian
    && (c'.pin || c'.deciding ==> x.guardian)
    // a completed wait stays completed, and its child is no orphan
    && (c.waitCompleted ==> c'.waitCompleted)
    // a start is not undone
    && c.starts <= c'.starts
    // the cutoff is fixed, and the latch is set for good and only moves down
    && c'.cutoff == c.cutoff
    && (c.cancelAt.Some? ==> c'.cancelAt.Some? && c'.cancelAt.value <= c.cancelAt.value)
  }

  lemma HelperKeeps(c: Child, s: HelperStep, x: Context)
    requires Inv(c) && HelperEnabled(c, s, x) && Consistent(c, x)
    ensures Keeps(c, HelperApply(c, s, x), x)
  {}

  lemma SessionKeeps(c: Child, s: SessionStep, x: Context)
    requires Inv(c) && SessionEnabled(c, s) && Consistent(c, x)
    ensures Keeps(c, SessionApply(c, s), x)
  {}

  lemma GuardianKeeps(c: Child, s: GuardianStep, x: Context)
    requires Inv(c) && GuardianEnabled(c, s, x) && Consistent(c, x)
    ensures Keeps(c, GuardianApply(c, s, x), x)
    ensures !c.launchMay && GuardianApply(c, s, x).launchMay ==> s == DecideLaunch
  {}

  lemma StepInv(c: Child, s: Step, x: Context)
    requires Inv(c) && Enabled(c, s, x) && Consistent(c, x)
    ensures Keeps(c, Apply(c, s, x), x)
    ensures !c.launchMay && Apply(c, s, x).launchMay ==> s == ByGuardian(DecideLaunch)
  {
    match s
    case ByHelper(h) => HelperKeeps(c, h, x);
    case InSession(a) => SessionKeeps(c, a, x);
    case ByGuardian(g) => GuardianKeeps(c, g, x);
    case ParentCancel =>
    case GuardianDies =>
    case Recover =>
  }

  // ----- Whole runs

  datatype Event = Event(step: Step, context: Context)

  function Final(c: Child, run: seq<Event>): Child
    decreases |run|
  {
    if run == [] then c else Final(Apply(c, run[0].step, run[0].context), run[1..])
  }

  predicate Valid(c: Child, run: seq<Event>)
    decreases |run|
  {
    run != [] ==>
      && Enabled(c, run[0].step, run[0].context)
      && Consistent(c, run[0].context)
      && Valid(Apply(c, run[0].step, run[0].context), run[1..])
  }

  lemma {:induction false} RunInv(c: Child, run: seq<Event>)
    requires Inv(c) && Valid(c, run)
    ensures Inv(Final(c, run))
    decreases |run|
  {
    if run != [] {
      StepInv(c, run[0].step, run[0].context);
      RunInv(Apply(c, run[0].step, run[0].context), run[1..]);
    }
  }

  lemma {:induction false} StopPersists(c: Child, run: seq<Event>)
    requires Inv(c) && c.ordinaryStop && Valid(c, run)
    ensures Inv(Final(c, run)) && Final(c, run).ordinaryStop && Final(c, run).starts == c.starts
    decreases |run|
  {
    if run != [] {
      StepInv(c, run[0].step, run[0].context);
      StopPersists(Apply(c, run[0].step, run[0].context), run[1..]);
    }
  }

  /** `ordinary_stop` is never wrong and never becomes wrong: whichever path wrote it,
      after any further steps and crashes no process of the child's session exists, no
      helper or anchor can still produce one, and the command is not started again. */
  lemma {:induction false} StopIsFinal(cutoff: nat, run: seq<Event>, more: seq<Event>)
    requires Valid(Reserve(cutoff), run) && Valid(Final(Reserve(cutoff), run), more)
    requires Final(Reserve(cutoff), run).ordinaryStop
    ensures var c, later := Final(Reserve(cutoff), run), Final(Final(Reserve(cutoff), run), more);
            && later.ordinaryStop && !later.workers && (later.anchor == NoAnchor || later.anchor == Gone)
            && later.helper != Authorized && !(later.helper == Unborn && later.stage == Reserved)
            && later.starts == c.starts
  {
    RunInv(Reserve(cutoff), run);
    StopPersists(Final(Reserve(cutoff), run), more);
  }

  /** The `k`-th step of the run is a launch decision on a record that was neither
      retired nor cancelled, before its cutoff and with its helper alive. */
  predicate DecidedAt(c: Child, run: seq<Event>, k: nat)
    requires k < |run|
  {
    && run[k].step == ByGuardian(DecideLaunch)
    && var d := Final(c, run[..k]);
       !d.retired && d.cancelAt.None? && run[k].context.now < d.cutoff && HelperLive(d)
  }

  lemma {:induction false} DecisionExists(c: Child, run: seq<Event>) returns (k: nat)
    requires Inv(c) && Valid(c, run) && !c.launchMay && Final(c, run).launchMay
    ensures k < |run| && DecidedAt(c, run, k)
    decreases |run|
  {
    var next := Apply(c, run[0].step, run[0].context);
    StepInv(c, run[0].step, run[0].context);
    if next.launchMay {
      assert Final(c, run[..0]) == c;
      k := 0;
    } else {
      var m := DecisionExists(next, run[1..]);
      k := m + 1;
      assert run[..k][0] == run[0] && run[..k][1..] == run[1..][..m];
      assert Final(c, run[..k]) == Final(next, run[1..][..m]);
    }
  }

  /** A command starts at most once, and then only after `launch_may_have_occurred` was
      durable and an admissible launch decision was taken. */
  lemma {:induction false} StartsOnceAfterDecision(cutoff: nat, run: seq<Event>)
    requires Valid(Reserve(cutoff), run)
    ensures var c := Final(Reserve(cutoff), run);
            && c.starts <= 1
            && (c.starts == 1 ==> c.launchMay && exists k | 0 <= k < |run| :: DecidedAt(Reserve(cutoff), run, k))
  {
    RunInv(Reserve(cutoff), run);
    if Final(Reserve(cutoff), run).starts == 1 {
      var k := DecisionExists(Reserve(cutoff), run);
    }
  }

  /** `no_command_effect` as `child_status` reports it. */
  predicate NoCommandEffect(c: Child) {
    c.retired && !c.launchMay
  }

  /** Once reported, it stays true: the command was not started and never will be. */
  lemma {:induction false} NoCommandEffectIsFinal(c: Child, run: seq<Event>)
    requires Inv(c) && NoCommandEffect(c) && Valid(c, run)
    ensures NoCommandEffect(Final(c, run)) && Final(c, run).starts == 0
    decreases |run|
  {
    if run != [] {
      StepInv(c, run[0].step, run[0].context);
      NoCommandEffectIsFinal(Apply(c, run[0].step, run[0].context), run[1..]);
    }
  }

  /** After guardian death and with an empty root session, recovery marks a child stopped
      exactly when its session is empty and an authorised preparation left its identity. */
  lemma RecoveryVerdict(c: Child)
    requires Inv(c) && !InRootSession(c)
    ensures Recovered(c).ordinaryStop <==> SessionAbsent(c) && (c.preparationMay ==> c.identityReceipt)
    ensures Recovered(c).retired && Recovered(c).stage == if Recovered(c).ordinaryStop then Stopped else Unknown
  {}

  /** The family recovery cannot close: the anchor vanished, or was never forked, between
      the authorisation and the identity receipt. */
  predicate Unidentified(c: Child) {
    && c.preparationMay && !c.identityReceipt && !c.ordinaryStop
    && (c.helper == Exited || c.helper == Forked) && (c.anchor == Gone || (c.anchor == NoAnchor && c.helper == Exited))
  }

  lemma {:induction false} UnidentifiedStep(c: Child, s: Step, x: Context)
    requires Inv(c) && Unidentified(c) && Enabled(c, s, x) && Consistent(c, x)
    ensures Unidentified(Apply(c, s, x))
  {
    match s
    case ByHelper(h) =>
    case InSession(a) =>
    case ByGuardian(g) =>
    case _ =>
  }

  /** Its processes are all gone, yet no run ever marks it stopped: a missing identity is
      never read as absence. */
  lemma {:induction false} UnidentifiedNeverStops(c: Child, run: seq<Event>)
    requires Inv(c) && Unidentified(c) && Valid(c, run)
    ensures Unidentified(Final(c, run)) && SessionAbsent(Final(c, run))
    decreases |run|
  {
    if run != [] {
      StepInv(c, run[0].step, run[0].context);
      UnidentifiedStep(c, run[0].step, run[0].context);
      UnidentifiedNeverStops(Apply(c, run[0].step, run[0].context), run[1..]);
    }
  }

  // ----- The cancellation latch over runs

  /** The moment a step latches, if any. */
  function Named(cutoff: nat, s: Step, now: nat): Option<nat> {
    match s
    case ByHelper(h) => if h.HelperLatch? then Some(now) else None
    case ByGuardian(g) =>
      if g.LatchCutoff? then Some(cutoff)
      else if g.LatchRoot? then Some(g.when)
      else if g.LatchOrphan? then Some(now)
      else None
    case ParentCancel => Some(now)
    case _ => None
  }

  /** The latch after a step. */
  function LatchAfter(at: Option<nat>, when: Option<nat>): Option<nat> {
    if when.None? then at else Earlier(at, when.value)
  }

  /** Every guardian step but the three latches leaves cutoff and latch alone. */
  lemma {:induction false} GuardianSpares(c: Child, g: GuardianStep, x: Context)
    requires !g.LatchCutoff? && !g.LatchRoot? && !g.LatchOrphan?
    ensures GuardianApply(c, g, x).cutoff == c.cutoff && GuardianApply(c, g, x).cancelAt == c.cancelAt
  {
    var d := GuardianApply(c, g, x);
    if g.CreatePin? { assert d == c.(fifo := true, pin := true); }
    else if g.Retire? { assert d == c.(retired := true, pin := false, stage := d.stage); }
    else if g.AdoptIdentity? { assert d == c.(scopeKnown := true); }
    else if g.DecideLaunch? { assert d == c.(stage := Running, launchMay := true, deciding := true); }
    else if g.WriteLaunch? { assert d == c.(deciding := false, launchByte := true); }
    else { assert d == c.(stage := Stopped, ordinaryStop := true); }
  }

  lemma {:induction false} GuardianLatch(c: Child, g: GuardianStep, x: Context)
    ensures var c' := GuardianApply(c, g, x);
            c'.cutoff == c.cutoff && c'.cancelAt == LatchAfter(c.cancelAt, Named(c.cutoff, ByGuardian(g), x.now))
  {
    hide Earlier;
    if g.LatchCutoff? { assert GuardianApply(c, g, x) == Latched(c, c.cutoff); }
    else if g.LatchRoot? { assert GuardianApply(c, g, x) == Latched(c, g.when); }
    else if g.LatchOrphan? { assert GuardianApply(c, g, x) == Latched(c, x.now); }
    else { GuardianSpares(c, g, x); }
  }

  lemma {:induction false} HelperLatches(c: Child, h: HelperStep, x: Context)
    ensures var c' := HelperApply(c, h, x);
            c'.cutoff == c.cutoff && c'.cancelAt == LatchAfter(c.cancelAt, Named(c.cutoff, ByHelper(h), x.now))
  {
    match h
    case HelperLatch =>
    case _ =>
  }

  lemma {:induction false} SessionLatches(c: Child, a: SessionStep)
    ensures SessionApply(c, a).cutoff == c.cutoff && SessionApply(c, a).cancelAt == c.cancelAt
  {
    var c' := SessionApply(c, a);
    if a.ReadLaunch? {
      assert c' == c.(anchor := Started, launchByte := false, workers := a.spawned, starts := c.starts + 1);
    } else if a.WriteIdentity? {
      assert c' == c.(anchor := Waiting, identityReceipt := true);
    } else if a.WorkersEnd? {
      assert c' == c.(workers := false);
    } else {
      assert c' == c.(anchor := c'.anchor);
    }
  }

  /** Recovery writes the verdict and nothing else. */
  lemma {:induction false} RecoveredWrites(c: Child)
    ensures var d := Recovered(c);
            d == c.(retired := true, scopeKnown := d.scopeKnown, ordinaryStop := d.ordinaryStop, stage := d.stage)
  {}

  lemma {:induction false} RecoveredLatch(c: Child)
    ensures Recovered(c).cutoff == c.cutoff && Recovered(c).cancelAt == c.cancelAt
  {
    hide Recovered;
    RecoveredWrites(c);
  }

  lemma {:induction false} LatchStep(c: Child, s: Step, x: Context)
    ensures var c' := Apply(c, s, x);
            c'.cutoff == c.cutoff && c'.cancelAt == LatchAfter(c.cancelAt, Named(c.cutoff, s, x.now))
  {
    hide GuardianApply, HelperApply, SessionApply, Recovered, Earlier;
    match s
    case ByGuardian(g) => GuardianLatch(c, g, x);
    case ByHelper(h) => HelperLatches(c, h, x);
    case InSession(a) => SessionLatches(c, a);
    case Recover => RecoveredLatch(c);
    case _ =>
  }

  /** No step of the run names a moment before `at`. */
  predicate NoneEarlier(cutoff: nat, run: seq<Event>, at: nat)
    decreases |run|
  {
    run == [] ||
    (var when := Named(cutoff, run[0].step, run[0].context.now);
     (when.Some? ==> at <= when.value) && NoneEarlier(cutoff, run[1..], at))
  }

  /** A set latch stays set and only moves down; it is the same after a run exactly if no step of the
      run named an earlier moment. */
  lemma {:induction false} LatchRun(c: Child, run: seq<Event>)
    requires c.cancelAt.Some?
    ensures Final(c, run).cancelAt.Some? && Final(c, run).cancelAt.value <= c.cancelAt.value
    ensures Final(c, run).cancelAt == c.cancelAt <==> NoneEarlier(c.cutoff, run, c.cancelAt.value)
    decreases |run|
  {
    hide Apply, Named;
    if run != [] {
      LatchStep(c, run[0].step, run[0].context);
      LatchRun(Apply(c, run[0].step, run[0].context), run[1..]);
    }
  }

  /** A child to which a cancellation frame can be sent: identified, pinned and not retired. */
  predicate Signalable(c: Child) { c.scopeKnown && c.pin && !c.retired && c.cancelAt.Some? }

  function At(now: nat): Context { Context(now, true, true, true, false) }

  /** A command under way, with cutoff 10, and the same bereft of its helper. */
  const STARTED := Child(
    Running, 10, None, false, false, false, true, true, true, true, true, true,
    Watching, Started, true, true, false, false, 1)

  const BEREFT := STARTED.(helper := Exited)

  lemma {:induction false} NoEvents(c: Child)
    ensures Valid(c, []) && Final(c, []) == c
  {}

  /** One step added to the front of a valid run. */
  lemma {:induction false} Before(c: Child, e: Event, run: seq<Event>)
    requires Enabled(c, e.step, e.context) && Consistent(c, e.context) && Valid(Apply(c, e.step, e.context), run)
    ensures Valid(c, [e] + run) && Final(c, [e] + run) == Final(Apply(c, e.step, e.context), run)
  {
    assert ([e] + run)[1..] == run;
  }

  /** Every step of the run falls at time 0, with the guardian alive. */
  predicate Early(run: seq<Event>) {
    forall k | 0 <= k < |run| :: run[k].context == At(0) && run[k].step != GuardianDies
  }

  lemma {:induction false} Front(c: Child, s: Step, run: seq<Event>) returns (longer: seq<Event>)
    requires Enabled(c, s, At(0)) && Consistent(c, At(0)) && Valid(Apply(c, s, At(0)), run)
    requires s != GuardianDies && Early(run)
    ensures Valid(c, longer) && Final(c, longer) == Final(Apply(c, s, At(0)), run) && Early(longer)
  {
    hide Valid, Final, Enabled, Apply;
    longer := [Event(s, At(0))] + run;
    Before(c, Event(s, At(0)), run);
  }

  lemma NoneEarly()
    ensures Early([])
  {}

  lemma {:induction false} LaunchFrom(c: Child) returns (run: seq<Event>)
    requires c == STARTED.(
      stage := Prepared, launchMay := false, anchor := Waiting, workers := false, starts := 0)
    ensures Valid(c, run) && Final(c, run) == STARTED && Early(run)
  {
    hide Valid, Final, Early;
    var decided := c.(stage := Running, launchMay := true, deciding := true);
    var written := decided.(deciding := false, launchByte := true);
    NoEvents(STARTED);
    NoneEarly();
    run := Front(written, InSession(ReadLaunch(true)), []);
    run := Front(decided, ByGuardian(WriteLaunch), run);
    run := Front(c, ByGuardian(DecideLaunch), run);
  }

  lemma {:induction false} LaunchedFrom(c: Child) returns (run: seq<Event>)
    requires c == Reserve(10).(
      helper := Forked, stage := Preparing, fifo := true, pin := true, preparationMay := true, anchor := Sessioned)
    ensures Valid(c, run) && Final(c, run) == STARTED && Early(run)
  {
    hide Valid, Final, Early;
    var waiting := c.(anchor := Waiting, identityReceipt := true);
    var published := waiting.(helper := Watching, scopeKnown := true, prepared := true, stage := Prepared);
    run := LaunchFrom(published);
    run := Front(waiting, ByHelper(Publish), run);
    run := Front(c, InSession(WriteIdentity), run);
  }

  /** The run of a child that is claimed, prepared and launched. */
  lemma {:induction false} LaunchedRun() returns (run: seq<Event>)
    ensures Valid(Reserve(10), run) && Final(Reserve(10), run) == STARTED && Early(run)
  {
    hide Valid, Final, Early;
    var claimed := Reserve(10).(helper := Claimed, stage := Preparing);
    var pinned := claimed.(fifo := true, pin := true);
    var authorized := pinned.(helper := Authorized, preparationMay := true);
    var forked := authorized.(helper := Forked, anchor := Newborn);
    run := LaunchedFrom(forked.(anchor := Sessioned));
    run := Front(forked, InSession(EnterSession), run);
    run := Front(authorized, ByHelper(Fork), run);
    run := Front(pinned, ByHelper(Authorize), run);
    run := Front(claimed, ByGuardian(CreatePin), run);
    run := Front(Reserve(10), ByHelper(Claim), run);
  }

  /** The unidentified family is reached: the helper dies right after its preparation was authorised. */
  lemma {:induction false} UnidentifiedReachable() returns (run: seq<Event>)
    ensures Valid(Reserve(10), run) && Unidentified(Final(Reserve(10), run))
  {
    hide Valid, Final, Early;
    var claimed := Reserve(10).(helper := Claimed, stage := Preparing);
    var pinned := claimed.(fifo := true, pin := true);
    var authorized := pinned.(helper := Authorized, preparationMay := true);
    NoEvents(authorized.(helper := Exited));
    NoneEarly();
    run := Front(authorized, ByHelper(HelperExit), []);
    run := Front(pinned, ByHelper(Authorize), run);
    run := Front(claimed, ByGuardian(CreatePin), run);
    run := Front(Reserve(10), ByHelper(Claim), run);
  }

  lemma {:induction false} Joined(c: Child, a: seq<Event>, b: seq<Event>)
    requires Valid(c, a) && Valid(Final(c, a), b)
    ensures Valid(c, a + b) && Final(c, a + b) == Final(Final(c, a), b)
    decreases |a|
  {
    hide Apply, Enabled, Consistent;
    if a == [] {
      assert a + b == b;
    } else {
      assert (a + b)[1..] == a[1..] + b;
      Joined(Apply(c, a[0].step, a[0].context), a[1..], b);
    }
  }

  /** The guardian can lower the latch behind the first frame: it finds the helper dead just past the
      cutoff, latches that moment, and latches the cutoff itself on its next pass. */
  lemma {:induction false} LoweringReachable() returns (run: seq<Event>, more: seq<Event>)
    ensures Valid(Reserve(10), run) && Valid(Final(Reserve(10), run), more)
    ensures var c, d := Final(Reserve(10), run), Final(Final(Reserve(10), run), more);
            Signalable(c) && Signalable(d) && c.cancelAt == Some(11) && d.cancelAt == Some(10)
  {
    hide Valid, Final;
    var first := LaunchedRun();
    var late := [Event(ByHelper(HelperExit), At(0)), Event(ByGuardian(LatchOrphan), At(11))];
    more := [Event(ByGuardian(LatchCutoff), At(12))];
    var c, d := BEREFT.(cancelAt := Some(11)), BEREFT.(cancelAt := Some(10));
    assert late == [late[0]] + [late[1]] && [late[1]] == [late[1]] + [] && more == more + [];
    NoEvents(c);
    Before(BEREFT, late[1], []);
    Before(STARTED, late[0], [late[1]]);
    Joined(Reserve(10), first, late);
    run := first + late;
    NoEvents(d);
    Before(c, more[0], []);
  }

  // ----- When a child can be stopped

  /** Why the guardian marks a served child stopped. */
  predicate StopReason(c: Child) {
    || (c.stage == Reserved && c.cancelAt.Some?)
    || (c.stage != Reserved && !c.scopeKnown && !c.preparationMay && !HelperLive(c))
    || (c.scopeKnown && SessionAbsent(c) && (HelperLive(c) ==> c.waitCompleted))
  }

  lemma {:induction false} StopSteps(c: Child, g: GuardianStep, x: Context)
    requires !c.ordinaryStop && GuardianApply(c, g, x).ordinaryStop
    ensures g == StopReserved || g == StopNeverPrepared || g == StopAbsent
  {
    match g
    case StopReserved =>
    case StopNeverPrepared =>
    case StopAbsent =>
    case _ =>
  }

  /** The guardian's exact verdict: of a child it serves it can mark stopped in one step exactly a
      retired one that was never claimed, never prepared, or is waited for and absent. */
  lemma {:induction false} GuardianVerdict(c: Child, x: Context)
    requires Inv(c) && Serving(c, x)
    ensures (exists g :: GuardianEnabled(c, g, x) && GuardianApply(c, g, x).ordinaryStop) <==>
            c.retired && StopReason(c)
  {
    if c.retired && StopReason(c) {
      var g := if c.scopeKnown && SessionAbsent(c) && (HelperLive(c) ==> c.waitCompleted) then StopAbsent
               else if c.stage == Reserved then StopReserved else StopNeverPrepared;
      assert GuardianEnabled(c, g, x) && GuardianApply(c, g, x).ordinaryStop;
    }
    forall g | GuardianEnabled(c, g, x) && GuardianApply(c, g, x).ordinaryStop ensures c.retired && StopReason(c) {
      StopSteps(c, g, x);
    }
  }

  /** Some continuation marks the child stopped. */
  ghost predicate Stoppable(c: Child) { exists run :: Valid(c, run) && Final(c, run).ordinaryStop }

  /** The step can be taken whenever the guardian lives and owns the gate, and does the same always. */
  ghost predicate Sure(c: Child, s: Step) {
    forall x: Context | x.owner && x.guardian :: Enabled(c, s, x) && Apply(c, s, x) == Apply(c, s, At(0))
  }

  /** These steps, one after the other, end with the child stopped and its helper gone. */
  ghost predicate Planned(c: Child, steps: seq<Step>)
    decreases |steps|
  {
    if steps == [] then c.ordinaryStop && !HelperLive(c)
    else Sure(c, steps[0]) && steps[0] != GuardianDies && Planned(Apply(c, steps[0], At(0)), steps[1..])
  }

  ghost predicate Plannable(c: Child) { exists steps :: Planned(c, steps) }

  lemma {:induction false} PlanFirst(c: Child, s: Step)
    requires Sure(c, s) && s != GuardianDies && Plannable(Apply(c, s, At(0)))
    ensures Plannable(c)
  {
    hide Sure, Apply;
    var steps :| Planned(Apply(c, s, At(0)), steps);
    var longer := [s] + steps;
    assert longer[1..] == steps;
    assert Planned(c, longer);
  }

  lemma {:induction false} PlanDone(c: Child)
    requires c.ordinaryStop && !HelperLive(c)
    ensures Plannable(c)
  {
    assert Planned(c, []);
  }

  /** Retired, with an identity and nobody in the helper's place. */
  predicate Winding(c: Child) {
    Inv(c) && c.retired && !c.deciding && !c.ordinaryStop && !HelperLive(c) && c.identityReceipt && c.preparationMay
  }

  lemma {:induction false} AbsentStops(c: Child)
    requires Winding(c) && SessionAbsent(c) && c.anchor == Gone
    ensures Plannable(c)
  {
    hide Plannable;
    if c.scopeKnown {
      PlanDone(Apply(c, ByGuardian(StopAbsent), At(0)));
      PlanFirst(c, ByGuardian(StopAbsent));
    } else {
      var d := Apply(c, ByGuardian(AdoptIdentity), At(0));
      PlanDone(Apply(d, ByGuardian(StopAbsent), At(0)));
      PlanFirst(d, ByGuardian(StopAbsent));
      PlanFirst(c, ByGuardian(AdoptIdentity));
    }
  }

  lemma {:induction false} AnchorStops(c: Child)
    requires Winding(c) && !c.workers
    ensures Plannable(c)
  {
    hide Plannable;
    if c.anchor != Gone {
      StepInv(c, InSession(AnchorDies), At(0));
      AbsentStops(Apply(c, InSession(AnchorDies), At(0)));
      PlanFirst(c, InSession(AnchorDies));
    } else { AbsentStops(c); }
  }

  lemma {:induction false} WindingStops(c: Child)
    requires Winding(c)
    ensures Plannable(c)
  {
    hide Plannable;
    if c.workers {
      StepInv(c, InSession(WorkersEnd), At(0));
      AnchorStops(Apply(c, InSession(WorkersEnd), At(0)));
      PlanFirst(c, InSession(WorkersEnd));
    } else { AnchorStops(c); }
  }

  /** Retired and not yet stopped. */
  predicate Closing(c: Child) { Inv(c) && c.retired && !c.deciding && !c.ordinaryStop }

  lemma {:induction false} IdentifiedStops(c: Child)
    requires Closing(c) && c.identityReceipt
    ensures Plannable(c)
  {
    hide Plannable;
    if HelperLive(c) {
      StepInv(c, ByHelper(HelperExit), At(0));
      WindingStops(Apply(c, ByHelper(HelperExit), At(0)));
      PlanFirst(c, ByHelper(HelperExit));
    } else { WindingStops(c); }
  }

  lemma {:induction false} SessionedStops(c: Child)
    requires Closing(c) && c.anchor == Sessioned
    ensures Plannable(c)
  {
    hide Plannable;
    StepInv(c, InSession(WriteIdentity), At(0));
    IdentifiedStops(Apply(c, InSession(WriteIdentity), At(0)));
    PlanFirst(c, InSession(WriteIdentity));
  }

  lemma {:induction false} NewbornStops(c: Child)
    requires Closing(c) && c.anchor == Newborn
    ensures Plannable(c)
  {
    hide Plannable;
    StepInv(c, InSession(EnterSession), At(0));
    SessionedStops(Apply(c, InSession(EnterSession), At(0)));
    PlanFirst(c, InSession(EnterSession));
  }

  /** Retired before any preparation. */
  lemma {:induction false} UnpreparedStops(c: Child)
    requires Closing(c) && !c.preparationMay && c.cancelAt.Some?
    ensures Plannable(c)
  {
    hide Plannable;
    if c.stage == Reserved {
      PlanDone(Apply(c, ByGuardian(StopReserved), At(0)));
      PlanFirst(c, ByGuardian(StopReserved));
    } else if HelperLive(c) {
      var d := Apply(c, ByHelper(HelperExit), At(0));
      PlanDone(Apply(d, ByGuardian(StopNeverPrepared), At(0)));
      PlanFirst(d, ByGuardian(StopNeverPrepared));
      PlanFirst(c, ByHelper(HelperExit));
    } else {
      PlanDone(Apply(c, ByGuardian(StopNeverPrepared), At(0)));
      PlanFirst(c, ByGuardian(StopNeverPrepared));
    }
  }

  lemma {:induction false} RetiredStops(c: Child)
    requires Closing(c) && c.cancelAt.Some? && !Unidentified(c)
    ensures Plannable(c)
  {
    hide Plannable;
    if !c.preparationMay { UnpreparedStops(c); }
    else if c.identityReceipt { IdentifiedStops(c); }
    else if c.anchor == Newborn { NewbornStops(c); }
    else if c.anchor == Sessioned { SessionedStops(c); }
    else {
      assert c.helper == Authorized;
      StepInv(c, ByHelper(Fork), At(0));
      NewbornStops(Apply(c, ByHelper(Fork), At(0)));
      PlanFirst(c, ByHelper(Fork));
    }
  }

  lemma {:induction false} UnretiredStops(c: Child)
    requires Inv(c) && !c.deciding && !c.ordinaryStop && !Unidentified(c)
    ensures Plannable(c)
  {
    hide Plannable;
    var d := Apply(c, ByGuardian(LatchRoot(0)), At(0));
    StepInv(c, ByGuardian(LatchRoot(0)), At(0));
    StepInv(d, ByGuardian(Retire(false)), At(0));
    RetiredStops(Apply(d, ByGuardian(Retire(false)), At(0)));
    PlanFirst(d, ByGuardian(Retire(false)));
    PlanFirst(c, ByGuardian(LatchRoot(0)));
  }

  /** Every child that is not unidentified has a plan its guardian can follow to the end. */
  lemma {:induction false} EveryOtherPlannable(c: Child)
    requires Inv(c) && !Unidentified(c)
    ensures Plannable(c)
  {
    hide Plannable;
    if c.deciding {
      StepInv(c, ByGuardian(WriteLaunch), At(0));
      UnretiredStops(Apply(c, ByGuardian(WriteLaunch), At(0)));
      PlanFirst(c, ByGuardian(WriteLaunch));
    } else if !c.ordinaryStop {
      UnretiredStops(c);
    } else if HelperLive(c) {
      PlanDone(Apply(c, ByHelper(HelperExit), At(0)));
      PlanFirst(c, ByHelper(HelperExit));
    } else { PlanDone(c); }
  }

  lemma {:induction false} PlanRuns(c: Child, steps: seq<Step>)
    requires Planned(c, steps)
    ensures Stoppable(c)
    decreases |steps|
  {
    hide Enabled, Apply;
    if steps == [] { NoEvents(c); }
    else {
      var d := Apply(c, steps[0], At(0));
      PlanRuns(d, steps[1..]);
      var run :| Valid(d, run) && Final(d, run).ordinaryStop;
      assert Enabled(c, steps[0], At(0)) && Consistent(c, At(0));
      Before(c, Event(steps[0], At(0)), run);
    }
  }

  /** Exactly the unidentified children can never be stopped: from every other state some run of
      guardian, helper and session leads to the stopped mark. */
  lemma {:induction false} StoppableUnlessUnidentified(c: Child)
    requires Inv(c)
    ensures Stoppable(c) <==> !Unidentified(c)
  {
    if Unidentified(c) {
      forall run | Valid(c, run) ensures !Final(c, run).ordinaryStop { UnidentifiedNeverStops(c, run); }
    } else {
      EveryOtherPlannable(c);
      var steps :| Planned(c, steps);
      PlanRuns(c, steps);
    }
  }

  // ----- What recovery finds once everything has ended

  /** The step needs no guardian, and does the same always. */
  ghost predicate Loose(c: Child, s: Step) {
    forall x: Context :: Enabled(c, s, x) && Apply(c, s, x) == Apply(c, s, At(0))
  }

  /** Nothing of the child runs or can start, and recovery would mark it stopped. */
  predicate Wound(c: Child) {
    SessionAbsent(c) && !InRootSession(c) && c.helper != Authorized && Recovered(c).ordinaryStop
  }

  ghost predicate WindsBy(c: Child, steps: seq<Step>)
    decreases |steps|
  {
    if steps == [] then Wound(c)
    else Loose(c, steps[0]) && steps[0] != GuardianDies && WindsBy(Apply(c, steps[0], At(0)), steps[1..])
  }

  ghost predicate Winds(c: Child) { exists steps :: WindsBy(c, steps) }

  lemma {:induction false} WindFirst(c: Child, s: Step)
    requires Loose(c, s) && s != GuardianDies && Winds(Apply(c, s, At(0)))
    ensures Winds(c)
  {
    hide Loose, Apply;
    var steps :| WindsBy(Apply(c, s, At(0)), steps);
    var longer := [s] + steps;
    assert longer[1..] == steps;
    assert WindsBy(c, longer);
  }

  lemma {:induction false} WindDone(c: Child)
    requires Wound(c)
    ensures Winds(c)
  {
    assert WindsBy(c, []);
  }

  lemma {:induction false} WindAnchor(c: Child)
    requires Inv(c) && !c.deciding && !HelperLive(c) && !c.workers && (c.preparationMay ==> c.identityReceipt)
    ensures Winds(c)
  {
    hide Winds;
    if !SessionAbsent(c) {
      StepInv(c, InSession(AnchorDies), At(0));
      WindDone(Apply(c, InSession(AnchorDies), At(0)));
      WindFirst(c, InSession(AnchorDies));
    } else { WindDone(c); }
  }

  lemma {:induction false} WindWorkers(c: Child)
    requires Inv(c) && !c.deciding && !HelperLive(c) && (c.preparationMay ==> c.identityReceipt)
    ensures Winds(c)
  {
    hide Winds;
    if c.workers {
      StepInv(c, InSession(WorkersEnd), At(0));
      WindAnchor(Apply(c, InSession(WorkersEnd), At(0)));
      WindFirst(c, InSession(WorkersEnd));
    } else { WindAnchor(c); }
  }

  lemma {:induction false} WindHelper(c: Child)
    requires Inv(c) && !c.deciding && (c.preparationMay ==> c.identityReceipt)
    ensures Winds(c)
  {
    hide Winds;
    if HelperLive(c) {
      StepInv(c, ByHelper(HelperExit), At(0));
      WindWorkers(Apply(c, ByHelper(HelperExit), At(0)));
      WindFirst(c, ByHelper(HelperExit));
    } else { WindWorkers(c); }
  }

  lemma {:induction false} WindSessioned(c: Child)
    requires Inv(c) && !c.deciding && c.anchor == Sessioned
    ensures Winds(c)
  {
    hide Winds;
    StepInv(c, InSession(WriteIdentity), At(0));
    WindHelper(Apply(c, InSession(WriteIdentity), At(0)));
    WindFirst(c, InSession(WriteIdentity));
  }

  lemma {:induction false} WindNewborn(c: Child)
    requires Inv(c) && !c.deciding && c.anchor == Newborn
    ensures Winds(c)
  {
    hide Winds;
    StepInv(c, InSession(EnterSession), At(0));
    WindSessioned(Apply(c, InSession(EnterSession), At(0)));
    WindFirst(c, InSession(EnterSession));
  }

  /** Whatever its processes were doing, an identified child winds down without its guardian. */
  lemma {:induction false} EveryOtherWinds(c: Child)
    requires Inv(c) && !c.deciding && !Unidentified(c)
    ensures Winds(c)
  {
    hide Winds;
    if c.preparationMay ==> c.identityReceipt { WindHelper(c); }
    else if c.anchor == Newborn { WindNewborn(c); }
    else if c.anchor == Sessioned { WindSessioned(c); }
    else {
      assert c.helper == Authorized;
      StepInv(c, ByHelper(Fork), At(0));
      WindNewborn(Apply(c, ByHelper(Fork), At(0)));
      WindFirst(c, ByHelper(Fork));
    }
  }

  lemma {:induction false} StartsKept(c: Child, run: seq<Event>)
    requires Inv(c) && Valid(c, run)
    ensures c.starts <= Final(c, run).starts && Inv(Final(c, run))
    decreases |run|
  {
    if run != [] {
      StepInv(c, run[0].step, run[0].context);
      StartsKept(Apply(c, run[0].step, run[0].context), run[1..]);
    }
  }

  /** A child that is reserved, prepared, launched once, and then stopped. */
  lemma {:induction false} FinishedReachable() returns (run: seq<Event>)
    ensures Valid(Reserve(10), run) && Final(Reserve(10), run).ordinaryStop && Final(Reserve(10), run).starts == 1
  {
    hide Valid, Final;
    var first := LaunchedRun();
    RunInv(Reserve(10), first);
    StoppableUnlessUnidentified(STARTED);
    var second :| Valid(STARTED, second) && Final(STARTED, second).ordinaryStop;
    StartsKept(STARTED, second);
    Joined(Reserve(10), first, second);
    run := first + second;
  }

  lemma {:induction false} WaitKept(c: Child, run: seq<Event>)
    requires Inv(c) && c.waitCompleted && Valid(c, run)
    ensures Final(c, run).waitCompleted && Inv(Final(c, run))
    decreases |run|
  {
    hide Apply, Enabled, Inv;
    if run != [] {
      StepInv(c, run[0].step, run[0].context);
      WaitKept(Apply(c, run[0].step, run[0].context), run[1..]);
    }
  }

  /** What the helper's wait settles for good: the anchor is gone, and the guardian never takes the child
      for an orphan. */
  lemma {:induction false} WaitedIsNoOrphan(c: Child, x: Context, run: seq<Event>, y: Context)
    requires Inv(c) && Enabled(c, ByHelper(ReapAnchor), x) && Consistent(c, x)
    requires Valid(Apply(c, ByHelper(ReapAnchor), x), run)
    ensures var d := Final(Apply(c, ByHelper(ReapAnchor), x), run);
            d.waitCompleted && d.anchor == Gone && !Enabled(d, ByGuardian(LatchOrphan), y)
  {
    StepInv(c, ByHelper(ReapAnchor), x);
    WaitKept(Apply(c, ByHelper(ReapAnchor), x), run);
  }

  /** A retirement closes the channel for good, and is recorded as unknown exactly if the guardian lost
      sight of the child; a child lost once is never launched. */
  lemma {:induction false} RetirementRecorded(c: Child, lost: bool, x: Context)
    requires Inv(c) && Enabled(c, ByGuardian(Retire(lost)), x)
    ensures var d := Apply(c, ByGuardian(Retire(lost)), x);
            && d.retired && !d.pin && d.stage == (if lost then Unknown else c.stage)
            && !GuardianEnabled(d, DecideLaunch, x) && !GuardianEnabled(d, CreatePin, x)
  {}
}

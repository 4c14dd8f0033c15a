/**
 Acceptance of a prepared upgrade (scripts/lib/template_upgrade.py:562-645): `accept`,
 `finish_sealing` and `abort` as one machine over the attempt record, the candidate ref, the
 control file and its index entry, with a crash possible between any two writes.

 Commits are immutable, so what a commit contains enters as functions of its identity.  One
 command runs at a time; other actors may edit the candidate at any moment (`Edit`).
 */
module Upgrade {
  import opened Common

  type Commit = int

  type Bytes = string

  /** Immutable objects: content outside the control file, the control file, and whether the
      commit's custody record verifies (`accepted`). */
  datatype Objects = Objects(content: Commit -> int, control: Commit -> Option<Bytes>, verifies: Commit -> bool)

  datatype Attempt =
    | Incomplete | Prepared(conflicted: bool)
    | Sealing(resolved: Commit, seal: Commit) | Accepted(resolved: Commit, seal: Commit)
    | Aborted

  /** `Odd` is a link or anything else that is not a regular file. */
  datatype Control = Missing | Regular(bytes: Bytes) | Odd

  /** The candidate repository as other actors can see and edit it. */
  datatype Candidate = Candidate(
    ref: Commit, onBranch: bool, work: int, index: int, control: Control, indexControl: Option<Bytes>, consumer: Commit)

  /** Where the running command is; a crash forgets it. */
  datatype Phase =
    | Idle
    | Checking(resolved: Commit, seal: Commit)
    | Swapping(resolved: Commit, seal: Commit, head: Commit)
    | Writing(resolved: Commit, seal: Commit)
    | Indexing(resolved: Commit, seal: Commit)
    | Saving(resolved: Commit, seal: Commit)

  datatype State = State(attempt: Attempt, repo: Candidate, phase: Phase)

  /** The attempt's fixed inputs. */
  datatype Inputs = Inputs(objects: Objects, consumerCommit: Commit)

  function AsControl(b: Option<Bytes>): Control { if b.None? then Missing else Regular(b.value) }

  /** `git status` is empty and HEAD is the branch: worktree and index are the commit. */
  predicate Clean(n: Inputs, r: Candidate) {
    && r.onBranch && r.work == n.objects.content(r.ref) && r.index == n.objects.content(r.ref)
    && r.control == AsControl(n.objects.control(r.ref)) && r.indexControl == n.objects.control(r.ref)
  }

  /** A seal adds exactly the control record to the resolved commit. */
  predicate SealOf(n: Inputs, resolved: Commit, seal: Commit) {
    n.objects.content(seal) == n.objects.content(resolved) && n.objects.control(seal).Some? && seal != resolved
  }

  /** The checks of `finish_sealing` in front of its first write. */
  predicate Sealable(n: Inputs, r: Candidate, resolved: Commit, seal: Commit) {
    && (r.ref == resolved || r.ref == seal) && r.onBranch && n.objects.verifies(seal)
    && r.work == n.objects.content(resolved) && r.index == n.objects.content(resolved)
    && (r.control == AsControl(n.objects.control(resolved)) || r.control == AsControl(n.objects.control(seal)))
  }

  datatype Step =
    | BeginAccept(seal: Commit, evidence: bool)   // `evidence`: all further admission checks pass
    | Continue
    | Crash
    | Abort
    | Edit(repo: Candidate)

  /** One step of the running command; `None` is a refusal, which ends the command. */
  function Progress(n: Inputs, s: State): Option<State> {
    match s.phase
    case Idle => None
    case Checking(resolved, seal) =>
      if Sealable(n, s.repo, resolved, seal) then Some(s.(phase := Swapping(resolved, seal, s.repo.ref))) else None
    case Swapping(resolved, seal, head) =>
      if head != resolved then Some(s.(phase := Writing(resolved, seal)))
      else if s.repo.consumer != n.consumerCommit || s.repo.ref != resolved then None
      else Some(s.(repo := s.repo.(ref := seal), phase := Writing(resolved, seal)))
    case Writing(resolved, seal) =>
      Some(s.(repo := s.repo.(control := AsControl(n.objects.control(seal))), phase := Indexing(resolved, seal)))
    case Indexing(resolved, seal) =>
      Some(s.(repo := s.repo.(indexControl := n.objects.control(seal)), phase := Saving(resolved, seal)))
    case Saving(resolved, seal) =>
      Some(s.(attempt := Accepted(resolved, seal), phase := Idle))
  }

  /** `accept` up to `finish_sealing`: where the command continues, or the recorded seal. */
  function Begun(n: Inputs, s: State, seal: Commit, evidence: bool): State {
    match s.attempt
    case Sealing(resolved, recorded) => s.(phase := Checking(resolved, recorded))
    case Prepared(conflicted) =>
      if evidence && Clean(n, s.repo) && s.repo.consumer == n.consumerCommit && SealOf(n, s.repo.ref, seal)
         && !(conflicted && s.repo.ref == n.consumerCommit)
      then s.(attempt := Sealing(s.repo.ref, seal), phase := Checking(s.repo.ref, seal))
      else s
    case _ => s
  }

  predicate Enabled(s: State, st: Step) {
    match st
    case BeginAccept(_, _) => s.phase == Idle
    case Abort => s.phase == Idle
    case Continue => s.phase != Idle
    case Crash => true
    case Edit(_) => true
  }

  function Apply(n: Inputs, s: State, st: Step): State {
    match st
    case BeginAccept(seal, evidence) => Begun(n, s, seal, evidence)
    case Continue => var p := Progress(n, s); if p.Some? then p.value else s.(phase := Idle)
    case Crash => s.(phase := Idle)
    case Abort => if s.attempt.Accepted? || s.attempt.Sealing? then s else s.(attempt := Aborted)
    case Edit(r) => s.(repo := r)
  }

  predicate Valid(n: Inputs, s: State, run: seq<Step>)
    decreases |run|
  {
    run != [] ==> Enabled(s, run[0]) && Valid(n, Apply(n, s, run[0]), run[1..])
  }

  function Final(n: Inputs, s: State, run: seq<Step>): State
    decreases |run|
  {
    if run == [] then s else Final(n, Apply(n, s, run[0]), run[1..])
  }

  // ----- Safety under arbitrary outside edits

  /** The commits the running command works with. */
  predicate InCommand(p: Phase, resolved: Commit, seal: Commit) {
    p.Idle? || (p.resolved == resolved && p.seal == seal)
  }

  /** A command past its start always works on the recorded seal. */
  predicate Recorded(s: State) {
    s.phase.Idle? || (s.attempt.Sealing? && InCommand(s.phase, s.attempt.resolved, s.attempt.seal))
  }

  lemma RecordedStep(n: Inputs, s: State, st: Step)
    requires Recorded(s) && Enabled(s, st)
    ensures Recorded(Apply(n, s, st))
  {}

  /** The tool moves the ref only by its one compare-and-swap: from the recorded resolved commit
      to the recorded seal, with the consumer unmoved; every other tool step leaves it. */
  lemma RefMovesOnlyToSeal(n: Inputs, s: State, st: Step)
    requires Recorded(s) && Enabled(s, st) && !st.Edit? && Apply(n, s, st).repo.ref != s.repo.ref
    ensures s.attempt.Sealing? && s.repo.ref == s.attempt.resolved && Apply(n, s, st).repo.ref == s.attempt.seal
    ensures s.repo.consumer == n.consumerCommit
  {}

  predicate Terminal(a: Attempt) { a.Accepted? || a.Aborted? }

  /** `accepted` and `aborted` are absorbing (hence exclusive), and a recorded seal is never
      replaced by another one, in every run with crashes and outside edits. */
  lemma {:induction false} TerminalIsAbsorbing(n: Inputs, s: State, run: seq<Step>)
    requires Recorded(s) && Valid(n, s, run)
    ensures Terminal(s.attempt) ==> Final(n, s, run).attempt == s.attempt
    ensures s.attempt.Sealing? ==>
              var a := Final(n, s, run).attempt;
              a == s.attempt || a == Accepted(s.attempt.resolved, s.attempt.seal)
    decreases |run|
  {
    if run != [] {
      RecordedStep(n, s, run[0]);
      TerminalIsAbsorbing(n, Apply(n, s, run[0]), run[1..]);
    }
  }

  // ----- Recovery without outside edits

  /** A recorded seal whose candidate nobody else has touched, at any point of the command. */
  predicate Undisturbed(n: Inputs, s: State) {
    && s.attempt.Sealing? && Recorded(s) && SealOf(n, s.attempt.resolved, s.attempt.seal)
    && Sealable(n, s.repo, s.attempt.resolved, s.attempt.seal)
    && (s.repo.ref == s.attempt.resolved ==> s.repo.consumer == n.consumerCommit)
    && (s.phase.Swapping? ==> s.phase.head == s.repo.ref)
    && (s.phase.Writing? || s.phase.Indexing? || s.phase.Saving? ==> s.repo.ref == s.attempt.seal)
    && (s.phase.Indexing? || s.phase.Saving? ==> s.repo.control == AsControl(n.objects.control(s.attempt.seal)))
    && (s.phase.Saving? ==> s.repo.indexControl == n.objects.control(s.attempt.seal))
  }

  /** Accepted, with ref, control file and index entry all at the seal. */
  predicate Settled(n: Inputs, s: State, resolved: Commit, seal: Commit) {
    && s.attempt == Accepted(resolved, seal) && s.phase == Idle && s.repo.ref == seal
    && s.repo.control == AsControl(n.objects.control(seal)) && s.repo.indexControl == n.objects.control(seal)
    && s.repo.work == n.objects.content(seal) && s.repo.index == n.objects.content(seal)
  }

  predicate Quiet(run: seq<Step>) { forall i | 0 <= i < |run| :: !run[i].Edit? }

  lemma UndisturbedStep(n: Inputs, s: State, st: Step)
    requires Undisturbed(n, s) && Enabled(s, st) && !st.Edit?
    ensures var t := Apply(n, s, st);
            || (Undisturbed(n, t) && t.attempt == s.attempt)
            || Settled(n, t, s.attempt.resolved, s.attempt.seal)
  {}

  lemma {:induction false} QuietRun(n: Inputs, s: State, run: seq<Step>, resolved: Commit, seal: Commit)
    requires Valid(n, s, run) && Quiet(run)
    requires (Undisturbed(n, s) && s.attempt == Sealing(resolved, seal)) || Settled(n, s, resolved, seal)
    ensures var t := Final(n, s, run);
            (Undisturbed(n, t) && t.attempt == Sealing(resolved, seal)) || Settled(n, t, resolved, seal)
    decreases |run|
  {
    if run != [] {
      if Undisturbed(n, s) { UndisturbedStep(n, s, run[0]); }
      QuietRun(n, Apply(n, s, run[0]), run[1..], resolved, seal);
    }
  }

  /** A fresh `accept` that runs to its end. */
  function Rerun(n: Inputs, s: State, seal: Commit, evidence: bool): State {
    var s0 := Apply(n, s.(phase := Idle), BeginAccept(seal, evidence));
    var s1 := Apply(n, s0, Continue);
    var s2 := Apply(n, s1, Continue);
    var s3 := Apply(n, s2, Continue);
    var s4 := Apply(n, s3, Continue);
    Apply(n, s4, Continue)
  }

  lemma {:induction false} RerunSettles(
      n: Inputs, s: State, resolved: Commit, seal: Commit, other: Commit, evidence: bool)
    requires (Undisturbed(n, s) && s.attempt == Sealing(resolved, seal)) || Settled(n, s, resolved, seal)
    ensures Settled(n, Rerun(n, s, other, evidence), resolved, seal)
  {}

  /** Acceptance recovery: an admitted acceptance, crashed at any step and rerun and crashed any
      number of times, ends with the next complete rerun in `accepted`, with ref, control file
      and index entry at the one recorded seal. */
  lemma {:induction false} RecoveryCompletes(
      n: Inputs, s: State, seal: Commit, run: seq<Step>, other: Commit, evidence: bool)
    requires s.phase == Idle && s.attempt.Prepared? && n.objects.verifies(seal)
    requires Begun(n, s, seal, true).attempt.Sealing?
    requires Valid(n, Begun(n, s, seal, true), run) && Quiet(run)
    ensures Settled(n, Rerun(n, Final(n, Begun(n, s, seal, true), run), other, evidence), s.repo.ref, seal)
  {
    var b := Begun(n, s, seal, true);
    QuietRun(n, b, run, s.repo.ref, seal);
    RerunSettles(n, Final(n, b, run), s.repo.ref, seal, other, evidence);
  }

  // ----- Outside edits

  /** The rest of the command from where it is; at rest, a fresh `accept`. */
  function Rest(n: Inputs, s: State, other: Commit, evidence: bool): State {
    if s.phase.Idle? then Rerun(n, s, other, evidence)
    else
      var s1 := Apply(n, s, Continue);
      var s2 := Apply(n, s1, Continue);
      var s3 := Apply(n, s2, Continue);
      var s4 := Apply(n, s3, Continue);
      Apply(n, s4, Continue)
  }

  /** When the rest of the command refuses a candidate it finds: by all checks before they were made,
      by the compare-and-swap alone once they were, and never after it. */
  predicate Refuses(n: Inputs, p: Phase, resolved: Commit, seal: Commit, r: Candidate) {
    match p
    case Swapping(_, _, head) => head == resolved && (r.consumer != n.consumerCommit || r.ref != resolved)
    case Writing(_, _) => false
    case Indexing(_, _) => false
    case Saving(_, _) => false
    case _ => !Sealable(n, r, resolved, seal) || (r.ref == resolved && r.consumer != n.consumerCommit)
  }

  /** The compare-and-swap is still to come. */
  predicate Swaps(p: Phase, resolved: Commit) {
    p.Idle? || p.Checking? || (p.Swapping? && p.head == resolved)
  }

  predicate WritesControl(p: Phase) { p.Idle? || p.Checking? || p.Swapping? || p.Writing? }

  predicate WritesIndex(p: Phase) { WritesControl(p) || p.Indexing? }

  /** What the rest of the command makes of a candidate in any condition, at any phase: a refusal
      that writes nothing, or acceptance that writes exactly the fields whose writes were to come. */
  lemma {:induction false} RestVerdict(n: Inputs, s: State, other: Commit, evidence: bool)
    requires s.attempt.Sealing? && Recorded(s)
    ensures var resolved, seal := s.attempt.resolved, s.attempt.seal;
            Rest(n, s, other, evidence) ==
            if Refuses(n, s.phase, resolved, seal, s.repo) then s.(phase := Idle)
            else State(
              Accepted(resolved, seal),
              s.repo.(
                ref := if Swaps(s.phase, resolved) && s.repo.ref == resolved then seal else s.repo.ref,
                control := if WritesControl(s.phase) then AsControl(n.objects.control(seal)) else s.repo.control,
                indexControl := if WritesIndex(s.phase) then n.objects.control(seal) else s.repo.indexControl),
              Idle)
  {
    match s.phase
    case Idle =>
    case Checking(_, _) =>
    case Swapping(_, _, _) =>
    case Writing(_, _) =>
    case Indexing(_, _) =>
    case Saving(_, _) =>
  }

  /** Some field that somebody else changed from `before` to `edited` ends up with another value. */
  predicate Overwritten(before: Candidate, edited: Candidate, after: Candidate) {
    || (edited.ref != before.ref && after.ref != edited.ref)
    || (edited.onBranch != before.onBranch && after.onBranch != edited.onBranch)
    || (edited.work != before.work && after.work != edited.work)
    || (edited.index != before.index && after.index != edited.index)
    || (edited.control != before.control && after.control != edited.control)
    || (edited.indexControl != before.indexControl && after.indexControl != edited.indexControl)
    || (edited.consumer != before.consumer && after.consumer != edited.consumer)
  }

  /** Exactly when an outside edit, at rest or at any phase of an undisturbed command and to any
      fields, is overwritten: it is not refused, and it changes the control file or its index
      entry, to something other than the seal's, before their write, or moves the ref back from
      the seal to the resolved commit before the check. */
  lemma {:induction false} EditOverwritten(n: Inputs, s: State, edited: Candidate, other: Commit, evidence: bool)
    requires Undisturbed(n, s)
    ensures var resolved, seal := s.attempt.resolved, s.attempt.seal;
            Overwritten(s.repo, edited, Rest(n, s.(repo := edited), other, evidence).repo) <==>
            && !Refuses(n, s.phase, resolved, seal, edited)
            && (|| (WritesControl(s.phase) && edited.control != s.repo.control
                    && edited.control != AsControl(n.objects.control(seal)))
                || (WritesIndex(s.phase) && edited.indexControl != s.repo.indexControl
                    && edited.indexControl != n.objects.control(seal))
                || (Swaps(s.phase, resolved) && edited.ref == resolved != s.repo.ref))
  {
    RestVerdict(n, s.(repo := edited), other, evidence);
  }

  /** Exactly when the attempt is recorded as accepted although the ref is not at the seal: the ref
      was moved away behind the compare-and-swap. */
  lemma {:induction false} AcceptedElsewhere(n: Inputs, s: State, edited: Candidate, other: Commit, evidence: bool)
    requires Undisturbed(n, s)
    ensures var t := Rest(n, s.(repo := edited), other, evidence);
            (t.attempt.Accepted? && t.repo.ref != s.attempt.seal) <==>
            (!Swaps(s.phase, s.attempt.resolved) && !s.phase.Idle? && edited.ref != s.attempt.seal)
  {
    RestVerdict(n, s.(repo := edited), other, evidence);
  }

  /** A rerun of a recorded seal on a candidate in any condition: it settles exactly if branch, ref,
      content and control file are as the interrupted command itself could have left them and the
      consumer is unmoved or the ref already is the seal; otherwise nothing is written.  The staged
      control entry is not looked at. */
  lemma {:induction false} RerunVerdict(n: Inputs, s: State, other: Commit, evidence: bool)
    requires s.attempt.Sealing? && SealOf(n, s.attempt.resolved, s.attempt.seal)
    ensures var t := Rerun(n, s, other, evidence);
            if Sealable(n, s.repo, s.attempt.resolved, s.attempt.seal)
               && (s.repo.ref == s.attempt.resolved ==> s.repo.consumer == n.consumerCommit)
            then Settled(n, t, s.attempt.resolved, s.attempt.seal)
            else t.repo == s.repo && t.attempt == s.attempt
  {}

  /** A control record staged between a crash and the rerun is lost without a refusal. */
  lemma {:induction false} StagedControlLost(n: Inputs, s: State, staged: Option<Bytes>, other: Commit, evidence: bool)
    requires Undisturbed(n, s) && s.phase.Idle? && staged != n.objects.control(s.attempt.seal)
    ensures var t := Rerun(n, s.(repo := s.repo.(indexControl := staged)), other, evidence);
            Settled(n, t, s.attempt.resolved, s.attempt.seal) && t.repo.indexControl != staged
  {
    RestVerdict(n, s.(repo := s.repo.(indexControl := staged)), other, evidence);
  }

  /** A control file edited between the checks and its write, before or after the swap, is lost. */
  lemma {:induction false} LateControlLost(n: Inputs, s: State, edited: Control)
    requires Undisturbed(n, s) && (s.phase.Swapping? || s.phase.Writing?)
    requires edited != AsControl(n.objects.control(s.attempt.seal))
    ensures var t := Rest(n, s.(repo := s.repo.(control := edited)), 0, false);
            Settled(n, t, s.attempt.resolved, s.attempt.seal) && t.repo.control != edited
  {
    RestVerdict(n, s.(repo := s.repo.(control := edited)), 0, false);
  }

  /** A ref moved away behind the swap stays where it was moved, yet the attempt is accepted. */
  lemma {:induction false} MovedRefAccepted(n: Inputs, s: State, elsewhere: Commit)
    requires Undisturbed(n, s) && s.phase.Writing? && elsewhere != s.attempt.seal
    ensures var t := Rest(n, s.(repo := s.repo.(ref := elsewhere)), 0, false);
            t.attempt == Accepted(s.attempt.resolved, s.attempt.seal) && t.repo.ref == elsewhere
  {
    RestVerdict(n, s.(repo := s.repo.(ref := elsewhere)), 0, false);
  }

  /** A ref moved by somebody else between the check and the swap is never overwritten. */
  lemma SwapRespectsEdits(n: Inputs, s: State, edited: Candidate)
    requires s.phase.Swapping? && s.phase.head == s.phase.resolved && edited.ref != s.phase.resolved
    ensures Apply(n, Apply(n, s, Edit(edited)), Continue) == s.(repo := edited, phase := Idle)
  {}

  /** The phase behind `k` steps of a fresh command. */
  predicate Reached(p: Phase, k: nat) {
    match k
    case 0 => p.Checking?
    case 1 => p.Swapping?
    case 2 => p.Writing?
    case 3 => p.Indexing?
    case _ => p.Saving?
  }

  function Continues(k: nat): seq<Step> { if k == 0 then [] else [Continue] + Continues(k - 1) }

  lemma {:induction false} PhasesFrom(n: Inputs, s: State, from: nat, k: nat)
    requires Undisturbed(n, s) && Reached(s.phase, from) && from + k <= 4
    ensures Valid(n, s, Continues(k)) && Quiet(Continues(k)) && Undisturbed(n, Final(n, s, Continues(k)))
    ensures Reached(Final(n, s, Continues(k)).phase, from + k)
    decreases k
  {
    if k > 0 {
      var run := Continues(k);
      assert run[0] == Continue && run[1..] == Continues(k - 1);
      UndisturbedStep(n, s, Continue);
      PhasesFrom(n, Apply(n, s, Continue), from + 1, k - 1);
    }
  }

  /** An undisturbed command, crashed at rest or fresh, passes through every phase. */
  lemma {:induction false} EveryPhaseReachable(n: Inputs, s: State, k: nat)
    requires Undisturbed(n, s) && s.phase == Idle && k <= 4
    ensures var run := [BeginAccept(0, false)] + Continues(k);
            Valid(n, s, run) && Quiet(run) && Undisturbed(n, Final(n, s, run)) && Reached(Final(n, s, run).phase, k)
  {
    var run := [BeginAccept(0, false)] + Continues(k);
    var s0 := Apply(n, s, BeginAccept(0, false));
    assert run[1..] == Continues(k);
    PhasesFrom(n, s0, 0, k);
  }

  // ----- The commands, run without interruption

  /** The attempt record and the candidate, updated in place. */
  class Attempted {
    var attempt: Attempt
    var ref: Commit
    var onBranch: bool
    var work: int
    var index: int
    var control: Control
    var indexControl: Option<Bytes>
    var consumer: Commit

    ghost function Value(): State
      reads this
    {
      State(attempt, Candidate(ref, onBranch, work, index, control, indexControl, consumer), Idle)
    }

    method FinishSealing(n: Inputs)
      requires attempt.Sealing?
      modifies this
      ensures Value() == Rerun(n, old(Value()), 0, false)
    {
      var resolved, seal, head := attempt.resolved, attempt.seal, ref;
      if (head != resolved && head != seal) || !onBranch || !n.objects.verifies(seal) { return; }
      if work != n.objects.content(resolved) || index != n.objects.content(resolved) { return; }
      var before, after := n.objects.control(resolved), n.objects.control(seal);
      if control.Odd? || (control != AsControl(before) && control != AsControl(after)) { return; }
      if head == resolved {
        if consumer != n.consumerCommit { return; }
        ref := seal;
      }
      control := AsControl(after);
      indexControl := after;
      attempt := Accepted(resolved, seal);
    }

    /** `candidate` is the commit `accept` would create; `evidence` says whether the checks outside
        this model pass. */
    method Accept(n: Inputs, candidate: Commit, evidence: bool)
      modifies this
      ensures Value() == Rerun(n, old(Value()), candidate, evidence)
    {
      if attempt.Prepared? {
        if !evidence || consumer != n.consumerCommit || !onBranch { return; }
        if work != n.objects.content(ref) || index != n.objects.content(ref) { return; }
        if control != AsControl(n.objects.control(ref)) || indexControl != n.objects.control(ref) { return; }
        if attempt.conflicted && ref == n.consumerCommit { return; }
        if !SealOf(n, ref, candidate) { return; }
        attempt := Sealing(ref, candidate);
      } else if !attempt.Sealing? { return; }
      FinishSealing(n);
    }

    method Abort(n: Inputs)
      modifies this
      ensures Value() == Apply(n, old(Value()), Step.Abort)
    {
      if !attempt.Accepted? && !attempt.Sealing? { attempt := Aborted; }
    }
  }

  // ----- What a first acceptance needs

  /** The exact verdict of `accept` on a prepared attempt: it is accepted if and only if all evidence
      passes, the candidate is on its branch with worktree, index and control file as committed, the
      consumer has not moved, a conflicted attempt has a resolution of its own, and the seal adds
      just the control record and verifies. */
  lemma {:induction false} FirstAcceptance(n: Inputs, s: State, seal: Commit, evidence: bool)
    requires s.phase == Idle && s.attempt.Prepared?
    ensures var t, r := Rerun(n, s, seal, evidence), s.repo;
            t.attempt.Accepted? <==>
            && evidence && r.onBranch && r.consumer == n.consumerCommit
            && r.work == n.objects.content(r.ref) == r.index
            && r.control == AsControl(n.objects.control(r.ref)) && r.indexControl == n.objects.control(r.ref)
            && (s.attempt.conflicted ==> r.ref != n.consumerCommit)
            && n.objects.content(seal) == n.objects.content(r.ref) && n.objects.control(seal).Some? && seal != r.ref
            && n.objects.verifies(seal)
    ensures var t := Rerun(n, s, seal, evidence); t.attempt.Accepted? ==> Settled(n, t, s.repo.ref, seal)
    ensures var t := Rerun(n, s, seal, evidence); !t.attempt.Accepted? ==> t.repo == s.repo
  {}

  /** `abort` ends exactly the attempts that are neither accepted nor sealing, and touches nothing else. */
  lemma AbortVerdict(n: Inputs, s: State)
    requires s.phase == Idle
    ensures var t := Apply(n, s, Abort);
            && t.repo == s.repo
            && (t.attempt == Aborted <==> s.attempt.Incomplete? || s.attempt.Prepared? || s.attempt.Aborted?)
            && (t.attempt != Aborted ==> t == s)
  {}
}

/**
 Campaign time accounting (scripts/lib/postgres_sustained_budget.py:30-211, 297-319).

 All times are integer milliseconds.  `Observed` and `Stepped` are the specification of
 `observe` and `transition`; the class `Campaign` updates the state dictionary step by step
 and is proved against them.
 */
module Budget {
  import opened Common

  const LIMIT_MS := 16_200_000
  const CLEANUP_MS := 1_200_000
  const REPLACEMENT_MS := 840_000
  const STOP_GUARD_MS := 20_000
  const ABSENCE_MS := 1_791_319_956_688
  const HOLD_START_MS := 1_791_319_956_723
  const ORIGINAL_START_MS := 1_791_319_908_641

  datatype Name =
    | Prepare(pressured: bool) | Qualify(pressured: bool)
    | Calibrate(index: nat) | Cell(index: nat) | Reset(index: nat) | Composed

  datatype Stage = Stage(name: Name, maximum: int, hard: int, used: int, complete: bool)

  datatype Active = Active(name: Name, started: int, monotonic: Option<int>)

  datatype State = State(
    deadline: int,
    resumed: int,
    lastObserved: int,
    stages: seq<Stage>,
    active: Option<Active>,
    mainCells: nat,
    replacement: int,
    cleanup: int,
    overheadLimit: int,
    cleanupStarted: Option<int>)

  datatype Fault =
    | ClockBackwards | AccountingOverrun | HardBound | OverheadExceeded | CannotFit | PastDeadline
    | InCleanup | BadConfirmation | IncompleteMatrix | BadStage | NoCustody | NoBudget | BadClock

  datatype Report = Report(remaining: int, overhead: int, required: int)

  // ----- The campaign clock

  datatype Clock = Clock(original: int, deadline: int, excluded: int)

  /** The receipts that justify the one accepted hold. */
  datatype Recovery = Recovery(absence: int, exported: int)

  function CampaignClock(started: int, resumed: int, recovery: Option<Recovery>): Result<Clock, Fault> {
    if !(0 < started <= resumed) then Err(BadClock)
    else if recovery.None? then Ok(Clock(started, started + LIMIT_MS, 0))
    else if started != ORIGINAL_START_MS || resumed < HOLD_START_MS || recovery.value.absence != ABSENCE_MS
            || recovery.value.exported != HOLD_START_MS then Err(BadClock)
    else Ok(Clock(started, started + LIMIT_MS + (resumed - HOLD_START_MS), resumed - HOLD_START_MS))
  }

  /** A hold moves the deadline and nothing else: at any time the time left to the deadline is
      the charged limit minus the charged time, and at resumption exactly the time charged
      before the hold has been charged. */
  lemma ClockCharges(started: int, resumed: int, recovery: Option<Recovery>, now: int)
    requires CampaignClock(started, resumed, recovery).Ok?
    ensures var c := CampaignClock(started, resumed, recovery).value;
            && c.deadline - now == LIMIT_MS - (now - c.original - c.excluded)
            && (recovery.Some? ==> resumed - c.original - c.excluded == 48_082)
  {}

  // ----- Sums over stages

  function Min(a: int, b: int): int { if a < b then a else b }

  function Max(a: int, b: int): int { if a < b then b else a }

  function Elapsed(active: Option<Active>, name: Name, now: int): int {
    if active.Some? && active.value.name == name then now - active.value.started else 0
  }

  function UsedAt(st: Stage, active: Option<Active>, now: int): int { st.used + Elapsed(active, st.name, now) }

  function Spent(stages: seq<Stage>, active: Option<Active>, now: int): int {
    if stages == [] then 0
    else Spent(stages[..|stages| - 1], active, now)
         + Min(UsedAt(stages[|stages| - 1], active, now), stages[|stages| - 1].maximum)
  }

  function Remaining(stages: seq<Stage>, active: Option<Active>, now: int): int {
    if stages == [] then 0
    else Remaining(stages[..|stages| - 1], active, now)
         + (if stages[|stages| - 1].complete then 0
            else Max(stages[|stages| - 1].maximum - UsedAt(stages[|stages| - 1], active, now), 0))
  }

  predicate WithinHard(stages: seq<Stage>, active: Option<Active>, now: int) {
    forall i | 0 <= i < |stages| :: UsedAt(stages[i], active, now) <= stages[i].hard
  }

  function Total(stages: seq<Stage>): int {
    if stages == [] then 0 else Total(stages[..|stages| - 1]) + stages[|stages| - 1].maximum
  }

  function TotalUsed(stages: seq<Stage>): int {
    if stages == [] then 0 else TotalUsed(stages[..|stages| - 1]) + stages[|stages| - 1].used
  }

  /** What a completed stage left unused of its maximum. */
  function Left(st: Stage): int { if st.complete then st.maximum - Min(st.used, st.maximum) else 0 }

  function Unused(stages: seq<Stage>): int {
    if stages == [] then 0 else Unused(stages[..|stages| - 1]) + Left(stages[|stages| - 1])
  }

  // ----- Specification

  function Overhead(s: State, now: int): int {
    now - s.resumed - Spent(s.stages, s.active, now)
    - (if s.cleanupStarted.Some? then now - s.cleanupStarted.value else 0)
  }

  function Required(s: State, now: int): int {
    if s.cleanupStarted.Some? then 0
    else Remaining(s.stages, s.active, now) + s.replacement + s.cleanup + s.overheadLimit - Overhead(s, now)
  }

  function Observed(s: State, now: int): Result<Report, Fault> {
    if now < s.lastObserved || now < s.resumed then Err(ClockBackwards)
    else if Overhead(s, now) < 0 then Err(AccountingOverrun)
    else if !WithinHard(s.stages, s.active, now) then Err(HardBound)
    else if Overhead(s, now) > s.overheadLimit then Err(OverheadExceeded)
    else if now + Required(s, now) > s.deadline then Err(CannotFit)
    else if now > s.deadline then Err(PastDeadline)
    else Ok(Report(Remaining(s.stages, s.active, now), Overhead(s, now), Required(s, now)))
  }

  function Find(stages: seq<Stage>, name: Name): (r: nat)
    ensures r <= |stages| && (r < |stages| ==> stages[r].name == name)
    ensures forall i | 0 <= i < r :: stages[i].name != name
  {
    if stages == [] then 0
    else if stages[0].name == name then 0
    else 1 + Find(stages[1..], name)
  }

  predicate Has(stages: seq<Stage>, name: Name) { Find(stages, name) < |stages| }

  function Get(stages: seq<Stage>, name: Name): Stage
    requires Has(stages, name)
  {
    stages[Find(stages, name)]
  }

  datatype Action =
    | Begin(name: Name, monotonic: Option<int>) | Pause(name: Name) | Finish(name: Name)
    | Confirmation(cells: nat) | CloseMatrix | Check | Cleanup

  /** The stages a confirmation with this many cells drops. */
  predicate Drops(cells: nat, name: Name) {
    (name.Cell? && cells < name.index <= 20) || (name.Reset? && cells + 7 < name.index <= 27)
  }

  predicate Spendless(stages: seq<Stage>, name: Name) {
    Has(stages, name) && Get(stages, name).used == 0 && !Get(stages, name).complete
  }

  predicate Confirmable(stages: seq<Stage>, cells: nat) {
    && (cells == 16 || cells == 20)
    && (forall i | 9 <= i < 21 :: Has(stages, Cell(i)) && Get(stages, Cell(i)).used == 0)
    && (forall i | 1 <= i < 9 :: Has(stages, Cell(i)) && Get(stages, Cell(i)).complete)
    && (forall i | cells < i < 21 :: Spendless(stages, Cell(i)))
    && (forall i | cells + 7 < i < 28 :: Spendless(stages, Reset(i)))
  }

  function Kept(stages: seq<Stage>, cells: nat): seq<Stage> {
    if stages == [] then []
    else Kept(stages[..|stages| - 1], cells)
         + (if Drops(cells, stages[|stages| - 1].name) then [] else [stages[|stages| - 1]])
  }

  function Charged(s: State, now: int): State
    requires s.active.Some? && Has(s.stages, s.active.value.name)
  {
    var i := Find(s.stages, s.active.value.name);
    s.(stages := s.stages[i := s.stages[i].(used := s.stages[i].used + now - s.active.value.started)], active := None)
  }

  function Completed(s: State, name: Name, complete: bool): State {
    var i := Find(s.stages, name);
    if i < |s.stages| then s.(stages := s.stages[i := s.stages[i].(complete := complete)]) else s
  }

  /** The change an admitted action makes, before the closing observation. */
  function Changed(s: State, a: Action, now: int): Result<State, Fault> {
    match a
    case Check => Ok(s)
    case CloseMatrix =>
      if exists i | 0 <= i < |s.stages| :: s.stages[i].name.Cell? && !s.stages[i].complete then Err(IncompleteMatrix)
      else Ok(s.(replacement := 0))
    case Confirmation(cells) =>
      if Confirmable(s.stages, cells) then Ok(s.(stages := Kept(s.stages, cells), mainCells := cells))
      else Err(BadConfirmation)
    case Begin(name, monotonic) =>
      if s.active.Some? || !Has(s.stages, name) || Get(s.stages, name).complete then Err(BadStage)
      else Ok(s.(active := Some(Active(name, now, monotonic))))
    case Pause(name) =>
      if s.active.None? || s.active.value.name != name || !Has(s.stages, name) then Err(NoCustody)
      else Ok(Completed(Charged(s, now), name, false))
    case Finish(name) =>
      if s.active.None? || s.active.value.name != name || !Has(s.stages, name) then Err(NoCustody)
      else Ok(Completed(Charged(s, now), name, true))
    case Cleanup => Ok(s)
  }

  /** `transition`.  Cleanup is entered without an observation; it fails only on an active
      stage that no longer exists.  Every other action is observed before and after. */
  function Stepped(s: State, a: Action, now: int): Result<State, Fault> {
    if a == Cleanup then
      if s.cleanupStarted.Some? then Ok(s.(lastObserved := Max(s.lastObserved, now)))
      else if s.active.None? then Ok(s.(cleanupStarted := Some(now), lastObserved := Max(s.lastObserved, now)))
      else if !Has(s.stages, s.active.value.name) then Err(BadStage)
      else Ok(Charged(s, now).(cleanupStarted := Some(now), lastObserved := Max(s.lastObserved, now)))
    else
      var first := Observed(s, now);
      if first.Err? then Err(first.error)
      else if s.cleanupStarted.Some? then Err(InCleanup)
      else
        var changed := Changed(s.(lastObserved := now), a, now);
        if changed.Err? then changed
        else
          var last := Observed(changed.value, now);
          if last.Err? then Err(last.error) else changed
  }

  // ----- The initial program

  function Span(name: nat -> Name, from: nat, upto: nat, maximum: int, closure: int): (r: seq<Stage>)
    decreases upto - from
  {
    if from >= upto then []
    else [Stage(name(from), maximum, maximum + closure, 0, false)] + Span(name, from + 1, upto, maximum, closure)
  }

  function Program(residentDebit: int, pressuredDebit: int): seq<Stage> {
    [Stage(Prepare(false), 1_500_000 - residentDebit, 1_500_000 - residentDebit, 0, false),
     Stage(Qualify(false), 60_000, 120_000, 0, false),
     Stage(Prepare(true), 1_500_000 - pressuredDebit, 1_500_000 - pressuredDebit, 0, false),
     Stage(Qualify(true), 60_000, 120_000, 0, false)]
    + Span((i: nat) => Calibrate(i), 1, 5, 120_000, 60_000)
    + Span((i: nat) => Cell(i), 1, 21, 360_000, 60_000)
    + Span((i: nat) => Reset(i), 1, 28, 60_000, 0)
    + [Stage(Composed, 1_200_000, 1_260_000, 0, false)]
  }

  /** `initial_state`: refuse when no preparation budget remains or the program cannot fit. */
  function Initial(deadline: int, residentDebit: int, pressuredDebit: int, now: int): Result<State, Fault> {
    var stages := Program(residentDebit, pressuredDebit);
    var overhead := deadline - now - Total(stages) - REPLACEMENT_MS - CLEANUP_MS;
    if residentDebit >= 1_500_000 || pressuredDebit >= 1_500_000 then Err(NoBudget)
    else if overhead < 0 then Err(CannotFit)
    else
      var s := State(deadline, now, now, stages, None, 20, REPLACEMENT_MS, CLEANUP_MS, overhead, None);
      if Observed(s, now).Err? then Err(Observed(s, now).error) else Ok(s)
  }

  // ----- Invariant

  predicate DistinctNames(stages: seq<Stage>) {
    forall i, j | 0 <= i < j < |stages| :: stages[i].name != stages[j].name
  }

  predicate SaneStage(st: Stage) { 0 <= st.used <= st.hard && 0 < st.maximum <= st.hard }

  /** The maxima of the original stages that are no longer in the program. */
  function RemovedMaxima(original: seq<Stage>, stages: seq<Stage>): int {
    if original == [] then 0
    else RemovedMaxima(original[..|original| - 1], stages)
         + (if Has(stages, original[|original| - 1].name) then 0 else original[|original| - 1].maximum)
  }

  /** The maximum of the original stage of this name. */
  function MaximumOf(original: seq<Stage>, name: Name): int {
    if original == [] then 0
    else MaximumOf(original[..|original| - 1], name)
         + (if original[|original| - 1].name == name then original[|original| - 1].maximum else 0)
  }

  /** What holds in every run from `s0` before cleanup. */
  predicate Inv(s0: State, s: State) {
    && s.deadline == s0.deadline && s.resumed == s0.resumed && s.cleanup == CLEANUP_MS
    && s.overheadLimit == s.deadline - s.resumed - Total(s0.stages) - REPLACEMENT_MS - CLEANUP_MS
    && s.cleanupStarted.None? && s.resumed <= s.lastObserved
    && 0 <= s.replacement <= REPLACEMENT_MS
    && DistinctNames(s.stages) && (forall i | 0 <= i < |s.stages| :: SaneStage(s.stages[i]))
    && (forall i | 0 <= i < |s.stages| :: MaximumOf(s0.stages, s.stages[i].name) == s.stages[i].maximum)
    && (forall i | 0 <= i < |s0.stages| :: s0.stages[i].maximum > 0)
    && (s.active.None? ==> TotalUsed(s.stages) <= s.lastObserved - s.resumed)
    && (s.active.Some? ==>
          && TotalUsed(s.stages) <= s.active.value.started - s.resumed && s.active.value.started <= s.lastObserved
          && forall i | 0 <= i < |s.stages| :: s.stages[i].name == s.active.value.name ==> !s.stages[i].complete)
  }

  // ----- Conservation

  /** Spent and remaining time split the maxima, up to what completed stages left unused. */
  lemma {:induction false} SpentAndRemaining(stages: seq<Stage>, active: Option<Active>, now: int)
    requires forall i | 0 <= i < |stages| :: active.Some? && stages[i].name == active.value.name ==> !stages[i].complete
    ensures Spent(stages, active, now) + Remaining(stages, active, now) == Total(stages) - Unused(stages)
  {
    if stages != [] { SpentAndRemaining(stages[..|stages| - 1], active, now); }
  }

  lemma {:induction false} RemovedAll(original: seq<Stage>)
    ensures RemovedMaxima(original, []) == Total(original)
  {
    if original != [] { RemovedAll(original[..|original| - 1]); }
  }

  lemma {:induction false} HasIff(stages: seq<Stage>, name: Name)
    ensures Has(stages, name) <==> exists i | 0 <= i < |stages| :: stages[i].name == name
  {}

  lemma {:induction false} RemoveOne(original: seq<Stage>, rest: seq<Stage>, last: Stage)
    requires DistinctNames(rest + [last])
    ensures RemovedMaxima(original, rest) == RemovedMaxima(original, rest + [last]) + MaximumOf(original, last.name)
  {
    if original != [] {
      RemoveOne(original[..|original| - 1], rest, last);
      var name := original[|original| - 1].name;
      HasIff(rest, name);
      HasIff(rest + [last], name);
      assert (rest + [last])[|rest|] == last;
      assert forall i | 0 <= i < |rest| :: (rest + [last])[i] == rest[i];
    }
  }

  /** Current and removed maxima together are the original program. */
  lemma {:induction false} RemovedIsTheRest(original: seq<Stage>, stages: seq<Stage>)
    requires DistinctNames(stages)
    requires forall i | 0 <= i < |stages| :: MaximumOf(original, stages[i].name) == stages[i].maximum
    ensures Total(stages) + RemovedMaxima(original, stages) == Total(original)
  {
    if stages == [] {
      RemovedAll(original);
    } else {
      var rest, last := stages[..|stages| - 1], stages[|stages| - 1];
      RemovedIsTheRest(original, rest);
      assert rest + [last] == stages;
      RemoveOne(original, rest, last);
    }
  }

  /** Budget conservation: what the deadline leaves beyond the required time is exactly the
      unused maxima of completed stages, the maxima of removed stages and the released
      replacement reserve. */
  lemma {:induction false} Conservation(s0: State, s: State, now: int)
    requires Inv(s0, s)
    ensures s.deadline - (now + Required(s, now)) ==
              Unused(s.stages) + RemovedMaxima(s0.stages, s.stages) + (REPLACEMENT_MS - s.replacement)
  {
    SpentAndRemaining(s.stages, s.active, now);
    RemovedIsTheRest(s0.stages, s.stages);
  }

  lemma {:induction false} RemovedNonNegative(original: seq<Stage>, stages: seq<Stage>)
    requires forall i | 0 <= i < |original| :: original[i].maximum > 0
    ensures RemovedMaxima(original, stages) >= 0
  {
    if original != [] { RemovedNonNegative(original[..|original| - 1], stages); }
  }

  lemma {:induction false} UnusedNonNegative(stages: seq<Stage>)
    requires forall i | 0 <= i < |stages| :: SaneStage(stages[i])
    ensures Unused(stages) >= 0
  {
    if stages != [] { UnusedNonNegative(stages[..|stages| - 1]); }
  }

  lemma {:induction false} RemainingNonNegative(stages: seq<Stage>, active: Option<Active>, now: int)
    ensures Remaining(stages, active, now) >= 0
  {
    if stages != [] { RemainingNonNegative(stages[..|stages| - 1], active, now); }
  }

  /** Stages never claim more time than has passed. */
  lemma {:induction false} SpentBound(stages: seq<Stage>, active: Option<Active>, now: int)
    requires DistinctNames(stages) && (active.Some? ==> active.value.started <= now)
    ensures Spent(stages, active, now) <= TotalUsed(stages) + (if active.Some? then now - active.value.started else 0)
    ensures (forall i | 0 <= i < |stages| :: active.None? || stages[i].name != active.value.name) ==>
            Spent(stages, active, now) <= TotalUsed(stages)
  {
    if stages != [] { SpentBound(stages[..|stages| - 1], active, now); }
  }

  /** In every state of every run before cleanup an observation fails only for a clock that
      moved back, an active stage past its hard bound, or exceeded overhead: the refusals
      "accounting exceeds wall time", "cannot fit" and "deadline exceeded" are unreachable. */
  lemma {:induction false} ObservationVerdict(s0: State, s: State, now: int)
    requires Inv(s0, s)
    ensures Observed(s, now).Ok? <==>
              s.lastObserved <= now && WithinHard(s.stages, s.active, now) && Overhead(s, now) <= s.overheadLimit
    ensures Observed(s, now).Err? ==>
              Observed(s, now).error == ClockBackwards || Observed(s, now).error == HardBound
                  || Observed(s, now).error == OverheadExceeded
  {
    Conservation(s0, s, now);
    UnusedNonNegative(s.stages);
    RemovedNonNegative(s0.stages, s.stages);
    RemainingNonNegative(s.stages, s.active, now);
    if s.lastObserved <= now { SpentBound(s.stages, s.active, now); }
  }

  // ----- Every run keeps the invariant

  lemma {:induction false} TotalUsedUpdate(stages: seq<Stage>, i: nat, st: Stage)
    requires i < |stages|
    ensures TotalUsed(stages[i := st]) == TotalUsed(stages) - stages[i].used + st.used
  {
    var n := |stages| - 1;
    if i == n {
      assert stages[i := st][..n] == stages[..n];
    } else {
      TotalUsedUpdate(stages[..n], i, st);
      assert stages[i := st][..n] == stages[..n][i := st];
    }
  }

  lemma {:induction false} KeptFacts(stages: seq<Stage>, cells: nat)
    requires DistinctNames(stages)
    ensures DistinctNames(Kept(stages, cells))
    ensures forall k | 0 <= k < |Kept(stages, cells)| :: Kept(stages, cells)[k] in stages
    ensures (forall i | 0 <= i < |stages| :: stages[i].used >= 0) ==>
            TotalUsed(Kept(stages, cells)) <= TotalUsed(stages)
  {
    if stages != [] {
      var n := |stages| - 1;
      KeptFacts(stages[..n], cells);
      var k := Kept(stages, cells);
      if Drops(cells, stages[n].name) { assert k == Kept(stages[..n], cells); }
      else { assert k[..|k| - 1] == Kept(stages[..n], cells); }
    }
  }

  lemma {:induction false} KeptInv(s0: State, s: State, cells: nat)
    requires Inv(s0, s)
    ensures Inv(s0, s.(stages := Kept(s.stages, cells), mainCells := cells))
  {
    KeptFacts(s.stages, cells);
    var kept := Kept(s.stages, cells);
    forall k | 0 <= k < |kept|
      ensures SaneStage(kept[k]) && MaximumOf(s0.stages, kept[k].name) == kept[k].maximum
      ensures s.active.Some? && kept[k].name == s.active.value.name ==> !kept[k].complete
    {
      var i :| 0 <= i < |s.stages| && s.stages[i] == kept[k];
    }
  }

  lemma {:induction false} FindIs(stages: seq<Stage>, name: Name, i: nat)
    requires i < |stages| && stages[i].name == name && forall k | 0 <= k < i :: stages[k].name != name
    ensures Find(stages, name) == i
  {}

  lemma {:induction false} ChargedInv(s0: State, s: State, now: int, complete: bool)
    requires Inv(s0, s) && s.active.Some? && Has(s.stages, s.active.value.name) && s.lastObserved == now
    requires WithinHard(s.stages, s.active, now)
    ensures Inv(s0, Completed(Charged(s, now), s.active.value.name, complete))
  {
    var name := s.active.value.name;
    var i := Find(s.stages, name);
    var st := s.stages[i].(used := s.stages[i].used + now - s.active.value.started);
    var s' := Charged(s, now);
    assert forall k | 0 <= k < i :: s'.stages[k].name != name;
    assert Find(s'.stages, name) == i by { FindIs(s'.stages, name, i); }
    var r := Completed(s', name, complete);
    assert r.stages == s.stages[i := st.(complete := complete)];
    TotalUsedUpdate(s.stages, i, st.(complete := complete));
    assert UsedAt(s.stages[i], s.active, now) <= s.stages[i].hard;
  }

  lemma {:induction false} ChangedInv(s0: State, s: State, a: Action, now: int)
    requires Inv(s0, s) && s.lastObserved == now && WithinHard(s.stages, s.active, now) && Changed(s, a, now).Ok?
    ensures Inv(s0, Changed(s, a, now).value) && Changed(s, a, now).value.lastObserved == now
  {
    match a
    case Confirmation(cells) => KeptInv(s0, s, cells);
    case Pause(name) => ChargedInv(s0, s, now, false);
    case Finish(name) => ChargedInv(s0, s, now, true);
    case Begin(name, _) =>
      forall i | 0 <= i < |s.stages| && s.stages[i].name == name ensures !s.stages[i].complete {
        assert i == Find(s.stages, name);
      }
    case _ =>
  }

  lemma {:induction false} StepInv(s0: State, s: State, a: Action, now: int)
    requires Inv(s0, s) && a != Cleanup && Stepped(s, a, now).Ok?
    ensures Inv(s0, Stepped(s, a, now).value)
    ensures Stepped(s, a, now).value.lastObserved == now
  {
    hide Changed;
    ObservationVerdict(s0, s, now);
    assert Inv(s0, s.(lastObserved := now));
    ChangedInv(s0, s.(lastObserved := now), a, now);
  }

  // ----- The initial state

  /** The position of each stage in the initial program. */
  function Place(name: Name): int {
    match name
    case Prepare(p) => if p then 2 else 0
    case Qualify(p) => if p then 3 else 1
    case Calibrate(i) => i + 3
    case Cell(i) => i + 7
    case Reset(i) => i + 27
    case Composed => 55
  }

  lemma {:induction false} SpanFacts(name: nat -> Name, from: nat, upto: nat, maximum: int, closure: int)
    requires from <= upto
    ensures |Span(name, from, upto, maximum, closure)| == upto - from
    ensures forall i | 0 <= i < upto - from ::
              Span(name, from, upto, maximum, closure)[i] == Stage(name(from + i), maximum, maximum + closure, 0, false)
    decreases upto - from
  {
    if from < upto { SpanFacts(name, from + 1, upto, maximum, closure); }
  }

  lemma {:induction false} ProgramFacts(residentDebit: int, pressuredDebit: int)
    ensures var p := Program(residentDebit, pressuredDebit);
            && |p| == 56
            && forall i | 0 <= i < 56 ::
                 && Place(p[i].name) == i && p[i].used == 0 && !p[i].complete && p[i].maximum <= p[i].hard
                 && (residentDebit < 1_500_000 && pressuredDebit < 1_500_000 ==> p[i].maximum > 0)
  {
    SpanFacts((i: nat) => Calibrate(i), 1, 5, 120_000, 60_000);
    SpanFacts((i: nat) => Cell(i), 1, 21, 360_000, 60_000);
    SpanFacts((i: nat) => Reset(i), 1, 28, 60_000, 0);
  }

  lemma {:induction false} MaximumOfNone(stages: seq<Stage>, name: Name)
    requires forall i | 0 <= i < |stages| :: stages[i].name != name
    ensures MaximumOf(stages, name) == 0
  {
    if stages != [] { MaximumOfNone(stages[..|stages| - 1], name); }
  }

  lemma {:induction false} MaximumOfSelf(stages: seq<Stage>, i: nat)
    requires DistinctNames(stages) && i < |stages|
    ensures MaximumOf(stages, stages[i].name) == stages[i].maximum
  {
    var n := |stages| - 1;
    if i == n { MaximumOfNone(stages[..n], stages[n].name); } else { MaximumOfSelf(stages[..n], i); }
  }

  lemma {:induction false} NothingUsed(stages: seq<Stage>)
    requires forall i | 0 <= i < |stages| :: stages[i].used == 0
    ensures TotalUsed(stages) == 0
  {
    if stages != [] { NothingUsed(stages[..|stages| - 1]); }
  }

  lemma {:induction false} InitialInv(deadline: int, residentDebit: int, pressuredDebit: int, now: int)
    requires Initial(deadline, residentDebit, pressuredDebit, now).Ok?
    ensures Inv(Initial(deadline, residentDebit, pressuredDebit, now).value,
                Initial(deadline, residentDebit, pressuredDebit, now).value)
  {
    ProgramFacts(residentDebit, pressuredDebit);
    hide Program, Total;
    var p := Program(residentDebit, pressuredDebit);
    NothingUsed(p);
    forall i | 0 <= i < |p| ensures MaximumOf(p, p[i].name) == p[i].maximum { MaximumOfSelf(p, i); }
  }

  // ----- Whole runs

  datatype Event = Event(action: Action, now: int)

  /** `locked_transition` writes the state only when the transition succeeded. */
  function After(s: State, e: Event): State {
    var r := Stepped(s, e.action, e.now);
    if r.Ok? then r.value else s
  }

  function Final(s: State, run: seq<Event>): State
    decreases |run|
  {
    if run == [] then s else Final(After(s, run[0]), run[1..])
  }

  predicate BeforeCleanup(run: seq<Event>) { forall i | 0 <= i < |run| :: run[i].action != Cleanup }

  lemma {:induction false} RunInv(s0: State, s: State, run: seq<Event>)
    requires Inv(s0, s) && BeforeCleanup(run)
    ensures Inv(s0, Final(s, run))
    decreases |run|
  {
    if run != [] {
      if Stepped(s, run[0].action, run[0].now).Ok? { StepInv(s0, s, run[0].action, run[0].now); }
      RunInv(s0, After(s, run[0]), run[1..]);
    }
  }

  /** Conservation in every run from `initial_state` before cleanup, and with it: the program
      always fits, so an observation can only fail for the clock, a hard bound or overhead. */
  lemma {:induction false} RunConservation(
      deadline: int, residentDebit: int, pressuredDebit: int, start: int, run: seq<Event>, now: int)
    requires Initial(deadline, residentDebit, pressuredDebit, start).Ok? && BeforeCleanup(run)
    ensures var s0 := Initial(deadline, residentDebit, pressuredDebit, start).value;
            var s := Final(s0, run);
            && s.deadline - (now + Required(s, now)) ==
                 Unused(s.stages) + RemovedMaxima(s0.stages, s.stages) + (REPLACEMENT_MS - s.replacement)
            && now + Required(s, now) <= s.deadline
            && (Observed(s, now).Ok? <==>
                  s.lastObserved <= now && WithinHard(s.stages, s.active, now) && Overhead(s, now) <= s.overheadLimit)
            && (Observed(s, now).Err? ==> Observed(s, now).error in {ClockBackwards, HardBound, OverheadExceeded})
  {
    hide Initial, Final;
    var s0 := Initial(deadline, residentDebit, pressuredDebit, start).value;
    InitialInv(deadline, residentDebit, pressuredDebit, start);
    RunInv(s0, s0, run);
    var s := Final(s0, run);
    Conservation(s0, s, now);
    ObservationVerdict(s0, s, now);
    UnusedNonNegative(s.stages);
    RemovedNonNegative(s0.stages, s.stages);
  }

  // ----- Early cancellation

  function StageClock(a: Active, now: int, monotonicNow: int): int {
    var wall := now - a.started;
    if a.monotonic.Some? then Max(wall, (monotonicNow - a.monotonic.value) / 1_000_000) else wall
  }

  datatype CancelReason = StageTail | OverheadTail

  /** A running stage is still in the program. */
  predicate Manned(s: State) { s.active.Some? ==> Has(s.stages, s.active.value.name) }

  /** The guard of `locked_transition` after a successful check: should the work be cancelled? */
  predicate Cancels(s: State, now: int, monotonicNow: int)
    requires Manned(s)
  {
    if s.active.None? then s.overheadLimit - Overhead(s, now) <= STOP_GUARD_MS
    else
      var st := Get(s.stages, s.active.value.name);
      var used := st.used + StageClock(s.active.value, now, monotonicNow);
      || st.hard - used <= STOP_GUARD_MS
      || s.overheadLimit - Overhead(s, now) + Max(st.maximum - used, 0) <= STOP_GUARD_MS
  }

  /** Overhead grows only with time the active stage cannot absorb. */
  lemma {:induction false} SpentGrowth(stages: seq<Stage>, a: Active, now: int, d: int)
    requires DistinctNames(stages) && d >= 0
    ensures (forall i | 0 <= i < |stages| :: stages[i].name != a.name) ==>
              Spent(stages, Some(a), now + d) == Spent(stages, Some(a), now)
    ensures forall i | 0 <= i < |stages| && stages[i].name == a.name ::
              Spent(stages, Some(a), now + d) == Spent(stages, Some(a), now)
                + Min(stages[i].used + now + d - a.started, stages[i].maximum)
                - Min(stages[i].used + now - a.started, stages[i].maximum)
  {
    if stages != [] { SpentGrowth(stages[..|stages| - 1], a, now, d); }
  }

  lemma {:induction false} SpentIdle(stages: seq<Stage>, now: int, later: int)
    ensures Spent(stages, None, later) == Spent(stages, None, now)
  {
    if stages != [] { SpentIdle(stages[..|stages| - 1], now, later); }
  }

  /** Only the active stage can pass its hard bound with time. */
  lemma {:induction false} HardLater(s0: State, s: State, now: int)
    requires Inv(s0, s) && s.active.Some? && Has(s.stages, s.active.value.name)
    ensures var st := Get(s.stages, s.active.value.name);
            WithinHard(s.stages, s.active, now) <==> st.used + now - s.active.value.started <= st.hard
  {
    var n := Find(s.stages, s.active.value.name);
    forall i | 0 <= i < |s.stages| && i != n ensures UsedAt(s.stages[i], s.active, now) <= s.stages[i].hard {
      assert SaneStage(s.stages[i]);
    }
    assert UsedAt(s.stages[n], s.active, now) == s.stages[n].used + now - s.active.value.started;
  }

  /** What an observation `d` milliseconds after a successful one comes to. */
  lemma {:induction false} LaterVerdict(s0: State, s: State, now: int, d: int)
    requires Inv(s0, s) && s.lastObserved == now && d >= 0 && Observed(s, now).Ok?
    requires Manned(s)
    ensures s.active.None? ==> (Observed(s, now + d).Ok? <==> Overhead(s, now) + d <= s.overheadLimit)
    ensures s.active.Some? ==>
              var st := Get(s.stages, s.active.value.name);
              var used := st.used + now - s.active.value.started;
              (Observed(s, now + d).Ok? <==>
                 used + d <= st.hard && Overhead(s, now) + Max(d - Max(st.maximum - used, 0), 0) <= s.overheadLimit)
  {
    ObservationVerdict(s0, s, now + d);
    if s.active.None? {
      SpentIdle(s.stages, now, now + d);
      forall i | 0 <= i < |s.stages|
        ensures UsedAt(s.stages[i], s.active, now + d) <= s.stages[i].hard
      {
        assert SaneStage(s.stages[i]);
      }
    } else {
      HardLater(s0, s, now + d);
      SpentGrowth(s.stages, s.active.value, now, d);
      assert s.active == Some(s.active.value);
      var n := Find(s.stages, s.active.value.name);
      assert s.stages[n].name == s.active.value.name;
    }
  }

  /** Guard soundness: without a cancel reason at `now`, and with no further transition, every
      observation within the next twenty seconds succeeds. */
  lemma {:induction false} GuardSound(s0: State, s: State, now: int, monotonicNow: int, d: int)
    requires Inv(s0, s) && s.lastObserved == now && Observed(s, now).Ok?
    requires Manned(s)
    requires !Cancels(s, now, monotonicNow) && 0 <= d <= 20_000
    ensures Observed(s, now + d).Ok?
  {
    LaterVerdict(s0, s, now, d);
  }

  /** Exactness: when the monotonic clock has not run ahead of the wall clock, the guard stays
      silent if and only if every observation through one millisecond past the tail succeeds. */
  lemma {:induction false} GuardExact(s0: State, s: State, now: int, monotonicNow: int)
    requires Inv(s0, s) && s.lastObserved == now && Observed(s, now).Ok?
    requires Manned(s)
    requires s.active.Some? ==> StageClock(s.active.value, now, monotonicNow) == now - s.active.value.started
    ensures !Cancels(s, now, monotonicNow) <==> forall t | now <= t <= now + 20_001 :: Observed(s, t).Ok?
  {
    forall t | now <= t <= now + STOP_GUARD_MS + 1 ensures !Cancels(s, now, monotonicNow) ==> Observed(s, t).Ok? {
      LaterVerdict(s0, s, now, t - now);
    }
    LaterVerdict(s0, s, now, STOP_GUARD_MS + 1);
    assert now <= now + (STOP_GUARD_MS + 1) <= now + STOP_GUARD_MS + 1;
  }

  // ----- An active stage may be dropped

  lemma {:induction false} KeptHas(stages: seq<Stage>, cells: nat, name: Name)
    ensures Has(Kept(stages, cells), name) <==> Has(stages, name) && !Drops(cells, name)
  {
    HasIff(stages, name);
    HasIff(Kept(stages, cells), name);
    if stages != [] {
      var n := |stages| - 1;
      KeptHas(stages[..n], cells, name);
      HasIff(stages[..n], name);
      HasIff(Kept(stages[..n], cells), name);
      var k := Kept(stages, cells);
      assert forall i | 0 <= i < n :: stages[i] == stages[..n][i];
      if !Drops(cells, stages[n].name) {
        assert forall i | 0 <= i < |k| - 1 :: k[i] == Kept(stages[..n], cells)[i];
        assert k[|k| - 1] == stages[n];
      } else {
        assert k == Kept(stages[..n], cells);
      }
    }
  }

  /** A confirmation that drops the running stage leaves a state that can neither pause, finish
      nor enter cleanup, whatever the time: nothing checks that no stage is active. */
  lemma {:induction false} DroppedActiveIsStuck(s: State, cells: nat, now: int, later: int)
    requires Stepped(s, Confirmation(cells), now).Ok? && s.active.Some? && DistinctNames(s.stages)
    ensures var t := Stepped(s, Confirmation(cells), now).value;
            && t.active == s.active
            && (Drops(cells, s.active.value.name) ==>
                  && Stepped(t, Cleanup, later).Err?
                  && Stepped(t, Pause(s.active.value.name), later).Err?
                     && Stepped(t, Finish(s.active.value.name), later).Err?)
            && (!Drops(cells, s.active.value.name) && Has(s.stages, s.active.value.name) ==>
                Stepped(t, Cleanup, later).Ok?)
  {
    KeptHas(s.stages, cells, s.active.value.name);
  }

  // ----- What a confirmation needs and keeps

  /** A confirmation goes through, its observations aside, if and only if it names 16 or 20 cells, no main
      cell has been charged, every screening cell is complete, and the stages it drops are there and
      neither charged nor complete; what stays are exactly the other stages. */
  lemma {:induction false} ConfirmationVerdict(s: State, cells: nat, now: int)
    ensures Changed(s, Confirmation(cells), now).Ok? <==>
              && (cells == 16 || cells == 20)
              && (forall i | 1 <= i <= 8 :: Has(s.stages, Cell(i)) && Get(s.stages, Cell(i)).complete)
              && (forall i | 9 <= i <= 20 :: Has(s.stages, Cell(i)) && Get(s.stages, Cell(i)).used == 0)
              && (forall i | cells < i <= 20 :: !Get(s.stages, Cell(i)).complete)
              && (forall i | cells + 7 < i <= 27 ::
                    Has(s.stages, Reset(i)) && Get(s.stages, Reset(i)).used == 0 && !Get(s.stages, Reset(i)).complete)
    ensures Changed(s, Confirmation(cells), now).Ok? ==>
              var t := Changed(s, Confirmation(cells), now).value;
              && t.mainCells == cells && t.active == s.active
              && forall name :: Has(t.stages, name) <==>
                   && Has(s.stages, name)
                   && !(name.Cell? && cells < name.index <= 20) && !(name.Reset? && cells + 7 < name.index <= 27)
  {
    hide Has, Get, Kept;
    forall name ensures Has(Kept(s.stages, cells), name) <==> Has(s.stages, name) && !Drops(cells, name) {
      KeptHas(s.stages, cells, name);
    }
  }

  lemma {:induction false} TotalJoin(a: seq<Stage>, b: seq<Stage>)
    ensures Total(a + b) == Total(a) + Total(b)
  {
    if b == [] {
      assert a + b == a;
    } else {
      TotalJoin(a, b[..|b| - 1]);
      assert (a + b)[..|a + b| - 1] == a + b[..|b| - 1];
    }
  }

  lemma {:induction false} SpanTotal(name: nat -> Name, from: nat, upto: nat, maximum: int, closure: int)
    requires from <= upto
    ensures Total(Span(name, from, upto, maximum, closure)) == (upto - from) * maximum
    decreases upto - from
  {
    if from < upto {
      SpanTotal(name, from + 1, upto, maximum, closure);
      TotalJoin([Stage(name(from), maximum, maximum + closure, 0, false)],
                Span(name, from + 1, upto, maximum, closure));
    }
  }

  lemma TotalFour(a: Stage, b: Stage, c: Stage, d: Stage)
    ensures Total([a, b, c, d]) == a.maximum + b.maximum + c.maximum + d.maximum
  {
    TotalJoin([a], [b]);
    TotalJoin([a] + [b], [c]);
    TotalJoin([a] + [b] + [c], [d]);
    assert [a, b, c, d] == [a] + [b] + [c] + [d];
    assert Total([a]) == a.maximum && Total([b]) == b.maximum && Total([c]) == c.maximum && Total([d]) == d.maximum;
  }

  /** The program takes three hours and forty-seven minutes less the preparation already spent, so a campaign that
      begins at its start has nine minutes of overhead beyond it. */
  lemma {:induction false} ProgramTotal(residentDebit: int, pressuredDebit: int, start: int)
    ensures Total(Program(residentDebit, pressuredDebit)) == 13_620_000 - residentDebit - pressuredDebit
    ensures var r := Initial(start + LIMIT_MS, residentDebit, pressuredDebit, start);
            r.Ok? ==> r.value.overheadLimit == 540_000 + residentDebit + pressuredDebit
  {
    SpanTotal((i: nat) => Calibrate(i), 1, 5, 120_000, 60_000);
    SpanTotal((i: nat) => Cell(i), 1, 21, 360_000, 60_000);
    SpanTotal((i: nat) => Reset(i), 1, 28, 60_000, 0);
    var head :=
      [Stage(Prepare(false), 1_500_000 - residentDebit, 1_500_000 - residentDebit, 0, false),
       Stage(Qualify(false), 60_000, 120_000, 0, false),
       Stage(Prepare(true), 1_500_000 - pressuredDebit, 1_500_000 - pressuredDebit, 0, false),
       Stage(Qualify(true), 60_000, 120_000, 0, false)];
    TotalFour(head[0], head[1], head[2], head[3]);
    assert head == [head[0], head[1], head[2], head[3]];
    var a := head + Span((i: nat) => Calibrate(i), 1, 5, 120_000, 60_000);
    TotalJoin(head, Span((i: nat) => Calibrate(i), 1, 5, 120_000, 60_000));
    var b := a + Span((i: nat) => Cell(i), 1, 21, 360_000, 60_000);
    TotalJoin(a, Span((i: nat) => Cell(i), 1, 21, 360_000, 60_000));
    var c := b + Span((i: nat) => Reset(i), 1, 28, 60_000, 0);
    TotalJoin(b, Span((i: nat) => Reset(i), 1, 28, 60_000, 0));
    var last := Stage(Composed, 1_200_000, 1_260_000, 0, false);
    TotalJoin(c, [last]);
    assert Total([last]) == 1_200_000;
    assert Program(residentDebit, pressuredDebit) == c + [last];
  }

  // ----- What stages are charged

  /** The stage after its clock stopped at `now`. */
  predicate ChargedAt(s: State, t: State, name: Name, now: int, complete: bool)
    requires s.active.Some?
  {
    && Has(s.stages, name) && Has(t.stages, name) && t.active.None?
    && Get(t.stages, name).used == Get(s.stages, name).used + now - s.active.value.started
    && Get(t.stages, name).complete == complete
  }

  lemma {:induction false} ChargedGet(s: State, now: int, complete: bool)
    requires s.active.Some? && Has(s.stages, s.active.value.name)
    ensures ChargedAt(s, Completed(Charged(s, now), s.active.value.name, complete), s.active.value.name, now, complete)
  {
    var name := s.active.value.name;
    var i := Find(s.stages, name);
    FindIs(Charged(s, now).stages, name, i);
    FindIs(Completed(Charged(s, now), name, complete).stages, name, i);
  }

  lemma {:induction false} ChargedOnce(s: State, now: int)
    requires s.active.Some? && Has(s.stages, s.active.value.name)
    ensures ChargedAt(s, Charged(s, now), s.active.value.name, now, Get(s.stages, s.active.value.name).complete)
  {
    FindIs(Charged(s, now).stages, s.active.value.name, Find(s.stages, s.active.value.name));
  }

  lemma {:induction false} CleanupCharges(s: State, now: int)
    ensures var t := Stepped(s, Cleanup, now);
            t.Ok? && s.cleanupStarted.None? && s.active.Some? ==>
              var active := s.active.value.name;
              Has(s.stages, active) && ChargedAt(s, t.value, active, now, Get(s.stages, active).complete)
  {
    hide Observed;
    if s.active.Some? && Has(s.stages, s.active.value.name) { ChargedOnce(s, now); }
  }

  lemma {:induction false} FinishCharges(s: State, name: Name, now: int, later: int, monotonic: Option<int>)
    ensures var t := Stepped(s, Finish(name), now);
            t.Ok? ==>
              && s.active.Some? && s.active.value.name == name && ChargedAt(s, t.value, name, now, true)
              && Stepped(t.value, Begin(name, monotonic), later).Err?
  {
    hide Observed;
    if Stepped(s, Finish(name), now).Ok? { ChargedGet(s.(lastObserved := now), now, true); }
  }

  lemma {:induction false} BeginSums(stages: seq<Stage>, active: Option<Active>, now: int)
    requires active.Some? && active.value.started == now
    ensures Spent(stages, active, now) == Spent(stages, None, now)
    ensures Remaining(stages, active, now) == Remaining(stages, None, now)
  {
    if stages != [] { BeginSums(stages[..|stages| - 1], active, now); }
  }

  /** A stage that begins now changes no sum yet. */
  lemma {:induction false} BeginObserved(s: State, b: State, now: int)
    requires s.active.None? && b.active.Some? && b == s.(active := b.active) && b.active.value.started == now
    ensures Observed(b, now) == Observed(s, now)
  {
    hide Spent, Remaining;
    BeginSums(s.stages, b.active, now);
    forall i | 0 <= i < |s.stages| ensures UsedAt(s.stages[i], b.active, now) == UsedAt(s.stages[i], None, now) {}
  }

  lemma {:induction false} PauseCharges(s: State, name: Name, now: int, monotonic: Option<int>)
    ensures var t := Stepped(s, Pause(name), now);
            t.Ok? ==>
              && s.active.Some? && s.active.value.name == name && ChargedAt(s, t.value, name, now, false)
              && Stepped(t.value, Begin(name, monotonic), now).Ok?
  {
    hide Observed, Spent, Remaining;
    var t := Stepped(s, Pause(name), now);
    if t.Ok? {
      ChargedGet(s.(lastObserved := now), now, false);
      var b := t.value.(active := Some(Active(name, now, monotonic)));
      BeginObserved(t.value, b, now);
      assert t.value.(lastObserved := now) == t.value;
    }
  }

  /** Stopping a stage charges it exactly the time since it began: a pause leaves it open, a finish
      completes it, cleanup leaves its mark as it was.  A paused stage can begin again at once, and a
      finished one never. */
  lemma {:induction false} StageCharges(s: State, name: Name, now: int, later: int, monotonic: Option<int>)
    ensures var t := Stepped(s, Pause(name), now);
            t.Ok? ==>
              && s.active.Some? && s.active.value.name == name && ChargedAt(s, t.value, name, now, false)
              && Stepped(t.value, Begin(name, monotonic), now).Ok?
    ensures var t := Stepped(s, Finish(name), now);
            t.Ok? ==>
              && s.active.Some? && s.active.value.name == name && ChargedAt(s, t.value, name, now, true)
              && Stepped(t.value, Begin(name, monotonic), later).Err?
    ensures var t := Stepped(s, Cleanup, now);
            t.Ok? && s.cleanupStarted.None? && s.active.Some? ==>
              var active := s.active.value.name;
              Has(s.stages, active) && ChargedAt(s, t.value, active, now, Get(s.stages, active).complete)
  {
    hide Observed, ChargedAt;
    PauseCharges(s, name, now, monotonic);
    FinishCharges(s, name, now, later, monotonic);
    CleanupCharges(s, now);
  }

  // ----- How a campaign gets there

  /** The stages of the initial program, by position. */
  function NameAt(i: nat): Name {
    if i == 0 then Prepare(false) else if i == 1 then Qualify(false)
    else if i == 2 then Prepare(true) else if i == 3 then Qualify(true)
    else if i < 8 then Calibrate(i - 3) else if i < 28 then Cell(i - 7)
    else if i < 55 then Reset(i - 27) else Composed
  }

  lemma {:induction false} ProgramNames(residentDebit: int, pressuredDebit: int)
    ensures var p := Program(residentDebit, pressuredDebit);
            |p| == 56 && forall i | 0 <= i < 56 :: p[i].name == NameAt(i)
  {
    SpanFacts((i: nat) => Calibrate(i), 1, 5, 120_000, 60_000);
    SpanFacts((i: nat) => Cell(i), 1, 21, 360_000, 60_000);
    SpanFacts((i: nat) => Reset(i), 1, 28, 60_000, 0);
  }

  /** The whole program, nothing used, with exactly the first `m` cells complete. */
  predicate Screened(stages: seq<Stage>, m: nat) {
    && |stages| == 56
    && forall i | 0 <= i < 56 ::
         stages[i].name == NameAt(i) && stages[i].used == 0 && stages[i].complete == (8 <= i < 8 + m)
  }

  lemma {:induction false} ScreenedFind(stages: seq<Stage>, m: nat, i: nat)
    requires Screened(stages, m) && i < 56
    ensures Find(stages, NameAt(i)) == i
  {
    FindIs(stages, NameAt(i), i);
  }

  /** Nothing has taken any time yet. */
  predicate Calm(s: State, now: int) {
    && s.resumed == s.lastObserved == now && s.overheadLimit >= 0
    && (forall i | 0 <= i < |s.stages| :: s.stages[i].used == 0)
    && (s.active.Some? ==> s.active.value.started == now)
  }

  lemma {:induction false} NothingSpent(stages: seq<Stage>, active: Option<Active>, now: int)
    requires forall i | 0 <= i < |stages| :: stages[i].used == 0 && stages[i].maximum > 0
    requires active.Some? ==> active.value.started == now
    ensures Spent(stages, active, now) == 0
  {
    if stages != [] { NothingSpent(stages[..|stages| - 1], active, now); }
  }

  lemma {:induction false} CalmFits(s0: State, s: State, now: int)
    requires Inv(s0, s) && Calm(s, now)
    ensures Observed(s, now).Ok? && WithinHard(s.stages, s.active, now)
  {
    ObservationVerdict(s0, s, now);
    assert forall i | 0 <= i < |s.stages| :: SaneStage(s.stages[i]);
    NothingSpent(s.stages, s.active, now);
  }

  /** Between calm states an admitted action always goes through. */
  lemma {:induction false} CalmStep(s0: State, s: State, a: Action, now: int)
    requires Inv(s0, s) && Calm(s, now) && a != Cleanup && Changed(s, a, now).Ok? && Calm(Changed(s, a, now).value, now)
    ensures Stepped(s, a, now) == Changed(s, a, now) && After(s, Event(a, now)) == Changed(s, a, now).value
    ensures Inv(s0, Changed(s, a, now).value)
  {
    hide Changed;
    CalmFits(s0, s, now);
    ChangedInv(s0, s, a, now);
    CalmFits(s0, Changed(s, a, now).value, now);
    assert s.(lastObserved := now) == s;
  }

  predicate AtScreen(s0: State, s: State, m: nat, now: int) {
    Inv(s0, s) && Calm(s, now) && Screened(s.stages, m) && s.active.None?
  }

  function Screening(m: nat, now: int): seq<Event> { [Event(Begin(Cell(m), None), now), Event(Finish(Cell(m)), now)] }

  lemma {:induction false} FinalTwo(s: State, d: Event, e: Event)
    ensures Final(s, [d, e]) == After(After(s, d), e)
  {
    hide After;
    assert [d, e][1..] == [e] && [e][1..] == [];
    var t := After(s, d);
    assert Final(t, [e]) == Final(After(t, e), []);
  }

  lemma {:induction false} ScreenOne(s0: State, s: State, m: nat, now: int)
    requires AtScreen(s0, s, m, now) && m < 20
    ensures AtScreen(s0, Final(s, Screening(m + 1, now)), m + 1, now)
  {
    hide Inv, Final, After, Stepped, Find;
    var begin, finish := Begin(Cell(m + 1), None), Finish(Cell(m + 1));
    assert NameAt(m + 8) == Cell(m + 1);
    ScreenedFind(s.stages, m, m + 8);
    CalmStep(s0, s, begin, now);
    var b := Changed(s, begin, now).value;
    assert Charged(b, now).stages == s.stages;
    var f := s.(stages := s.stages[m + 8 := s.stages[m + 8].(complete := true)]);
    assert Changed(b, finish, now) == Ok(f);
    CalmStep(s0, b, finish, now);
    FinalTwo(s, Event(begin, now), Event(finish, now));
    assert Screened(f.stages, m + 1);
  }

  function ScreeningAll(m: nat, now: int): seq<Event> {
    if m == 0 then [] else ScreeningAll(m - 1, now) + Screening(m, now)
  }

  lemma {:induction false} FinalJoin(s: State, a: seq<Event>, b: seq<Event>)
    ensures Final(s, a + b) == Final(Final(s, a), b)
    decreases |a|
  {
    hide After;
    if a == [] {
      assert a + b == b;
    } else {
      assert (a + b)[1..] == a[1..] + b;
      FinalJoin(After(s, a[0]), a[1..], b);
    }
  }

  lemma {:induction false} ScreenAll(s0: State, s: State, m: nat, now: int)
    requires AtScreen(s0, s, 0, now) && m <= 20
    ensures AtScreen(s0, Final(s, ScreeningAll(m, now)), m, now)
  {
    if m > 0 {
      hide AtScreen;
      ScreenAll(s0, s, m - 1, now);
      ScreenOne(s0, Final(s, ScreeningAll(m - 1, now)), m - 1, now);
      FinalJoin(s, ScreeningAll(m - 1, now), Screening(m, now));
    }
  }

  lemma {:induction false} NothingRemains(stages: seq<Stage>, now: int)
    requires forall i | 0 <= i < |stages| :: stages[i].used == 0 && !stages[i].complete && stages[i].maximum > 0
    ensures Remaining(stages, None, now) == Total(stages)
  {
    if stages != [] { NothingRemains(stages[..|stages| - 1], now); }
  }

  /** With no preparation debit, a deadline that fits the program and both reserves is admitted. */
  lemma {:induction false} SomeCampaign(now: int, slack: nat)
    ensures Initial(now + Total(Program(0, 0)) + REPLACEMENT_MS + CLEANUP_MS + slack, 0, 0, now).Ok?
  {
    ProgramFacts(0, 0);
    hide Program, Total, Spent, Remaining;
    var p := Program(0, 0);
    NothingSpent(p, None, now);
    NothingRemains(p, now);
    RemainingNonNegative(p, None, now);
  }

  /** Screen the first eight cells, begin cell 17, then confirm sixteen. */
  function DroppingRun(now: int): seq<Event> {
    ScreeningAll(8, now) + [Event(Begin(Cell(17), None), now), Event(Confirmation(16), now)]
  }

  lemma {:induction false} InitialScreen(deadline: int, residentDebit: int, pressuredDebit: int, now: int)
    requires Initial(deadline, residentDebit, pressuredDebit, now).Ok?
    ensures var s := Initial(deadline, residentDebit, pressuredDebit, now).value; AtScreen(s, s, 0, now)
  {
    InitialInv(deadline, residentDebit, pressuredDebit, now);
    ProgramFacts(residentDebit, pressuredDebit);
    ProgramNames(residentDebit, pressuredDebit);
    hide Program, Inv, Total;
  }

  lemma {:induction false} ScreenedConfirms(stages: seq<Stage>)
    requires Screened(stages, 8)
    ensures Confirmable(stages, 16)
  {
    forall i: nat | 8 <= i < 55 ensures Find(stages, NameAt(i)) == i { ScreenedFind(stages, 8, i); }
    forall i: nat | 1 <= i < 21 ensures Find(stages, Cell(i)) == i + 7 { assert NameAt(i + 7) == Cell(i); }
    forall i: nat | 1 <= i < 28 ensures Find(stages, Reset(i)) == i + 27 { assert NameAt(i + 27) == Reset(i); }
  }

  lemma {:induction false} InvNames(s0: State, s: State)
    requires Inv(s0, s)
    ensures DistinctNames(s.stages)
  {}

  lemma {:induction false} DropFrom(s0: State, s: State, now: int, later: int)
    requires AtScreen(s0, s, 8, now)
    ensures var t := Final(s, [Event(Begin(Cell(17), None), now), Event(Confirmation(16), now)]);
            && t.mainCells == 16 && t.active == Some(Active(Cell(17), now, None)) && !Has(t.stages, Cell(17))
            && Stepped(t, Cleanup, later).Err?
            && Stepped(t, Pause(Cell(17)), later).Err? && Stepped(t, Finish(Cell(17)), later).Err?
  {
    hide Inv, Stepped, Final, After, Find, Kept;
    var begin, confirm := Begin(Cell(17), None), Confirmation(16);
    assert NameAt(24) == Cell(17);
    ScreenedFind(s.stages, 8, 24);
    CalmStep(s0, s, begin, now);
    var b := Changed(s, begin, now).value;
    ScreenedConfirms(s.stages);
    var t := Changed(b, confirm, now).value;
    InvNames(s0, b);
    KeptFacts(b.stages, 16);
    assert Calm(t, now) by {
      forall k | 0 <= k < |t.stages| ensures t.stages[k].used == 0 { assert t.stages[k] in b.stages; }
    }
    CalmStep(s0, b, confirm, now);
    DroppedActiveIsStuck(b, 16, now, later);
    KeptHas(b.stages, 16, Cell(17));
    FinalTwo(s, Event(begin, now), Event(confirm, now));
  }

  /** From every admitted initial state this run goes through, and leaves a running stage that is no
      longer in the program: no later action can pause or finish it, or enter cleanup. */
  lemma {:induction false} DroppingRunIsStuck(
      deadline: int, residentDebit: int, pressuredDebit: int, now: int, later: int)
    requires Initial(deadline, residentDebit, pressuredDebit, now).Ok?
    ensures var s := Final(Initial(deadline, residentDebit, pressuredDebit, now).value, DroppingRun(now));
            && s.mainCells == 16 && s.active == Some(Active(Cell(17), now, None)) && !Has(s.stages, Cell(17))
            && Stepped(s, Cleanup, later).Err?
            && Stepped(s, Pause(Cell(17)), later).Err? && Stepped(s, Finish(Cell(17)), later).Err?
  {
    hide Initial, Final, Stepped;
    var s0 := Initial(deadline, residentDebit, pressuredDebit, now).value;
    InitialScreen(deadline, residentDebit, pressuredDebit, now);
    ScreenAll(s0, s0, 8, now);
    var s := Final(s0, ScreeningAll(8, now));
    DropFrom(s0, s, now, later);
    FinalJoin(s0, ScreeningAll(8, now), [Event(Begin(Cell(17), None), now), Event(Confirmation(16), now)]);
  }

  // ----- The state dictionary, updated in place

  class Campaign {
    var state: State

    method Observe(now: int) returns (r: Result<Report, Fault>)
      modifies this
      ensures r == Observed(old(state), now)
      ensures state == if r.Ok? then old(state).(lastObserved := now) else old(state)
    {
      if now < state.lastObserved || now < state.resumed { return Err(ClockBackwards); }
      var spent := 0;
      for i := 0 to |state.stages|
        invariant state == old(state) && spent == Spent(state.stages[..i], state.active, now)
      {
        spent := spent + Min(UsedAt(state.stages[i], state.active, now), state.stages[i].maximum);
        assert state.stages[..i + 1][..i] == state.stages[..i];
      }
      assert state.stages[..|state.stages|] == state.stages;
      var wall := now - state.resumed;
      var cleanupElapsed := if state.cleanupStarted.Some? then now - state.cleanupStarted.value else 0;
      var overhead := wall - spent - cleanupElapsed;
      if overhead < 0 { return Err(AccountingOverrun); }
      var remaining := 0;
      for i := 0 to |state.stages|
        invariant state == old(state) && remaining == Remaining(state.stages[..i], state.active, now)
        invariant forall k | 0 <= k < i :: UsedAt(state.stages[k], state.active, now) <= state.stages[k].hard
      {
        var used := UsedAt(state.stages[i], state.active, now);
        if used > state.stages[i].hard { return Err(HardBound); }
        if !state.stages[i].complete { remaining := remaining + Max(state.stages[i].maximum - used, 0); }
        assert state.stages[..i + 1][..i] == state.stages[..i];
      }
      if overhead > state.overheadLimit { return Err(OverheadExceeded); }
      var required := if state.cleanupStarted.None?
                      then remaining + state.replacement + state.cleanup + state.overheadLimit - overhead else 0;
      if now + required > state.deadline { return Err(CannotFit); }
      if now > state.deadline { return Err(PastDeadline); }
      state := state.(lastObserved := now);
      return Ok(Report(remaining, overhead, required));
    }

    method Transition(a: Action, now: int) returns (r: Result<(), Fault>)
      modifies this
      ensures r.Ok? ==> Stepped(old(state), a, now) == Ok(state)
      ensures r.Err? ==> Stepped(old(state), a, now) == Err(r.error)
    {
      hide Observed, Changed;
      if a == Cleanup {
        if state.cleanupStarted.None? {
          if state.active.Some? {
            if !Has(state.stages, state.active.value.name) { return Err(BadStage); }
            state := Charged(state, now);
          }
          state := state.(cleanupStarted := Some(now));
        }
        state := state.(lastObserved := Max(state.lastObserved, now));
        return Ok(());
      }
      var first := Observe(now);
      if first.Err? { return Err(first.error); }
      if state.cleanupStarted.Some? { return Err(InCleanup); }
      var change := Change(a, now);
      if change.Err? { return Err(change.error); }
      var last := Observe(now);
      if last.Err? { return Err(last.error); }
      return Ok(());
    }

    /** The change of one admitted action. */
    method Change(a: Action, now: int) returns (r: Result<(), Fault>)
      requires a != Cleanup && state.lastObserved == now
      modifies this
      ensures r.Ok? ==> Changed(old(state), a, now) == Ok(state) && state.lastObserved == now
      ensures r.Err? ==> Changed(old(state), a, now) == Err(r.error)
    {
      match a {
        case Confirmation(cells) =>
          if !Confirmable(state.stages, cells) { return Err(BadConfirmation); }
          state := state.(stages := Kept(state.stages, cells));
          state := state.(mainCells := cells);
        case CloseMatrix =>
          if exists i | 0 <= i < |state.stages| :: state.stages[i].name.Cell? && !state.stages[i].complete {
            return Err(IncompleteMatrix);
          }
          state := state.(replacement := 0);
        case Begin(name, monotonic) =>
          if state.active.Some? || !Has(state.stages, name) || Get(state.stages, name).complete {
            return Err(BadStage);
          }
          state := state.(active := Some(Active(name, now, monotonic)));
        case Pause(name) =>
          if state.active.None? || state.active.value.name != name || !Has(state.stages, name) {
            return Err(NoCustody);
          }
          state := Charged(state, now);
          state := Completed(state, name, false);
        case Finish(name) =>
          if state.active.None? || state.active.value.name != name || !Has(state.stages, name) {
            return Err(NoCustody);
          }
          state := Charged(state, now);
          state := Completed(state, name, true);
        case Check =>
      }
      return Ok(());
    }

    /** The durable file is replaced only after a successful transition and, if asked for, guard; the
        guard names a reason to cancel exactly as `Cancels` says, and fails on an event without an
        overhead or an active stage that is gone. */
    method LockedTransition(a: Action, now: int, monotonicNow: int, guarded: bool)
      returns (r: Result<Option<CancelReason>, Fault>)
      modifies this
      ensures r.Ok? ==> state == After(old(state), Event(a, now))
      ensures r.Err? ==> state == old(state)
      ensures var t := Stepped(old(state), a, now);
              && (r.Ok? <==> t.Ok? && (guarded ==> a != Cleanup && Manned(t.value)))
              && (r.Ok? ==> (r.value.Some? <==> guarded && Cancels(t.value, now, monotonicNow)))
    {
      hide Stepped;
      var durable := state;
      var stepped := Transition(a, now);
      if stepped.Err? { state := durable; return Err(stepped.error); }
      if !guarded { return Ok(None); }
      if a == Cleanup || (state.active.Some? && !Has(state.stages, state.active.value.name)) {
        state := durable;
        return Err(BadStage);
      }
      var reason, usefulRemaining := None, 0;
      if state.active.Some? {
        var active, stage := state.active.value, Get(state.stages, state.active.value.name);
        var elapsed := now - active.started;
        if active.monotonic.Some? { elapsed := Max(elapsed, (monotonicNow - active.monotonic.value) / 1_000_000); }
        var used := stage.used + elapsed;
        if stage.hard - used <= STOP_GUARD_MS { reason := Some(StageTail); }
        usefulRemaining := Max(stage.maximum - used, 0);
      }
      if state.overheadLimit - Overhead(state, now) + usefulRemaining <= STOP_GUARD_MS { reason := Some(OverheadTail); }
      return Ok(reason);
    }
  }
}

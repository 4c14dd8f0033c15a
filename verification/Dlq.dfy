/**
 The one-record dead-letter controller (scripts/ci/messaging-recovery.py:1055-1180) and the
 publisher it starts (crates/infra-messaging/examples/dlq_recovery.rs:402-498), against a broker
 whose replies may be lost and whose deletes may land late, or more than once.

 Durable state is the session's freeze flag, the in-flight file, the immutable selections and
 their journals.  The controller may crash between any two steps; the client it started runs on.
 Each controller reads the session document before it takes the lock, so the freeze flag it
 works with (`view`) may be out of date.
 */
module Dlq {
  import opened Common

  type Name = string

  type Id = int

  type Message = int

  datatype Record = Record(seqno: nat, message: Message)

  /** `id` is the publication prepared from the record, if it can be restored. */
  datatype Selection = Selection(record: Record, id: Option<Id>)

  /** One incarnation of a stream: sequences at or above `next` were never assigned. */
  datatype Stream = Stream(messages: map<nat, Message>, next: nat)

  datatype Ack = Ack(fromSource: bool, seqno: nat)

  datatype Publication = NotAttempted | Ambiguous | Rejected | Confirmed

  datatype Retirement = Retained | Absent | Stale | Unknown | Retired | Refused

  datatype Journal = Journal(publication: Publication, ack: Option<Ack>, retirement: Retirement)

  datatype Kind = Inspect | Redrive | Retire | Restore

  datatype Custody = Custody(kind: Kind, name: Name)

  /** Where the controller is.  `held` is the journal it loaded. */
  datatype Phase =
    | Ready
    | Loaded(name: Name, held: Journal)
    | Entering(op: Custody, held: Journal)
    | Freezing(op: Custody, held: Journal)
    | Claiming(op: Custody, held: Journal)
    | Matching(name: Name, held: Journal)
    | Intending(name: Name, held: Journal)
    | Requesting(name: Name, held: Journal)
    | Awaiting(name: Name, held: Journal)
    | Rereading(name: Name, held: Journal)
    | Recording(op: Custody, held: Journal)
    | Launching(op: Custody)
    | Waiting(op: Custody)
    | Reconciling(op: Custody)
    | Closing(op: Custody)

  datatype Controller = Off | On(view: bool, phase: Phase)

  datatype Stage = Fetching | Publishing | Replying

  /** The process started in the client container. */
  datatype Client =
    | Idle(ok: bool)
    | Inspecting(name: Name, seqno: nat)
    | Restoring
    | Redriving(name: Name, stage: Stage, held: Journal)

  datatype State = State(
    // durable files
    frozen: bool, inflight: Option<Custody>, selections: map<Name, Selection>, journals: map<Name, Journal>,
    // processes
    controller: Controller, client: Client,
    // broker; `source` is every sequence the current source stream ever assigned
    dlq: Option<Stream>, source: Option<map<nat, Id>>, deletes: set<Record>, publishes: set<Id>,
    // history: records whose deletion was recorded as intended, acknowledged publications, and
    // whether a stream was replaced after something in it was relied upon
    intents: set<Record>, acks: set<(nat, Id)>, replaced: bool)

  const BLANK := Journal(NotAttempted, None, Retained)

  function Initial(dlq: Option<Stream>, source: Option<map<nat, Id>>): State {
    State(false, None, map[], map[], Off, Idle(true), dlq, source, {}, {}, {}, {}, false)
  }

  datatype ControllerStep =
    | Open(view: bool)
    | BeginRetire(name: Name)
    | BeginReconcile
    | BeginOther(op: Custody)
    | Proceed(readable: bool, success: bool, seqno: nat)
    | SaveSession
    | Crash

  datatype ClientStep = ClientProceed(ack: Option<Ack>, rejected: bool) | ClientFails

  datatype BrokerStep =
    | Append(message: Message)
    | Expire(seqno: nat)
    | DeleteLands(record: Record)
    | PublishLands(id: Id, seqno: nat)
    | RestoreDlq(stream: Stream)
    | RestoreSource(log: map<nat, Id>)
    | DlqLost
    | SourceLost

  datatype Step = Controls(c: ControllerStep) | Clients(k: ClientStep) | Brokers(b: BrokerStep)

  /** `exact_record`: what the broker answers for a selected record; `None` raises. */
  function Observed(dlq: Option<Stream>, r: Record): Option<Retirement> {
    if dlq.None? then None
    else if r.seqno !in dlq.value.messages then Some(Absent)
    else if dlq.value.messages[r.seqno] == r.message then Some(Retained)
    else Some(Stale)
  }

  /** The admission test of `retire`. */
  predicate Publishable(j: Journal) {
    j.publication == Confirmed && j.ack.Some? && j.ack.value.fromSource && j.ack.value.seqno > 0
  }

  predicate ClientIdle(s: State) { s.client.Idle? }

  function At(s: State, p: Phase): State
    requires s.controller.On?
  {
    s.(controller := On(s.controller.view, p))
  }

  predicate Freezes(op: Custody) { op.kind.Redrive? || op.kind.Retire? }

  /** Loading a selection and its journal. */
  predicate Journaled(s: State, n: Name) { n in s.selections && n in s.journals }

  function Launch(s: State, op: Custody, seqno: nat): Option<State>
    requires s.controller.On?
  {
    match op.kind
    case Inspect => Some(At(s.(client := Inspecting(op.name, seqno)), Waiting(op)))
    case Redrive =>
      if op.name !in s.selections then None
      else Some(At(s.(client := Redriving(op.name, Fetching, BLANK)), Waiting(op)))
    case Restore => if s.controller.view then None else Some(At(s.(client := Restoring), Waiting(op)))
    case Retire => None
  }

  /** The body of `retire` inside its operation. */
  function RetireStep(s: State, readable: bool, success: bool): Option<State>
    requires s.controller.On?
  {
    match s.controller.phase
    case Matching(n, j) =>
      if n !in s.selections then None else
      var seen := Observed(s.dlq, s.selections[n].record);
      if !readable || seen.None? then None
      else if seen.value.Retained? then Some(At(s, Intending(n, j.(retirement := Unknown))))
      else Some(At(s, Recording(Custody(Retire, n), j.(retirement := seen.value))))
    case Intending(n, j) =>
      if n !in s.selections then None
      else Some(At(s.(journals := s.journals[n := j], intents := s.intents + {s.selections[n].record}),
                   Requesting(n, j)))
    case Requesting(n, j) =>
      if n !in s.selections then None
      else Some(At(s.(deletes := s.deletes + {s.selections[n].record}), Awaiting(n, j)))
    case Awaiting(n, j) =>
      if success then Some(At(s, Recording(Custody(Retire, n), j.(retirement := Retired))))
      else Some(At(s, Rereading(n, j)))
    case Rereading(n, j) =>
      if n !in s.selections then None else
      var seen := Observed(s.dlq, s.selections[n].record);
      var verdict := if !readable || seen.None? then Unknown else if seen.value.Absent? then Retired else seen.value;
      Some(At(s, Recording(Custody(Retire, n), j.(retirement := verdict))))
    case _ => None
  }

  /** `reconcile`: only a journal already at `unknown` turns into `retired`. */
  function Reconciled(s: State, op: Custody, readable: bool): Option<State>
    requires s.controller.On?
  {
    if !Freezes(op) then Some(At(s, Closing(op)))
    else if op.name !in s.selections then None
    else if op.name !in s.journals then Some(At(s, Closing(op)))
    else
      var j := s.journals[op.name];
      var seen := Observed(s.dlq, s.selections[op.name].record);
      if !readable || seen.None? then None
      else
        var verdict := if seen.value.Absent? && j.retirement.Unknown? then Retired else seen.value;
        Some(At(s, Recording(op, j.(retirement := verdict))))
  }

  /** `operation` around every command, then the body of `retire`; a refusal raises. */
  function Advance(s: State, readable: bool, success: bool, seqno: nat): Option<State>
    requires s.controller.On?
  {
    match s.controller.phase
    case Ready => None
    case Loaded(n, j) =>
      if Publishable(j) then Some(At(s, Entering(Custody(Retire, n), j)))
      else Some(At(s.(journals := s.journals[n := j.(retirement := Refused)]), Ready))
    case Entering(op, j) =>
      if !ClientIdle(s) || s.inflight.Some? then None
      else Some(At(s, if Freezes(op) then Freezing(op, j) else Claiming(op, j)))
    case Freezing(op, j) => Some(s.(frozen := true, controller := On(true, Claiming(op, j))))
    case Claiming(op, j) =>
      if s.inflight.Some? then None
      else Some(At(s.(inflight := Some(op)), if op.kind.Retire? then Matching(op.name, j) else Launching(op)))
    case Launching(op) => Launch(s, op, seqno)
    case Waiting(op) => if s.client.Idle? && s.client.ok then Some(At(s, Closing(op))) else None
    case Closing(op) => Some(At(s.(inflight := None), Ready))
    case Recording(op, j) => Some(At(s.(journals := s.journals[op.name := j]), Closing(op)))
    case Reconciling(op) => Reconciled(s, op, readable)
    case _ => RetireStep(s, readable, success)
  }

  predicate ControllerEnabled(s: State, c: ControllerStep) {
    match c
    case Open(view) => s.controller.Off? && (view ==> s.frozen)
    case BeginRetire(n) => s.controller.On? && s.controller.phase.Ready? && Journaled(s, n)
    case BeginReconcile => s.controller.On? && s.controller.phase.Ready? && ClientIdle(s) && s.inflight.Some?
    case BeginOther(op) =>
      && s.controller.On? && s.controller.phase.Ready? && !op.kind.Retire?
      && (op.kind.Redrive? ==> op.name in s.selections)
    // a success reply comes after the delete took effect
    case Proceed(_, success, _) =>
      && s.controller.On?
      && (success && s.controller.phase.Awaiting? ==>
            && s.controller.phase.name in s.selections && s.dlq.Some?
            && s.selections[s.controller.phase.name].record.seqno !in s.dlq.value.messages)
    case SaveSession => s.controller.On? && s.controller.phase.Ready?
    case Crash => true
  }

  function ControllerApply(s: State, c: ControllerStep): State
    requires ControllerEnabled(s, c)
  {
    match c
    case Open(view) => s.(controller := On(view, Ready))
    case BeginRetire(n) => At(s, Loaded(n, s.journals[n]))
    case BeginReconcile => At(s, Reconciling(s.inflight.value))
    case BeginOther(op) => At(s, Entering(op, BLANK))
    case Proceed(readable, success, q) =>
      var t := Advance(s, readable, success, q);
      if t.Some? then t.value else s.(controller := Off)
    case SaveSession => s.(frozen := s.controller.view)
    case Crash => s.(controller := Off)
  }

  predicate ClientEnabled(s: State, k: ClientStep) {
    match k
    case ClientFails => !s.client.Idle?
    // an acknowledgement from the source stream names a sequence that holds this publication
    case ClientProceed(ack, _) =>
      && !s.client.Idle?
      && (s.client.Redriving? && s.client.stage.Replying? && ack.Some? && ack.value.fromSource ==>
            && s.source.Some? && s.client.name in s.selections
            && ack.value.seqno in s.source.value
               && Some(s.source.value[ack.value.seqno]) == s.selections[s.client.name].id)
  }

  /** The redrive client (dlq_recovery.rs): fetch and compare, journal `ambiguous`, publish, journal. */
  function RedriveApply(s: State, n: Name, stage: Stage, j: Journal, ack: Option<Ack>, rejected: bool): State
    requires n in s.selections && s.selections[n].id.Some?
  {
    match stage
    case Fetching =>
      var state := if n in s.journals then s.journals[n] else BLANK;
      var seen := Observed(s.dlq, s.selections[n].record);
      if seen.None? then s.(client := Idle(false))
      else if !seen.value.Retained? then
        s.(client := Idle(true), journals := s.journals[n := state.(retirement := seen.value)])
      else if state.publication.Confirmed? then s.(client := Idle(true))
      else if rejected then
        s.(client := Idle(true), journals := s.journals[n := state.(publication := Rejected)])
      else
        var started := state.(publication := Ambiguous, ack := None);
        s.(client := Redriving(n, Publishing, started), journals := s.journals[n := started])
    case Publishing =>
      s.(client := Redriving(n, Replying, j), publishes := s.publishes + {s.selections[n].id.value})
    case Replying =>
      if ack.Some? && ack.value.fromSource && ack.value.seqno > 0 then
        s.(client := Idle(true), journals := s.journals[n := j.(publication := Confirmed, ack := ack)],
           acks := s.acks + {(ack.value.seqno, s.selections[n].id.value)})
      else if ack.None? && rejected then
        s.(client := Idle(true), journals := s.journals[n := j.(publication := Rejected)])
      else s.(client := Idle(true), journals := s.journals[n := j])
  }

  function ClientApply(s: State, k: ClientStep): State
    requires ClientEnabled(s, k)
  {
    match k
    case ClientFails => s.(client := Idle(false))
    case ClientProceed(ack, rejected) =>
      match s.client
      case Idle(_) => s
      case Restoring => s.(client := Idle(true))
      case Inspecting(n, q) =>
        if n in s.selections || s.dlq.None? then s.(client := Idle(false))
        else if q !in s.dlq.value.messages then s.(client := Idle(true))
        else
          var message := s.dlq.value.messages[q];
          var selected := Selection(Record(q, message), if rejected then None else Some(message));
          s.(client := Idle(true), selections := s.selections[n := selected])
      case Redriving(n, stage, j) =>
        if n !in s.selections || s.selections[n].id.None? then s.(client := Idle(false))
        else RedriveApply(s, n, stage, j, ack, rejected)
  }

  predicate BrokerEnabled(s: State, b: BrokerStep) {
    match b
    case Append(_) => s.dlq.Some?
    case Expire(q) => s.dlq.Some?
    case DeleteLands(r) => r in s.deletes
    case PublishLands(id, q) => id in s.publishes && s.source.Some? && q > 0 && q !in s.source.value
    case RestoreDlq(stream) => s.client.Restoring? && s.dlq.None? && (forall q <- stream.messages :: q < stream.next)
    case RestoreSource(_) => s.client.Restoring? && s.source.None?
    case DlqLost => true
    case SourceLost => true
  }

  function BrokerApply(s: State, b: BrokerStep): State
    requires BrokerEnabled(s, b)
  {
    match b
    case Append(m) =>
      var st := s.dlq.value;
      s.(dlq := Some(Stream(st.messages[st.next := m], st.next + 1)))
    case Expire(q) => s.(dlq := Some(s.dlq.value.(messages := s.dlq.value.messages - {q})))
    case DeleteLands(r) =>
      if s.dlq.None? then s else s.(dlq := Some(s.dlq.value.(messages := s.dlq.value.messages - {r.seqno})))
    case PublishLands(id, q) => s.(source := Some(s.source.value[q := id]))
    case RestoreDlq(stream) => s.(dlq := Some(stream), replaced := s.replaced || s.intents != {})
    case RestoreSource(log) => s.(source := Some(log), replaced := s.replaced || s.acks != {})
    case DlqLost => s.(dlq := None)
    case SourceLost => s.(source := None)
  }

  predicate Enabled(s: State, st: Step) {
    match st
    case Controls(c) => ControllerEnabled(s, c)
    case Clients(k) => ClientEnabled(s, k)
    case Brokers(b) => BrokerEnabled(s, b)
  }

  function Apply(s: State, st: Step): State
    requires Enabled(s, st)
  {
    match st
    case Controls(c) => ControllerApply(s, c)
    case Clients(k) => ClientApply(s, k)
    case Brokers(b) => BrokerApply(s, b)
  }

  predicate Runnable(s: State, run: seq<Step>)
    decreases |run|
  {
    run == [] || (Enabled(s, run[0]) && Runnable(Apply(s, run[0]), run[1..]))
  }

  function Run(s: State, run: seq<Step>): State
    requires Runnable(s, run)
    decreases |run|
  {
    if run == [] then s else Run(Apply(s, run[0]), run[1..])
  }

  // ----- Invariant -----

  /** The sequence was assigned in this incarnation, and only ever to this message. */
  predicate Anchored(dlq: Option<Stream>, r: Record) {
    dlq.Some? ==>
      r.seqno < dlq.value.next && (r.seqno in dlq.value.messages ==> dlq.value.messages[r.seqno] == r.message)
  }

  predicate Gone(dlq: Option<Stream>, r: Record) {
    dlq.Some? ==> r.seqno !in dlq.value.messages
  }

  /** The source stream acknowledged the selection's publication at the journaled sequence. */
  predicate Published(s: State, n: Name, j: Journal) {
    && n in s.selections && s.selections[n].id.Some? && Publishable(j)
    && (j.ack.value.seqno, s.selections[n].id.value) in s.acks
  }

  predicate JournalOk(s: State, n: Name, j: Journal) {
    && n in s.selections
    && (j.publication.Confirmed? ==> Published(s, n, j))
    && (j.retirement.Unknown? || j.retirement.Retired? ==>
        j.publication.Confirmed? && s.selections[n].record in s.intents)
    && (j.retirement.Retired? ==> s.replaced || Gone(s.dlq, s.selections[n].record))
  }

  /** Every acknowledged sequence of the source stream holds its publication. */
  predicate LogOk(source: Option<map<nat, Id>>, acks: set<(nat, Id)>) {
    source.Some? ==> forall a <- acks :: a.0 in source.value && source.value[a.0] == a.1
  }

  predicate BrokerInv(s: State) {
    && (s.dlq.Some? ==> forall q <- s.dlq.value.messages :: q < s.dlq.value.next)
    && s.deletes <= s.intents
    && (s.replaced || ((forall r <- s.intents :: Anchored(s.dlq, r)) && LogOk(s.source, s.acks)))
  }

  predicate FilesInv(s: State) { forall n <- s.journals :: JournalOk(s, n, s.journals[n]) }

  /** A running client is covered by the in-flight file. */
  predicate ClientInv(s: State) {
    match s.client
    case Idle(_) => true
    case Inspecting(n, _) => s.inflight == Some(Custody(Inspect, n))
    case Restoring => s.inflight.Some? && s.inflight.value.kind.Restore?
    case Redriving(n, stage, j) =>
      s.inflight == Some(Custody(Redrive, n)) && (!stage.Fetching? ==> JournalOk(s, n, j) && j.publication.Ambiguous?)
  }

  /** Inside `retire`: custody, freeze and confirmation are in place and nobody else runs. */
  predicate Retiring(s: State, n: Name, j: Journal)
    requires s.controller.On?
  {
    s.inflight == Some(Custody(Retire, n)) && s.client.Idle? && s.frozen && s.controller.view && Published(s, n, j)
  }

  predicate RetireInv(s: State)
    requires s.controller.On?
  {
    match s.controller.phase
    case Matching(n, j) => Retiring(s, n, j) && JournalOk(s, n, j)
    case Intending(n, j) =>
      Retiring(s, n, j) && j.retirement.Unknown? && (s.replaced || Anchored(s.dlq, s.selections[n].record))
    case Requesting(n, j) =>
      Retiring(s, n, j) && j.retirement.Unknown? && JournalOk(s, n, j) && n in s.journals && s.journals[n] == j
    case Awaiting(n, j) =>
      Retiring(s, n, j) && j.retirement.Unknown? && JournalOk(s, n, j) && s.selections[n].record in s.deletes
    case Rereading(n, j) =>
      Retiring(s, n, j) && j.retirement.Unknown? && JournalOk(s, n, j) && s.selections[n].record in s.deletes
    case _ => true
  }

  predicate PhaseInv(s: State) {
    s.controller.On? ==>
      match s.controller.phase
      case Ready => true
      case Loaded(n, j) => JournalOk(s, n, j)
      case Entering(op, j) => op.kind.Retire? ==> JournalOk(s, op.name, j) && Publishable(j)
      case Freezing(op, j) =>
        && s.inflight.None? && s.client.Idle? && Freezes(op)
        && (op.kind.Retire? ==> JournalOk(s, op.name, j) && Publishable(j))
      case Claiming(op, j) =>
        && s.inflight.None? && s.client.Idle? && (Freezes(op) ==> s.frozen && s.controller.view)
        && (op.kind.Retire? ==> JournalOk(s, op.name, j) && Publishable(j))
      case Launching(op) => s.inflight == Some(op) && s.client.Idle? && (Freezes(op) ==> s.frozen && s.controller.view)
      case Waiting(op) => s.inflight == Some(op)
      case Closing(op) => s.inflight == Some(op) && s.client.Idle?
      case Reconciling(op) => s.inflight == Some(op) && s.client.Idle?
      case Recording(op, j) => s.inflight == Some(op) && s.client.Idle? && JournalOk(s, op.name, j)
      case _ => RetireInv(s)
  }

  predicate Inv(s: State) { BrokerInv(s) && FilesInv(s) && ClientInv(s) && PhaseInv(s) }

  /** No stream is replaced once something in it is relied upon. */
  predicate Guarded(s: State, st: Step) {
    && (st.Brokers? && st.b.RestoreDlq? ==> s.intents == {})
    && (st.Brokers? && st.b.RestoreSource? ==> s.acks == {})
  }

  /** What no step takes back; absence, as long as no relied-upon stream is replaced. */
  predicate Keeps(s: State, t: State) {
    && (forall n <- s.selections :: n in t.selections && t.selections[n] == s.selections[n])
    && s.acks <= t.acks && s.intents <= t.intents && (s.replaced ==> t.replaced)
    && (t.replaced || forall r <- s.intents :: Gone(s.dlq, r) ==> Gone(t.dlq, r))
  }

  lemma JournalKept(s: State, t: State, n: Name, j: Journal)
    requires Keeps(s, t) && JournalOk(s, n, j)
    ensures JournalOk(t, n, j)
  {
  }

  lemma FilesKept(s: State, t: State)
    requires Keeps(s, t) && FilesInv(s) && t.journals == s.journals
    ensures FilesInv(t)
  {
    forall n <- t.journals
      ensures JournalOk(t, n, t.journals[n])
    {
      JournalKept(s, t, n, t.journals[n]);
    }
  }

  lemma FilesSet(s: State, t: State, n: Name, j: Journal)
    requires Keeps(s, t) && FilesInv(s) && t.journals == s.journals[n := j] && JournalOk(t, n, j)
    ensures FilesInv(t)
  {
    forall m <- t.journals
      ensures JournalOk(t, m, t.journals[m])
    {
      if m != n { JournalKept(s, t, m, t.journals[m]); }
    }
  }

  /** A phase that a step does not touch stays justified. */
  lemma PhaseKept(s: State, t: State)
    requires Keeps(s, t) && PhaseInv(s) && t.controller == s.controller && t.inflight == s.inflight
             && t.frozen == s.frozen
    requires s.client.Idle? ==> t.client == s.client && t.journals == s.journals
    requires s.deletes <= t.deletes
    requires t.replaced || forall r :: Anchored(s.dlq, r) ==> Anchored(t.dlq, r)
    ensures PhaseInv(t)
  {
  }

  lemma BrokerStepKeeps(s: State, b: BrokerStep)
    requires BrokerInv(s) && BrokerEnabled(s, b)
    ensures Keeps(s, BrokerApply(s, b)) && BrokerInv(BrokerApply(s, b))
    ensures !b.RestoreDlq? ==> forall r :: Anchored(s.dlq, r) ==> Anchored(BrokerApply(s, b).dlq, r)
  {
  }

  lemma RestoringPhase(s: State, t: State)
    requires Keeps(s, t) && PhaseInv(s) && s.client.Restoring? && t.client == s.client
    requires t.controller == s.controller && t.inflight == s.inflight
    ensures PhaseInv(t)
  {
  }

  lemma BrokerStepInv(s: State, b: BrokerStep)
    requires Inv(s) && BrokerEnabled(s, b)
    ensures Keeps(s, BrokerApply(s, b)) && Inv(BrokerApply(s, b))
  {
    hide JournalOk, PhaseInv, RetireInv, BrokerInv, Keeps, FilesInv, Anchored;
    var t := BrokerApply(s, b);
    BrokerStepKeeps(s, b);
    FilesKept(s, t);
    if !b.RestoreDlq? { PhaseKept(s, t); } else { RestoringPhase(s, t); }
    if s.client.Redriving? && !s.client.stage.Fetching? { JournalKept(s, t, s.client.name, s.client.held); }
  }

  lemma RedriveFrame(s: State, n: Name, stage: Stage, j: Journal, ack: Option<Ack>, rejected: bool)
    requires n in s.selections && s.selections[n].id.Some?
    ensures var t := RedriveApply(s, n, stage, j, ack, rejected);
      && t == s.(client := t.client, journals := t.journals, publishes := t.publishes, acks := t.acks)
      && (t.acks != s.acks ==> stage.Replying? && ack.Some? && ack.value.fromSource)
  {
  }

  lemma RedriveKeeps(s: State, n: Name, stage: Stage, j: Journal, ack: Option<Ack>, rejected: bool)
    requires BrokerInv(s) && s.client == Redriving(n, stage, j) && n in s.selections && s.selections[n].id.Some?
    requires ClientEnabled(s, ClientProceed(ack, rejected))
    ensures var t := RedriveApply(s, n, stage, j, ack, rejected); Keeps(s, t) && BrokerInv(t)
  {
    hide JournalOk;
    RedriveFrame(s, n, stage, j, ack, rejected);
  }

  /** At most this selection's journal was written, and only with what may be claimed. */
  predicate WritesOwn(s: State, t: State, n: Name) {
    && ClientInv(t)
    && (t.journals == s.journals
        || (n in t.journals && t.journals == s.journals[n := t.journals[n]] && JournalOk(t, n, t.journals[n])))
  }

  lemma FetchingJournal(s: State, n: Name, j: Journal, ack: Option<Ack>, rejected: bool)
    requires n in s.selections && s.selections[n].id.Some? && ClientInv(s) && s.client == Redriving(n, Fetching, j)
    requires n in s.journals ==> JournalOk(s, n, s.journals[n])
    ensures WritesOwn(s, RedriveApply(s, n, Fetching, j, ack, rejected), n)
  {
    hide Anchored, Gone;
  }

  lemma SendingJournal(s: State, n: Name, stage: Stage, j: Journal, ack: Option<Ack>, rejected: bool)
    requires n in s.selections && s.selections[n].id.Some? && ClientInv(s) && s.client == Redriving(n, stage, j)
    requires !stage.Fetching?
    ensures WritesOwn(s, RedriveApply(s, n, stage, j, ack, rejected), n)
  {
    hide Anchored, Gone, Observed;
  }

  /** The publisher writes only its own selection's journal, and only what it may claim. */
  lemma RedriveJournal(s: State, n: Name, stage: Stage, j: Journal, ack: Option<Ack>, rejected: bool)
    requires n in s.selections && s.selections[n].id.Some? && ClientInv(s) && s.client == Redriving(n, stage, j)
    requires n in s.journals ==> JournalOk(s, n, s.journals[n])
    ensures WritesOwn(s, RedriveApply(s, n, stage, j, ack, rejected), n)
  {
    hide WritesOwn, ClientInv, JournalOk, RedriveApply;
    if stage.Fetching? { FetchingJournal(s, n, j, ack, rejected); }
    else { SendingJournal(s, n, stage, j, ack, rejected); }
  }

  lemma HeldOk(s: State, n: Name)
    requires FilesInv(s)
    ensures n in s.journals ==> JournalOk(s, n, s.journals[n])
  {
  }

  lemma RedriveStepInv(s: State, n: Name, stage: Stage, j: Journal, ack: Option<Ack>, rejected: bool)
    requires BrokerInv(s) && FilesInv(s) && ClientInv(s)
    requires s.client == Redriving(n, stage, j) && n in s.selections && s.selections[n].id.Some?
    requires ClientEnabled(s, ClientProceed(ack, rejected))
    ensures var t := RedriveApply(s, n, stage, j, ack, rejected);
      Keeps(s, t) && BrokerInv(t) && FilesInv(t) && ClientInv(t)
  {
    hide FilesInv, ClientInv, BrokerInv, Keeps, RedriveApply, JournalOk, ClientEnabled;
    var t := RedriveApply(s, n, stage, j, ack, rejected);
    RedriveKeeps(s, n, stage, j, ack, rejected);
    HeldOk(s, n);
    RedriveJournal(s, n, stage, j, ack, rejected);
    if t.journals != s.journals { FilesSet(s, t, n, t.journals[n]); } else { FilesKept(s, t); }
  }

  /** The publisher takes a step of its own. */
  predicate Redrives(s: State, k: ClientStep) {
    && k.ClientProceed? && s.client.Redriving?
    && s.client.name in s.selections && s.selections[s.client.name].id.Some?
  }

  /** Every other client step leaves the journals alone. */
  lemma PlainClientStep(s: State, k: ClientStep)
    requires ClientEnabled(s, k) && BrokerInv(s)
    requires !Redrives(s, k)
    ensures var t := ClientApply(s, k);
      && Keeps(s, t) && BrokerInv(t) && t.client.Idle?
      && t == s.(client := t.client, selections := t.selections)
  {
  }

  lemma ClientStepInv(s: State, k: ClientStep)
    requires Inv(s) && ClientEnabled(s, k)
    ensures Keeps(s, ClientApply(s, k)) && Inv(ClientApply(s, k))
  {
    hide PhaseInv, RetireInv, FilesInv, JournalOk, RedriveApply, BrokerInv, Keeps;
    var t := ClientApply(s, k);
    if Redrives(s, k) {
      RedriveStepInv(s, s.client.name, s.client.stage, s.client.held, k.ack, k.rejected);
      RedriveFrame(s, s.client.name, s.client.stage, s.client.held, k.ack, k.rejected);
    } else {
      PlainClientStep(s, k);
      FilesKept(s, t);
    }
    PhaseKept(s, t);
  }

  /** An intent needs the match in force; a delete request needs its intent. */
  lemma BrokerGrows(s: State, t: State)
    requires BrokerInv(s) && t.dlq == s.dlq && t.source == s.source && t.acks == s.acks && t.selections == s.selections
    requires s.intents <= t.intents && t.deletes <= t.intents && t.replaced == s.replaced
    requires s.replaced || forall r <- t.intents - s.intents :: Anchored(s.dlq, r)
    ensures Keeps(s, t) && BrokerInv(t)
  {
    hide Gone;
  }

  lemma DeletesIntended(s: State)
    requires BrokerInv(s)
    ensures s.deletes <= s.intents
  {
  }

  lemma RetireStepKeeps(s: State, readable: bool, success: bool)
    requires s.controller.On? && BrokerInv(s) && RetireInv(s) && RetireStep(s, readable, success).Some?
    ensures var t := RetireStep(s, readable, success).value; Keeps(s, t) && BrokerInv(t)
  {
    hide Anchored, Published, Gone, Keeps, BrokerInv;
    var t := RetireStep(s, readable, success).value;
    DeletesIntended(s);
    BrokerGrows(s, t);
  }

  /** Inside `retire`: intent is journaled under an exact match, deletion requested under the intent. */
  lemma RetireStepInv(s: State, readable: bool, success: bool)
    requires s.controller.On? && Inv(s) && ControllerEnabled(s, Proceed(readable, success, 0))
             && RetireStep(s, readable, success).Some?
    ensures var t := RetireStep(s, readable, success).value; Keeps(s, t) && Inv(t)
  {
    hide FilesInv, Keeps;
    var t := RetireStep(s, readable, success).value;
    RetireStepKeeps(s, readable, success);
    if s.controller.phase.Intending? {
      FilesSet(s, t, s.controller.phase.name, s.controller.phase.held);
    } else { FilesKept(s, t); }
  }

  lemma ReconciledInv(s: State, op: Custody, readable: bool)
    requires s.controller.On? && Inv(s) && s.controller.phase == Reconciling(op) && Reconciled(s, op, readable).Some?
    ensures var t := Reconciled(s, op, readable).value; Keeps(s, t) && Inv(t)
  {
    hide FilesInv;
    HeldOk(s, op.name);
    var t := Reconciled(s, op, readable).value;
    assert Keeps(s, t);
    FilesKept(s, t);
  }

  lemma LaunchInv(s: State, op: Custody, seqno: nat)
    requires s.controller.On? && Inv(s) && s.controller.phase == Launching(op) && Launch(s, op, seqno).Some?
    ensures var t := Launch(s, op, seqno).value; Keeps(s, t) && Inv(t)
  {
    hide FilesInv;
    var t := Launch(s, op, seqno).value;
    assert Keeps(s, t);
    FilesKept(s, t);
  }

  predicate WritePhase(p: Phase) { p.Loaded? || p.Recording? }

  predicate CustodyPhase(p: Phase) { p.Entering? || p.Freezing? || p.Claiming? || p.Waiting? || p.Closing? }

  lemma WriteInv(s: State)
    requires s.controller.On? && Inv(s) && WritePhase(s.controller.phase) && Advance(s, true, true, 0).Some?
    ensures var t := Advance(s, true, true, 0).value; Keeps(s, t) && Inv(t)
  {
    hide FilesInv, Reconciled, RetireStep, Launch, RetireInv, Anchored;
    var t := Advance(s, true, true, 0).value;
    assert Keeps(s, t);
    var p := s.controller.phase;
    if p.Loaded? && !Publishable(p.held) { FilesSet(s, t, p.name, t.journals[p.name]); }
    else if p.Recording? { FilesSet(s, t, p.op.name, p.held); }
    else { FilesKept(s, t); }
  }

  lemma ConfirmedOk(s: State, n: Name, j: Journal)
    requires JournalOk(s, n, j) && Publishable(j)
    ensures Published(s, n, j)
  {
  }

  lemma CustodyInv(s: State)
    requires s.controller.On? && Inv(s) && CustodyPhase(s.controller.phase) && Advance(s, true, true, 0).Some?
    ensures var t := Advance(s, true, true, 0).value; Keeps(s, t) && Inv(t)
  {
    hide FilesInv, Reconciled, RetireStep, Launch, JournalOk, Anchored, Published, Gone;
    var t := Advance(s, true, true, 0).value;
    assert Keeps(s, t);
    FilesKept(s, t);
    if s.controller.phase.Claiming? || s.controller.phase.Entering? || s.controller.phase.Freezing? {
      var j := s.controller.phase.held;
      var n := s.controller.phase.op.name;
      if s.controller.phase.op.kind.Retire? { JournalKept(s, t, n, j); ConfirmedOk(t, n, j); }
    }
  }

  lemma AdvanceInv(s: State, readable: bool, success: bool, seqno: nat)
    requires s.controller.On? && Inv(s) && ControllerEnabled(s, Proceed(readable, success, seqno))
    requires Advance(s, readable, success, seqno).Some?
    ensures var t := Advance(s, readable, success, seqno).value; Keeps(s, t) && Inv(t)
  {
    hide Inv, Keeps, Reconciled, RetireStep, Launch;
    var p := s.controller.phase;
    if WritePhase(p) { WriteInv(s); }
    else if CustodyPhase(p) { CustodyInv(s); }
    else if p.Launching? { LaunchInv(s, p.op, seqno); }
    else if p.Reconciling? { ReconciledInv(s, p.op, readable); }
    else if !p.Ready? { RetireStepInv(s, readable, success); }
  }

  lemma ControllerStepInv(s: State, c: ControllerStep)
    requires Inv(s) && ControllerEnabled(s, c)
    ensures Keeps(s, ControllerApply(s, c)) && Inv(ControllerApply(s, c))
  {
    hide Advance, FilesInv;
    var t := ControllerApply(s, c);
    if c.Proceed? && Advance(s, c.readable, c.success, c.seqno).Some? {
      AdvanceInv(s, c.readable, c.success, c.seqno);
    } else {
      assert Keeps(s, t);
      FilesKept(s, t);
      if c.BeginRetire? { HeldOk(s, c.name); JournalKept(s, t, c.name, s.journals[c.name]); }
    }
  }

  /** Every step keeps the invariant, and takes nothing back. */
  lemma StepInv(s: State, st: Step)
    requires Inv(s) && Enabled(s, st)
    ensures Keeps(s, Apply(s, st)) && Inv(Apply(s, st))
  {
    hide Inv, Keeps;
    match st
    case Controls(c) => ControllerStepInv(s, c);
    case Clients(k) => ClientStepInv(s, k);
    case Brokers(b) => BrokerStepInv(s, b);
  }

  // ----- Two conditions under which every step of a run is guarded -----

  /** The controller read the session document no earlier than it took the lock. */
  predicate Fresh(s: State, st: Step) { st.Controls? && st.c.Open? ==> st.c.view == s.frozen }

  predicate FreshInv(s: State) {
    && (s.controller.On? ==> s.controller.view == s.frozen)
    && (s.intents != {} || s.acks != {} ==> s.frozen)
    && (s.client.Restoring? ==> !s.frozen)
    && (s.client.Redriving? ==> s.frozen)
  }

  /** The broker does not lose a stream. */
  predicate Lossless(st: Step) { st.Brokers? ==> !st.b.DlqLost? && !st.b.SourceLost? }

  predicate LosslessInv(s: State) {
    && (s.intents != {} ==> s.dlq.Some?)
    && (s.acks != {} ==> s.source.Some?)
    && (s.controller.On? && s.controller.phase.Intending? ==> s.dlq.Some?)
  }

  lemma RetireFrame(s: State, readable: bool, success: bool)
    requires s.controller.On? && RetireStep(s, readable, success).Some?
    ensures var t := RetireStep(s, readable, success).value;
      && t == s.(journals := t.journals, intents := t.intents, deletes := t.deletes, controller := t.controller)
      && t.controller.On? && t.controller.view == s.controller.view
      && (t.controller.phase.Intending? ==> s.dlq.Some?) && (t.intents != s.intents ==> s.controller.phase.Intending?)
  {
    match s.controller.phase
    case Matching(_, _) =>
    case Intending(_, _) =>
    case Requesting(_, _) =>
    case Awaiting(_, _) =>
    case Rereading(_, _) =>
    case _ =>
  }

  lemma ReconciledFrame(s: State, op: Custody, readable: bool)
    requires s.controller.On? && Reconciled(s, op, readable).Some?
    ensures var t := Reconciled(s, op, readable).value;
      && t == s.(controller := t.controller) && t.controller.On? && t.controller.view == s.controller.view
      && !t.controller.phase.Intending?
  {
  }

  lemma LaunchFrame(s: State, op: Custody, seqno: nat)
    requires s.controller.On? && Launch(s, op, seqno).Some?
    ensures var t := Launch(s, op, seqno).value;
      && t == s.(client := t.client, controller := t.controller) && t.controller.On?
         && t.controller.view == s.controller.view
      && !t.controller.phase.Intending?
      && (t.client.Restoring? ==> !s.controller.view) && (t.client.Redriving? ==> op.kind.Redrive?)
  {
  }

  lemma EntryFrame(s: State, readable: bool, success: bool, seqno: nat)
    requires s.controller.On? && Advance(s, readable, success, seqno).Some?
    requires WritePhase(s.controller.phase) || CustodyPhase(s.controller.phase)
    ensures var t := Advance(s, readable, success, seqno).value;
      && t.dlq == s.dlq && t.source == s.source && t.acks == s.acks && t.client == s.client && t.intents == s.intents
      && t.replaced == s.replaced
      && t.controller.On? && !t.controller.phase.Intending?
      && (if s.controller.phase.Freezing? then t.frozen && t.controller.view
          else t.frozen == s.frozen && t.controller.view == s.controller.view)
  {
    hide RetireStep, Reconciled, Launch, Publishable;
    match s.controller.phase
    case Loaded(_, _) =>
    case Recording(_, _) =>
    case Entering(_, _) =>
    case Freezing(_, _) =>
    case Claiming(_, _) =>
    case Waiting(_) =>
    case Closing(_) =>
    case _ =>
  }

  /** What a controller step may touch: streams, acknowledgements and selections stay as they are. */
  lemma AdvanceFrame(s: State, readable: bool, success: bool, seqno: nat)
    requires s.controller.On? && Advance(s, readable, success, seqno).Some?
    ensures var t := Advance(s, readable, success, seqno).value;
      && t.dlq == s.dlq && t.source == s.source && t.acks == s.acks && t.replaced == s.replaced && t.controller.On?
      && ((t.frozen == s.frozen && t.controller.view == s.controller.view)
          || (s.controller.phase.Freezing? && t.frozen && t.controller.view && t.client == s.client))
      && (t.controller.phase.Intending? ==> s.dlq.Some?) && (t.intents != s.intents ==> s.controller.phase.Intending?)
      && (t.client == s.client
          || (s.controller.phase.Launching? && (t.client.Restoring? ==> !s.controller.view)
              && (t.client.Redriving? ==> s.controller.phase.op.kind.Redrive?)))
  {
    hide RetireStep, Reconciled, Launch;
    var p := s.controller.phase;
    if p.Launching? { LaunchFrame(s, p.op, seqno); }
    else if p.Reconciling? { ReconciledFrame(s, p.op, readable); }
    else if WritePhase(p) || CustodyPhase(p) { EntryFrame(s, readable, success, seqno); }
    else if !p.Ready? { RetireFrame(s, readable, success); }
  }

  lemma AdvanceFresh(s: State, readable: bool, success: bool, seqno: nat)
    requires s.controller.On? && PhaseInv(s) && FreshInv(s) && Advance(s, readable, success, seqno).Some?
    ensures FreshInv(Advance(s, readable, success, seqno).value)
  {
    hide JournalOk, Published, Advance;
    AdvanceFrame(s, readable, success, seqno);
  }

  lemma ClientFresh(s: State, k: ClientStep)
    requires FreshInv(s) && ClientEnabled(s, k)
    ensures FreshInv(ClientApply(s, k))
  {
    hide Observed;
  }

  lemma StepFresh(s: State, st: Step)
    requires Inv(s) && FreshInv(s) && Enabled(s, st) && Fresh(s, st)
    ensures Guarded(s, st) && FreshInv(Apply(s, st))
  {
    hide Advance, ClientApply, FilesInv, BrokerInv, PhaseInv;
    if st.Controls? && st.c.Proceed? {
      if Advance(s, st.c.readable, st.c.success, st.c.seqno).Some? {
        AdvanceFresh(s, st.c.readable, st.c.success, st.c.seqno);
      }
    } else if st.Clients? { ClientFresh(s, st.k); }
  }

  lemma AdvanceLossless(s: State, readable: bool, success: bool, seqno: nat)
    requires s.controller.On? && LosslessInv(s) && Advance(s, readable, success, seqno).Some?
    ensures LosslessInv(Advance(s, readable, success, seqno).value)
  {
    hide Advance;
    AdvanceFrame(s, readable, success, seqno);
  }

  lemma ClientLossless(s: State, k: ClientStep)
    requires LosslessInv(s) && ClientEnabled(s, k)
    ensures LosslessInv(ClientApply(s, k))
  {
    hide RedriveApply;
    if Redrives(s, k) {
      RedriveFrame(s, s.client.name, s.client.stage, s.client.held, k.ack, k.rejected);
    }
  }

  lemma BrokerLossless(s: State, b: BrokerStep)
    requires LosslessInv(s) && BrokerEnabled(s, b) && Lossless(Brokers(b))
    ensures Guarded(s, Brokers(b)) && LosslessInv(BrokerApply(s, b))
  {
  }

  lemma StepLossless(s: State, st: Step)
    requires LosslessInv(s) && Enabled(s, st) && Lossless(st)
    ensures Guarded(s, st) && LosslessInv(Apply(s, st))
  {
    hide Advance, ClientApply, ClientEnabled, BrokerApply, BrokerEnabled;
    if st.Controls? && st.c.Proceed? {
      if Advance(s, st.c.readable, st.c.success, st.c.seqno).Some? {
        AdvanceLossless(s, st.c.readable, st.c.success, st.c.seqno);
      }
    } else if st.Clients? { ClientLossless(s, st.k); }
    else if st.Brokers? { BrokerLossless(s, st.b); }
  }

  /** The client never asks for a deletion and never touches the in-flight file. */
  lemma ClientFrame(s: State, k: ClientStep)
    requires ClientEnabled(s, k)
    ensures var t := ClientApply(s, k); t.deletes == s.deletes && t.inflight == s.inflight && t.replaced == s.replaced
    ensures ClientApply(s, k).publishes != s.publishes ==> s.client.Redriving?
  {
    hide RedriveApply;
    if Redrives(s, k) {
      RedriveFrame(s, s.client.name, s.client.stage, s.client.held, k.ack, k.rejected);
    }
  }

  predicate AllFresh(s: State, run: seq<Step>)
    requires Runnable(s, run)
    decreases |run|
  {
    run == [] || (Fresh(s, run[0]) && AllFresh(Apply(s, run[0]), run[1..]))
  }

  predicate AllLossless(run: seq<Step>) { forall i :: 0 <= i < |run| ==> Lossless(run[i]) }

  /** Either every controller reads the session under the lock, or no stream is ever lost. */
  predicate Sound(s: State, run: seq<Step>)
    requires Runnable(s, run)
  {
    (FreshInv(s) && AllFresh(s, run)) || (LosslessInv(s) && AllLossless(run))
  }

  lemma KeepsSelf(s: State)
    ensures Keeps(s, s)
  {
  }

  lemma KeepsChain(s: State, t: State, u: State)
    requires Keeps(s, t) && Keeps(t, u)
    ensures Keeps(s, u)
  {
  }

  /** Every run keeps the invariant and takes nothing back. */
  lemma {:induction false} RunInv(s: State, run: seq<Step>)
    requires Runnable(s, run) && Inv(s)
    ensures Inv(Run(s, run)) && Keeps(s, Run(s, run))
    decreases |run|
  {
    hide Inv, Keeps, Enabled, Apply;
    if run == [] { KeepsSelf(s); }
    else {
      StepInv(s, run[0]);
      RunInv(Apply(s, run[0]), run[1..]);
      KeepsChain(s, Apply(s, run[0]), Run(s, run));
    }
  }

  /** Only restoring a relied-upon stream counts as replacing one. */
  lemma GuardedReplaces(s: State, st: Step)
    requires Enabled(s, st) && Guarded(s, st)
    ensures Apply(s, st).replaced == s.replaced
  {
    hide Advance, ClientApply, ClientEnabled;
    if st.Controls? && st.c.Proceed? {
      if Advance(s, st.c.readable, st.c.success, st.c.seqno).Some? {
        AdvanceFrame(s, st.c.readable, st.c.success, st.c.seqno);
      }
    } else if st.Clients? { ClientFrame(s, st.k); }
  }

  /** In a sound run no stream is replaced once something in it is relied upon. */
  lemma {:induction false} SoundRun(s: State, run: seq<Step>)
    requires Runnable(s, run) && Inv(s) && Sound(s, run)
    ensures Run(s, run).replaced == s.replaced
    decreases |run|
  {
    hide Inv, Keeps, Enabled, Apply, FreshInv, LosslessInv, Fresh, Lossless, Guarded;
    if run != [] {
      if FreshInv(s) && AllFresh(s, run) { StepFresh(s, run[0]); } else { StepLossless(s, run[0]); }
      StepInv(s, run[0]);
      GuardedReplaces(s, run[0]);
      SoundRun(Apply(s, run[0]), run[1..]);
    }
  }

  // ----- Main results -----

  predicate Assigned(dlq: Option<Stream>) { dlq.Some? ==> forall q <- dlq.value.messages :: q < dlq.value.next }

  lemma InitialInv(dlq: Option<Stream>, source: Option<map<nat, Id>>)
    requires Assigned(dlq)
    ensures var s := Initial(dlq, source); Inv(s) && FreshInv(s) && LosslessInv(s)
  {
  }

  /** The state after a run from a fresh session. */
  function Reached(dlq: Option<Stream>, source: Option<map<nat, Id>>, run: seq<Step>): State
    requires Runnable(Initial(dlq, source), run)
  {
    Run(Initial(dlq, source), run)
  }

  lemma EveryRun(dlq: Option<Stream>, source: Option<map<nat, Id>>, run: seq<Step>)
    requires Assigned(dlq) && Runnable(Initial(dlq, source), run)
    ensures Inv(Reached(dlq, source, run))
  {
    InitialInv(dlq, source);
    RunInv(Initial(dlq, source), run);
  }

  /** In every sound run from a fresh session: what a journal calls retired is absent, every delete
      still under way can only reach the record it was requested for, and every acknowledged
      sequence of the source stream holds its publication. */
  lemma EverySoundRun(dlq: Option<Stream>, source: Option<map<nat, Id>>, run: seq<Step>)
    requires Assigned(dlq) && Runnable(Initial(dlq, source), run)
    requires AllFresh(Initial(dlq, source), run) || AllLossless(run)
    ensures var s := Reached(dlq, source, run);
      && !s.replaced
      && (forall n <- s.journals ::
            n in s.selections && (s.journals[n].retirement.Retired? ==> Gone(s.dlq, s.selections[n].record)))
      && (forall r <- s.deletes :: Anchored(s.dlq, r))
      && LogOk(s.source, s.acks)
  {
    hide Run, Runnable, PhaseInv, ClientInv, AllFresh;
    InitialInv(dlq, source);
    EveryRun(dlq, source, run);
    SoundRun(Initial(dlq, source), run);
    var s := Reached(dlq, source, run);
    assert forall n <- s.journals :: JournalOk(s, n, s.journals[n]);
  }

  predicate Requests(s: State, t: State) {
    && s.controller.On? && s.controller.phase.Requesting? && s.controller.phase.name in s.selections
    && t.deletes == s.deletes + {s.selections[s.controller.phase.name].record}
  }

  lemma AdvanceRequests(s: State, readable: bool, success: bool, seqno: nat)
    requires s.controller.On? && Advance(s, readable, success, seqno).Some?
    ensures var t := Advance(s, readable, success, seqno).value; t.deletes != s.deletes ==> Requests(s, t)
  {
    hide Reconciled, Launch, Observed;
    var p := s.controller.phase;
    if p.Launching? { LaunchFrame(s, p.op, seqno); }
    else if p.Reconciling? { ReconciledFrame(s, p.op, readable); }
  }

  lemma OnlyRetireRequests(s: State, st: Step)
    requires Enabled(s, st) && Apply(s, st).deletes != s.deletes
    ensures Requests(s, Apply(s, st))
  {
    hide Advance, ClientApply, ClientEnabled, Requests;
    if st.Controls? && st.c.Proceed? && Advance(s, st.c.readable, st.c.success, st.c.seqno).Some? {
      AdvanceRequests(s, st.c.readable, st.c.success, st.c.seqno);
    } else if st.Clients? { ClientFrame(s, st.k); }
  }

  /** In every run, sound or not, a delete is requested only by `retire` under custody and a frozen
      topology, with no client running, after a durable confirmation that the source stream did
      acknowledge; and, unless a relied-upon stream was replaced, the acknowledged sequence holds the
      publication and the record, if present at all, is exactly the selected one. */
  lemma DeleteIsJustified(dlq: Option<Stream>, source: Option<map<nat, Id>>, run: seq<Step>, st: Step)
    requires Assigned(dlq) && Runnable(Initial(dlq, source), run)
    requires var s := Reached(dlq, source, run); Enabled(s, st) && Apply(s, st).deletes != s.deletes
    ensures var s := Reached(dlq, source, run); s.controller.On? && s.controller.phase.Requesting?
    ensures var s := Reached(dlq, source, run); var n := s.controller.phase.name;
      && s.frozen && s.inflight == Some(Custody(Retire, n)) && s.client.Idle?
      && n in s.selections && n in s.journals && s.journals[n].retirement.Unknown?
      && s.journals[n].publication.Confirmed? && Published(s, n, s.journals[n])
      && Apply(s, st).deletes == s.deletes + {s.selections[n].record}
      && (s.replaced || (Anchored(s.dlq, s.selections[n].record) && LogOk(s.source, s.acks)))
  {
    hide FilesInv, Apply, Enabled, ClientInv, Run, Runnable;
    EveryRun(dlq, source, run);
    OnlyRetireRequests(Reached(dlq, source, run), st);
  }

  /** However late it lands, a delete removes the record it was justified for and nothing else. */
  lemma LateDeleteIsExact(s: State, r: Record)
    requires Inv(s) && !s.replaced && r in s.deletes && s.dlq.Some?
    ensures var t := BrokerApply(s, DeleteLands(r));
      && t.dlq.Some? && Gone(t.dlq, r)
      && (forall q :: q in s.dlq.value.messages && q != r.seqno ==>
            q in t.dlq.value.messages && t.dlq.value.messages[q] == s.dlq.value.messages[q])
      && (r.seqno in s.dlq.value.messages ==> s.dlq.value.messages[r.seqno] == r.message)
  {
    assert Anchored(s.dlq, r);
  }

  /** Once a journal says `retired`, the record is absent then and after every sound continuation. */
  lemma RetiredIsForever(s: State, run: seq<Step>, n: Name)
    requires Inv(s) && !s.replaced && n in s.journals && s.journals[n].retirement.Retired?
    requires Runnable(s, run) && Sound(s, run)
    ensures n in s.selections && Gone(s.dlq, s.selections[n].record) && Gone(Run(s, run).dlq, s.selections[n].record)
  {
    hide Run, Runnable, Sound, PhaseInv, ClientInv;
    RunInv(s, run);
    SoundRun(s, run);
    assert JournalOk(s, n, s.journals[n]);
  }

  lemma AdvanceCustody(s: State, readable: bool, success: bool, seqno: nat)
    requires s.controller.On? && PhaseInv(s) && Advance(s, readable, success, seqno).Some?
    ensures var t := Advance(s, readable, success, seqno).value; t.publishes == s.publishes
    ensures var t := Advance(s, readable, success, seqno).value; var p := s.controller.phase;
      || t.inflight == s.inflight
      || (s.client.Idle? && ((p.Claiming? && s.inflight.None? && t.inflight.Some?)
                             || (p.Closing? && s.inflight == Some(p.op) && t.inflight.None?)))
  {
    hide Reconciled, Launch, RetireStep, RetireInv, JournalOk;
    var p := s.controller.phase;
    if p.Launching? { LaunchFrame(s, p.op, seqno); }
    else if p.Reconciling? { ReconciledFrame(s, p.op, readable); }
    else if !WritePhase(p) && !CustodyPhase(p) && !p.Ready? { RetireFrame(s, readable, success); }
  }

  /** In every run, sound or not, one operation at a time: the in-flight file is only created when
      absent, is only removed by the operation that holds it or its reconciliation, never while a
      client runs, and every publication happens under it. */
  lemma OneOperation(dlq: Option<Stream>, source: Option<map<nat, Id>>, run: seq<Step>, st: Step)
    requires Assigned(dlq) && Runnable(Initial(dlq, source), run) && Enabled(Reached(dlq, source, run), st)
    ensures var s := Reached(dlq, source, run); var t := Apply(s, st);
      && (t.inflight == s.inflight
          || (s.client.Idle? && s.controller.On?
              && ((s.inflight.None? && t.inflight.Some? && s.controller.phase.Claiming?)
                  || (s.controller.phase.Closing? && s.inflight == Some(s.controller.phase.op) && t.inflight.None?))))
      && (t.publishes != s.publishes ==> s.client.Redriving? && s.inflight == Some(Custody(Redrive, s.client.name)))
  {
    hide FilesInv, BrokerInv, JournalOk, Advance, ClientApply, ClientEnabled, PhaseInv, Run, Runnable, BrokerEnabled;
    EveryRun(dlq, source, run);
    var s := Reached(dlq, source, run);
    if st.Controls? && st.c.Proceed? && Advance(s, st.c.readable, st.c.success, st.c.seqno).Some? {
      AdvanceCustody(s, st.c.readable, st.c.success, st.c.seqno);
    } else if st.Clients? { ClientFrame(s, st.k); }
  }

  // ----- Without either condition a late delete can remove another record -----

  ghost predicate Reaches(s: State, t: State) { exists run :: Runnable(s, run) && Run(s, run) == t }

  lemma {:induction false} RunSnoc(s: State, run: seq<Step>, st: Step)
    requires Runnable(s, run) && Enabled(Run(s, run), st)
    ensures Runnable(s, run + [st]) && Run(s, run + [st]) == Apply(Run(s, run), st)
    decreases |run|
  {
    hide Enabled, Apply;
    if run != [] {
      RunSnoc(Apply(s, run[0]), run[1..], st);
      assert (run + [st])[1..] == run[1..] + [st];
    } else {
      assert [st][1..] == [];
    }
  }

  lemma ReachStep(s: State, t: State, st: Step)
    requires Reaches(s, t) && Enabled(t, st)
    ensures Reaches(s, Apply(t, st))
  {
    hide Enabled, Apply;
    var run :| Runnable(s, run) && Run(s, run) == t;
    RunSnoc(s, run, st);
  }

  const GO := Controls(Proceed(true, false, 1))

  const TICK := Clients(ClientProceed(None, false))

  const START := Initial(Some(Stream(map[1 := 7], 2)), Some(map[]))

  const CHOSEN := Selection(Record(1, 7), Some(7))

  const INSPECTED := START.(selections := map["a" := CHOSEN], controller := On(false, Ready))

  const SENT := Journal(Confirmed, Some(Ack(true, 1)), Retained)

  const REDRIVEN := INSPECTED.(
    frozen := true, journals := map["a" := SENT], controller := On(true, Ready), source := Some(map[1 := 7]),
    publishes := {7}, acks := {(1, 7)})

  const PENDING := REDRIVEN.(deletes := {Record(1, 7)}, intents := {Record(1, 7)})

  /** From rest to a launched client. */
  lemma Enters(a: State, s: State, op: Custody)
    requires Reaches(a, s) && s.controller.On? && s.controller.phase.Ready? && s.client.Idle? && s.inflight.None?
             && !op.kind.Retire?
    requires op.kind.Redrive? ==> op.name in s.selections
    ensures var view := s.controller.view || op.kind.Redrive?;
      Reaches(a, s.(
        inflight := Some(op), frozen := s.frozen || op.kind.Redrive?, controller := On(view, Launching(op))))
  {
    hide Reaches, RetireStep, Reconciled, Launch, ClientApply, BrokerApply, BrokerEnabled, ClientEnabled;
    ReachStep(a, s, Controls(BeginOther(op)));
    var s1 := At(s, Entering(op, BLANK));
    ReachStep(a, s1, GO);
    var s2 := At(s, if Freezes(op) then Freezing(op, BLANK) else Claiming(op, BLANK));
    if Freezes(op) { ReachStep(a, s2, GO); }
    var view := s.controller.view || op.kind.Redrive?;
    var s3 := s2.(frozen := s.frozen || op.kind.Redrive?, controller := On(view, Claiming(op, BLANK)));
    ReachStep(a, s3, GO);
  }

  /** From a finished client back to rest. */
  lemma Leaves(a: State, s: State, op: Custody)
    requires Reaches(a, s) && s.controller.On? && s.controller.phase == Waiting(op) && s.client == Idle(true)
    ensures Reaches(a, At(s.(inflight := None), Ready))
  {
    hide Reaches, RetireStep, Reconciled, Launch, ClientApply, BrokerApply, BrokerEnabled, ClientEnabled;
    ReachStep(a, s, GO);
    ReachStep(a, At(s, Closing(op)), GO);
  }

  lemma AtStart()
    ensures Reaches(START, START)
  {
    assert Runnable(START, []) && Run(START, []) == START;
  }

  lemma InspectRun()
    ensures Reaches(START, INSPECTED)
  {
    hide Reaches, RetireStep, Reconciled, BrokerApply, BrokerEnabled, RedriveApply;
    AtStart();
    var op := Custody(Inspect, "a");
    ReachStep(START, START, Controls(Open(false)));
    var s := START.(controller := On(false, Ready));
    Enters(START, s, op);
    s := At(s.(inflight := Some(op)), Launching(op));
    ReachStep(START, s, GO);
    s := At(s.(client := Inspecting("a", 1)), Waiting(op));
    ReachStep(START, s, TICK);
    s := s.(client := Idle(true), selections := map["a" := CHOSEN]);
    Leaves(START, s, op);
  }

  lemma PublisherRun(s: State)
    requires Reaches(START, s) && s == INSPECTED.(
      inflight := Some(Custody(Redrive, "a")), frozen := true, client := Redriving("a", Fetching, BLANK),
      controller := On(true, Waiting(Custody(Redrive, "a"))))
    ensures Reaches(START, s.(
      client := Idle(true), journals := map["a" := SENT], source := Some(map[1 := 7]), publishes := {7},
      acks := {(1, 7)}))
  {
    hide Reaches, ControllerEnabled, ControllerApply;
    var j := BLANK.(publication := Ambiguous);
    ReachStep(START, s, TICK);
    var s1 := s.(client := Redriving("a", Publishing, j), journals := map["a" := j]);
    assert s1.publishes + {7} == {7};
    ReachStep(START, s1, TICK);
    var s2 := s1.(client := Redriving("a", Replying, j), publishes := {7});
    assert map[][1 := 7] == map[1 := 7];
    ReachStep(START, s2, Brokers(PublishLands(7, 1)));
    var s3 := s2.(source := Some(map[1 := 7]));
    assert s3.journals["a" := SENT] == map["a" := SENT] && s3.acks + {(1, 7)} == {(1, 7)};
    ReachStep(START, s3, Clients(ClientProceed(Some(Ack(true, 1)), false)));
  }

  lemma RedriveRun()
    ensures Reaches(START, REDRIVEN)
  {
    hide Reaches, RetireStep, Reconciled;
    InspectRun();
    var op := Custody(Redrive, "a");
    Enters(START, INSPECTED, op);
    var s := INSPECTED.(inflight := Some(op), frozen := true, controller := On(true, Launching(op)));
    ReachStep(START, s, GO);
    s := At(s.(client := Redriving("a", Fetching, BLANK)), Waiting(op));
    PublisherRun(s);
    s := s.(client := Idle(true), journals := map["a" := SENT], source := Some(map[1 := 7]), publishes := {7},
            acks := {(1, 7)});
    Leaves(START, s, op);
  }

  lemma RetireEnd(s: State)
    requires Reaches(START, s) && s == PENDING.(
      journals := map["a" := SENT.(retirement := Unknown)], inflight := Some(Custody(Retire, "a")),
      controller := On(true, Awaiting("a", SENT.(retirement := Unknown))))
    ensures Reaches(START, PENDING)
  {
    hide Reaches, Reconciled, ClientApply, ClientEnabled, BrokerApply, BrokerEnabled;
    var j := SENT.(retirement := Unknown);
    ReachStep(START, s, GO);
    ReachStep(START, At(s, Rereading("a", j)), GO);
    assert s.journals["a" := SENT] == map["a" := SENT];
    ReachStep(START, At(s, Recording(Custody(Retire, "a"), SENT)), GO);
    ReachStep(START, At(s.(journals := map["a" := SENT]), Closing(Custody(Retire, "a"))), GO);
  }

  /** The retirement under way, its delete requested. */
  const ASKED := PENDING.(
    journals := map["a" := SENT.(retirement := Unknown)], inflight := Some(Custody(Retire, "a")),
    controller := On(true, Awaiting("a", SENT.(retirement := Unknown))))

  lemma RetireBody(s: State)
    requires Reaches(START, s)
    requires s == REDRIVEN.(inflight := Some(Custody(Retire, "a")), controller := On(true, Matching("a", SENT)))
    ensures Reaches(START, ASKED)
  {
    hide Reaches, Reconciled, ClientApply, ClientEnabled, BrokerApply, BrokerEnabled;
    var j := SENT.(retirement := Unknown);
    ReachStep(START, s, GO);
    assert s.journals["a" := j] == map["a" := j] && s.intents + {Record(1, 7)} == {Record(1, 7)};
    ReachStep(START, At(s, Intending("a", j)), GO);
    var s1 := s.(journals := map["a" := j], intents := {Record(1, 7)});
    assert s1.deletes + {Record(1, 7)} == {Record(1, 7)};
    ReachStep(START, At(s1, Requesting("a", j)), GO);
  }

  lemma RetireRun()
    ensures Reaches(START, ASKED)
  {
    hide Reaches, Reconciled, ClientApply, ClientEnabled, BrokerApply, BrokerEnabled;
    RedriveRun();
    var op := Custody(Retire, "a");
    ReachStep(START, REDRIVEN, Controls(BeginRetire("a")));
    ReachStep(START, At(REDRIVEN, Loaded("a", SENT)), GO);
    ReachStep(START, At(REDRIVEN, Entering(op, SENT)), GO);
    ReachStep(START, At(REDRIVEN, Freezing(op, SENT)), GO);
    ReachStep(START, At(REDRIVEN, Claiming(op, SENT)), GO);
    RetireBody(At(REDRIVEN.(inflight := Some(op)), Matching("a", SENT)));
  }

  /** A controller with an old copy of the session document restores a lost stream, and the
      delete still under way removes a record that nobody selected. */
  lemma StaleSnapshotReachable()
    ensures exists s, r :: Reaches(START, s) && r in s.deletes && s.dlq.Some? && r.seqno in s.dlq.value.messages
                           && s.dlq.value.messages[r.seqno] != r.message
  {
    hide Reaches, RetireStep, Reconciled;
    RetireRun();
    RetireEnd(ASKED);
    ReachStep(START, PENDING, Brokers(DlqLost));
    var s := PENDING.(dlq := None);
    ReachStep(START, s, Controls(Crash));
    s := s.(controller := Off);
    ReachStep(START, s, Controls(Open(false)));
    s := s.(controller := On(false, Ready));
    var op := Custody(Restore, "");
    Enters(START, s, op);
    s := s.(inflight := Some(op), controller := On(false, Launching(op)));
    ReachStep(START, s, GO);
    s := At(s.(client := Restoring), Waiting(op));
    ReachStep(START, s, Brokers(RestoreDlq(Stream(map[1 := 8], 2))));
    s := s.(dlq := Some(Stream(map[1 := 8], 2)));
    assert Record(1, 7) in s.deletes;
  }

  // ----- What an operation records -----

  /** How a record stands in the dead-letter stream when it is read. */
  datatype Fact = Missing | Same | Other | Unreadable

  function Truth(dlq: Option<Stream>, r: Record, readable: bool): Fact {
    if !readable || dlq.None? then Unreadable
    else if r.seqno !in dlq.value.messages then Missing
    else if dlq.value.messages[r.seqno] == r.message then Same
    else Other
  }

  /** What the controller learns from the broker in one step. */
  datatype Sight = Matched(fact: Fact) | Replied(success: bool) | Reread(fact: Fact) | Reviewed(fact: Fact)

  function Told(s: State, n: Name, readable: bool): Fact
    requires n in s.selections
  {
    Truth(s.dlq, s.selections[n].record, readable)
  }

  function SightOf(s: State, st: Step): seq<Sight> {
    if !(st.Controls? && st.c.Proceed? && s.controller.On?) then []
    else
      match s.controller.phase
      case Matching(n, _) => if n in s.selections then [Matched(Told(s, n, st.c.readable))] else []
      case Awaiting(_, _) => [Replied(st.c.success)]
      case Rereading(n, _) => if n in s.selections then [Reread(Told(s, n, st.c.readable))] else []
      case Reconciling(op) =>
        if Freezes(op) && Journaled(s, op.name) then [Reviewed(Told(s, op.name, st.c.readable))]
        else []
      case _ => []
  }

  /** Everything learned along a run. */
  function Sights(s: State, run: seq<Step>): seq<Sight>
    requires Runnable(s, run)
    decreases |run|
  {
    if run == [] then [] else SightOf(s, run[0]) + Sights(Apply(s, run[0]), run[1..])
  }

  /** The word for what is there. */
  function Word(f: Fact): Retirement {
    match f
    case Missing => Absent
    case Same => Retained
    case Other => Stale
    case Unreadable => Unknown
  }

  /** The word a finished operation journals, from what it learned and the word journaled before. */
  function Verdict(before: Retirement, sights: seq<Sight>): Option<Retirement> {
    if |sights| == 1 && sights[0].Matched? && (sights[0].fact == Missing || sights[0].fact == Other) then
      Some(Word(sights[0].fact))
    else if |sights| == 2 && sights[0] == Matched(Same) && sights[1] == Replied(true) then Some(Retired)
    else if |sights| == 3 && sights[0] == Matched(Same) && sights[1] == Replied(false) && sights[2].Reread? then
      Some(if sights[2].fact == Missing then Retired else Word(sights[2].fact))
    else if |sights| == 1 && sights[0].Reviewed? && sights[0].fact != Unreadable then
      Some(if sights[0].fact == Missing && before == Unknown then Retired else Word(sights[0].fact))
    else None
  }

  /** The delete requests after the operation: one more exactly if the record matched. */
  function Requested(base: set<Record>, r: Record, sights: seq<Sight>): set<Record> {
    if sights != [] && sights[0] == Matched(Same) then base + {r} else base
  }

  predicate Reviews(sights: seq<Sight>) { sights != [] && sights[0].Reviewed? }

  /** Where the operation stands, given what it has learned since it began with journal word `before`
      and delete requests `base`. */
  predicate Tracks(s: State, n: Name, review: bool, before: Retirement, base: set<Record>, sights: seq<Sight>) {
    && s.controller.On? && s.client.Idle? && n in s.selections
    && match s.controller.phase
       case Matching(m, _) => !review && m == n && sights == [] && s.deletes == base
       case Intending(m, j) => !review && m == n && sights == [Matched(Same)] && s.deletes == base
       case Requesting(m, j) => !review && m == n && sights == [Matched(Same)] && s.deletes == base
       case Awaiting(m, j) =>
         !review && m == n && sights == [Matched(Same)] && s.deletes == base + {s.selections[n].record}
       case Rereading(m, j) =>
         && !review && m == n && sights == [Matched(Same), Replied(false)]
         && s.deletes == base + {s.selections[n].record}
       case Reconciling(op) =>
         && review && op.name == n && Freezes(op) && n in s.journals && s.journals[n].retirement == before
         && sights == [] && s.deletes == base
       case Recording(op, j) =>
         && op.name == n && Verdict(before, sights) == Some(j.retirement) && Reviews(sights) == review
         && s.deletes == Requested(base, s.selections[n].record, sights)
       case Closing(op) =>
         && n in s.journals && Verdict(before, sights) == Some(s.journals[n].retirement) && Reviews(sights) == review
         && s.deletes == Requested(base, s.selections[n].record, sights)
       case _ => false
  }

  predicate Concluded(s: State, n: Name, review: bool, before: Retirement, base: set<Record>, sights: seq<Sight>) {
    && s.controller.On? && s.controller.phase.Ready? && s.inflight.None? && n in s.selections
    && n in s.journals && Verdict(before, sights) == Some(s.journals[n].retirement) && Reviews(sights) == review
    && s.deletes == Requested(base, s.selections[n].record, sights)
  }

  lemma TrackMatch(
      s: State, n: Name, review: bool, before: Retirement, base: set<Record>, sights: seq<Sight>, c: ControllerStep)
    requires Tracks(s, n, review, before, base, sights) && c.Proceed? && ControllerEnabled(s, c)
    requires ControllerApply(s, c).controller.On? && s.controller.phase.Matching?
    ensures Tracks(ControllerApply(s, c), n, review, before, base, sights + SightOf(s, Controls(c)))
  {
    hide Launch, Publishable, Reconciled;
    assert [] + SightOf(s, Controls(c)) == SightOf(s, Controls(c));
  }

  lemma TrackIntent(
      s: State, n: Name, review: bool, before: Retirement, base: set<Record>, sights: seq<Sight>, c: ControllerStep)
    requires Tracks(s, n, review, before, base, sights) && c.Proceed? && ControllerEnabled(s, c)
    requires s.controller.phase.Intending? || s.controller.phase.Requesting?
    ensures SightOf(s, Controls(c)) == [] && Tracks(ControllerApply(s, c), n, review, before, base, sights)
  {
    hide Launch, Publishable, Reconciled, Observed, Verdict;
  }

  lemma TrackReply(
      s: State, n: Name, review: bool, before: Retirement, base: set<Record>, sights: seq<Sight>, c: ControllerStep)
    requires Tracks(s, n, review, before, base, sights) && c.Proceed? && ControllerEnabled(s, c)
    requires s.controller.phase.Awaiting? || s.controller.phase.Rereading?
    ensures Tracks(ControllerApply(s, c), n, review, before, base, sights + SightOf(s, Controls(c)))
  {
    hide Launch, Publishable, Reconciled;
  }

  lemma TrackReview(
      s: State, n: Name, review: bool, before: Retirement, base: set<Record>, sights: seq<Sight>, c: ControllerStep)
    requires Tracks(s, n, review, before, base, sights) && c.Proceed? && ControllerEnabled(s, c)
    requires ControllerApply(s, c).controller.On? && s.controller.phase.Reconciling?
    ensures Tracks(ControllerApply(s, c), n, review, before, base, sights + SightOf(s, Controls(c)))
  {
    hide Launch, Publishable, RetireStep;
    assert [] + SightOf(s, Controls(c)) == SightOf(s, Controls(c));
  }

  lemma TrackClose(
      s: State, n: Name, review: bool, before: Retirement, base: set<Record>, sights: seq<Sight>, c: ControllerStep)
    requires Tracks(s, n, review, before, base, sights) && c.Proceed? && ControllerEnabled(s, c)
    requires s.controller.phase.Recording? || s.controller.phase.Closing?
    ensures SightOf(s, Controls(c)) == []
    ensures var t := ControllerApply(s, c);
            Tracks(t, n, review, before, base, sights) || Concluded(t, n, review, before, base, sights)
  {
    hide Launch, Publishable, RetireStep, Reconciled, Verdict;
  }

  lemma TrackOthers(
      s: State, n: Name, review: bool, before: Retirement, base: set<Record>, sights: seq<Sight>, st: Step)
    requires Tracks(s, n, review, before, base, sights) && Enabled(s, st) && Apply(s, st).controller.On?
    requires !(st.Controls? && st.c.Proceed?)
    ensures SightOf(s, st) == [] && Tracks(Apply(s, st), n, review, before, base, sights)
  {
    hide Verdict, Advance, ClientApply, Requested;
  }

  lemma TrackStep(s: State, n: Name, review: bool, before: Retirement, base: set<Record>, sights: seq<Sight>, st: Step)
    requires Tracks(s, n, review, before, base, sights) && Enabled(s, st) && Apply(s, st).controller.On?
    ensures var t, more := Apply(s, st), sights + SightOf(s, st);
      Tracks(t, n, review, before, base, more) || Concluded(t, n, review, before, base, more)
  {
    hide ControllerApply, ControllerEnabled, Concluded, SightOf;
    if st.Controls? && st.c.Proceed? {
      var p := s.controller.phase;
      if p.Matching? { TrackMatch(s, n, review, before, base, sights, st.c); }
      else if p.Intending? || p.Requesting? {
        TrackIntent(s, n, review, before, base, sights, st.c);
        assert sights + [] == sights;
      }
      else if p.Awaiting? || p.Rereading? { TrackReply(s, n, review, before, base, sights, st.c); }
      else if p.Reconciling? { TrackReview(s, n, review, before, base, sights, st.c); }
      else {
        TrackClose(s, n, review, before, base, sights, st.c);
        assert sights + [] == sights;
      }
    } else {
      TrackOthers(s, n, review, before, base, sights, st);
      assert sights + [] == sights;
    }
  }

  /** The controller stays at work up to the end of the run, where it is ready for another command. */
  predicate WorksThrough(s: State, run: seq<Step>)
    requires Runnable(s, run)
    decreases |run|
  {
    && s.controller.On? && (s.controller.phase.Ready? <==> run == [])
    && (run != [] ==> WorksThrough(Apply(s, run[0]), run[1..]))
  }

  lemma NotReady(s: State, n: Name, review: bool, before: Retirement, base: set<Record>, sights: seq<Sight>)
    requires Tracks(s, n, review, before, base, sights)
    ensures !s.controller.phase.Ready?
  {
  }

  lemma ReadyAgain(s: State, n: Name, review: bool, before: Retirement, base: set<Record>, sights: seq<Sight>)
    requires Concluded(s, n, review, before, base, sights)
    ensures s.controller.On? && s.controller.phase.Ready?
  {
  }

  lemma {:induction false} TrackRun(
      s: State, n: Name, review: bool, before: Retirement, base: set<Record>, sights: seq<Sight>, run: seq<Step>)
    requires Tracks(s, n, review, before, base, sights) && Runnable(s, run) && WorksThrough(s, run)
    ensures Concluded(Run(s, run), n, review, before, base, sights + Sights(s, run))
    decreases |run|
  {
    hide Enabled, Apply, Concluded, SightOf;
    if run == [] {
      NotReady(s, n, review, before, base, sights);
    } else {
      var t, seen := Apply(s, run[0]), SightOf(s, run[0]);
      assert t.controller.On?;
      TrackStep(s, n, review, before, base, sights, run[0]);
      assert sights + (seen + Sights(t, run[1..])) == sights + seen + Sights(t, run[1..]);
      if Tracks(t, n, review, before, base, sights + seen) {
        TrackRun(t, n, review, before, base, sights + seen, run[1..]);
      }
      else {
        ReadyAgain(t, n, review, before, base, sights + seen);
        assert run[1..] == [];
        assert sights + seen + [] == sights + seen;
      }
    }
  }

  /** What `retire` journals and requests, whatever the broker does meanwhile: from a begun operation to
      its end, the word is the one for what was learned, and a delete was requested exactly if the
      record matched. */
  lemma RetireVerdict(s: State, run: seq<Step>)
    requires Inv(s) && s.controller.On? && s.controller.phase.Matching? && Runnable(s, run) && WorksThrough(s, run)
    ensures var n, t := s.controller.phase.name, Run(s, run);
      && n in s.selections && n in t.selections && n in t.journals && t.inflight.None?
      && !Reviews(Sights(s, run)) && Verdict(Unknown, Sights(s, run)) == Some(t.journals[n].retirement)
      && t.deletes == Requested(s.deletes, t.selections[n].record, Sights(s, run))
  {
    hide Run, Runnable, WorksThrough, Sights, Verdict, BrokerInv, FilesInv;
    TrackRun(s, s.controller.phase.name, false, Unknown, s.deletes, [], run);
    assert [] + Sights(s, run) == Sights(s, run);
  }

  /** What `reconcile` journals: `retired` exactly if the record is missing and the journal said
      `unknown`, otherwise the word for what is there; nothing is requested. */
  lemma ReconcileVerdict(s: State, run: seq<Step>)
    requires Inv(s) && s.controller.On? && s.controller.phase.Reconciling? && Runnable(s, run) && WorksThrough(s, run)
    requires Freezes(s.controller.phase.op) && Journaled(s, s.controller.phase.op.name)
    ensures var n, t, seen := s.controller.phase.op.name, Run(s, run), Sights(s, run);
      && n in t.journals && t.inflight.None? && t.deletes == s.deletes
      && |seen| == 1 && seen[0].Reviewed? && seen[0].fact != Unreadable
      && (t.journals[n].retirement == Retired <==> seen[0].fact == Missing && s.journals[n].retirement == Unknown)
      && (t.journals[n].retirement != Retired ==> t.journals[n].retirement == Word(seen[0].fact))
  {
    hide Run, Runnable, WorksThrough, BrokerInv, FilesInv;
    var n := s.controller.phase.op.name;
    TrackRun(s, n, true, s.journals[n].retirement, s.deletes, [], run);
    assert [] + Sights(s, run) == Sights(s, run);
  }

  /** A retirement that goes through: the delete lands, the broker says so, and `retired` is journaled. */
  lemma RetiredReachable() returns (s: State)
    ensures Reaches(START, s) && "a" in s.journals && s.journals["a"].retirement == Retired && s.inflight.None?
    ensures s.dlq.Some? && 1 !in s.dlq.value.messages
  {
    hide Reaches, Reconciled, ClientApply, ClientEnabled;
    RetireRun();
    ReachStep(START, ASKED, Brokers(DeleteLands(Record(1, 7))));
    var gone := Some(Stream(ASKED.dlq.value.messages - {1}, 2));
    var s1 := ASKED.(dlq := gone);
    ReachStep(START, s1, Controls(Proceed(true, true, 1)));
    var op, j := Custody(Retire, "a"), SENT.(retirement := Retired);
    ReachStep(START, At(s1, Recording(op, j)), GO);
    assert s1.journals["a" := j] == map["a" := j];
    var s2 := s1.(journals := map["a" := j]);
    ReachStep(START, At(s2, Closing(op)), GO);
    s := At(s2.(inflight := None), Ready);
  }

  /** What the publisher journals once it has its answer: `confirmed` exactly for a positive sequence of
      the source stream, `rejected` exactly for a plain rejection, and otherwise it stays ambiguous. */
  lemma ReplyVerdict(s: State, ack: Option<Ack>, rejected: bool)
    requires Inv(s) && s.client.Redriving? && s.client.stage.Replying? && ClientEnabled(s, ClientProceed(ack, rejected))
    requires s.client.name in s.selections && s.selections[s.client.name].id.Some?
    ensures var n, t := s.client.name, ClientApply(s, ClientProceed(ack, rejected));
      && t.client == Idle(true) && n in t.journals
      && (t.journals[n].publication == Confirmed <==> ack.Some? && ack.value.fromSource && ack.value.seqno > 0)
      && (t.journals[n].publication == Rejected <==> ack.None? && rejected)
      && (t.journals[n].publication == Confirmed ==> t.journals[n].ack == ack)
      && (t.journals[n].publication != Confirmed && t.journals[n].publication != Rejected ==>
            t.journals[n].publication == Ambiguous)
  {
    hide PhaseInv, FilesInv, BrokerInv;
  }

  /** `retire` of a journal without a positive confirmation from the source stream is refused on the
      spot: the word is journaled, and no operation begins. */
  lemma RefusalVerdict(s: State, n: Name, readable: bool, success: bool)
    requires n in s.journals && s.controller.On? && s.controller.phase == Loaded(n, s.journals[n])
    ensures var j, t := s.journals[n], ControllerApply(s, Proceed(readable, success, 0));
      && t.controller.On? && t.inflight == s.inflight && t.deletes == s.deletes
      && (t.journals[n].retirement == Refused && t.controller.phase.Ready? <==>
            !(j.publication == Confirmed && j.ack.Some? && j.ack.value.fromSource && j.ack.value.seqno > 0))
  {
  }

  /** What the publisher does with what it finds before it publishes anything: another record or none is
      journaled as such and ends it; an earlier confirmation ends it with nothing written; an unreadable
      stream fails it; and only the selected record, not yet confirmed, is prepared for publication,
      journaled as ambiguous first. */
  lemma FetchVerdict(s: State, ack: Option<Ack>, rejected: bool)
    requires s.client.Redriving? && s.client.stage.Fetching? && ClientEnabled(s, ClientProceed(ack, rejected))
    requires s.client.name in s.selections && s.selections[s.client.name].id.Some?
    ensures var n, t := s.client.name, ClientApply(s, ClientProceed(ack, rejected));
      var was := if n in s.journals then s.journals[n] else BLANK;
      && t.publishes == s.publishes && t.deletes == s.deletes
      && match Told(s, n, true)
         case Unreadable => t.client == Idle(false) && t.journals == s.journals
         case Missing => t.client == Idle(true) && t.journals == s.journals[n := was.(retirement := Absent)]
         case Other => t.client == Idle(true) && t.journals == s.journals[n := was.(retirement := Stale)]
         case Same =>
           if was.publication == Confirmed then t.client == Idle(true) && t.journals == s.journals
           else if rejected then t.client == Idle(true) && t.journals == s.journals[n := was.(publication := Rejected)]
           else
             && t.journals == s.journals[n := was.(publication := Ambiguous, ack := None)]
             && t.client == Redriving(n, Publishing, t.journals[n])
  {
  }

  /** A command whose client failed, or is still running, does not close its operation: the in-flight file
      stays, and the controller goes on exactly if the client ended well. */
  lemma WaitVerdict(s: State, c: ControllerStep)
    requires s.controller.On? && s.controller.phase.Waiting? && c.Proceed? && ControllerEnabled(s, c)
    ensures var t := ControllerApply(s, c);
      t.inflight == s.inflight && t.journals == s.journals && (t.controller.On? <==> s.client == Idle(true))
  {
  }
}

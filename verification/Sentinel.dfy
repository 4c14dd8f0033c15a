/**
 The loop inside an owned session that delivers granted cancellations
 (scripts/ci/validation-lock.py:354-511).  Each turn asks the world about the command, the pipe, the
 clock, the relay process and the members of the session; the answers are the turn's inputs.
 */
module Sentinel {
  import opened Common
  import opened Frames

  /** The grant being delivered: process groups observed, still to do, and done. */
  datatype Active = Active(grant: Grant, observed: seq<int>, hints: seq<int>, served: seq<int>)

  datatype Delivery = Delivery(grant: Grant, observed: seq<int>, served: seq<int>)

  datatype Status = Exited(code: int) | Signalled(signum: nat)

  datatype Exit = Running | Returned(code: int) | Killed

  datatype State = State(
    r: Receiver, active: Option<Active>, relay: Option<int>, eof: bool, result: Option<int>,
    delivered: seq<Delivery>, exit: Exit)

  /** Answers to one turn's questions; `None` is "not yet" or "unavailable". */
  datatype World = World(
    poll: Option<int>, data: Option<Bytes>, readAt: nat, reaped: Option<Status>, checkedAt: nat,
    takenAt: nat, groups: Option<seq<int>>, actedAt: nat, forked: bool, sent: bool, doneAt: nat,
    others: Option<bool>, settledAt: nat)

  function Failing(s: State): State { s.(r := s.r.(error := true)) }

  function Polled(s: State, w: World): State { if s.result.None? then s.(result := w.poll) else s }

  function Near(now: nat): nat -> bool { (d: nat) => d <= now + TAIL_NS }

  function Received(s: State, w: World): State {
    if s.eof then s
    else
      var eof := w.data == Some([]);
      var b := if w.data.Some? then s.r.buffer + w.data.value else s.r.buffer;
      s.(eof := eof, r := Trimmed(Drained(s.r.(buffer := b), Near(w.readAt)), eof))
  }

  /** A relay succeeds by exiting 0, or by dying of the kill it delivers. */
  predicate RelayOk(a: Active, st: Status) {
    (a.grant.signum == SIGKILL && st == Signalled(SIGKILL)) || st == Exited(0)
  }

  function Reaped(s: State, w: World): State {
    if s.relay.Some? && w.reaped.Some? && s.active.Some? then
      var a := s.active.value;
      var t := s.(relay := None, active := Some(a.(served := a.served + [s.relay.value])));
      if RelayOk(a, w.reaped.value) then t else Failing(t)
    else s
  }

  predicate Late(s: State, now: nat) { s.r.stop.Some? && now >= s.r.stop.value }

  function Checked(s: State, w: World): State { if Late(s, w.checkedAt) then Failing(s) else s }

  function Taken(s: State, w: World): State {
    if s.active.None? && s.r.pending != [] && !s.r.error then
      var g := s.r.pending[0];
      var t := s.(r := s.r.(pending := s.r.pending[1..]));
      if w.takenAt >= g.deadline || w.groups.None? then Failing(t)
      else t.(active := Some(Active(g, w.groups.value, w.groups.value, [])))
    else s
  }

  function Acted(s: State, w: World): State {
    if s.active.Some? && s.relay.None? && !s.r.error then
      var a := s.active.value;
      if w.actedAt >= a.grant.deadline then Failing(s)
      else if a.hints != [] then
        var t := s.(active := Some(a.(hints := a.hints[1..])));
        if w.forked then t.(relay := Some(a.hints[0])) else Failing(t)
      else if !w.sent then Failing(s.(active := None))
      else
        var t := s.(active := None, delivered := s.delivered + [Delivery(a.grant, a.observed, a.served)]);
        if a.grant.signum == SIGKILL then t.(exit := Killed)
        else if w.doneAt >= a.grant.deadline then Failing(t)
        else t
    else s
  }

  predicate Quiet(s: State) {
    s.result.Some? && s.relay.None? && (s.r.error || (s.active.None? && s.r.pending == [])) && s.eof
  }

  function Settled(s: State, w: World): State {
    if s.exit.Running? && Quiet(s) then
      if w.others.None? then Failing(s)
      else
        var t := if Late(s, w.settledAt) then Failing(s) else s;
        if w.others.value then t else t.(exit := Returned(if t.r.error then 1 else 0))
    else s
  }

  function Turned(s: State, w: World): State {
    Settled(Acted(Taken(Checked(Reaped(Received(Polled(s, w), w), w), w), w), w), w)
  }

  function Start(result: Option<int>): State { State(EMPTY, None, None, false, result, [], Running) }

  /** The loop, over the answers it gets. */
  function Looped(s: State, ws: seq<World>): State
    decreases |ws|
  {
    if ws == [] || !s.exit.Running? then s else Looped(Turned(s, ws[0]), ws[1..])
  }

  // ----- The loop with its variables -----

  class Loop {
    var buffer: Bytes
    var last: nat
    var stop: Option<nat>
    var error: bool
    var pending: seq<Grant>
    ghost var granted: seq<Grant>
    var active: Option<Active>
    var relay: Option<int>
    var eof: bool
    var result: Option<int>
    ghost var delivered: seq<Delivery>
    var exit: Exit

    ghost function Value(): State
      reads this
    {
      State(Receiver(buffer, last, stop, error, pending, granted), active, relay, eof, result, delivered, exit)
    }

    constructor (initial: Option<int>)
      ensures Value() == Start(initial)
    {
      buffer, last, stop, error, pending, granted := [], 0, None, false, [], [];
      active, relay, eof, result, delivered, exit := None, None, false, initial, [], Running;
    }

    /** One line of the pipe. */
    method Frame(frame: Bytes, now: nat)
      modifies this
      ensures Value() == old(Value()).(r := Handle(old(Value()).r, frame, Near(now)))
    {
      var p := Parse(frame);
      if |frame| + 1 > 128 || p.None? { error := true; return; }
      var g := p.value;
      if g.sequence != last + 1 || g.deadline <= 0 || g.deadline > LAST_DEADLINE
         || (g.sequence == 1 && g.deadline > now + TAIL_NS)
         || (g.sequence == 1 && g.signum != SIGINT && g.signum != SIGTERM)
         || (g.sequence == 2 && (g.signum != SIGKILL || stop != Some(g.deadline))) {
        error := true;
        return;
      }
      if g.sequence == 1 { stop := Some(g.deadline); }
      last := g.sequence;
      if !error {
        pending := pending + [g];
        granted := granted + [g];
      }
    }

    /** Every complete line in the buffer. */
    method TakeLines(now: nat)
      modifies this
      ensures Value() == old(Value()).(r := Drained(old(Value()).r, Near(now)))
    {
      hide Handle, Parse, LineEnd, Near;
      ghost var before := Value();
      var k := LineEnd(buffer);
      while k < |buffer|
        invariant k == LineEnd(buffer)
        invariant Value() == before.(r := Value().r) && Drained(Value().r, Near(now)) == Drained(before.r, Near(now))
        decreases |buffer|
      {
        var frame, rest := buffer[..k], buffer[k + 1..];
        HandleBuffer(Value().r, rest, frame, Near(now));
        buffer := rest;
        Frame(frame, now);
        k := LineEnd(buffer);
      }
    }

    method Receive(w: World)
      modifies this
      ensures Value() == Received(old(Value()), w)
    {
      hide Drained, Near;
      if eof { return; }
      assert buffer + [] == buffer;
      if w.data == Some([]) { eof := true; }
      else if w.data.Some? { buffer := buffer + w.data.value; }
      TakeLines(w.readAt);
      if |buffer| > 127 || (eof && buffer != []) { error := true; buffer := []; }
    }

    method Reap(w: World)
      modifies this
      ensures Value() == Reaped(old(Value()), w)
    {
      if relay.Some? && w.reaped.Some? && active.Some? {
        var a := active.value;
        var st := w.reaped.value;
        var allowed := a.grant.signum == SIGKILL && st == Signalled(SIGKILL);
        if !allowed && st != Exited(0) { error := true; }
        active := Some(a.(served := a.served + [relay.value]));
        relay := None;
      }
    }

    method Take(w: World)
      modifies this
      ensures Value() == Taken(old(Value()), w)
    {
      if active.None? && pending != [] && !error {
        var g := pending[0];
        pending := pending[1..];
        if w.takenAt >= g.deadline { error := true; }
        else if w.groups.None? { error := true; }
        else { active := Some(Active(g, w.groups.value, w.groups.value, [])); }
      }
    }

    method Act(w: World)
      modifies this
      ensures Value() == Acted(old(Value()), w)
    {
      if active.Some? && relay.None? && !error {
        var a := active.value;
        if w.actedAt >= a.grant.deadline { error := true; }
        else if a.hints != [] {
          active := Some(a.(hints := a.hints[1..]));
          if w.forked { relay := Some(a.hints[0]); } else { error := true; }
        } else {
          if w.sent {
            delivered := delivered + [Delivery(a.grant, a.observed, a.served)];
            if a.grant.signum == SIGKILL { exit := Killed; active := None; return; }
            if w.doneAt >= a.grant.deadline { error := true; }
          } else { error := true; }
          active := None;
        }
      }
    }

    method Settle(w: World)
      modifies this
      ensures Value() == Settled(old(Value()), w)
    {
      if exit.Running? && result.Some? && relay.None? && (error || (active.None? && pending == [])) && eof {
        if w.others.None? { error := true; return; }
        if stop.Some? && w.settledAt >= stop.value { error := true; }
        if !w.others.value { exit := Returned(if error then 1 else 0); }
      }
    }

    method Run(ws: seq<World>)
      modifies this
      ensures Value() == Looped(old(Value()), ws)
    {
      hide Received, Reaped, Taken, Acted, Settled;
      var i := 0;
      while i < |ws| && exit.Running?
        invariant i <= |ws| && Looped(Value(), ws[i..]) == Looped(old(Value()), ws)
      {
        var w := ws[i];
        assert ws[i..][1..] == ws[i + 1..];
        if result.None? { result := w.poll; }
        Receive(w);
        Reap(w);
        if stop.Some? && w.checkedAt >= stop.value { error := true; }
        Take(w);
        Act(w);
        Settle(w);
        i := i + 1;
      }
    }
  }

  // ----- Invariant -----

  function Grants(ds: seq<Delivery>): seq<Grant> { seq(|ds|, i requires 0 <= i < |ds| => ds[i].grant) }

  function Held(a: Option<Active>): seq<Grant> { if a.Some? then [a.value.grant] else [] }

  function Relayed(relay: Option<int>): seq<int> { if relay.Some? then [relay.value] else [] }

  /** Work splits, in order, into what is done, in hand and to do. */
  predicate Books<T(==)>(all: seq<T>, done: seq<T>, hand: seq<T>, todo: seq<T>) { all == done + hand + todo }

  lemma BooksMore<T>(all: seq<T>, done: seq<T>, hand: seq<T>, todo: seq<T>, x: seq<T>)
    requires Books(all, done, hand, todo)
    ensures Books(all + x, done, hand, todo + x)
  {
    assert done + hand + todo + x == done + hand + (todo + x);
  }

  lemma BooksTake<T>(all: seq<T>, done: seq<T>, todo: seq<T>)
    requires Books(all, done, [], todo) && todo != []
    ensures Books(all, done, [todo[0]], todo[1..])
  {
    assert done + [] + todo == done + [todo[0]] + todo[1..];
  }

  lemma BooksDone<T>(all: seq<T>, done: seq<T>, x: T, todo: seq<T>)
    requires Books(all, done, [x], todo)
    ensures Books(all, done + [x], [], todo)
  {
    assert done + [x] + todo == done + [x] + [] + todo;
  }

  lemma BooksClosed<T>(all: seq<T>, done: seq<T>)
    ensures Books(all, done, [], []) <==> all == done
    ensures Books(all, [], [], all)
  {
    assert done + [] + [] == done;
    assert [] + [] + all == all;
  }

  /** Each observed group is served, being served, or still to do. */
  predicate ActiveInv(s: State) {
    && (s.relay.Some? ==> s.active.Some?)
    && (s.active.Some? && !s.r.error ==>
        Books(s.active.value.observed, s.active.value.served, Relayed(s.relay), s.active.value.hints))
  }

  /** A delivery reached every group observed for it, then the session's own. */
  predicate DeliveredInv(s: State) {
    && (forall d <- s.delivered :: d.observed == d.served)
    && (s.exit.Running? ==> forall d <- s.delivered :: d.grant.signum != SIGKILL)
  }

  /** Without an error no grant is lost. */
  predicate Accounted(s: State) { !s.r.error ==> Books(s.r.granted, Grants(s.delivered), Held(s.active), s.r.pending) }

  predicate Inv(s: State) { ReceiverInv(s.r) && ActiveInv(s) && DeliveredInv(s) && Accounted(s) }

  lemma HandleGrew(r: Receiver, frame: Bytes, near: nat -> bool) returns (x: seq<Grant>)
    ensures var d := Handle(r, frame, near);
            d.granted == r.granted + x && d.pending == r.pending + x && (r.error ==> d.error)
  {
    hide Parse, Admissible;
    var p := Parse(frame);
    x := if |frame| + 1 > 128 || p.None? || !Admissible(r, p.value, near) || r.error then [] else [p.value];
  }

  /** New grants go to the end of the queue. */
  lemma {:induction false} DrainedGrew(r: Receiver, near: nat -> bool) returns (x: seq<Grant>)
    ensures var d := Drained(r, near); d.granted == r.granted + x && d.pending == r.pending + x && (r.error ==> d.error)
    decreases |r.buffer|
  {
    hide Parse, LineEnd, Admissible, Handle;
    var k := LineEnd(r.buffer);
    x := [];
    if k < |r.buffer| {
      var t := Handle(r, r.buffer[..k], near).(buffer := r.buffer[k + 1..]);
      var y := HandleGrew(r, r.buffer[..k], near);
      var z := DrainedGrew(t, near);
      x := y + z;
      assert r.granted + (y + z) == r.granted + y + z && r.pending + (y + z) == r.pending + y + z;
    }
  }

  lemma ReceiverFree(r: Receiver, t: Receiver)
    requires ReceiverInv(r) && t.granted == r.granted && t.last == r.last && t.stop == r.stop && (r.error ==> t.error)
    ensures ReceiverInv(t)
  {
  }

  lemma ReceivedInv(s: State, w: World)
    requires Inv(s)
    ensures Inv(Received(s, w))
  {
    hide Drained, ReceiverInv, Books, Grants;
    if !s.eof {
      var b := if w.data.Some? then s.r.buffer + w.data.value else s.r.buffer;
      var r := s.r.(buffer := b);
      var d := Drained(r, Near(w.readAt));
      ReceiverFree(s.r, r);
      DrainedInv(r, Near(w.readAt));
      var x := DrainedGrew(r, Near(w.readAt));
      ReceiverFree(d, Trimmed(d, w.data == Some([])));
      if !d.error { BooksMore(s.r.granted, Grants(s.delivered), Held(s.active), s.r.pending, x); }
    }
  }

  lemma TakenInv(s: State, w: World)
    requires Inv(s)
    ensures Inv(Taken(s, w))
  {
    hide ReceiverInv, Books, Grants;
    var t := Taken(s, w);
    ReceiverFree(s.r, t.r);
    if s.active.None? && s.r.pending != [] && !s.r.error {
      BooksTake(s.r.granted, Grants(s.delivered), s.r.pending);
      if w.groups.Some? { BooksClosed(w.groups.value, []); }
    }
  }

  lemma ReapedInv(s: State, w: World)
    requires Inv(s)
    ensures Inv(Reaped(s, w))
  {
    hide ReceiverInv, Books;
    ReceiverFree(s.r, Reaped(s, w).r);
    if s.relay.Some? && s.active.Some? && !s.r.error {
      var a := s.active.value;
      BooksDone(a.observed, a.served, s.relay.value, a.hints);
    }
  }

  lemma GrantsMore(ds: seq<Delivery>, d: Delivery)
    ensures Grants(ds + [d]) == Grants(ds) + [d.grant]
  {
  }

  lemma ActedInv(s: State, w: World)
    requires Inv(s) && s.exit.Running?
    ensures Inv(Acted(s, w))
  {
    hide ReceiverInv, Books, Grants;
    ReceiverFree(s.r, Acted(s, w).r);
    if s.active.Some? && s.relay.None? && !s.r.error {
      var a := s.active.value;
      if a.hints == [] {
        BooksClosed(a.observed, a.served);
        BooksDone(s.r.granted, Grants(s.delivered), a.grant, s.r.pending);
        GrantsMore(s.delivered, Delivery(a.grant, a.observed, a.served));
      } else { BooksTake(a.observed, a.served, a.hints); }
    }
  }

  lemma FailingInv(s: State)
    requires Inv(s)
    ensures Inv(Failing(s))
  {
  }

  lemma SettledInv(s: State, w: World)
    requires Inv(s)
    ensures Inv(Settled(s, w))
  {
    hide ReceiverInv, Books;
    ReceiverFree(s.r, Settled(s, w).r);
  }

  lemma PolledInv(s: State, w: World)
    requires Inv(s)
    ensures Inv(Polled(s, w))
  {
  }

  lemma StillRunning(s: State, w: World)
    requires s.exit.Running?
    ensures Taken(Checked(Reaped(Received(Polled(s, w), w), w), w), w).exit.Running?
  {
    hide Drained, Trimmed;
  }

  lemma TurnedInv(s: State, w: World)
    requires Inv(s) && s.exit.Running?
    ensures Inv(Turned(s, w))
  {
    hide Inv, Received, Reaped, Taken, Acted, Settled;
    assert Inv(Polled(s, w)) by { PolledInv(s, w); }
    var s1 := Received(Polled(s, w), w);
    ReceivedInv(Polled(s, w), w);
    ReapedInv(s1, w);
    var s2 := Reaped(s1, w);
    FailingInv(s2);
    var s3 := Checked(s2, w);
    TakenInv(s3, w);
    StillRunning(s, w);
    ActedInv(Taken(s3, w), w);
    SettledInv(Acted(Taken(s3, w), w), w);
  }

  lemma {:induction false} LoopedInv(s: State, ws: seq<World>)
    requires Inv(s)
    ensures Inv(Looped(s, ws))
    decreases |ws|
  {
    hide Inv, Turned;
    if ws != [] && s.exit.Running? {
      TurnedInv(s, ws[0]);
      LoopedInv(Turned(s, ws[0]), ws[1..]);
    }
  }

  // ----- What exit 0 means -----

  lemma ActedExit(s: State, w: World)
    requires s.exit.Running?
    ensures !Acted(Taken(Checked(Reaped(Received(Polled(s, w), w), w), w), w), w).exit.Returned?
  {
    hide Received, Reaped, Taken, Checked, Polled;
    StillRunning(s, w);
  }

  /** The turn that returned, the `k`-th, began with the loop running; that very turn saw the session
      empty and, after that, the deadline not reached; the command had finished, the pipe was
      closed, and nothing was queued or under way. */
  lemma {:induction false} ZeroExit(s: State, ws: seq<World>) returns (k: nat)
    requires s.exit.Running? && Looped(s, ws).exit == Returned(0)
    ensures k < |ws| && Looped(s, ws[..k]).exit.Running? && Looped(s, ws[..k + 1]) == Looped(s, ws)
    ensures var t := Looped(s, ws);
      && ws[k].others == Some(false) && !Late(t, ws[k].settledAt)
      && t.result.Some? && t.eof && !t.r.error && t.active.None? && t.relay.None? && t.r.pending == []
    decreases |ws|
  {
    hide Received, Reaped, Taken, Acted, Checked, Polled;
    var t := Turned(s, ws[0]);
    if t.exit.Running? {
      var m := ZeroExit(t, ws[1..]);
      k := m + 1;
      assert ws[..k][0] == ws[0] && ws[..k][1..] == ws[1..][..m];
      assert ws[..k + 1][0] == ws[0] && ws[..k + 1][1..] == ws[1..][..m + 1];
    } else {
      var u := Acted(Taken(Checked(Reaped(Received(Polled(s, ws[0]), ws[0]), ws[0]), ws[0]), ws[0]), ws[0]);
      ActedExit(s, ws[0]);
      assert t == Settled(u, ws[0]);
      k := 0;
      assert ws[..1][0] == ws[0] && ws[..0] == [];
    }
  }

  lemma OneDelivery(t: State)
    requires Ladder(t.r.granted) && Grants(t.delivered) == t.r.granted
    requires forall d <- t.delivered :: d.grant.signum != SIGKILL
    ensures |t.r.granted| <= 1
  {
    var gs := Grants(t.delivered);
    assert forall i :: 0 <= i < |gs| ==> gs[i] == t.delivered[i].grant;
  }

  lemma StartInv(result: Option<int>)
    ensures Inv(Start(result))
  {
  }

  lemma SameDeliveries(s: State, w: World)
    ensures Taken(Checked(Reaped(Received(Polled(s, w), w), w), w), w).delivered == s.delivered
  {
    hide Drained, Trimmed;
  }

  lemma LastTurn(s: State, w: World)
    requires Inv(s) && s.exit.Running? && Turned(s, w).exit.Returned?
    ensures forall d <- Turned(s, w).delivered :: d.grant.signum != SIGKILL
  {
    hide Received, Reaped, Taken, Polled, Checked, ReceiverInv, ActiveInv, Accounted;
    StillRunning(s, w);
    var u := Taken(Checked(Reaped(Received(Polled(s, w), w), w), w), w);
    SameDeliveries(s, w);
    var v := Acted(u, w);
    assert v.exit.Running?;
    assert Turned(s, w) == Settled(v, w);
  }

  /** Delivering a kill ends the loop itself. */
  lemma {:induction false} NoKill(s: State, ws: seq<World>)
    requires Inv(s) && s.exit.Running? && Looped(s, ws).exit.Returned?
    ensures forall d <- Looped(s, ws).delivered :: d.grant.signum != SIGKILL
    decreases |ws|
  {
    hide Inv, Received, Reaped, Taken, Acted, Checked, Polled;
    var t := Turned(s, ws[0]);
    TurnedInv(s, ws[0]);
    if t.exit.Running? { NoKill(t, ws[1..]); }
    else { LastTurn(s, ws[0]); }
  }

  /** Exit 0 also means that every grant ever queued reached every group observed for it and the
      session's own group, and that no kill was ever granted. */
  lemma ZeroExitDelivers(result: Option<int>, ws: seq<World>)
    requires Looped(Start(result), ws).exit == Returned(0)
    ensures var t := Looped(Start(result), ws);
      && Grants(t.delivered) == t.r.granted && |t.r.granted| <= 1
      && (forall d <- t.delivered :: d.observed == d.served && d.grant.signum != SIGKILL)
  {
    hide Looped;
    assert Inv(Start(result)) by { StartInv(result); }
    LoopedInv(Start(result), ws);
    var k := ZeroExit(Start(result), ws);
    NoKill(Start(result), ws);
    var t := Looped(Start(result), ws);
    BooksClosed(t.r.granted, Grants(t.delivered));
    OneDelivery(t);
  }

  /** Conversely, a turn that finds the session settled ends the loop: with 0 if there is no error and
      neither reading of the clock is past the deadline, with 1 otherwise; and it goes on exactly if
      somebody else is still there or nobody could tell. */
  lemma SettledTurn(s: State, w: World)
    requires s.exit.Running? && s.result.Some? && s.eof && s.active.None? && s.relay.None? && s.r.pending == []
    ensures var t := Turned(s, w);
      && (t.exit == Returned(0) <==>
            w.others == Some(false) && !s.r.error && !Late(s, w.checkedAt) && !Late(s, w.settledAt))
      && (t.exit == Returned(1) <==>
            w.others == Some(false) && (s.r.error || Late(s, w.checkedAt) || Late(s, w.settledAt)))
      && (t.exit.Running? <==> w.others != Some(false))
  {
  }

  /** The relay exited with 0, or died of the kill it was sent to deliver. */
  predicate RelayFine(s: State, w: World) {
    s.relay.Some? && s.active.Some? && w.reaped.Some? ==>
      w.reaped.value == Exited(0) || (s.active.value.grant.signum == 9 && w.reaped.value == Signalled(9))
  }

  /** A turn behind the end of the channel fails if there was an error, the scope is late, a relay failed,
      a grant expired or could not be observed, or a delivery was not made in time. */
  lemma TurnFails(s: State, w: World)
    requires s.exit.Running? && s.eof
    ensures s.r.error || Late(s, w.checkedAt) || !RelayFine(s, w) ==> Turned(s, w).r.error
    ensures s.active.None? && s.r.pending != [] && (w.takenAt >= s.r.pending[0].deadline || w.groups.None?) ==>
              Turned(s, w).r.error
    ensures s.active.Some? && s.relay.None? && w.actedAt >= s.active.value.grant.deadline ==> Turned(s, w).r.error
    ensures s.active.Some? && s.relay.None? && s.active.value.hints != [] && !w.forked ==> Turned(s, w).r.error
    ensures s.active.Some? && s.relay.None? && s.active.value.hints == []
            && (!w.sent || (s.active.value.grant.signum != 9 && w.doneAt >= s.active.value.grant.deadline)) ==>
              Turned(s, w).r.error
  {
  }

  /** The moments a turn compares are before this deadline. */
  predicate InTime(w: World, deadline: nat) {
    w.checkedAt < deadline && w.takenAt < deadline && w.actedAt < deadline && w.doneAt < deadline
        && w.settledAt < deadline
  }

  /** Nothing the turn compares is overdue, and every answer is a good one. */
  predicate Smooth(s: State, w: World) {
    && !s.r.error && (s.r.stop.Some? ==> InTime(w, s.r.stop.value))
    && (s.active.Some? ==> InTime(w, s.active.value.grant.deadline))
    && (s.r.pending != [] ==> InTime(w, s.r.pending[0].deadline))
    && w.groups.Some? && w.forked && w.sent && w.others.Some?
  }

  lemma SmoothTaken(s: State, w: World)
    requires s.eof && Smooth(s, w) && RelayFine(s, w)
    ensures var u := Taken(Checked(Reaped(Received(Polled(s, w), w), w), w), w);
      && !u.r.error && (u.r.stop.Some? ==> InTime(w, u.r.stop.value))
      && (u.active.Some? ==> InTime(w, u.active.value.grant.deadline))
  {
  }

  lemma SmoothActed(u: State, w: World)
    requires !u.r.error && (u.active.Some? ==> InTime(w, u.active.value.grant.deadline)) && w.forked && w.sent
    ensures !Acted(u, w).r.error && Acted(u, w).r.stop == u.r.stop
  {
  }

  /** A turn on which nothing of this happens leaves no error. */
  lemma TurnSucceeds(s: State, w: World)
    requires s.exit.Running? && s.eof && Smooth(s, w) && RelayFine(s, w)
    ensures !Turned(s, w).r.error
  {
    hide Polled, Received, Reaped, Checked, Taken, Acted, RelayFine;
    SmoothTaken(s, w);
    var u := Taken(Checked(Reaped(Received(Polled(s, w), w), w), w), w);
    SmoothActed(u, w);
  }
}

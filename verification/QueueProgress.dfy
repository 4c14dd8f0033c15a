/**
 What the validation queue (scripts/ci/validation-lock.py) can still do: commands do start, a
 generation can be released exactly unless one of its children is unidentified, and the next
 ticket then gets its turn.
 */
module QueueProgress {
  import opened Common
  import opened Queue
  import S = ChildScope

  // ----- Continuations

  /** Some continuation leads from one state to the other. */
  ghost predicate Leads(s: State, t: State) { exists run :: Valid(s, run) && Final(s, run) == t }

  lemma {:induction false} LeadsSelf(s: State)
    ensures Leads(s, s)
  {
    assert Valid(s, []) && Final(s, []) == s;
  }

  lemma {:induction false} Snoc(s: State, run: seq<Step>, st: Step)
    requires Valid(s, run) && Enabled(Final(s, run), st)
    ensures Valid(s, run + [st]) && Final(s, run + [st]) == Apply(Final(s, run), st)
    decreases |run|
  {
    hide Enabled, Apply;
    if run != [] {
      Snoc(Apply(s, run[0]), run[1..], st);
      assert (run + [st])[1..] == run[1..] + [st];
    } else {
      assert [st][1..] == [];
    }
  }

  lemma {:induction false} LeadsBy(s: State, t: State, st: Step)
    requires Leads(s, t) && Enabled(t, st)
    ensures Leads(s, Apply(t, st))
  {
    hide Enabled, Apply;
    var run :| Valid(s, run) && Final(s, run) == t;
    Snoc(s, run, st);
  }

  lemma {:induction false} Append(s: State, a: seq<Step>, b: seq<Step>)
    requires Valid(s, a) && Valid(Final(s, a), b)
    ensures Valid(s, a + b) && Final(s, a + b) == Final(Final(s, a), b)
    decreases |a|
  {
    hide Enabled, Apply;
    if a == [] { assert a + b == b; }
    else {
      assert (a + b)[1..] == a[1..] + b;
      Append(Apply(s, a[0]), a[1..], b);
    }
  }

  lemma {:induction false} LeadsOn(s: State, t: State, u: State)
    requires Leads(s, t) && Leads(t, u)
    ensures Leads(s, u)
  {
    hide Valid, Final;
    var a :| Valid(s, a) && Final(s, a) == t;
    var b :| Valid(t, b) && Final(t, b) == u;
    Append(s, a, b);
  }

  lemma {:induction false} LeadsInv(s: State, t: State)
    requires Inv(s) && Leads(s, t)
    ensures Inv(t)
  {
    var run :| Valid(s, run) && Final(s, run) == t;
    RunInv(s, run);
  }

  /** The queue with one generation exchanged. */
  function With(s: State, i: nat, g: Gen): State
    requires i < |s.gens|
  {
    s.(gens := s.gens[i := g])
  }

  lemma {:induction false} Locally(s: State, i: nat, what: Local)
    requires i < |s.gens| && what != Prune && LocalEnabled(s.gens[i], what, ViewOf(s, i))
    requires !Unlocks(what) || s.mutex != Some(i)
    ensures Leads(s, With(s, i, LocalApply(s.gens[i], what, ViewOf(s, i))))
  {
    hide LocalEnabled, LocalApply, Leads;
    LeadsSelf(s);
    LeadsBy(s, s, Within(i, what));
  }

  // ----- A generation that may launch can start its command

  predicate Commanding(s: State, i: nat) {
    i < |s.gens| && s.gate == Held(i) && s.gens[i].root == Started && s.gens[i].workers
  }

  /** A published generation whose root waits for the launch byte can get it and start. */
  lemma {:induction false} LaunchStarts(s: State, i: nat)
    requires i < |s.gens| && s.gate == Held(i) && s.gens[i].phase == Unticketed && s.gens[i].root == Idle
    ensures exists t :: Leads(s, t) && Commanding(t, i)
  {
    hide Leads;
    LeadsSelf(s);
    LeadsBy(s, s, Within(i, ByGuardian(Launch)));
    var t := Apply(s, Within(i, ByGuardian(Launch)));
    LeadsBy(s, t, Within(i, InRoot(RootRead(true))));
    assert Commanding(Apply(t, Within(i, InRoot(RootRead(true)))), i);
  }

  /** A generation whose turn it is can publish its gate and start its command. */
  lemma {:induction false} EnterStarts(s: State, i: nat)
    requires Inv(s) && Enabled(s, Enter(i))
    ensures exists t :: Leads(s, t) && Commanding(t, i)
  {
    hide Leads, Inv;
    LeadsSelf(s);
    LeadsBy(s, s, Enter(i));
    var t := Apply(s, Enter(i));
    LeadsBy(s, t, Within(i, ByGuardian(Ready)));
    t := Apply(t, Within(i, ByGuardian(Ready)));
    LeadsBy(s, t, Within(i, ByGuardian(Record)));
    t := Apply(t, Within(i, ByGuardian(Record)));
    LeadsBy(s, t, Link(i));
    t := Apply(t, Link(i));
    LeadsBy(s, t, Within(i, ByGuardian(Unticket)));
    t := Apply(t, Within(i, ByGuardian(Unticket)));
    LaunchStarts(t, i);
    var u :| Leads(t, u) && Commanding(u, i);
    LeadsOn(s, t, u);
  }

  /** A ticket can always be given up outside the publication block: by a waiter that stops waiting, a
      generation that runs or is done, and for a dead one that does not hold the gate. */
  lemma {:induction false} TicketCanGo(s: State, i: nat) returns (t: State)
    requires i < |s.gens|
    requires !InBlock(s.gens[i]) && (s.gens[i].phase == Left ==> s.gate != Held(i) && s.mutex.None?)
    ensures Leads(s, t) && t == With(s, i, s.gens[i].(ticket := false))
  {
    hide Leads;
    Locally(s, i, DropTicket);
    t := With(s, i, s.gens[i].(ticket := false));
  }

  // ----- Winding down children

  function WithChild(s: State, i: nat, k: nat, c: S.Child): State
    requires i < |s.gens| && k < |s.gens[i].children|
  {
    With(s, i, s.gens[i].(children := s.gens[i].children[k := c]))
  }

  lemma {:induction false} SameChild(s: State, i: nat, k: nat)
    requires i < |s.gens| && k < |s.gens[i].children|
    ensures WithChild(s, i, k, s.gens[i].children[k]) == s
  {
    var g := s.gens[i];
    assert g.children[k := g.children[k]] == g.children;
    assert s.gens[i := g] == s.gens;
  }

  lemma {:induction false} ChildTwice(s: State, i: nat, k: nat, d: S.Child, c: S.Child)
    requires i < |s.gens| && k < |s.gens[i].children|
    ensures WithChild(WithChild(s, i, k, d), i, k, c) == WithChild(s, i, k, c)
  {
    var g := s.gens[i];
    var h := g.(children := g.children[k := d]);
    assert h.children[k := c] == g.children[k := c];
    assert s.gens[i := h][i := h.(children := h.children[k := c])] == s.gens[i := g.(children := g.children[k := c])];
  }

  lemma {:induction false} ChildStep(s: State, i: nat, k: nat, step: S.Step)
    requires i < |s.gens| && k < |s.gens[i].children| && step != S.GuardianDies
    requires S.Enabled(s.gens[i].children[k], step, ChildContext(s.gens[i], ViewOf(s, i)))
    ensures Leads(s, WithChild(s, i, k, S.Apply(s.gens[i].children[k], step, ChildContext(s.gens[i], ViewOf(s, i)))))
  {
    hide Leads, S.Enabled, S.Apply, ChildContext;
    Locally(s, i, InChild(k, step));
  }

  /** The plan of a child is a continuation of the queue. */
  lemma {:induction false} PlanLifts(s: State, i: nat, k: nat, steps: seq<S.Step>) returns (c: S.Child)
    requires i < |s.gens| && s.gate == Held(i) && Alive(s.gens[i]) && k < |s.gens[i].children|
    requires S.Planned(s.gens[i].children[k], steps)
    ensures Leads(s, WithChild(s, i, k, c)) && c.ordinaryStop && !S.HelperLive(c)
    decreases |steps|
  {
    hide Leads, S.Enabled, S.Apply;
    c := s.gens[i].children[k];
    if steps == [] {
      LeadsSelf(s);
      SameChild(s, i, k);
    } else {
      var x := ChildContext(s.gens[i], ViewOf(s, i));
      assert x.owner && x.guardian;
      var d := S.Apply(c, steps[0], x);
      ChildStep(s, i, k, steps[0]);
      var t := WithChild(s, i, k, d);
      c := PlanLifts(t, i, k, steps[1..]);
      ChildTwice(s, i, k, d, c);
      LeadsOn(s, t, WithChild(s, i, k, c));
    }
  }

  lemma {:induction false} WindLifts(s: State, i: nat, k: nat, steps: seq<S.Step>) returns (c: S.Child)
    requires i < |s.gens| && k < |s.gens[i].children| && S.WindsBy(s.gens[i].children[k], steps)
    ensures Leads(s, WithChild(s, i, k, c)) && S.Wound(c)
    decreases |steps|
  {
    hide Leads, S.Enabled, S.Apply, S.Wound;
    c := s.gens[i].children[k];
    if steps == [] {
      LeadsSelf(s);
      SameChild(s, i, k);
    } else {
      var d := S.Apply(c, steps[0], ChildContext(s.gens[i], ViewOf(s, i)));
      ChildStep(s, i, k, steps[0]);
      var t := WithChild(s, i, k, d);
      c := WindLifts(t, i, k, steps[1..]);
      ChildTwice(s, i, k, d, c);
      LeadsOn(s, t, WithChild(s, i, k, c));
    }
  }

  function WithChildren(s: State, i: nat, cs: seq<S.Child>): State
    requires i < |s.gens|
  {
    With(s, i, s.gens[i].(children := cs))
  }

  /** No child of the generation lost its identity. */
  predicate Identified(g: Gen) {
    forall k | 0 <= k < |g.children| :: S.Inv(g.children[k]) && !S.Unidentified(g.children[k])
  }

  lemma {:induction false} PlanOf(c: S.Child) returns (steps: seq<S.Step>)
    requires S.Inv(c) && !S.Unidentified(c)
    ensures S.Planned(c, steps)
  {
    hide S.Planned;
    S.EveryOtherPlannable(c);
    steps :| S.Planned(c, steps);
  }

  lemma {:induction false} AllStop(s: State, i: nat, n: nat) returns (cs: seq<S.Child>)
    requires i < |s.gens| && s.gate == Held(i) && Alive(s.gens[i]) && n <= |s.gens[i].children| && Identified(s.gens[i])
    ensures |cs| == |s.gens[i].children| && Leads(s, WithChildren(s, i, cs))
    ensures forall k | 0 <= k < n :: cs[k].ordinaryStop && !S.HelperLive(cs[k])
    ensures forall k | n <= k < |cs| :: cs[k] == s.gens[i].children[k]
    decreases n
  {
    hide Leads, S.Inv, S.Unidentified, S.HelperLive;
    if n == 0 {
      cs := s.gens[i].children;
      LeadsSelf(s);
      assert WithChildren(s, i, cs) == s;
    } else {
      var before := AllStop(s, i, n - 1);
      var t := WithChildren(s, i, before);
      var steps := PlanOf(before[n - 1]);
      var c := PlanLifts(t, i, n - 1, steps);
      cs := before[n - 1 := c];
      assert WithChild(t, i, n - 1, c) == WithChildren(s, i, cs);
      LeadsOn(s, t, WithChildren(s, i, cs));
    }
  }

  lemma {:induction false} WindOf(c: S.Child) returns (steps: seq<S.Step>)
    requires S.Inv(c) && !S.Unidentified(c) && !c.deciding
    ensures S.WindsBy(c, steps)
  {
    hide S.WindsBy;
    S.EveryOtherWinds(c);
    steps :| S.WindsBy(c, steps);
  }

  lemma {:induction false} AllWind(s: State, i: nat, n: nat) returns (cs: seq<S.Child>)
    requires i < |s.gens| && n <= |s.gens[i].children| && Identified(s.gens[i])
    requires forall k | 0 <= k < |s.gens[i].children| :: !s.gens[i].children[k].deciding
    ensures |cs| == |s.gens[i].children| && Leads(s, WithChildren(s, i, cs))
    ensures forall k | 0 <= k < n :: S.Wound(cs[k])
    ensures forall k | n <= k < |cs| :: cs[k] == s.gens[i].children[k]
    decreases n
  {
    hide Leads, S.Inv, S.Unidentified, S.Wound;
    if n == 0 {
      cs := s.gens[i].children;
      LeadsSelf(s);
      assert WithChildren(s, i, cs) == s;
    } else {
      var before := AllWind(s, i, n - 1);
      var t := WithChildren(s, i, before);
      var steps := WindOf(before[n - 1]);
      var c := WindLifts(t, i, n - 1, steps);
      cs := before[n - 1 := c];
      assert WithChild(t, i, n - 1, c) == WithChildren(s, i, cs);
      LeadsOn(s, t, WithChildren(s, i, cs));
    }
  }

  lemma {:induction false} RecoveredStops(c: S.Child)
    requires S.Wound(c)
    ensures S.Recovered(c).ordinaryStop && !S.InRootSession(S.Recovered(c))
  {
    hide S.Recovered;
    S.RecoveredWrites(c);
  }

  lemma {:induction false} StillAbsent(g: Gen, cs: seq<S.Child>, n: nat)
    requires RootAbsent(g) && |cs| == |g.children| && n <= |cs|
    requires forall k | 0 <= k < n :: !S.InRootSession(cs[k])
    requires forall k | n <= k < |cs| :: cs[k] == g.children[k]
    ensures RootAbsent(g.(children := cs))
  {}

  /** Recovery marks every child of a dead, empty generation stopped. */
  lemma {:induction false} AllRecover(s: State, i: nat, n: nat) returns (cs: seq<S.Child>)
    requires i < |s.gens| && s.gate == Held(i) && !Alive(s.gens[i]) && RootAbsent(s.gens[i])
    requires n <= |s.gens[i].children| && forall k | 0 <= k < |s.gens[i].children| :: S.Wound(s.gens[i].children[k])
    ensures |cs| == |s.gens[i].children| && Leads(s, WithChildren(s, i, cs))
    ensures forall k | 0 <= k < n :: cs[k].ordinaryStop && !S.InRootSession(cs[k])
    ensures forall k | n <= k < |cs| :: cs[k] == s.gens[i].children[k]
    decreases n
  {
    hide Leads, S.Wound, S.Recovered;
    if n == 0 {
      cs := s.gens[i].children;
      LeadsSelf(s);
      assert s.gens[i := s.gens[i]] == s.gens;
    } else {
      var before := AllRecover(s, i, n - 1);
      var t, k := WithChildren(s, i, before), n - 1;
      var c := S.Recovered(before[k]);
      RecoveredStops(before[k]);
      assert RootAbsent(t.gens[i]) by { StillAbsent(s.gens[i], before, n - 1); }
      ChildStep(t, i, k, S.Recover);
      cs := before[k := c];
      assert WithChild(t, i, k, c) == WithChildren(s, i, cs);
      LeadsOn(s, t, WithChildren(s, i, cs));
    }
  }

  // ----- Winding down the root session and the resources

  lemma {:induction false} RootStops(s: State, i: nat) returns (g: Gen)
    requires i < |s.gens|
    ensures Leads(s, With(s, i, g)) && (g.root == NoRoot || g.root == Over)
    ensures g == s.gens[i].(root := g.root)
  {
    hide Leads;
    g := s.gens[i];
    if g.root == Idle || g.root == Started {
      Locally(s, i, InRoot(RootDies));
      g := g.(root := Over);
    } else {
      LeadsSelf(s);
      assert s.gens[i := s.gens[i]] == s.gens;
    }
  }

  lemma {:induction false} WithTwice(s: State, i: nat, a: Gen, b: Gen)
    requires i < |s.gens|
    ensures With(With(s, i, a), i, b) == With(s, i, b)
  {
    assert s.gens[i := a][i := b] == s.gens[i := b];
  }

  lemma {:induction false} RootEnds(s: State, i: nat) returns (g: Gen)
    requires i < |s.gens|
    ensures Leads(s, With(s, i, g)) && (g.root == NoRoot || g.root == Over) && !g.workers
    ensures g == s.gens[i].(root := g.root, workers := false)
  {
    hide Leads;
    var h := RootStops(s, i);
    g := h;
    if h.workers {
      var t := With(s, i, h);
      Locally(t, i, InRoot(RootWorkersEnd));
      g := h.(workers := false);
      WithTwice(s, i, h, g);
      LeadsOn(s, t, With(s, i, g));
    }
  }

  function WithResource(s: State, i: nat, r: nat, x: Resource): State
    requires i < |s.gens| && r < |s.gens[i].resources|
  {
    With(s, i, s.gens[i].(resources := s.gens[i].resources[r := x]))
  }

  lemma {:induction false} ResourceTwice(s: State, i: nat, r: nat, x: Resource, y: Resource)
    requires i < |s.gens| && r < |s.gens[i].resources|
    ensures WithResource(WithResource(s, i, r, x), i, r, y) == WithResource(s, i, r, y)
  {
    var g := s.gens[i];
    var h := g.(resources := g.resources[r := x]);
    assert h.resources[r := y] == g.resources[r := y];
    assert s.gens[i := h][i := h.(resources := h.resources[r := y])] ==
        s.gens[i := g.(resources := g.resources[r := y])];
  }

  /** Its observers end, the first `n` of them. */
  lemma {:induction false} ObserversEnd(s: State, i: nat, r: nat, n: nat) returns (x: Resource)
    requires i < |s.gens| && r < |s.gens[i].resources| && n <= |s.gens[i].resources[r].observers|
    ensures Leads(s, WithResource(s, i, r, x)) && |x.observers| == |s.gens[i].resources[r].observers|
    ensures forall k | 0 <= k < n :: !x.observers[k].alive
    decreases n
  {
    hide Leads;
    if n == 0 {
      x := s.gens[i].resources[r];
      LeadsSelf(s);
      assert s.gens[i].resources[r := x] == s.gens[i].resources && s.gens[i := s.gens[i]] == s.gens;
    } else {
      var y := ObserversEnd(s, i, r, n - 1);
      var t, k := WithResource(s, i, r, y), n - 1;
      Locally(t, i, OnResource(ObserverEnds(r, k)));
      x := y.(observers := y.observers[k := y.observers[k].(alive := false)]);
      ResourceTwice(s, i, r, y, x);
      LeadsOn(s, t, WithResource(s, i, r, x));
    }
  }

  lemma {:induction false} ResourceCompletes(s: State, i: nat, r: nat) returns (x: Resource)
    requires i < |s.gens| && r < |s.gens[i].resources| && s.mutex.None?
    ensures Leads(s, WithResource(s, i, r, x)) && x.state == Complete && Silent(x)
  {
    hide Leads;
    var y := ObserversEnd(s, i, r, |s.gens[i].resources[r].observers|);
    var t := WithResource(s, i, r, y);
    Locally(t, i, OnResource(Write(r, Complete)));
    x := y.(state := Complete);
    ResourceTwice(s, i, r, y, x);
    LeadsOn(s, t, WithResource(s, i, r, x));
  }

  function WithResources(s: State, i: nat, rs: seq<Resource>): State
    requires i < |s.gens|
  {
    With(s, i, s.gens[i].(resources := rs))
  }

  lemma {:induction false} AllComplete(s: State, i: nat, n: nat) returns (rs: seq<Resource>)
    requires i < |s.gens| && s.mutex.None? && n <= |s.gens[i].resources|
    ensures |rs| == |s.gens[i].resources| && Leads(s, WithResources(s, i, rs))
    ensures forall r | 0 <= r < n :: rs[r].state == Complete && Silent(rs[r])
    ensures forall r | n <= r < |rs| :: rs[r] == s.gens[i].resources[r]
    decreases n
  {
    hide Leads, Silent;
    if n == 0 {
      rs := s.gens[i].resources;
      LeadsSelf(s);
      assert s.gens[i := s.gens[i]] == s.gens;
    } else {
      var before := AllComplete(s, i, n - 1);
      var t := WithResources(s, i, before);
      var x := ResourceCompletes(t, i, n - 1);
      rs := before[n - 1 := x];
      assert WithResource(t, i, n - 1, x) == WithResources(s, i, rs);
      LeadsOn(s, t, WithResources(s, i, rs));
    }
  }

  // ----- The next observer

  /** The first `n` observers end and leave their receipts; nothing else of the resource changes. */
  lemma {:induction false} ObserversReport(s: State, i: nat, r: nat, n: nat) returns (x: Resource)
    requires i < |s.gens| && r < |s.gens[i].resources| && n <= |s.gens[i].resources[r].observers|
    ensures Leads(s, WithResource(s, i, r, x))
    ensures |x.observers| == |s.gens[i].resources[r].observers|
    ensures x == s.gens[i].resources[r].(observers := x.observers)
    ensures forall k | 0 <= k < n :: !x.observers[k].alive && x.observers[k].receipt
    decreases n
  {
    hide Leads;
    if n == 0 {
      x := s.gens[i].resources[r];
      LeadsSelf(s);
      assert s.gens[i].resources[r := x] == s.gens[i].resources && s.gens[i := s.gens[i]] == s.gens;
    } else {
      var y := ObserversReport(s, i, r, n - 1);
      var t, k := WithResource(s, i, r, y), n - 1;
      var z := y.(observers := y.observers[k := y.observers[k].(alive := false)]);
      Locally(t, i, OnResource(ObserverEnds(r, k)));
      ResourceTwice(s, i, r, y, z);
      var u := WithResource(s, i, r, z);
      LeadsOn(s, t, u);
      x := z.(observers := z.observers[k := z.observers[k].(receipt := true)]);
      Locally(u, i, OnResource(ObserverReceipt(r, k)));
      ResourceTwice(s, i, r, z, x);
      LeadsOn(s, u, WithResource(s, i, r, x));
    }
  }

  lemma {:induction false} SameStanding(g: Gen, h: Gen, v: View, caller: Caller, origin: Option<nat>)
    requires h == g.(resources := h.resources)
    ensures Authentic(g, v, caller) ==> Authentic(h, v, caller)
    ensures Effective(g, v, origin) ==> Effective(h, v, origin)
  {}

  /** A resource whose generation and origin admit effects can always get one more observer, up to the
      limit of 256: its observers end, report, and the next one is added. */
  lemma {:induction false} ObserverCanFollow(s: State, i: nat, r: nat, caller: Caller) returns (t: State)
    requires i < |s.gens| && r < |s.gens[i].resources| && s.mutex.None?
    requires Authentic(s.gens[i], ViewOf(s, i), caller) && Authorized(s.gens[i].resources[r], caller)
    requires Effective(s.gens[i], ViewOf(s, i), s.gens[i].resources[r].origin)
    requires |s.gens[i].resources[r].observers| < 256
    ensures Leads(s, t) && i < |t.gens| && r < |t.gens[i].resources|
    ensures |t.gens[i].resources[r].observers| == |s.gens[i].resources[r].observers| + 1
  {
    hide Leads, Authentic, Effective;
    var n := |s.gens[i].resources[r].observers|;
    var x := ObserversReport(s, i, r, n);
    var u := WithResource(s, i, r, x);
    var y := x.(state := Active);
    Locally(u, i, OnResource(Write(r, Active)));
    ResourceTwice(s, i, r, x, y);
    var v := WithResource(s, i, r, y);
    LeadsOn(s, u, v);
    SameStanding(s.gens[i], v.gens[i], ViewOf(s, i), caller, y.origin);
    Locally(v, i, OnResource(AddObserver(r, caller, false)));
    t := With(v, i, LocalApply(v.gens[i], OnResource(AddObserver(r, caller, false)), ViewOf(v, i)));
    LeadsOn(s, v, t);
  }

  // ----- The gate

  /** The generation wound down: same place in the queue, nothing left in its root session. */
  predicate Emptied(g: Gen, h: Gen) {
    && RootAbsent(h) && h.phase == g.phase && h.ticket == g.ticket && h.recorded == g.recorded
    && (forall k | 0 <= k < |h.children| :: h.children[k].ordinaryStop)
  }

  /** A stopped child whose helper is gone has nobody in the root session. */
  lemma {:induction false} StoppedOutside(s: State, i: nat)
    requires Inv(s) && i < |s.gens|
    ensures forall k | 0 <= k < |s.gens[i].children| ::
              s.gens[i].children[k].ordinaryStop && !S.HelperLive(s.gens[i].children[k]) ==>
                !S.InRootSession(s.gens[i].children[k])
  {
    assert GenInv(s.gens[i], s.gate == Held(i));
    forall k | 0 <= k < |s.gens[i].children| ensures S.Inv(s.gens[i].children[k]) {}
  }

  lemma {:induction false} LiveGenerationEmpties(s: State, i: nat) returns (h: Gen)
    requires Inv(s) && i < |s.gens| && s.gate == Held(i) && Alive(s.gens[i]) && Identified(s.gens[i])
    ensures Leads(s, With(s, i, h)) && Emptied(s.gens[i], h)
  {
    hide Leads, Inv, S.Unidentified, S.Inv;
    var g := s.gens[i];
    var cs := AllStop(s, i, |g.children|);
    var t := WithChildren(s, i, cs);
    h := RootEnds(t, i);
    WithTwice(s, i, g.(children := cs), h);
    LeadsOn(s, t, With(s, i, h));
    LeadsInv(s, With(s, i, h));
    StoppedOutside(With(s, i, h), i);
    assert With(s, i, h).gens[i] == h && h.children == cs;
    forall k | 0 <= k < |cs| ensures cs[k].ordinaryStop && !S.InRootSession(cs[k]) {
      assert h.children[k] == cs[k];
    }
  }

  lemma {:induction false} NobodyDecides(s: State, i: nat)
    requires Inv(s) && i < |s.gens| && !Alive(s.gens[i])
    ensures forall k | 0 <= k < |s.gens[i].children| :: !s.gens[i].children[k].deciding
  {
    assert GenInv(s.gens[i], s.gate == Held(i));
  }

  lemma {:induction false} WoundOutside(g: Gen)
    requires (g.root == NoRoot || g.root == Over) && !g.workers
    requires forall k | 0 <= k < |g.children| :: S.Wound(g.children[k])
    ensures RootAbsent(g)
  {}

  lemma {:induction false} DeadGenerationEmpties(s: State, i: nat) returns (h: Gen)
    requires Inv(s) && i < |s.gens| && s.gate == Held(i) && !Alive(s.gens[i]) && Identified(s.gens[i])
    ensures Leads(s, With(s, i, h)) && Emptied(s.gens[i], h)
  {
    hide Leads, Inv, S.Unidentified, S.Inv, S.Wound;
    var g := s.gens[i];
    NobodyDecides(s, i);
    var cs := AllWind(s, i, |g.children|);
    var t := WithChildren(s, i, cs);
    var e := RootEnds(t, i);
    WithTwice(s, i, g.(children := cs), e);
    LeadsOn(s, t, With(s, i, e));
    WoundOutside(e);
    var ds := AllRecover(With(s, i, e), i, |cs|);
    h := e.(children := ds);
    WithTwice(s, i, e, h);
    StillAbsent(e, ds, |ds|);
    LeadsOn(s, With(s, i, e), With(s, i, h));
  }

  /** Which phases a gate holder can be in, and who holds the mutex then. */
  lemma {:induction false} HolderPhase(s: State, i: nat)
    requires Inv(s) && i < |s.gens| && s.gate == Held(i)
    ensures var p := s.gens[i].phase; p == Linked || p == Unticketed || p == Running || p == Ending || p == Left
    ensures s.gens[i].phase != Linked && s.gens[i].phase != Unticketed ==> s.mutex.None?
    ensures ChildrenInv(s.gens[i])
  {
    assert GenInv(s.gens[i], true);
  }

  lemma {:induction false} FreedState(s: State, u: State, i: nat, g: Gen, f: Gen, h: Gen)
    requires i < |s.gens| && u == With(s, i, g).(mutex := None)
    ensures With(u, i, f).(gate := Free, gens := With(u, i, f).gens[i := h]) ==
            With(s, i, h).(gate := Free, mutex := None)
  {
    assert s.gens[i := g][i := f][i := h] == s.gens[i := h];
  }

  lemma {:induction false} ResourcesApart(g: Gen, h: Gen)
    requires RootAbsent(g) && h == g.(resources := h.resources, phase := h.phase)
    ensures RootAbsent(h)
  {}

  /** A generation without an unidentified child can be released, its guardian alive or dead; the
      rest of the queue stays as it is. */
  lemma {:induction false} GateFrees(s: State, i: nat) returns (t: State, h: Gen)
    requires Inv(s) && i < |s.gens| && s.gate == Held(i) && Identified(s.gens[i])
    ensures Leads(s, t) && t == With(s, i, h).(gate := Free, mutex := None)
    ensures (h.phase == Finished || h.phase == Left) && h.recorded == s.gens[i].recorded && h.ticket == s.gens[i].ticket
    ensures RootAbsent(h) && (h.phase == Left ==> s.gens[i].phase == Left)
  {
    hide Leads, Inv, S.Unidentified, S.Inv, RootAbsent;
    HolderPhase(s, i);
    var u := s;
    LeadsSelf(s);
    var g := s.gens[i];
    if g.phase == Linked || g.phase == Unticketed {
      LeadsBy(s, s, Within(i, ByGuardian(Abandon)));
      u := Apply(s, Within(i, ByGuardian(Abandon)));
      LeadsInv(s, u);
      HolderPhase(u, i);
      g := u.gens[i];
      assert u == With(s, i, g).(mutex := None);
    } else {
      assert s.gens[i := g] == s.gens;
    }
    var e: Gen;
    if Alive(g) { e := LiveGenerationEmpties(u, i); } else { e := DeadGenerationEmpties(u, i); }
    var rs := AllComplete(With(u, i, e), i, |e.resources|);
    var f := e.(resources := rs);
    WithTwice(u, i, e, f);
    LeadsOn(u, With(u, i, e), With(u, i, f));
    LeadsOn(s, u, With(u, i, f));
    ResourcesApart(e, f);
    LeadsBy(s, With(u, i, f), Release(i));
    h := f.(phase := if f.phase == Left then Left else Finished);
    t := Apply(With(u, i, f), Release(i));
    ResourcesApart(f, h);
    FreedState(s, u, i, g, f, h);
  }

  // ----- What blocks the gate for good

  predicate Blocked(s: State, i: nat, k: nat) {
    i < |s.gens| && s.gate == Held(i) && k < |s.gens[i].children| && S.Unidentified(s.gens[i].children[k])
  }

  lemma {:induction false} OrphanedUnidentified(c: S.Child)
    requires S.Unidentified(c)
    ensures S.Unidentified(S.Orphaned(c))
  {}

  lemma {:induction false} BlockedChild(g: Gen, step: S.Step, v: View, k: nat)
    requires GenInv(g, v.owner) && k < |g.children| && S.Enabled(g.children[k], step, ChildContext(g, v))
    requires S.Unidentified(g.children[k])
    ensures S.Unidentified(S.Apply(g.children[k], step, ChildContext(g, v)))
  {
    hide S.Apply, S.Enabled, S.Inv, S.Unidentified;
    ChildConsistent(g, k, v);
    S.UnidentifiedStep(g.children[k], step, ChildContext(g, v));
  }

  lemma {:induction false} BlockedLocal(g: Gen, st: Local, v: View, k: nat)
    requires GenInv(g, true) && v.owner && LocalEnabled(g, st, v) && k < |g.children| && S.Unidentified(g.children[k])
    ensures k < |LocalApply(g, st, v).children| && S.Unidentified(LocalApply(g, st, v).children[k])
  {
    hide S.Apply, S.Enabled, S.Inv, S.Unidentified, ResourcesAfter, ResourceEnabled, ResourcesInv, Authentic,
        RootAbsent;
    match st
    case ByGuardian(a) => GuardianStepPhase(g, a, v);
    case InChild(j, step) => if j == k { BlockedChild(g, step, v, k); }
    case Leave => OrphanedUnidentified(g.children[k]);
    case _ =>
  }

  lemma {:induction false} NotReleasable(g: Gen, k: nat)
    requires k < |g.children| && S.Unidentified(g.children[k])
    ensures !Releasable(g)
  {}

  lemma {:induction false} BlockedStep(s: State, st: Step, i: nat, k: nat)
    requires Inv(s) && Enabled(s, st) && Blocked(s, i, k)
    ensures Blocked(Apply(s, st), i, k)
  {
    hide LocalApply, LocalEnabled, GenInv, S.Unidentified, RootAbsent;
    assert GenInv(s.gens[i], true);
    match st
    case Within(j, what) => if j == i && what != Prune { BlockedLocal(s.gens[i], what, ViewOf(s, i), k); }
    case Release(j) => if j == i { NotReleasable(s.gens[i], k); }
    case _ =>
  }

  lemma {:induction false} BlockedRun(s: State, run: seq<Step>, i: nat, k: nat)
    requires Inv(s) && Valid(s, run) && Blocked(s, i, k)
    ensures Final(s, run).gate == Held(i)
    decreases |run|
  {
    hide Enabled, Apply, Inv;
    if run != [] {
      StepInv(s, run[0]);
      BlockedStep(s, run[0], i, k);
      BlockedRun(Apply(s, run[0]), run[1..], i, k);
    }
  }

  /** In every reachable state a held gate can be given up by some continuation if and only if no child
      of its generation is unidentified. */
  lemma {:induction false} GateFreesUnlessBlocked(run: seq<Step>, i: nat)
    requires Valid(EMPTY, run) && i < |Final(EMPTY, run).gens| && Final(EMPTY, run).gate == Held(i)
    ensures var s := Final(EMPTY, run);
            (exists more :: Valid(s, more) && Final(s, more).gate == Free) <==>
            (forall k | 0 <= k < |s.gens[i].children| :: !S.Unidentified(s.gens[i].children[k]))
  {
    hide Inv, S.Unidentified, S.Inv;
    RunInv(EMPTY, run);
    var s := Final(EMPTY, run);
    HolderPhase(s, i);
    if forall k | 0 <= k < |s.gens[i].children| :: !S.Unidentified(s.gens[i].children[k]) {
      var t, h := GateFrees(s, i);
      var more :| Valid(s, more) && Final(s, more) == t;
      assert Final(s, more).gate == Free;
      assert exists m :: Valid(s, m) && Final(s, m).gate == Free;
    } else {
      var k :| 0 <= k < |s.gens[i].children| && S.Unidentified(s.gens[i].children[k]);
      forall more | Valid(s, more) ensures Final(s, more).gate != Free { BlockedRun(s, more, i, k); }
    }
  }

  lemma {:induction false} Continues(s: State, i: nat)
    requires exists t :: Leads(s, t) && Commanding(t, i)
    ensures exists more :: Valid(s, more) && Commanding(Final(s, more), i)
  {
    hide Commanding, Valid, Final;
    var t :| Leads(s, t) && Commanding(t, i);
    var more :| Valid(s, more) && Final(s, more) == t;
    assert Commanding(Final(s, more), i);
  }

  /** In every reachable state a published generation whose root is waiting can start its command. */
  lemma {:induction false} LaunchCanStart(run: seq<Step>, i: nat)
    requires Valid(EMPTY, run) && i < |Final(EMPTY, run).gens|
    requires Final(EMPTY, run).gens[i].phase == Unticketed && Final(EMPTY, run).gens[i].root == Idle
    ensures exists more :: Valid(Final(EMPTY, run), more) && Commanding(Final(Final(EMPTY, run), more), i)
  {
    RunInv(EMPTY, run);
    var s := Final(EMPTY, run);
    assert GenInv(s.gens[i], s.gate == Held(i));
    LaunchStarts(s, i);
    Continues(s, i);
  }

  /** Once the gate is free and the releasing generation's ticket gone, the next ticket may enter. */
  lemma {:induction false} TurnOf(s: State, u: State, i: nat, h: Gen, j: nat)
    requires Inv(s) && i < |s.gens| && s.gate == Held(i) && j < |s.gens| && j != i
    requires s.gens[j].phase == Waiting && s.gens[j].ticket
    requires forall k | 0 <= k < j && k != i :: !LiveTicket(s, k)
    requires u == With(s, i, h).(gate := Free, mutex := None)
    requires h.ticket ==> h.phase == Left && RootAbsent(h)
    ensures Enabled(u, Enter(j))
  {
    hide RootAbsent, Inv;
    forall k | 0 <= k < j ensures !LiveTicket(u, k) {
      if k != i { assert u.gens[k] == s.gens[k] && !LiveTicket(s, k); }
    }
  }

  lemma {:induction false} FreedAgain(s: State, i: nat, h: Gen, e: Gen)
    requires i < |s.gens|
    ensures With(With(s, i, h).(gate := Free, mutex := None), i, e) == With(s, i, e).(gate := Free, mutex := None)
  {
    assert s.gens[i := h][i := e] == s.gens[i := e];
  }

  /** The next ticket gets its turn: if the generation that holds the gate has no unidentified child, and
      apart from its own no smaller ticket is live, a waiting generation can publish its gate and
      start its command. */
  lemma {:induction false} NextCanStart(run: seq<Step>, i: nat, j: nat)
    requires Valid(EMPTY, run)
    requires var s := Final(EMPTY, run);
             && i < |s.gens| && s.gate == Held(i) && j < |s.gens| && s.gens[j].phase == Waiting && s.gens[j].ticket
             && (forall k | 0 <= k < |s.gens[i].children| :: !S.Unidentified(s.gens[i].children[k]))
             && (forall k | 0 <= k < j && k != i :: !LiveTicket(s, k))
    ensures exists more :: Valid(Final(EMPTY, run), more) && Commanding(Final(Final(EMPTY, run), more), j)
  {
    hide Inv, S.Unidentified, S.Inv, Leads, RootAbsent, LiveTicket, Commanding;
    RunInv(EMPTY, run);
    var s := Final(EMPTY, run);
    HolderPhase(s, i);
    var t, h := GateFrees(s, i);
    var u, e := t, h;
    if h.ticket && h.phase == Finished {
      Locally(t, i, DropTicket);
      e := h.(ticket := false);
      u := With(t, i, e);
      FreedAgain(s, i, h, e);
      LeadsOn(s, t, u);
    }
    LeadsInv(s, u);
    TurnOf(s, u, i, e, j);
    EnterStarts(u, j);
    var v :| Leads(u, v) && Commanding(v, j);
    LeadsOn(s, u, v);
    Continues(s, j);
  }

  // ----- Everything does run

  /** A child's run at time 0, with the root command alive, is a run of the queue. */
  lemma {:induction false} ChildRunLifts(s: State, i: nat, k: nat, run: seq<S.Event>)
    requires i < |s.gens| && s.gate == Held(i) && s.now == 0 && Alive(s.gens[i]) && s.gens[i].workers
    requires k < |s.gens[i].children| && S.Valid(s.gens[i].children[k], run) && S.Early(run)
    ensures Leads(s, WithChild(s, i, k, S.Final(s.gens[i].children[k], run)))
    decreases |run|
  {
    hide Leads, S.Enabled, S.Apply, S.Consistent;
    var c := s.gens[i].children[k];
    if run == [] {
      LeadsSelf(s);
      SameChild(s, i, k);
    } else {
      assert ChildContext(s.gens[i], ViewOf(s, i)) == S.At(0) == run[0].context;
      var d := S.Apply(c, run[0].step, run[0].context);
      ChildStep(s, i, k, run[0].step);
      var t := WithChild(s, i, k, d);
      ChildRunLifts(t, i, k, run[1..]);
      ChildTwice(s, i, k, d, S.Final(c, run));
      LeadsOn(s, t, WithChild(s, i, k, S.Final(c, run)));
    }
  }

  /** One generation, its root command running. */
  const RUNNING := Gen(Running, false, true, Started, true, true, false, true, [], [])

  lemma Single<T>(a: T, b: T)
    ensures [a][0 := b] == [b]
  {}

  /** One local step of the only generation. */
  lemma {:induction false} SoloStep(gate: Gate, mutex: Option<nat>, g: Gen, what: Local, h: Gen)
    requires what != Prune && !Unlocks(what) && Leads(EMPTY, State(0, gate, mutex, [g]))
    requires LocalEnabled(g, what, View(0, gate == Held(0), gate == Free, mutex == None))
    requires h == LocalApply(g, what, View(0, gate == Held(0), gate == Free, mutex == None))
    ensures Leads(EMPTY, State(0, gate, mutex, [h]))
  {
    hide Leads, LocalApply, LocalEnabled;
    var s := State(0, gate, mutex, [g]);
    Locally(s, 0, what);
    Single(g, h);
    LeadsOn(EMPTY, s, State(0, gate, mutex, [h]));
  }

  lemma {:induction false} RootPublishes(g: Gen)
    requires g == Gen(Recorded, true, true, Idle, false, true, false, true, [], [])
    requires Leads(EMPTY, State(0, Free, Some(0), [g]))
    ensures Leads(EMPTY, State(0, Held(0), None, [RUNNING]))
  {
    hide Leads;
    LeadsBy(EMPTY, State(0, Free, Some(0), [g]), Link(0));
    var linked := g.(phase := Linked);
    Single(g, linked);
    var unticketed := linked.(phase := Unticketed, ticket := false);
    SoloStep(Held(0), Some(0), linked, ByGuardian(Unticket), unticketed);
    LeadsBy(EMPTY, State(0, Held(0), Some(0), [unticketed]), Within(0, ByGuardian(Launch)));
    var launched := unticketed.(phase := Running, launchByte := true);
    Single(unticketed, launched);
    SoloStep(Held(0), None, launched, InRoot(RootRead(true)), RUNNING);
  }

  lemma {:induction false} RootRuns()
    ensures Leads(EMPTY, State(0, Held(0), None, [RUNNING]))
  {
    hide Leads;
    LeadsSelf(EMPTY);
    LeadsBy(EMPTY, EMPTY, Enqueue(false));
    var s := State(0, Free, None, [NEW_GEN]);
    assert Apply(EMPTY, Enqueue(false)) == s;
    LeadsBy(EMPTY, s, Enter(0));
    var g := NEW_GEN.(phase := Leased);
    Single(NEW_GEN, g);
    var h := g.(phase := Readied, root := Idle, barrier := true);
    SoloStep(Free, Some(0), g, ByGuardian(Ready), h);
    SoloStep(Free, Some(0), h, ByGuardian(Record), h.(phase := Recorded, recorded := true));
    RootPublishes(h.(phase := Recorded, recorded := true));
  }

  lemma {:induction false} ObserverRuns(t: State) returns (s: State)
    requires t == State(0, Held(0), None, [RUNNING.(children := [S.STARTED])]) && Leads(EMPTY, t)
    ensures Leads(EMPTY, s) && Commanding(s, 0)
    ensures |s.gens[0].children| == 1 && s.gens[0].children[0].workers && s.gens[0].children[0].starts == 1
    ensures |s.gens[0].resources| == 1 && |s.gens[0].resources[0].observers| == 1
    ensures var o := s.gens[0].resources[0].observers[0]; o.alive && o.launched && o.creates
  {
    hide Leads, S.Enabled, S.Apply;
    LeadsBy(EMPTY, t, Within(0, OnResource(Register(FromChild(0)))));
    s := Apply(t, Within(0, OnResource(Register(FromChild(0)))));
    LeadsBy(EMPTY, s, Within(0, OnResource(AddObserver(0, FromChild(0), true))));
    s := Apply(s, Within(0, OnResource(AddObserver(0, FromChild(0), true))));
    LeadsBy(EMPTY, s, Within(0, OnResource(LaunchObserver(0, 0))));
    s := Apply(s, Within(0, OnResource(LaunchObserver(0, 0))));
  }

  /** A run after which a root command, a child command and a native observer of one generation are all
      alive under its gate. */
  lemma {:induction false} EverythingRuns() returns (s: State)
    ensures Leads(EMPTY, s) && Commanding(s, 0)
    ensures |s.gens[0].children| == 1 && s.gens[0].children[0].workers && s.gens[0].children[0].starts == 1
    ensures |s.gens[0].resources| == 1 && |s.gens[0].resources[0].observers| == 1
    ensures var o := s.gens[0].resources[0].observers[0]; o.alive && o.launched && o.creates
  {
    hide Leads, S.Valid, S.Final, S.Enabled, S.Apply;
    RootRuns();
    var g, h := RUNNING.(children := [S.Reserve(10)]), RUNNING.(children := [S.STARTED]);
    SoloStep(Held(0), None, RUNNING, ReserveChild(10), g);
    var t := State(0, Held(0), None, [g]);
    var run := S.LaunchedRun();
    ChildRunLifts(t, 0, 0, run);
    s := State(0, Held(0), None, [h]);
    Single(S.Reserve(10), S.STARTED);
    Single(g, h);
    assert WithChild(t, 0, 0, S.STARTED) == s;
    LeadsOn(EMPTY, t, s);
    s := ObserverRuns(s);
  }
}

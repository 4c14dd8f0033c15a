/**
 Admission of reported duplicate pairs (scripts/ci/duplication-check.py:259-295).  Every reported
 pair is charged to a slot, that is to one pair of reviewed occurrences of one case.
 */
module Duplication {

  datatype Interval = Interval(path: string, start: nat, stop: nat)

  /** A resolved envelope: occurrence `index` of case `id`. */
  datatype Envelope = Envelope(id: string, index: nat, path: string, start: nat, stop: nat, ceiling: nat)

  datatype Pair = Pair(first: Interval, second: Interval, tokens: nat)

  datatype Slot = Slot(id: string, left: nat, right: nat)

  /** A pair placed in a slot, its sides ordered by occurrence. */
  datatype Charge = Charge(slot: Slot, left: Interval, right: Interval, tokens: nat)

  datatype Reason = NoUniqueFamily | CeilingExceeded | OverlappingReuse | SplitCeilingExceeded

  datatype Verdict = Failed(reason: Reason) | Repeat(same: Charge) | Charged(charge: Charge)

  function Min(a: nat, b: nat): nat { if a < b then a else b }

  function Max(a: nat, b: nat): nat { if a < b then b else a }

  predicate Within(i: Interval, e: Envelope) { e.path == i.path && e.start <= i.start < i.stop <= e.stop }

  predicate Overlap(i: Interval, j: Interval) { Max(i.start, j.start) < Min(i.stop, j.stop) }

  /** The envelopes around an interval, in order. */
  function Matches(admitted: seq<Envelope>, i: Interval): seq<Envelope> {
    if admitted == [] then []
    else (if Within(i, admitted[0]) then [admitted[0]] else []) + Matches(admitted[1..], i)
  }

  /** Two occurrences of one case. */
  predicate Kin(a: Envelope, b: Envelope) { a.id == b.id && a.index != b.index }

  function KinOf(a: Envelope, bs: seq<Envelope>): seq<(Envelope, Envelope)> {
    if bs == [] then [] else (if Kin(a, bs[0]) then [(a, bs[0])] else []) + KinOf(a, bs[1..])
  }

  function Compatible(xs: seq<Envelope>, bs: seq<Envelope>): seq<(Envelope, Envelope)> {
    if xs == [] then [] else KinOf(xs[0], bs) + Compatible(xs[1..], bs)
  }

  function Families(admitted: seq<Envelope>, p: Pair): seq<(Envelope, Envelope)> {
    Compatible(Matches(admitted, p.first), Matches(admitted, p.second))
  }

  /** The pair placed in the slot of its two envelopes. */
  function Place(p: Pair, l: Envelope, r: Envelope): Charge {
    if l.index > r.index then Charge(Slot(l.id, r.index, l.index), p.second, p.first, p.tokens)
    else Charge(Slot(l.id, l.index, r.index), p.first, p.second, p.tokens)
  }

  predicate Same(c: Charge, d: Charge) { c.slot == d.slot && c.left == d.left && c.right == d.right }

  predicate Clash(c: Charge, d: Charge) { c.slot == d.slot && (Overlap(c.left, d.left) || Overlap(c.right, d.right)) }

  predicate Repeated(charges: seq<Charge>, c: Charge) { exists d <- charges :: Same(d, c) }

  predicate Clashes(charges: seq<Charge>, c: Charge) { exists d <- charges :: Clash(d, c) }

  function Tokens(charges: seq<Charge>, s: Slot): nat {
    if charges == [] then 0
    else Tokens(charges[..|charges| - 1], s)
         + (if charges[|charges| - 1].slot == s then charges[|charges| - 1].tokens else 0)
  }

  /** What happens to one pair, given what was charged before it. */
  function Judge(admitted: seq<Envelope>, charges: seq<Charge>, p: Pair): Verdict {
    var found := Families(admitted, p);
    if |found| != 1 then Failed(NoUniqueFamily) else
    var (l, r) := found[0];
    var c := Place(p, l, r);
    if p.tokens > Min(l.ceiling, r.ceiling) then Failed(CeilingExceeded)
    else if Repeated(charges, c) then Repeat(c)
    else if Clashes(charges, c) then Failed(OverlappingReuse)
    else if Tokens(charges, c.slot) + p.tokens > Min(l.ceiling, r.ceiling) then Failed(SplitCeilingExceeded)
    else Charged(c)
  }

  /** Charges made by a whole report. */
  function Ledger(admitted: seq<Envelope>, report: seq<Pair>): seq<Charge> {
    if report == [] then []
    else
      var before := Ledger(admitted, report[..|report| - 1]);
      var v := Judge(admitted, before, report[|report| - 1]);
      if v.Charged? then before + [v.charge] else before
  }

  /** The failing pairs of a report, in order. */
  function Failures(admitted: seq<Envelope>, report: seq<Pair>): seq<(Pair, Reason)> {
    if report == [] then []
    else
      var p := report[|report| - 1];
      var v := Judge(admitted, Ledger(admitted, report[..|report| - 1]), p);
      Failures(admitted, report[..|report| - 1]) + (if v.Failed? then [(p, v.reason)] else [])
  }

  /** Occurrences are enumerated and case identifiers are unique, so `(id, index)` names one envelope. */
  predicate Distinct(admitted: seq<Envelope>) {
    forall i, j :: 0 <= i < j < |admitted| ==>
        admitted[i].id != admitted[j].id || admitted[i].index != admitted[j].index
  }

  // ----- The loop with its dictionaries -----

  /** The dictionaries `used`, `charged_tokens` and `exact` hold the charges, per slot. */
  ghost predicate HoldsUsed(used: map<Slot, seq<Charge>>, charges: seq<Charge>) {
    && (forall s, d :: s in used && d in used[s] ==> d in charges && d.slot == s)
    && (forall d <- charges :: d.slot in used && d in used[d.slot])
  }

  ghost predicate HoldsSpent(spent: map<Slot, nat>, charges: seq<Charge>) {
    && (forall s <- spent :: spent[s] == Tokens(charges, s))
    && (forall d <- charges :: d.slot in spent)
  }

  function Key(c: Charge): (Slot, Interval, Interval) { (c.slot, c.left, c.right) }

  ghost predicate HoldsExact(exact: set<(Slot, Interval, Interval)>, charges: seq<Charge>) {
    && (forall d <- charges :: Key(d) in exact)
    && (forall e <- exact :: exists d <- charges :: e == Key(d))
  }

  lemma {:induction false} NoTokens(charges: seq<Charge>, s: Slot)
    requires forall d <- charges :: d.slot != s
    ensures Tokens(charges, s) == 0
  {
    if charges != [] { NoTokens(charges[..|charges| - 1], s); }
  }

  lemma HoldsNothing()
    ensures HoldsUsed(map[], []) && HoldsSpent(map[], []) && HoldsExact({}, [])
  {
  }

  lemma ExactRepeats(exact: set<(Slot, Interval, Interval)>, charges: seq<Charge>, c: Charge)
    requires HoldsExact(exact, charges)
    ensures Key(c) in exact <==> Repeated(charges, c)
  {
  }

  lemma UsedClashes(used: map<Slot, seq<Charge>>, charges: seq<Charge>, c: Charge)
    requires HoldsUsed(used, charges)
    ensures (exists d <- (if c.slot in used then used[c.slot] else []) ::
             Overlap(d.left, c.left) || Overlap(d.right, c.right)) <==> Clashes(charges, c)
  {
    hide Overlap;
  }

  lemma SpentTokens(spent: map<Slot, nat>, charges: seq<Charge>, s: Slot)
    requires HoldsSpent(spent, charges)
    ensures (if s in spent then spent[s] else 0) == Tokens(charges, s)
  {
    if s !in spent { NoTokens(charges, s); }
  }

  lemma UsedMore(used: map<Slot, seq<Charge>>, charges: seq<Charge>, c: Charge)
    requires HoldsUsed(used, charges)
    ensures HoldsUsed(used[c.slot := (if c.slot in used then used[c.slot] else []) + [c]], charges + [c])
  {
  }

  lemma SpentMore(spent: map<Slot, nat>, charges: seq<Charge>, c: Charge)
    requires HoldsSpent(spent, charges)
    ensures HoldsSpent(spent[c.slot := Tokens(charges, c.slot) + c.tokens], charges + [c])
  {
    assert (charges + [c])[..|charges|] == charges;
  }

  lemma ExactMore(exact: set<(Slot, Interval, Interval)>, charges: seq<Charge>, c: Charge)
    requires HoldsExact(exact, charges)
    ensures HoldsExact(exact + {Key(c)}, charges + [c])
  {
    var more := charges + [c];
    forall e <- exact + {Key(c)}
      ensures exists d <- more :: e == Key(d)
    {
      if e in exact {
        var d :| d in charges && e == Key(d);
        assert d in more;
      } else { assert more[|charges|] == c; }
    }
  }

  method Admit(admitted: seq<Envelope>, report: seq<Pair>) returns (failures: seq<(Pair, Reason)>)
    ensures failures == Failures(admitted, report)
  {
    hide HoldsUsed, HoldsSpent, HoldsExact, Families, Repeated, Clashes, Overlap;
    var used: map<Slot, seq<Charge>> := map[];
    var spent: map<Slot, nat> := map[];
    var exact: set<(Slot, Interval, Interval)> := {};
    failures := [];
    HoldsNothing();
    for k := 0 to |report|
      invariant failures == Failures(admitted, report[..k])
      invariant HoldsUsed(used, Ledger(admitted, report[..k])) && HoldsSpent(spent, Ledger(admitted, report[..k]))
      invariant HoldsExact(exact, Ledger(admitted, report[..k]))
    {
      var p := report[k];
      ghost var charges := Ledger(admitted, report[..k]);
      assert report[..k + 1][..k] == report[..k];
      var found := Families(admitted, p);
      if |found| != 1 { failures := failures + [(p, NoUniqueFamily)]; continue; }
      var (l, r) := found[0];
      if p.tokens > Min(l.ceiling, r.ceiling) { failures := failures + [(p, CeilingExceeded)]; continue; }
      var c := Place(p, l, r);
      ExactRepeats(exact, charges, c);
      if Key(c) in exact { continue; }
      var earlier := if c.slot in used then used[c.slot] else [];
      UsedClashes(used, charges, c);
      if exists d <- earlier :: Overlap(d.left, c.left) || Overlap(d.right, c.right) {
        failures := failures + [(p, OverlappingReuse)];
        continue;
      }
      SpentTokens(spent, charges, c.slot);
      var total := (if c.slot in spent then spent[c.slot] else 0) + p.tokens;
      if total > Min(l.ceiling, r.ceiling) { failures := failures + [(p, SplitCeilingExceeded)]; continue; }
      UsedMore(used, charges, c);
      SpentMore(spent, charges, c);
      ExactMore(exact, charges, c);
      exact := exact + {Key(c)};
      used := used[c.slot := earlier + [c]];
      spent := spent[c.slot := total];
    }
    assert report[..|report|] == report;
  }

  // ----- Families -----

  predicate Family(admitted: seq<Envelope>, p: Pair, l: Envelope, r: Envelope) {
    && l in admitted && r in admitted && l.id == r.id && l.index != r.index
    && p.first.path == l.path && l.start <= p.first.start < p.first.stop <= l.stop
    && p.second.path == r.path && r.start <= p.second.start < p.second.stop <= r.stop
  }

  predicate NoRepeats<T(==)>(s: seq<T>) { forall i, j :: 0 <= i < j < |s| ==> s[i] != s[j] }

  lemma {:induction false} MatchesExact(admitted: seq<Envelope>, i: Interval)
    ensures forall e :: e in Matches(admitted, i) <==> e in admitted && Within(i, e)
    ensures NoRepeats(admitted) ==> NoRepeats(Matches(admitted, i))
  {
    hide Within;
    if admitted != [] {
      MatchesExact(admitted[1..], i);
      assert admitted == [admitted[0]] + admitted[1..];
      if NoRepeats(admitted) { assert admitted[0] !in admitted[1..]; }
    }
  }

  lemma {:induction false} KinOfExact(a: Envelope, bs: seq<Envelope>)
    ensures forall x :: x in KinOf(a, bs) <==> x.0 == a && x.1 in bs && Kin(a, x.1)
    ensures NoRepeats(bs) ==> NoRepeats(KinOf(a, bs))
  {
    hide Kin;
    if bs != [] {
      KinOfExact(a, bs[1..]);
      assert bs == [bs[0]] + bs[1..];
      if NoRepeats(bs) { assert bs[0] !in bs[1..]; }
    }
  }

  lemma {:induction false} CompatibleExact(xs: seq<Envelope>, bs: seq<Envelope>)
    ensures forall x :: x in Compatible(xs, bs) <==> x.0 in xs && x.1 in bs && Kin(x.0, x.1)
    ensures NoRepeats(xs) && NoRepeats(bs) ==> NoRepeats(Compatible(xs, bs))
  {
    hide Kin;
    if xs != [] {
      CompatibleExact(xs[1..], bs);
      KinOfExact(xs[0], bs);
      assert xs == [xs[0]] + xs[1..];
      if NoRepeats(xs) && NoRepeats(bs) {
        assert xs[0] !in xs[1..];
        var u, v := KinOf(xs[0], bs), Compatible(xs[1..], bs);
        assert forall i, j :: 0 <= i < |u| && 0 <= j < |v| ==> u[i] in u && v[j] in v && u[i] != v[j];
      }
    }
  }

  lemma FamiliesExact(admitted: seq<Envelope>, p: Pair)
    ensures forall x :: x in Families(admitted, p) <==> Family(admitted, p, x.0, x.1)
    ensures Distinct(admitted) ==> NoRepeats(Families(admitted, p))
  {
    MatchesExact(admitted, p.first);
    MatchesExact(admitted, p.second);
    CompatibleExact(Matches(admitted, p.first), Matches(admitted, p.second));
  }

  lemma FirstTwo<T>(s: seq<T>)
    requires NoRepeats(s) && |s| > 1
    ensures s[0] != s[1]
  {
  }

  lemma OnlyElement<T>(s: seq<T>, x: T)
    requires NoRepeats(s) && x in s && forall i :: 0 <= i < |s| ==> s[i] == x
    ensures s == [x]
  {
    if |s| > 1 { FirstTwo(s); }
  }

  /** A pair is accepted for a slot exactly when one and only one reviewed family fits both sides. */
  lemma UniqueFamily(admitted: seq<Envelope>, p: Pair, l: Envelope, r: Envelope)
    requires Distinct(admitted)
    ensures Families(admitted, p) == [(l, r)]
       <==> Family(admitted, p, l, r) && forall x, y :: Family(admitted, p, x, y) ==> x == l && y == r
  {
    hide Family;
    var f := Families(admitted, p);
    FamiliesExact(admitted, p);
    if f == [(l, r)] {
      assert (l, r) in f;
      forall x, y | Family(admitted, p, x, y)
        ensures x == l && y == r
      {
        assert (x, y) in f;
      }
    }
    if Family(admitted, p, l, r) && forall x, y :: Family(admitted, p, x, y) ==> x == l && y == r {
      assert (l, r) in f;
      forall i | 0 <= i < |f|
        ensures f[i] == (l, r)
      {
        assert f[i] in f;
      }
      OnlyElement(f, (l, r));
    }
  }

  lemma SwapFamilies(admitted: seq<Envelope>, p: Pair)
    requires Distinct(admitted)
    ensures var q := Pair(p.second, p.first, p.tokens);
      |Families(admitted, p)| == 1 ==>
          Families(admitted, q) == [(Families(admitted, p)[0].1, Families(admitted, p)[0].0)]
  {
    hide Families;
    var q := Pair(p.second, p.first, p.tokens);
    if |Families(admitted, p)| == 1 {
      var (l, r) := Families(admitted, p)[0];
      assert Families(admitted, p) == [(l, r)];
      UniqueFamily(admitted, p, l, r);
      forall x, y | Family(admitted, q, x, y)
        ensures x == r && y == l
      {
        assert Family(admitted, p, y, x);
      }
      UniqueFamily(admitted, q, r, l);
    }
  }

  /** The verdict does not depend on which side the report names first. */
  lemma SideOrderIrrelevant(admitted: seq<Envelope>, charges: seq<Charge>, p: Pair)
    requires Distinct(admitted)
    ensures Judge(admitted, charges, Pair(p.second, p.first, p.tokens)) == Judge(admitted, charges, p)
  {
    hide Families, Repeated, Clashes;
    SwapFamilies(admitted, p);
    SwapFamilies(admitted, Pair(p.second, p.first, p.tokens));
    if |Families(admitted, p)| == 1 {
      var (l, r) := Families(admitted, p)[0];
      assert Families(admitted, p) == [(l, r)];
      UniqueFamily(admitted, p, l, r);
    }
  }

  // ----- What the charges of a report occupy -----

  /** Both sides lie, non-empty, inside the two envelopes that name the slot. */
  predicate Lodged(c: Charge, l: Envelope, r: Envelope) {
    && l.id == c.slot.id == r.id && l.index == c.slot.left < c.slot.right == r.index
    && c.left.path == l.path && l.start <= c.left.start < c.left.stop <= l.stop
    && c.right.path == r.path && r.start <= c.right.start < c.right.stop <= r.stop
  }

  lemma JudgeLodges(admitted: seq<Envelope>, charges: seq<Charge>, p: Pair)
    requires Judge(admitted, charges, p).Charged? || Judge(admitted, charges, p).Repeat?
    ensures var v := Judge(admitted, charges, p); var c := if v.Charged? then v.charge else v.same;
      exists l <- admitted, r <- admitted :: Lodged(c, l, r) && c.tokens <= Min(l.ceiling, r.ceiling)
                                             && (v.Charged? ==>
                                                   Tokens(charges, c.slot) + c.tokens <= Min(l.ceiling, r.ceiling))
  {
    hide Repeated, Clashes, Families;
    FamiliesExact(admitted, p);
    var x := Families(admitted, p)[0];
    assert x in Families(admitted, p);
    var v := Judge(admitted, charges, p);
    var c := if v.Charged? then v.charge else v.same;
    if x.0.index > x.1.index { assert Lodged(c, x.1, x.0); } else { assert Lodged(c, x.0, x.1); }
  }

  predicate Housed(admitted: seq<Envelope>, c: Charge) { exists l <- admitted, r <- admitted :: Lodged(c, l, r) }

  function Side(c: Charge, left: bool): Interval { if left then c.left else c.right }

  /** Charges of one slot do not meet on the given side. */
  predicate Apart(g: seq<Charge>, left: bool) {
    forall i, j :: 0 <= i < j < |g| && g[i].slot == g[j].slot ==> !Overlap(Side(g[i], left), Side(g[j], left))
  }

  lemma ApartNone(left: bool)
    ensures Apart([], left)
  {
  }

  lemma ApartMore(g: seq<Charge>, c: Charge, left: bool)
    requires Apart(g, left) && forall d <- g :: !Clash(d, c)
    ensures Apart(g + [c], left)
  {
    hide Overlap;
    assert forall i :: 0 <= i < |g| ==> g[i] in g;
  }

  lemma ChargedIsNew(admitted: seq<Envelope>, charges: seq<Charge>, p: Pair)
    requires Judge(admitted, charges, p).Charged?
    ensures forall d <- charges :: !Clash(d, Judge(admitted, charges, p).charge)
  {
  }

  /** Every charge is lodged, and no two charges of a slot meet on either side. */
  lemma {:induction false} ChargesAreDisjoint(admitted: seq<Envelope>, report: seq<Pair>)
    ensures forall c <- Ledger(admitted, report) :: Housed(admitted, c)
    ensures Apart(Ledger(admitted, report), true) && Apart(Ledger(admitted, report), false)
  {
    hide Judge, Lodged, Overlap, Apart;
    if report != [] {
      var k := |report| - 1;
      var before := Ledger(admitted, report[..k]);
      ChargesAreDisjoint(admitted, report[..k]);
      var v := Judge(admitted, before, report[k]);
      if v.Charged? {
        JudgeLodges(admitted, before, report[k]);
        assert Housed(admitted, v.charge);
        ChargedIsNew(admitted, before, report[k]);
        ApartMore(before, v.charge, true);
        ApartMore(before, v.charge, false);
      }
    } else { ApartNone(true); ApartNone(false); }
  }

  /** The envelopes of a slot are determined by the slot. */
  lemma SlotNames(admitted: seq<Envelope>, a: Envelope, b: Envelope)
    requires Distinct(admitted) && a in admitted && b in admitted && a.id == b.id && a.index == b.index
    ensures a == b
  {
  }

  /** The tokens charged to a slot stay within the smaller ceiling. */
  lemma {:induction false} TokensWithinCeiling(admitted: seq<Envelope>, report: seq<Pair>, l: Envelope, r: Envelope)
    requires Distinct(admitted) && l in admitted && r in admitted && l.id == r.id
    ensures Tokens(Ledger(admitted, report), Slot(l.id, l.index, r.index)) <= Min(l.ceiling, r.ceiling)
  {
    hide Judge;
    if report != [] {
      var k := |report| - 1;
      var before := Ledger(admitted, report[..k]);
      TokensWithinCeiling(admitted, report[..k], l, r);
      var v := Judge(admitted, before, report[k]);
      if v.Charged? {
        assert (before + [v.charge])[..|before|] == before;
        JudgeLodges(admitted, before, report[k]);
        if v.charge.slot == Slot(l.id, l.index, r.index) {
          var x, y :| x in admitted && y in admitted && Lodged(v.charge, x, y)
              && Tokens(before, v.charge.slot) + v.charge.tokens <= Min(x.ceiling, y.ceiling);
          SlotNames(admitted, x, l);
          SlotNames(admitted, y, r);
        }
      }
    }
  }

  // ----- Packing -----

  /** Total length charged on one side of a slot. */
  function Length(g: seq<Charge>, s: Slot, left: bool): int {
    if g == [] then 0
    else
      var c := g[|g| - 1];
      Length(g[..|g| - 1], s, left) + (if c.slot == s then Side(c, left).stop - Side(c, left).start else 0)
  }

  function Range(a: nat, b: nat): set<nat>
    decreases b
  {
    if a >= b then {} else Range(a, b - 1) + {b - 1}
  }

  lemma {:induction false} RangeHas(a: nat, b: nat, x: nat)
    ensures x in Range(a, b) <==> a <= x < b
    decreases b
  {
    if a < b { RangeHas(a, b - 1, x); }
  }

  /** The positions charged on one side of a slot. */
  function Cover(g: seq<Charge>, s: Slot, left: bool): set<nat> {
    if g == [] then {}
    else
      var c := g[|g| - 1];
      Cover(g[..|g| - 1], s, left) + (if c.slot == s then Range(Side(c, left).start, Side(c, left).stop) else {})
  }

  lemma {:induction false} RangeSize(a: nat, b: nat)
    requires a <= b
    ensures |Range(a, b)| == b - a
    decreases b - a
  {
    if a < b {
      RangeSize(a, b - 1);
      RangeHas(a, b - 1, b - 1);
    }
  }

  lemma {:induction false} Covered(g: seq<Charge>, s: Slot, left: bool, x: nat)
    requires x in Cover(g, s, left)
    ensures exists i :: 0 <= i < |g| && g[i].slot == s && Side(g[i], left).start <= x < Side(g[i], left).stop
  {
    var n := |g| - 1;
    if x in Cover(g[..n], s, left) { Covered(g[..n], s, left, x); }
    else { RangeHas(Side(g[n], left).start, Side(g[n], left).stop, x); }
  }

  /** A charge apart from the earlier ones covers new positions only. */
  lemma CoverFresh(g: seq<Charge>, s: Slot, left: bool)
    requires g != [] && Apart(g, left) && g[|g| - 1].slot == s
    ensures var i := Side(g[|g| - 1], left); Cover(g[..|g| - 1], s, left) !! Range(i.start, i.stop)
  {
    var n := |g| - 1;
    var i := Side(g[n], left);
    forall x | x in Cover(g[..n], s, left) && x in Range(i.start, i.stop)
      ensures false
    {
      Covered(g[..n], s, left, x);
      RangeHas(i.start, i.stop, x);
    }
  }

  /** Disjoint intervals: the length charged is the number of positions covered. */
  lemma {:induction false} LengthIsCover(g: seq<Charge>, s: Slot, left: bool)
    requires Apart(g, left) && forall c <- g :: Side(c, left).start <= Side(c, left).stop
    ensures Length(g, s, left) == |Cover(g, s, left)|
  {
    hide Overlap;
    if g != [] {
      var n := |g| - 1;
      LengthIsCover(g[..n], s, left);
      if g[n].slot == s {
        RangeSize(Side(g[n], left).start, Side(g[n], left).stop);
        CoverFresh(g, s, left);
      }
    }
  }

  lemma SubsetSize(a: set<nat>, b: set<nat>)
    requires a <= b
    ensures |a| <= |b|
  {
    assert b == a + (b - a);
  }

  /** The lengths charged to a slot fit, side by side, into that side's envelope. */
  lemma ChargesFit(admitted: seq<Envelope>, report: seq<Pair>, l: Envelope, r: Envelope, left: bool)
    requires Distinct(admitted) && l in admitted && r in admitted && l.id == r.id
    requires var e := if left then l else r; e.start <= e.stop
    ensures var e := if left then l else r;
            Length(Ledger(admitted, report), Slot(l.id, l.index, r.index), left) <= e.stop - e.start
  {
    hide Ledger, Overlap, Length, Cover, Range, Apart;
    var g, s := Ledger(admitted, report), Slot(l.id, l.index, r.index);
    var e := if left then l else r;
    ChargesAreDisjoint(admitted, report);
    LengthIsCover(g, s, left);
    forall x <- Cover(g, s, left)
      ensures x in Range(e.start, e.stop)
    {
      Covered(g, s, left, x);
      var i :| 0 <= i < |g| && g[i].slot == s && Side(g[i], left).start <= x < Side(g[i], left).stop;
      assert Housed(admitted, g[i]);
      var a, b :| a in admitted && b in admitted && Lodged(g[i], a, b);
      SlotNames(admitted, a, l);
      SlotNames(admitted, b, r);
      RangeHas(e.start, e.stop, x);
    }
    SubsetSize(Cover(g, s, left), Range(e.start, e.stop));
    RangeSize(e.start, e.stop);
  }

  /** With no failures, every reported pair is charged or repeats a charge exactly. */
  lemma {:induction false} NothingUnaccounted(admitted: seq<Envelope>, report: seq<Pair>, k: nat)
    requires k < |report| && Failures(admitted, report) == []
    ensures |Families(admitted, report[k])| == 1
    ensures var (l, r) := Families(admitted, report[k])[0]; Repeated(Ledger(admitted, report), Place(report[k], l, r))
  {
    hide Families, Clashes, Place;
    var n := |report| - 1;
    var before := Ledger(admitted, report[..n]);
    if k < n {
      NothingUnaccounted(admitted, report[..n], k);
      var (l, r) := Families(admitted, report[k])[0];
      var d :| d in before && Same(d, Place(report[k], l, r));
      assert d in Ledger(admitted, report);
    } else {
      var v := Judge(admitted, before, report[k]);
      if v.Charged? { assert v.charge in Ledger(admitted, report) && Same(v.charge, v.charge); }
    }
  }

  // ----- When a pair is charged

  /** Two stretches of a file that share no position; they may touch. */
  predicate Separate(i: Interval, j: Interval) { i.stop <= j.start || j.stop <= i.start }

  lemma SeparateIs(i: Interval, j: Interval)
    requires i.start < i.stop && j.start < j.stop
    ensures Separate(i, j) <==> !Overlap(i, j)
  {
  }

  /** Nothing charged to the slot before is the same pair or shares a position with it. */
  predicate Fresh(charges: seq<Charge>, c: Charge) {
    forall d <- charges | d.slot == c.slot ::
      (d.left != c.left || d.right != c.right) && Separate(d.left, c.left) && Separate(d.right, c.right)
  }

  predicate Proper(c: Charge) { c.left.start < c.left.stop && c.right.start < c.right.stop }

  lemma FreshIs(charges: seq<Charge>, c: Charge)
    requires Proper(c) && forall d <- charges :: Proper(d)
    ensures Fresh(charges, c) <==> !Repeated(charges, c) && !Clashes(charges, c)
  {
    hide Separate, Overlap;
    forall d <- charges
      ensures Separate(d.left, c.left) <==> !Overlap(d.left, c.left)
      ensures Separate(d.right, c.right) <==> !Overlap(d.right, c.right)
    {
      SeparateIs(d.left, c.left);
      SeparateIs(d.right, c.right);
    }
  }

  lemma FamilyProper(admitted: seq<Envelope>, p: Pair, l: Envelope, r: Envelope)
    requires Family(admitted, p, l, r)
    ensures Proper(Place(p, l, r))
  {
  }

  /** A pair is charged if and only if exactly one reviewed family fits it, it is new to its slot and apart
      from what the slot holds, and the slot's tokens with its own stay at or below both ceilings. */
  lemma ChargedExactly(admitted: seq<Envelope>, charges: seq<Charge>, p: Pair, l: Envelope, r: Envelope)
    requires Distinct(admitted) && forall d <- charges :: Proper(d)
    requires Family(admitted, p, l, r)
    ensures var c := Place(p, l, r);
      Judge(admitted, charges, p) == Charged(c) <==>
      && (forall x, y :: Family(admitted, p, x, y) ==> x == l && y == r)
      && Fresh(charges, c)
      && Tokens(charges, c.slot) + p.tokens <= l.ceiling && Tokens(charges, c.slot) + p.tokens <= r.ceiling
  {
    hide Families, Repeated, Clashes, Fresh, Family;
    UniqueFamily(admitted, p, l, r);
    FamilyProper(admitted, p, l, r);
    FreshIs(charges, Place(p, l, r));
    FamiliesExact(admitted, p);
    var found := Families(admitted, p);
    if |found| == 1 {
      assert (l, r) in found;
      assert found == [(l, r)];
    }
  }

  /** The charges of a report are proper intervals, so this applies at every pair of a report. */
  lemma LedgerProper(admitted: seq<Envelope>, report: seq<Pair>)
    ensures forall d <- Ledger(admitted, report) :: Proper(d)
  {
    hide Ledger;
    ChargesAreDisjoint(admitted, report);
  }
}

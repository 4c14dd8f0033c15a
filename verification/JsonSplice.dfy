/**
 Byte splicing of one managed JSON setting (scripts/lib/template_sync.py:592-631).

 `Moves` lemmas say that scanning depends only on the scanned stretch of text, wherever
 it stands; `Replace` and `Append` lemmas say what scanning yields after a splice.  The
 main theorem reads the spliced document back: it is the old document with exactly the
 managed leaf set.
 */
module JsonSplice {
  import opened Common
  import opened JsonScan

  // ----- Scanning is local

  function ShiftAll(ms: seq<Member>, d: int): (r: seq<Member>)
    ensures |r| == |ms|
    ensures forall k | 0 <= k < |ms| :: r[k] == Member(ms[k].key, Shift(ms[k].value, d))
  {
    seq(|ms|, k requires 0 <= k < |ms| => Member(ms[k].key, Shift(ms[k].value, d)))
  }

  function Shift(n: Node, d: int): Node {
    match n
    case Object(s, e, ms) => Object(s + d, e + d, ShiftAll(ms, d))
    case Plain(kind, s, e) => Plain(kind, s + d, e + d)
  }

  lemma {:induction false} ShiftZero(n: Node)
    ensures Shift(n, 0) == n
  {
    match n
    case Plain(_, _, _) =>
    case Object(s, e, ms) =>
      forall k | 0 <= k < |ms| ensures Shift(ms[k].value, 0) == ms[k].value { ShiftZero(ms[k].value); }
      assert ShiftAll(ms, 0) == ms;
  }

  /** The stretch [i, j) of `t` stands in `u`, moved by `d`. */
  predicate Moved(t: string, u: string, i: int, j: int, d: int) {
    0 <= i <= j <= |t| && 0 <= i + d && j + d <= |u| && forall k | i <= k < j :: u[k + d] == t[k]
  }

  lemma MovedPart(t: string, u: string, i: int, j: int, d: int, a: int, b: int)
    requires Moved(t, u, i, j, d) && i <= a <= b <= j
    ensures Moved(t, u, a, b, d)
  {}

  lemma MovedAt(t: string, u: string, i: int, j: int, d: int, k: int)
    requires Moved(t, u, i, j, d) && i <= k < j
    ensures u[k + d] == t[k]
  {}

  lemma {:induction false} SpaceMoves(t: string, u: string, i: int, d: int)
    requires 0 <= i <= |t| && SkipSpace(t, i) < |t| && Moved(t, u, i, SkipSpace(t, i) + 1, d)
    ensures SkipSpace(u, i + d) == SkipSpace(t, i) + d
    decreases |t| - i
  {
    assert u[i + d] == t[i];
    if IsSpace(t[i]) { SpaceMoves(t, u, i + 1, d); }
  }

  lemma {:induction false} FollowMoves(t: string, u: string, i: int, close: char, d: int)
    requires 0 <= i <= |t| && !FollowAt(t, i, close).Neither? && Moved(t, u, i, FollowAt(t, i, close).next, d)
    ensures var f := FollowAt(t, i, close);
            FollowAt(u, i + d, close) == if f.Close? then Close(f.next + d) else Comma(f.next + d)
  {
    SpaceMoves(t, u, i, d);
    assert u[SkipSpace(t, i) + d] == t[SkipSpace(t, i)];
  }

  /** A number that is followed inside its parent ends there, wherever it moves. */
  lemma {:induction false} BoundMoves(t: string, u: string, n: Node, i: int, close: char, d: int)
    requires 0 <= i <= |t| && !FollowAt(t, i, close).Neither? && Moved(t, u, i, FollowAt(t, i, close).next, d)
    requires Bounded(t, n, i)
    ensures Bounded(u, n, i + d)
  {
    assert u[i + d] == t[i];
  }

  lemma {:induction false} StringEndMoves(t: string, u: string, i: int, d: int)
    requires 0 <= i <= |t| && StringEnd(t, i).Some? && Moved(t, u, i, StringEnd(t, i).value, d)
    ensures StringEnd(u, i + d) == Some(StringEnd(t, i).value + d)
    decreases |t| - i
  {
    assert u[i + d] == t[i];
    if t[i] == '\\' {
      StringEndMoves(t, u, i + 2, d);
    } else if t[i] != '"' {
      StringEndMoves(t, u, i + 1, d);
    }
  }

  lemma {:induction false} StringMoves(decode: Decoder, t: string, u: string, i: int, d: int)
    requires 0 <= i <= |t| && StringAt(decode, t, i).Some? && Moved(t, u, i, StringAt(decode, t, i).value.next, d)
    ensures var r := StringAt(decode, t, i).value; StringAt(decode, u, i + d) == Some(At(r.item, r.next + d))
  {
    StringEndMoves(t, u, i + 1, d);
    var e := StringEnd(t, i + 1).value;
    assert u[i + d] == t[i];
    assert u[i + d..e + d] == t[i..e];
  }

  lemma {:induction false} NumberMoves(t: string, u: string, i: int, d: int)
    requires 0 <= i <= |t| && Moved(t, u, i, NumberEnd(t, i), d)
    requires NumberEnd(t, i) + d < |u| ==> EndsNumber(u[NumberEnd(t, i) + d])
    ensures NumberEnd(u, i + d) == NumberEnd(t, i) + d
    decreases |t| - i
  {
    if i < |t| && !EndsNumber(t[i]) {
      assert u[i + d] == t[i];
      NumberMoves(t, u, i + 1, d);
    }
  }

  /** A bare token is a literal at its new place exactly if it was one. */
  lemma {:induction false} BareMoves(t: string, u: string, s: int, d: int)
    requires 0 <= s < |t| && Bare(t, s).Some? && Moved(t, u, s, Bare(t, s).value.next, d)
    requires Bounded(u, Bare(t, s).value.item, Bare(t, s).value.next + d)
    ensures var v := Bare(t, s).value; Bare(u, s + d) == Some(At(Shift(v.item, d), v.next + d))
  {
    var v := Bare(t, s).value;
    assert s + 1 < v.next ==> u[s + 1 + d] == t[s + 1];
    assert s + 2 < v.next ==> u[s + 2 + d] == t[s + 2];
    assert s + 3 < v.next ==> u[s + 3 + d] == t[s + 3];
    assert s + 4 < v.next ==> u[s + 4 + d] == t[s + 4];
    if v.item.kind == NumberKind { NumberMoves(t, u, s, d); }
  }

  lemma {:induction false} ValueSkips(decode: Decoder, t: string, i: int)
    requires 0 <= i <= |t|
    ensures Value(decode, t, i) == Value(decode, t, SkipSpace(t, i))
  {}

  /** Where a value starts and ends. */
  lemma {:induction false} ValueFacts(decode: Decoder, t: string, i: int)
    requires 0 <= i <= |t| && Value(decode, t, i).Some?
    ensures var v := Value(decode, t, i).value;
            SkipSpace(t, i) == v.item.start < v.item.end == v.next && Bounded(t, v.item, v.next)
  {
  }

  lemma {:induction false} MemberFacts(decode: Decoder, t: string, i: int)
    requires 0 <= i <= |t| && MemberAt(decode, t, i).Some?
    ensures var m := MemberAt(decode, t, i).value;
            i < m.item.value.start < m.item.value.end == m.next && Bounded(t, m.item.value, m.next)
  {
    ValueFacts(decode, t, KeyAt(decode, t, i).value.next);
  }

  lemma {:induction false} KeyMoves(decode: Decoder, t: string, u: string, i: int, d: int)
    requires 0 <= i <= |t| && KeyAt(decode, t, i).Some? && Moved(t, u, i, KeyAt(decode, t, i).value.next, d)
    ensures var r := KeyAt(decode, t, i).value; KeyAt(decode, u, i + d) == Some(At(r.item, r.next + d))
  {
    SpaceMoves(t, u, i, d);
    StringMoves(decode, t, u, SkipSpace(t, i), d);
    var q := StringAt(decode, t, SkipSpace(t, i)).value.next;
    SpaceMoves(t, u, q, d);
    assert u[SkipSpace(t, q) + d] == ':';
  }

  lemma {:induction false} ArrayMoves(decode: Decoder, t: string, u: string, s: int, d: int)
    requires 0 <= s < |t| && t[s] == '['
    requires Value(decode, t, s).Some? && Moved(t, u, s, Value(decode, t, s).value.next, d)
    ensures var v := Value(decode, t, s).value; Value(decode, u, s + d) == Some(At(Shift(v.item, d), v.next + d))
    decreases |t| - s, 0
  {
    hide Items, EndsNumber;
    SpaceMoves(t, u, s + 1, d);
    var p := SkipSpace(t, s + 1);
    assert u[s + d] == t[s] && u[p + d] == t[p];
    if t[p] != ']' { ItemsMoves(decode, t, u, p, d); }
  }

  lemma {:induction false} MemberMoves(decode: Decoder, t: string, u: string, i: int, d: int)
    requires 0 <= i <= |t| && MemberAt(decode, t, i).Some? && Moved(t, u, i, MemberAt(decode, t, i).value.next, d)
    requires Bounded(u, MemberAt(decode, t, i).value.item.value, MemberAt(decode, t, i).value.next + d)
    ensures var m := MemberAt(decode, t, i).value;
            MemberAt(decode, u, i + d) == Some(At(Member(m.item.key, Shift(m.item.value, d)), m.next + d))
    decreases |t| - i, 2
  {
    KeyMoves(decode, t, u, i, d);
    ValueMoves(decode, t, u, KeyAt(decode, t, i).value.next, d);
  }

  lemma {:induction false} MembersMoves(decode: Decoder, t: string, u: string, i: int, d: int)
    requires 0 <= i <= |t| && Members(decode, t, i).Some? && Moved(t, u, i, Members(decode, t, i).value.next, d)
    ensures var r := Members(decode, t, i).value;
            Members(decode, u, i + d) == Some(At(ShiftAll(r.item, d), r.next + d))
    decreases |t| - i, 3
  {
    hide MemberAt, FollowAt, Bounded, Shift, Moved;
    var r := Members(decode, t, i).value;
    var m := MemberAt(decode, t, i).value;
    var f := FollowAt(t, m.next, '}');
    MovedPart(t, u, i, r.next, d, i, m.next);
    MovedPart(t, u, i, r.next, d, m.next, f.next);
    MemberFacts(decode, t, i);
    BoundMoves(t, u, m.item.value, m.next, '}', d);
    MemberMoves(decode, t, u, i, d);
    FollowMoves(t, u, m.next, '}', d);
    var m' := Member(m.item.key, Shift(m.item.value, d));
    if f.Comma? {
      MovedPart(t, u, i, r.next, d, f.next, r.next);
      MembersMoves(decode, t, u, f.next, d);
      assert [m'] + ShiftAll(Members(decode, t, f.next).value.item, d) == ShiftAll(r.item, d);
    } else {
      assert [m'] == ShiftAll([m.item], d);
    }
  }

  lemma {:induction false} ObjectMoves(decode: Decoder, t: string, u: string, s: int, d: int)
    requires 0 <= s < |t| && t[s] == '{'
    requires Value(decode, t, s).Some? && Moved(t, u, s, Value(decode, t, s).value.next, d)
    ensures var v := Value(decode, t, s).value; Value(decode, u, s + d) == Some(At(Shift(v.item, d), v.next + d))
    decreases |t| - s, 0
  {
    hide Members, ShiftAll, EndsNumber;
    SpaceMoves(t, u, s + 1, d);
    var p := SkipSpace(t, s + 1);
    assert u[s + d] == t[s] && u[p + d] == t[p];
    if t[p] != '}' { MembersMoves(decode, t, u, p, d); }
  }

  lemma {:induction false} ValueMoves(decode: Decoder, t: string, u: string, i: int, d: int)
    requires 0 <= i <= |t| && Value(decode, t, i).Some? && Moved(t, u, i, Value(decode, t, i).value.next, d)
    requires Bounded(u, Value(decode, t, i).value.item, Value(decode, t, i).value.next + d)
    ensures var v := Value(decode, t, i).value; Value(decode, u, i + d) == Some(At(Shift(v.item, d), v.next + d))
    decreases |t| - i, 1
  {
    hide Members, Items, Bare, StringAt, Moved, Bounded;
    var s := SkipSpace(t, i);
    var v := Value(decode, t, i).value;
    ValueFacts(decode, t, i);
    MovedPart(t, u, i, v.next, d, i, s + 1);
    MovedPart(t, u, i, v.next, d, s, v.next);
    SpaceMoves(t, u, i, d);
    ValueSkips(decode, t, i);
    ValueSkips(decode, u, i + d);
    MovedAt(t, u, s, v.next, d, s);
    if t[s] == '{' {
      ObjectMoves(decode, t, u, s, d);
    } else if t[s] == '[' {
      ArrayMoves(decode, t, u, s, d);
    } else if t[s] == '"' {
      StringMoves(decode, t, u, s, d);
    } else {
      BareMoves(t, u, s, d);
    }
  }

  lemma {:induction false} ItemsMoves(decode: Decoder, t: string, u: string, i: int, d: int)
    requires 0 <= i <= |t| && Items(decode, t, i).Some? && Moved(t, u, i, Items(decode, t, i).value, d)
    ensures Items(decode, u, i + d) == Some(Items(decode, t, i).value + d)
    decreases |t| - i, 3
  {
    hide Value, FollowAt, Bounded, Shift, Moved;
    var v := Value(decode, t, i).value;
    var f := FollowAt(t, v.next, ']');
    MovedPart(t, u, i, Items(decode, t, i).value, d, i, v.next);
    MovedPart(t, u, i, Items(decode, t, i).value, d, v.next, f.next);
    if f.Comma? { MovedPart(t, u, i, Items(decode, t, i).value, d, f.next, Items(decode, t, i).value); }
    ValueFacts(decode, t, i);
    BoundMoves(t, u, v.item, v.next, ']', d);
    ValueMoves(decode, t, u, i, d);
    FollowMoves(t, u, v.next, ']', d);
    if f.Comma? { ItemsMoves(decode, t, u, f.next, d); }
  }

  // ----- Scanning after a splice

  lemma {:induction false} SpaceTo(t: string, u: string, i: int, p: int)
    requires 0 <= i <= |t| && p == SkipSpace(t, i) && p < |u| && Moved(t, u, i, p, 0) && !IsSpace(u[p])
    ensures SkipSpace(u, i) == p
    decreases p - i
  {
    if i < p {
      assert u[i] == t[i];
      SpaceTo(t, u, i + 1, p);
    }
  }

  /** A member before the splice is scanned as before. */
  lemma {:induction false} MemberStays(decode: Decoder, t: string, u: string, i: int)
    requires 0 <= i <= |t| && MemberAt(decode, t, i).Some? && Moved(t, u, i, MemberAt(decode, t, i).value.next, 0)
    requires Bounded(u, MemberAt(decode, t, i).value.item.value, MemberAt(decode, t, i).value.next)
    ensures i <= |u| && MemberAt(decode, u, i) == MemberAt(decode, t, i)
  {
    MemberMoves(decode, t, u, i, 0);
    hide MemberAt, Shift;
    var m := MemberAt(decode, t, i).value;
    ShiftZero(m.item.value);
    assert Member(m.item.key, m.item.value) == m.item;
  }

  /** The members after the `b`-th value was replaced and the rest moved by `d`. */
  function Replaced(ms: seq<Member>, b: nat, n: Node, d: int): (r: seq<Member>)
    requires b < |ms|
  {
    ms[..b] + [Member(ms[b].key, n)] + ShiftAll(ms[b + 1..], d)
  }

  lemma {:induction false} MembersOrder(decode: Decoder, t: string, i: int, b: nat)
    requires 0 <= i <= |t| && Members(decode, t, i).Some? && b < |Members(decode, t, i).value.item|
    ensures var r := Members(decode, t, i).value;
            i < r.item[b].value.start < r.item[b].value.end < r.next
    ensures b > 0 ==> FollowAt(t, MemberAt(decode, t, i).value.next, '}').Comma?
    ensures b > 0 ==>
              FollowAt(t, MemberAt(decode, t, i).value.next, '}').next < Members(decode, t, i).value.item[b].value.start
    decreases |t| - i
  {
    hide MemberAt, FollowAt, Bounded;
    MemberFacts(decode, t, i);
    var f := FollowAt(t, MemberAt(decode, t, i).value.next, '}');
    if b > 0 { MembersOrder(decode, t, f.next, b - 1); }
  }

  /** `u` is `t` up to the value's start `p`, then a value that ends at `q + d`, then `t` from
      the value's end `q` up to `j`. */
  predicate ValueSwapped(decode: Decoder, t: string, u: string, p: int, q: int, j: int, n: Node, d: int) {
    && 0 <= p < |u| && Moved(t, u, 0, p, 0) && Moved(t, u, q, j, d)
    && !IsSpace(u[p]) && Value(decode, u, p) == Some(At(n, q + d))
  }

  lemma {:induction false} MemberReplace(decode: Decoder, t: string, u: string, i: int, j: int, n: Node, d: int)
    requires 0 <= i <= |t| && MemberAt(decode, t, i).Some?
    requires var v := MemberAt(decode, t, i).value.item.value; ValueSwapped(decode, t, u, v.start, v.end, j, n, d)
    ensures var m := MemberAt(decode, t, i).value;
            i <= |u| && MemberAt(decode, u, i) == Some(At(Member(m.item.key, n), m.next + d))
  {
    hide Members, Items, Bare, StringAt, Value;
    MemberFacts(decode, t, i);
    var c := KeyAt(decode, t, i).value.next;
    ValueFacts(decode, t, c);
    var p := SkipSpace(t, c);
    KeyMoves(decode, t, u, i, 0);
    SpaceTo(t, u, c, p);
    ValueSkips(decode, u, c);
  }

  lemma {:induction false} FirstReplace(decode: Decoder, t: string, u: string, i: int, n: Node, d: int)
    requires 0 <= i <= |t| && Members(decode, t, i).Some? && Members(decode, t, i).value.item != []
    requires var r := Members(decode, t, i).value;
             ValueSwapped(decode, t, u, r.item[0].value.start, r.item[0].value.end, r.next, n, d)
    ensures var r := Members(decode, t, i).value;
            i <= |u| && Members(decode, u, i) == Some(At(Replaced(r.item, 0, n, d), r.next + d))
  {
    hide MemberAt, FollowAt, Bounded, Shift, Value, IsSpace;
    var r := Members(decode, t, i).value;
    var m := MemberAt(decode, t, i).value;
    var f := FollowAt(t, m.next, '}');
    MemberFacts(decode, t, i);
    MemberReplace(decode, t, u, i, r.next, n, d);
    FollowMoves(t, u, m.next, '}', d);
    var m' := Member(m.item.key, n);
    if f.Comma? {
      var rest := Members(decode, t, f.next).value;
      MembersMoves(decode, t, u, f.next, d);
      assert r.item == [m.item] + rest.item && r.item[1..] == rest.item && r.item[..0] == [];
      assert Replaced(r.item, 0, n, d) == [m'] + ShiftAll(rest.item, d);
    } else {
      assert r.item == [m.item] && r.item[1..] == [];
      assert Replaced(r.item, 0, n, d) == [m'];
    }
  }

  lemma {:induction false} ReplacedTail(m: Member, rest: seq<Member>, b: nat, n: Node, d: int)
    requires 0 < b <= |rest|
    ensures [m] + Replaced(rest, b - 1, n, d) == Replaced([m] + rest, b, n, d)
  {
    hide Shift;
    var ms := [m] + rest;
    assert ms[..b] == [m] + rest[..b - 1] && ms[b + 1..] == rest[b..];
  }

  lemma {:induction false} MembersReplace(decode: Decoder, t: string, u: string, i: int, b: nat, n: Node, d: int)
    requires 0 <= i <= |t| && Members(decode, t, i).Some? && b < |Members(decode, t, i).value.item|
    requires var r := Members(decode, t, i).value;
             ValueSwapped(decode, t, u, r.item[b].value.start, r.item[b].value.end, r.next, n, d)
    ensures var r := Members(decode, t, i).value;
            i <= |u| && Members(decode, u, i) == Some(At(Replaced(r.item, b, n, d), r.next + d))
    decreases |t| - i
  {
    hide MemberAt, FollowAt, Bounded, Shift, Value, IsSpace, Moved, Replaced;
    if b == 0 {
      FirstReplace(decode, t, u, i, n, d);
    } else {
      var r := Members(decode, t, i).value;
      var m := MemberAt(decode, t, i).value;
      var f := FollowAt(t, m.next, '}');
      MemberFacts(decode, t, i);
      MembersOrder(decode, t, i, b);
      MovedPart(t, u, 0, r.item[b].value.start, 0, i, m.next);
      MovedPart(t, u, 0, r.item[b].value.start, 0, m.next, f.next);
      BoundMoves(t, u, m.item.value, m.next, '}', 0);
      MemberStays(decode, t, u, i);
      FollowMoves(t, u, m.next, '}', 0);
      var rest := Members(decode, t, f.next).value;
      assert r.item == [m.item] + rest.item;
      MembersReplace(decode, t, u, f.next, b - 1, n, d);
      ReplacedTail(m.item, rest.item, b, n, d);
    }
  }

  /** `u` is `t` up to its closing brace at `e`, then `,` and a member that ends at `e + d`,
      then the brace. */
  predicate MemberAdded(decode: Decoder, t: string, u: string, e: int, m: Member, d: int) {
    && 0 <= e && Moved(t, u, 0, e, 0) && e < e + d < |u| && u[e] == ',' && u[e + d] == '}'
    && MemberAt(decode, u, e + 1) == Some(At(m, e + d))
  }

  lemma {:induction false} LastAppend(decode: Decoder, t: string, u: string, i: int, m': Member, d: int)
    requires 0 <= i <= |t| && MemberAt(decode, t, i).Some?
    requires var f := FollowAt(t, MemberAt(decode, t, i).value.next, '}');
             f.Close? && MemberAdded(decode, t, u, f.next - 1, m', d)
    ensures i <= |u| && Members(decode, u, i) ==
              Some(At([MemberAt(decode, t, i).value.item, m'],
                      FollowAt(t, MemberAt(decode, t, i).value.next, '}').next + d))
  {
    hide MemberAt, Shift, Value;
    var m := MemberAt(decode, t, i).value;
    var e := FollowAt(t, m.next, '}').next - 1;
    MemberFacts(decode, t, i);
    assert m.next < e ==> u[m.next] == t[m.next];
    MemberStays(decode, t, u, i);
    SpaceTo(t, u, m.next, e);
    assert FollowAt(u, m.next, '}') == Comma(e + 1);
    assert FollowAt(u, e + d, '}') == Close(e + d + 1);
    assert Members(decode, u, e + 1) == Some(At([m'], e + d + 1));
    assert [m.item] + [m'] == [m.item, m'];
  }

  lemma {:induction false} MembersAppend(decode: Decoder, t: string, u: string, i: int, m': Member, d: int)
    requires 0 <= i <= |t| && Members(decode, t, i).Some?
    requires MemberAdded(decode, t, u, Members(decode, t, i).value.next - 1, m', d)
    ensures var r := Members(decode, t, i).value;
            i <= |u| && Members(decode, u, i) == Some(At(r.item + [m'], r.next + d))
    decreases |t| - i
  {
    hide MemberAt, Bounded, Shift, Value;
    var r := Members(decode, t, i).value;
    var m := MemberAt(decode, t, i).value;
    var f := FollowAt(t, m.next, '}');
    MemberFacts(decode, t, i);
    if f.Comma? {
      BoundMoves(t, u, m.item.value, m.next, '}', 0);
      MemberStays(decode, t, u, i);
      FollowMoves(t, u, m.next, '}', 0);
      MembersAppend(decode, t, u, f.next, m', d);
      assert [m.item] + (Members(decode, t, f.next).value.item + [m']) == r.item + [m'];
    } else {
      LastAppend(decode, t, u, i, m', d);
      assert r.item + [m'] == [m.item, m'];
    }
  }

  lemma {:induction false} ObjectReplace(decode: Decoder, t: string, u: string, s: int, b: nat, n: Node, d: int)
    requires 0 <= s < |t| && t[s] == '{' && Value(decode, t, s).Some?
    requires var o := Value(decode, t, s).value.item;
             && b < |o.members|
             && ValueSwapped(decode, t, u, o.members[b].value.start, o.members[b].value.end, o.end, n, d)
    ensures var o := Value(decode, t, s).value.item;
            s < |u| && Value(decode, u, s) == Some(At(Object(s, o.end + d, Replaced(o.members, b, n, d)), o.end + d))
  {
    hide Members, MemberAt, Shift, EndsNumber;
    var o := Value(decode, t, s).value.item;
    var p := SkipSpace(t, s + 1);
    MembersOrder(decode, t, p, b);
    MembersReplace(decode, t, u, p, b, n, d);
    assert u[s] == t[s] && u[p] == t[p];
    SpaceMoves(t, u, s + 1, 0);
  }

  /** `u` is `t` up to its closing brace at `e`, then a first member that ends at `e + d`, then
      the brace. */
  predicate MemberOpened(decode: Decoder, t: string, u: string, e: int, m: Member, d: int) {
    && 0 <= e && Moved(t, u, 0, e, 0) && e < e + d < |u| && u[e] == '"' && u[e + d] == '}'
    && MemberAt(decode, u, e) == Some(At(m, e + d))
  }

  predicate MemberGrown(decode: Decoder, t: string, u: string, o: Node, m: Member, d: int) {
    && o.Object? && (forall k | 0 <= k < |o.members| :: o.members[k].key != m.key)
    && if o.members == [] then MemberOpened(decode, t, u, o.end - 1, m, d)
       else MemberAdded(decode, t, u, o.end - 1, m, d)
  }

  lemma {:induction false} OneMember(decode: Decoder, u: string, i: int, m: Member, e: int)
    requires 0 <= i < e < |u| && MemberAt(decode, u, i) == Some(At(m, e)) && u[e] == '}'
    ensures Members(decode, u, i) == Some(At([m], e + 1))
  {
    hide MemberAt;
    assert FollowAt(u, e, '}') == Close(e + 1);
  }

  lemma {:induction false} MembersNotEmpty(decode: Decoder, t: string, i: int)
    requires 0 <= i <= |t| && Members(decode, t, i).Some?
    ensures Members(decode, t, i).value.item != [] && i < Members(decode, t, i).value.next - 1
  {
    hide MemberAt, FollowAt;
  }

  lemma {:induction false} ObjectAppend(decode: Decoder, t: string, u: string, s: int, m: Member, d: int)
    requires 0 <= s < |t| && t[s] == '{' && Value(decode, t, s).Some?
    requires MemberGrown(decode, t, u, Value(decode, t, s).value.item, m, d)
    ensures var o := Value(decode, t, s).value.item;
            s < |u| && Value(decode, u, s) == Some(At(Object(s, o.end + d, o.members + [m]), o.end + d))
  {
    hide MemberAt, EndsNumber, FollowAt, Members;
    var o := Value(decode, t, s).value.item;
    var p := SkipSpace(t, s + 1);
    assert s < o.end - 1 && u[s] == t[s];
    if t[p] == '}' {
      SpaceTo(t, u, s + 1, p);
      OneMember(decode, u, p, m, p + d);
      assert o.members + [m] == [m];
    } else {
      MembersNotEmpty(decode, t, p);
      MembersAppend(decode, t, u, p, m, d);
      SpaceMoves(t, u, s + 1, 0);
      assert u[p] == t[p];
    }
  }

  lemma {:induction false} SpaceToEnd(t: string, u: string, i: int, d: int)
    requires 0 <= i <= |t| && SkipSpace(t, i) == |t| && Moved(t, u, i, |t|, d) && |u| == |t| + d
    ensures SkipSpace(u, i + d) == |u|
    decreases |t| - i
  {
    if i < |t| {
      assert u[i + d] == t[i];
      SpaceToEnd(t, u, i + 1, d);
    }
  }

  // ----- Meaning

  datatype Entry = Entry(key: string, value: Json)

  /** A document without spans: objects by their members in order, anything else by its text. */
  datatype Json = Obj(members: seq<Entry>) | Raw(text: string)

  function Slice(t: string, a: int, b: int): string {
    if 0 <= a <= b <= |t| then t[a..b] else ""
  }

  function MeaningAll(t: string, ms: seq<Member>): (r: seq<Entry>)
    ensures |r| == |ms|
    ensures forall k | 0 <= k < |ms| :: r[k] == Entry(ms[k].key, Meaning(t, ms[k].value))
  {
    seq(|ms|, k requires 0 <= k < |ms| => Entry(ms[k].key, Meaning(t, ms[k].value)))
  }

  function Meaning(t: string, n: Node): Json {
    match n
    case Object(_, _, ms) => Obj(MeaningAll(t, ms))
    case Plain(_, s, e) => Raw(Slice(t, s, e))
  }

  predicate Inside(n: Node, lo: int, hi: int) {
    && lo <= n.start <= n.end <= hi
    && (n.Object? ==> forall k | 0 <= k < |n.members| :: Inside(n.members[k].value, n.start, n.end))
  }

  lemma {:induction false} MembersInside(decode: Decoder, t: string, i: int, lo: int, hi: int)
    requires 0 <= i <= |t| && Members(decode, t, i).Some? && lo <= i && Members(decode, t, i).value.next <= hi
    ensures forall k | 0 <= k < |Members(decode, t, i).value.item| ::
            Inside(Members(decode, t, i).value.item[k].value, lo, hi)
    decreases |t| - i, 1
  {
    hide Value, FollowAt;
    var m := MemberAt(decode, t, i).value;
    ValueInside(decode, t, KeyAt(decode, t, i).value.next);
    var f := FollowAt(t, m.next, '}');
    if f.Comma? { MembersInside(decode, t, f.next, lo, hi); }
  }

  lemma {:induction false} ValueInside(decode: Decoder, t: string, i: int)
    requires 0 <= i <= |t| && Value(decode, t, i).Some?
    ensures Inside(Value(decode, t, i).value.item, i, Value(decode, t, i).value.next)
    decreases |t| - i, 0
  {
    hide Members, Items, StringAt, Bare;
    ValueFacts(decode, t, i);
    var s := SkipSpace(t, i);
    if t[s] == '{' {
      var p := SkipSpace(t, s + 1);
      if t[p] != '}' { MembersInside(decode, t, p, s, Members(decode, t, p).value.next); }
    }
  }

  lemma {:induction false} MeaningMoves(t: string, u: string, n: Node, lo: int, hi: int, d: int)
    requires Inside(n, lo, hi) && Moved(t, u, lo, hi, d)
    ensures Meaning(u, Shift(n, d)) == Meaning(t, n)
    decreases n
  {
    match n
    case Plain(_, s, e) => assert u[s + d..e + d] == t[s..e];
    case Object(s, e, ms) =>
      forall k | 0 <= k < |ms| ensures Meaning(u, Shift(ms[k].value, d)) == Meaning(t, ms[k].value) {
        MeaningMoves(t, u, ms[k].value, s, e, d);
      }
      assert MeaningAll(u, ShiftAll(ms, d)) == MeaningAll(t, ms);
  }
}

/**
 `_render_setting` and `_append_member` (scripts/lib/template_sync.py:592-631): the three
 splices of one managed setting, and what the spliced document means.
 */
module JsonSetting {
  import opened Common
  import opened JsonScan
  import opened JsonSplice

  // ----- Rendering

  /** `json.dumps` of a key that needs no escapes. */
  function Quote(key: string): string { "\"" + key + "\"" }

  function Find(ms: seq<Member>, key: string): (r: nat)
    ensures r <= |ms| && (r < |ms| ==> ms[r].key == key)
    ensures r == |ms| ==> forall k | 0 <= k < |ms| :: ms[k].key != key
  {
    if ms == [] then 0 else if ms[0].key == key then 0 else 1 + Find(ms[1..], key)
  }

  function MemberSource(key: string, token: string): string { Quote(key) + ":" + token }

  function AppendMember(t: string, n: Node, key: string, token: string): string
    requires n.Object? && 0 < n.end <= |t|
  {
    t[..n.end - 1] + (if n.members == [] then "" else ",") + MemberSource(key, token) + t[n.end - 1..]
  }

  /** The spliced text, or a refusal of the document. */
  function Render(decode: Decoder, t: string, parentKey: string, leafKey: string, token: string): Option<string> {
    var root := Parse(decode, t);
    if root.None? || !root.value.Object? then None
    else
      var ms := root.value.members;
      var a := Find(ms, parentKey);
      if a == |ms| then
        if 0 < root.value.end <= |t| then
          Some(AppendMember(t, root.value, parentKey, "{" + MemberSource(leafKey, token) + "}"))
        else None
      else
        var parent := ms[a].value;
        if !parent.Object? then None
        else
          var b := Find(parent.members, leafKey);
          if b == |parent.members| then
            if 0 < parent.end <= |t| then Some(AppendMember(t, parent, leafKey, token)) else None
          else
            var leaf := parent.members[b].value;
            if 0 <= leaf.start <= leaf.end <= |t| then Some(t[..leaf.start] + token + t[leaf.end..]) else None
  }

  // ----- What a setting means

  function Index(es: seq<Entry>, key: string): (r: nat)
    ensures r <= |es| && (r < |es| ==> es[r].key == key)
    ensures r == |es| ==> forall k | 0 <= k < |es| :: es[k].key != key
  {
    if es == [] then 0 else if es[0].key == key then 0 else 1 + Index(es[1..], key)
  }

  /** Set one key: in place if present, else as the last member. */
  function SetKey(es: seq<Entry>, key: string, v: Json): seq<Entry> {
    var b := Index(es, key);
    if b == |es| then es + [Entry(key, v)] else es[b := Entry(key, v)]
  }

  function SetLeaf(j: Json, parentKey: string, leafKey: string, token: string): Json
    requires j.Obj?
  {
    var a := Index(j.members, parentKey);
    var inner := if a < |j.members| && j.members[a].value.Obj? then j.members[a].value.members else [];
    Obj(SetKey(j.members, parentKey, Obj(SetKey(inner, leafKey, Raw(token)))))
  }

  // ----- Facts about the members of a scanned object

  lemma {:induction false} FollowEnds(t: string, i: int)
    requires 0 <= i <= |t| && !FollowAt(t, i, '}').Neither?
    ensures i < |t| && EndsNumber(t[i])
  {}

  lemma {:induction false} MembersItem(decode: Decoder, t: string, i: int, b: nat)
    requires 0 <= i <= |t| && Members(decode, t, i).Some? && b < |Members(decode, t, i).value.item|
    ensures var v := Members(decode, t, i).value.item[b].value;
            0 <= v.start < v.end < |t| && Value(decode, t, v.start) == Some(At(v, v.end)) && EndsNumber(t[v.end])
    ensures var ms := Members(decode, t, i).value.item;
            forall k | b < k < |ms| :: ms[b].value.end < ms[k].value.start
    decreases |t| - i
  {
    hide Value, FollowAt, EndsNumber, KeyAt, Bounded, IsSpace;
    var ms := Members(decode, t, i).value.item;
    var m := MemberAt(decode, t, i).value;
    var f := FollowAt(t, m.next, '}');
    MemberFacts(decode, t, i);
    if b == 0 {
      var c := KeyAt(decode, t, i).value.next;
      ValueFacts(decode, t, c);
      ValueSkips(decode, t, c);
      FollowEnds(t, m.next);
      forall k | 0 < k < |ms| ensures ms[0].value.end < ms[k].value.start { MembersOrder(decode, t, i, k); }
    } else {
      MembersItem(decode, t, f.next, b - 1);
    }
  }

  /** An object as it stands in the text. */
  predicate Stands(decode: Decoder, t: string, o: Node) {
    && o.Object? && 0 <= o.start < |t| && t[o.start] == '{' && Value(decode, t, o.start) == Some(At(o, o.end))
  }

  lemma {:induction false} ObjectItem(decode: Decoder, t: string, o: Node, b: nat)
    requires Stands(decode, t, o) && b < |o.members|
    ensures var v := o.members[b].value;
            && o.start < v.start < v.end < o.end <= |t| && EndsNumber(t[v.end])
            && Value(decode, t, v.start) == Some(At(v, v.end)) && !IsSpace(t[v.start])
            && (v.Object? ==> Stands(decode, t, v))
    ensures forall k | b < k < |o.members| :: o.members[b].value.end < o.members[k].value.start
  {
    hide Members, EndsNumber, Items, Bare, StringAt;
    var p := SkipSpace(t, o.start + 1);
    MembersItem(decode, t, p, b);
    MembersOrder(decode, t, p, b);
    ValueFacts(decode, t, o.members[b].value.start);
  }

  lemma {:induction false} Apart(decode: Decoder, t: string, o: Node, b: nat)
    requires Stands(decode, t, o) && b < |o.members|
    ensures forall k | 0 <= k < b :: o.members[k].value.end < o.members[b].value.start
    ensures forall k | b < k < |o.members| :: o.members[b].value.end < o.members[k].value.start
    ensures forall k | 0 <= k < |o.members| :: Inside(o.members[k].value, o.start, o.end)
  {
    hide Value;
    forall k | 0 <= k < |o.members|
      ensures forall n | k < n < |o.members| :: o.members[k].value.end < o.members[n].value.start
    {
      ObjectItem(decode, t, o, k);
    }
    ValueInside(decode, t, o.start);
  }

  // ----- The spliced pieces are scanned as intended

  predicate PlainKey(decode: Decoder, key: string) {
    StringAt(decode, Quote(key), 0) == Some(At(key, |Quote(key)|))
  }

  /** A token that is scanned, from its first to its last character, as the value `n`. */
  predicate Token(decode: Decoder, token: string, n: Node) {
    Value(decode, token, 0) == Some(At(n, |token|)) && n.start == 0
  }

  lemma {:induction false} MemberText(decode: Decoder, u: string, a: int, key: string, token: string, n: Node)
    requires PlainKey(decode, key) && Token(decode, token, n)
    requires 0 <= a && Moved(MemberSource(key, token), u, 0, |MemberSource(key, token)|, a)
    requires a + |MemberSource(key, token)| < |u| && u[a + |MemberSource(key, token)|] == '}'
    ensures u[a] == '"'
    ensures MemberAt(decode, u, a) ==
              Some(At(Member(key, Shift(n, a + |key| + 3)), a + |MemberSource(key, token)|))
  {
    hide Value, StringAt;
    var x := MemberSource(key, token);
    var q := |key| + 2;
    assert forall k | 0 <= k < q :: Quote(key)[k] == x[k];
    assert x[q] == ':' && x[0] == '"';
    assert forall k | 0 <= k < |token| :: token[k] == x[k + q + 1];
    MovedAt(x, u, 0, |x|, a, 0);
    MovedAt(x, u, 0, |x|, a, q);
    forall k | 0 <= k < q ensures u[k + a] == Quote(key)[k] { MovedAt(x, u, 0, |x|, a, k); }
    StringMoves(decode, Quote(key), u, 0, a);
    assert KeyAt(decode, u, a) == Some(At(key, a + q + 1));
    forall k | 0 <= k < |token| ensures u[k + (a + q + 1)] == token[k] { MovedAt(x, u, 0, |x|, a, k + q + 1); }
    ValueMoves(decode, token, u, 0, a + q + 1);
  }

  // ----- Whole documents

  lemma {:induction false} RootStands(decode: Decoder, t: string)
    requires Parse(decode, t).Some? && Parse(decode, t).value.Object?
    ensures var o := Parse(decode, t).value;
            Stands(decode, t, o) && SkipSpace(t, 0) == o.start < o.end <= |t| && SkipSpace(t, o.end) == |t|
  {
    hide Members, Items, StringAt;
    ValueFacts(decode, t, 0);
    ValueSkips(decode, t, 0);
  }

  lemma {:induction false} Document(decode: Decoder, t: string, u: string, o: Node, o': Node, d: int)
    requires Parse(decode, t) == Some(o) && Stands(decode, t, o)
    requires 0 <= o.start < |u| && Value(decode, u, o.start) == Some(At(o', o.end + d))
    requires Moved(t, u, 0, o.start + 1, 0) && Moved(t, u, o.end, |t|, d) && |u| == |t| + d
    ensures Parse(decode, u) == Some(o')
  {
    RootStands(decode, t);
    hide Value;
    SpaceMoves(t, u, 0, 0);
    ValueSkips(decode, u, 0);
    SpaceToEnd(t, u, o.end, d);
  }

  lemma {:induction false} SwapMember(decode: Decoder, t: string, u: string, o: Node, b: nat, n: Node, d: int)
    requires Stands(decode, t, o) && b < |o.members|
    requires var v := o.members[b].value; ValueSwapped(decode, t, u, v.start, v.end, |t|, n, d)
    ensures o.start < |u|
            && Value(decode, u, o.start) ==
               Some(At(Object(o.start, o.end + d, Replaced(o.members, b, n, d)), o.end + d))
    ensures u[o.start] == t[o.start] && o.start < o.members[b].value.start && o.members[b].value.end < o.end <= |t|
  {
    ObjectItem(decode, t, o, b);
    hide Value, Replaced;
    var v := o.members[b].value;
    MovedPart(t, u, v.end, |t|, d, v.end, o.end);
    MovedAt(t, u, 0, v.start, 0, o.start);
    ObjectReplace(decode, t, u, o.start, b, n, d);
  }

  // ----- Meaning after a splice

  lemma {:induction false} MeaningStays(t: string, u: string, n: Node, lo: int, hi: int)
    requires Inside(n, lo, hi) && Moved(t, u, n.start, n.end, 0)
    ensures Meaning(u, n) == Meaning(t, n)
  {
    MeaningMoves(t, u, n, n.start, n.end, 0);
    ShiftZero(n);
  }

  lemma {:induction false} MeaningSwapped(decode: Decoder, t: string, u: string, o: Node, b: nat, n: Node, d: int)
    requires Stands(decode, t, o) && b < |o.members|
    requires var v := o.members[b].value; ValueSwapped(decode, t, u, v.start, v.end, |t|, n, d)
    ensures MeaningAll(u, Replaced(o.members, b, n, d)) ==
            MeaningAll(t, o.members)[b := Entry(o.members[b].key, Meaning(u, n))]
  {
    hide Value, Moved, Meaning, Shift;
    Apart(decode, t, o, b);
    var ms, ms' := o.members, Replaced(o.members, b, n, d);
    forall k | 0 <= k < |ms| && k != b
      ensures ms'[k].key == ms[k].key && Meaning(u, ms'[k].value) == Meaning(t, ms[k].value)
    {
      var v := ms[k].value;
      ObjectItem(decode, t, o, k);
      if k < b {
        MovedPart(t, u, 0, ms[b].value.start, 0, v.start, v.end);
        MeaningStays(t, u, v, o.start, o.end);
      } else {
        MovedPart(t, u, ms[b].value.end, |t|, d, v.start, v.end);
        MeaningMoves(t, u, v, v.start, v.end, d);
      }
    }
  }

  lemma {:induction false} MeaningGrown(decode: Decoder, t: string, u: string, o: Node, m: Member)
    requires Stands(decode, t, o) && Moved(t, u, 0, o.end - 1, 0)
    ensures MeaningAll(u, o.members + [m]) == MeaningAll(t, o.members) + [Entry(m.key, Meaning(u, m.value))]
  {
    hide Value, Moved, Meaning;
    forall k | 0 <= k < |o.members| ensures Meaning(u, o.members[k].value) == Meaning(t, o.members[k].value) {
      var v := o.members[k].value;
      ObjectItem(decode, t, o, k);
      Apart(decode, t, o, k);
      MovedPart(t, u, 0, o.end - 1, 0, v.start, v.end);
      MeaningStays(t, u, v, o.start, o.end);
    }
  }

  lemma {:induction false} IndexIsFind(t: string, ms: seq<Member>, key: string)
    ensures Index(MeaningAll(t, ms), key) == Find(ms, key)
  {
    hide Meaning;
    if ms != [] {
      assert MeaningAll(t, ms)[1..] == MeaningAll(t, ms[1..]);
      IndexIsFind(t, ms[1..], key);
    }
  }

  // ----- The three splices

  /** What reading `u` back yields: a document with these top-level entries. */
  predicate ReadsAs(decode: Decoder, u: string, es: seq<Entry>) {
    var o := Parse(decode, u);
    o.Some? && o.value.Object? && MeaningAll(u, o.value.members) == es
  }

  /** Once the parent reads back as `parent'`, so does the document around it. */
  lemma {:induction false} AroundParent(decode: Decoder, t: string, u: string, o: Node, a: nat, parent': Node, d: int)
    requires Parse(decode, t) == Some(o) && Stands(decode, t, o) && a < |o.members| && |u| == |t| + d
    requires var v := o.members[a].value;
             Stands(decode, t, v) && ValueSwapped(decode, t, u, v.start, v.end, |t|, parent', d)
    ensures ReadsAs(decode, u, MeaningAll(t, o.members)[a := Entry(o.members[a].key, Meaning(u, parent'))])
  {
    hide Value, Moved, Meaning, Replaced;
    var v := o.members[a].value;
    ObjectItem(decode, t, o, a);
    SwapMember(decode, t, u, o, a, parent', d);
    MovedPart(t, u, 0, v.start, 0, 0, o.start + 1);
    MovedPart(t, u, v.end, |t|, d, o.end, |t|);
    Document(decode, t, u, o, Object(o.start, o.end + d, Replaced(o.members, a, parent', d)), d);
    MeaningSwapped(decode, t, u, o, a, parent', d);
  }

  /** A token spliced at `p` is scanned there, if what follows ends a number. */
  lemma {:induction false} TokenAt(decode: Decoder, u: string, p: int, token: string, n: Node)
    requires Token(decode, token, n) && 0 <= p && Moved(token, u, 0, |token|, p)
    requires p + |token| < |u| && EndsNumber(u[p + |token|])
    ensures Value(decode, u, p) == Some(At(Shift(n, p), p + |token|)) && !IsSpace(u[p])
    ensures Meaning(u, Shift(n, p)) == Meaning(token, n)
  {
    ValueMoves(decode, token, u, 0, p);
    ValueFacts(decode, token, 0);
    MovedAt(token, u, 0, |token|, p, 0);
    ValueInside(decode, token, 0);
    hide Value;
    MeaningMoves(token, u, n, 0, |token|, p);
  }

  lemma {:induction false} ObjectMeaning(t: string, o: Node)
    requires o.Object?
    ensures Meaning(t, o) == Obj(MeaningAll(t, o.members))
  {}

  lemma {:induction false} ReplaceLeaf(decode: Decoder, t: string, o: Node, a: nat, b: nat, token: string, n: Node)
    requires Parse(decode, t) == Some(o) && Stands(decode, t, o) && a < |o.members| && o.members[a].value.Object?
    requires b < |o.members[a].value.members| && Token(decode, token, n)
    ensures var parent := o.members[a].value;
            var leaf := parent.members[b].value;
            && 0 <= leaf.start <= leaf.end <= |t|
            && ReadsAs(decode, t[..leaf.start] + token + t[leaf.end..],
                       MeaningAll(t, o.members)[a := Entry(o.members[a].key,
                         Obj(MeaningAll(t, parent.members)[b := Entry(parent.members[b].key, Meaning(token, n))]))])
  {
    hide Value, Replaced, EndsNumber, IsSpace, Meaning;
    var parent := o.members[a].value;
    var leaf := parent.members[b].value;
    ObjectItem(decode, t, o, a);
    ObjectItem(decode, t, parent, b);
    var u := t[..leaf.start] + token + t[leaf.end..];
    var d := |token| - (leaf.end - leaf.start);
    assert Moved(t, u, 0, leaf.start, 0) && Moved(t, u, leaf.end, |t|, d) && Moved(token, u, 0, |token|, leaf.start);
    assert u[leaf.end + d] == t[leaf.end];
    TokenAt(decode, u, leaf.start, token, n);
    SwapMember(decode, t, u, parent, b, Shift(n, leaf.start), d);
    MeaningSwapped(decode, t, u, parent, b, Shift(n, leaf.start), d);
    var parent' := Object(parent.start, parent.end + d, Replaced(parent.members, b, Shift(n, leaf.start), d));
    ObjectMeaning(u, parent');
    AroundParent(decode, t, u, o, a, parent', d);
  }

  lemma {:induction false} SpliceMoves(t: string, e: int, pre: string, x: string)
    requires 0 <= e <= |t|
    ensures var u := t[..e] + pre + x + t[e..];
            && |u| == |t| + |pre| + |x|
            && Moved(t, u, 0, e, 0) && Moved(pre, u, 0, |pre|, e) && Moved(x, u, 0, |x|, e + |pre|)
            && Moved(t, u, e, |t|, |pre| + |x|)
  {}

  /** Where the spliced member stands in the grown text. */
  lemma {:induction false} GrownText(t: string, o: Node, key: string, token: string) returns (lead: nat)
    requires o.Object? && 0 < o.end <= |t|
    ensures var u, x, e := AppendMember(t, o, key, token), MemberSource(key, token), o.end - 1;
            && lead == (if o.members == [] then 0 else 1) && |u| == |t| + lead + |x|
            && Moved(t, u, 0, e, 0) && Moved(t, u, e, |t|, lead + |x|) && Moved(x, u, 0, |x|, e + lead)
            && (lead == 1 ==> u[e] == ',') && u[e + lead + |x|] == t[e]
  {
    hide MemberSource, Moved;
    var x := MemberSource(key, token);
    var pre := if o.members == [] then "" else ",";
    var e, u := o.end - 1, AppendMember(t, o, key, token);
    lead := |pre|;
    SpliceMoves(t, e, pre, x);
    MovedAt(t, u, e, |t|, lead + |x|, e);
    if lead == 1 { MovedAt(pre, u, 0, 1, e, 0); }
  }

  lemma {:induction false} MembersBrace(decode: Decoder, t: string, i: int)
    requires 0 <= i <= |t| && Members(decode, t, i).Some?
    ensures i < Members(decode, t, i).value.next - 1 && t[Members(decode, t, i).value.next - 1] == '}'
    decreases |t| - i
  {
    hide MemberAt, IsSpace;
    var m := MemberAt(decode, t, i).value;
    var f := FollowAt(t, m.next, '}');
    if f.Comma? { MembersBrace(decode, t, f.next); }
  }

  lemma {:induction false} BraceLast(decode: Decoder, t: string, o: Node)
    requires Stands(decode, t, o)
    ensures o.start < o.end - 1 < |t| && t[o.end - 1] == '}'
  {
    hide MemberAt, StringAt;
    var p := SkipSpace(t, o.start + 1);
    if t[p] != '}' { MembersBrace(decode, t, p); }
  }

  lemma {:induction false} TokenMeaning(decode: Decoder, u: string, a: int, key: string, token: string, n: Node)
    requires Token(decode, token, n) && 0 <= a && Moved(MemberSource(key, token), u, 0, |MemberSource(key, token)|, a)
    ensures Meaning(u, Shift(n, a + |key| + 3)) == Meaning(token, n)
  {
    ValueInside(decode, token, 0);
    hide Value, Meaning;
    var x := MemberSource(key, token);
    var p := |key| + 3;
    forall k | 0 <= k < |token|
      ensures u[k + (a + p)] == token[k]
    {
      assert x[k + p] == token[k]; MovedAt(x, u, 0, |x|, a, k + p);
    }
    MeaningMoves(token, u, n, 0, |token|, a + p);
  }

  /** Splicing a member in front of the closing brace of an object. */
  lemma {:induction false} Grow(
      decode: Decoder, t: string, o: Node, key: string, token: string, n: Node) returns (m: Member, d: nat)
    requires Stands(decode, t, o) && o.end <= |t| && PlainKey(decode, key) && Token(decode, token, n)
    requires forall k | 0 <= k < |o.members| :: o.members[k].key != key
    ensures 0 < o.end && o.start < o.end - 1
    ensures var u := AppendMember(t, o, key, token);
            && m.key == key && |u| == |t| + d && o.start < |u|
            && Moved(t, u, 0, o.end - 1, 0) && Moved(t, u, o.end - 1, |t|, d)
            && Value(decode, u, o.start) == Some(At(Object(o.start, o.end + d, o.members + [m]), o.end + d))
            && MeaningAll(u, o.members + [m]) == MeaningAll(t, o.members) + [Entry(key, Meaning(token, n))]
  {
    hide Value, Meaning, MemberAt, EndsNumber, AppendMember, Moved, PlainKey, Token, MeaningAll;
    BraceLast(decode, t, o);
    var e, u := o.end - 1, AppendMember(t, o, key, token);
    var lead := GrownText(t, o, key, token);
    d := lead + |MemberSource(key, token)|;
    MemberText(decode, u, e + lead, key, token, n);
    m := Member(key, Shift(n, e + lead + |key| + 3));
    ObjectAppend(decode, t, u, o.start, m, d);
    MeaningGrown(decode, t, u, o, m);
    TokenMeaning(decode, u, e + lead, key, token, n);
  }

  lemma {:induction false} AppendLeaf(decode: Decoder, t: string, o: Node, a: nat, key: string, token: string, n: Node)
    requires Parse(decode, t) == Some(o) && Stands(decode, t, o) && a < |o.members| && o.members[a].value.Object?
    requires PlainKey(decode, key) && Token(decode, token, n)
    requires forall k | 0 <= k < |o.members[a].value.members| :: o.members[a].value.members[k].key != key
    ensures var parent := o.members[a].value;
            && 0 < parent.end <= |t|
            && ReadsAs(decode, AppendMember(t, parent, key, token),
                       MeaningAll(t, o.members)[a := Entry(o.members[a].key,
                         Obj(MeaningAll(t, parent.members) + [Entry(key, Meaning(token, n))]))])
  {
    hide Value, Replaced, EndsNumber, IsSpace, Meaning, AppendMember, Moved, PlainKey, Token, MeaningAll, Parse;
    var parent := o.members[a].value;
    ObjectItem(decode, t, o, a);
    var m, d := Grow(decode, t, parent, key, token, n);
    var u := AppendMember(t, parent, key, token);
    var parent' := Object(parent.start, parent.end + d, parent.members + [m]);
    MovedAt(t, u, 0, parent.end - 1, 0, parent.start);
    MovedPart(t, u, 0, parent.end - 1, 0, 0, parent.start);
    MovedPart(t, u, parent.end - 1, |t|, d, parent.end, |t|);
    ObjectMeaning(u, parent');
    AroundParent(decode, t, u, o, a, parent', d);
  }

  lemma {:induction false} AppendParent(decode: Decoder, t: string, o: Node, key: string, token: string, n: Node)
    requires Parse(decode, t) == Some(o) && Stands(decode, t, o) && PlainKey(decode, key) && Token(decode, token, n)
    requires forall k | 0 <= k < |o.members| :: o.members[k].key != key
    ensures 0 < o.end <= |t|
    ensures ReadsAs(decode, AppendMember(t, o, key, token), MeaningAll(t, o.members) + [Entry(key, Meaning(token, n))])
  {
    RootStands(decode, t);
    hide Value, Meaning, AppendMember, Moved, PlainKey, Token, MeaningAll, Parse;
    var m, d := Grow(decode, t, o, key, token, n);
    var u := AppendMember(t, o, key, token);
    MovedPart(t, u, 0, o.end - 1, 0, 0, o.start + 1);
    MovedPart(t, u, o.end - 1, |t|, d, o.end, |t|);
    Document(decode, t, u, o, Object(o.start, o.end + d, o.members + [m]), d);
  }

  lemma {:induction false} Braced(y: string)
    ensures var x := "{" + y + "}"; |x| == |y| + 2 && x[0] == '{' && x[|y| + 1] == '}' && Moved(y, x, 0, |y|, 1)
  {
  }

  lemma {:induction false} OneMemberObject(decode: Decoder, x: string, m: Member)
    requires |x| > 1 && x[0] == '{' && x[1] == '"' && Members(decode, x, 1) == Some(At([m], |x|))
    ensures Token(decode, x, Object(0, |x|, [m]))
  {
    hide Members;
    assert SkipSpace(x, 0) == 0 && SkipSpace(x, 1) == 1;
  }

  lemma {:induction false} OneEntry(x: string, m: Member)
    ensures MeaningAll(x, [m]) == [Entry(m.key, Meaning(x, m.value))]
  {
    hide Meaning;
  }

  /** The one-member object that is spliced when the parent is missing. */
  lemma {:induction false} ParentToken(decode: Decoder, key: string, token: string, n: Node) returns (p: Node)
    requires PlainKey(decode, key) && Token(decode, token, n)
    ensures var x := "{" + MemberSource(key, token) + "}";
            Token(decode, x, p) && Meaning(x, p) == Obj([Entry(key, Meaning(token, n))])
  {
    hide MemberAt, Meaning, MeaningAll, Members, Value, MemberSource, PlainKey, Moved;
    var y := MemberSource(key, token);
    var x := "{" + y + "}";
    Braced(y);
    MemberText(decode, x, 1, key, token, n);
    TokenMeaning(decode, x, 1, key, token, n);
    var m := Member(key, Shift(n, |key| + 4));
    OneMember(decode, x, 1, m, |y| + 1);
    p := Object(0, |x|, [m]);
    OneMemberObject(decode, x, m);
    ObjectMeaning(x, p);
    OneEntry(x, m);
  }

  lemma {:induction false} TokenRaw(decode: Decoder, token: string, n: Node)
    requires Token(decode, token, n) && n.Plain?
    ensures Meaning(token, n) == Raw(token)
  {
    ValueFacts(decode, token, 0);
    assert token[0..|token|] == token;
  }

  /** The main theorem.  For every document the scanner accepts whose root is an object and
      whose managed parent, if present, is an object, the splice yields a text that is
      accepted again and means the old document with exactly the managed leaf set. */
  lemma {:induction false} RenderSetsLeaf(
      decode: Decoder, t: string, parentKey: string, leafKey: string, token: string, n: Node)
    requires PlainKey(decode, parentKey) && PlainKey(decode, leafKey) && Token(decode, token, n) && n.Plain?
    requires Parse(decode, t).Some? && Parse(decode, t).value.Object?
    requires var ms := Parse(decode, t).value.members;
             Find(ms, parentKey) < |ms| ==> ms[Find(ms, parentKey)].value.Object?
    ensures var o, r := Parse(decode, t).value, Render(decode, t, parentKey, leafKey, token);
            && r.Some? && Parse(decode, r.value).Some?
            && Meaning(r.value, Parse(decode, r.value).value) == SetLeaf(Meaning(t, o), parentKey, leafKey, token)
  {
    var o := Parse(decode, t).value;
    RootStands(decode, t);
    ObjectMeaning(t, o);
    IndexIsFind(t, o.members, parentKey);
    TokenRaw(decode, token, n);
    hide Value, AppendMember, PlainKey, Token, Parse, MemberSource, Stands, Meaning;
    var a := Find(o.members, parentKey);
    if a == |o.members| {
      var p := ParentToken(decode, leafKey, token, n);
      AppendParent(decode, t, o, parentKey, "{" + MemberSource(leafKey, token) + "}", p);
      assert [] + [Entry(leafKey, Raw(token))] == [Entry(leafKey, Raw(token))];
    } else {
      var parent := o.members[a].value;
      ObjectMeaning(t, parent);
      IndexIsFind(t, parent.members, leafKey);
      var b := Find(parent.members, leafKey);
      if b == |parent.members| {
        AppendLeaf(decode, t, o, a, leafKey, token, n);
      } else {
        ReplaceLeaf(decode, t, o, a, b, token, n);
      }
    }
    var u := Render(decode, t, parentKey, leafKey, token).value;
    ObjectMeaning(u, Parse(decode, u).value);
  }

  /** Exactly the documents whose root and managed parent are objects are rendered. */
  lemma {:induction false} RenderAccepts(decode: Decoder, t: string, parentKey: string, leafKey: string, token: string)
    ensures Render(decode, t, parentKey, leafKey, token).Some? <==>
              var root := Parse(decode, t);
              && root.Some? && root.value.Object?
              && (Find(root.value.members, parentKey) < |root.value.members| ==>
                    root.value.members[Find(root.value.members, parentKey)].value.Object?)
  {
    var root := Parse(decode, t);
    if root.Some? && root.value.Object? {
      RootStands(decode, t);
      hide Value, Parse, AppendMember;
      var o, a := root.value, Find(root.value.members, parentKey);
      if a < |o.members| && o.members[a].value.Object? {
        ObjectItem(decode, t, o, a);
        var b := Find(o.members[a].value.members, leafKey);
        if b < |o.members[a].value.members| { ObjectItem(decode, t, o.members[a].value, b); }
      }
    }
  }

  function Lookup(es: seq<Entry>, key: string): Option<Json> {
    var k := Index(es, key);
    if k < |es| then Some(es[k].value) else None
  }

  /** A document whose managed leaf already is the token renders to itself. */
  lemma {:induction false} Settled(decode: Decoder, u: string, parentKey: string, leafKey: string, token: string)
    requires Parse(decode, u).Some? && token != "" && Meaning(u, Parse(decode, u).value).Obj?
    requires var parent := Lookup(Meaning(u, Parse(decode, u).value).members, parentKey);
             parent.Some? && parent.value.Obj? && Lookup(parent.value.members, leafKey) == Some(Raw(token))
    ensures Render(decode, u, parentKey, leafKey, token) == Some(u)
  {
    hide Parse, AppendMember;
    var o := Parse(decode, u).value;
    IndexIsFind(u, o.members, parentKey);
    var parent := o.members[Find(o.members, parentKey)].value;
    IndexIsFind(u, parent.members, leafKey);
    var leaf := parent.members[Find(parent.members, leafKey)].value;
    assert Slice(u, leaf.start, leaf.end) == token;
    assert u[..leaf.start] + u[leaf.start..leaf.end] + u[leaf.end..] == u;
  }

  lemma TokenNotEmpty(decode: Decoder, token: string, n: Node)
    requires Token(decode, token, n)
    ensures token != ""
  {}

  lemma {:induction false} SetKeyIndex(es: seq<Entry>, key: string, v: Json)
    ensures Index(SetKey(es, key, v), key) == Index(es, key) < |SetKey(es, key, v)|
    ensures SetKey(es, key, v)[Index(es, key)] == Entry(key, v)
  {
    var r := SetKey(es, key, v);
    if es != [] && es[0].key != key {
      SetKeyIndex(es[1..], key, v);
      assert r[1..] == SetKey(es[1..], key, v);
    }
  }

  lemma {:induction false} SetKeyExact(es: seq<Entry>, key: string, v: Json, other: string)
    ensures Lookup(SetKey(es, key, v), other) == if other == key then Some(v) else Lookup(es, other)
  {
    var r := SetKey(es, key, v);
    if other == key {
      SetKeyIndex(es, key, v);
    } else if es != [] {
      if es[0].key == key {
        assert r[1..] == es[1..];
      } else {
        SetKeyExact(es[1..], key, v, other);
        assert r[1..] == SetKey(es[1..], key, v);
      }
    }
  }

  /** `SetLeaf` sets the managed leaf and touches no other top-level key and no other key of
      the managed parent. */
  lemma {:induction false} SetLeafExact(j: Json, parentKey: string, leafKey: string, token: string, other: string)
    requires j.Obj?
    ensures var r := SetLeaf(j, parentKey, leafKey, token);
            && (other != parentKey ==> Lookup(r.members, other) == Lookup(j.members, other))
            && Lookup(r.members, parentKey).Some? && Lookup(r.members, parentKey).value.Obj?
            && var inner := Lookup(j.members, parentKey);
               Lookup(Lookup(r.members, parentKey).value.members, other) ==
                 if other == leafKey then Some(Raw(token))
                 else if inner.Some? && inner.value.Obj? then Lookup(inner.value.members, other)
                 else None
  {
    var a := Index(j.members, parentKey);
    var inner := if a < |j.members| && j.members[a].value.Obj? then j.members[a].value.members else [];
    var v := Obj(SetKey(inner, leafKey, Raw(token)));
    SetKeyExact(inner, leafKey, Raw(token), other);
    SetKeyExact(j.members, parentKey, v, other);
    SetKeyExact(j.members, parentKey, v, parentKey);
  }

  /** Rendering twice changes nothing more. */
  lemma {:induction false} RenderIdempotent(
      decode: Decoder, t: string, parentKey: string, leafKey: string, token: string, n: Node)
    requires PlainKey(decode, parentKey) && PlainKey(decode, leafKey) && Token(decode, token, n) && n.Plain?
    requires Render(decode, t, parentKey, leafKey, token).Some?
    ensures var r := Render(decode, t, parentKey, leafKey, token).value;
            Render(decode, r, parentKey, leafKey, token) == Some(r)
  {
    TokenNotEmpty(decode, token, n);
    RenderAccepts(decode, t, parentKey, leafKey, token);
    RenderSetsLeaf(decode, t, parentKey, leafKey, token, n);
    hide Value, PlainKey, Token, Parse, Meaning, Render, Index, SetKey;
    var u := Render(decode, t, parentKey, leafKey, token).value;
    ObjectMeaning(t, Parse(decode, t).value);
    SetLeafExact(Meaning(t, Parse(decode, t).value), parentKey, leafKey, token, leafKey);
    Settled(decode, u, parentKey, leafKey, token);
  }

  // ----- Exactly one leaf

  /** Every character outside the spliced stretch [a, b) stays; the stretch is empty for the
      two appends and is the old leaf's span for the replacement. */
  lemma {:induction false} RenderSplices(
      decode: Decoder, t: string, parentKey: string, leafKey: string, token: string) returns (a: int, b: int, x: string)
    requires Render(decode, t, parentKey, leafKey, token).Some?
    ensures 0 <= a <= b <= |t| && Render(decode, t, parentKey, leafKey, token).value == t[..a] + x + t[b..]
    ensures a < b ==>
              var ms := Parse(decode, t).value.members;
              && Find(ms, parentKey) < |ms| && ms[Find(ms, parentKey)].value.Object?
              && var ls := ms[Find(ms, parentKey)].value.members;
                 Find(ls, leafKey) < |ls| && a == ls[Find(ls, leafKey)].value.start
                     && b == ls[Find(ls, leafKey)].value.end
  {
    hide Parse, MemberSource;
    var o := Parse(decode, t).value;
    var k := Find(o.members, parentKey);
    if k < |o.members| && Find(o.members[k].value.members, leafKey) < |o.members[k].value.members| {
      var leaf := o.members[k].value.members[Find(o.members[k].value.members, leafKey)].value;
      a, b, x := leaf.start, leaf.end, token;
    } else {
      var into := if k < |o.members| then o.members[k].value else o;
      var member := if k < |o.members| then MemberSource(leafKey, token)
                    else MemberSource(parentKey, "{" + MemberSource(leafKey, token) + "}");
      a, b := into.end - 1, into.end - 1;
      x := (if into.members == [] then "" else ",") + member;
      assert t[..a] + x + t[b..] == Render(decode, t, parentKey, leafKey, token).value;
    }
  }

  // ----- The managed keys and tokens

  lemma {:induction false} StringEndOf(t: string, i: int)
    requires 0 < i < |t| && t[|t| - 1] == '"' && forall k | i <= k < |t| - 1 :: t[k] != '"' && t[k] != '\\'
    ensures StringEnd(t, i) == Some(|t|)
    decreases |t| - i
  {
    if i < |t| - 1 { StringEndOf(t, i + 1); }
  }

  /** A key without quotes or backslashes is spliced as itself. */
  lemma {:induction false} PlainKeys(decode: Decoder, key: string)
    requires forall k | 0 <= k < |key| :: key[k] != '"' && key[k] != '\\'
    requires decode(Quote(key)) == Some(key)
    ensures PlainKey(decode, key)
  {
    StringEndOf(Quote(key), 1);
    assert Quote(key)[0..|Quote(key)|] == Quote(key);
  }

  predicate Digits(s: string) { s != "" && forall k | 0 <= k < |s| :: '0' <= s[k] <= '9' }

  lemma {:induction false} NumberEndOf(t: string, i: int)
    requires 0 <= i <= |t| && forall k | i <= k < |t| :: !EndsNumber(t[k])
    ensures NumberEnd(t, i) == |t|
    decreases |t| - i
  {
    if i < |t| { NumberEndOf(t, i + 1); }
  }

  /** Both token forms that `_setting_source_token` admits qualify. */
  lemma {:induction false} ManagedTokens(decode: Decoder, digits: string)
    requires Digits(digits)
    ensures Token(decode, digits, Plain(NumberKind, 0, |digits|))
    ensures decode(Quote(digits)).Some? ==> Token(decode, Quote(digits), Plain(StringKind, 0, |digits| + 2))
  {
    NumberEndOf(digits, 0);
    StringEndOf(Quote(digits), 1);
    assert Quote(digits)[0..|Quote(digits)|] == Quote(digits);
  }
}

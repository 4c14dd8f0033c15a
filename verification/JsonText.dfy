/**
 What the reader of scripts/lib/template_sync.py:103-197 accepts, stated without reading: a text is
 laid out as tokens with any blanks between them.  The reader accepts exactly these texts, and the
 tree it returns is the one laid out.
 */
module JsonText {
  import opened Common
  import opened JsonScan

  // ----- Tokens

  predicate Blank(c: char) { c == ' ' || c == '\t' || c == '\r' || c == '\n' }

  predicate Delimiter(c: char) { c in " \t\r\n,]}" }

  predicate Blanks(t: string, i: int, j: int) {
    0 <= i <= j <= |t| && forall k | i <= k < j :: Blank(t[k])
  }

  /** An odd number of backslashes, back to `lo`, stands in front of this offset. */
  predicate Escaped(t: string, lo: int, p: int)
    requires 0 <= lo <= p <= |t|
    decreases p - lo
  {
    p > lo && t[p - 1] == '\\' && !Escaped(t, lo, p - 1)
  }

  /** A quote, and everything up to and including the next quote that is not escaped. */
  predicate IsString(t: string, i: int, e: int) {
    && 0 <= i && i + 2 <= e <= |t| && t[i] == '"' && t[e - 1] == '"' && !Escaped(t, i + 1, e - 1)
    && forall p | i + 1 <= p < e - 1 && t[p] == '"' :: Escaped(t, i + 1, p)
  }

  predicate Reads(t: string, s: int, word: string) { 0 <= s && s + |word| <= |t| && t[s..s + |word|] == word }

  predicate IsLiteral(t: string, s: int, e: int) {
    || (Reads(t, s, "true") && e == s + 4)
    || (Reads(t, s, "false") && e == s + 5)
    || (Reads(t, s, "null") && e == s + 4)
  }

  /** A run up to the next delimiter or the end that is no other token. */
  predicate IsNumber(t: string, s: int, e: int) {
    && 0 <= s < e <= |t| && (e < |t| ==> Delimiter(t[e])) && (forall k | s <= k < e :: !Delimiter(t[k]))
    && t[s] != '{' && t[s] != '[' && t[s] != '"'
    && !Reads(t, s, "true") && !Reads(t, s, "false") && !Reads(t, s, "null")
  }

  // ----- Documents

  /** A key and its colon, up to `d`. */
  ghost predicate IsKey(decode: Decoder, t: string, key: string, i: int, d: int) {
    && 0 < d <= |t| && t[d - 1] == ':'
    && exists q, c :: Blanks(t, i, q) && IsString(t, q, c) && decode(t[q..c]) == Some(key) && Blanks(t, c, d - 1)
  }

  ghost predicate IsMember(decode: Decoder, t: string, m: Member, i: int, v: int)
    decreases v - i, 1
  {
    exists d :: i < d < v && IsKey(decode, t, m.key, i, d) && IsValue(decode, t, m.value, d, v)
  }

  /** Members with commas between them and the brace behind them. */
  ghost predicate IsMembers(decode: Decoder, t: string, ms: seq<Member>, i: int, e: int)
    decreases e - i, 2
  {
    ms != [] && exists v, f ::
      && 0 <= i < v <= f < e <= |t| && IsMember(decode, t, ms[0], i, v) && Blanks(t, v, f)
      && if |ms| == 1 then t[f] == '}' && e == f + 1 else t[f] == ',' && IsMembers(decode, t, ms[1..], f + 1, e)
  }

  /** The text from `i` to `e` is blanks and then the value `n`, spans included. */
  ghost predicate IsValue(decode: Decoder, t: string, n: Node, i: int, e: int)
    decreases e - i, 0
  {
    && Blanks(t, i, n.start) && n.start < n.end == e <= |t|
    && match n
       case Object(s, _, ms) =>
         && t[s] == '{' && t[e - 1] == '}' && s + 1 < e && DistinctKeys(ms)
         && if ms == [] then Blanks(t, s + 1, e - 1) else IsMembers(decode, t, ms, s + 1, e)
       case Plain(kind, s, _) =>
         match kind
         case ArrayKind => t[s] == '[' && s + 1 < e && IsArray(decode, t, s + 1, e)
         case StringKind => IsString(t, s, e) && decode(t[s..e]).Some?
         case LiteralKind => IsLiteral(t, s, e)
         case NumberKind => IsNumber(t, s, e)
  }

  /** Values with commas between them and the bracket behind them. */
  ghost predicate IsItems(decode: Decoder, t: string, items: seq<Node>, i: int, e: int)
    decreases e - i, 1
  {
    items != [] && exists v, f ::
      && 0 <= i < v <= f < e <= |t| && IsValue(decode, t, items[0], i, v) && Blanks(t, v, f)
      && if |items| == 1 then t[f] == ']' && e == f + 1 else t[f] == ',' && IsItems(decode, t, items[1..], f + 1, e)
  }

  ghost predicate IsArray(decode: Decoder, t: string, i: int, e: int)
    decreases e - i, 2
  {
    || (0 < e <= |t| && t[e - 1] == ']' && Blanks(t, i, e - 1))
    || exists items :: IsItems(decode, t, items, i, e)
  }

  /** The whole text is the value `n`, with blanks around it. */
  ghost predicate IsDocument(decode: Decoder, t: string, n: Node) {
    IsValue(decode, t, n, 0, n.end) && Blanks(t, n.end, |t|)
  }

  // ----- Tokens are read as they are

  lemma {:induction false} SkipIs(t: string, i: int, j: int)
    requires 0 <= i <= |t|
    ensures SkipSpace(t, i) == j <==> Blanks(t, i, j) && (j < |t| ==> !Blank(t[j]))
    decreases |t| - i
  {
    if i < |t| && Blank(t[i]) { SkipIs(t, i + 1, j); }
  }

  lemma {:induction false} StringEndIs(t: string, lo: int, a: int, e: int)
    requires 0 <= lo <= a <= |t| && !Escaped(t, lo, a)
    ensures StringEnd(t, a) == Some(e) <==>
              && a < e <= |t| && t[e - 1] == '"' && !Escaped(t, lo, e - 1)
              && forall p | a <= p < e - 1 && t[p] == '"' :: Escaped(t, lo, p)
    decreases |t| - a
  {
    if a < |t| {
      if t[a] == '\\' {
        assert Escaped(t, lo, a + 1);
        if a + 2 <= |t| {
          assert !Escaped(t, lo, a + 2);
          StringEndIs(t, lo, a + 2, e);
        }
      } else if t[a] != '"' {
        assert !Escaped(t, lo, a + 1);
        StringEndIs(t, lo, a + 1, e);
      }
    }
  }

  lemma NotEscaped(t: string, lo: int)
    requires 0 <= lo <= |t|
    ensures !Escaped(t, lo, lo)
  {
  }

  lemma {:induction false} StringIs(decode: Decoder, t: string, i: int, key: string, e: int)
    requires 0 <= i <= |t|
    ensures StringAt(decode, t, i) == Some(At(key, e)) <==> IsString(t, i, e) && decode(t[i..e]) == Some(key)
  {
    hide StringEnd, Escaped;
    if i < |t| {
      NotEscaped(t, i + 1);
      StringEndIs(t, i + 1, i + 1, e);
      var r := StringEnd(t, i + 1);
      if r.Some? { StringEndIs(t, i + 1, i + 1, r.value); }
    }
  }

  lemma {:induction false} NumberEndIs(t: string, i: int, e: int)
    requires 0 <= i <= |t|
    ensures NumberEnd(t, i) == e <==>
              i <= e <= |t| && (e < |t| ==> Delimiter(t[e])) && forall k | i <= k < e :: !Delimiter(t[k])
    decreases |t| - i
  {
    if i < |t| && !Delimiter(t[i]) { NumberEndIs(t, i + 1, e); }
  }

  lemma ReadsFour(t: string, s: int, a: char, b: char, c: char, d: char)
    requires 0 <= s
    ensures Reads(t, s, [a, b, c, d]) <==> StartsWith4(t, s, a, b, c, d)
  {
    if s + 4 <= |t| {
      var word := t[s..s + 4];
      assert word[0] == t[s] && word[1] == t[s + 1] && word[2] == t[s + 2] && word[3] == t[s + 3];
    }
  }

  lemma ReadsFive(t: string, s: int)
    requires 0 <= s
    ensures Reads(t, s, "false") <==> StartsWith4(t, s, 'f', 'a', 'l', 's') && s + 5 <= |t| && t[s + 4] == 'e'
  {
    if s + 5 <= |t| {
      var word := t[s..s + 5];
      assert word[0] == t[s] && word[1] == t[s + 1] && word[2] == t[s + 2];
      assert word[3] == t[s + 3] && word[4] == t[s + 4];
    }
  }

  lemma {:induction false} LiteralIs(t: string, s: int)
    requires 0 <= s
    ensures LiteralLength(t, s) ==
            if Reads(t, s, "true") || Reads(t, s, "null") then 4 else if Reads(t, s, "false") then 5 else 0
  {
    hide Reads;
    ReadsFour(t, s, 't', 'r', 'u', 'e');
    ReadsFour(t, s, 'n', 'u', 'l', 'l');
    ReadsFive(t, s);
    assert "true" == ['t', 'r', 'u', 'e'] && "null" == ['n', 'u', 'l', 'l'];
  }

  lemma FirstLetters(t: string, s: int)
    ensures Reads(t, s, "true") ==> 0 <= s < |t| && t[s] == 't'
    ensures Reads(t, s, "false") ==> 0 <= s < |t| && t[s] == 'f'
    ensures Reads(t, s, "null") ==> 0 <= s < |t| && t[s] == 'n'
  {
    if 0 <= s {
      ReadsFour(t, s, 't', 'r', 'u', 'e');
      ReadsFour(t, s, 'n', 'u', 'l', 'l');
      ReadsFive(t, s);
      assert "true" == ['t', 'r', 'u', 'e'] && "null" == ['n', 'u', 'l', 'l'];
    }
  }

  lemma OneLiteral(t: string, s: int)
    ensures !(Reads(t, s, "true") && Reads(t, s, "false")) && !(Reads(t, s, "null") && Reads(t, s, "false"))
    ensures Reads(t, s, "true") || Reads(t, s, "null") || Reads(t, s, "false") ==> s < |t|
  {
    FirstLetters(t, s);
  }

  lemma {:induction false} BareIs(t: string, s: int, kind: Kind, e: int)
    requires 0 <= s < |t| && t[s] != '{' && t[s] != '[' && t[s] != '"'
    ensures Bare(t, s) == Some(At(Plain(kind, s, e), e)) <==>
              (kind == LiteralKind && IsLiteral(t, s, e)) || (kind == NumberKind && IsNumber(t, s, e))
  {
    hide LiteralLength, NumberEnd, Reads;
    LiteralIs(t, s);
    NumberEndIs(t, s, e);
    OneLiteral(t, s);
    NumberEndIs(t, s, NumberEnd(t, s));
  }

  // ----- Every layout is read as what it lays out

  lemma {:induction false} FollowIs(t: string, v: int, f: int, close: char)
    requires Blanks(t, v, f) && f < |t| && !Blank(close) && close != ','
    ensures t[f] == close ==> FollowAt(t, v, close) == Close(f + 1)
    ensures t[f] == ',' ==> FollowAt(t, v, close) == Comma(f + 1)
  {
    SkipIs(t, v, f);
  }

  lemma StringStart(t: string, q: int, c: int)
    requires IsString(t, q, c)
    ensures 0 <= q < q + 2 <= c <= |t| && t[q] == '"'
  {
  }

  lemma {:induction false} KeyRead(decode: Decoder, t: string, key: string, i: int, d: int)
    requires IsKey(decode, t, key, i, d)
    ensures 0 <= i < d && KeyAt(decode, t, i) == Some(At(key, d))
    ensures SkipSpace(t, i) < |t| && t[SkipSpace(t, i)] == '"'
  {
    hide StringAt;
    var q, c :| Blanks(t, i, q) && IsString(t, q, c) && decode(t[q..c]) == Some(key) && Blanks(t, c, d - 1);
    StringStart(t, q, c);
    SkipIs(t, i, q);
    StringIs(decode, t, q, key, c);
    SkipIs(t, c, d - 1);
  }

  lemma LiteralStart(t: string, s: int, e: int)
    requires IsLiteral(t, s, e)
    ensures 0 <= s < e <= |t| && (t[s] == 't' || t[s] == 'f' || t[s] == 'n')
  {
    FirstLetters(t, s);
  }

  /** Where a value's first character stands, and that it closes nothing. */
  lemma {:induction false} ValueStart(decode: Decoder, t: string, n: Node, i: int, e: int)
    requires IsValue(decode, t, n, i, e)
    ensures 0 <= i <= n.start < e <= |t| && SkipSpace(t, i) == n.start && !Blank(t[n.start])
    ensures t[n.start] != ']' && t[n.start] != '}'
  {
    hide IsMembers, IsArray, SkipSpace;
    if n.Plain? && n.kind == LiteralKind { LiteralStart(t, n.start, e); }
    if n.Plain? && n.kind == StringKind { StringStart(t, n.start, e); }
    SkipIs(t, i, n.start);
  }

  /** Leading blanks do not matter to the readers. */
  lemma {:induction false} SkipTwice(decode: Decoder, t: string, i: int)
    requires 0 <= i <= |t|
    ensures var p := SkipSpace(t, i);
            && Value(decode, t, p) == Value(decode, t, i) && Items(decode, t, p) == Items(decode, t, i)
            && Members(decode, t, p) == Members(decode, t, i)
  {
    var p := SkipSpace(t, i);
    SkipIs(t, i, p);
    SkipIs(t, p, p);
    hide SkipSpace;
    assert KeyAt(decode, t, p) == KeyAt(decode, t, i);
    assert MemberAt(decode, t, p) == MemberAt(decode, t, i);
  }

  lemma NumberStart(t: string, s: int, e: int)
    requires IsNumber(t, s, e)
    ensures 0 <= s < |t| && t[s] != '{' && t[s] != '[' && t[s] != '"'
  {
  }

  lemma {:induction false} ObjectRead(decode: Decoder, t: string, ms: seq<Member>, s: int, e: int)
    requires 0 <= s && s + 1 < e <= |t| && t[s] == '{' && t[e - 1] == '}' && DistinctKeys(ms)
    requires if ms == [] then Blanks(t, s + 1, e - 1) else IsMembers(decode, t, ms, s + 1, e)
    ensures var p := SkipSpace(t, s + 1);
            if ms == [] then p == e - 1
            else p < |t| && t[p] == '"' && Members(decode, t, p) == Some(At(ms, e))
    decreases e - s - 1, 4
  {
    hide SkipSpace, Members, DistinctKeys, IsMembers;
    if ms == [] { SkipIs(t, s + 1, e - 1); }
    else {
      MembersRead(decode, t, ms, s + 1, e);
      SkipTwice(decode, t, s + 1);
    }
  }

  lemma {:induction false} ItemsRead(decode: Decoder, t: string, items: seq<Node>, i: int, e: int)
    requires IsItems(decode, t, items, i, e)
    ensures 0 <= i < e <= |t| && Items(decode, t, i) == Some(e)
    ensures SkipSpace(t, i) < |t| && t[SkipSpace(t, i)] != ']'
    decreases e - i, 1
  {
    hide SkipSpace, Value, IsValue, Items, FollowAt, Blanks;
    var v, f :| 0 <= i < v <= f < e <= |t| && IsValue(decode, t, items[0], i, v) && Blanks(t, v, f)
      && if |items| == 1 then t[f] == ']' && e == f + 1 else t[f] == ',' && IsItems(decode, t, items[1..], f + 1, e);
    ValueRead(decode, t, items[0], i, v);
    ValueStart(decode, t, items[0], i, v);
    FollowIs(t, v, f, ']');
    ItemsStep(decode, t, i);
    if |items| > 1 { ItemsRead(decode, t, items[1..], f + 1, e); }
  }

  lemma {:induction false} ArrayRead(decode: Decoder, t: string, s: int, e: int)
    requires 0 <= s && s + 1 < e <= |t| && IsArray(decode, t, s + 1, e)
    ensures var p := SkipSpace(t, s + 1);
            p < |t| && if t[p] == ']' then p + 1 == e else Items(decode, t, p) == Some(e)
    decreases e - s - 1, 4
  {
    hide SkipSpace, Items, IsItems;
    if t[e - 1] == ']' && Blanks(t, s + 1, e - 1) { SkipIs(t, s + 1, e - 1); }
    else {
      var items :| IsItems(decode, t, items, s + 1, e);
      ItemsRead(decode, t, items, s + 1, e);
      SkipTwice(decode, t, s + 1);
    }
  }

  lemma {:induction false} ValueRead(decode: Decoder, t: string, n: Node, i: int, e: int)
    requires IsValue(decode, t, n, i, e)
    ensures 0 <= i < e <= |t| && Value(decode, t, i) == Some(At(n, e))
    decreases e - i, 0
  {
    hide SkipSpace, Members, Items, StringAt, Bare, IsMembers, IsArray, IsString, IsLiteral, IsNumber;
    ValueStart(decode, t, n, i, e);
    var s := n.start;
    match n
    case Object(_, _, ms) => ObjectRead(decode, t, ms, s, e);
    case Plain(kind, _, _) =>
      match kind {
        case ArrayKind => ArrayRead(decode, t, s, e);
        case StringKind => StringIs(decode, t, s, decode(t[s..e]).value, e);
        case LiteralKind => LiteralStart(t, s, e); BareIs(t, s, kind, e);
        case NumberKind => NumberStart(t, s, e); BareIs(t, s, kind, e);
      }
  }

  lemma {:induction false} MemberRead(decode: Decoder, t: string, m: Member, i: int, v: int)
    requires IsMember(decode, t, m, i, v)
    ensures 0 <= i < v <= |t| && MemberAt(decode, t, i) == Some(At(m, v))
    ensures SkipSpace(t, i) < |t| && t[SkipSpace(t, i)] == '"'
    decreases v - i, 1
  {
    hide SkipSpace, Value, IsValue, IsKey, KeyAt;
    var d :| i < d < v && IsKey(decode, t, m.key, i, d) && IsValue(decode, t, m.value, d, v);
    KeyRead(decode, t, m.key, i, d);
    ValueRead(decode, t, m.value, d, v);
  }

  lemma {:induction false} MembersRead(decode: Decoder, t: string, ms: seq<Member>, i: int, e: int)
    requires IsMembers(decode, t, ms, i, e)
    ensures 0 <= i < e <= |t| && Members(decode, t, i) == Some(At(ms, e))
    ensures SkipSpace(t, i) < |t| && t[SkipSpace(t, i)] == '"'
    decreases e - i, 2
  {
    hide SkipSpace, MemberAt, IsMember, Members, FollowAt, Blanks;
    var v, f :| 0 <= i < v <= f < e <= |t| && IsMember(decode, t, ms[0], i, v) && Blanks(t, v, f)
      && if |ms| == 1 then t[f] == '}' && e == f + 1 else t[f] == ',' && IsMembers(decode, t, ms[1..], f + 1, e);
    MemberRead(decode, t, ms[0], i, v);
    FollowIs(t, v, f, '}');
    MembersStep(decode, t, i);
    if |ms| > 1 {
      MembersRead(decode, t, ms[1..], f + 1, e);
      assert ms == [ms[0]] + ms[1..];
    } else {
      assert ms == [ms[0]];
    }
  }

  // ----- What is read is a layout

  lemma {:induction false} Skipped(t: string, i: int)
    requires 0 <= i <= |t|
    ensures Blanks(t, i, SkipSpace(t, i))
  {
    SkipIs(t, i, SkipSpace(t, i));
  }

  lemma {:induction false} FollowText(t: string, v: int, close: char)
    requires 0 <= v <= |t|
    ensures var r := FollowAt(t, v, close);
            && (!r.Neither? ==> v < r.next <= |t| && Blanks(t, v, r.next - 1))
            && (r.Close? ==> t[r.next - 1] == close) && (r.Comma? ==> t[r.next - 1] == ',')
  {
    Skipped(t, v);
  }

  lemma {:induction false} KeyText(decode: Decoder, t: string, i: int)
    requires 0 <= i <= |t| && KeyAt(decode, t, i).Some?
    ensures var r := KeyAt(decode, t, i).value; IsKey(decode, t, r.item, i, r.next)
  {
    hide StringAt, SkipSpace, IsString;
    var q := SkipSpace(t, i);
    Skipped(t, i);
    var key := StringAt(decode, t, q).value;
    StringIs(decode, t, q, key.item, key.next);
    Skipped(t, key.next);
  }

  lemma BareKind(t: string, s: int)
    requires 0 <= s < |t| && Bare(t, s).Some?
    ensures var v := Bare(t, s).value;
            v.item == Plain(v.item.kind, s, v.next) && (v.item.kind == LiteralKind || v.item.kind == NumberKind)
  {
  }

  lemma {:induction false} ObjectText(decode: Decoder, t: string, s: int)
    requires 0 <= s < |t| && t[s] == '{'
    ensures var p := SkipSpace(t, s + 1);
            p < |t| && t[p] == '}' ==> Blanks(t, s + 1, p) && DistinctKeys([])
    ensures var ms := Members(decode, t, SkipSpace(t, s + 1));
            ms.Some? ==>
              && ms.value.item != [] && t[ms.value.next - 1] == '}'
              && IsMembers(decode, t, ms.value.item, s + 1, ms.value.next)
    decreases |t| - s - 1, 4
  {
    hide SkipSpace, Members, IsMembers;
    Skipped(t, s + 1);
    SkipTwice(decode, t, s + 1);
    if Members(decode, t, s + 1).Some? { MembersText(decode, t, s + 1); }
  }

  lemma {:induction false} ItemsText(decode: Decoder, t: string, i: int) returns (items: seq<Node>)
    requires 0 <= i <= |t| && Items(decode, t, i).Some?
    ensures IsItems(decode, t, items, i, Items(decode, t, i).value)
    decreases |t| - i, 1
  {
    hide Value, IsValue, Items, FollowAt, Blanks;
    ItemsStep(decode, t, i);
    var v := Value(decode, t, i).value;
    ValueText(decode, t, i);
    FollowText(t, v.next, ']');
    var r := FollowAt(t, v.next, ']');
    if r.Close? {
      items := [v.item];
    } else {
      var rest := ItemsText(decode, t, r.next);
      items := [v.item] + rest;
      assert items[1..] == rest && rest != [];
    }
    assert Blanks(t, v.next, r.next - 1);
  }

  lemma {:induction false} ArrayText(decode: Decoder, t: string, s: int)
    requires 0 <= s < |t| && t[s] == '['
    ensures var p := SkipSpace(t, s + 1);
            p < |t| && t[p] == ']' ==> IsArray(decode, t, s + 1, p + 1)
    ensures var e := Items(decode, t, SkipSpace(t, s + 1)); e.Some? ==> IsArray(decode, t, s + 1, e.value)
    decreases |t| - s - 1, 4
  {
    hide SkipSpace, Items, IsItems;
    Skipped(t, s + 1);
    SkipTwice(decode, t, s + 1);
    if Items(decode, t, s + 1).Some? { var items := ItemsText(decode, t, s + 1); }
  }

  lemma {:induction false} ValueText(decode: Decoder, t: string, i: int)
    requires 0 <= i <= |t| && Value(decode, t, i).Some?
    ensures var v := Value(decode, t, i).value; IsValue(decode, t, v.item, i, v.next)
    decreases |t| - i, 0
  {
    hide SkipSpace, Members, Items, StringAt, Bare, IsMembers, IsArray, IsString, IsLiteral, IsNumber, DistinctKeys;
    Skipped(t, i);
    var s, v := SkipSpace(t, i), Value(decode, t, i).value;
    if t[s] == '{' || t[s] == '[' {
      Skipped(t, s + 1);
      if t[s] == '{' { ObjectText(decode, t, s); } else { ArrayText(decode, t, s); }
    } else if t[s] == '"' {
      var key := StringAt(decode, t, s).value;
      StringIs(decode, t, s, key.item, key.next);
    } else {
      BareIs(t, s, v.item.kind, v.next);
      BareKind(t, s);
    }
  }

  lemma {:induction false} MemberText(decode: Decoder, t: string, i: int)
    requires 0 <= i <= |t| && MemberAt(decode, t, i).Some?
    ensures var m := MemberAt(decode, t, i).value; IsMember(decode, t, m.item, i, m.next)
    decreases |t| - i, 1
  {
    hide Value, IsValue, KeyAt, IsKey;
    KeyText(decode, t, i);
    ValueText(decode, t, KeyAt(decode, t, i).value.next);
  }

  lemma {:induction false} MembersText(decode: Decoder, t: string, i: int)
    requires 0 <= i <= |t| && Members(decode, t, i).Some?
    ensures var r := Members(decode, t, i).value;
            r.item != [] && t[r.next - 1] == '}' && IsMembers(decode, t, r.item, i, r.next)
    decreases |t| - i, 2
  {
    hide MemberAt, IsMember, Members, FollowAt, Blanks;
    MembersStep(decode, t, i);
    var m, ms := MemberAt(decode, t, i).value, Members(decode, t, i).value;
    MemberText(decode, t, i);
    FollowText(t, m.next, '}');
    var r := FollowAt(t, m.next, '}');
    if r.Comma? {
      MembersText(decode, t, r.next);
      assert ms.item[1..] == Members(decode, t, r.next).value.item;
    }
    assert Blanks(t, m.next, r.next - 1);
  }

  // ----- The reader accepts exactly the layouts

  lemma ValueEnd(decode: Decoder, t: string, n: Node, i: int, e: int)
    requires IsValue(decode, t, n, i, e)
    ensures n.end == e
  {
  }

  lemma SkipAll(t: string, i: int)
    requires Blanks(t, i, |t|)
    ensures SkipSpace(t, i) == |t|
  {
    SkipIs(t, i, |t|);
  }

  /** A text is read as a tree if and only if it is a layout of that tree. */
  lemma ParsesExactly(decode: Decoder, t: string, n: Node)
    ensures Parse(decode, t) == Some(n) <==> IsDocument(decode, t, n)
  {
    hide Value, IsValue, SkipSpace, Blanks;
    if Parse(decode, t) == Some(n) {
      var e := Value(decode, t, 0).value.next;
      ValueText(decode, t, 0);
      ValueEnd(decode, t, n, 0, e);
      Skipped(t, e);
    }
    if IsDocument(decode, t, n) {
      ValueRead(decode, t, n, 0, n.end);
      SkipAll(t, n.end);
    }
  }
}

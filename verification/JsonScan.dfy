/**
 The JSON span reader of scripts/lib/template_sync.py.

 The specification is a family of functions over a text and an offset; the class
 `Scanner` is the source's `_JsonScanner`, whose methods move `index` step by step and
 are proved to compute exactly those functions.  Decoding of string escapes is Python's
 `json.loads`; it enters as the function value `decode`.
 */
module JsonScan {
  import opened Common

  /** `json.loads` on one quoted token: the decoded string, or a refusal. */
  type Decoder = string -> Option<string>

  datatype Kind = ArrayKind | StringKind | LiteralKind | NumberKind

  datatype Member = Member(key: string, value: Node)

  /** Only object nodes keep members; every other node is just a span. */
  datatype Node =
    | Object(start: int, end: int, members: seq<Member>)
    | Plain(kind: Kind, start: int, end: int)

  /** A scanned thing and the offset behind it. */
  datatype At<T> = At(item: T, next: int)

  predicate IsSpace(c: char) { c == ' ' || c == '\t' || c == '\r' || c == '\n' }

  predicate EndsNumber(c: char) { IsSpace(c) || c == ',' || c == ']' || c == '}' }

  function SkipSpace(t: string, i: int): (j: int)
    requires 0 <= i <= |t|
    ensures i <= j <= |t| && (j < |t| ==> !IsSpace(t[j]))
    decreases |t| - i
  {
    if i < |t| && IsSpace(t[i]) then SkipSpace(t, i + 1) else i
  }

  /** The offset behind the closing quote, scanning from inside a string. */
  function StringEnd(t: string, i: int): (r: Option<int>)
    requires 0 <= i <= |t|
    ensures r.Some? ==> i < r.value <= |t|
    decreases |t| - i
  {
    if i == |t| then None
    else if t[i] == '\\' then if i + 2 <= |t| then StringEnd(t, i + 2) else None
    else if t[i] == '"' then Some(i + 1)
    else StringEnd(t, i + 1)
  }

  function StringAt(decode: Decoder, t: string, i: int): (r: Option<At<string>>)
    requires 0 <= i <= |t|
    ensures r.Some? ==> i + 2 <= r.value.next <= |t| && t[i] == '"'
  {
    if i < |t| && t[i] == '"' then
      var e := StringEnd(t, i + 1);
      if e.None? then None
      else
        var key := decode(t[i..e.value]);
        if key.None? then None else Some(At(key.value, e.value))
    else None
  }

  function NumberEnd(t: string, i: int): (j: int)
    requires 0 <= i <= |t|
    ensures i <= j <= |t| && (j < |t| ==> EndsNumber(t[j]))
    decreases |t| - i
  {
    if i < |t| && !EndsNumber(t[i]) then NumberEnd(t, i + 1) else i
  }

  predicate StartsWith4(t: string, i: int, a: char, b: char, c: char, d: char)
    requires 0 <= i
  {
    i + 4 <= |t| && t[i] == a && t[i + 1] == b && t[i + 2] == c && t[i + 3] == d
  }

  /** The length of `true`, `false` or `null` at this offset, or zero. */
  function LiteralLength(t: string, i: int): (n: nat)
    requires 0 <= i
    ensures i + n <= |t| || n == 0
  {
    if StartsWith4(t, i, 't', 'r', 'u', 'e') then 4
    else if StartsWith4(t, i, 'f', 'a', 'l', 's') && i + 5 <= |t| && t[i + 4] == 'e' then 5
    else if StartsWith4(t, i, 'n', 'u', 'l', 'l') then 4
    else 0
  }

  /** What follows a value inside an object or array, and the offset behind it. */
  datatype Follow = Close(next: int) | Comma(next: int) | Neither

  function FollowAt(t: string, i: int, close: char): (r: Follow)
    requires 0 <= i <= |t|
    ensures !r.Neither? ==> i < r.next <= |t|
  {
    var w := SkipSpace(t, i);
    if w < |t| && t[w] == close then Close(w + 1)
    else if w < |t| && t[w] == ',' then Comma(w + 1)
    else Neither
  }

  predicate DistinctKeys(ms: seq<Member>) {
    forall j, k | 0 <= j < k < |ms| :: ms[j].key != ms[k].key
  }

  /** A number runs on, so where it ends matters to what follows. */
  predicate Bounded(t: string, n: Node, at: int)
    requires 0 <= at
  {
    n.Plain? && n.kind == NumberKind && at < |t| ==> EndsNumber(t[at])
  }

  /** A literal, or whatever runs up to the next delimiter. */
  function Bare(t: string, s: int): (r: Option<At<Node>>)
    requires 0 <= s < |t|
    ensures r.Some? ==> s < r.value.next <= |t| && r.value.item.Plain?
  {
    var n := LiteralLength(t, s);
    if n > 0 then Some(At(Plain(LiteralKind, s, s + n), s + n))
    else
      var e := NumberEnd(t, s);
      if e == s then None else Some(At(Plain(NumberKind, s, e), e))
  }

  /** A key and the offset behind its colon. */
  function KeyAt(decode: Decoder, t: string, i: int): (r: Option<At<string>>)
    requires 0 <= i <= |t|
    ensures r.Some? ==> i < r.value.next <= |t|
  {
    var key := StringAt(decode, t, SkipSpace(t, i));
    if key.None? then None
    else
      var c := SkipSpace(t, key.value.next);
      if c == |t| || t[c] != ':' then None else Some(At(key.value.item, c + 1))
  }

  /** The members of an object from the next key up to and including the brace; that
      their keys differ is checked by the object. */
  function Members(decode: Decoder, t: string, i: int): (r: Option<At<seq<Member>>>)
    requires 0 <= i <= |t|
    ensures r.Some? ==> i < r.value.next <= |t|
    decreases |t| - i, 2
  {
    var m := MemberAt(decode, t, i);
    if m.None? then None
    else
      match FollowAt(t, m.value.next, '}')
      case Close(e) => Some(At([m.value.item], e))
      case Comma(e) =>
        var rest := Members(decode, t, e);
        if rest.None? then None else Some(At([m.value.item] + rest.value.item, rest.value.next))
      case Neither => None
  }

  /** The offset behind the bracket of an array with at least one more element. */
  function Items(decode: Decoder, t: string, i: int): (r: Option<int>)
    requires 0 <= i <= |t|
    ensures r.Some? ==> i < r.value <= |t|
    decreases |t| - i, 1
  {
    var v := Value(decode, t, i);
    if v.None? then None
    else
      match FollowAt(t, v.value.next, ']')
      case Close(e) => Some(e)
      case Comma(e) => Items(decode, t, e)
      case Neither => None
  }

  /** One value, leading space included. */
  function Value(decode: Decoder, t: string, i: int): (r: Option<At<Node>>)
    requires 0 <= i <= |t|
    ensures r.Some? ==> i < r.value.next <= |t|
    decreases |t| - i, 0
  {
    var s := SkipSpace(t, i);
    if s == |t| then None
    else if t[s] == '{' then
      var p := SkipSpace(t, s + 1);
      if p < |t| && t[p] == '}' then Some(At(Object(s, p + 1, []), p + 1))
      else
        var ms := Members(decode, t, p);
        if ms.None? || !DistinctKeys(ms.value.item) then None
        else Some(At(Object(s, ms.value.next, ms.value.item), ms.value.next))
    else if t[s] == '[' then
      var p := SkipSpace(t, s + 1);
      if p < |t| && t[p] == ']' then Some(At(Plain(ArrayKind, s, p + 1), p + 1))
      else
        var e := Items(decode, t, p);
        if e.None? then None else Some(At(Plain(ArrayKind, s, e.value), e.value))
    else if t[s] == '"' then
      var e := StringAt(decode, t, s);
      if e.None? then None else Some(At(Plain(StringKind, s, e.value.next), e.value.next))
    else Bare(t, s)
  }

  /** One key, colon and value. */
  function MemberAt(decode: Decoder, t: string, i: int): (r: Option<At<Member>>)
    requires 0 <= i <= |t|
    ensures r.Some? ==> i < r.value.next <= |t|
    decreases |t| - i, 1
  {
    var key := KeyAt(decode, t, i);
    if key.None? then None
    else
      var v := Value(decode, t, key.value.next);
      if v.None? then None else Some(At(Member(key.value.item, v.value.item), v.value.next))
  }

  /** The whole document. */
  function Parse(decode: Decoder, t: string): Option<Node> {
    var v := Value(decode, t, 0);
    if v.Some? && SkipSpace(t, v.value.next) == |t| then Some(v.value.item) else None
  }

  // ----- Reading members one by one

  /** With `rest` still to come, `all` is what was read and `rest`. */
  predicate Leads(members: seq<Member>, rest: Option<At<seq<Member>>>, all: Option<At<seq<Member>>>) {
    all == if rest.None? then None else Some(At(members + rest.value.item, rest.value.next))
  }

  lemma LeadsAll(all: Option<At<seq<Member>>>)
    ensures Leads([], all, all) && DistinctKeys([])
  {
    if all.Some? { assert [] + all.value.item == all.value.item; }
  }

  lemma MembersStep(decode: Decoder, t: string, i: int)
    requires 0 <= i <= |t|
    ensures var m := MemberAt(decode, t, i);
            Members(decode, t, i) ==
            if m.None? then None
            else
              match FollowAt(t, m.value.next, '}')
              case Close(e) => Some(At([m.value.item], e))
              case Comma(e) =>
                var rest := Members(decode, t, e);
                if rest.None? then None else Some(At([m.value.item] + rest.value.item, rest.value.next))
              case Neither => None
  {
    hide MemberAt, FollowAt;
  }

  /** One member further. */
  lemma LeadsStep(decode: Decoder, t: string, i: int, members: seq<Member>, all: Option<At<seq<Member>>>)
    requires 0 <= i <= |t| && Leads(members, Members(decode, t, i), all)
    ensures var m := MemberAt(decode, t, i);
            if m.None? then all.None?
            else
              match FollowAt(t, m.value.next, '}')
              case Close(e) => all == Some(At(members + [m.value.item], e))
              case Comma(e) => Leads(members + [m.value.item], Members(decode, t, e), all)
              case Neither => all.None?
  {
    hide MemberAt, Members, FollowAt;
    MembersStep(decode, t, i);
    var m := MemberAt(decode, t, i);
    if m.Some? && FollowAt(t, m.value.next, '}').Comma? {
      var rest := Members(decode, t, FollowAt(t, m.value.next, '}').next);
      if rest.Some? {
        assert members + ([m.value.item] + rest.value.item) == members + [m.value.item] + rest.value.item;
      }
    }
  }

  /** A repeated key spoils the whole object. */
  lemma LeadsRepeat(decode: Decoder, t: string, i: int, members: seq<Member>, all: Option<At<seq<Member>>>)
    requires 0 <= i <= |t| && Leads(members, Members(decode, t, i), all) && MemberAt(decode, t, i).Some?
    requires exists k | 0 <= k < |members| :: members[k].key == MemberAt(decode, t, i).value.item.key
    ensures all.None? || !DistinctKeys(all.value.item)
  {
    hide MemberAt, Members, FollowAt;
    MembersStep(decode, t, i);
    var k :| 0 <= k < |members| && members[k].key == MemberAt(decode, t, i).value.item.key;
    if all.Some? {
      var whole, rest := all.value.item, Members(decode, t, i).value.item;
      assert whole[k] == members[k] && whole[|members|] == rest[0];
    }
  }

  lemma ItemsStep(decode: Decoder, t: string, i: int)
    requires 0 <= i <= |t|
    ensures var v := Value(decode, t, i);
            Items(decode, t, i) ==
            if v.None? then None
            else
              match FollowAt(t, v.value.next, ']')
              case Close(e) => Some(e)
              case Comma(e) => Items(decode, t, e)
              case Neither => None
  {
    hide Value, FollowAt;
  }

  lemma DistinctMore(members: seq<Member>, m: Member)
    requires DistinctKeys(members) && forall k | 0 <= k < |members| :: members[k].key != m.key
    ensures DistinctKeys(members + [m])
  {
  }

  // ----- The imperative reader

  class Scanner {
    const text: string
    const decode: Decoder
    var index: nat

    constructor (text: string, decode: Decoder)
      ensures this.text == text && this.decode == decode && index == 0
    {
      this.text, this.decode, this.index := text, decode, 0;
    }

    method Space()
      requires index <= |text|
      modifies this
      ensures index == SkipSpace(text, old(index))
    {
      while index < |text| && IsSpace(text[index])
        invariant index <= |text|
        invariant SkipSpace(text, index) == SkipSpace(text, old(index))
      {
        index := index + 1;
      }
    }

    method String() returns (r: Option<string>)
      requires index <= |text|
      modifies this
      ensures r.Some? <==> StringAt(decode, text, old(index)).Some?
      ensures r.Some? ==> At(r.value, index) == StringAt(decode, text, old(index)).value
    {
      var start := index;
      if index >= |text| || text[index] != '"' { return None; }
      index := index + 1;
      while index < |text|
        invariant start < index
        invariant index <= |text| ==> StringEnd(text, index) == StringEnd(text, start + 1)
        invariant index > |text| ==> StringEnd(text, start + 1).None?
      {
        var character := text[index];
        if character == '\\' {
          index := index + 2;
          continue;
        }
        index := index + 1;
        if character == '"' {
          return decode(text[start..index]);
        }
      }
      return None;
    }

    /** Literal and number tokens, once no structure or quote has been seen. */
    method ScanBare() returns (r: Option<Node>)
      requires index < |text|
      modifies this
      ensures r.Some? <==> Bare(text, old(index)).Some?
      ensures r.Some? ==> At(r.value, index) == Bare(text, old(index)).value
    {
      var start := index;
      var length := LiteralLength(text, start);
      if length > 0 {
        index := index + length;
        return Some(Plain(LiteralKind, start, index));
      }
      while index < |text| && !EndsNumber(text[index])
        invariant start <= index <= |text|
        invariant NumberEnd(text, index) == NumberEnd(text, start)
      {
        index := index + 1;
      }
      if index == start { return None; }
      return Some(Plain(NumberKind, start, index));
    }

    method ScanValue() returns (r: Option<Node>)
      requires index <= |text|
      modifies this
      ensures r.Some? <==> Value(decode, text, old(index)).Some?
      ensures r.Some? ==> At(r.value, index) == Value(decode, text, old(index)).value
      decreases |text| - index, 1
    {
      Space();
      var start := index;
      if start >= |text| { return None; }
      var character := text[start];
      if character == '{' {
        r := ScanObject();
      } else if character == '[' {
        r := ScanArray();
      } else if character == '"' {
        var value := String();
        if value.None? { return None; }
        return Some(Plain(StringKind, start, index));
      } else {
        r := ScanBare();
      }
    }

    method ScanObject() returns (r: Option<Node>)
      requires index < |text| && text[index] == '{'
      modifies this
      ensures r.Some? <==> Value(decode, text, old(index)).Some?
      ensures r.Some? ==> At(r.value, index) == Value(decode, text, old(index)).value
      decreases |text| - index, 0
    {
      var start := index;
      index := index + 1;
      Space();
      if index < |text| && text[index] == '}' {
        index := index + 1;
        return Some(Object(start, index, []));
      }
      var members := ScanMembers();
      if members.None? { return None; }
      return Some(Object(start, index, members.value));
    }

    method ScanMember() returns (r: Option<Member>)
      requires index <= |text|
      modifies this
      ensures r.Some? <==> MemberAt(decode, text, old(index)).Some?
      ensures r.Some? ==> At(r.value, index) == MemberAt(decode, text, old(index)).value
      decreases |text| - index, 1
    {
      Space();
      var key := String();
      if key.None? { return None; }
      Space();
      if index >= |text| || text[index] != ':' { return None; }
      index := index + 1;
      var value := ScanValue();
      if value.None? { return None; }
      return Some(Member(key.value, value.value));
    }

    method ScanMembers() returns (r: Option<seq<Member>>)
      requires index <= |text|
      modifies this
      ensures var all := Members(decode, text, old(index));
              if all.Some? && DistinctKeys(all.value.item) then r.Some? && At(r.value, index) == all.value else r.None?
      decreases |text| - index, 2
    {
      hide MemberAt, Members, DistinctKeys, Leads;
      ghost var all := Members(decode, text, index);
      var members: seq<Member> := [];
      LeadsAll(all);
      while true
        invariant old(index) <= index <= |text|
        invariant DistinctKeys(members) && Leads(members, Members(decode, text, index), all)
        decreases |text| - index
      {
        ghost var i, before := index, members;
        var member := ScanMember();
        MembersStep(decode, text, i);
        LeadsStep(decode, text, i, before, all);
        if member.None? { return None; }
        if exists k | 0 <= k < |members| :: members[k].key == member.value.key {
          LeadsRepeat(decode, text, i, members, all);
          return None;
        }
        DistinctMore(members, member.value);
        members := members + [member.value];
        Space();
        if index < |text| && text[index] == '}' {
          index := index + 1;
          return Some(members);
        }
        if index >= |text| || text[index] != ',' { return None; }
        index := index + 1;
      }
    }

    method ScanItems() returns (ok: bool)
      requires index <= |text|
      modifies this
      ensures ok <==> Items(decode, text, old(index)).Some?
      ensures ok ==> Some(index as int) == Items(decode, text, old(index))
      decreases |text| - index, 2
    {
      hide Value, Items;
      ghost var goal := Items(decode, text, index);
      while true
        invariant old(index) <= index <= |text|
        invariant Items(decode, text, index) == goal
        decreases |text| - index
      {
        ItemsStep(decode, text, index);
        var value := ScanValue();
        if value.None? { return false; }
        Space();
        if index < |text| && text[index] == ']' {
          index := index + 1;
          return true;
        }
        if index >= |text| || text[index] != ',' { return false; }
        index := index + 1;
      }
    }

    method ScanArray() returns (r: Option<Node>)
      requires index < |text| && text[index] == '['
      modifies this
      ensures r.Some? <==> Value(decode, text, old(index)).Some?
      ensures r.Some? ==> At(r.value, index) == Value(decode, text, old(index)).value
      decreases |text| - index, 0
    {
      hide Items;
      var start := index;
      index := index + 1;
      Space();
      if index < |text| && text[index] == ']' {
        index := index + 1;
        return Some(Plain(ArrayKind, start, index));
      }
      var ok := ScanItems();
      return if ok then Some(Plain(ArrayKind, start, index)) else None;
    }

    method ParseAll() returns (r: Option<Node>)
      requires index == 0
      modifies this
      ensures r == Parse(decode, text)
    {
      r := ScanValue();
      if r.None? { return; }
      Space();
      if index != |text| { return None; }
    }
  }
}

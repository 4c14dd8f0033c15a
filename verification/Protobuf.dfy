/**
 The bounded field reader (scripts/ci/validation-lock.py:148-181): base-128 varints and
 length-delimited fields, as in the sections "Base 128 Varints" and "Message Structure" of the
 Protocol Buffers encoding.
 */
module Protobuf {
  import opened Common

  newtype byte = x: int | 0 <= x < 256

  type Bytes = seq<byte>

  datatype Refusal = Truncated | Overflow | Unterminated | Unsupported | TruncatedField

  datatype Value = Varint(number: nat) | Blob(bytes: Bytes)

  datatype Field = Field(tag: nat, value: Value)

  const LIMIT: nat := 0x1_0000_0000_0000_0000

  // ----- The wire format -----

  function Low(b: byte): nat { (b % 128) as nat }

  /** Seven bits a byte, low group first. */
  function Groups(s: Bytes): nat {
    if s == [] then 0 else Low(s[0]) + 128 * Groups(s[1..])
  }

  /** Every byte but the last carries the continuation bit. */
  predicate Terminated(t: Bytes) { t != [] && t[|t| - 1] < 128 && forall i :: 0 <= i < |t| - 1 ==> t[i] >= 128 }

  predicate IsVarint(t: Bytes, n: nat) { Terminated(t) && |t| <= 10 && Groups(t) == n < LIMIT }

  function Wire(v: Value): nat { if v.Varint? then 0 else 2 }

  function Payload(v: Value): Bytes { if v.Varint? then [] else v.bytes }

  function Announced(v: Value): nat { if v.Varint? then v.number else |v.bytes| }

  /** A tag, a number or length, and the bytes of a length-delimited value. */
  ghost predicate IsField(b: Bytes, f: Field) {
    f.tag > 0 && exists t, v ::
        IsVarint(t, 8 * f.tag + Wire(f.value)) && IsVarint(v, Announced(f.value)) && b == t + v + Payload(f.value)
  }

  ghost predicate IsMessage(b: Bytes, fs: seq<Field>)
    decreases |fs|
  {
    if fs == [] then b == [] else exists x, y :: b == x + y && IsField(x, fs[0]) && IsMessage(y, fs[1..])
  }

  // ----- Reading -----

  /** Length of the varint at the start, if it ends. */
  function Span(s: Bytes): (n: Option<nat>)
    ensures n.Some? ==> n.value <= |s| && Terminated(s[..n.value])
    ensures n.None? ==> forall i :: 0 <= i < |s| ==> s[i] >= 128
  {
    if s == [] then None
    else if s[0] < 128 then Some(1)
    else
      var rest := Span(s[1..]);
      if rest.None? then None else
      assert s[..1 + rest.value] == [s[0]] + s[1..][..rest.value];
      Some(1 + rest.value)
  }

  /** Value and length of the varint at the start. */
  function VarintAt(s: Bytes): Result<(nat, nat), Refusal> {
    var n := Span(s);
    if n.Some? && n.value <= 10 then
      if Groups(s[..n.value]) < LIMIT then Ok((Groups(s[..n.value]), n.value)) else Err(Overflow)
    else if |s| < 10 then Err(Truncated)
    else Err(Overflow)
  }

  /** One field and what is left behind it. */
  function FieldAt(s: Bytes): (r: Result<(Field, Bytes), Refusal>)
    ensures r.Ok? ==> |r.value.1| < |s|
  {
    var tag := VarintAt(s);
    if tag.Err? then Err(tag.error)
    else if tag.value.0 / 8 == 0 || (tag.value.0 % 8 != 0 && tag.value.0 % 8 != 2) then Err(Unsupported)
    else
      var rest := s[tag.value.1..];
      var v := VarintAt(rest);
      if v.Err? then Err(v.error)
      else if tag.value.0 % 8 == 0 then Ok((Field(tag.value.0 / 8, Varint(v.value.0)), rest[v.value.1..]))
      else if v.value.0 > |rest| - v.value.1 then Err(TruncatedField)
      else Ok((Field(tag.value.0 / 8, Blob(rest[v.value.1..][..v.value.0])), rest[v.value.1..][v.value.0..]))
  }

  function Parse(s: Bytes): Result<seq<Field>, Refusal>
    decreases |s|
  {
    if s == [] then Ok([])
    else
      var f := FieldAt(s);
      if f.Err? then Err(f.error)
      else
        var rest := Parse(f.value.1);
        if rest.Err? then rest else Ok([f.value.0] + rest.value)
  }

  function Pow128(k: nat): nat { if k == 0 then 1 else 128 * Pow128(k - 1) }

  lemma {:induction false} GroupsAppend(a: Bytes, b: byte)
    ensures Groups(a + [b]) == Groups(a) + Pow128(|a|) * Low(b)
  {
    if a == [] {
      assert a + [b] == [b];
      assert [b][1..] == [];
    } else {
      GroupsAppend(a[1..], b);
      assert (a + [b])[1..] == a[1..] + [b];
      assert 128 * (Pow128(|a| - 1) * Low(b)) == Pow128(|a|) * Low(b);
    }
  }

  lemma {:induction false} GroupsBound(a: Bytes)
    ensures Groups(a) < Pow128(|a|)
  {
    if a != [] { GroupsBound(a[1..]); }
  }

  lemma Powers()
    ensures Pow128(9) == 0x8000_0000_0000_0000 && Pow128(10) == 128 * Pow128(9)
  {
    assert Pow128(4) == 0x1000_0000;
    assert Pow128(8) == Pow128(4) * 0x1000_0000;
  }

  lemma {:induction false} SpanIs(s: Bytes, n: nat)
    requires n <= |s| && Terminated(s[..n])
    ensures Span(s) == Some(n)
  {
    var t := s[..n];
    if n > 1 {
      assert s[0] == t[0] && t[0] >= 128;
      assert s[1..][..n - 1] == t[1..];
      SpanIs(s[1..], n - 1);
    } else { assert s[0] == t[0]; }
  }

  lemma {:induction false} PowMonotone(a: nat, b: nat)
    requires a <= b
    ensures Pow128(a) <= Pow128(b)
    decreases b
  {
    if a < b { PowMonotone(a, b - 1); }
  }

  /** A varint of at most ten bytes whose tenth is at most 1 fits 64 bits. */
  lemma FitsLimit(t: Bytes)
    requires t != [] && |t| <= 10
    ensures Groups(t) < LIMIT <==> |t| < 10 || Low(t[9]) <= 1
  {
    hide Groups, Pow128;
    var n := |t| - 1;
    assert t == t[..n] + [t[n]];
    GroupsAppend(t[..n], t[n]);
    GroupsBound(t[..n]);
    GroupsBound(t);
    Powers();
    if n < 9 { PowMonotone(n + 1, 9); }
  }

  lemma Stops(s: Bytes, n: nat)
    requires 1 <= n <= |s| && n <= 10 && s[n - 1] < 128 && (forall i :: 0 <= i < n - 1 ==> s[i] >= 128)
             && (n == 10 ==> s[9] <= 1)
    ensures Groups(s[..n]) < LIMIT && VarintAt(s) == Ok((Groups(s[..n]), n))
  {
    hide Groups;
    assert Terminated(s[..n]);
    SpanIs(s, n);
    FitsLimit(s[..n]);
  }

  lemma Ends(s: Bytes)
    requires |s| < 10 && forall i :: 0 <= i < |s| ==> s[i] >= 128
    ensures VarintAt(s) == Err(Truncated)
  {
  }

  lemma LongSpan(s: Bytes, n: nat)
    requires |s| >= 10 && (forall i :: 0 <= i < 10 ==> s[i] >= 128) && n <= |s| && Terminated(s[..n])
    ensures n > 10
  {
    assert s[..n][n - 1] == s[n - 1];
  }

  lemma TooLarge(s: Bytes)
    requires |s| >= 10 && s[9] > 1 && forall i :: 0 <= i < 9 ==> s[i] >= 128
    ensures VarintAt(s) == Err(Overflow)
  {
    hide Groups;
    if s[9] < 128 {
      assert Terminated(s[..10]);
      SpanIs(s, 10);
      FitsLimit(s[..10]);
    } else if Span(s).Some? {
      LongSpan(s, Span(s).value);
    }
  }

  lemma Nothing(data: Bytes, start: nat)
    requires start <= |data|
    ensures Groups(data[start..start]) == 0 && Pow128(0) == 1
  {
  }

  lemma PowStep(k: nat)
    ensures Pow128(k + 1) == Pow128(k) * 128
  {
  }

  // ----- The reader's loops -----

  method ReadVarint(data: Bytes, start: nat) returns (r: Result<nat, Refusal>, offset: nat)
    requires start <= |data|
    ensures r.Ok? ==> VarintAt(data[start..]) == Ok((r.value, offset - start))
    ensures r.Ok? ==> start < offset <= |data| && r.value < LIMIT
    ensures r.Err? ==> VarintAt(data[start..]) == Err(r.error) && !r.error.Unterminated?
  {
    hide VarintAt, Groups, Pow128, Span;
    offset := start;
    var value := 0;
    var weight := 1;
    var k := 0;
    Nothing(data, start);
    while k < 10
      invariant k <= 10 && offset == start + k <= |data|
      invariant weight == Pow128(k) && value == Groups(data[start..offset])
      invariant forall i :: start <= i < offset ==> data[i] >= 128
      invariant k == 10 ==> data[offset - 1] <= 1
    {
      if offset >= |data| {
        assert |data[start..]| == k;
        Ends(data[start..]);
        return Err(Truncated), offset;
      }
      var b := data[offset];
      offset := offset + 1;
      assert data[start..offset] == data[start..offset - 1] + [b];
      GroupsAppend(data[start..offset - 1], b);
      if k == 9 && b > 1 {
        TooLarge(data[start..]);
        return Err(Overflow), offset;
      }
      value := value + Low(b) * weight;
      if b < 128 {
        Stops(data[start..], k + 1);
        assert data[start..][..k + 1] == data[start..offset];
        return Ok(value), offset;
      }
      PowStep(k);
      weight := weight * 128;
      k := k + 1;
    }
    assert false;
  }

  /** What a later part parses to, behind the fields read so far. */
  function Behind(fields: seq<Field>, rest: Result<seq<Field>, Refusal>): Result<seq<Field>, Refusal> {
    if rest.Err? then rest else Ok(fields + rest.value)
  }

  lemma BehindNothing(data: Bytes)
    ensures Parse(data) == Behind([], Parse(data))
  {
    hide Parse;
    var p := Parse(data);
    if p.Ok? { assert [] + p.value == p.value; }
  }

  lemma BehindField(fields: seq<Field>, s: Bytes)
    requires s != [] && FieldAt(s).Ok?
    ensures Behind(fields, Parse(s)) == Behind(fields + [FieldAt(s).value.0], Parse(FieldAt(s).value.1))
  {
    hide FieldAt;
    var f := FieldAt(s).value;
    var p := Parse(f.1);
    if p.Ok? { assert fields + ([f.0] + p.value) == fields + [f.0] + p.value; }
  }

  /** One field from the current offset. */
  method ReadField(data: Bytes, start: nat) returns (r: Result<Field, Refusal>, offset: nat)
    requires start < |data|
    ensures r.Ok? ==> start < offset <= |data| && FieldAt(data[start..]) == Ok((r.value, data[offset..]))
    ensures r.Err? ==> FieldAt(data[start..]) == Err(r.error) && !r.error.Unterminated?
  {
    hide VarintAt;
    ghost var s := data[start..];
    var tag, number;
    tag, offset := ReadVarint(data, start);
    if tag.Err? { return Err(tag.error), offset; }
    if tag.value / 8 == 0 || (tag.value % 8 != 0 && tag.value % 8 != 2) { return Err(Unsupported), offset; }
    ghost var middle := offset;
    assert s[middle - start..] == data[middle..];
    number, offset := ReadVarint(data, offset);
    if number.Err? { return Err(number.error), offset; }
    assert data[middle..][offset - middle..] == data[offset..];
    if tag.value % 8 == 0 { return Ok(Field(tag.value / 8, Varint(number.value))), offset; }
    if number.value > |data| - offset { return Err(TruncatedField), offset; }
    var value := data[offset..offset + number.value];
    assert data[offset..][..number.value] == value && data[offset..][number.value..] == data[offset + number.value..];
    return Ok(Field(tag.value / 8, Blob(value))), offset + number.value;
  }

  method Fields(data: Bytes) returns (r: Result<seq<Field>, Refusal>)
    ensures r == Parse(data) && !(r.Err? && r.error.Unterminated?)
  {
    hide FieldAt;
    var offset, fields := 0, [];
    assert data[0..] == data;
    BehindNothing(data);
    while offset < |data|
      invariant offset <= |data| && Parse(data) == Behind(fields, Parse(data[offset..]))
      decreases |data| - offset
    {
      ghost var s := data[offset..];
      var field;
      field, offset := ReadField(data, offset);
      if field.Err? { return Err(field.error); }
      BehindField(fields, s);
      fields := fields + [field.value];
    }
    assert data[offset..] == [] && fields + [] == fields;
    return Ok(fields);
  }

  // ----- Reading accepts exactly the wire format -----

  /** The varint in front does not depend on what follows it. */
  lemma VarintRead(t: Bytes, rest: Bytes, n: nat)
    requires IsVarint(t, n)
    ensures VarintAt(t + rest) == Ok((n, |t|))
  {
    assert (t + rest)[..|t|] == t;
    SpanIs(t + rest, |t|);
  }

  lemma VarintIs(s: Bytes)
    requires VarintAt(s).Ok?
    ensures var (n, k) := VarintAt(s).value; k <= |s| && IsVarint(s[..k], n)
  {
  }

  lemma FieldRead(b: Bytes, f: Field, rest: Bytes)
    requires IsField(b, f)
    ensures FieldAt(b + rest) == Ok((f, rest)) && b != []
  {
    hide VarintAt, IsVarint;
    var t, v :| IsVarint(t, 8 * f.tag + Wire(f.value)) && IsVarint(v, Announced(f.value))
        && b == t + v + Payload(f.value);
    var tail := Payload(f.value) + rest;
    assert b + rest == t + (v + tail);
    VarintRead(t, v + tail, 8 * f.tag + Wire(f.value));
    assert (b + rest)[|t|..] == v + tail;
    VarintRead(v, tail, Announced(f.value));
    assert (v + tail)[|v|..] == tail;
    if f.value.Blob? { assert tail[..|f.value.bytes|] == f.value.bytes && tail[|f.value.bytes|..] == rest; }
    else { assert tail == rest; }
  }

  lemma FieldIs(s: Bytes)
    requires FieldAt(s).Ok?
    ensures var (f, rest) := FieldAt(s).value;
            |rest| < |s| && s[|s| - |rest|..] == rest && IsField(s[..|s| - |rest|], f)
  {
    hide VarintAt, IsVarint;
    var (f, rest) := FieldAt(s).value;
    VarintIs(s);
    var (n, k) := VarintAt(s).value;
    VarintIs(s[k..]);
    var (m, j) := VarintAt(s[k..]).value;
    var t, v := s[..k], s[k..][..j];
    assert n == 8 * f.tag + Wire(f.value) && m == Announced(f.value);
    assert s[..|s| - |rest|] == t + v + Payload(f.value);
  }

  lemma {:induction false} MessageRead(b: Bytes, fs: seq<Field>)
    requires IsMessage(b, fs)
    ensures Parse(b) == Ok(fs)
    decreases |fs|
  {
    hide FieldAt, IsField;
    if fs != [] {
      var x, y :| b == x + y && IsField(x, fs[0]) && IsMessage(y, fs[1..]);
      FieldRead(x, fs[0], y);
      MessageRead(y, fs[1..]);
      assert b != [] && [fs[0]] + fs[1..] == fs;
    }
  }

  lemma {:induction false} MessageIs(b: Bytes)
    requires Parse(b).Ok?
    ensures IsMessage(b, Parse(b).value)
    decreases |b|
  {
    hide FieldAt, IsField;
    if b != [] {
      FieldIs(b);
      var (f, rest) := FieldAt(b).value;
      MessageIs(rest);
      var fs := Parse(b).value;
      assert fs[0] == f && fs[1..] == Parse(rest).value;
      assert b == b[..|b| - |rest|] + rest;
    }
  }

  /** The reader accepts a byte string as these fields exactly when it is a wire encoding of them. */
  lemma ReadsExactly(b: Bytes, fs: seq<Field>)
    ensures Parse(b) == Ok(fs) <==> IsMessage(b, fs)
  {
    hide Parse, IsMessage;
    if Parse(b) == Ok(fs) { MessageIs(b); }
    if IsMessage(b, fs) { MessageRead(b, fs); }
  }

  // ----- The canonical encoder -----

  function EncodeVarint(n: nat): Bytes {
    if n < 128 then [n as byte] else [(n % 128 + 128) as byte] + EncodeVarint(n / 128)
  }

  function EncodeField(f: Field): Bytes {
    EncodeVarint(8 * f.tag + Wire(f.value)) + EncodeVarint(Announced(f.value)) + Payload(f.value)
  }

  function EncodeMessage(fs: seq<Field>): Bytes { if fs == [] then [] else EncodeField(fs[0]) + EncodeMessage(fs[1..]) }

  /** Valid field numbers and values below 2^64. */
  predicate Encodable(f: Field) { f.tag > 0 && 8 * f.tag + Wire(f.value) < LIMIT && Announced(f.value) < LIMIT }

  lemma {:induction false} EncodedGroups(n: nat)
    ensures Terminated(EncodeVarint(n)) && Groups(EncodeVarint(n)) == n
  {
    if n >= 128 {
      EncodedGroups(n / 128);
      assert EncodeVarint(n)[1..] == EncodeVarint(n / 128);
    } else {
      assert EncodeVarint(n)[1..] == [];
    }
  }

  lemma {:induction false} EncodedLength(n: nat, k: nat)
    requires k > 0 && n < Pow128(k)
    ensures |EncodeVarint(n)| <= k
  {
    if n >= 128 { EncodedLength(n / 128, k - 1); }
  }

  lemma EncodedVarint(n: nat)
    requires n < LIMIT
    ensures IsVarint(EncodeVarint(n), n)
  {
    EncodedGroups(n);
    Powers();
    EncodedLength(n, 10);
  }

  /** Reading inverts the canonical encoder. */
  lemma {:induction false} RoundTrip(fs: seq<Field>)
    requires forall f <- fs :: Encodable(f)
    ensures IsMessage(EncodeMessage(fs), fs) && Parse(EncodeMessage(fs)) == Ok(fs)
    decreases |fs|
  {
    hide IsVarint, Parse, EncodeVarint;
    if fs != [] {
      RoundTrip(fs[1..]);
      var f := fs[0];
      assert f in fs;
      EncodedVarint(8 * f.tag + Wire(f.value));
      EncodedVarint(Announced(f.value));
      assert IsField(EncodeField(f), f);
    }
    ReadsExactly(EncodeMessage(fs), fs);
  }
}

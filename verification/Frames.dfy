/**
 The two-frame cancellation channel (scripts/ci/validation-lock.py:338-351, 402-428): the frame
 text, and a receiver that reads the pipe in arbitrary pieces.
 */
module Frames {
  import opened Common
  import C = ChildScope

  type Bytes = string

  datatype Grant = Grant(sequence: nat, signum: nat, deadline: nat)

  const SIGINT := 2

  const SIGKILL := 9

  const SIGTERM := 15

  const LAST_DEADLINE := 0x7fff_ffff_ffff_ffff

  // ----- Decimal numbers -----

  predicate Digit(c: char) { '0' <= c <= '9' }

  predicate Digits(s: Bytes) { forall c <- s :: Digit(c) }

  function Decimal(n: nat): Bytes {
    if n < 10 then ['0' + n as char] else Decimal(n / 10) + ['0' + (n % 10) as char]
  }

  function Number(s: Bytes): nat
    requires Digits(s)
  {
    if s == [] then 0
    else
      assert Digit(s[|s| - 1]);
      Number(s[..|s| - 1]) * 10 + (s[|s| - 1] - '0') as nat
  }

  function Pow10(k: nat): nat { if k == 0 then 1 else 10 * Pow10(k - 1) }

  lemma {:induction false} DecimalInverse(n: nat)
    ensures Digits(Decimal(n)) && Number(Decimal(n)) == n && Decimal(n) != []
  {
    if n >= 10 {
      DecimalInverse(n / 10);
      assert Decimal(n)[..|Decimal(n)| - 1] == Decimal(n / 10);
    } else {
      assert Decimal(n)[..0] == [];
    }
  }

  lemma {:induction false} DecimalLength(n: nat, k: nat)
    requires k > 0 && n < Pow10(k)
    ensures |Decimal(n)| <= k
  {
    if n >= 10 { DecimalLength(n / 10, k - 1); }
  }

  // ----- Frames -----

  function Head(fields: seq<Bytes>): Bytes { if fields == [] then [] else fields[0] }

  function Tail(fields: seq<Bytes>): seq<Bytes> { if fields == [] then [] else fields[1..] }

  function Split(s: Bytes): seq<Bytes> {
    if s == [] then [[]]
    else
      var rest := Split(s[1..]);
      if s[0] == ' ' then [[]] + rest else [[s[0]] + Head(rest)] + Tail(rest)
  }

  const MAGIC: Bytes := "QSC1 "

  /** The frame pattern: the magic word, one of two sequence digits, 1-2 and 1-19 decimal digits. */
  function Parse(frame: Bytes): Option<Grant> {
    if !(|frame| >= 5 && frame[..5] == MAGIC) then None
    else
      var f := Split(frame[5..]);
      if |f| == 3 && (f[0] == "1" || f[0] == "2")
         && Digits(f[1]) && 1 <= |f[1]| <= 2 && Digits(f[2]) && 1 <= |f[2]| <= 19
      then Some(Grant(if f[0] == "1" then 1 else 2, Number(f[1]), Number(f[2])))
      else None
  }

  /** What `signal_scope` writes. */
  function Line(g: Grant): Bytes { MAGIC + Decimal(g.sequence) + " " + Decimal(g.signum) + " " + Decimal(g.deadline) }

  function Encode(g: Grant): Bytes { Line(g) + "\n" }

  predicate Sendable(g: Grant) { 1 <= g.sequence <= 2 && g.signum < 100 && g.deadline <= LAST_DEADLINE }

  lemma {:induction false} SplitField(a: Bytes, rest: Bytes)
    requires ' ' !in a
    ensures Split(a + " " + rest) == [a] + Split(rest)
  {
    if a == [] {
      assert a + " " + rest == " " + rest;
    } else {
      SplitField(a[1..], rest);
      var s := a + " " + rest;
      assert s[1..] == a[1..] + " " + rest;
      assert [a[0]] + a[1..] == a;
    }
  }

  lemma {:induction false} SplitLast(a: Bytes)
    requires ' ' !in a
    ensures Split(a) == [a]
  {
    if a != [] {
      SplitLast(a[1..]);
      assert [a[0]] + a[1..] == a;
    }
  }

  lemma SmallDecimals()
    ensures Decimal(1) == "1" && Decimal(2) == "2"
  {
  }

  lemma Widths(g: Grant)
    requires Sendable(g)
    ensures |Decimal(g.sequence)| <= 1 && |Decimal(g.signum)| <= 2 && |Decimal(g.deadline)| <= 19
  {
    assert Pow10(1) == 10 && Pow10(2) == 100 && Pow10(5) == 100_000;
    assert Pow10(10) == 100_000 * Pow10(5) && Pow10(15) == 100_000 * Pow10(10) && Pow10(19) == 10_000 * Pow10(15);
    DecimalLength(g.sequence, 1);
    DecimalLength(g.signum, 2);
    DecimalLength(g.deadline, 19);
  }

  /** Decoding inverts encoding, and a frame is short enough for the channel. */
  lemma ParseInverse(g: Grant)
    requires Sendable(g)
    ensures Parse(Line(g)) == Some(g) && |Encode(g)| <= 30 && '\n' !in Line(g)
  {
    hide Split, Decimal, Number, Pow10;
    var a, b, c := Decimal(g.sequence), Decimal(g.signum), Decimal(g.deadline);
    DecimalInverse(g.sequence);
    DecimalInverse(g.signum);
    DecimalInverse(g.deadline);
    Widths(g);
    SmallDecimals();
    assert Line(g)[5..] == a + " " + (b + " " + c);
    SplitField(a, b + " " + c);
    SplitField(b, c);
    SplitLast(c);
  }

  /** The frame pattern: the word, a sequence of 1 or 2, a number of one or two digits and one of up to
      nineteen, with single spaces between them. */
  ghost predicate IsFrame(frame: Bytes, g: Grant) {
    exists a, b, c ::
      && frame == "QSC1 " + a + " " + b + " " + c && (a == "1" || a == "2")
      && Digits(b) && 1 <= |b| <= 2 && Digits(c) && 1 <= |c| <= 19
      && g == Grant(if a == "1" then 1 else 2, Number(b), Number(c))
  }

  function Join(fields: seq<Bytes>): Bytes {
    if fields == [] then [] else if |fields| == 1 then fields[0] else fields[0] + " " + Join(fields[1..])
  }

  lemma JoinSpace(rest: seq<Bytes>)
    requires rest != []
    ensures Join([[]] + rest) == " " + Join(rest)
  {
    assert ([[]] + rest)[1..] == rest;
    assert [] + " " + Join(rest) == " " + Join(rest);
  }

  lemma JoinChar(c: char, rest: seq<Bytes>)
    requires rest != []
    ensures Join([[c] + rest[0]] + rest[1..]) == [c] + Join(rest)
  {
    var all := [[c] + rest[0]] + rest[1..];
    assert all[1..] == rest[1..];
    if |rest| > 1 {
      assert [c] + rest[0] + " " + Join(rest[1..]) == [c] + (rest[0] + " " + Join(rest[1..]));
    }
  }

  lemma JoinOne(a: Bytes)
    ensures Join([a]) == a
  {
  }

  lemma {:induction false} SplitJoin(s: Bytes)
    ensures Split(s) != [] && Join(Split(s)) == s
  {
    hide Join;
    if s == [] {
      JoinOne([]);
    } else {
      var rest := Split(s[1..]);
      SplitJoin(s[1..]);
      assert [s[0]] + s[1..] == s;
      if s[0] == ' ' { JoinSpace(rest); } else { JoinChar(s[0], rest); }
    }
  }

  lemma JoinThree(a: Bytes, b: Bytes, c: Bytes)
    ensures Join([a, b, c]) == a + " " + (b + " " + c)
  {
    assert [a, b, c][1..] == [b, c] && [b, c][1..] == [c];
    JoinOne(c);
    assert Join([b, c]) == b + " " + Join([c]);
    assert Join([a, b, c]) == a + " " + Join([b, c]);
  }

  lemma FrameParts(a: Bytes, b: Bytes, c: Bytes)
    ensures var frame := "QSC1 " + a + " " + b + " " + c;
      |frame| >= 5 && frame[..5] == "QSC1 " && frame[5..] == a + " " + (b + " " + c)
  {
  }

  lemma ParsedFrame(frame: Bytes)
    requires Parse(frame).Some?
    ensures IsFrame(frame, Parse(frame).value)
  {
    hide Split, Number, Join;
    var f := Split(frame[5..]);
    var a, b, c := f[0], f[1], f[2];
    SplitJoin(frame[5..]);
    JoinThree(a, b, c);
    assert f == [a, b, c];
    FrameParts(a, b, c);
    assert frame == frame[..5] + frame[5..];
    var whole := "QSC1 " + a + " " + b + " " + c;
    assert whole == whole[..5] + whole[5..];
  }

  lemma FrameParsed(frame: Bytes, g: Grant)
    requires IsFrame(frame, g)
    ensures Parse(frame) == Some(g)
  {
    hide Split, Number;
    var a, b, c :| && frame == "QSC1 " + a + " " + b + " " + c && (a == "1" || a == "2")
                   && Digits(b) && 1 <= |b| <= 2 && Digits(c) && 1 <= |c| <= 19
                   && g == Grant(if a == "1" then 1 else 2, Number(b), Number(c));
    FrameParts(a, b, c);
    SplitField(a, b + " " + c);
    SplitField(b, c);
    SplitLast(c);
  }

  /** The decoder accepts exactly the frame pattern. */
  lemma ParsesExactly(frame: Bytes, g: Grant)
    ensures Parse(frame) == Some(g) <==> IsFrame(frame, g)
  {
    if Parse(frame) == Some(g) { ParsedFrame(frame); }
    if IsFrame(frame, g) { FrameParsed(frame, g); }
  }

  // ----- The receiver -----

  /** `granted` is every grant ever queued; `pending` loses those taken up. */
  datatype Receiver = Receiver(
    buffer: Bytes, last: nat, stop: Option<nat>, error: bool, pending: seq<Grant>, granted: seq<Grant>)

  const EMPTY := Receiver([], 0, None, false, [], [])

  /** The order and deadline rules; `near` says whether a first deadline is near enough. */
  predicate Admissible(r: Receiver, g: Grant, near: nat -> bool) {
    && g.sequence == r.last + 1 && 0 < g.deadline <= LAST_DEADLINE
    && (g.sequence == 1 ==> near(g.deadline) && (g.signum == SIGINT || g.signum == SIGTERM))
    && (g.sequence == 2 ==> g.signum == SIGKILL && r.stop == Some(g.deadline))
  }

  function Handle(r: Receiver, frame: Bytes, near: nat -> bool): Receiver {
    var p := Parse(frame);
    if |frame| + 1 > 128 || p.None? then r.(error := true)
    else if !Admissible(r, p.value, near) then r.(error := true)
    else
      var t := r.(last := p.value.sequence, stop := if p.value.sequence == 1 then Some(p.value.deadline) else r.stop);
      if r.error then t else t.(pending := r.pending + [p.value], granted := r.granted + [p.value])
  }

  /** Position of the first line end, or the length. */
  function LineEnd(s: Bytes): (k: nat)
    ensures k <= |s| && '\n' !in s[..k] && (k < |s| ==> s[k] == '\n')
  {
    if s == [] then 0 else if s[0] == '\n' then 0
    else
      var k := 1 + LineEnd(s[1..]);
      assert s[..k] == [s[0]] + s[1..][..k - 1];
      k
  }

  /** Take up every complete line of the buffer. */
  function Drained(r: Receiver, near: nat -> bool): Receiver
    decreases |r.buffer|
  {
    var k := LineEnd(r.buffer);
    if k == |r.buffer| then r
    else
      var t := Handle(r, r.buffer[..k], near);
      Drained(t.(buffer := r.buffer[k + 1..]), near)
  }

  /** The partial-line rule behind the loop. */
  function Trimmed(r: Receiver, eof: bool): Receiver {
    if |r.buffer| > 127 || (eof && r.buffer != []) then r.(error := true, buffer := []) else r
  }

  function Fed(r: Receiver, data: Bytes, near: nat -> bool): Receiver {
    Trimmed(Drained(r.(buffer := r.buffer + data), near), false)
  }

  /** Reads in the given pieces. */
  function FedAll(r: Receiver, pieces: seq<Bytes>, near: nat -> bool): Receiver
    decreases |pieces|
  {
    if pieces == [] then r else FedAll(Fed(r, pieces[0], near), pieces[1..], near)
  }

  function Flat(pieces: seq<Bytes>): Bytes { if pieces == [] then [] else pieces[0] + Flat(pieces[1..]) }

  // ----- However the bytes are split -----

  /** What the session loop acts on. */
  predicate Alike(r: Receiver, t: Receiver) {
    r.error == t.error && r.pending == t.pending && r.granted == t.granted && (!r.error ==> r == t)
  }

  lemma LineEndAppend(a: Bytes, b: Bytes)
    ensures LineEnd(a + b) == if LineEnd(a) < |a| then LineEnd(a) else |a| + LineEnd(b)
  {
    if a == [] {
      assert a + b == b;
    } else {
      assert (a + b)[1..] == a[1..] + b;
      LineEndAppend(a[1..], b);
    }
  }

  lemma HandleBuffer(r: Receiver, b: Bytes, frame: Bytes, near: nat -> bool)
    ensures Handle(r.(buffer := b), frame, near) == Handle(r, frame, near).(buffer := b)
  {
    hide Parse;
  }

  lemma {:induction false} DrainedAppend(r: Receiver, more: Bytes, near: nat -> bool)
    ensures var d := Drained(r, near);
            Drained(r.(buffer := r.buffer + more), near) == Drained(d.(buffer := d.buffer + more), near)
    decreases |r.buffer|
  {
    hide Handle, LineEnd;
    var k := LineEnd(r.buffer);
    if k < |r.buffer| {
      LineEndAppend(r.buffer, more);
      var b := r.buffer + more;
      assert b[..k] == r.buffer[..k] && b[k + 1..] == r.buffer[k + 1..] + more;
      HandleBuffer(r, b, r.buffer[..k], near);
      var t := Handle(r, r.buffer[..k], near);
      DrainedAppend(t.(buffer := r.buffer[k + 1..]), more, near);
    }
  }

  lemma {:induction false} DrainedNoLine(r: Receiver, near: nat -> bool)
    ensures LineEnd(Drained(r, near).buffer) == |Drained(r, near).buffer|
    decreases |r.buffer|
  {
    hide Handle, LineEnd;
    var k := LineEnd(r.buffer);
    if k < |r.buffer| { DrainedNoLine(Handle(r, r.buffer[..k], near).(buffer := r.buffer[k + 1..]), near); }
  }

  lemma {:induction false} ErrorIsFinal(r: Receiver, near: nat -> bool)
    requires r.error
    ensures var d := Drained(r, near); d.error && d.pending == r.pending && d.granted == r.granted
    decreases |r.buffer|
  {
    hide LineEnd, Parse;
    var k := LineEnd(r.buffer);
    if k < |r.buffer| { ErrorIsFinal(Handle(r, r.buffer[..k], near).(buffer := r.buffer[k + 1..]), near); }
  }

  /** A partial line of 128 bytes is an error now or when it ends. */
  lemma OverlongFails(r: Receiver, more: Bytes, near: nat -> bool)
    requires |r.buffer| > 127 && LineEnd(r.buffer) == |r.buffer|
    ensures var f := Fed(r, more, near); f.error && f.pending == r.pending && f.granted == r.granted
  {
    hide LineEnd, Parse;
    var b := r.buffer + more;
    LineEndAppend(r.buffer, more);
    var k := LineEnd(b);
    if k < |b| { ErrorIsFinal(Handle(r.(buffer := b), b[..k], near).(buffer := b[k + 1..]), near); }
  }

  lemma FedTwice(r: Receiver, p: Bytes, q: Bytes, near: nat -> bool)
    ensures Alike(Fed(Fed(r, p, near), q, near), Fed(r, p + q, near))
  {
    hide LineEnd, Drained, Handle;
    var d := Drained(r.(buffer := r.buffer + p), near);
    DrainedAppend(r.(buffer := r.buffer + p), q, near);
    assert r.buffer + p + q == r.buffer + (p + q);
    DrainedNoLine(r.(buffer := r.buffer + p), near);
    if |d.buffer| > 127 {
      OverlongFails(d, q, near);
      ErrorIsFinal(d.(error := true, buffer := [] + q), near);
    }
  }

  lemma AlikeSelf(r: Receiver)
    ensures Alike(r, r)
  {
  }

  lemma AlikeChain(r: Receiver, t: Receiver, u: Receiver)
    requires Alike(r, t) && Alike(t, u)
    ensures Alike(r, u)
  {
  }

  lemma {:induction false} PiecesFrom(r: Receiver, p: Bytes, pieces: seq<Bytes>, near: nat -> bool)
    ensures Alike(FedAll(Fed(r, p, near), pieces, near), Fed(r, p + Flat(pieces), near))
    decreases |pieces|
  {
    hide Fed, Alike;
    if pieces == [] {
      assert p + [] == p;
      AlikeSelf(Fed(r, p, near));
    } else {
      var t := Fed(r, p, near);
      PiecesFrom(t, pieces[0], pieces[1..], near);
      var rest := pieces[0] + Flat(pieces[1..]);
      FedTwice(r, p, rest, near);
      AlikeChain(FedAll(t, pieces, near), Fed(t, rest, near), Fed(r, p + rest, near));
    }
  }

  lemma FedEmpty(near: nat -> bool)
    ensures Fed(EMPTY, [], near) == EMPTY
  {
    assert EMPTY.buffer + [] == [];
  }

  /** The grants queued and the error do not depend on how the bytes arrive, before or after the
      end of the channel. */
  lemma SplitIndependent(pieces: seq<Bytes>, near: nat -> bool)
    ensures Alike(FedAll(EMPTY, pieces, near), Fed(EMPTY, Flat(pieces), near))
    ensures Alike(Trimmed(FedAll(EMPTY, pieces, near), true), Trimmed(Fed(EMPTY, Flat(pieces), near), true))
  {
    hide Handle, Drained;
    PiecesFrom(EMPTY, [], pieces, near);
    assert [] + Flat(pieces) == Flat(pieces);
    FedEmpty(near);
  }

  lemma {:induction false} NoLineEnd(line: Bytes)
    requires '\n' !in line
    ensures LineEnd(line) == |line|
  {
    if line != [] { NoLineEnd(line[1..]); }
  }

  /** A partial line is an error from its 128th byte on, and at the end of the channel from its first. */
  lemma PartialLine(data: Bytes, near: nat -> bool)
    requires '\n' !in data
    ensures Fed(EMPTY, data, near).error <==> |data| >= 128
    ensures Trimmed(Drained(EMPTY.(buffer := data), near), true).error <==> data != []
  {
    NoLineEnd(data);
    assert EMPTY.buffer + data == data;
  }

  // ----- What can be granted -----

  predicate Opening(g: Grant) {
    g.sequence == 1 && (g.signum == SIGINT || g.signum == SIGTERM) && 0 < g.deadline <= LAST_DEADLINE
  }

  /** An interrupt or termination request, then at most a kill with the same deadline. */
  predicate Ladder(gs: seq<Grant>) {
    && |gs| <= 2
    && (|gs| >= 1 ==> Opening(gs[0]))
    && (|gs| == 2 ==> gs[1] == Grant(2, SIGKILL, gs[0].deadline))
  }

  predicate ReceiverInv(r: Receiver) {
    && Ladder(r.granted)
    && (!r.error ==> r.last == |r.granted| && (r.granted == [] ==> r.stop.None?)
                     && (r.granted != [] ==> r.stop == Some(r.granted[0].deadline)))
  }

  lemma ParseSequence(frame: Bytes)
    ensures Parse(frame).Some? ==> Parse(frame).value.sequence == 1 || Parse(frame).value.sequence == 2
  {
  }

  lemma HandleInv(r: Receiver, frame: Bytes, near: nat -> bool)
    requires ReceiverInv(r)
    ensures ReceiverInv(Handle(r, frame, near))
  {
    ParseSequence(frame);
    hide Parse;
  }

  lemma {:induction false} DrainedInv(r: Receiver, near: nat -> bool)
    requires ReceiverInv(r)
    ensures ReceiverInv(Drained(r, near))
    decreases |r.buffer|
  {
    hide LineEnd, Handle;
    var k := LineEnd(r.buffer);
    if k < |r.buffer| {
      HandleInv(r, r.buffer[..k], near);
      DrainedInv(Handle(r, r.buffer[..k], near).(buffer := r.buffer[k + 1..]), near);
    }
  }

  lemma FedInv(r: Receiver, data: Bytes, near: nat -> bool)
    requires ReceiverInv(r)
    ensures ReceiverInv(Fed(r, data, near))
  {
    hide Drained;
    DrainedInv(r.(buffer := r.buffer + data), near);
  }

  /** On every stream of bytes, however split, at most two grants are queued, in the fixed order. */
  lemma GrantsFormLadder(pieces: seq<Bytes>, near: nat -> bool)
    ensures Ladder(FedAll(EMPTY, pieces, near).granted)
  {
    hide FedAll, Fed, Drained;
    SplitIndependent(pieces, near);
    FedInv(EMPTY, Flat(pieces), near);
  }

  lemma DrainedLine(r: Receiver, line: Bytes, rest: Bytes, near: nat -> bool)
    requires r.buffer == line + "\n" + rest && '\n' !in line
    ensures Drained(r, near) == Drained(Handle(r, line, near).(buffer := rest), near)
  {
    hide Handle;
    NoLineEnd(line);
    LineEndAppend(line, "\n" + rest);
    assert r.buffer == line + ("\n" + rest);
    assert LineEnd(r.buffer) == |line| by { assert ("\n" + rest)[0] == '\n'; }
    assert r.buffer[..|line|] == line && r.buffer[|line| + 1..] == rest;
  }

  lemma DrainedNothing(r: Receiver, near: nat -> bool)
    requires r.buffer == []
    ensures Drained(r, near) == r
  {
  }

  /** Two sent frames are both granted exactly when they form the ladder and the first is near. */
  lemma BothGranted(a: Grant, b: Grant, near: nat -> bool)
    requires Sendable(a) && Sendable(b)
    ensures var f := Fed(EMPTY, Encode(a) + Encode(b), near);
      (!f.error && f.granted == [a, b]) <==> (Ladder([a, b]) && near(a.deadline))
  {
    hide Parse, Drained, LineEnd, Line;
    ParseInverse(a);
    ParseInverse(b);
    var r := EMPTY.(buffer := EMPTY.buffer + (Encode(a) + Encode(b)));
    assert r.buffer == Line(a) + "\n" + Encode(b);
    DrainedLine(r, Line(a), Encode(b), near);
    var r1 := Handle(r, Line(a), near).(buffer := Encode(b));
    assert r1.buffer == Line(b) + "\n" + [];
    DrainedLine(r1, Line(b), [], near);
    DrainedNothing(Handle(r1, Line(b), near).(buffer := []), near);
  }

  // ----- The issuer's deadline -----

  const TAIL_NS := 15_000_000_000

  lemma TwoMeansBoth(a: Grant, b: Grant, near: nat -> bool)
    requires Sendable(a) && Sendable(b)
    ensures var f := Fed(EMPTY, Encode(a) + Encode(b), near); |f.granted| == 2 ==> f.granted == [a, b]
  {
    hide Parse, Drained, LineEnd, Line, Admissible;
    ParseInverse(a);
    ParseInverse(b);
    var r := EMPTY.(buffer := EMPTY.buffer + (Encode(a) + Encode(b)));
    assert r.buffer == Line(a) + "\n" + Encode(b);
    DrainedLine(r, Line(a), Encode(b), near);
    var r1 := Handle(r, Line(a), near).(buffer := Encode(b));
    assert r1.buffer == Line(b) + "\n" + [];
    DrainedLine(r1, Line(b), [], near);
    DrainedNothing(Handle(r1, Line(b), near).(buffer := []), near);
  }

  /** The deadline of every frame for a child: its latch and the tail. */
  function Deadline(c: C.Child): nat
    requires c.cancelAt.Some?
  {
    c.cancelAt.value + TAIL_NS
  }

  /** TERM for a child and KILL after any further run of that child are both granted, however split,
      exactly when no step of the run latched an earlier moment. */
  lemma KillGrantedUnlessLowered(c: C.Child, run: seq<C.Event>, pieces: seq<Bytes>, near: nat -> bool)
    requires c.cancelAt.Some? && Deadline(c) <= LAST_DEADLINE && near(Deadline(c))
    requires var d := C.Final(c, run);
      && d.cancelAt.Some?
      && Flat(pieces) == Encode(Grant(1, SIGTERM, Deadline(c))) + Encode(Grant(2, SIGKILL, Deadline(d)))
    ensures var f := FedAll(EMPTY, pieces, near);
      (!f.error && |f.granted| == 2) <==> C.NoneEarlier(c.cutoff, run, c.cancelAt.value)
  {
    hide FedAll, Fed, Encode, Flat, C.Final, C.NoneEarlier;
    C.LatchRun(c, run);
    var first, second := Grant(1, SIGTERM, Deadline(c)), Grant(2, SIGKILL, Deadline(C.Final(c, run)));
    SplitIndependent(pieces, near);
    BothGranted(first, second, near);
    TwoMeansBoth(first, second, near);
  }

  lemma FedLadder(data: Bytes, near: nat -> bool)
    ensures Ladder(Fed(EMPTY, data, near).granted)
  {
    hide Fed;
    FedInv(EMPTY, data, near);
  }

  /** The guardian does send such a pair: a run up to the first frame and a run up to the second, the
      child open to frames at both, and the receiver refuses the second. */
  lemma LoweredKillRefused(near: nat -> bool) returns (run: seq<C.Event>, more: seq<C.Event>)
    requires near(11 + TAIL_NS)
    ensures C.Valid(C.Reserve(10), run) && C.Valid(C.Final(C.Reserve(10), run), more)
    ensures var c, d := C.Final(C.Reserve(10), run), C.Final(C.Final(C.Reserve(10), run), more);
      && C.Signalable(c) && C.Signalable(d)
      && var f := Fed(EMPTY, Encode(Grant(1, SIGTERM, Deadline(c))) + Encode(Grant(2, SIGKILL, Deadline(d))), near);
         f.error || |f.granted| < 2
  {
    hide Fed, Encode, C.Final, C.Valid;
    run, more := C.LoweringReachable();
    var first, second := Grant(1, SIGTERM, 11 + TAIL_NS), Grant(2, SIGKILL, 10 + TAIL_NS);
    BothGranted(first, second, near);
    TwoMeansBoth(first, second, near);
    FedLadder(Encode(first) + Encode(second), near);
  }
}

/**
 The text arithmetic behind duplicate admission (scripts/ci/duplication-check.py:182-200, 239-255):
 raw byte positions in mixed LF/CRLF files, anchor positions, and the greedy reduction test.
 */
module SourceText {
  import opened Common

  type Bytes = seq<int>

  const CR := 13

  const LF := 10

  predicate Break(data: Bytes, i: nat) { i + 1 < |data| && data[i] == CR && data[i + 1] == LF }

  /** `data.replace(b"\r\n", b"\n")`. */
  function Normal(data: Bytes): Bytes {
    if data == [] then []
    else if Break(data, 0) then [LF] + Normal(data[2..])
    else [data[0]] + Normal(data[1..])
  }

  /** Width of the raw character at a position. */
  function Width(data: Bytes, i: nat): nat { if Break(data, i) then 2 else 1 }

  /** Position in the raw text of an offset in the normal one. */
  function Raw(data: Bytes, offset: nat): nat {
    if offset == 0 then 0 else Raw(data, offset - 1) + Width(data, Raw(data, offset - 1))
  }

  /** Slice bounds past the end are cut down to it. */
  function Clip(data: Bytes, i: nat): nat { if i < |data| then i else |data| }

  method RawOffset(data: Bytes, offset: nat) returns (raw: nat)
    ensures raw == Raw(data, offset)
  {
    raw := 0;
    for k := 0 to offset
      invariant raw == Raw(data, k)
    {
      raw := raw + (if data[Clip(data, raw)..Clip(data, raw + 2)] == [CR, LF] then 2 else 1);
    }
  }

  /** Behind the first raw character the map starts over. */
  lemma {:induction false} RawShift(data: Bytes, offset: nat)
    requires data != [] && offset > 0
    ensures Raw(data, offset) == Width(data, 0) + Raw(data[Width(data, 0)..], offset - 1)
  {
    if offset > 1 {
      RawShift(data, offset - 1);
    } else {
      assert Raw(data, 1) == Raw(data, 0) + Width(data, Raw(data, 0));
    }
  }

  lemma NormalStep(data: Bytes)
    requires data != []
    ensures Normal(data) == [if Break(data, 0) then LF else data[0]] + Normal(data[Width(data, 0)..])
  {
  }

  lemma SliceTwice(data: Bytes, w: nat, cut: nat)
    requires w <= cut <= |data|
    ensures data[..cut][w..] == data[w..][..cut - w] && data[cut..] == data[w..][cut - w..]
  {
  }

  /** A cut that keeps the first character whole. */
  lemma NormalHead(data: Bytes, cut: nat, w: nat)
    requires data != [] && w == Width(data, 0) <= cut <= |data|
    ensures Normal(data[..cut]) == [if Break(data, 0) then LF else data[0]] + Normal(data[w..][..cut - w])
  {
    hide Normal;
    var head := data[..cut];
    assert Break(head, 0) == Break(data, 0);
    NormalStep(head);
    SliceTwice(data, w, cut);
  }

  lemma RawNone(data: Bytes)
    ensures Raw(data, 0) == 0 && Normal(data[..0]) == []
  {
  }

  lemma NormalEmpty(data: Bytes)
    ensures data == [] <==> Normal(data) == []
  {
  }

  /** Every offset splits the raw text where the normal text is split. */
  lemma {:induction false} RawSplits(data: Bytes, offset: nat)
    requires offset <= |Normal(data)|
    ensures Raw(data, offset) <= |data|
    ensures Normal(data[..Raw(data, offset)]) == Normal(data)[..offset]
    ensures Normal(data[Raw(data, offset)..]) == Normal(data)[offset..]
  {
    hide Raw, Normal;
    if offset == 0 {
      RawNone(data);
      assert data[0..] == data;
    } else {
      NormalEmpty(data);
      NormalStep(data);
      var w := Width(data, 0);
      RawShift(data, offset);
      RawSplits(data[w..], offset - 1);
      NormalHead(data, Raw(data, offset), w);
      SliceTwice(data, w, Raw(data, offset));
    }
  }

  lemma {:induction false} RawIncreases(data: Bytes, a: nat, b: nat)
    requires a < b
    ensures Raw(data, a) < Raw(data, b)
  {
    if a < b - 1 { RawIncreases(data, a, b - 1); }
  }

  /** Cutting the raw text behind an offset does not move the earlier offsets. */
  lemma {:induction false} RawPrefix(data: Bytes, a: nat, b: nat)
    requires a <= b <= |Normal(data)|
    ensures Raw(data, b) <= |data| && Raw(data[..Raw(data, b)], a) == Raw(data, a)
  {
    RawSplits(data, b);
    if a > 0 {
      RawPrefix(data, a - 1, b);
      if a < b { RawIncreases(data, a, b); }
    }
  }

  /** A raw slice between two mapped offsets holds exactly the reviewed normal slice. */
  lemma RawSlice(data: Bytes, a: nat, b: nat)
    requires a < b <= |Normal(data)|
    ensures Raw(data, a) < Raw(data, b) <= |data|
    ensures Normal(data[Raw(data, a)..Raw(data, b)]) == Normal(data)[a..b]
  {
    RawIncreases(data, a, b);
    RawSplits(data, a);
    RawSplits(data, b);
    var head := data[..Raw(data, b)];
    RawPrefix(data, a, b);
    RawSplits(head, a);
    assert head[Raw(data, a)..] == data[Raw(data, a)..Raw(data, b)];
  }

  // ----- Anchors -----

  predicate At(data: Bytes, text: Bytes, i: int) { 0 <= i <= |data| - |text| && data[i..i + |text|] == text }

  /** `data.find(text, start)`. */
  function Find(data: Bytes, text: Bytes, start: nat): (r: Option<nat>)
    ensures r.Some? ==> start <= r.value && At(data, text, r.value)
    ensures r.Some? ==> forall j :: start <= j < r.value ==> !At(data, text, j)
    ensures r.None? ==> forall j :: start <= j ==> !At(data, text, j)
    decreases |data| - start
  {
    if start + |text| > |data| then None
    else if data[start..start + |text|] == text then Some(start)
    else Find(data, text, start + 1)
  }

  /** `data.count(text)`: occurrences that do not overlap, from the left. */
  function Count(data: Bytes, text: Bytes, start: nat): nat
    requires text != []
    decreases |data| - start
  {
    var f := Find(data, text, start);
    if f.None? then 0 else 1 + Count(data, text, f.value + |text|)
  }

  /** `anchor_offset` on normal text. */
  function Anchor(data: Bytes, text: Bytes, boundary: bool, before: bool): Option<nat> {
    if boundary then
      if before && At(data, text, 0) then Some(|text|)
      else if !before && At(data, text, |data| - |text|) then Some(|data| - |text|)
      else None
    else if text != [] && Count(data, text, 0) == 1 then
      Some(Find(data, text, 0).value + (if before then |text| else 0))
    else None
  }

  lemma CountOne(data: Bytes, text: Bytes)
    requires text != []
    ensures Count(data, text, 0) == 1 <==>
            Find(data, text, 0).Some? && Find(data, text, Find(data, text, 0).value + |text|).None?
  {
    hide Find;
  }

  /** Where an anchor resolves: its text ends, or begins, exactly there; a boundary anchor is pinned
      to its end of the file, and any other occurrence of a free anchor overlaps the chosen one. */
  lemma AnchorPlace(data: Bytes, text: Bytes, boundary: bool, before: bool)
    requires Anchor(data, text, boundary, before).Some?
    ensures var o := Anchor(data, text, boundary, before).value; var i := if before then o - |text| else o;
      && o <= |data| && At(data, text, i)
      && (boundary ==> if before then i == 0 else o + |text| == |data|)
      && (!boundary ==> forall j :: At(data, text, j) ==> i <= j < i + |text|)
  {
    hide Find, Count;
    if !boundary { CountOne(data, text); }
  }

  lemma ThreeParts(data: Bytes, i: nat, a: nat, b: nat, j: nat)
    requires i <= a <= b <= j <= |data|
    ensures data[i..j] == data[i..a] + data[a..b] + data[b..j]
  {
  }

  /** Two anchors around one interval keep it off their own text. */
  lemma AnchoredInterval(data: Bytes, t1: Bytes, b1: bool, t2: Bytes, b2: bool)
    requires Anchor(data, t1, b1, true).Some? && Anchor(data, t2, b2, false).Some?
    requires Anchor(data, t1, b1, true).value < Anchor(data, t2, b2, false).value
    ensures var a := Anchor(data, t1, b1, true).value; var b := Anchor(data, t2, b2, false).value;
      |t1| <= a < b <= |data| - |t2| && data[a - |t1|..b + |t2|] == t1 + data[a..b] + t2
  {
    hide Anchor;
    AnchorPlace(data, t1, b1, true);
    AnchorPlace(data, t2, b2, false);
    var a, b := Anchor(data, t1, b1, true).value, Anchor(data, t2, b2, false).value;
    ThreeParts(data, a - |t1|, a, b, b + |t2|);
  }

  /** Counting without overlaps admits an anchor that occurs twice. */
  lemma OverlappingAnchor()
    ensures var data, text := [7, 7, 7], [7, 7];
      At(data, text, 0) && At(data, text, 1) && Anchor(data, text, false, true).Some?
  {
    var data, text := [7, 7, 7], [7, 7];
    assert data[0..2] == text && data[1..3] == text;
    assert Find(data, text, 2) == None;
    assert Count(data, text, 0) == 1 + Count(data, text, 2);
  }

  /** A free anchor resolves exactly when it occurs and every occurrence overlaps the first. */
  lemma AnchorExists(data: Bytes, text: Bytes, before: bool)
    requires text != []
    ensures Anchor(data, text, false, before).Some?
       <==> exists i :: At(data, text, i) && forall j :: At(data, text, j) ==> i <= j < i + |text|
  {
    hide Find, Count;
    CountOne(data, text);
    var f := Find(data, text, 0);
    if Anchor(data, text, false, before).Some? {
      AnchorPlace(data, text, false, before);
    } else if f.Some? {
      var g := Find(data, text, f.value + |text|);
      assert At(data, text, f.value) && At(data, text, g.value) && f.value + |text| <= g.value;
    }
  }

  // ----- Reduction -----

  type Line = string

  /** `k` names, in increasing order, the original lines that the current lines are. */
  predicate Embeds(current: seq<Line>, original: seq<Line>, k: seq<nat>) {
    && |k| == |current|
    && (forall i :: 0 <= i < |k| ==> k[i] < |original| && original[k[i]] == current[i])
    && (forall i, j :: 0 <= i < j < |k| ==> k[i] < k[j])
  }

  /** Any other embedding uses lines at least as late. */
  ghost predicate Earliest(current: seq<Line>, original: seq<Line>, chosen: seq<nat>) {
    forall k :: Embeds(current, original, k) ==> |k| == |chosen| && forall i :: 0 <= i < |k| ==> chosen[i] <= k[i]
  }

  lemma EmbedsFront(current: seq<Line>, line: Line, original: seq<Line>, k: seq<nat>)
    requires Embeds(current + [line], original, k)
    ensures |k| == |current| + 1 && Embeds(current, original, k[..|current|]) && original[k[|current|]] == line
  {
    var more := current + [line];
    assert forall i :: 0 <= i < |current| ==> more[i] == current[i];
    assert more[|current|] == line;
  }

  lemma EarliestMore(current: seq<Line>, original: seq<Line>, chosen: seq<nat>, line: Line, from: nat, next: nat)
    requires Embeds(current, original, chosen) && Earliest(current, original, chosen)
    requires from == (if chosen == [] then 0 else chosen[|chosen| - 1] + 1) && from <= next < |original|
             && original[next] == line
    requires forall j :: from <= j < next ==> original[j] != line
    ensures Embeds(current + [line], original, chosen + [next]) && Earliest(current + [line], original, chosen + [next])
  {
    var more := current + [line];
    forall k | Embeds(more, original, k)
      ensures |k| == |chosen| + 1 && forall i :: 0 <= i < |k| ==> (chosen + [next])[i] <= k[i]
    {
      EmbedsFront(current, line, original, k);
    }
  }

  lemma BehindEarliest(current: seq<Line>, original: seq<Line>, i: nat, chosen: seq<nat>, from: nat, k: seq<nat>)
    requires i < |current| && Earliest(current[..i], original, chosen) && |chosen| == i && Embeds(current, original, k)
    requires from == (if chosen == [] then 0 else chosen[|chosen| - 1] + 1)
    ensures from <= k[i]
  {
    assert Embeds(current[..i], original, k[..i]);
    if i > 0 { assert chosen[i - 1] <= k[..i][i - 1] < k[i]; }
  }

  /** If the search for line `i` runs out behind the earliest choice, nothing embeds. */
  lemma NoEmbedding(current: seq<Line>, original: seq<Line>, i: nat, chosen: seq<nat>, from: nat)
    requires i < |current| && Earliest(current[..i], original, chosen) && |chosen| == i
    requires from == (if chosen == [] then 0 else chosen[|chosen| - 1] + 1)
    requires forall j :: from <= j < |original| ==> original[j] != current[i]
    ensures !exists k :: Embeds(current, original, k)
  {
    forall k | Embeds(current, original, k)
      ensures false
    {
      BehindEarliest(current, original, i, chosen, from, k);
    }
  }

  /** One iterator over the original lines, consumed by the search for each current line. */
  method Reduced(current: seq<Line>, original: seq<Line>) returns (ok: bool)
    ensures ok <==> exists k :: Embeds(current, original, k)
  {
    var next := 0;
    ghost var chosen: seq<nat> := [];
    assert Earliest([], original, []);
    for i := 0 to |current|
      invariant next <= |original| && next == (if chosen == [] then 0 else chosen[|chosen| - 1] + 1)
      invariant Embeds(current[..i], original, chosen) && Earliest(current[..i], original, chosen)
    {
      var from := next;
      while next < |original| && original[next] != current[i]
        invariant from <= next <= |original|
        invariant forall j :: from <= j < next ==> original[j] != current[i]
      {
        next := next + 1;
      }
      assert current[..i + 1] == current[..i] + [current[i]];
      if next == |original| {
        NoEmbedding(current, original, i, chosen, from);
        return false;
      }
      EarliestMore(current[..i], original, chosen, current[i], from, next);
      chosen := chosen + [next];
      next := next + 1;
    }
    assert current[..|current|] == current;
    return true;
  }
}

/**
 Profile sections in template files (scripts/lib/template_init.py:1050-1117).  How one line is
 recognised as a marker (lines 78-88 and 917-921) is a parameter.
 */
module Markers {
  import opened Common

  type Line = string

  type Path = string

  datatype Mark = Text | Malformed | Begin(profile: string, id: string) | Finish(profile: string, id: string)

  datatype Key = Key(profile: string, path: Path, id: string)

  datatype Content = Binary | Lines(lines: seq<Line>)

  datatype Refusal =
    | MalformedMarker | UnknownMarker | NestedMarker | DuplicateMarker | MismatchedMarker | UnclosedMarker
    | InventoryMismatch

  /** Line recognition, the declared inventory and the selected profiles. */
  datatype Policy = Policy(mark: Line -> Mark, expected: set<Key>, selected: set<string>)

  // ----- The shape of a marked file -----

  datatype Block = Plain(line: Line) | Section(first: Line, profile: string, id: string, body: seq<Line>, last: Line)

  /** The lines of one block. */
  function Source(b: Block): seq<Line> { if b.Plain? then [b.line] else [b.first] + b.body + [b.last] }

  function Flatten(bs: seq<Block>): seq<Line> {
    if bs == [] then [] else Source(bs[0]) + Flatten(bs[1..])
  }

  predicate TextOnly(mark: Line -> Mark, s: seq<Line>) { forall i :: 0 <= i < |s| ==> mark(s[i]) == Text }

  predicate WellFormedBlock(mark: Line -> Mark, b: Block) {
    match b
    case Plain(line) => mark(line) == Text
    case Section(first, p, i, body, last) =>
      mark(first) == Begin(p, i) && mark(last) == Finish(p, i) && TextOnly(mark, body)
  }

  predicate WellFormed(mark: Line -> Mark, bs: seq<Block>) { forall b <- bs :: WellFormedBlock(mark, b) }

  /** The sections of a file, in order. */
  function Sections(path: Path, bs: seq<Block>): seq<Key> {
    if bs == [] then []
    else (if bs[0].Section? then [Key(bs[0].profile, path, bs[0].id)] else []) + Sections(path, bs[1..])
  }

  /** The unmarked lines and the bodies of the selected sections. */
  function Projection(selected: set<string>, bs: seq<Block>): seq<Line> {
    if bs == [] then []
    else (if bs[0].Plain? then [bs[0].line] else if bs[0].profile in selected then bs[0].body else [])
         + Projection(selected, bs[1..])
  }

  predicate Once(keys: seq<Key>) { forall i, j :: 0 <= i < j < |keys| ==> keys[i] != keys[j] }

  function Elements(keys: seq<Key>): set<Key> { set k <- keys }

  // ----- Finding that shape -----

  /** The first line that is not text. */
  function BodyEnd(mark: Line -> Mark, s: seq<Line>): (e: nat)
    ensures e <= |s| && TextOnly(mark, s[..e]) && (e < |s| ==> mark(s[e]) != Text)
  {
    if s == [] || mark(s[0]) != Text then 0
    else
      var e := 1 + BodyEnd(mark, s[1..]);
      assert s[..e] == [s[0]] + s[1..][..e - 1];
      e
  }

  function Prepend(b: Block, rest: Option<seq<Block>>): Option<seq<Block>> {
    if rest.None? then None else Some([b] + rest.value)
  }

  function Blocks(mark: Line -> Mark, s: seq<Line>): Option<seq<Block>>
    decreases |s|
  {
    if s == [] then Some([])
    else
      match mark(s[0])
      case Text => Prepend(Plain(s[0]), Blocks(mark, s[1..]))
      case Begin(p, i) =>
        var e := BodyEnd(mark, s[1..]);
        if 1 + e < |s| && mark(s[1 + e]) == Finish(p, i)
        then Prepend(Section(s[0], p, i, s[1..1 + e], s[1 + e]), Blocks(mark, s[2 + e..]))
        else None
      case _ => None
  }

  // ----- The pass over one file -----

  datatype Pass = Pass(out: seq<Line>, seen: set<Key>, found: bool)

  function Kept(line: Line, r: Result<Pass, Refusal>): Result<Pass, Refusal> {
    if r.Err? then r else Ok(r.value.(out := [line] + r.value.out))
  }

  function Found(r: Result<Pass, Refusal>): Result<Pass, Refusal> { if r.Err? then r else Ok(r.value.(found := true)) }

  function Scan(c: Policy, path: Path, s: seq<Line>, open: Option<Key>, seen: set<Key>): Result<Pass, Refusal>
    decreases |s|
  {
    if s == [] then if open.Some? then Err(UnclosedMarker) else Ok(Pass([], seen, false))
    else
      match c.mark(s[0])
      case Malformed => Err(MalformedMarker)
      case Text =>
        if open.Some? && open.value.profile !in c.selected then Scan(c, path, s[1..], open, seen)
        else Kept(s[0], Scan(c, path, s[1..], open, seen))
      case Begin(p, i) =>
        var key := Key(p, path, i);
        if key !in c.expected then Err(UnknownMarker)
        else if open.Some? then Err(NestedMarker)
        else if key in seen then Err(DuplicateMarker)
        else Found(Scan(c, path, s[1..], Some(key), seen + {key}))
      case Finish(p, i) =>
        var key := Key(p, path, i);
        if key !in c.expected then Err(UnknownMarker)
        else if open != Some(key) then Err(MismatchedMarker)
        else Found(Scan(c, path, s[1..], None, seen))
  }

  /** The pass behind the lines already transformed. */
  function Resume(out: seq<Line>, found: bool, r: Result<Pass, Refusal>): Result<Pass, Refusal> {
    if r.Err? then r else Ok(Pass(out + r.value.out, r.value.seen, found || r.value.found))
  }

  lemma ResumeNothing(r: Result<Pass, Refusal>)
    ensures Resume([], false, r) == r
  {
    if r.Ok? { assert [] + r.value.out == r.value.out; }
  }

  lemma ResumeStep(out: seq<Line>, found: bool, line: Line, r: Result<Pass, Refusal>)
    ensures Resume(out, found, Kept(line, r)) == Resume(out + [line], found, r)
  {
    if r.Ok? { assert out + ([line] + r.value.out) == out + [line] + r.value.out; }
  }

  method Transform(c: Policy, path: Path, lines: seq<Line>, seen0: set<Key>) returns (r: Result<Pass, Refusal>)
    ensures r == Scan(c, path, lines, None, seen0)
  {
    var stack: seq<(string, string)> := [];
    var seen, transformed, found := seen0, [], false;
    ghost var open: Option<Key> := None;
    assert lines[0..] == lines;
    ResumeNothing(Scan(c, path, lines, None, seen0));
    for k := 0 to |lines|
      invariant stack == if open.Some? then [(open.value.profile, open.value.id)] else []
      invariant open.Some? ==> open.value.path == path
      invariant Scan(c, path, lines, None, seen0) == Resume(transformed, found, Scan(c, path, lines[k..], open, seen))
    {
      var line := lines[k];
      assert lines[k..][0] == line && lines[k..][1..] == lines[k + 1..];
      ResumeStep(transformed, found, line, Scan(c, path, lines[k + 1..], open, seen));
      match c.mark(line) {
        case Malformed => return Err(MalformedMarker);
        case Text =>
          if stack != [] && stack[|stack| - 1].0 !in c.selected { continue; }
          transformed := transformed + [line];
        case Begin(p, i) =>
          var key := Key(p, path, i);
          if key !in c.expected { return Err(UnknownMarker); }
          if stack != [] { return Err(NestedMarker); }
          if key in seen { return Err(DuplicateMarker); }
          found := true;
          stack := stack + [(p, i)];
          seen := seen + {key};
          open := Some(key);
        case Finish(p, i) =>
          var key := Key(p, path, i);
          if key !in c.expected { return Err(UnknownMarker); }
          if stack != [(p, i)] { return Err(MismatchedMarker); }
          found := true;
          stack := [];
          open := None;
      }
    }
    assert lines[|lines|..] == [];
    if stack != [] { return Err(UnclosedMarker); }
    assert transformed + [] == transformed;
    return Ok(Pass(transformed, seen, found));
  }

  // ----- One file is accepted exactly when it has the shape -----

  lemma {:induction false} BodyEndIs(mark: Line -> Mark, s: seq<Line>, e: nat)
    requires e < |s| && TextOnly(mark, s[..e]) && mark(s[e]) != Text
    ensures BodyEnd(mark, s) == e
  {
    if e > 0 {
      assert s[..e][0] == s[0] && s[1..][..e - 1] == s[..e][1..];
      BodyEndIs(mark, s[1..], e - 1);
    }
  }

  lemma FlattenCons(mark: Line -> Mark, b: Block, bs: seq<Block>)
    requires WellFormedBlock(mark, b) && WellFormed(mark, bs)
    ensures WellFormed(mark, [b] + bs) && Flatten([b] + bs) == Source(b) + Flatten(bs)
  {
    hide WellFormedBlock;
    assert ([b] + bs)[1..] == bs;
  }

  lemma SectionText(s: seq<Line>, e: nat)
    requires 2 + e <= |s|
    ensures s[1..][..e] == s[1..1 + e] && [s[0]] + s[1..1 + e] + [s[1 + e]] == s[..2 + e]
  {
  }

  /** The block at the start of a file that parses. */
  lemma FirstBlock(mark: Line -> Mark, s: seq<Line>) returns (b: Block, n: nat)
    requires s != [] && Blocks(mark, s).Some?
    ensures 0 < n <= |s| && WellFormedBlock(mark, b) && Source(b) == s[..n]
    ensures Blocks(mark, s[n..]).Some? && Blocks(mark, s) == Some([b] + Blocks(mark, s[n..]).value)
  {
    hide BodyEnd;
    if mark(s[0]).Text? {
      b, n := Plain(s[0]), 1;
    } else {
      var e := BodyEnd(mark, s[1..]);
      b, n := Section(s[0], mark(s[0]).profile, mark(s[0]).id, s[1..1 + e], s[1 + e]), 2 + e;
      SectionText(s, e);
    }
  }

  lemma {:induction false} BlocksSound(mark: Line -> Mark, s: seq<Line>)
    requires Blocks(mark, s).Some?
    ensures WellFormed(mark, Blocks(mark, s).value) && Flatten(Blocks(mark, s).value) == s
    decreases |s|
  {
    if s != [] {
      hide Blocks, WellFormed, WellFormedBlock, Flatten, Source;
      var b, n := FirstBlock(mark, s);
      BlocksSound(mark, s[n..]);
      FlattenCons(mark, b, Blocks(mark, s[n..]).value);
      assert s == s[..n] + s[n..];
    }
  }

  lemma SectionSplits(mark: Line -> Mark, b: Block, rest: seq<Line>)
    requires b.Section? && WellFormedBlock(mark, b)
    ensures var s := [b.first] + b.body + [b.last] + rest; var e := |b.body|;
      && s[0] == b.first && BodyEnd(mark, s[1..]) == e && s[1 + e] == b.last && s[1..1 + e] == b.body
         && s[2 + e..] == rest
  {
    var s, e := [b.first] + b.body + [b.last] + rest, |b.body|;
    assert s[1..][..e] == b.body && s[1..][e] == b.last;
    BodyEndIs(mark, s[1..], e);
  }

  lemma {:induction false} BlocksComplete(mark: Line -> Mark, bs: seq<Block>)
    requires WellFormed(mark, bs)
    ensures Blocks(mark, Flatten(bs)) == Some(bs)
  {
    if bs != [] {
      BlocksComplete(mark, bs[1..]);
      var s, rest := Flatten(bs), Flatten(bs[1..]);
      assert WellFormedBlock(mark, bs[0]) && [bs[0]] + bs[1..] == bs;
      if bs[0].Section? {
        SectionSplits(mark, bs[0], rest);
      } else {
        assert s[1..] == rest;
      }
    }
  }

  /** The parse finds the shape exactly when the file has it, and it has only one. */
  lemma BlocksExact(mark: Line -> Mark, s: seq<Line>, bs: seq<Block>)
    ensures Blocks(mark, s) == Some(bs) <==> WellFormed(mark, bs) && Flatten(bs) == s
  {
    hide Blocks, Flatten, WellFormed;
    if Blocks(mark, s) == Some(bs) { BlocksSound(mark, s); }
    if WellFormed(mark, bs) && Flatten(bs) == s { BlocksComplete(mark, bs); }
  }

  function KeptAll(ls: seq<Line>, r: Result<Pass, Refusal>): Result<Pass, Refusal> {
    if r.Err? then r else Ok(r.value.(out := ls + r.value.out))
  }

  lemma KeptFirst(s: seq<Line>, e: nat, r: Result<Pass, Refusal>)
    requires 0 < e <= |s|
    ensures Kept(s[0], Found(KeptAll(s[1..][..e - 1], r))) == Found(KeptAll(s[..e], r))
  {
    assert s[..e] == [s[0]] + s[1..][..e - 1];
    if r.Ok? { assert [s[0]] + (s[1..][..e - 1] + r.value.out) == s[..e] + r.value.out; }
  }

  lemma KeptNone(r: Result<Pass, Refusal>)
    ensures KeptAll([], r) == r
  {
    if r.Ok? { assert [] + r.value.out == r.value.out; }
  }

  /** Inside a section the pass runs to the first marker, which must be its end. */
  lemma {:induction false} ScanOpen(c: Policy, path: Path, s: seq<Line>, key: Key, seen: set<Key>)
    requires key.path == path && key in c.expected
    ensures var e := BodyEnd(c.mark, s); var r := Scan(c, path, s, Some(key), seen);
      if e < |s| && c.mark(s[e]) == Finish(key.profile, key.id)
      then r == Found(KeptAll(if key.profile in c.selected then s[..e] else [], Scan(c, path, s[e + 1..], None, seen)))
      else r.Err?
    decreases |s|
  {
    var e := BodyEnd(c.mark, s);
    if e > 0 {
      ScanOpen(c, path, s[1..], key, seen);
      if e < |s| {
        assert s[1..][e..] == s[e + 1..];
        KeptFirst(s, e, Scan(c, path, s[e + 1..], None, seen));
      }
    } else if s != [] {
      KeptNone(Scan(c, path, s[1..], None, seen));
    }
  }

  /** What the shape must satisfy against the inventory and the markers already seen. */
  predicate Fits(c: Policy, keys: seq<Key>, seen: set<Key>) {
    Once(keys) && Elements(keys) !! seen && Elements(keys) <= c.expected
  }

  predicate ScanOutcome(c: Policy, path: Path, s: seq<Line>, seen: set<Key>, r: Result<Pass, Refusal>) {
    var bs := Blocks(c.mark, s);
    if bs.Some? && Fits(c, Sections(path, bs.value), seen) then
      r == Ok(Pass(Projection(c.selected, bs.value), seen + Elements(Sections(path, bs.value)),
                   Sections(path, bs.value) != []))
    else r.Err?
  }

  lemma OnceCons(key: Key, keys: seq<Key>)
    ensures Once([key] + keys) <==> key !in keys && Once(keys)
  {
    var all := [key] + keys;
    if Once(all) {
      forall i | 0 <= i < |keys|
        ensures keys[i] != key
      {
        assert all[0] != all[i + 1];
      }
      forall i, j | 0 <= i < j < |keys|
        ensures keys[i] != keys[j]
      {
        assert all[i + 1] != all[j + 1];
      }
    }
  }

  lemma ElementsCons(key: Key, keys: seq<Key>)
    ensures Elements([key] + keys) == {key} + Elements(keys) && (key in keys <==> key in Elements(keys))
  {
    assert forall k :: k in [key] + keys <==> k == key || k in keys;
  }

  lemma FitsCons(c: Policy, key: Key, keys: seq<Key>, seen: set<Key>)
    ensures Fits(c, [key] + keys, seen) <==> key !in seen && key in c.expected && Fits(c, keys, seen + {key})
    ensures seen + Elements([key] + keys) == seen + {key} + Elements(keys)
  {
    hide Elements, Once;
    OnceCons(key, keys);
    ElementsCons(key, keys);
    assert ({key} + Elements(keys)) !! seen <==> key !in seen && Elements(keys) !! seen;
    assert Elements(keys) !! (seen + {key}) <==> key !in Elements(keys) && Elements(keys) !! seen;
  }

  lemma FitsNothing(c: Policy, seen: set<Key>)
    ensures Fits(c, [], seen) && seen + Elements([]) == seen
  {
  }

  lemma PlainFirst(c: Policy, path: Path, s: seq<Line>)
    requires s != [] && c.mark(s[0]).Text? && Blocks(c.mark, s[1..]).Some?
    ensures Blocks(c.mark, s).Some?
    ensures var bs := Blocks(c.mark, s).value; var rest := Blocks(c.mark, s[1..]).value;
      Sections(path, bs) == Sections(path, rest) && Projection(c.selected, bs) == [s[0]] + Projection(c.selected, rest)
  {
    assert Blocks(c.mark, s).value[1..] == Blocks(c.mark, s[1..]).value;
  }

  lemma {:induction false} ScanSection(c: Policy, path: Path, s: seq<Line>, seen: set<Key>)
    requires s != [] && c.mark(s[0]).Begin?
    ensures ScanOutcome(c, path, s, seen, Scan(c, path, s, None, seen))
    decreases |s|, 0
  {
    hide Fits, Elements, BodyEnd;
    var m := c.mark(s[0]);
    var key := Key(m.profile, path, m.id);
    var e := BodyEnd(c.mark, s[1..]);
    if 1 + e < |s| && c.mark(s[1 + e]) == Finish(m.profile, m.id) {
      var rest := s[2 + e..];
      assert s[1..][e + 1..] == rest && s[1..][..e] == s[1..1 + e] && s[1..][e] == s[1 + e];
      ScanIs(c, path, rest, seen + {key});
      var bs := Blocks(c.mark, rest);
      if bs.Some? {
        FitsCons(c, key, Sections(path, bs.value), seen);
        assert Blocks(c.mark, s).value[1..] == bs.value;
      }
      if key in c.expected { ScanOpen(c, path, s[1..], key, seen + {key}); }
    } else if key in c.expected {
      ScanOpen(c, path, s[1..], key, seen + {key});
    }
  }

  lemma {:induction false} ScanIs(c: Policy, path: Path, s: seq<Line>, seen: set<Key>)
    ensures ScanOutcome(c, path, s, seen, Scan(c, path, s, None, seen))
    decreases |s|
  {
    hide Fits, Elements, BodyEnd;
    if s == [] {
      assert Fits(c, [], seen) && seen + Elements([]) == seen by { FitsNothing(c, seen); }
    } else if c.mark(s[0]).Text? {
      ScanIs(c, path, s[1..], seen);
      if Blocks(c.mark, s[1..]).Some? { PlainFirst(c, path, s); }
    } else if c.mark(s[0]).Begin? {
      ScanSection(c, path, s, seen);
    }
  }

  // ----- All files, rewritten in place -----

  predicate StartsWith(s: string, t: string) { |t| <= |s| && s[..|t|] == t }

  predicate EndsWith(s: string, t: string) { |t| <= |s| && s[|s| - |t|..] == t }

  /** Replay patches and undecodable files are left alone. */
  predicate Inert(path: Path, content: Content) {
    content.Binary? || (StartsWith(path, "test/fixtures/postgres_sustained/replay/") && EndsWith(path, ".patch"))
  }

  type Tree = map<Path, Content>

  /** The tree and the markers seen after a list of files; files written before a refusal stay written. */
  function Applied(c: Policy, tree: Tree, paths: seq<Path>, seen: set<Key>): (Tree, Result<set<Key>, Refusal>)
    requires forall p <- paths :: p in tree
    decreases |paths|
  {
    if paths == [] then (tree, if seen == c.expected then Ok(seen) else Err(InventoryMismatch))
    else
      var p := paths[0];
      if Inert(p, tree[p]) then Applied(c, tree, paths[1..], seen)
      else
        var r := Scan(c, p, tree[p].lines, None, seen);
        if r.Err? then (tree, Err(r.error))
        else Applied(c, if r.value.found then tree[p := Lines(r.value.out)] else tree, paths[1..], r.value.seen)
  }

  class Snapshot {
    var tree: Tree

    method ApplyMarkers(c: Policy, paths: seq<Path>) returns (r: Result<set<Key>, Refusal>)
      requires forall p <- paths :: p in tree
      modifies this
      ensures (tree, r) == Applied(c, old(tree), paths, {})
    {
      hide Scan;
      var seen: set<Key> := {};
      assert paths[0..] == paths;
      for k := 0 to |paths|
        invariant forall p <- paths :: p in tree
        invariant Applied(c, tree, paths[k..], seen) == Applied(c, old(tree), paths, {})
      {
        var p := paths[k];
        assert paths[k..][0] == p && paths[k..][1..] == paths[k + 1..];
        if Inert(p, tree[p]) { continue; }
        var pass := Transform(c, p, tree[p].lines, seen);
        if pass.Err? { return Err(pass.error); }
        seen := pass.value.seen;
        if pass.value.found { tree := tree[p := Lines(pass.value.out)]; }
      }
      assert paths[|paths|..] == [];
      if seen != c.expected { return Err(InventoryMismatch); }
      return Ok(seen);
    }
  }

  /** A file that is left alone, or well bracketed with each marker once. */
  predicate Laid(c: Policy, path: Path, content: Content) {
    Inert(path, content)
        || (Blocks(c.mark, content.lines).Some? && Once(Sections(path, Blocks(c.mark, content.lines).value)))
  }

  /** The sections a file carries. */
  function Carried(c: Policy, path: Path, content: Content): set<Key> {
    if Inert(path, content) || Blocks(c.mark, content.lines).None? then {}
    else Elements(Sections(path, Blocks(c.mark, content.lines).value))
  }

  function CarriedAll(c: Policy, tree: Tree, paths: seq<Path>): set<Key>
    requires forall p <- paths :: p in tree
  {
    if paths == [] then {} else Carried(c, paths[0], tree[paths[0]]) + CarriedAll(c, tree, paths[1..])
  }

  /** What becomes of a file. */
  function Projected(c: Policy, path: Path, content: Content): Content {
    if Inert(path, content) || Blocks(c.mark, content.lines).None? then content
    else Lines(Projection(c.selected, Blocks(c.mark, content.lines).value))
  }

  predicate Distinct(paths: seq<Path>) { forall i, j :: 0 <= i < j < |paths| ==> paths[i] != paths[j] }

  /** A file without sections is its own projection. */
  lemma {:induction false} ProjectionPlain(selected: set<string>, path: Path, bs: seq<Block>)
    requires Sections(path, bs) == []
    ensures Projection(selected, bs) == Flatten(bs)
  {
    if bs != [] { ProjectionPlain(selected, path, bs[1..]); }
  }

  lemma {:induction false} SectionPaths(path: Path, bs: seq<Block>)
    ensures forall k <- Sections(path, bs) :: k.path == path
  {
    if bs != [] { SectionPaths(path, bs[1..]); }
  }

  lemma CarriedPath(c: Policy, path: Path, content: Content)
    ensures forall k <- Carried(c, path, content) :: k.path == path
  {
    if !Inert(path, content) && Blocks(c.mark, content.lines).Some? {
      SectionPaths(path, Blocks(c.mark, content.lines).value);
    }
  }

  lemma {:induction false} CarriedFrame(c: Policy, s: Tree, t: Tree, paths: seq<Path>)
    requires forall p <- paths :: p in s && p in t && s[p] == t[p]
    ensures CarriedAll(c, s, paths) == CarriedAll(c, t, paths)
  {
    if paths != [] { CarriedFrame(c, s, t, paths[1..]); }
  }

  /** A section is carried by the list exactly when its own file is listed and carries it. */
  lemma {:induction false} CarriedMember(c: Policy, tree: Tree, paths: seq<Path>, k: Key)
    requires forall p <- paths :: p in tree
    ensures k in CarriedAll(c, tree, paths) <==> k.path in paths && k in Carried(c, k.path, tree[k.path])
  {
    hide Carried;
    if paths != [] {
      CarriedMember(c, tree, paths[1..], k);
      CarriedPath(c, paths[0], tree[paths[0]]);
      assert paths == [paths[0]] + paths[1..];
    }
  }

  /** One file, against the inventory and what was seen elsewhere. */
  lemma FileExact(c: Policy, path: Path, content: Content, seen: set<Key>)
    requires !Inert(path, content) && forall k <- seen :: k.path != path
    ensures var r := Scan(c, path, content.lines, None, seen);
      && (r.Ok? <==> Laid(c, path, content) && Carried(c, path, content) <= c.expected)
      && (r.Ok? ==> r.value.seen == seen + Carried(c, path, content)
                    && (if r.value.found then Lines(r.value.out) else content) == Projected(c, path, content))
  {
    hide Scan, Blocks, Elements, Once, StartsWith, EndsWith;
    ScanIs(c, path, content.lines, seen);
    CarriedPath(c, path, content);
    var bs := Blocks(c.mark, content.lines);
    if bs.Some? && Sections(path, bs.value) == [] {
      ProjectionPlain(c.selected, path, bs.value);
      BlocksSound(c.mark, content.lines);
    }
  }

  predicate Outcome(c: Policy, tree: Tree, paths: seq<Path>, after: Tree) {
    && after.Keys == tree.Keys
    && (forall p <- tree :: after[p] == if p in paths then Projected(c, p, tree[p]) else tree[p])
  }

  predicate Admits(c: Policy, tree: Tree, paths: seq<Path>, seen: set<Key>)
    requires forall p <- paths :: p in tree
  {
    (forall p <- paths :: Laid(c, p, tree[p])) && seen + CarriedAll(c, tree, paths) == c.expected
  }

  lemma InertFile(c: Policy, path: Path, content: Content)
    requires Inert(path, content)
    ensures Laid(c, path, content) && Carried(c, path, content) == {} && Projected(c, path, content) == content
  {
  }

  lemma RefusedFile(c: Policy, tree: Tree, paths: seq<Path>, seen: set<Key>)
    requires paths != [] && forall p <- paths :: p in tree
    requires !(Laid(c, paths[0], tree[paths[0]]) && Carried(c, paths[0], tree[paths[0]]) <= c.expected)
    ensures !Admits(c, tree, paths, seen)
  {
    hide Laid, Carried;
    assert paths[0] in paths;
  }

  lemma OutcomeStep(c: Policy, tree: Tree, t: Tree, p: Path, rest: seq<Path>, after: Tree)
    requires p in tree && p !in rest && t == tree[p := Projected(c, p, tree[p])]
    ensures Outcome(c, t, rest, after) ==> Outcome(c, tree, [p] + rest, after)
  {
    hide Projected;
  }

  lemma {:induction false} AppliedFrom(c: Policy, tree: Tree, paths: seq<Path>, seen: set<Key>)
    requires Distinct(paths) && (forall p <- paths :: p in tree) && forall k <- seen :: k.path !in paths
    ensures var (after, r) := Applied(c, tree, paths, seen);
      (r.Ok? <==> Admits(c, tree, paths, seen)) && (r.Ok? ==> Outcome(c, tree, paths, after))
    decreases |paths|
  {
    hide Scan, Laid, Carried, Projected, StartsWith, EndsWith;
    if paths == [] {
      assert seen + {} == seen;
    } else {
      var p, rest := paths[0], paths[1..];
      assert paths == [p] + rest && p !in rest;
      if Inert(p, tree[p]) {
        InertFile(c, p, tree[p]);
        assert seen + CarriedAll(c, tree, paths) == seen + CarriedAll(c, tree, rest);
        AppliedFrom(c, tree, rest, seen);
      } else {
        FileExact(c, p, tree[p], seen);
        var r := Scan(c, p, tree[p].lines, None, seen);
        if r.Ok? {
          CarriedPath(c, p, tree[p]);
          var t := if r.value.found then tree[p := Lines(r.value.out)] else tree;
          CarriedFrame(c, tree, t, rest);
          AppliedFrom(c, t, rest, r.value.seen);
          assert seen + CarriedAll(c, tree, paths) == r.value.seen + CarriedAll(c, t, rest);
          OutcomeStep(c, tree, t, p, rest, Applied(c, t, rest, r.value.seen).0);
        } else {
          RefusedFile(c, tree, paths, seen);
        }
      }
    }
  }

  /** The whole pass is accepted exactly when every file is well bracketed, without nesting, with each
      marker once, and the markers found are the inventory; then each file is its projection. */
  lemma InventoryExact(c: Policy, tree: Tree, paths: seq<Path>)
    requires Distinct(paths) && forall p <- paths :: p in tree
    ensures var (after, r) := Applied(c, tree, paths, {});
      && (r.Ok? <==> (forall p <- paths :: Laid(c, p, tree[p])) && CarriedAll(c, tree, paths) == c.expected)
      && (r.Ok? ==> Outcome(c, tree, paths, after))
  {
    hide Applied, Laid, Outcome;
    AppliedFrom(c, tree, paths, {});
    assert {} + CarriedAll(c, tree, paths) == CarriedAll(c, tree, paths);
  }

  lemma SamePolicy(c: Policy, d: Policy, tree: Tree)
    requires c.mark == d.mark && c.selected == d.selected
    ensures forall p <- tree ::
            Laid(c, p, tree[p]) == Laid(d, p, tree[p]) && Carried(c, p, tree[p]) == Carried(d, p, tree[p])
                                && Projected(c, p, tree[p]) == Projected(d, p, tree[p])
  {
  }

  /** `project_portable`: the manifest's files alone, against the inventory of those files. */
  lemma PortableAgrees(c: Policy, tree: Tree, paths: seq<Path>, portable: seq<Path>)
    requires Distinct(paths) && Distinct(portable)
    requires (forall p <- paths :: p in tree) && (forall p <- portable :: p in paths)
    requires Applied(c, tree, paths, {}).1.Ok?
    ensures var c' := c.(expected := set k <- c.expected | k.path in portable);
      && Applied(c', tree, portable, {}).1.Ok?
      && forall p <- portable :: p in Applied(c', tree, portable, {}).0 && p in Applied(c, tree, paths, {}).0
           && Applied(c', tree, portable, {}).0[p] == Applied(c, tree, paths, {}).0[p]
  {
    hide Applied, Laid, Carried, Projected;
    var c' := c.(expected := set k <- c.expected | k.path in portable);
    InventoryExact(c, tree, paths);
    InventoryExact(c', tree, portable);
    SamePolicy(c, c', tree);
    forall k: Key
      ensures k in CarriedAll(c', tree, portable) <==> k in c'.expected
    {
      CarriedMember(c, tree, paths, k);
      CarriedMember(c', tree, portable, k);
    }
    assert CarriedAll(c', tree, portable) == c'.expected;
  }

  // ----- The projected text -----

  /** No marker is left. */
  lemma {:induction false} ProjectionIsText(mark: Line -> Mark, selected: set<string>, bs: seq<Block>)
    requires WellFormed(mark, bs)
    ensures TextOnly(mark, Projection(selected, bs))
  {
    if bs != [] {
      assert bs[0] in bs && WellFormedBlock(mark, bs[0]);
      ProjectionIsText(mark, selected, bs[1..]);
    }
  }

  /** `a` is `b` with lines left out. */
  predicate Within(a: seq<Line>, b: seq<Line>)
    decreases |b|
  {
    a == [] || (b != [] && ((a[0] == b[0] && Within(a[1..], b[1..])) || Within(a, b[1..])))
  }

  lemma {:induction false} WithinBoth(x: seq<Line>, a: seq<Line>, b: seq<Line>)
    requires Within(a, b)
    ensures Within(x + a, x + b)
  {
    if x == [] {
      assert x + a == a && x + b == b;
    } else {
      WithinBoth(x[1..], a, b);
      assert (x + a)[1..] == x[1..] + a && (x + b)[1..] == x[1..] + b;
    }
  }

  lemma {:induction false} WithinMore(x: seq<Line>, a: seq<Line>, b: seq<Line>)
    requires Within(a, b)
    ensures Within(a, x + b)
  {
    if x == [] {
      assert x + b == b;
    } else {
      WithinMore(x[1..], a, b);
      assert (x + b)[1..] == x[1..] + b;
    }
  }

  lemma NothingWithin()
    ensures Within([], [])
  {
  }

  /** More profiles only add lines, in place. */
  lemma {:induction false} MoreProfilesMoreLines(fewer: set<string>, more: set<string>, bs: seq<Block>)
    requires fewer <= more
    ensures Within(Projection(fewer, bs), Projection(more, bs))
  {
    hide Within;
    if bs != [] {
      MoreProfilesMoreLines(fewer, more, bs[1..]);
      var a, b := Projection(fewer, bs[1..]), Projection(more, bs[1..]);
      var b0 := bs[0];
      var x := if b0.Plain? then [b0.line] else if b0.profile in more then b0.body else [];
      if b0.Section? && b0.profile !in fewer {
        WithinMore(x, a, b);
        assert [] + a == a;
      } else {
        WithinBoth(x, a, b);
      }
    } else { NothingWithin(); }
  }

  // ----- Files left alone

  /** Exactly the undecodable files and the patches below the replay directory are left alone. */
  lemma InertExactly(path: Path, content: Content)
    ensures Inert(path, content) <==>
              || content.Binary?
              || ((exists rest :: path == "test/fixtures/postgres_sustained/replay/" + rest)
                  && (exists front :: path == front + ".patch"))
  {
    var prefix, suffix := "test/fixtures/postgres_sustained/replay/", ".patch";
    if StartsWith(path, prefix) { assert path == prefix + path[|prefix|..]; }
    if EndsWith(path, suffix) { assert path == path[..|path| - |suffix|] + suffix; }
  }
}

/**
 The Cargo.lock projection (scripts/lib/template_init.py:1536-1543, 1665-1686, 1827-1877):
 keep the packages reachable from the local roots and shorten dependency labels, without
 changing what any kept label resolves to.

 Records are modelled by their data (name, version, source, dependency labels); the
 parallel rewriting of the TOML text is not.
 */
module CargoLock {
  import opened Common

  datatype Key = Key(name: string, version: string, source: string)

  datatype Record = Record(key: Key, deps: seq<string>)

  // ----- Labels

  /** `dependency.split(" ", 1)`: the name, and the rest behind the first space if any. */
  datatype Label = Label(name: string, version: Option<string>)

  function Split(dep: string): Label {
    if dep == "" then Label("", None)
    else if dep[0] == ' ' then Label("", Some(dep[1..]))
    else var rest := Split(dep[1..]); Label([dep[0]] + rest.name, rest.version)
  }

  predicate NoSpace(name: string) { ' ' !in name }

  lemma {:induction false} SplitName(name: string)
    requires NoSpace(name)
    ensures Split(name) == Label(name, None)
  {
    if name != "" { SplitName(name[1..]); }
  }

  lemma {:induction false} SplitVersioned(name: string, version: string)
    requires NoSpace(name)
    ensures Split(name + " " + version) == Label(name, Some(version))
  {
    var dep := name + " " + version;
    if name == "" {
      assert dep[1..] == version;
    } else {
      SplitVersioned(name[1..], version);
      assert dep[1..] == name[1..] + " " + version;
    }
  }

  predicate Matches(dep: string, k: Key) {
    var l := Split(dep);
    k.name == l.name && (l.version.Some? ==> k.version == l.version.value)
  }

  // ----- Resolution

  function Candidates(dep: string, rs: seq<Record>): seq<Key> {
    if rs == [] then []
    else (if Matches(dep, rs[0].key) then [rs[0].key] else []) + Candidates(dep, rs[1..])
  }

  /** `_dependency_key`: exactly one candidate, or a refusal. */
  function Resolve(dep: string, rs: seq<Record>): Option<Key> {
    var found := Candidates(dep, rs);
    if |found| == 1 then Some(found[0]) else None
  }

  function Keys(rs: seq<Record>): set<Key> { set i | 0 <= i < |rs| :: rs[i].key }

  predicate Distinct(rs: seq<Record>) {
    forall i, j | 0 <= i < j < |rs| :: rs[i].key != rs[j].key
  }

  function MatchSet(dep: string, ks: set<Key>): set<Key> { set k | k in ks && Matches(dep, k) }

  lemma {:induction false} KeysSplit(rs: seq<Record>)
    requires rs != []
    ensures Keys(rs) == {rs[0].key} + Keys(rs[1..])
    ensures Distinct(rs) ==> Distinct(rs[1..]) && rs[0].key !in Keys(rs[1..])
  {
    var rest := rs[1..];
    forall k | k in Keys(rs) ensures k in {rs[0].key} + Keys(rest) {
      var i :| 0 <= i < |rs| && rs[i].key == k;
      if i > 0 { assert rest[i - 1].key == k; }
    }
    forall k | k in Keys(rest) ensures k in Keys(rs) {
      var i :| 0 <= i < |rest| && rest[i].key == k;
      assert rs[i + 1].key == k;
    }
  }

  lemma NoKeys()
    ensures Keys([]) == {}
  {}

  lemma {:induction false} CandidatesAreMatches(dep: string, rs: seq<Record>)
    requires Distinct(rs)
    ensures forall k :: k in Candidates(dep, rs) <==> k in MatchSet(dep, Keys(rs))
    ensures |Candidates(dep, rs)| == |MatchSet(dep, Keys(rs))|
  {
    hide Keys, Distinct, Matches;
    if rs == [] {
      NoKeys();
    } else {
      KeysSplit(rs);
      var r, rest := rs[0].key, rs[1..];
      CandidatesAreMatches(dep, rest);
      var head := if Matches(dep, r) then {r} else {};
      assert MatchSet(dep, Keys(rs)) == head + MatchSet(dep, Keys(rest));
      assert head !! MatchSet(dep, Keys(rest));
    }
  }

  lemma {:induction false} OneElement<T>(s: set<T>, x: T)
    requires |s| == 1 && x in s
    ensures s == {x}
  {
    assert |s - {x}| == 0;
  }

  /** Resolution depends on the key set alone, not on the order of the records. */
  lemma {:induction false} ResolveByKeys(dep: string, rs: seq<Record>, k: Key)
    requires Distinct(rs)
    ensures Resolve(dep, rs) == Some(k) <==> MatchSet(dep, Keys(rs)) == {k}
  {
    CandidatesAreMatches(dep, rs);
    var found, ms := Candidates(dep, rs), MatchSet(dep, Keys(rs));
    if |found| == 1 {
      assert found[0] in ms;
      OneElement(ms, found[0]);
    }
  }

  /** Sorting, or any other reordering, keeps every resolution. */
  lemma {:induction false} ReorderKeepsResolution(dep: string, rs: seq<Record>, rs': seq<Record>)
    requires Distinct(rs) && Distinct(rs') && Keys(rs) == Keys(rs')
    ensures Resolve(dep, rs) == Resolve(dep, rs')
  {
    var a, b := Resolve(dep, rs), Resolve(dep, rs');
    if a.Some? {
      ResolveByKeys(dep, rs, a.value);
      ResolveByKeys(dep, rs', a.value);
    } else if b.Some? {
      ResolveByKeys(dep, rs, b.value);
      ResolveByKeys(dep, rs', b.value);
    }
  }

  /** A label names a package by its name alone, or by name and version. */
  predicate Means(dep: string, k: Key) { dep == k.name || dep == k.name + " " + k.version }

  lemma {:induction false} SplitParts(dep: string)
    ensures var l := Split(dep);
            NoSpace(l.name) && dep == if l.version.None? then l.name else l.name + " " + l.version.value
  {
    if dep != "" {
      assert dep == [dep[0]] + dep[1..];
      if dep[0] != ' ' { SplitParts(dep[1..]); }
    }
  }

  lemma {:induction false} MatchesExactly(dep: string, k: Key)
    requires NoSpace(k.name)
    ensures Matches(dep, k) <==> Means(dep, k)
  {
    hide Split;
    SplitParts(dep);
    SplitName(k.name);
    SplitVersioned(k.name, k.version);
  }

  /** A label resolves to a package if and only if that package, and no other of the file, is meant. */
  lemma {:induction false} ResolvesExactly(dep: string, rs: seq<Record>, k: Key)
    requires Distinct(rs) && forall i | 0 <= i < |rs| :: NoSpace(rs[i].key.name)
    ensures Resolve(dep, rs) == Some(k) <==>
              k in Keys(rs) && Means(dep, k) && forall x | x in Keys(rs) && Means(dep, x) :: x == k
  {
    hide Resolve, Matches, Means;
    ResolveByKeys(dep, rs, k);
    forall x | x in Keys(rs) ensures Matches(dep, x) <==> Means(dep, x) { MatchesExactly(dep, x); }
    if MatchSet(dep, Keys(rs)) == {k} {
      assert k in MatchSet(dep, Keys(rs));
      forall x | x in Keys(rs) && Means(dep, x) ensures x == k { assert x in MatchSet(dep, Keys(rs)); }
    }
  }

  // ----- Canonical labels

  function NameCount(name: string, rs: seq<Record>): nat {
    if rs == [] then 0 else (if rs[0].key.name == name then 1 else 0) + NameCount(name, rs[1..])
  }

  function CanonicalLabel(k: Key, rs: seq<Record>): string {
    if NameCount(k.name, rs) == 1 then k.name else k.name + " " + k.version
  }

  /** No other package of the file has this package's name. */
  predicate NameUnique(ks: set<Key>, k: Key) { forall x | x in ks && x.name == k.name :: x == k }

  /** The label Cargo writes for a package: its name if that is enough, else name and version. */
  predicate Shortest(ks: set<Key>, k: Key, dep: string) {
    dep == if NameUnique(ks, k) then k.name else k.name + " " + k.version
  }

  lemma {:induction false} NameCountZero(name: string, rs: seq<Record>)
    ensures NameCount(name, rs) == 0 <==> forall x | x in Keys(rs) :: x.name != name
  {
    if rs == [] { NoKeys(); }
    else {
      KeysSplit(rs);
      NameCountZero(name, rs[1..]);
      assert rs[0].key in Keys(rs);
    }
  }

  lemma {:induction false} NameCountOne(rs: seq<Record>, k: Key)
    requires Distinct(rs) && k in Keys(rs)
    ensures NameCount(k.name, rs) == 1 <==> NameUnique(Keys(rs), k)
  {
    KeysSplit(rs);
    var rest := rs[1..];
    NameCountZero(k.name, rest);
    if rs[0].key == k {
      assert k !in Keys(rest);
    } else {
      assert k in Keys(rest) && rs[0].key in Keys(rs);
      NameCountOne(rest, k);
    }
  }

  /** Counting names picks the label Cargo writes. */
  lemma {:induction false} CanonicalIsShortest(rs: seq<Record>, k: Key)
    requires Distinct(rs) && k in Keys(rs)
    ensures Shortest(Keys(rs), k, CanonicalLabel(k, rs))
  {
    NameCountOne(rs, k);
  }

  lemma {:induction false} NameCountIsCandidates(name: string, rs: seq<Record>)
    requires NoSpace(name)
    ensures NameCount(name, rs) == |Candidates(name, rs)|
  {
    SplitName(name);
    if rs != [] { NameCountIsCandidates(name, rs[1..]); }
  }

  predicate Named(rs: seq<Record>) { forall i | 0 <= i < |rs| :: NoSpace(rs[i].key.name) }

  /** Shortening a label that resolves keeps what it resolves to. */
  lemma {:induction false} CanonicalResolves(dep: string, rs: seq<Record>, k: Key)
    requires Distinct(rs) && Named(rs) && Resolve(dep, rs) == Some(k)
    ensures Resolve(CanonicalLabel(k, rs), rs) == Some(k) && k in Keys(rs)
  {
    var ks := Keys(rs);
    ResolveByKeys(dep, rs, k);
    assert k in MatchSet(dep, ks);
    var i :| 0 <= i < |rs| && rs[i].key == k;
    NameCountIsCandidates(k.name, rs);
    CandidatesAreMatches(k.name, rs);
    SplitName(k.name);
    SplitVersioned(k.name, k.version);
    if NameCount(k.name, rs) == 1 {
      OneElement(MatchSet(k.name, ks), k);
    } else {
      assert Split(dep).version.None? ==> MatchSet(dep, ks) == MatchSet(k.name, ks);
      assert Split(dep).version.Some? ==> MatchSet(k.name + " " + k.version, ks) == MatchSet(dep, ks);
    }
    ResolveByKeys(CanonicalLabel(k, rs), rs, k);
  }

  // ----- Reachability

  /** The record with this key, as `by_key` finds it. */
  function Lookup(rs: seq<Record>, k: Key): (r: Option<Record>)
    ensures r.Some? <==> k in Keys(rs)
    ensures r.Some? ==> r.value in rs && r.value.key == k
  {
    if rs == [] then None
    else
      KeysSplit(rs);
      if rs[0].key == k then Some(rs[0]) else Lookup(rs[1..], k)
  }

  /** Every dependency of the package resolves. */
  predicate Resolved(rs: seq<Record>, k: Key) {
    k in Keys(rs) && forall i | 0 <= i < |Lookup(rs, k).value.deps| :: Resolve(Lookup(rs, k).value.deps[i], rs).Some?
  }

  predicate Edge(rs: seq<Record>, a: Key, b: Key) {
    a in Keys(rs) && exists i | 0 <= i < |Lookup(rs, a).value.deps| ::
        Resolve(Lookup(rs, a).value.deps[i], rs) == Some(b)
  }

  predicate IsPath(rs: seq<Record>, path: seq<Key>) {
    path != [] && forall i | 0 <= i < |path| - 1 :: Edge(rs, path[i], path[i + 1])
  }

  /** A path leads from a root to the key. */
  ghost predicate Reach(rs: seq<Record>, roots: set<Key>, k: Key) {
    exists path :: IsPath(rs, path) && path[0] in roots && path[|path| - 1] == k
  }

  lemma {:induction false} ReachStep(rs: seq<Record>, roots: set<Key>, a: Key, b: Key)
    requires Reach(rs, roots, a) && Edge(rs, a, b)
    ensures Reach(rs, roots, b)
  {
    var path :| IsPath(rs, path) && path[0] in roots && path[|path| - 1] == a;
    var longer := path + [b];
    assert IsPath(rs, longer) by {
      hide Edge;
      forall i | 0 <= i < |longer| - 1 ensures Edge(rs, longer[i], longer[i + 1]) {
        if i < |path| - 1 { assert Edge(rs, path[i], path[i + 1]); }
      }
    }
  }

  lemma {:induction false} ReachRoot(rs: seq<Record>, roots: set<Key>, k: Key)
    requires k in roots
    ensures Reach(rs, roots, k)
  {
    assert IsPath(rs, [k]);
  }

  ghost predicate Closed(rs: seq<Record>, s: set<Key>) {
    forall a, b | a in s && Edge(rs, a, b) :: b in s
  }

  lemma {:induction false} ClosedContains(rs: seq<Record>, s: set<Key>, path: seq<Key>)
    requires Closed(rs, s) && IsPath(rs, path) && path[0] in s
    ensures path[|path| - 1] in s
  {
    if |path| > 1 {
      assert Edge(rs, path[0], path[1]);
      ClosedContains(rs, s, path[1..]);
    }
  }

  lemma {:induction false} LookupKey(rs: seq<Record>, k: Key)
    ensures Lookup(rs, k).Some? <==> k in Keys(rs)
  {}

  lemma {:induction false} NotResolved(rs: seq<Record>, k: Key)
    requires Lookup(rs, k).None?
    ensures !Resolved(rs, k)
  {}

  lemma {:induction false} ReachIn(rs: seq<Record>, roots: set<Key>, s: set<Key>, k: Key)
    requires Closed(rs, s) && roots <= s && Reach(rs, roots, k)
    ensures k in s
  {
    var path :| IsPath(rs, path) && path[0] in roots && path[|path| - 1] == k;
    ClosedContains(rs, s, path);
  }

  /** Resolve all dependencies of one record, in order. */
  method Successors(rs: seq<Record>, record: Record, ghost key: Key) returns (r: Option<seq<Key>>)
    requires Lookup(rs, key) == Some(record)
    ensures r.Some? <==> Resolved(rs, key)
    ensures r.Some? ==> forall b :: b in r.value <==> Edge(rs, key, b)
  {
    hide Keys, Resolve, Lookup;
    LookupKey(rs, key);
    var out: seq<Key> := [];
    for i := 0 to |record.deps|
      invariant |out| == i
      invariant forall n | 0 <= n < i :: Resolve(record.deps[n], rs) == Some(out[n])
    {
      var k := Resolve(record.deps[i], rs);
      if k.None? { return None; }
      out := out + [k.value];
    }
    return Some(out);
  }

  method ToSeq(s: set<Key>) returns (q: seq<Key>)
    ensures forall k :: k in q <==> k in s
  {
    q := [];
    var rest := s;
    while rest != {}
      invariant rest <= s && forall k :: k in q <==> k in s - rest
      decreases rest
    {
      var k :| k in rest;
      q, rest := q + [k], rest - {k};
    }
  }

  /** The worklist of `_project_cargo_lock`.  It ends with exactly the reachable packages, or
      refuses: exactly if a reachable package is missing or has a dependency that does not
      resolve uniquely. */
  method Reachable(rs: seq<Record>, roots: set<Key>) returns (r: Option<set<Key>>)
    ensures r.Some? ==> (forall k :: k in r.value <==> Reach(rs, roots, k)) && r.value <= Keys(rs)
    ensures r.Some? <==> forall k :: Reach(rs, roots, k) ==> Resolved(rs, k)
  {
    hide Keys, Edge, Lookup, Reach;
    var pending := ToSeq(roots);
    var reachable: set<Key> := {};
    forall k | k in roots ensures Reach(rs, roots, k) { ReachRoot(rs, roots, k); }
    while pending != []
      invariant reachable <= Keys(rs)
      invariant forall k | k in reachable :: Reach(rs, roots, k) && Resolved(rs, k)
      invariant forall k | k in pending :: Reach(rs, roots, k)
      invariant forall k | k in roots :: k in reachable || k in pending
      invariant forall a, b | a in reachable && Edge(rs, a, b) :: b in reachable || b in pending
      decreases |Keys(rs) - reachable|, |pending|
    {
      var key := pending[|pending| - 1];
      ghost var before := pending;
      pending := pending[..|pending| - 1];
      assert forall k | k in before :: k in pending || k == key;
      if key in reachable { continue; }
      var record := Lookup(rs, key);
      if record.None? { NotResolved(rs, key); return None; }
      LookupKey(rs, key);
      ghost var old_ := reachable;
      reachable := reachable + {key};
      assert Keys(rs) - reachable == Keys(rs) - old_ - {key};
      assert |Keys(rs) - reachable| < |Keys(rs) - old_|;
      var next := Successors(rs, record.value, key);
      if next.None? { return None; }
      forall b | b in next.value ensures Reach(rs, roots, b) { ReachStep(rs, roots, key, b); }
      pending := pending + next.value;
    }
    forall k | Reach(rs, roots, k) ensures k in reachable { ReachIn(rs, roots, reachable, k); }
    return Some(reachable);
  }

  // ----- Pruning and relabelling

  function Retain(rs: seq<Record>, s: set<Key>): (out: seq<Record>)
    ensures forall r :: r in out <==> r in rs && r.key in s
  {
    if rs == [] then [] else (if rs[0].key in s then [rs[0]] else []) + Retain(rs[1..], s)
  }

  lemma {:induction false} RetainKeys(rs: seq<Record>, s: set<Key>)
    ensures Keys(Retain(rs, s)) == Keys(rs) * s
    ensures Distinct(rs) ==> Distinct(Retain(rs, s))
  {
    if rs == [] {
      NoKeys();
    } else {
      var out, tail := Retain(rs, s), Retain(rs[1..], s);
      KeysSplit(rs);
      RetainKeys(rs[1..], s);
      if rs[0].key in s {
        assert out[1..] == tail;
        KeysSplit(out);
        if Distinct(rs) {
          forall i, j | 0 <= i < j < |out| ensures out[i].key != out[j].key {
            assert out[j] == tail[j - 1];
            if i == 0 { assert tail[j - 1].key in Keys(tail); } else { assert out[i] == tail[i - 1]; }
          }
        }
      } else {
        assert out == tail;
      }
    }
  }

  /** A label whose target is kept resolves to it in the pruned file too. */
  lemma {:induction false} PruneKeepsResolution(dep: string, rs: seq<Record>, s: set<Key>, k: Key)
    requires Distinct(rs) && Resolve(dep, rs) == Some(k) && k in s
    ensures Resolve(dep, Retain(rs, s)) == Some(k)
  {
    RetainKeys(rs, s);
    ResolveByKeys(dep, rs, k);
    ResolveByKeys(dep, Retain(rs, s), k);
    assert k in MatchSet(dep, Keys(rs));
    assert MatchSet(dep, Keys(rs) * s) == {k};
  }

  predicate AllResolve(rs: seq<Record>, deps: seq<string>) {
    forall i | 0 <= i < |deps| :: Resolve(deps[i], rs).Some?
  }

  predicate Sound(rs: seq<Record>) { forall n | 0 <= n < |rs| :: AllResolve(rs, rs[n].deps) }

  function Relabelled(rs: seq<Record>, deps: seq<string>): (out: seq<string>)
    requires AllResolve(rs, deps)
    ensures |out| == |deps|
  {
    seq(|deps|, i requires 0 <= i < |deps| => CanonicalLabel(Resolve(deps[i], rs).value, rs))
  }

  function Canonical(rs: seq<Record>): (out: seq<Record>)
    requires Sound(rs)
    ensures |out| == |rs|
  {
    seq(|rs|, n requires 0 <= n < |rs| => Record(rs[n].key, Relabelled(rs, rs[n].deps)))
  }

  /** Same keys in the same order: resolution and canonical labels agree. */
  predicate SameKeys(a: seq<Record>, b: seq<Record>) {
    |a| == |b| && forall n | 0 <= n < |a| :: a[n].key == b[n].key
  }

  lemma {:induction false} SameKeysAgree(a: seq<Record>, b: seq<Record>, dep: string, name: string)
    requires SameKeys(a, b)
    ensures Candidates(dep, a) == Candidates(dep, b) && NameCount(name, a) == NameCount(name, b)
  {
    if a != [] { SameKeysAgree(a[1..], b[1..], dep, name); }
  }

  lemma {:induction false} SameKeysSame(a: seq<Record>, b: seq<Record>)
    requires SameKeys(a, b)
    ensures forall dep :: Resolve(dep, a) == Resolve(dep, b)
    ensures forall k :: CanonicalLabel(k, a) == CanonicalLabel(k, b)
  {
    forall dep ensures Resolve(dep, a) == Resolve(dep, b) { SameKeysAgree(a, b, dep, ""); }
    forall k ensures CanonicalLabel(k, a) == CanonicalLabel(k, b) { SameKeysAgree(a, b, "", k.name); }
  }

  lemma {:induction false} ResolvedIn(rs: seq<Record>, dep: string)
    requires Distinct(rs) && Resolve(dep, rs).Some?
    ensures Resolve(dep, rs).value in Keys(rs)
  {
    var k := Resolve(dep, rs).value;
    ResolveByKeys(dep, rs, k);
    assert k in MatchSet(dep, Keys(rs));
  }

  lemma {:induction false} AllShortest(rs: seq<Record>)
    requires Distinct(rs) && Sound(rs)
    ensures forall n, i | 0 <= n < |rs| && 0 <= i < |rs[n].deps| ::
              Shortest(Keys(rs), Resolve(rs[n].deps[i], rs).value, Canonical(rs)[n].deps[i])
  {
    hide Resolve, CanonicalLabel, Shortest, Distinct;
    forall n, i | 0 <= n < |rs| && 0 <= i < |rs[n].deps|
      ensures Shortest(Keys(rs), Resolve(rs[n].deps[i], rs).value, Canonical(rs)[n].deps[i])
    {
      ResolvedIn(rs, rs[n].deps[i]);
      CanonicalIsShortest(rs, Resolve(rs[n].deps[i], rs).value);
    }
  }

  /** `_canonicalize_lock_dependencies`: records are rewritten in place, one after the other,
      while later labels are resolved against the partly rewritten list. */
  method Canonicalize(rs: seq<Record>) returns (r: Option<seq<Record>>)
    ensures r.Some? <==> Sound(rs)
    ensures r.Some? ==> r.value == Canonical(rs)
    ensures r.Some? && Distinct(rs) ==>
              forall n, i | 0 <= n < |rs| && 0 <= i < |rs[n].deps| ::
                Shortest(Keys(rs), Resolve(rs[n].deps[i], rs).value, r.value[n].deps[i])
  {
    hide Resolve, CanonicalLabel, Shortest, Distinct;
    var records := rs;
    for n := 0 to |rs|
      invariant SameKeys(rs, records)
      invariant forall m | 0 <= m < n ::
                AllResolve(rs, rs[m].deps) && records[m] == Record(rs[m].key, Relabelled(rs, rs[m].deps))
      invariant forall m | n <= m < |rs| :: records[m] == rs[m]
    {
      var normalized: seq<string> := [];
      SameKeysSame(rs, records);
      for i := 0 to |rs[n].deps|
        invariant |normalized| == i
        invariant forall m | 0 <= m < i ::
                    Resolve(rs[n].deps[m], rs).Some?
                        && normalized[m] == CanonicalLabel(Resolve(rs[n].deps[m], rs).value, rs)
      {
        var key := Resolve(records[n].deps[i], records);
        if key.None? { return None; }
        normalized := normalized + [CanonicalLabel(key.value, records)];
      }
      assert normalized == Relabelled(rs, rs[n].deps);
      records := records[n := records[n].(deps := normalized)];
    }
    assert records == Canonical(rs);
    if Distinct(rs) { AllShortest(rs); }
    return Some(records);
  }

  /** Relabelling keeps every resolved edge, and doing it twice changes nothing more. */
  lemma {:induction false} CanonicalKeepsGraph(rs: seq<Record>)
    requires Distinct(rs) && Named(rs) && Sound(rs)
    ensures Sound(Canonical(rs)) && SameKeys(rs, Canonical(rs))
    ensures forall n, i | 0 <= n < |rs| && 0 <= i < |rs[n].deps| ::
              Resolve(Canonical(rs)[n].deps[i], Canonical(rs)) == Resolve(rs[n].deps[i], rs)
    ensures forall n, i | 0 <= n < |rs| && 0 <= i < |rs[n].deps| ::
              Shortest(Keys(rs), Resolve(rs[n].deps[i], rs).value, Canonical(rs)[n].deps[i])
    ensures Canonical(Canonical(rs)) == Canonical(rs)
  {
    hide Resolve, CanonicalLabel, Distinct, Named, Shortest, Keys;
    var out := Canonical(rs);
    SameKeysSame(rs, out);
    forall n, i | 0 <= n < |rs| && 0 <= i < |rs[n].deps|
      ensures Resolve(out[n].deps[i], out) == Resolve(rs[n].deps[i], rs)
      ensures Shortest(Keys(rs), Resolve(rs[n].deps[i], rs).value, out[n].deps[i])
    {
      CanonicalResolves(rs[n].deps[i], rs, Resolve(rs[n].deps[i], rs).value);
      CanonicalIsShortest(rs, Resolve(rs[n].deps[i], rs).value);
    }
    forall n | 0 <= n < |out| ensures AllResolve(out, out[n].deps) && Relabelled(out, out[n].deps) == out[n].deps {
      forall i | 0 <= i < |out[n].deps| ensures Resolve(out[n].deps[i], out) == Resolve(rs[n].deps[i], rs) {}
    }
  }

  // ----- The whole projection

  predicate SameEdges(rs: seq<Record>, out: seq<Record>, b: Record) {
    exists a | a in rs ::
      && a.key == b.key && |a.deps| == |b.deps|
      && forall i | 0 <= i < |a.deps| ::
           && Resolve(a.deps[i], rs).Some? && Resolve(b.deps[i], out) == Resolve(a.deps[i], rs)
           && Shortest(Keys(out), Resolve(a.deps[i], rs).value, b.deps[i])
  }

  /** `out` holds exactly the reachable packages, each with its dependencies in order, under
      canonical labels that resolve in `out` to what the old labels resolved to in `rs`. */
  ghost predicate Projected(rs: seq<Record>, roots: set<Key>, out: seq<Record>) {
    && Distinct(out) && Sound(out)
    && (forall k :: k in Keys(out) <==> Reach(rs, roots, k))
    && forall b | b in out :: SameEdges(rs, out, b)
  }

  lemma {:induction false} FoundByKey(rs: seq<Record>, r: Record)
    requires Distinct(rs) && r in rs
    ensures Lookup(rs, r.key) == Some(r) && r.key in Keys(rs)
  {
    KeysSplit(rs);
    if rs[0] != r {
      assert r in rs[1..];
      FoundByKey(rs[1..], r);
    }
  }

  lemma {:induction false} RetainedSound(rs: seq<Record>, roots: set<Key>, s: set<Key>)
    requires Distinct(rs) && (forall k :: k in s <==> Reach(rs, roots, k)) && forall k | k in s :: Resolved(rs, k)
    ensures Sound(Retain(rs, s)) && Distinct(Retain(rs, s))
    ensures forall r, i | r in Retain(rs, s) && 0 <= i < |r.deps| ::
              Resolve(r.deps[i], rs).Some? && Resolve(r.deps[i], Retain(rs, s)) == Resolve(r.deps[i], rs)
  {
    hide Resolve, Reach, Keys, Distinct;
    var out := Retain(rs, s);
    RetainKeys(rs, s);
    forall r, i | r in out && 0 <= i < |r.deps|
      ensures Resolve(r.deps[i], rs).Some? && Resolve(r.deps[i], out) == Resolve(r.deps[i], rs)
    {
      FoundByKey(rs, r);
      var k := Resolve(r.deps[i], rs);
      assert Resolved(rs, r.key);
      assert Edge(rs, r.key, k.value);
      ReachStep(rs, roots, r.key, k.value);
      PruneKeepsResolution(r.deps[i], rs, s, k.value);
    }
  }

  lemma {:induction false} RetainNamed(rs: seq<Record>, s: set<Key>)
    requires Named(rs)
    ensures Named(Retain(rs, s))
  {
    var out := Retain(rs, s);
    forall i | 0 <= i < |out| ensures NoSpace(out[i].key.name) { assert out[i] in rs; }
  }

  lemma {:induction false} KeysOfSame(a: seq<Record>, b: seq<Record>)
    requires SameKeys(a, b)
    ensures Keys(a) == Keys(b)
  {
    forall k | k in Keys(a) ensures k in Keys(b) { var i :| 0 <= i < |a| && a[i].key == k; assert b[i].key == k; }
    forall k | k in Keys(b) ensures k in Keys(a) { var i :| 0 <= i < |b| && b[i].key == k; assert a[i].key == k; }
  }

  lemma {:induction false} ProjectedFinally(rs: seq<Record>, roots: set<Key>, s: set<Key>)
    requires Distinct(rs) && Named(rs) && (forall k :: k in s <==> Reach(rs, roots, k)) && s <= Keys(rs)
    requires forall k | k in s :: Resolved(rs, k)
    ensures Sound(Retain(rs, s)) && Projected(rs, roots, Canonical(Retain(rs, s)))
  {
    hide Resolve, Reach, Resolved, CanonicalLabel, Named, Shortest;
    var kept := Retain(rs, s);
    RetainedSound(rs, roots, s);
    RetainKeys(rs, s);
    RetainNamed(rs, s);
    CanonicalKeepsGraph(kept);
    var out := Canonical(kept);
    SameKeysSame(kept, out);
    KeysOfSame(kept, out);
    forall b | b in out ensures SameEdges(rs, out, b) {
      var n :| 0 <= n < |out| && out[n] == b;
      assert kept[n] in kept && kept[n] in rs;
    }
  }

  method Project(rs: seq<Record>, roots: set<Key>) returns (r: Option<seq<Record>>)
    requires Distinct(rs) && Named(rs)
    ensures r.Some? <==> forall k :: Reach(rs, roots, k) ==> Resolved(rs, k)
    ensures r.Some? ==> Projected(rs, roots, r.value)
  {
    hide Resolve, Reach, Resolved, Projected;
    var reachable := Reachable(rs, roots);
    if reachable.None? { return None; }
    var retained := Retain(rs, reachable.value);
    RetainedSound(rs, roots, reachable.value);
    r := Canonicalize(retained);
    ProjectedFinally(rs, roots, reachable.value);
  }

  // ----- The service rename

  const SERVICE := Key("service", "0.1.0", "")

  function RenameKey(k: Key, name: string): Key { if k == SERVICE then k.(name := name) else k }

  function Rename(rs: seq<Record>, name: string): (out: seq<Record>)
    ensures |out| == |rs|
  {
    seq(|rs|, i requires 0 <= i < |rs| => Record(RenameKey(rs[i].key, name), rs[i].deps))
  }

  predicate Fresh(rs: seq<Record>, name: string) {
    forall i | 0 <= i < |rs| :: rs[i].key != SERVICE ==> rs[i].key.name != name
  }

  /** With a fresh name, a label that resolved to another package still does, and a label that
      resolved to the service itself no longer resolves (so a package that depends on the
      service makes the projection refuse) unless the name is unchanged. */
  lemma {:induction false} RenameResolution(rs: seq<Record>, name: string, dep: string, k: Key)
    requires Distinct(rs) && Fresh(rs, name) && Resolve(dep, rs) == Some(k)
    ensures Distinct(Rename(rs, name))
    ensures k != SERVICE ==> Resolve(dep, Rename(rs, name)) == Some(k)
    ensures k == SERVICE && name != "service" ==> Resolve(dep, Rename(rs, name)).None?
  {
    hide Resolve;
    var out := Rename(rs, name);
    forall i, j | 0 <= i < j < |out| ensures out[i].key != out[j].key { assert rs[i].key != rs[j].key; }
    ResolveByKeys(dep, rs, k);
    assert k in MatchSet(dep, Keys(rs));
    forall x | x in MatchSet(dep, Keys(out)) ensures k != SERVICE ==> x == k
      ensures k == SERVICE && name != "service" ==> false
    {
      var i :| 0 <= i < |out| && out[i].key == x;
      assert rs[i].key in Keys(rs);
      if rs[i].key != SERVICE { assert rs[i].key in MatchSet(dep, Keys(rs)); }
      else { var m :| 0 <= m < |rs| && rs[m].key == k; }
    }
    if k != SERVICE {
      var m :| 0 <= m < |rs| && rs[m].key == k;
      assert out[m].key == k;
      assert MatchSet(dep, Keys(out)) == {k};
      ResolveByKeys(dep, out, k);
    } else if Resolve(dep, out).Some? {
      ResolveByKeys(dep, out, Resolve(dep, out).value);
    }
  }

  // ----- Local direct edges

  function ResolvedNames(rs: seq<Record>, deps: seq<string>): set<string>
    requires AllResolve(rs, deps)
  {
    set i | 0 <= i < |deps| :: Resolve(deps[i], rs).value.name
  }

  /** The dependencies of a local package whose targets its manifest still declares. */
  function Declared(rs: seq<Record>, deps: seq<string>, names: set<string>): (out: seq<string>)
    requires AllResolve(rs, deps)
    ensures forall d :: d in out <==> d in deps && Resolve(d, rs).value.name in names
  {
    if deps == [] then []
    else
      assert AllResolve(rs, deps[1..]);
      (if Resolve(deps[0], rs).value.name in names then [deps[0]] else []) + Declared(rs, deps[1..], names)
  }

  /** `_project_local_direct_edges` admits a manifest whose names are all resolved by the old
      edges, and then keeps edges to exactly those names. */
  lemma {:induction false} DeclaredExact(rs: seq<Record>, deps: seq<string>, names: set<string>)
    requires AllResolve(rs, deps) && names <= ResolvedNames(rs, deps)
    ensures AllResolve(rs, Declared(rs, deps, names)) && ResolvedNames(rs, Declared(rs, deps, names)) == names
  {
    hide Resolve;
    var out := Declared(rs, deps, names);
    forall i | 0 <= i < |out| ensures Resolve(out[i], rs).Some? && Resolve(out[i], rs).value.name in names {
      assert out[i] in out && out[i] in deps;
    }
    forall n | n in names ensures n in ResolvedNames(rs, out) {
      var i :| 0 <= i < |deps| && Resolve(deps[i], rs).value.name == n;
      assert deps[i] in out;
      var m :| 0 <= m < |out| && out[m] == deps[i];
    }
  }

  function LocalKey(name: string): Key { Key(name, "0.1.0", "") }

  /** What the manifests of the local packages declare, by package. */
  type Direct = map<string, set<string>>

  predicate Local(direct: Direct, k: Key) { k == LocalKey(k.name) && k.name in direct }

  /** The manifest of a local package asks for nothing its record does not resolve. */
  predicate Declares(rs: seq<Record>, direct: Direct, name: string)
    requires name in direct
  {
    && LocalKey(name) in Keys(rs)
    && var deps := Lookup(rs, LocalKey(name)).value.deps;
       AllResolve(rs, deps) && direct[name] <= ResolvedNames(rs, deps)
  }

  predicate AllDeclare(rs: seq<Record>, direct: Direct) { forall n | n in direct :: Declares(rs, direct, n) }

  /** The labels a record keeps: of a local package, those whose targets are still declared. */
  function KeptDeps(rs: seq<Record>, direct: Direct, r: Record): seq<string> {
    if Local(direct, r.key) && AllResolve(rs, r.deps) then Declared(rs, r.deps, direct[r.key.name]) else r.deps
  }

  function Localized(rs: seq<Record>, direct: Direct): (out: seq<Record>)
    ensures |out| == |rs| && SameKeys(rs, out)
  {
    seq(|rs|, i requires 0 <= i < |rs| => Record(rs[i].key, KeptDeps(rs, direct, rs[i])))
  }

  lemma {:induction false} DeclaredSame(a: seq<Record>, b: seq<Record>, deps: seq<string>, names: set<string>)
    requires SameKeys(a, b)
    ensures AllResolve(a, deps) <==> AllResolve(b, deps)
    ensures AllResolve(a, deps) ==>
              ResolvedNames(a, deps) == ResolvedNames(b, deps) && Declared(a, deps, names) == Declared(b, deps, names)
  {
    hide Resolve;
    SameKeysSame(a, b);
    if deps != [] { DeclaredSame(a, b, deps[1..], names); }
  }

  function IndexOf(rs: seq<Record>, k: Key): (i: nat)
    ensures i <= |rs| && (i < |rs| ==> rs[i].key == k) && (i == |rs| <==> k !in Keys(rs))
  {
    if rs == [] then 0
    else
      KeysSplit(rs);
      if rs[0].key == k then 0 else 1 + IndexOf(rs[1..], k)
  }

  lemma {:induction false} LookupAt(rs: seq<Record>, i: nat)
    requires Distinct(rs) && i < |rs|
    ensures Lookup(rs, rs[i].key) == Some(rs[i])
  {
    assert rs[i].key in Keys(rs);
  }

  /** The list after the local packages outside `pending` were edited. */
  predicate PartlyLocalized(rs: seq<Record>, direct: Direct, pending: set<string>, records: seq<Record>) {
    && SameKeys(rs, records)
    && forall i | 0 <= i < |rs| ::
         records[i] == if Local(direct, rs[i].key) && rs[i].key.name !in pending
                       then Record(rs[i].key, KeptDeps(rs, direct, rs[i])) else rs[i]
  }

  lemma {:induction false} LocalizedAll(rs: seq<Record>, direct: Direct, records: seq<Record>)
    requires PartlyLocalized(rs, direct, {}, records)
    ensures records == Localized(rs, direct)
  {}

  lemma {:induction false} LocalizeOne(
      rs: seq<Record>, direct: Direct, pending: set<string>, records: seq<Record>, name: string, i: nat,
          retained: seq<string>)
    requires Distinct(rs) && PartlyLocalized(rs, direct, pending, records) && name in pending && name in direct
    requires i < |rs| && rs[i].key == LocalKey(name) && AllResolve(rs, rs[i].deps)
    requires retained == Declared(rs, rs[i].deps, direct[name])
    ensures PartlyLocalized(rs, direct, pending - {name}, records[i := records[i].(deps := retained)])
  {
    hide Resolve, Declared, AllResolve;
    forall j | 0 <= j < |rs| && j != i && Local(direct, rs[j].key) ensures rs[j].key.name != name {
      assert rs[j].key != rs[i].key;
    }
  }

  /** `_project_local_direct_edges`: records are edited in place, one local package after the other. */
  method ProjectEdges(rs: seq<Record>, direct: Direct) returns (r: Option<seq<Record>>)
    requires Distinct(rs)
    ensures r.Some? <==> AllDeclare(rs, direct)
    ensures r.Some? ==> r.value == Localized(rs, direct)
  {
    hide Resolve, KeptDeps;
    var records, pending := rs, direct.Keys;
    while pending != {}
      invariant pending <= direct.Keys && PartlyLocalized(rs, direct, pending, records)
      invariant forall n | n in direct && n !in pending :: Declares(rs, direct, n)
      decreases pending
    {
      var name :| name in pending;
      var i := IndexOf(records, LocalKey(name));
      KeysOfSame(rs, records);
      if i == |records| { return None; }
      LookupAt(rs, i);
      var current := records[i].deps;
      assert current == rs[i].deps;
      DeclaredSame(rs, records, current, direct[name]);
      if !AllResolve(records, current) || !(direct[name] <= ResolvedNames(records, current)) { return None; }
      var retained := Declared(records, current, direct[name]);
      LocalizeOne(rs, direct, pending, records, name, i, retained);
      records := records[i := records[i].(deps := retained)];
      pending := pending - {name};
    }
    LocalizedAll(rs, direct, records);
    return Some(records);
  }

  // ----- From the input lock to the output lock

  /** No other local package has the service's new name. */
  predicate FreshKey(rs: seq<Record>, name: string) { LocalKey(name) in Keys(rs) ==> name == "service" }

  /** The service under its new name, and every other local package. */
  function Roots(direct: Direct, name: string): set<Key> {
    {LocalKey(name)} + set n | n in direct && n != "service" :: LocalKey(n)
  }

  /** The input with declared edges only and the service renamed. */
  function Prepared(rs: seq<Record>, direct: Direct, name: string): seq<Record> { Rename(Localized(rs, direct), name) }

  /** An output record is an input record, renamed if it is the service, with the kept labels in order;
      each is canonical and resolves in the output to what it resolved to in the input. */
  predicate FromInput(rs: seq<Record>, direct: Direct, name: string, out: seq<Record>, b: Record) {
    exists a | a in rs ::
      && b.key == RenameKey(a.key, name) && |b.deps| == |KeptDeps(rs, direct, a)|
      && forall i | 0 <= i < |b.deps| ::
           && Resolve(b.deps[i], out).Some? && Shortest(Keys(out), Resolve(b.deps[i], out).value, b.deps[i])
           && (Resolve(KeptDeps(rs, direct, a)[i], rs).Some? ==>
                 Resolve(b.deps[i], out) == Resolve(KeptDeps(rs, direct, a)[i], rs))
  }

  /** `out` is the projection of the input lock. */
  ghost predicate LockProjected(rs: seq<Record>, direct: Direct, name: string, out: seq<Record>) {
    && Distinct(out) && Sound(out)
    && (forall k :: k in Keys(out) <==> Reach(Prepared(rs, direct, name), Roots(direct, name), k))
    && forall b | b in out :: FromInput(rs, direct, name, out, b)
  }

  lemma {:induction false} RenameFacts(rs: seq<Record>, name: string)
    requires Distinct(rs) && Named(rs) && FreshKey(rs, name) && NoSpace(name)
    ensures Distinct(Rename(rs, name)) && Named(Rename(rs, name))
  {
    var out := Rename(rs, name);
    forall i, j | 0 <= i < j < |out| ensures out[i].key != out[j].key {
      assert rs[i].key != rs[j].key && rs[i].key in Keys(rs) && rs[j].key in Keys(rs);
    }
  }

  lemma {:induction false} PreparedDistinct(rs: seq<Record>, direct: Direct, name: string)
    requires Distinct(rs) && FreshKey(rs, name)
    ensures Distinct(Prepared(rs, direct, name))
  {
    var p := Prepared(rs, direct, name);
    forall i, j | 0 <= i < j < |p| ensures p[i].key != p[j].key {
      assert rs[i].key != rs[j].key && rs[i].key in Keys(rs) && rs[j].key in Keys(rs);
    }
  }

  /** A label that resolved in the input and resolves after the rename resolves to the same package. */
  lemma {:induction false} LabelSurvives(rs: seq<Record>, direct: Direct, name: string, dep: string)
    requires Distinct(rs) && FreshKey(rs, name)
    requires Resolve(dep, rs).Some? && Resolve(dep, Prepared(rs, direct, name)).Some?
    ensures Resolve(dep, Prepared(rs, direct, name)) == Resolve(dep, rs)
  {
    hide Resolve;
    var p, k, k' := Prepared(rs, direct, name), Resolve(dep, rs).value, Resolve(dep, Prepared(rs, direct, name)).value;
    PreparedDistinct(rs, direct, name);
    ResolveByKeys(dep, rs, k);
    ResolveByKeys(dep, p, k');
    assert k in MatchSet(dep, Keys(rs)) && k' in MatchSet(dep, Keys(p));
    var m :| 0 <= m < |rs| && rs[m].key == k;
    var n :| 0 <= n < |p| && p[n].key == k';
    if k != SERVICE || name == "service" {
      assert p[m].key == k;
      assert k in MatchSet(dep, Keys(p));
    } else if rs[n].key != SERVICE {
      assert rs[n].key in MatchSet(dep, Keys(rs));
    }
  }

  lemma {:induction false} FromPrepared(rs: seq<Record>, direct: Direct, name: string, out: seq<Record>, b: Record)
    requires Distinct(rs) && FreshKey(rs, name) && SameEdges(Prepared(rs, direct, name), out, b)
    ensures FromInput(rs, direct, name, out, b)
  {
    hide Resolve, Shortest, KeptDeps;
    var p := Prepared(rs, direct, name);
    var c :| c in p && c.key == b.key && |c.deps| == |b.deps|
             && forall i | 0 <= i < |c.deps| ::
                  && Resolve(c.deps[i], p).Some? && Resolve(b.deps[i], out) == Resolve(c.deps[i], p)
                  && Shortest(Keys(out), Resolve(c.deps[i], p).value, b.deps[i]);
    var n :| 0 <= n < |p| && p[n] == c;
    var a := rs[n];
    assert c == Record(RenameKey(a.key, name), KeptDeps(rs, direct, a));
    forall i | 0 <= i < |b.deps| && Resolve(c.deps[i], rs).Some?
      ensures Resolve(b.deps[i], out) == Resolve(c.deps[i], rs)
    {
      LabelSurvives(rs, direct, name, c.deps[i]);
    }
  }

  lemma {:induction false} LocalizedFacts(rs: seq<Record>, direct: Direct, name: string)
    requires Distinct(rs) && Named(rs) && FreshKey(rs, name)
    ensures var l := Localized(rs, direct); Distinct(l) && Named(l) && FreshKey(l, name)
  {
    var l := Localized(rs, direct);
    KeysOfSame(rs, l);
    forall i, j | 0 <= i < j < |l| ensures l[i].key != l[j].key { assert rs[i].key != rs[j].key; }
  }

  /** `_project_cargo_lock` up to its sort: declared edges, rename, worklist, relabelling. */
  method ProjectLock(rs: seq<Record>, direct: Direct, name: string) returns (r: Option<seq<Record>>)
    requires Distinct(rs) && Named(rs) && FreshKey(rs, name) && NoSpace(name)
    ensures r.Some? <==> (&& AllDeclare(rs, direct) && SERVICE in Keys(rs)
                          && forall k :: Reach(Prepared(rs, direct, name), Roots(direct, name), k) ==>
                                           Resolved(Prepared(rs, direct, name), k))
    ensures r.Some? ==> LockProjected(rs, direct, name, r.value)
  {
    hide Resolve, Reach, Resolved, SameEdges, FromInput, Localized, AllDeclare, Distinct, Named, FreshKey;
    var edges := ProjectEdges(rs, direct);
    if edges.None? { return None; }
    KeysOfSame(rs, edges.value);
    if SERVICE !in Keys(edges.value) { return None; }
    LocalizedFacts(rs, direct, name);
    RenameFacts(edges.value, name);
    ghost var p := Prepared(rs, direct, name);
    assert Rename(edges.value, name) == p;
    r := Project(Rename(edges.value, name), Roots(direct, name));
    assert r.Some? <==> forall k :: Reach(p, Roots(direct, name), k) ==> Resolved(p, k);
    if r.Some? {
      forall b | b in r.value
        ensures FromInput(rs, direct, name, r.value, b)
      {
        FromPrepared(rs, direct, name, r.value, b);
      }
    }
  }

  lemma {:induction false} SameRecordsKeys(a: seq<Record>, b: seq<Record>)
    requires forall r :: r in a <==> r in b
    ensures Keys(a) == Keys(b)
  {
    forall k | k in Keys(a) ensures k in Keys(b) { var i :| 0 <= i < |a| && a[i].key == k; assert a[i] in b; }
    forall k | k in Keys(b) ensures k in Keys(a) { var i :| 0 <= i < |b| && b[i].key == k; assert b[i] in a; }
  }

  lemma {:induction false} SortedRecord(
      rs: seq<Record>, direct: Direct, name: string, out: seq<Record>, sorted: seq<Record>, b: Record)
    requires Keys(out) == Keys(sorted) && forall dep :: Resolve(dep, sorted) == Resolve(dep, out)
    requires FromInput(rs, direct, name, out, b)
    ensures FromInput(rs, direct, name, sorted, b) && AllResolve(sorted, b.deps)
  {
    hide Resolve, Shortest, KeptDeps;
  }

  /** The final sort: any list with the same records is the projection just as well. */
  lemma {:induction false} SortedLock(
      rs: seq<Record>, direct: Direct, name: string, out: seq<Record>, sorted: seq<Record>)
    requires LockProjected(rs, direct, name, out)
    requires Distinct(sorted) && forall b :: b in sorted <==> b in out
    ensures LockProjected(rs, direct, name, sorted)
  {
    hide Resolve, Reach, Shortest, KeptDeps, Distinct;
    SameRecordsKeys(out, sorted);
    forall dep ensures Resolve(dep, sorted) == Resolve(dep, out) { ReorderKeepsResolution(dep, out, sorted); }
    forall b | b in sorted ensures FromInput(rs, direct, name, sorted, b) && AllResolve(sorted, b.deps) {
      SortedRecord(rs, direct, name, out, sorted, b);
    }
  }

  /** The service, under its new name, and every other local package are in the output. */
  lemma {:induction false} RootsKept(rs: seq<Record>, direct: Direct, name: string, out: seq<Record>)
    requires LockProjected(rs, direct, name, out)
    ensures Key(name, "0.1.0", "") in Keys(out)
    ensures forall n | n in direct && n != "service" :: Key(n, "0.1.0", "") in Keys(out)
  {
    hide Reach;
    ReachRoot(Prepared(rs, direct, name), Roots(direct, name), Key(name, "0.1.0", ""));
    forall n | n in direct && n != "service" ensures Key(n, "0.1.0", "") in Keys(out) {
      ReachRoot(Prepared(rs, direct, name), Roots(direct, name), Key(n, "0.1.0", ""));
    }
  }
}

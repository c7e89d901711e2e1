/** `from_path_map`: a tree of objects from a flat map of paths, built from the leaves upwards.

    The reference definition is top-down; the method follows the source, which fills one scope map
    per parent path and hangs finished scopes into their parents from the longest path to the
    shortest. */
module PathMaps {
  import opened ConfigValues
  import opened Resolution

  type PathMap = map<Path, Value>

  /** What `from_any_ref` makes of the values of a path map: resolved values that are not objects. */
  predicate LeafMap(m: PathMap) {
    forall p | p in m :: p != [] && Resolved(m[p]) && !m[p].Object?
  }

  predicate ProperPrefix(p: Path, q: Path) {
    |p| < |q| && q[..|p|] == p
  }

  /** One path is a proper prefix of another: a value would also have to be an object. */
  predicate Conflicting(m: PathMap) {
    exists p, q | p in m && q in m :: ProperPrefix(p, q)
  }

  /** `s` is the path of an object: some path continues it. */
  predicate IsScope(m: PathMap, s: Path) {
    exists p | p in m :: ProperPrefix(s, p)
  }

  // ---------------------------------------------------------------- the tree, top-down

  /** The keys below `s`. */
  function ChildKeys(m: PathMap, s: Path): (keys: set<string>)
    ensures forall k :: k in keys <==> s + [k] in m || IsScope(m, s + [k])
  {
    var keys := set p | p in m && ProperPrefix(s, p) :: p[|s|];
    assert forall k :: k in keys <==> s + [k] in m || IsScope(m, s + [k]) by {
      forall k ensures k in keys <==> s + [k] in m || IsScope(m, s + [k]) {
        ChildKey(m, s, k);
      }
    }
    keys
  }

  lemma ChildKey(m: PathMap, s: Path, k: string)
    ensures (exists p | p in m && ProperPrefix(s, p) :: p[|s|] == k) <==> s + [k] in m || IsScope(m, s + [k])
  {
    forall p | p in m && ProperPrefix(s, p) && p[|s|] == k
      ensures p == s + [k] || ProperPrefix(s + [k], p)
    {
      assert p[..|s| + 1] == p[..|s|] + [p[|s|]];
    }
    if s + [k] in m {
      assert (s + [k])[..|s|] == s && (s + [k])[|s|] == k;
    }
    if IsScope(m, s + [k]) {
      var p :| p in m && ProperPrefix(s + [k], p);
      assert p[..|s|] == (s + [k])[..|s|] == s && p[|s|] == (s + [k])[|s|];
    }
  }

  /** A bound on the length of the paths. */
  ghost function Depth(m: PathMap): (n: nat)
    ensures forall p | p in m :: |p| <= n
    decreases |m|
  {
    if m == map[] then 0
    else
      var q :| q in m;
      var rest := m - {q};
      var n := Depth(rest);
      assert forall p | p in m :: p == q || p in rest;
      if |q| < n then n else |q|
  }

  lemma ScopeIsShallow(m: PathMap, s: Path)
    requires IsScope(m, s)
    ensures |s| < Depth(m)
  {
    var p :| p in m && ProperPrefix(s, p);
  }

  /** The entries of the object at `s`. */
  ghost function Fields(m: PathMap, s: Path): (r: map<string, Value>)
    decreases Depth(m) - |s|
  {
    map k | k in ChildKeys(m, s) :: Entry(m, s, k)
  }

  ghost function Entry(m: PathMap, s: Path, k: string): (r: Value)
    requires k in ChildKeys(m, s)
    decreases Depth(m) - |s|, 0
  {
    if s + [k] in m then m[s + [k]]
    else (ScopeIsShallow(m, s + [k]); Object(Fields(m, s + [k]), false))
  }

  ghost function Tree(m: PathMap): (r: Value) {
    Object(Fields(m, []), false)
  }

  // ---------------------------------------------------------------- the tree, bottom-up

  type Scopes = map<Path, map<string, Value>>

  /** The parent paths of the paths in `done` are exactly the non-empty proper prefixes. */
  ghost predicate ParentsOf(scopePaths: set<Path>, done: set<Path>) {
    forall s :: s in scopePaths <==> s != [] && exists p | p in done :: ProperPrefix(s, p)
  }

  /** What belongs at path `p`. */
  ghost function Node(m: PathMap, p: Path): (r: Value) {
    if p in m then m[p] else Object(Fields(m, p), false)
  }

  lemma ValueNode(m: PathMap, p: Path)
    requires p in m
    ensures Node(m, p) == m[p]
  {
  }

  /** Every scope map holds exactly the children whose paths are in `done`. */
  ghost predicate Filled(m: PathMap, scopes: Scopes, done: set<Path>) {
    forall s | s in scopes :: ScopeFilled(m, s, scopes[s], done)
  }

  ghost predicate ScopeFilled(m: PathMap, s: Path, fields: map<string, Value>, done: set<Path>) {
    && (forall k :: k in fields <==> s + [k] in done)
    && (forall k | k in fields :: fields[k] == Node(m, s + [k]))
  }

  /** Storing the child at `p` into its parent's map. */
  lemma StoreChild(m: PathMap, scopes: Scopes, done: set<Path>, p: Path)
    requires p != [] && p[..|p| - 1] in scopes
    requires Filled(m, scopes, done)
    ensures Filled(m, Stored(scopes, p, Node(m, p)), done + {p})
  {
    var parent, last := p[..|p| - 1], p[|p| - 1];
    assert p == parent + [last];
    var after := Stored(scopes, p, Node(m, p));
    forall s | s in after ensures ScopeFilled(m, s, after[s], done + {p}) {
      assert ScopeFilled(m, s, scopes[s], done);
      forall k ensures k in after[s] <==> s + [k] in done + {p} {
        SameStep(s, k, parent, last);
      }
      forall k | k in after[s] ensures after[s][k] == Node(m, s + [k]) {
        SameStep(s, k, parent, last);
      }
    }
  }

  lemma SameStep(s: Path, k: string, t: Path, l: string)
    ensures s + [k] == t + [l] <==> s == t && k == l
  {
    if s + [k] == t + [l] {
      assert (s + [k])[..|s|] == s && (t + [l])[..|t|] == t;
      assert (s + [k])[|s|] == k && (t + [l])[|t|] == l;
    }
  }

  function Stored(scopes: Scopes, p: Path, v: Value): (r: Scopes)
    requires p != [] && p[..|p| - 1] in scopes
  {
    var parent := p[..|p| - 1];
    scopes[parent := scopes[parent][p[|p| - 1] := v]]
  }

  /** A scope map that has all of its children is the finished object. */
  lemma FullScope(m: PathMap, s: Path, scopes: Scopes, done: set<Path>)
    requires s in scopes && Filled(m, scopes, done)
    requires forall k :: s + [k] in done <==> s + [k] in m || IsScope(m, s + [k])
    ensures scopes[s] == Fields(m, s)
  {
    var fields := scopes[s];
    assert ScopeFilled(m, s, fields, done);
    assert fields.Keys == ChildKeys(m, s);
    forall k | k in fields ensures fields[k] == Fields(m, s)[k] {
      assert fields[k] == Node(m, s + [k]) == Entry(m, s, k);
    }
  }

  /** The scope paths in the order of `std::sort` by decreasing length. */
  method SortByLength(paths: set<Path>) returns (sorted: seq<Path>)
    ensures forall p :: p in sorted <==> p in paths
    ensures |sorted| == |paths|
    ensures forall i, j | 0 <= i < j < |sorted| :: |sorted[i]| >= |sorted[j]|
  {
    sorted := [];
    var rest := paths;
    while rest != {}
      invariant rest <= paths && |sorted| + |rest| == |paths|
      invariant forall p :: p in sorted <==> p in paths - rest
      invariant forall i, j | 0 <= i < j < |sorted| :: |sorted[i]| >= |sorted[j]|
    {
      var path :| path in rest;
      rest := rest - {path};
      var at := 0;
      while at < |sorted| && |sorted[at]| >= |path|
        invariant at <= |sorted|
        invariant forall i | 0 <= i < at :: |sorted[i]| >= |path|
      {
        at := at + 1;
      }
      ghost var before := sorted;
      sorted := sorted[..at] + [path] + sorted[at..];
      InsertedMembers(before, at, path);
    }
  }

  lemma InsertedMembers(s: seq<Path>, at: nat, path: Path)
    requires at <= |s|
    ensures forall p :: p in s[..at] + [path] + s[at..] <==> p in s || p == path
  {
    assert s == s[..at] + s[at..];
  }

  /** The prefixes of `path` that are longer than `n`. */
  function LongPrefixes(path: Path, n: nat): (r: set<Path>) {
    set i | n < i < |path| :: path[..i]
  }

  lemma ParentsAdded(scopePaths: set<Path>, done: set<Path>, path: Path)
    requires ParentsOf(scopePaths, done)
    ensures ParentsOf(scopePaths + LongPrefixes(path, 0), done + {path})
  {
    forall s ensures s in scopePaths + LongPrefixes(path, 0) <==>
      s != [] && exists p | p in done + {path} :: ProperPrefix(s, p)
    {
      assert s in LongPrefixes(path, 0) <==> s != [] && ProperPrefix(s, path);
      if s != [] && exists p | p in done + {path} :: ProperPrefix(s, p) {
        var p :| p in done + {path} && ProperPrefix(s, p);
        assert p in done || p == path;
      }
    }
  }

  /** The paths that hold values and the paths that hold objects. */
  method CollectPaths(m: PathMap) returns (valuePaths: set<Path>, scopePaths: set<Path>)
    requires [] !in m
    ensures valuePaths == m.Keys
    ensures forall s :: s in scopePaths <==> s != [] && IsScope(m, s)
  {
    valuePaths, scopePaths := {}, {};
    var todo := m.Keys;
    while todo != {}
      invariant todo <= m.Keys && valuePaths == m.Keys - todo
      invariant ParentsOf(scopePaths, valuePaths)
    {
      var path :| path in todo;
      todo := todo - {path};
      ParentsAdded(scopePaths, valuePaths, path);
      ghost var before := scopePaths;
      valuePaths := valuePaths + {path};
      var next := path[..|path| - 1];
      while next != []
        invariant |next| < |path| && next == path[..|next|]
        invariant scopePaths == before + LongPrefixes(path, |next|)
        decreases |next|
      {
        assert LongPrefixes(path, |next| - 1) == LongPrefixes(path, |next|) + {next};
        scopePaths := scopePaths + {next};
        next := next[..|next| - 1];
      }
    }
    ScopePaths(m, scopePaths);
  }

  lemma NothingFilled(m: PathMap, scopes: Scopes, done: set<Path>)
    requires done == {} && forall s | s in scopes :: scopes[s] == map[]
    ensures Filled(m, scopes, done)
  {
  }

  /** Values go into the maps of their parents; the map under the empty path is the root. */
  method StoreValues(m: PathMap, scopePaths: set<Path>) returns (scopes: Scopes)
    requires [] !in m
    requires forall s :: s in scopePaths <==> s != [] && IsScope(m, s)
    ensures scopes.Keys == scopePaths + {[]} && Filled(m, scopes, m.Keys)
  {
    hide Filled, Node;
    scopes := map s | s in scopePaths + {[]} :: map[];
    var todo := m.Keys;
    NothingFilled(m, scopes, m.Keys - todo);
    while todo != {}
      invariant todo <= m.Keys && scopes.Keys == scopePaths + {[]}
      invariant Filled(m, scopes, m.Keys - todo)
    {
      var path :| path in todo;
      ParentPresent(m, path, path, scopePaths);
      StoreChild(m, scopes, m.Keys - todo, path);
      assert m.Keys - todo + {path} == m.Keys - (todo - {path});
      ValueNode(m, path);
      scopes := Stored(scopes, path, m[path]);
      todo := todo - {path};
    }
    assert m.Keys - todo == m.Keys;
  }

  /** The scope paths of `m`, longest first. */
  ghost predicate LongestFirst(m: PathMap, sorted: seq<Path>) {
    && (forall t :: t in sorted <==> t != [] && IsScope(m, t))
    && (forall a, b | 0 <= a < b < |sorted| :: |sorted[a]| >= |sorted[b]|)
  }

  ghost function Members(paths: seq<Path>): (r: set<Path>) {
    set p | p in paths
  }

  /** In the sorted order the children of a scope come before it. */
  lemma ChildrenDone(m: PathMap, s: Path, sorted: seq<Path>, i: nat)
    requires i < |sorted| && s == sorted[i] && LongestFirst(m, sorted)
    ensures forall k :: s + [k] in m.Keys + Members(sorted[..i]) <==> s + [k] in m || IsScope(m, s + [k])
  {
    forall k ensures s + [k] in m.Keys + Members(sorted[..i]) <==> s + [k] in m || IsScope(m, s + [k]) {
      var child := s + [k];
      if IsScope(m, child) {
        assert child in sorted;
        var j :| 0 <= j < |sorted| && sorted[j] == child;
        assert j < i;
        assert sorted[..i][j] == child;
      }
      if child in sorted[..i] {
        assert child in sorted;
      }
    }
  }

  /** One turn of the loop over the sorted scope paths. */
  lemma HangStep(m: PathMap, scopes: Scopes, sorted: seq<Path>, i: nat)
    requires [] !in m && !Conflicting(m) && LongestFirst(m, sorted) && i < |sorted|
    requires scopes.Keys == Members(sorted) + {[]}
    requires Filled(m, scopes, m.Keys + Members(sorted[..i]))
    ensures var s := sorted[i];
      && s in scopes && s != [] && s[..|s| - 1] in scopes
      && Filled(m, Stored(scopes, s, Object(scopes[s], false)), m.Keys + Members(sorted[..i + 1]))
  {
    hide Filled, ScopeFilled, Fields;
    var s, done := sorted[i], m.Keys + Members(sorted[..i]);
    assert s in sorted;
    ScopeHangs(m, s, Members(sorted));
    ChildrenDone(m, s, sorted, i);
    FullScope(m, s, scopes, done);
    StoreChild(m, scopes, done, s);
    assert sorted[..i + 1] == sorted[..i] + [s];
    assert m.Keys + Members(sorted[..i + 1]) == done + {s};
  }

  /** The root map once every scope hangs in its parent. */
  lemma RootDone(m: PathMap, scopes: Scopes, sorted: seq<Path>)
    requires LongestFirst(m, sorted) && [] in scopes
    requires Filled(m, scopes, m.Keys + Members(sorted))
    ensures scopes[[]] == Fields(m, [])
  {
    FullScope(m, [], scopes, m.Keys + Members(sorted));
  }

  /** Finished scopes go into the maps of their parents, children before parents. */
  method HangScopes(m: PathMap, filled: Scopes, scopePaths: set<Path>) returns (root: map<string, Value>)
    requires [] !in m && !Conflicting(m)
    requires forall s :: s in scopePaths <==> s != [] && IsScope(m, s)
    requires filled.Keys == scopePaths + {[]} && Filled(m, filled, m.Keys)
    ensures root == Fields(m, [])
  {
    hide Filled, Conflicting, IsScope;
    var scopes := filled;
    var sorted := SortByLength(scopePaths);
    assert scopePaths == Members(sorted);
    assert LongestFirst(m, sorted);
    var i := 0;
    assert m.Keys + Members(sorted[..0]) == m.Keys;
    while i < |sorted|
      invariant i <= |sorted| && scopes.Keys == Members(sorted) + {[]}
      invariant Filled(m, scopes, m.Keys + Members(sorted[..i]))
    {
      hide LongestFirst, Members;
      HangStep(m, scopes, sorted, i);
      var scope := sorted[i];
      scopes := Stored(scopes, scope, Object(scopes[scope], false));
      i := i + 1;
    }
    assert sorted[..i] == sorted;
    RootDone(m, scopes, sorted);
    root := scopes[[]];
  }

  lemma ScopeHangs(m: PathMap, s: Path, scopePaths: set<Path>)
    requires !Conflicting(m) && s in scopePaths
    requires forall t :: t in scopePaths <==> t != [] && IsScope(m, t)
    ensures Node(m, s) == Object(Fields(m, s), false)
    ensures s[..|s| - 1] in scopePaths + {[]}
  {
    var p :| p in m && ProperPrefix(s, p);
    ParentPresent(m, s, p, scopePaths);
  }

  /** `ConfigImpl::from_path_map` over parsed paths and converted values; `None` is the exception
      for a path that is both a value and the parent of a value. */
  method FromPathMap(m: PathMap) returns (r: Option<Value>)
    requires [] !in m
    ensures r == if Conflicting(m) then None else Some(Tree(m))
  {
    var valuePaths, scopePaths := CollectPaths(m);
    BothMeansConflict(m, valuePaths, scopePaths);
    if valuePaths * scopePaths != {} {
      return None;
    }
    var scopes := StoreValues(m, scopePaths);
    var root := HangScopes(m, scopes, scopePaths);
    return Some(Object(root, false));
  }

  lemma BothMeansConflict(m: PathMap, valuePaths: set<Path>, scopePaths: set<Path>)
    requires [] !in m && valuePaths == m.Keys
    requires forall s :: s in scopePaths <==> s != [] && IsScope(m, s)
    ensures valuePaths * scopePaths != {} <==> Conflicting(m)
  {
    if p :| p in valuePaths * scopePaths {
      assert IsScope(m, p);
    }
    if Conflicting(m) {
      var p, q :| p in m && q in m && ProperPrefix(p, q);
      assert p in valuePaths * scopePaths;
    }
  }

  lemma ScopePaths(m: PathMap, scopePaths: set<Path>)
    requires ParentsOf(scopePaths, m.Keys)
    ensures forall s :: s in scopePaths <==> s != [] && IsScope(m, s)
  {
    forall s ensures s in scopePaths <==> s != [] && IsScope(m, s) {
      assert IsScope(m, s) <==> exists p | p in m.Keys :: ProperPrefix(s, p);
    }
  }

  lemma ParentPresent(m: PathMap, s: Path, p: Path, scopePaths: set<Path>)
    requires s != [] && p in m && (s == p || ProperPrefix(s, p))
    requires forall t :: t in scopePaths <==> t != [] && IsScope(m, t)
    ensures s[..|s| - 1] in scopePaths + {[]}
  {
    assert ProperPrefix(s[..|s| - 1], p);
  }

  // ---------------------------------------------------------------- looking up and flattening

  /** Below the object at `s`, a path that continues to a value finds it, one that continues to a
      parent of values finds the object there, and nothing else exists. */
  lemma {:induction false} PeekBelow(m: PathMap, s: Path, q: Path)
    requires LeafMap(m) && !Conflicting(m) && q != []
    ensures PeekPath(Object(Fields(m, s), false), q) == Found(
      if s + q in m then Some(m[s + q])
      else if IsScope(m, s + q) then Some(Object(Fields(m, s + q), false))
      else None)
    decreases |q|
  {
    var k := q[0];
    if |q| == 1 {
      assert q == [k];
    } else {
      assert s + q == (s + [k]) + q[1..];
      if k in ChildKeys(m, s) {
        if s + [k] in m {
          NothingBelow(m, s + [k], s + q);
        } else {
          PeekBelow(m, s + [k], q[1..]);
        }
      } else {
        BeyondScopes(m, s + [k], s + q);
      }
    }
  }

  lemma NothingBelow(m: PathMap, p: Path, q: Path)
    requires !Conflicting(m) && p in m && ProperPrefix(p, q)
    ensures q !in m && !IsScope(m, q)
  {
    forall r | ProperPrefix(q, r) ensures ProperPrefix(p, r) {
      assert r[..|p|] == r[..|q|][..|p|];
    }
  }

  lemma BeyondScopes(m: PathMap, p: Path, q: Path)
    requires !IsScope(m, p) && ProperPrefix(p, q)
    ensures q !in m && !IsScope(m, q)
  {
    forall r | ProperPrefix(q, r) ensures ProperPrefix(p, r) {
      assert r[..|p|] == r[..|q|][..|p|];
    }
  }

  /** In the tree of a prefix-free path map every path peeks to its value, every proper prefix of
      a path to an object, and no other path to anything. */
  lemma TreeHoldsTheMap(m: PathMap, q: Path)
    requires LeafMap(m) && !Conflicting(m) && q != []
    ensures var found := PeekPath(Tree(m), q);
      && found.Found?
      && (q in m ==> found.value == Some(m[q]))
      && (IsScope(m, q) <==> found.value.Some? && found.value.value.Object?)
      && (found.value.Some? ==> q in m || IsScope(m, q))
  {
    assert [] + q == q;
    PeekBelow(m, [], q);
  }

  /** What `find_paths` collects below the path `parent`. */
  function Entries(o: Value, parent: Path): (r: set<(Path, Value)>)
    requires o.Object?
    decreases o, 0
  {
    set k, e | k in o.fields && e in EntriesAt(o.fields[k], parent + [k]) :: e
  }

  function EntriesAt(v: Value, path: Path): (r: set<(Path, Value)>)
    decreases v, 1
  {
    if v.Object? then Entries(v, path)
    else if v.Null? then {}
    else {(path, v)}
  }

  /** The entries below some of the keys. */
  function EntriesUnder(o: Value, parent: Path, keys: set<string>): (r: set<(Path, Value)>)
    requires o.Object? && keys <= o.fields.Keys
  {
    set k, e | k in keys && e in EntriesAt(o.fields[k], parent + [k]) :: e
  }

  /** `SimpleConfig::find_paths`: inserts into the accumulator. */
  method FindPaths(entries: set<(Path, Value)>, parent: Path, o: Value) returns (r: set<(Path, Value)>)
    requires o.Object? && Resolved(o)
    ensures r == entries + Entries(o, parent)
    decreases o
  {
    r := entries;
    ghost var done: set<string> := {};
    var todo := o.fields.Keys;
    while todo != {}
      invariant todo <= o.fields.Keys && done == o.fields.Keys - todo
      invariant r == entries + EntriesUnder(o, parent, done)
    {
      var elem :| elem in todo;
      todo := todo - {elem};
      var v := o.fields[elem];
      if v.Object? {
        r := FindPaths(r, parent + [elem], v);
      } else if !v.Null? {
        r := r + {(parent + [elem], v)};
      }
      assert EntriesUnder(o, parent, done + {elem})
        == EntriesUnder(o, parent, done) + EntriesAt(v, parent + [elem]);
      done := done + {elem};
    }
    assert done == o.fields.Keys;
    assert EntriesUnder(o, parent, o.fields.Keys) == Entries(o, parent);
  }

  ghost predicate IsEntry(m: PathMap, s: Path, e: (Path, Value)) {
    ProperPrefix(s, e.0) && e.0 in m && m[e.0] == e.1 && !e.1.Null?
  }

  /** Flattening the subtree at `s` gives the non-null entries of the map below `s`. */
  lemma {:induction false} EntriesBelow(m: PathMap, s: Path, e: (Path, Value))
    requires LeafMap(m) && !Conflicting(m)
    ensures e in Entries(Object(Fields(m, s), false), s) <==> IsEntry(m, s, e)
    decreases Depth(m) - |s|
  {
    forall k | k in ChildKeys(m, s)
      ensures e in EntriesAt(Entry(m, s, k), s + [k]) <==> IsEntry(m, s, e) && e.0[|s|] == k
    {
      EntriesBelowKey(m, s, k, e);
    }
    var o := Object(Fields(m, s), false);
    if IsEntry(m, s, e) {
      var k := e.0[|s|];
      ChildKey(m, s, k);
      assert k in o.fields && e in EntriesAt(o.fields[k], s + [k]);
    }
  }

  lemma {:induction false} EntriesBelowKey(m: PathMap, s: Path, k: string, e: (Path, Value))
    requires LeafMap(m) && !Conflicting(m) && k in ChildKeys(m, s)
    ensures e in EntriesAt(Entry(m, s, k), s + [k]) <==> IsEntry(m, s, e) && e.0[|s|] == k
    decreases Depth(m) - |s|, 0
  {
    var p := s + [k];
    PrefixStep(s, k, e.0);
    if p !in m {
      ScopeIsShallow(m, p);
      EntriesBelow(m, p, e);
    }
  }

  lemma PrefixStep(s: Path, k: string, q: Path)
    ensures ProperPrefix(s, q) && q[|s|] == k <==> q == s + [k] || ProperPrefix(s + [k], q)
  {
    if |s| < |q| {
      assert q[..|s| + 1] == q[..|s|] + [q[|s|]];
      assert q[..|s|] == q[..|s| + 1][..|s|];
    }
  }

  /** Flattening what a prefix-free path map built gives back its non-null entries. */
  lemma FlatteningUndoesBuilding(m: PathMap)
    requires LeafMap(m) && !Conflicting(m)
    ensures Entries(Tree(m), []) == set p | p in m && !m[p].Null? :: (p, m[p])
  {
    forall e ensures e in Entries(Tree(m), []) <==> e.0 in m && m[e.0] == e.1 && !e.1.Null? {
      EntriesBelow(m, [], e);
      assert e.0 in m ==> ProperPrefix([], e.0);
    }
  }
}

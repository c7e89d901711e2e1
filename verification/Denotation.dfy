/** What a ranked document means, evaluated from the document alone.

    References are evaluated in the order of their ranks, each by looking its path up in the value
    of the root with the references of lower rank filled in; concatenations are joined as they are
    met.  No table, memo, restriction or visiting order is involved.  Looking paths up in this
    value is what `Visible` speaks of, so whether the lookups of a document are visible can be told
    before it is resolved. */
module Denotation {
  import opened ConfigValues
  import opened MergeAlgebra
  import opened Concatenations
  import opened Resolution
  import opened Ranks
  import opened Lookups
  import opened Visibility

  // ---------------------------------------------------------------- values of values

  function JoinedValue(pieces: seq<Value>): (r: Option<Value>) {
    var joined := JoinedOutcome(Consolidated(pieces));
    if joined.Done? then joined.value else None
  }

  /** The value of `v` when references have the values given. */
  ghost function Full(v: Value, refs: Env): (r: Option<Value>)
    decreases v
  {
    match v
    case List(items) => Some(List(FullItems(items, refs)))
    case Object(fields, ignores) =>
      Some(Object(map k | k in fields && Full(fields[k], refs).Some? :: Full(fields[k], refs).value, ignores))
    case Reference(_, _, _, _) => refs(v)
    case Concatenation(pieces) => JoinedValue(FullItems(pieces, refs))
    case DelayedMerge(_, stack) => FullStack(stack, refs)
    case _ => Some(v)
  }

  ghost function FullItems(items: seq<Value>, refs: Env): (r: seq<Value>)
    decreases items
  {
    if items == [] then []
    else FullItems(items[..|items| - 1], refs) + Present(Full(items[|items| - 1], refs))
  }

  ghost function FullStack(stack: seq<Value>, refs: Env): (r: Option<Value>)
    decreases stack
  {
    if stack == [] then None
    else MergeOptional(FullStack(stack[..|stack| - 1], refs), Full(stack[|stack| - 1], refs))
  }

  /** The assignment with the references as given and concatenations joined. */
  ghost function EnvOf(refs: Env): (r: Env) {
    (n: Value) => if n.Reference? || n.Concatenation? then Full(n, refs) else None
  }

  lemma {:induction false} MeaningIsFull(v: Value, refs: Env)
    ensures Meaning(v, EnvOf(refs)) == Full(v, refs)
    decreases v
  {
    var env := EnvOf(refs);
    match v
    case List(items) => ItemsAreFull(items, refs);
    case Object(fields, ignores) =>
      forall k | k in fields ensures Meaning(fields[k], env) == Full(fields[k], refs) {
        MeaningIsFull(fields[k], refs);
      }
      assert Meaning(v, env).value.fields == Full(v, refs).value.fields;
    case DelayedMerge(_, stack) => StackIsFull(stack, refs);
    case _ =>
  }

  lemma {:induction false} ItemsAreFull(items: seq<Value>, refs: Env)
    ensures PresentItems(items, EnvOf(refs)) == FullItems(items, refs)
    decreases items
  {
    if items != [] {
      ItemsAreFull(items[..|items| - 1], refs);
      MeaningIsFull(items[|items| - 1], refs);
    }
  }

  lemma {:induction false} StackIsFull(stack: seq<Value>, refs: Env)
    ensures StackMeaning(stack, EnvOf(refs)) == FullStack(stack, refs)
    decreases stack
  {
    if stack != [] {
      StackIsFull(stack[..|stack| - 1], refs);
      MeaningIsFull(stack[|stack| - 1], refs);
    }
  }

  lemma {:induction false} FullResolved(v: Value, refs: Env)
    requires Assignment(refs)
    ensures ResolvedOption(Full(v, refs))
    decreases v
  {
    match v
    case List(items) => FullItemsResolved(items, refs);
    case Object(fields, _) =>
      forall k | k in fields ensures ResolvedOption(Full(fields[k], refs)) {
        FullResolved(fields[k], refs);
      }
    case Concatenation(pieces) =>
      FullItemsResolved(pieces, refs);
      ResolvedPiecesJoin(FullItems(pieces, refs));
    case DelayedMerge(_, stack) => FullStackResolved(stack, refs);
    case _ =>
  }

  lemma {:induction false} FullItemsResolved(items: seq<Value>, refs: Env)
    requires Assignment(refs)
    ensures forall i | 0 <= i < |FullItems(items, refs)| :: Resolved(FullItems(items, refs)[i])
    decreases items
  {
    if items != [] {
      FullItemsResolved(items[..|items| - 1], refs);
      FullResolved(items[|items| - 1], refs);
    }
  }

  lemma {:induction false} FullStackResolved(stack: seq<Value>, refs: Env)
    requires Assignment(refs)
    ensures ResolvedOption(FullStack(stack, refs))
    decreases stack
  {
    if stack != [] {
      FullStackResolved(stack[..|stack| - 1], refs);
      FullResolved(stack[|stack| - 1], refs);
      MergeResolved(FullStack(stack[..|stack| - 1], refs), Full(stack[|stack| - 1], refs));
    }
  }

  lemma MergeResolved(x: Option<Value>, y: Option<Value>)
    requires ResolvedOption(x) && ResolvedOption(y)
    ensures ResolvedOption(MergeOptional(x, y))
  {
    if x.Some? && y.Some? {
      WithFallbackResolved(x.value, y.value);
    }
  }

  // ---------------------------------------------------------------- values of references

  /** What a reference finds in the value of the root. */
  function FoundIn(root: Option<Value>, n: Value): (r: Option<Value>)
    requires n.Reference?
  {
    var full := LookIn(root, n.path);
    if full.Some? || n.prefixLength > |n.path| then full else LookIn(root, n.path[n.prefixLength..])
  }

  ghost function RefValue(root: Value, rank: Rank, n: Value): (r: Option<Value>)
    requires n.Reference?
    decreases rank(n), 1
  {
    FoundIn(Full(root, RefsBelow(root, rank, rank(n))), n)
  }

  ghost function RefsBelow(root: Value, rank: Rank, b: nat): (r: Env)
    decreases b, 0
  {
    (n: Value) => if n.Reference? && rank(n) < b then RefValue(root, rank, n) else None
  }

  ghost function Refs(root: Value, rank: Rank): (r: Env) {
    (n: Value) => if n.Reference? then RefValue(root, rank, n) else None
  }

  /** The sense of a ranked document. */
  ghost function SenseOf(root: Value, rank: Rank): (r: Sense) {
    Sense(root, EnvOf(Refs(root, rank)), rank)
  }

  lemma {:induction false} LookInResolved(v: Option<Value>, path: Path)
    requires ResolvedOption(v)
    ensures ResolvedOption(LookIn(v, path))
    decreases |path|
  {
    if v.Some? && path != [] && v.value.Object? {
      LookInResolved(FieldAt(v.value, path[0]), path[1..]);
    }
  }

  lemma {:induction false} RefResolved(root: Value, rank: Rank, n: Value)
    requires n.Reference?
    ensures ResolvedOption(RefValue(root, rank, n))
    decreases rank(n)
  {
    var refs := RefsBelow(root, rank, rank(n));
    forall m ensures ResolvedOption(refs(m)) {
      if m.Reference? && rank(m) < rank(n) {
        RefResolved(root, rank, m);
      }
    }
    FullResolved(root, refs);
    LookInResolved(Full(root, refs), n.path);
    if n.prefixLength <= |n.path| {
      LookInResolved(Full(root, refs), n.path[n.prefixLength..]);
    }
  }

  lemma RefsAssign(root: Value, rank: Rank)
    ensures Assignment(Refs(root, rank))
  {
    forall n: Value | n.Reference? ensures ResolvedOption(RefValue(root, rank, n)) {
      RefResolved(root, rank, n);
    }
  }

  lemma SenseAssigns(root: Value, rank: Rank)
    ensures Assignment(SenseOf(root, rank).env)
  {
    var refs := Refs(root, rank);
    RefsAssign(root, rank);
    forall n ensures ResolvedOption(EnvOf(refs)(n)) {
      FullResolved(n, refs);
    }
  }

  // ---------------------------------------------------------------- along a path only low ranks matter

  /** Two values that a lookup along the path, and a fallback, cannot tell apart. */
  predicate SameAlong(x: Option<Value>, y: Option<Value>, path: Path)
    decreases |path|
  {
    if path == [] || x.None? || y.None? then x == y
    else
      && (x.value.Object? <==> y.value.Object?)
      && (x.value.Object? ==>
            && x.value.ignoresFallbacks == y.value.ignoresFallbacks
            && SameAlong(FieldAt(x.value, path[0]), FieldAt(y.value, path[0]), path[1..]))
  }

  lemma {:induction false} SameIsSameAlong(x: Option<Value>, path: Path)
    ensures SameAlong(x, x, path)
    decreases |path|
  {
    if path != [] && x.Some? && x.value.Object? {
      SameIsSameAlong(FieldAt(x.value, path[0]), path[1..]);
    }
  }

  lemma {:induction false} SameLookIn(x: Option<Value>, y: Option<Value>, path: Path)
    requires SameAlong(x, y, path)
    ensures LookIn(x, path) == LookIn(y, path)
    decreases |path|
  {
    if path != [] && x.Some? && y.Some? && x.value.Object? {
      SameLookIn(FieldAt(x.value, path[0]), FieldAt(y.value, path[0]), path[1..]);
    }
  }

  lemma {:induction false} MergeSameAlong(x: Option<Value>, y: Option<Value>, u: Option<Value>, v: Option<Value>,
                                          path: Path)
    requires ResolvedOption(x) && ResolvedOption(y) && ResolvedOption(u) && ResolvedOption(v)
    requires SameAlong(x, y, path) && SameAlong(u, v, path)
    ensures SameAlong(MergeOptional(x, u), MergeOptional(y, v), path)
    decreases |path|
  {
    if path != [] && x.Some? && y.Some? && u.Some? && v.Some? {
      var a, b := x.value, y.value;
      if a.Object? && !a.ignoresFallbacks && u.value.Object? {
        MergedEntry(a, u.value, path[0]);
        MergedEntry(b, v.value, path[0]);
        MergeSameAlong(FieldAt(a, path[0]), FieldAt(b, path[0]), FieldAt(u.value, path[0]), FieldAt(v.value, path[0]),
                       path[1..]);
      }
    }
  }

  ghost predicate SameBelow(refs: Env, others: Env, rank: Rank, b: nat) {
    forall n: Value | n.Reference? && rank(n) < b :: refs(n) == others(n)
  }

  lemma {:induction false} SameFull(v: Value, refs: Env, others: Env, rank: Rank, b: nat)
    requires SameBelow(refs, others, rank, b) && AllBelow(v, rank, b)
    ensures Full(v, refs) == Full(v, others)
    decreases v
  {
    match v
    case List(items) => SameItems(items, refs, others, rank, b);
    case Object(fields, _) =>
      forall k | k in fields ensures Full(fields[k], refs) == Full(fields[k], others) {
        SameFull(fields[k], refs, others, rank, b);
      }
      assert Full(v, refs).value.fields == Full(v, others).value.fields;
    case Concatenation(pieces) => SameItems(pieces, refs, others, rank, b);
    case DelayedMerge(_, stack) => SameStack(stack, refs, others, rank, b);
    case _ =>
  }

  lemma {:induction false} SameItems(items: seq<Value>, refs: Env, others: Env, rank: Rank, b: nat)
    requires SameBelow(refs, others, rank, b) && forall i | 0 <= i < |items| :: AllBelow(items[i], rank, b)
    ensures FullItems(items, refs) == FullItems(items, others)
    decreases items
  {
    if items != [] {
      SameItems(items[..|items| - 1], refs, others, rank, b);
      SameFull(items[|items| - 1], refs, others, rank, b);
    }
  }

  lemma {:induction false} SameStack(stack: seq<Value>, refs: Env, others: Env, rank: Rank, b: nat)
    requires SameBelow(refs, others, rank, b) && forall i | 0 <= i < |stack| :: AllBelow(stack[i], rank, b)
    ensures FullStack(stack, refs) == FullStack(stack, others)
    decreases stack
  {
    if stack != [] {
      SameStack(stack[..|stack| - 1], refs, others, rank, b);
      SameFull(stack[|stack| - 1], refs, others, rank, b);
    }
  }

  lemma FullEntry(o: Value, k: string, refs: Env)
    requires o.Object?
    ensures Full(o, refs).Some? && Full(o, refs).value.Object?
    ensures Full(o, refs).value.ignoresFallbacks == o.ignoresFallbacks
    ensures FieldAt(Full(o, refs).value, k) == if k in o.fields then Full(o.fields[k], refs) else None
  {
  }

  /** Along a path the value of `v` depends only on the references met there. */
  lemma {:induction false} SameAlongPath(v: Value, path: Path, refs: Env, others: Env, rank: Rank, b: nat)
    requires Assignment(refs) && Assignment(others) && SameBelow(refs, others, rank, b) && Bounded(v, path, rank, b)
    ensures SameAlong(Full(v, refs), Full(v, others), path)
    decreases v, 0
  {
    if path == [] || v.Concatenation? {
      SameFull(v, refs, others, rank, b);
      SameIsSameAlong(Full(v, refs), path);
    } else {
      match v
      case Object(fields, _) =>
        FullEntry(v, path[0], refs);
        FullEntry(v, path[0], others);
        if path[0] in fields {
          SameAlongPath(fields[path[0]], path[1..], refs, others, rank, b);
        }
      case Reference(_, _, _, _) => SameIsSameAlong(Full(v, refs), path);
      case DelayedMerge(_, stack) => SameAlongStack(stack, path, refs, others, rank, b);
      case _ =>
    }
  }

  lemma {:induction false} SameAlongStack(stack: seq<Value>, path: Path, refs: Env, others: Env, rank: Rank, b: nat)
    requires Assignment(refs) && Assignment(others) && SameBelow(refs, others, rank, b)
    requires forall i | 0 <= i < |stack| :: Bounded(stack[i], path, rank, b)
    ensures SameAlong(FullStack(stack, refs), FullStack(stack, others), path)
    decreases stack, 0
  {
    hide Assignment, SameBelow, SameAlong, Bounded, MergeOptional;
    if stack == [] {
      SameIsSameAlong(None, path);
    } else {
      var upper, last := stack[..|stack| - 1], stack[|stack| - 1];
      SameAlongStack(upper, path, refs, others, rank, b);
      SameAlongPath(last, path, refs, others, rank, b);
      FullStackResolved(upper, refs);
      FullStackResolved(upper, others);
      FullResolved(last, refs);
      FullResolved(last, others);
      MergeSameAlong(FullStack(upper, refs), FullStack(upper, others), Full(last, refs), Full(last, others), path);
    }
  }

  /** A reference whose lookup meets only lower ranks has the value found in the whole document,
      whatever the values of higher rank are. */
  lemma RefFound(root: Value, rank: Rank, n: Value, path: Path, all: Env)
    requires n.Reference? && Bounded(root, path, rank, rank(n)) && Assignment(all)
    requires SameBelow(RefsBelow(root, rank, rank(n)), all, rank, rank(n))
    ensures LookIn(Full(root, RefsBelow(root, rank, rank(n))), path) == LookIn(Full(root, all), path)
  {
    var below := RefsBelow(root, rank, rank(n));
    assert Assignment(below) by {
      forall m ensures ResolvedOption(below(m)) {
        assert below(m) == None || below(m) == all(m);
      }
    }
    SameAlongPath(root, path, below, all, rank, rank(n));
    SameLookIn(Full(root, below), Full(root, all), path);
  }
}

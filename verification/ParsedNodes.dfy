/** The references of a parsed document carry pairwise different numbers.

    A reference is numbered by the tokens left when it is made, so what is parsed from a stretch of
    the stream has its numbers between the two ends of the stretch; merging and joining neither make
    references nor copy them. */
module ParsedNodes {
  import opened ConfigValues
  import opened MergeAlgebra
  import opened Concatenations
  import opened Tokenization
  import opened PathSyntax
  import opened Parsing
  import SelfReference

  // ---------------------------------------------------------------- numbers in values

  /** The numbers of the references in a value. */
  ghost function Numbers(v: Value): (r: set<nat>)
    decreases v
  {
    match v
    case List(items) => set i, n | 0 <= i < |items| && n in Numbers(items[i]) :: n
    case Object(fields, _) => set k, n | k in fields && n in Numbers(fields[k]) :: n
    case Reference(node, _, _, _) => {node}
    case Concatenation(pieces) => set i, n | 0 <= i < |pieces| && n in Numbers(pieces[i]) :: n
    case DelayedMerge(_, stack) => set i, n | 0 <= i < |stack| && n in Numbers(stack[i]) :: n
    case _ => {}
  }

  /** No number occurs in two places. */
  ghost predicate Scattered(v: Value)
    decreases v
  {
    match v
    case List(items) => (forall i | 0 <= i < |items| :: Scattered(items[i])) && Disjoint(items)
    case Object(fields, _) =>
      && (forall k | k in fields :: Scattered(fields[k]))
      && forall k, l | k in fields && l in fields && k != l :: Numbers(fields[k]) !! Numbers(fields[l])
    case Concatenation(pieces) => (forall i | 0 <= i < |pieces| :: Scattered(pieces[i])) && Disjoint(pieces)
    case DelayedMerge(_, stack) => (forall i | 0 <= i < |stack| :: Scattered(stack[i])) && Disjoint(stack)
    case _ => true
  }

  ghost predicate Disjoint(vs: seq<Value>) {
    forall i, j | 0 <= i < j < |vs| :: Numbers(vs[i]) !! Numbers(vs[j])
  }

  ghost predicate AllScattered(vs: seq<Value>) {
    (forall i | 0 <= i < |vs| :: Scattered(vs[i])) && Disjoint(vs)
  }

  ghost function AllNumbers(vs: seq<Value>): (r: set<nat>) {
    set i, n | 0 <= i < |vs| && n in Numbers(vs[i]) :: n
  }

  lemma OneNumbers(v: Value)
    ensures AllNumbers([v]) == Numbers(v) && (AllScattered([v]) <==> Scattered(v))
  {
    assert forall n :: n in Numbers([v][0]) <==> n in Numbers(v);
    assert forall n | n in Numbers(v) :: n in Numbers([v][0]);
    assert Scattered([v][0]) <==> Scattered(v);
  }

  lemma AppendScattered(xs: seq<Value>, ys: seq<Value>)
    requires AllScattered(xs) && AllScattered(ys) && AllNumbers(xs) !! AllNumbers(ys)
    ensures AllScattered(xs + ys) && AllNumbers(xs + ys) == AllNumbers(xs) + AllNumbers(ys)
  {
    hide Numbers, Scattered;
    var zs := xs + ys;
    forall i | 0 <= i < |zs|
      ensures Scattered(zs[i])
      ensures Numbers(zs[i]) <= if i < |xs| then AllNumbers(xs) else AllNumbers(ys)
    {
      assert zs[i] == if i < |xs| then xs[i] else ys[i - |xs|];
    }
    forall i, j | 0 <= i < j < |zs| ensures Numbers(zs[i]) !! Numbers(zs[j]) {
      if j < |xs| {
        assert zs[i] == xs[i] && zs[j] == xs[j];
      } else if i >= |xs| {
        assert zs[i] == ys[i - |xs|] && zs[j] == ys[j - |xs|];
      }
    }
    forall n ensures n in AllNumbers(zs) <==> n in AllNumbers(xs) + AllNumbers(ys) {
      if n in AllNumbers(xs) {
        var i :| 0 <= i < |xs| && n in Numbers(xs[i]);
        assert zs[i] == xs[i];
      } else if n in AllNumbers(ys) {
        var i :| 0 <= i < |ys| && n in Numbers(ys[i]);
        assert zs[|xs| + i] == ys[i];
      }
    }
  }

  /** The front of a sequence and its last member. */
  lemma FrontScattered(vs: seq<Value>)
    requires vs != [] && AllScattered(vs)
    ensures var front, last := vs[..|vs| - 1], vs[|vs| - 1];
      && AllScattered(front) && Scattered(last) && AllNumbers(front) !! Numbers(last)
      && AllNumbers(front) <= AllNumbers(vs) && Numbers(last) <= AllNumbers(vs)
  {
    hide Numbers, Scattered;
    var front, last := vs[..|vs| - 1], vs[|vs| - 1];
    assert forall i | 0 <= i < |front| :: front[i] == vs[i];
  }

  lemma LayersScattered(v: Value)
    requires Scattered(v)
    ensures AllScattered(Layers(v)) && AllNumbers(Layers(v)) == Numbers(v)
  {
    if !v.DelayedMerge? {
      OneNumbers(v);
    }
  }

  lemma EntryNumbers(o: Value, k: string)
    requires o.Object? && k in o.fields
    ensures Numbers(o.fields[k]) <= Numbers(o)
  {
  }

  /** Merging copies no reference. */
  lemma {:induction false} WithFallbackScattered(a: Value, b: Value)
    requires Scattered(a) && Scattered(b) && Numbers(a) !! Numbers(b)
    ensures Scattered(WithFallback(a, b)) && Numbers(WithFallback(a, b)) <= Numbers(a) + Numbers(b)
    decreases a
  {
    if IgnoresFallbacks(a) {
    } else if !Unmergeable(b) && a.Object? && b.Object? {
      hide WithFallback, Numbers;
      MergedFields(a, b);
      forall k | k in a.fields ensures Numbers(a.fields[k]) <= Numbers(a) { EntryNumbers(a, k); }
      forall k | k in b.fields ensures Numbers(b.fields[k]) <= Numbers(b) { EntryNumbers(b, k); }
      var m := WithFallback(a, b);
      forall k | k in m.fields
        ensures Scattered(m.fields[k]) && Numbers(m.fields[k]) <= EntriesAt(a, b, k)
      {
        if k in a.fields && k in b.fields {
          WithFallbackScattered(a.fields[k], b.fields[k]);
        }
      }
      MergedScattered(a, b, m);
    } else if !Unmergeable(b) && a.Object? && Resolved(a) {
      SameFields(a, WithFallback(a, b));
    } else {
      assert WithFallback(a, b) == DelayedMerge(IsObject(a), Layers(a) + Layers(b));
      LayersScattered(a);
      LayersScattered(b);
      AppendScattered(Layers(a), Layers(b));
    }
  }

  lemma SameFields(a: Value, m: Value)
    requires a.Object? && m.Object? && m.fields == a.fields && Scattered(a)
    ensures Scattered(m) && Numbers(m) == Numbers(a)
  {
  }

  /** The numbers two objects have at a key. */
  ghost function EntriesAt(a: Value, b: Value, k: string): (r: set<nat>)
    requires a.Object? && b.Object?
  {
    (if k in a.fields then Numbers(a.fields[k]) else {}) + (if k in b.fields then Numbers(b.fields[k]) else {})
  }

  lemma MergedScattered(a: Value, b: Value, m: Value)
    requires a.Object? && b.Object? && m.Object? && Scattered(a) && Scattered(b) && Numbers(a) !! Numbers(b)
    requires m.fields.Keys == a.fields.Keys + b.fields.Keys
    requires forall k | k in m.fields :: Scattered(m.fields[k]) && Numbers(m.fields[k]) <= EntriesAt(a, b, k)
    requires forall k | k in a.fields :: Numbers(a.fields[k]) <= Numbers(a)
    requires forall k | k in b.fields :: Numbers(b.fields[k]) <= Numbers(b)
    ensures Scattered(m) && Numbers(m) <= Numbers(a) + Numbers(b)
  {
    forall k, l | k in m.fields && l in m.fields && k != l ensures Numbers(m.fields[k]) !! Numbers(m.fields[l]) {
      EntriesApart(a, b, k, l);
    }
    forall n | n in Numbers(m) ensures n in Numbers(a) + Numbers(b) {
      var k :| k in m.fields && n in Numbers(m.fields[k]);
      assert n in EntriesAt(a, b, k);
    }
  }

  lemma EntriesApart(a: Value, b: Value, k: string, l: string)
    requires a.Object? && b.Object? && Scattered(a) && Scattered(b) && Numbers(a) !! Numbers(b) && k != l
    requires forall k | k in a.fields :: Numbers(a.fields[k]) <= Numbers(a)
    requires forall k | k in b.fields :: Numbers(b.fields[k]) <= Numbers(b)
    ensures EntriesAt(a, b, k) !! EntriesAt(a, b, l)
  {
    hide Numbers;
  }

  // ---------------------------------------------------------------- joining

  lemma ListScattered(items: seq<Value>)
    ensures Scattered(List(items)) <==> AllScattered(items)
    ensures Numbers(List(items)) == AllNumbers(items)
  {
  }

  lemma JoinTwoScattered(left: Value, right: Value)
    requires Scattered(left) && Scattered(right) && Numbers(left) !! Numbers(right)
    ensures var j := JoinTwo(left, right);
      j.Fine? && j.value.Some? ==> Scattered(j.value.value) && Numbers(j.value.value) <= Numbers(left) + Numbers(right)
  {
    hide WithFallback;
    if IsObject(left) && IsObject(right) {
      WithFallbackScattered(right, left);
    } else if left.List? && right.List? {
      ListScattered(left.items);
      ListScattered(right.items);
      AppendScattered(left.items, right.items);
      ListScattered(left.items + right.items);
    }
  }

  lemma JoinScattered(builder: seq<Value>, right: Value)
    requires AllScattered(builder) && Scattered(right) && AllNumbers(builder) !! Numbers(right)
    requires Join(builder, right).Fine?
    ensures AllScattered(Join(builder, right).value)
    ensures AllNumbers(Join(builder, right).value) <= AllNumbers(builder) + Numbers(right)
  {
    hide JoinTwo, Numbers, Scattered, AllScattered, AllNumbers;
    OneNumbers(right);
    if builder == [] {
    } else {
      var front, last := builder[..|builder| - 1], builder[|builder| - 1];
      FrontScattered(builder);
      JoinTwoScattered(last, right);
      match JoinTwo(last, right)
      case Fine(Some(joined)) =>
        OneNumbers(joined);
        AppendScattered(front, [joined]);
      case Fine(None) =>
        AppendScattered(builder, [right]);
    }
  }

  lemma {:induction false} JoinAllScattered(pieces: seq<Value>)
    requires AllScattered(pieces) && JoinAll([], pieces).Fine?
    ensures AllScattered(JoinAll([], pieces).value) && AllNumbers(JoinAll([], pieces).value) <= AllNumbers(pieces)
    decreases |pieces|
  {
    hide Join, Numbers, Scattered;
    if pieces != [] {
      FrontScattered(pieces);
      JoinAllScattered(pieces[..|pieces| - 1]);
      JoinScattered(JoinAll([], pieces[..|pieces| - 1]).value, pieces[|pieces| - 1]);
    }
  }

  /** Flattening takes concatenations apart. */
  lemma {:induction false} FlattenScattered(pieces: seq<Value>)
    requires AllScattered(pieces)
    ensures AllScattered(Flatten(pieces)) && AllNumbers(Flatten(pieces)) <= AllNumbers(pieces)
    decreases |pieces|
  {
    if pieces != [] {
      var front, last := pieces[..|pieces| - 1], pieces[|pieces| - 1];
      FrontScattered(pieces);
      FlattenScattered(front);
      var more := if last.Concatenation? then last.pieces else [last];
      PiecesScattered(last);
      AppendScattered(Flatten(front), more);
    }
  }

  lemma PiecesScattered(v: Value)
    requires Scattered(v)
    ensures var pieces := if v.Concatenation? then v.pieces else [v];
      AllScattered(pieces) && AllNumbers(pieces) == Numbers(v)
  {
    OneNumbers(v);
  }

  /** Joining copies no reference. */
  lemma ConcatenatedScattered(pieces: seq<Value>)
    requires AllScattered(pieces) && Concatenated(pieces).Fine? && Concatenated(pieces).value.Some?
    ensures var v := Concatenated(pieces).value.value; Scattered(v) && Numbers(v) <= AllNumbers(pieces)
  {
    hide JoinAll, Flatten;
    FlattenScattered(pieces);
    if |pieces| >= 2 {
      JoinAllScattered(Flatten(pieces));
    }
    var joined := Consolidated(pieces).value;
    if |joined| == 1 {
      OneNumbers(joined[0]);
      assert joined == [joined[0]];
    }
  }

  // ---------------------------------------------------------------- tokens

  /** A token that brings no references. */
  ghost predicate Bare(t: Token) {
    t.Literal? ==> Numbers(t.value) == {} && Scattered(t.value)
  }

  ghost predicate AllBare(ts: seq<Token>) {
    forall i | 0 <= i < |ts| :: Bare(ts[i])
  }

  lemma {:induction false} NextIsBare(flavor: Flavor, ts: seq<Token>)
    requires AllBare(ts) && NextOnAnyLine(flavor, ts).Parsed?
    ensures Bare(NextOnAnyLine(flavor, ts).result) && AllBare(NextOnAnyLine(flavor, ts).rest)
    decreases |ts|
  {
    hide Bare;
    if ts[0].Newline? {
      NextIsBare(flavor, ts[1..]);
    }
  }

  lemma {:induction false} SeparatorLinesBare(ts: seq<Token>, saw: bool)
    requires AllBare(ts) && SeparatorOnLines(ts, saw).Parsed?
    ensures AllBare(SeparatorOnLines(ts, saw).rest)
    decreases |ts|
  {
    hide Bare;
    if ts[0].Newline? {
      SeparatorLinesBare(ts[1..], true);
    }
  }

  lemma SeparatorIsBare(flavor: Flavor, ts: seq<Token>)
    requires AllBare(ts) && Separator(flavor, ts).Parsed?
    ensures AllBare(Separator(flavor, ts).rest)
  {
    hide Bare;
    if flavor.Json? {
      NextIsBare(flavor, ts);
    } else {
      SeparatorLinesBare(ts, false);
    }
  }

  lemma {:induction false} KeyIsBare(t: Token, ts: seq<Token>, expression: seq<Token>)
    requires Bare(t) && AllBare(ts) && CollectKey(t, ts, expression).Parsed?
    ensures AllBare(CollectKey(t, ts, expression).rest)
    decreases |ts|
  {
    hide Bare;
    if t.Literal? || t.Unquoted? {
      KeyIsBare(ts[0], ts[1..], expression + [t]);
    }
  }

  // ---------------------------------------------------------------- the parser

  /** The references of `v` were made while between `left` and half of `limit` tokens were left. */
  ghost predicate Between(v: Value, left: nat, limit: nat) {
    Scattered(v) && forall n | n in Numbers(v) :: 2 * left <= n < limit
  }

  /** The same, and none of them is the one that `+=` would make here. */
  ghost predicate Placed(v: Value, left: nat, limit: nat) {
    Between(v, left, limit) && 2 * left + 1 !in Numbers(v)
  }

  ghost predicate PlacedParse(p: Parse<Value>, limit: nat) {
    p.Parsed? ==> AllBare(p.rest) && Placed(p.result, |p.rest|, limit)
  }

  lemma {:induction false} ValueIsPlaced(flavor: Flavor, t: Token, ts: seq<Token>, parents: Path, limit: nat)
    requires AllBare(ts) && (t.Literal? ==> Placed(t.value, |ts|, limit)) && limit >= 2 * |ts|
    ensures PlacedParse(ParseValue(flavor, t, ts, parents), limit)
    decreases |ts|, 4
  {
    hide ParseFields, ParseArray;
    match t
    case OpenCurly => FieldsArePlaced(flavor, true, ts, map[], false, parents, limit);
    case OpenSquare => ArrayIsPlaced(flavor, ts, parents, limit);
    case _ =>
  }

  lemma {:induction false} PieceIsPlaced(t: Token, ts: seq<Token>, parents: Path)
    requires Bare(t) && AllBare(ts)
    ensures PlacedParse(ParsePiece(t, ts, parents), 2 * |ts| + 2)
    decreases |ts|, 5
  {
    if !t.Unquoted? && !t.Substitution? {
      ValueIsPlaced(Conf, t, ts, parents, 2 * |ts| + 2);
    }
  }

  /** A stream whose first token may be a joined value. */
  ghost predicate AfterJoining(ts: seq<Token>, limit: nat) {
    ts != [] && AllBare(ts[1..]) && (ts[0].Literal? ==> Placed(ts[0].value, |ts| - 1, limit))
  }

  ghost predicate PiecesPlaced(values: seq<Value>, left: nat, limit: nat) {
    AllScattered(values) && forall n | n in AllNumbers(values) :: 2 * left <= n < limit && n != 2 * left + 1
  }

  lemma OnePieceMore(values: seq<Value>, v: Value, left: nat, less: nat, limit: nat)
    requires PiecesPlaced(values, left, limit) && Placed(v, less, 2 * left) && less < left && 2 * left <= limit
    ensures PiecesPlaced(values + [v], less, limit)
  {
    hide Numbers, Scattered;
    OneNumbers(v);
    AppendScattered(values, [v]);
  }

  lemma {:induction false} ConsolidateIsPlaced(ts: seq<Token>, values: seq<Value>, parents: Path, limit: nat)
    requires AllBare(ts) && PiecesPlaced(values, |ts|, limit) && 2 * |ts| <= limit
    requires ConsolidateFrom(ts, values, parents).Parsed?
    ensures AfterJoining(ConsolidateFrom(ts, values, parents).rest, limit)
    decreases |ts|, 0
  {
    hide ParsePiece, Concatenated, Numbers, Scattered, Bare, PiecesPlaced, AllScattered, AllNumbers;
    var t, rest := ts[0], ts[1..];
    if StartsValue(t) || t.Unquoted? || t.Substitution? {
      var piece := ParsePiece(t, rest, parents);
      PieceIsPlaced(t, rest, parents);
      OnePieceMore(values, piece.result, |ts|, |piece.rest|, limit);
      ConsolidateIsPlaced(piece.rest, values + [piece.result], parents, limit);
    } else if values == [] {
      assert !t.Literal?;
    } else {
      JoinedIsPlaced(values, |ts|, limit);
      assert ([Literal(Concatenated(values).value.value)] + ts)[1..] == ts;
    }
  }

  lemma JoinedIsPlaced(values: seq<Value>, left: nat, limit: nat)
    requires PiecesPlaced(values, left, limit) && Concatenated(values).Fine? && Concatenated(values).value.Some?
    ensures Placed(Concatenated(values).value.value, left, limit)
  {
    hide Concatenated, Numbers, Scattered;
    ConcatenatedScattered(values);
  }

  lemma NothingPlaced(left: nat, limit: nat)
    ensures PiecesPlaced([], left, limit)
  {
  }

  /** The token and the stream a value is parsed from. */
  lemma {:induction false} ValueStartsPlaced(flavor: Flavor, ts: seq<Token>, parents: Path)
    requires AllBare(ts) && ConsolidateValues(flavor, ts, parents).Parsed?
    requires NextOnAnyLine(flavor, ConsolidateValues(flavor, ts, parents).rest).Parsed?
    ensures var next := NextOnAnyLine(flavor, ConsolidateValues(flavor, ts, parents).rest);
      AllBare(next.rest) && (next.result.Literal? ==> Placed(next.result.value, |next.rest|, 2 * |ts|))
    decreases |ts|, 1
  {
    hide Bare, ConsolidateFrom, Placed;
    if flavor.Json? {
      NextIsBare(flavor, ts);
      BareIsPlaced(NextOnAnyLine(flavor, ts).result, |NextOnAnyLine(flavor, ts).rest|, 2 * |ts|);
    } else {
      NextIsBare(flavor, ts);
      var first := NextOnAnyLine(flavor, ts);
      var stream := [first.result] + first.rest;
      NothingPlaced(|stream|, 2 * |ts|);
      ConsolidateIsPlaced(stream, [], parents, 2 * |ts|);
      var rest := ConsolidateFrom(stream, [], parents).rest;
      if rest[0].Newline? {
        NextIsBare(flavor, rest[1..]);
        var next := NextOnAnyLine(flavor, rest[1..]);
        BareIsPlaced(next.result, |next.rest|, 2 * |ts|);
      }
    }
  }

  lemma BareIsPlaced(t: Token, left: nat, limit: nat)
    requires Bare(t)
    ensures t.Literal? ==> Placed(t.value, left, limit)
  {
  }

  lemma {:induction false} FieldValueIsPlaced(flavor: Flavor, afterKey: Token, ts: seq<Token>, path: Path)
    requires AllBare(ts)
    ensures var p := ParseFieldValue(flavor, afterKey, ts, path);
      p.Parsed? ==> AllBare(p.rest) && Between(p.result, |p.rest|, 2 * |ts| + 2)
    decreases |ts|, 5
  {
    hide ParseValue, ConsolidateValues, NextOnAnyLine, Bare, Numbers, Scattered;
    var consolidated := ConsolidateValues(flavor, ts, path);
    if flavor.Conf? && afterKey.OpenCurly? {
      ValueIsPlaced(flavor, afterKey, ts, path, 2 * |ts| + 2);
    } else if SeparatesKey(flavor, afterKey) && consolidated.Parsed? &&
              NextOnAnyLine(flavor, consolidated.rest).Parsed? {
      ValueStartsPlaced(flavor, ts, path);
      var next := NextOnAnyLine(flavor, consolidated.rest);
      ValueIsPlaced(flavor, next.result, next.rest, path, 2 * |ts|);
      var value := ParseValue(flavor, next.result, next.rest, path);
      if value.Parsed? {
        ExtendIsPlaced(value, path, 2 * |ts| + 2);
      }
    }
  }

  lemma ExtendIsPlaced(value: Parse<Value>, path: Path, limit: nat)
    requires value.Parsed? && Placed(value.result, |value.rest|, limit) && 2 * |value.rest| + 2 <= limit
    ensures var p := Extend(value, path); p.Parsed? && p.rest == value.rest && Between(p.result, |p.rest|, limit)
  {
    var x, n := value.result, 2 * |value.rest| + 1;
    var previous := Reference(n, path, true, 0);
    SelfReference.StepConcatenated(previous, x);
    var step := Concatenation([previous, List([x])]);
    ListScattered([x]);
    OneNumbers(x);
    assert step.pieces[0] == previous && step.pieces[1] == List([x]);
    assert Numbers(previous) == {n};
    assert Scattered(step);
    forall m | m in Numbers(step) ensures m == n || m in Numbers(x) {
    }
  }

  lemma {:induction false} NestedScattered(keys: Path, v: Value)
    requires Scattered(v)
    ensures Scattered(Nested(keys, v)) && Numbers(Nested(keys, v)) == Numbers(v)
    decreases |keys|
  {
    if keys != [] {
      NestedScattered(keys[1..], v);
      var inner := Nested(keys[1..], v);
      assert Nested(keys, v).fields[keys[0]] == inner;
      forall n ensures n in Numbers(Nested(keys, v)) <==> n in Numbers(inner) {
      }
    }
  }

  /** One entry of an object replaced or added. */
  lemma EntryScattered(fields: map<string, Value>, key: string, v: Value, news: set<nat>)
    requires Scattered(Object(fields, false)) && Scattered(v) && news !! Numbers(Object(fields, false))
    requires Numbers(v) <= news + (if key in fields then Numbers(fields[key]) else {})
    ensures var o := Object(fields[key := v], false);
      Scattered(o) && Numbers(o) <= news + Numbers(Object(fields, false))
  {
    hide Numbers;
    var before, more := Object(fields, false), fields[key := v];
    forall k | k in fields ensures Numbers(fields[k]) <= Numbers(before) { EntryNumbers(before, k); }
    forall k, l | k in more && l in more && k != l ensures Numbers(more[k]) !! Numbers(more[l]) {
      assert k != key ==> more[k] == fields[k];
      assert l != key ==> more[l] == fields[l];
    }
    EntriesWithin(Object(more, false), news + Numbers(before));
  }

  lemma EntriesWithin(o: Value, numbers: set<nat>)
    requires o.Object? && forall k | k in o.fields :: Numbers(o.fields[k]) <= numbers
    ensures Numbers(o) <= numbers
  {
  }

  lemma StoreScattered(flavor: Flavor, fields: map<string, Value>, path: Path, v: Value)
    requires path != [] && Scattered(Object(fields, false)) && Scattered(v) && Store(flavor, fields, path, v).Some?
    requires Numbers(v) !! Numbers(Object(fields, false))
    ensures var o := Object(Store(flavor, fields, path, v).value, false);
      Scattered(o) && Numbers(o) <= Numbers(v) + Numbers(Object(fields, false))
  {
    hide Numbers, Scattered, WithFallback;
    var keys := if |path| == 1 then [] else KeysBeforeEmpty(path[1..]);
    var added, before := Nested(keys, v), Object(fields, false);
    NestedScattered(keys, v);
    if path[0] in fields {
      EntryNumbers(before, path[0]);
      EntryIsScattered(before, path[0]);
      WithFallbackScattered(added, fields[path[0]]);
      EntryScattered(fields, path[0], WithFallback(added, fields[path[0]]), Numbers(v));
    } else {
      EntryScattered(fields, path[0], added, Numbers(v));
    }
  }

  lemma EntryIsScattered(o: Value, k: string)
    requires o.Object? && Scattered(o) && k in o.fields
    ensures Scattered(o.fields[k])
  {
  }

  lemma {:induction false} FieldIsPlaced(flavor: Flavor, t: Token, ts: seq<Token>, fields: map<string, Value>,
                                         parents: Path, limit: nat)
    requires Bare(t) && AllBare(ts) && Between(Object(fields, false), |ts| + 1, limit) && 2 * |ts| + 2 <= limit
    ensures var p := ParseField(flavor, t, ts, fields, parents);
      p.Parsed? ==> AllBare(p.rest) && Between(Object(p.result, false), |p.rest|, limit)
    decreases |ts|, 6
  {
    hide Bare, ParseFieldValue, NextOnAnyLine, ParsePathExpression, CollectKey, Store, Numbers, Scattered;
    if ParseField(flavor, t, ts, fields, parents).Parsed? {
      var key := ParseKey(flavor, t, ts);
      if flavor.Conf? {
        KeyIsBare(t, ts, []);
      }
      NextIsBare(flavor, key.rest);
      var afterKey := NextOnAnyLine(flavor, key.rest);
      var path := parents + key.result;
      FieldValueIsPlaced(flavor, afterKey.result, afterKey.rest, path);
      var value := ParseFieldValue(flavor, afterKey.result, afterKey.rest, path);
      StoreScattered(flavor, fields, key.result, value.result);
    }
  }

  lemma {:induction false} FieldsArePlaced(flavor: Flavor, hadOpenCurly: bool, ts: seq<Token>,
                                           fields: map<string, Value>, afterComma: bool, parents: Path, limit: nat)
    requires AllBare(ts) && Between(Object(fields, false), |ts|, limit) && 2 * |ts| <= limit
    ensures var p := ParseFields(flavor, hadOpenCurly, ts, fields, afterComma, parents);
      p.Parsed? ==>
        AllBare(p.rest) && Between(p.result, |p.rest|, limit) && (hadOpenCurly ==> Placed(p.result, |p.rest|, limit))
    decreases |ts|, 3
  {
    hide ParseField, NextOnAnyLine, Separator, Numbers, Scattered, Bare;
    var first := NextOnAnyLine(flavor, ts);
    if ParseFields(flavor, hadOpenCurly, ts, fields, afterComma, parents).Parsed? {
      NextIsBare(flavor, ts);
      if !first.result.CloseCurly? && !(first.result.End? && !hadOpenCurly) {
        var field := ParseField(flavor, first.result, first.rest, fields, parents);
        FieldIsPlaced(flavor, first.result, first.rest, fields, parents, limit);
        SeparatorIsBare(flavor, field.rest);
        var separator := Separator(flavor, field.rest);
        if separator.result {
          FieldsArePlaced(flavor, hadOpenCurly, separator.rest, field.result, true, parents, limit);
        } else {
          NextIsBare(flavor, separator.rest);
        }
      } else if !first.result.CloseCurly? {
        assert Bare(End) by { EndIsBare(); }
      }
    }
  }

  lemma EndIsBare()
    ensures Bare(End) && Bare(CloseSquare)
  {
  }

  lemma {:induction false} ArrayIsPlaced(flavor: Flavor, ts: seq<Token>, parents: Path, limit: nat)
    requires AllBare(ts) && 2 * |ts| <= limit
    ensures PlacedParse(ParseArray(flavor, ts, parents), limit)
    decreases |ts|, 3
  {
    hide ParseValue, NextOnAnyLine, ConsolidateValues, ParseItems, Bare, Numbers, Scattered, AllNumbers, AllScattered;
    var consolidated := ConsolidateValues(flavor, ts, parents);
    if ParseArray(flavor, ts, parents).Parsed? {
      ValueStartsPlaced(flavor, ts, parents);
      var next := NextOnAnyLine(flavor, consolidated.rest);
      if next.result.CloseSquare? {
        EmptyIsPlaced(|next.rest|, limit);
      } else {
        ValueIsPlaced(flavor, next.result, next.rest, parents, 2 * |ts|);
        var value := ParseValue(flavor, next.result, next.rest, parents);
        OneNumbers(value.result);
        ItemsArePlaced(flavor, value.rest, [value.result], parents, limit);
      }
    }
  }

  lemma EmptyIsPlaced(left: nat, limit: nat)
    ensures Placed(List([]), left, limit)
  {
  }

  lemma {:induction false} ItemsArePlaced(flavor: Flavor, ts: seq<Token>, items: seq<Value>, parents: Path, limit: nat)
    requires AllBare(ts) && AllScattered(items) && (forall n | n in AllNumbers(items) :: 2 * |ts| <= n < limit)
    requires 2 * |ts| <= limit
    ensures PlacedParse(ParseItems(flavor, ts, items, parents), limit)
    decreases |ts|, 2
  {
    hide ParseValue, NextOnAnyLine, ConsolidateValues, Separator, Bare, Numbers, Scattered, AllNumbers, AllScattered;
    if ParseItems(flavor, ts, items, parents).Parsed? {
      SeparatorIsBare(flavor, ts);
      var separator := Separator(flavor, ts);
      if !separator.result {
        NextIsBare(flavor, separator.rest);
        ListScattered(items);
      } else {
        ValueStartsPlaced(flavor, separator.rest, parents);
        var next := NextOnAnyLine(flavor, ConsolidateValues(flavor, separator.rest, parents).rest);
        if flavor.Conf? && next.result.CloseSquare? {
          EndIsBare();
          ItemsArePlaced(flavor, [CloseSquare] + next.rest, items, parents, limit);
        } else {
          ValueIsPlaced(flavor, next.result, next.rest, parents, 2 * |separator.rest|);
          var value := ParseValue(flavor, next.result, next.rest, parents);
          OneNumbers(value.result);
          AppendScattered(items, [value.result]);
          ItemsArePlaced(flavor, value.rest, items + [value.result], parents, limit);
        }
      }
    }
  }

  // ---------------------------------------------------------------- documents

  lemma {:induction false} WithoutCommentsBare(ts: seq<Token>)
    requires AllBare(ts)
    ensures AllBare(WithoutComments(ts))
  {
    hide Bare;
    if ts != [] {
      WithoutCommentsBare(ts[1..]);
    }
  }

  /** No two references of a parsed document carry the same number. */
  lemma ParsedIsScattered(flavor: Flavor, tokens: seq<Token>)
    requires AllBare(tokens) && ParseDocument(flavor, tokens).Some?
    ensures Scattered(ParseDocument(flavor, tokens).value)
  {
    hide ParseValue, ParseFields, NextOnAnyLine, Bare;
    var ts := WithoutComments(tokens);
    WithoutCommentsBare(tokens);
    NextIsBare(flavor, ts);
    var start := NextOnAnyLine(flavor, ts);
    NextIsBare(flavor, start.rest);
    var first := NextOnAnyLine(flavor, start.rest);
    if first.result.OpenCurly? || first.result.OpenSquare? {
      ValueIsPlaced(flavor, first.result, first.rest, [], 2 * |first.rest|);
    } else {
      var stream := [first.result] + first.rest;
      FieldsArePlaced(flavor, false, stream, map[], false, [], 2 * |stream|);
    }
  }

  lemma {:induction false} ScanIsBare(lex: Lexing, s: string, sb: string)
    ensures Bare(ScanUnquoted(lex, s, sb).0)
    decreases |s|
  {
    if !EndsUnquoted(lex, s) && Keyword(sb + [s[0]]).None? {
      ScanIsBare(lex, s[1..], sb + [s[0]]);
    }
  }

  /** Floating-point texts become numbers, or at least nothing with references in it. */
  ghost predicate PlainFloats(lex: Lexing) {
    forall s :: lex.floating(s).Some? ==> Bare(Literal(lex.floating(s).value))
  }

  lemma PullIsBare(lex: Lexing, s: string)
    requires PlainFloats(lex)
    ensures PullToken(lex, s).Scanned? ==> Bare(PullToken(lex, s).result)
  {
    hide PullSubstitution, PullQuoted, ScanUnquoted, BlankRun;
    var rest := s[BlankRun(s)..];
    ScanIsBare(lex, rest, "");
    if rest != [] && rest[0] == '"' {
      QuotedIsBare(rest[1..]);
    }
  }

  lemma QuotedIsBare(s: string)
    ensures PullQuoted(s).Scanned? ==> Bare(PullQuoted(s).result)
  {
  }

  lemma {:induction false} TokensAreBare(lex: Lexing, s: string, afterSimple: bool)
    requires PlainFloats(lex)
    ensures AllBare(Tokens(lex, s, afterSimple))
    decreases |s|
  {
    hide PullToken, PlainFloats;
    PullIsBare(lex, s);
    var pulled := PullToken(lex, s);
    if pulled.Scanned? && !pulled.result.End? {
      TokensAreBare(lex, pulled.rest, Simple(pulled.result));
    }
  }

  /** From the text: the references of every accepted document are told apart by their numbers. */
  lemma AcceptedTextIsScattered(flavor: Flavor, lex: Lexing, text: string)
    requires PlainFloats(lex) && ParseDocument(flavor, Tokenized(lex, text)).Some?
    ensures Scattered(ParseDocument(flavor, Tokenized(lex, text)).value)
  {
    hide Tokens, ParseDocument, PlainFloats;
    TokensAreBare(lex, text, false);
    ParsedIsScattered(flavor, Tokenized(lex, text));
  }
}

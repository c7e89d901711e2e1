/** Value concatenation: flattening followed by joining neighbours from the left. */
module Concatenations {
  import opened ConfigValues
  import opened MergeAlgebra
  import opened Numerals

  /** Why a concatenation is refused: incompatible neighbours (`ConfigExceptionWrongType`), or a
      concatenation left inside another one (`ConfigExceptionBugOrBroken`). */
  datatype JoinError = WrongType | Unflattened

  datatype Joined<+T> = Fine(value: T) | Refused(error: JoinError)

  /** `transform_to_string`: the empty string for objects and lists. */
  function TransformToString(v: Value): (s: string) {
    match v
    case Null => "null"
    case Bool(flag) => if flag then "true" else "false"
    case Number(number, originalText) => if originalText == "" then IntText(number) else originalText
    case Str(text) => text
    case _ => ""
  }

  /** The joined value of two neighbours, or `None` when they must stay apart. */
  function JoinTwo(left: Value, right: Value): (r: Joined<Option<Value>>) {
    if IsObject(left) && IsObject(right) then Fine(Some(WithFallback(right, left)))
    else if left.List? && right.List? then Fine(Some(List(left.items + right.items)))
    else if left.Concatenation? || right.Concatenation? then Refused(Unflattened)
    else if Unmergeable(left) || Unmergeable(right) then Fine(None)
    else
      var s1, s2 := TransformToString(left), TransformToString(right);
      if s1 == "" || s2 == "" then Refused(WrongType) else Fine(Some(Str(s1 + s2)))
  }

  /** `join`: the builder after taking in one more piece. */
  function Join(builder: seq<Value>, right: Value): (r: Joined<seq<Value>>) {
    if builder == [] then Fine([right])
    else
      var left := builder[|builder| - 1];
      match JoinTwo(left, right)
      case Refused(e) => Refused(e)
      case Fine(None) => Fine(builder + [right])
      case Fine(Some(joined)) => Fine(builder[..|builder| - 1] + [joined])
  }

  function JoinAll(builder: seq<Value>, pieces: seq<Value>): (r: Joined<seq<Value>>)
    decreases |pieces|
  {
    if pieces == [] then Fine(builder)
    else ThenJoin(JoinAll(builder, pieces[..|pieces| - 1]), pieces[|pieces| - 1])
  }

  /** One more piece after a builder that may already have been refused. */
  function ThenJoin(soFar: Joined<seq<Value>>, right: Value): (r: Joined<seq<Value>>) {
    if soFar.Refused? then soFar else Join(soFar.value, right)
  }

  /** More pieces after a builder that may already have been refused. */
  function ThenJoinAll(soFar: Joined<seq<Value>>, pieces: seq<Value>): (r: Joined<seq<Value>>) {
    if soFar.Refused? then soFar else JoinAll(soFar.value, pieces)
  }

  function Flatten(pieces: seq<Value>): (r: seq<Value>) {
    if pieces == [] then []
    else
      var last := pieces[|pieces| - 1];
      Flatten(pieces[..|pieces| - 1]) + (if last.Concatenation? then last.pieces else [last])
  }

  function Consolidated(pieces: seq<Value>): (r: Joined<seq<Value>>) {
    if |pieces| < 2 then Fine(pieces) else JoinAll([], Flatten(pieces))
  }

  /** `ConfigConcatenation::consolidate`, as its two loops over growing vectors. */
  method Consolidate(pieces: seq<Value>) returns (r: Joined<seq<Value>>)
    ensures r == Consolidated(pieces)
  {
    if |pieces| < 2 {
      return Fine(pieces);
    }
    var flattened: seq<Value> := [];
    for i := 0 to |pieces|
      invariant flattened == Flatten(pieces[..i])
    {
      assert pieces[..i + 1][..i] == pieces[..i];
      if pieces[i].Concatenation? {
        flattened := flattened + pieces[i].pieces;
      } else {
        flattened := flattened + [pieces[i]];
      }
    }
    assert pieces[..|pieces|] == pieces;
    var consolidated: seq<Value> := [];
    for i := 0 to |flattened|
      invariant JoinAll([], flattened[..i]) == Fine(consolidated)
    {
      assert flattened[..i + 1][..i] == flattened[..i];
      match Join(consolidated, flattened[i])
      case Refused(e) =>
        RefusalIsFinal([], flattened, i + 1);
        return Refused(e);
      case Fine(b) =>
        consolidated := b;
    }
    assert flattened[..|flattened|] == flattened;
    r := Fine(consolidated);
  }

  lemma {:induction false} RefusalIsFinal(builder: seq<Value>, pieces: seq<Value>, n: nat)
    requires n <= |pieces| && JoinAll(builder, pieces[..n]).Refused?
    ensures JoinAll(builder, pieces) == JoinAll(builder, pieces[..n])
    decreases |pieces|
  {
    if n == |pieces| {
      assert pieces[..n] == pieces;
    } else {
      assert pieces[..|pieces| - 1][..n] == pieces[..n];
      RefusalIsFinal(builder, pieces[..|pieces| - 1], n);
    }
  }

  /** `concatenate`: absent, the single value, or a concatenation of what could not be joined. */
  method Concatenate(pieces: seq<Value>) returns (r: Joined<Option<Value>>)
    ensures r == Concatenated(pieces)
  {
    var consolidated := Consolidate(pieces);
    match consolidated
    case Refused(e) => r := Refused(e);
    case Fine(joined) =>
      if |joined| == 0 {
        r := Fine(None);
      } else if |joined| == 1 {
        r := Fine(Some(joined[0]));
      } else {
        r := Fine(Some(Concatenation(joined)));
      }
  }

  function Concatenated(pieces: seq<Value>): (r: Joined<Option<Value>>) {
    match Consolidated(pieces)
    case Refused(e) => Refused(e)
    case Fine(joined) =>
      Fine(if |joined| == 0 then None else if |joined| == 1 then Some(joined[0]) else Some(Concatenation(joined)))
  }

  // ---------------------------------------------------------------- grouping

  /** The pieces a concatenation is made of once objects and lists in it are resolved. */
  predicate Plain(v: Value) {
    v.Reference? || Resolved(v)
  }

  predicate AllPlain(vs: seq<Value>) {
    forall i | 0 <= i < |vs| :: Plain(vs[i])
  }

  /** No two neighbours of a consolidated sequence can be joined. */
  predicate Separated(vs: seq<Value>) {
    forall i | 0 <= i < |vs| - 1 :: JoinTwo(vs[i], vs[i + 1]) == Fine(None)
  }

  lemma JoinTwoPlain(left: Value, right: Value)
    requires Plain(left) && Plain(right)
    ensures JoinTwo(left, right) == Fine(None) <==> left.Reference? || right.Reference?
    ensures JoinTwo(left, right).Refused? ==> JoinTwo(left, right).error == WrongType
    ensures JoinTwo(left, right).Fine? && JoinTwo(left, right).value.Some? ==>
      Resolved(JoinTwo(left, right).value.value)
  {
    if left.Object? && right.Object? {
      WithFallbackResolved(right, left);
    }
  }

  /** Resolved neighbours join only with their own kind, and stay of that kind. */
  lemma JoinTwoKinds(left: Value, right: Value)
    requires Resolved(left) && Resolved(right)
    ensures left.Object? && right.Object? ==>
      JoinTwo(left, right) == Fine(Some(WithFallback(right, left))) && WithFallback(right, left).Object?
    ensures left.List? && right.List? ==> JoinTwo(left, right) == Fine(Some(List(left.items + right.items)))
    ensures Textual(left) && Textual(right) ==>
      JoinTwo(left, right) == Fine(Some(Str(TransformToString(left) + TransformToString(right))))
    ensures JoinTwo(left, right).Fine? <==>
      (left.Object? && right.Object?) || (left.List? && right.List?) || (Textual(left) && Textual(right))
  {
  }

  /** A scalar whose text is not empty. */
  predicate Textual(v: Value) {
    TransformToString(v) != ""
  }

  /** Joining is associative, refusals included. */
  lemma JoinTwoAssociative(a: Value, b: Value, c: Value)
    requires Resolved(a) && Resolved(b) && Resolved(c)
    requires JoinTwo(a, b).Fine? && JoinTwo(a, b).value.Some? && JoinTwo(b, c).Fine? && JoinTwo(b, c).value.Some?
    ensures JoinTwo(JoinTwo(a, b).value.value, c) == JoinTwo(a, JoinTwo(b, c).value.value)
  {
    JoinTwoKinds(a, b);
    JoinTwoKinds(b, c);
    if b.Object? {
      JoinThreeObjects(a, b, c);
    } else if b.List? {
      assert (a.items + b.items) + c.items == a.items + (b.items + c.items);
    } else {
      JoinThreeTexts(a, b, c);
    }
  }

  lemma JoinThreeObjects(a: Value, b: Value, c: Value)
    requires Resolved(a) && Resolved(b) && Resolved(c) && a.Object? && b.Object? && c.Object?
    ensures JoinTwo(WithFallback(b, a), c) == JoinTwo(a, WithFallback(c, b))
  {
    WithFallbackAssociative(c, b, a);
    JoinTwoKinds(a, b);
    JoinTwoKinds(b, c);
  }

  lemma JoinThreeTexts(a: Value, b: Value, c: Value)
    requires Resolved(a) && Resolved(b) && Resolved(c) && Textual(a) && Textual(b) && Textual(c)
    ensures JoinTwo(Str(TransformToString(a) + TransformToString(b)), c) ==
            JoinTwo(a, Str(TransformToString(b) + TransformToString(c)))
  {
    var s1, s2, s3 := TransformToString(a), TransformToString(b), TransformToString(c);
    assert (s1 + s2) + s3 == s1 + (s2 + s3);
    JoinTwoKinds(Str(s1 + s2), c);
    JoinTwoKinds(a, Str(s2 + s3));
  }

  lemma JoinTwoRefuses(a: Value, b: Value, c: Value)
    requires Resolved(a) && Resolved(b) && Resolved(c)
    ensures JoinTwo(a, b).Refused? && JoinTwo(b, c).Fine? && JoinTwo(b, c).value.Some? ==>
      JoinTwo(a, JoinTwo(b, c).value.value).Refused?
    ensures JoinTwo(b, c).Refused? && JoinTwo(a, b).Fine? && JoinTwo(a, b).value.Some? ==>
      JoinTwo(JoinTwo(a, b).value.value, c).Refused?
  {
    JoinTwoKinds(a, b);
    JoinTwoKinds(b, c);
    JoinTwoPlain(a, b);
    JoinTwoPlain(b, c);
    if JoinTwo(a, b).Fine? {
      JoinTwoKinds(JoinTwo(a, b).value.value, c);
    }
    if JoinTwo(b, c).Fine? {
      JoinTwoKinds(a, JoinTwo(b, c).value.value);
    }
  }

  lemma NotReference(v: Value)
    requires Resolved(v)
    ensures !v.Reference?
  {
  }

  /** The builder stays plain and separated. */
  lemma JoinKeeps(builder: seq<Value>, right: Value)
    requires AllPlain(builder) && Plain(right) && Separated(builder)
    ensures Join(builder, right).Refused? ==> Join(builder, right).error == WrongType
    ensures Join(builder, right).Fine? ==>
      var b := Join(builder, right).value; b != [] && AllPlain(b) && Separated(b)
  {
    if builder != [] {
      JoinTwoPlain(builder[|builder| - 1], right);
      match JoinTwo(builder[|builder| - 1], right)
      case Fine(Some(joined)) =>
        if |builder| >= 2 {
          JoinTwoPlain(builder[|builder| - 2], builder[|builder| - 1]);
          JoinTwoPlain(builder[|builder| - 2], joined);
        }
      case _ =>
    }
  }

  lemma {:induction false} JoinAllKeeps(builder: seq<Value>, pieces: seq<Value>)
    requires AllPlain(builder) && Separated(builder) && AllPlain(pieces)
    ensures JoinAll(builder, pieces).Refused? ==> JoinAll(builder, pieces).error == WrongType
    ensures JoinAll(builder, pieces).Fine? ==>
      var b := JoinAll(builder, pieces).value; AllPlain(b) && Separated(b) && (builder + pieces != [] ==> b != [])
    decreases |pieces|
  {
    if pieces != [] {
      JoinAllKeeps(builder, pieces[..|pieces| - 1]);
      match JoinAll(builder, pieces[..|pieces| - 1])
      case Fine(b) => JoinKeeps(b, pieces[|pieces| - 1]);
      case _ =>
    }
  }

  /** Taking in `l` and then `y` is taking in their join, or fails with it. */
  lemma JoinOneByOne(builder: seq<Value>, l: Value, y: Value)
    requires AllPlain(builder) && Resolved(l) && Resolved(y)
    ensures JoinTwo(l, y).Fine? ==>
      && JoinTwo(l, y).value.Some?
      && ThenJoin(Join(builder, l), y) == Join(builder, JoinTwo(l, y).value.value)
    ensures JoinTwo(l, y).Refused? ==> ThenJoin(Join(builder, l), y) == Refused(WrongType)
  {
    JoinTwoPlain(l, y);
    if builder == [] {
      if JoinTwo(l, y).Fine? {
        assert [l][..0] + [JoinTwo(l, y).value.value] == [JoinTwo(l, y).value.value];
      }
    } else if builder[|builder| - 1].Reference? {
      JoinAfterReference(builder, l, y);
    } else {
      hide JoinTwo;
      JoinAfterResolved(builder, l, y);
    }
  }

  lemma JoinAfterReference(builder: seq<Value>, l: Value, y: Value)
    requires AllPlain(builder) && builder != [] && builder[|builder| - 1].Reference?
    requires Resolved(l) && Resolved(y)
    ensures JoinTwo(l, y).Fine? && JoinTwo(l, y).value.Some? ==>
      ThenJoin(Join(builder, l), y) == Join(builder, JoinTwo(l, y).value.value)
    ensures JoinTwo(l, y).Refused? ==> ThenJoin(Join(builder, l), y) == Refused(WrongType)
  {
    var z := builder[|builder| - 1];
    JoinTwoPlain(l, y);
    JoinTwoPlain(z, l);
    assert Join(builder, l) == Fine(builder + [l]);
    if JoinTwo(l, y).Fine? && JoinTwo(l, y).value.Some? {
      JoinTwoPlain(z, JoinTwo(l, y).value.value);
    }
  }

  lemma JoinAfterResolved(builder: seq<Value>, l: Value, y: Value)
    requires AllPlain(builder) && builder != [] && !builder[|builder| - 1].Reference?
    requires Resolved(l) && Resolved(y)
    ensures JoinTwo(l, y).Fine? && JoinTwo(l, y).value.Some? ==>
      ThenJoin(Join(builder, l), y) == Join(builder, JoinTwo(l, y).value.value)
    ensures JoinTwo(l, y).Refused? ==> ThenJoin(Join(builder, l), y) == Refused(WrongType)
  {
    hide JoinTwo, Resolved;
    NotReference(l);
    NotReference(y);
    var front, z := builder[..|builder| - 1], builder[|builder| - 1];
    JoinTwoPlain(l, y);
    JoinTwoPlain(z, l);
    JoinTwoRefuses(z, l, y);
    if JoinTwo(l, y).Fine? && JoinTwo(l, y).value.Some? {
      JoinTwoPlain(z, JoinTwo(l, y).value.value);
    }
    if JoinTwo(z, l).Fine? {
      if JoinTwo(l, y).Fine? {
        JoinTwoAssociative(z, l, y);
      }
      var zl := JoinTwo(z, l).value.value;
      JoinTwoPlain(zl, y);
      assert (front + [zl])[..|front|] == front;
    }
  }

  lemma {:induction false} JoinAllAppend(builder: seq<Value>, xs: seq<Value>, ys: seq<Value>)
    ensures JoinAll(builder, xs + ys) ==
            ThenJoinAll(JoinAll(builder, xs), ys)
    decreases |ys|
  {
    if ys == [] {
      assert xs + ys == xs;
    } else {
      assert (xs + ys)[..|xs + ys| - 1] == xs + ys[..|ys| - 1];
      JoinAllAppend(builder, xs, ys[..|ys| - 1]);
    }
  }

  /** Feeding the pieces `ys` to a builder is feeding it the consolidation of `ys`. */
  lemma {:induction false} JoinAllConsolidated(builder: seq<Value>, ys: seq<Value>)
    requires AllPlain(builder) && Separated(builder) && AllPlain(ys)
    ensures JoinAll(builder, ys) ==
            if JoinAll([], ys).Refused? then JoinAll([], ys) else JoinAll(builder, JoinAll([], ys).value)
    decreases |ys|
  {
    if ys != [] {
      var front, y := ys[..|ys| - 1], ys[|ys| - 1];
      JoinAllConsolidated(builder, front);
      JoinAllKeeps([], front);
      match JoinAll([], front)
      case Refused(e) =>
      case Fine(c) =>
        JoinAllKeeps(builder, c);
        JoinLast(builder, c, y);
    }
  }

  /** The step of the induction: one more piece after the consolidated `c`. */
  lemma JoinLast(builder: seq<Value>, c: seq<Value>, y: Value)
    requires AllPlain(builder) && Separated(builder) && AllPlain(c) && Separated(c) && Plain(y)
    ensures Join(c, y).Refused? ==> ThenJoin(JoinAll(builder, c), y) == Join(c, y)
    ensures Join(c, y).Fine? ==> ThenJoin(JoinAll(builder, c), y) == JoinAll(builder, Join(c, y).value)
  {
    hide JoinTwo, Resolved;
    JoinAllKeeps(builder, c);
    JoinKeeps(c, y);
    if c == [] {
      JoinAllAppend(builder, [], [y]);
      assert [y][..0] == [];
    } else {
      var d, l := c[..|c| - 1], c[|c| - 1];
      JoinTwoPlain(l, y);
      JoinAllKeeps(builder, d);
      assert c == d + [l];
      JoinAllSingle(builder, d, l);
      match JoinTwo(l, y)
      case Fine(None) =>
      case Fine(Some(joined)) =>
        JoinAllSingle(builder, d, joined);
        if JoinAll(builder, d).Fine? {
          JoinOneByOne(JoinAll(builder, d).value, l, y);
        }
      case Refused(_) =>
        if JoinAll(builder, d).Fine? {
          JoinOneByOne(JoinAll(builder, d).value, l, y);
        }
    }
  }

  lemma JoinAllSingle(builder: seq<Value>, xs: seq<Value>, y: Value)
    ensures JoinAll(builder, xs + [y]) ==
            ThenJoin(JoinAll(builder, xs), y)
  {
    assert (xs + [y])[..|xs|] == xs;
  }

  lemma {:induction false} FlattenPlain(pieces: seq<Value>)
    requires AllPlain(pieces)
    ensures Flatten(pieces) == pieces
  {
    if pieces != [] {
      FlattenPlain(pieces[..|pieces| - 1]);
    }
  }

  lemma ConsolidatedPlain(pieces: seq<Value>)
    requires AllPlain(pieces)
    ensures Consolidated(pieces) == JoinAll([], pieces)
  {
    FlattenPlain(pieces);
    if |pieces| == 1 {
      assert pieces[..0] == [] && pieces == [pieces[0]];
    }
  }

  /** Consolidation is independent of grouping: consolidating `xs` and `ys` apart and then
      together gives what consolidating `xs + ys` gives, or fails as it fails; and a result never
      has two neighbours that could still be joined. */
  lemma ConsolidationIgnoresGrouping(xs: seq<Value>, ys: seq<Value>)
    requires AllPlain(xs) && AllPlain(ys)
    ensures Consolidated(xs).Fine? && Consolidated(ys).Fine? ==>
      Consolidated(Consolidated(xs).value + Consolidated(ys).value) == Consolidated(xs + ys)
    ensures Consolidated(xs).Refused? || Consolidated(ys).Refused? ==> Consolidated(xs + ys) == Refused(WrongType)
    ensures Consolidated(xs).Fine? ==> Separated(Consolidated(xs).value)
  {
    ConsolidatedPlain(xs);
    ConsolidatedPlain(ys);
    ConsolidatedPlain(xs + ys);
    JoinAllAppend([], xs, ys);
    JoinAllKeeps([], xs);
    JoinAllKeeps([], ys);
    match JoinAll([], xs)
    case Refused(_) =>
    case Fine(cx) =>
      JoinAllConsolidated(cx, ys);
      match JoinAll([], ys)
      case Refused(_) =>
      case Fine(cy) =>
        ConsolidatedPlain(cx + cy);
        JoinAllAppend([], cx, cy);
        ConsolidatedAgain(cx);
  }

  /** A separated sequence is already consolidated. */
  lemma {:induction false} ConsolidatedAgain(cs: seq<Value>)
    requires Separated(cs)
    ensures JoinAll([], cs) == Fine(cs)
  {
    if cs != [] {
      var front := cs[..|cs| - 1];
      ConsolidatedAgain(front);
      assert cs == front + [cs[|cs| - 1]];
      if |cs| >= 2 {
        assert JoinTwo(cs[|cs| - 2], cs[|cs| - 2 + 1]) == Fine(None);
        assert Join(front, cs[|cs| - 1]) == Fine(cs);
      }
    }
  }

  /** Resolved pieces never stay apart: they join to one resolved value, or are refused. */
  lemma {:induction false} ResolvedPiecesJoin(pieces: seq<Value>)
    requires forall i | 0 <= i < |pieces| :: Resolved(pieces[i])
    ensures Consolidated(pieces).Refused? ==> Consolidated(pieces).error == WrongType
    ensures Consolidated(pieces).Fine? ==>
      && |Consolidated(pieces).value| == (if pieces == [] then 0 else 1)
      && forall i | 0 <= i < |Consolidated(pieces).value| :: Resolved(Consolidated(pieces).value[i])
  {
    hide JoinTwo, Resolved, Flatten;
    ConsolidatedPlain(pieces);
    if pieces != [] {
      var front, last := pieces[..|pieces| - 1], pieces[|pieces| - 1];
      ConsolidatedPlain(front);
      ResolvedPiecesJoin(front);
      if JoinAll([], front).Fine? && front != [] {
        var joined := JoinAll([], front).value;
        assert joined == [joined[0]];
        NotReference(joined[0]);
        NotReference(last);
        JoinTwoPlain(joined[0], last);
      }
    }
  }

  /** Two pieces, neither of them a concatenation. */
  lemma ConsolidatedTwo(a: Value, b: Value)
    requires !a.Concatenation? && !b.Concatenation?
    ensures Consolidated([a, b]) == Join([a], b)
  {
    assert [a, b][..1] == [a] && [a][..0] == [];
    assert Flatten([a]) == Flatten([]) + [a] == [a];
    assert Flatten([a, b]) == Flatten([a]) + [b] == [a, b];
    assert JoinAll([], [a]) == ThenJoin(JoinAll([], []), a) == Fine([a]);
    assert JoinAll([], [a, b]) == ThenJoin(JoinAll([], [a]), b);
  }

  /** Two lists join to their concatenation. */
  lemma ConsolidatedLists(xs: seq<Value>, ys: seq<Value>)
    ensures Consolidated([List(xs), List(ys)]) == Fine([List(xs + ys)])
  {
    ConsolidatedTwo(List(xs), List(ys));
    assert [List(xs)][..0] + [List(xs + ys)] == [List(xs + ys)];
  }
}

/** What the parser builds satisfies the constructors' checks, in both flavours, so everything
    that is proved about resolving well-formed documents holds of every accepted text. */
module ParsedDocuments {
  import opened ConfigValues
  import opened MergeAlgebra
  import opened Concatenations
  import opened Tokenization
  import opened PathSyntax
  import opened Parsing
  import opened Resolution

  /** The values that are parsed from single tokens, braces or brackets. */
  predicate Piece(v: Value) {
    WellFormed(v) && !v.DelayedMerge? && !v.Concatenation? && (v.Object? ==> !v.ignoresFallbacks)
  }

  predicate GoodToken(t: Token) {
    t.Literal? ==> Piece(t.value)
  }

  predicate GoodTokens(ts: seq<Token>) {
    forall i | 0 <= i < |ts| :: GoodToken(ts[i])
  }

  predicate GoodValue(p: Parse<Value>) {
    p.Parsed? ==> WellFormed(p.result) && GoodTokens(p.rest)
  }

  predicate GoodFields(fields: map<string, Value>) {
    forall k | k in fields :: WellFormed(fields[k])
  }

  // ---------------------------------------------------------------- concatenations

  /** Pieces of which two or more hold a reference. */
  predicate GoodPieces(vs: seq<Value>) {
    && (forall i | 0 <= i < |vs| :: Piece(vs[i]))
    && (|vs| >= 2 ==> exists i | 0 <= i < |vs| :: vs[i].Reference?)
  }

  lemma JoinTwoGood(left: Value, right: Value)
    requires Piece(left) && Piece(right)
    ensures var j := JoinTwo(left, right);
      && (j.Fine? && j.value.Some? ==> Piece(j.value.value) && !left.Reference? && !right.Reference?)
      && (j.Fine? && j.value.None? ==> left.Reference? || right.Reference?)
  {
    if left.Object? && right.Object? {
      WithFallbackWellFormed(right, left);
    }
  }

  lemma JoinGood(builder: seq<Value>, right: Value)
    requires GoodPieces(builder) && Piece(right) && Join(builder, right).Fine?
    ensures GoodPieces(Join(builder, right).value)
  {
    if builder != [] {
      var last := |builder| - 1;
      JoinTwoGood(builder[last], right);
      var joined := Join(builder, right).value;
      if JoinTwo(builder[last], right).value.None? {
        assert joined[last] == builder[last] && joined[last + 1] == right;
      } else if |builder| >= 2 {
        var i :| 0 <= i < |builder| && builder[i].Reference?;
        assert joined[i] == builder[i];
      }
    }
  }

  lemma {:induction false} JoinAllGood(pieces: seq<Value>)
    requires forall i | 0 <= i < |pieces| :: Piece(pieces[i])
    requires JoinAll([], pieces).Fine?
    ensures GoodPieces(JoinAll([], pieces).value)
    decreases |pieces|
  {
    if pieces != [] {
      JoinAllGood(pieces[..|pieces| - 1]);
      JoinGood(JoinAll([], pieces[..|pieces| - 1]).value, pieces[|pieces| - 1]);
    }
  }

  lemma {:induction false} FlattenPieces(pieces: seq<Value>)
    requires forall i | 0 <= i < |pieces| :: !pieces[i].Concatenation?
    ensures Flatten(pieces) == pieces
  {
    if pieces != [] {
      FlattenPieces(pieces[..|pieces| - 1]);
    }
  }

  /** Concatenating pieces gives a well-formed value. */
  lemma ConcatenatedGood(pieces: seq<Value>)
    requires forall i | 0 <= i < |pieces| :: Piece(pieces[i])
    ensures Concatenated(pieces).Fine? && Concatenated(pieces).value.Some? ==>
      WellFormed(Concatenated(pieces).value.value)
  {
    FlattenPieces(pieces);
    if |pieces| >= 2 && JoinAll([], pieces).Fine? {
      JoinAllGood(pieces);
    }
  }

  // ---------------------------------------------------------------- tokens

  lemma {:induction false} NextIsGood(flavor: Flavor, ts: seq<Token>)
    requires GoodTokens(ts) && NextOnAnyLine(flavor, ts).Parsed?
    ensures GoodToken(NextOnAnyLine(flavor, ts).result) && GoodTokens(NextOnAnyLine(flavor, ts).rest)
    decreases |ts|
  {
    if ts[0].Newline? {
      NextIsGood(flavor, ts[1..]);
    }
  }

  lemma {:induction false} SeparatorIsGood(flavor: Flavor, ts: seq<Token>, saw: bool)
    requires GoodTokens(ts)
    ensures flavor.Conf? && SeparatorOnLines(ts, saw).Parsed? ==> GoodTokens(SeparatorOnLines(ts, saw).rest)
    ensures Separator(flavor, ts).Parsed? ==> GoodTokens(Separator(flavor, ts).rest)
    decreases |ts|
  {
    if flavor.Json? {
      if NextOnAnyLine(flavor, ts).Parsed? {
        NextIsGood(flavor, ts);
      }
    } else if ts != [] && ts[0].Newline? {
      SeparatorIsGood(flavor, ts[1..], true);
      SeparatorSaw(ts[1..]);
    }
  }

  lemma {:induction false} SeparatorSaw(ts: seq<Token>)
    ensures SeparatorOnLines(ts, true).Parsed? <==> SeparatorOnLines(ts, false).Parsed?
    ensures SeparatorOnLines(ts, true).Parsed? ==> SeparatorOnLines(ts, true).rest == SeparatorOnLines(ts, false).rest
    decreases |ts|
  {
  }

  lemma {:induction false} KeyIsGood(t: Token, ts: seq<Token>, expression: seq<Token>)
    requires GoodToken(t) && GoodTokens(ts) && CollectKey(t, ts, expression).Parsed?
    ensures GoodTokens(CollectKey(t, ts, expression).rest)
    decreases |ts|
  {
    if t.Literal? || t.Unquoted? {
      KeyIsGood(ts[0], ts[1..], expression + [t]);
    }
  }

  // ---------------------------------------------------------------- fields

  lemma {:induction false} NestedGood(keys: Path, v: Value)
    requires WellFormed(v)
    ensures WellFormed(Nested(keys, v))
  {
    if keys != [] {
      NestedGood(keys[1..], v);
    }
  }

  lemma StoreGood(flavor: Flavor, fields: map<string, Value>, path: Path, v: Value)
    requires path != [] && GoodFields(fields) && WellFormed(v) && Store(flavor, fields, path, v).Some?
    ensures GoodFields(Store(flavor, fields, path, v).value)
  {
    var added := Nested(if |path| == 1 then [] else KeysBeforeEmpty(path[1..]), v);
    NestedGood(if |path| == 1 then [] else KeysBeforeEmpty(path[1..]), v);
    if path[0] in fields {
      WithFallbackWellFormed(added, fields[path[0]]);
    }
  }

  // ---------------------------------------------------------------- the parser

  lemma {:induction false} ValueIsGood(flavor: Flavor, t: Token, ts: seq<Token>, parents: Path)
    requires GoodTokens(ts) && (t.Literal? ==> WellFormed(t.value))
    ensures GoodValue(ParseValue(flavor, t, ts, parents))
    ensures ParseValue(flavor, t, ts, parents).Parsed? && GoodToken(t) ==>
      Piece(ParseValue(flavor, t, ts, parents).result)
    decreases |ts|, 4
  {
    match t
    case OpenCurly => FieldsAreGood(flavor, true, ts, map[], false, parents);
    case OpenSquare => ArrayIsGood(flavor, ts, parents);
    case _ =>
  }

  lemma {:induction false} PieceIsGood(t: Token, ts: seq<Token>, parents: Path)
    requires GoodTokens(ts) && GoodToken(t) && ParsePiece(t, ts, parents).Parsed?
    ensures Piece(ParsePiece(t, ts, parents).result) && GoodTokens(ParsePiece(t, ts, parents).rest)
    decreases |ts|, 5
  {
    if !t.Unquoted? && !t.Substitution? {
      ValueIsGood(Conf, t, ts, parents);
    }
  }

  /** A stream whose first token may be a joined value. */
  predicate AfterJoining(ts: seq<Token>) {
    ts != [] && GoodTokens(ts[1..]) && (ts[0].Literal? ==> WellFormed(ts[0].value))
  }

  lemma {:induction false} ConsolidateIsGood(ts: seq<Token>, values: seq<Value>, parents: Path)
    requires GoodTokens(ts) && (forall i | 0 <= i < |values| :: Piece(values[i]))
    requires ConsolidateFrom(ts, values, parents).Parsed?
    ensures AfterJoining(ConsolidateFrom(ts, values, parents).rest)
    decreases |ts|, 0
  {
    hide ParsePiece, Piece, Concatenated;
    var t, rest := ts[0], ts[1..];
    if StartsValue(t) || t.Unquoted? || t.Substitution? {
      var piece := ParsePiece(t, rest, parents);
      PieceIsGood(t, rest, parents);
      ConsolidateIsGood(piece.rest, values + [piece.result], parents);
    } else if values == [] {
      assert !t.Literal?;
    } else {
      ConcatenatedGood(values);
      assert ([Literal(Concatenated(values).value.value)] + ts)[1..] == ts;
    }
  }

  /** The token and the stream a value is parsed from. */
  lemma {:induction false} ValueStart(flavor: Flavor, ts: seq<Token>, parents: Path)
    requires GoodTokens(ts) && ConsolidateValues(flavor, ts, parents).Parsed?
    requires NextOnAnyLine(flavor, ConsolidateValues(flavor, ts, parents).rest).Parsed?
    ensures var next := NextOnAnyLine(flavor, ConsolidateValues(flavor, ts, parents).rest);
      GoodTokens(next.rest) && (next.result.Literal? ==> WellFormed(next.result.value))
    decreases |ts|, 1
  {
    hide Piece;
    if flavor.Json? {
      NextIsGood(flavor, ts);
      PieceIsWellFormed(NextOnAnyLine(flavor, ts).result);
    } else {
      NextIsGood(flavor, ts);
      var first := NextOnAnyLine(flavor, ts);
      var stream := [first.result] + first.rest;
      ConsolidateIsGood(stream, [], parents);
      var rest := ConsolidateFrom(stream, [], parents).rest;
      if rest[0].Newline? {
        NextIsGood(flavor, rest[1..]);
        PieceIsWellFormed(NextOnAnyLine(flavor, rest[1..]).result);
      }
    }
  }

  lemma PieceIsWellFormed(t: Token)
    requires GoodToken(t)
    ensures t.Literal? ==> WellFormed(t.value)
  {
  }

  lemma {:induction false} FieldValueIsGood(flavor: Flavor, afterKey: Token, ts: seq<Token>, path: Path)
    requires GoodTokens(ts) && path != []
    ensures GoodValue(ParseFieldValue(flavor, afterKey, ts, path))
    decreases |ts|, 5
  {
    hide Piece, ParseValue, ConsolidateValues, NextOnAnyLine;
    var consolidated := ConsolidateValues(flavor, ts, path);
    if flavor.Conf? && afterKey.OpenCurly? {
      ValueIsGood(flavor, afterKey, ts, path);
    } else if SeparatesKey(flavor, afterKey) && consolidated.Parsed? &&
              NextOnAnyLine(flavor, consolidated.rest).Parsed? {
      ValueStart(flavor, ts, path);
      var next := NextOnAnyLine(flavor, consolidated.rest);
      ValueIsGood(flavor, next.result, next.rest, path);
      var value := ParseValue(flavor, next.result, next.rest, path);
      if value.Parsed? {
        ExtendIsGood(value, path);
      }
    }
  }

  lemma ExtendIsGood(value: Parse<Value>, path: Path)
    requires value.Parsed? && GoodValue(value) && path != []
    ensures GoodValue(Extend(value, path))
  {
    var previous := Reference(2 * |value.rest| + 1, path, true, 0);
    var pieces := [previous, List([value.result])];
    assert Piece(pieces[0]) && Piece(pieces[1]);
    ConcatenatedGood(pieces);
  }

  lemma {:induction false} FieldIsGood(flavor: Flavor, t: Token, ts: seq<Token>, fields: map<string, Value>,
                                       parents: Path)
    requires GoodToken(t) && GoodTokens(ts) && GoodFields(fields) && ParseField(flavor, t, ts, fields, parents).Parsed?
    ensures GoodFields(ParseField(flavor, t, ts, fields, parents).result)
    ensures GoodTokens(ParseField(flavor, t, ts, fields, parents).rest)
    decreases |ts|, 6
  {
    hide GoodToken, ParseFieldValue, NextOnAnyLine, ParsePathExpression, CollectKey, Store;
    var key := ParseKey(flavor, t, ts);
    if flavor.Conf? {
      KeyIsGood(t, ts, []);
    }
    NextIsGood(flavor, key.rest);
    var afterKey := NextOnAnyLine(flavor, key.rest);
    var path := parents + key.result;
    FieldValueIsGood(flavor, afterKey.result, afterKey.rest, path);
    var value := ParseFieldValue(flavor, afterKey.result, afterKey.rest, path);
    StoreGood(flavor, fields, key.result, value.result);
  }

  lemma {:induction false} FieldsAreGood(flavor: Flavor, hadOpenCurly: bool, ts: seq<Token>, fields: map<string, Value>,
                                         afterComma: bool, parents: Path)
    requires GoodTokens(ts) && GoodFields(fields)
    ensures GoodValue(ParseFields(flavor, hadOpenCurly, ts, fields, afterComma, parents))
    ensures var p := ParseFields(flavor, hadOpenCurly, ts, fields, afterComma, parents);
      p.Parsed? ==> p.result.Object? && !p.result.ignoresFallbacks
    decreases |ts|, 3
  {
    hide Piece, ParseField, NextOnAnyLine, Separator;
    var first := NextOnAnyLine(flavor, ts);
    if first.Parsed? {
      NextIsGood(flavor, ts);
      if ParseFields(flavor, hadOpenCurly, ts, fields, afterComma, parents).Parsed?
         && !first.result.CloseCurly? && !(first.result.End? && !hadOpenCurly) {
        var field := ParseField(flavor, first.result, first.rest, fields, parents);
        FieldIsGood(flavor, first.result, first.rest, fields, parents);
        SeparatorIsGood(flavor, field.rest, false);
        var separator := Separator(flavor, field.rest);
        if separator.result {
          FieldsAreGood(flavor, hadOpenCurly, separator.rest, field.result, true, parents);
        } else {
          NextIsGood(flavor, separator.rest);
        }
      }
    }
  }

  lemma {:induction false} ArrayIsGood(flavor: Flavor, ts: seq<Token>, parents: Path)
    requires GoodTokens(ts)
    ensures GoodValue(ParseArray(flavor, ts, parents))
    ensures ParseArray(flavor, ts, parents).Parsed? ==> ParseArray(flavor, ts, parents).result.List?
    decreases |ts|, 3
  {
    hide Piece, ParseValue, NextOnAnyLine, ConsolidateValues, ParseItems;
    var consolidated := ConsolidateValues(flavor, ts, parents);
    if ParseArray(flavor, ts, parents).Parsed? {
      ValueStart(flavor, ts, parents);
      var next := NextOnAnyLine(flavor, consolidated.rest);
      if !next.result.CloseSquare? {
        ValueIsGood(flavor, next.result, next.rest, parents);
        var value := ParseValue(flavor, next.result, next.rest, parents);
        ItemsAreGood(flavor, value.rest, [value.result], parents);
      }
    }
  }

  lemma {:induction false} ItemsAreGood(flavor: Flavor, ts: seq<Token>, items: seq<Value>, parents: Path)
    requires GoodTokens(ts) && forall i | 0 <= i < |items| :: WellFormed(items[i])
    ensures GoodValue(ParseItems(flavor, ts, items, parents))
    ensures ParseItems(flavor, ts, items, parents).Parsed? ==> ParseItems(flavor, ts, items, parents).result.List?
    decreases |ts|, 2
  {
    hide Piece, ParseValue, NextOnAnyLine, ConsolidateValues, Separator;
    if ParseItems(flavor, ts, items, parents).Parsed? {
      SeparatorIsGood(flavor, ts, false);
      var separator := Separator(flavor, ts);
      if !separator.result {
        NextIsGood(flavor, separator.rest);
      } else {
        ValueStart(flavor, separator.rest, parents);
        var next := NextOnAnyLine(flavor, ConsolidateValues(flavor, separator.rest, parents).rest);
        if flavor.Conf? && next.result.CloseSquare? {
          ItemsAreGood(flavor, [CloseSquare] + next.rest, items, parents);
        } else {
          ValueIsGood(flavor, next.result, next.rest, parents);
          var value := ParseValue(flavor, next.result, next.rest, parents);
          ItemsAreGood(flavor, value.rest, items + [value.result], parents);
        }
      }
    }
  }

  // ---------------------------------------------------------------- documents and texts

  lemma {:induction false} WithoutCommentsGood(ts: seq<Token>)
    requires GoodTokens(ts)
    ensures GoodTokens(WithoutComments(ts))
  {
    if ts != [] {
      WithoutCommentsGood(ts[1..]);
    }
  }

  /** Every document the parser accepts is well-formed. */
  lemma ParsedIsWellFormed(flavor: Flavor, tokens: seq<Token>)
    requires GoodTokens(tokens) && ParseDocument(flavor, tokens).Some?
    ensures WellFormed(ParseDocument(flavor, tokens).value)
  {
    hide Piece, ParseValue, ParseFields, NextOnAnyLine;
    var ts := WithoutComments(tokens);
    WithoutCommentsGood(tokens);
    NextIsGood(flavor, ts);
    var start := NextOnAnyLine(flavor, ts);
    NextIsGood(flavor, start.rest);
    var first := NextOnAnyLine(flavor, start.rest);
    if first.result.OpenCurly? || first.result.OpenSquare? {
      ValueIsGood(flavor, first.result, first.rest, []);
    } else {
      FieldsAreGood(flavor, false, [first.result] + first.rest, map[], false, []);
    }
  }

  /** Floating-point texts become numbers. */
  ghost predicate NumbersOnly(lex: Lexing) {
    forall s :: lex.floating(s).Some? ==> lex.floating(s).value.Number?
  }

  lemma {:induction false} ScanIsGood(lex: Lexing, s: string, sb: string)
    ensures GoodToken(ScanUnquoted(lex, s, sb).0)
    decreases |s|
  {
    hide ScanUnquoted;
    ScanStep(lex, s, sb);
    if !EndsUnquoted(lex, s) && Keyword(sb + [s[0]]).None? {
      ScanIsGood(lex, s[1..], sb + [s[0]]);
    }
  }

  lemma PullIsGood(lex: Lexing, s: string)
    requires NumbersOnly(lex)
    ensures PullToken(lex, s).Scanned? ==> GoodToken(PullToken(lex, s).result)
  {
    hide ScanUnquoted, ScanQuoted, ScanTriple, PullExpression, NumberRun, ParseInt64;
    ScanIsGood(lex, s[BlankRun(s)..], "");
  }

  lemma {:induction false} TokensAreGood(lex: Lexing, s: string, afterSimple: bool)
    requires NumbersOnly(lex)
    ensures GoodTokens(Tokens(lex, s, afterSimple))
    decreases |s|
  {
    hide PullToken, Piece;
    PullIsGood(lex, s);
    var pulled := PullToken(lex, s);
    if pulled.Scanned? && !pulled.result.End? {
      TokensAreGood(lex, pulled.rest, Simple(pulled.result));
    }
  }

  /** Resolving any accepted text against itself ends in a resolved object or an exception, never in
      the cycle exception; and the exception reports an internal error only where the document has
      a concatenation all of whose pieces may vanish. */
  lemma AcceptedTextResolvesSafely(flavor: Flavor, lex: Lexing, text: string, order: set<string> -> seq<string>)
    requires NumbersOnly(lex) && Ordering(order)
    requires ParseDocument(flavor, Tokenized(lex, text)).Some?
    requires ParseDocument(flavor, Tokenized(lex, text)).value.Object?
    ensures var root := ParseDocument(flavor, Tokenized(lex, text)).value;
      var src := Document(root, root, order);
      && Ready(src, root, map[], map[])
      && var outcome := Resolve(src, root, [], map[], map[]).outcome;
         && !outcome.NotPossible?
         && (outcome.Done? ==> outcome.value.Some? && outcome.value.value.Object? && Resolved(outcome.value.value))
         && (outcome.Failed? ==>
               || outcome.failure in {UnresolvedSubstitution, IncompatibleConcatenation}
               || (outcome.failure == VanishedConcatenation && HasBrittle(src)))
  {
    hide Tokens, ParseDocument, Resolve;
    TokensAreGood(lex, text, false);
    var tokens := Tokenized(lex, text);
    ParsedIsWellFormed(flavor, tokens);
    var root := ParseDocument(flavor, tokens).value;
    OutermostResolve(root, root, order);
  }

  /** Looking up what was nested under some keys: the value under all of them, and on the way an object
      that holds the next key only. */
  lemma {:induction false} NestedIsFound(keys: Path, v: Value, i: nat)
    requires 1 <= i <= |keys|
    ensures PeekPath(Nested(keys, v), keys[..i]) == Found(Some(Nested(keys[i..], v)))
    decreases |keys|
  {
    var o := Nested(keys, v);
    assert o.fields[keys[0]] == Nested(keys[1..], v);
    if i > 1 {
      NestedIsFound(keys[1..], v, i - 1);
      assert keys[..i][1..] == keys[1..][..i - 1] && keys[1..][i - 1..] == keys[i..];
    }
  }

  lemma {:induction false} KeysUpToEmpty(path: Path, n: nat)
    requires n <= |path| && (forall i | 0 <= i < n :: path[i] != "") && (n < |path| ==> path[n] == "")
    ensures KeysBeforeEmpty(path) == path[..n]
    decreases n
  {
    if n > 0 {
      KeysUpToEmpty(path[1..], n - 1);
      assert path[..n] == [path[0]] + path[1..][..n - 1];
    }
  }

  /** What is set is found where it was set: after `path = v`, with its first key new, the path leads to
      `v` through objects that hold one key each, and every other field is as before.  An empty key
      below the first ends the path; right below the first it is refused. */
  lemma SettingIsFound(fields: map<string, Value>, path: Path, v: Value, n: nat)
    requires 1 <= n <= |path| && path[0] !in fields
    requires (forall i | 1 <= i < n :: path[i] != "") && (n < |path| ==> path[n] == "")
    ensures Store(Conf, fields, path, v).None? <==> |path| > 1 && path[1] == ""
    ensures Store(Conf, fields, path, v).Some? ==>
      var root := Object(Store(Conf, fields, path, v).value, false);
      && PeekPath(root, path[..n]) == Found(Some(v))
      && (forall i | 1 <= i < n :: var on := PeekPath(root, path[..i]);
            on.Found? && on.value.Some? && on.value.value.Object? && on.value.value.fields.Keys == {path[i]})
      && root.fields.Keys == fields.Keys + {path[0]} && forall k | k in fields :: root.fields[k] == fields[k]
  {
    hide PeekPath, Nested, Store;
    var keys := path[..n];
    StoredNew(fields, path, v, n);
    if Store(Conf, fields, path, v).Some? {
      var root := Object(Store(Conf, fields, path, v).value, false);
      forall i | 1 <= i <= n
        ensures PeekPath(root, path[..i]) == Found(Some(Nested(keys[i..], v)))
        ensures i < n ==> Nested(keys[i..], v).Object? && Nested(keys[i..], v).fields.Keys == {path[i]}
      {
        NestedIsFound(keys, v, i);
        assert path[..i] == keys[..i];
        PeekSameField(root, Nested(keys, v), keys[..i]);
        if i < n {
          NestedKeys(keys[i..], v);
        }
      }
      assert keys[n..] == [] && Nested([], v) == v by { NestedKeys([], v); }
    }
  }

  lemma NestedKeys(keys: Path, v: Value)
    ensures if keys == [] then Nested(keys, v) == v
            else Nested(keys, v) == Object(map[keys[0] := Nested(keys[1..], v)], false)
  {
  }

  lemma PeekSameField(o: Value, other: Value, path: Path)
    requires path != [] && o.Object? && other.Object?
    requires path[0] in o.fields && path[0] in other.fields && o.fields[path[0]] == other.fields[path[0]]
    ensures PeekPath(o, path) == PeekPath(other, path)
  {
  }

  lemma StoredNew(fields: map<string, Value>, path: Path, v: Value, n: nat)
    requires 1 <= n <= |path| && path[0] !in fields
    requires (forall i | 1 <= i < n :: path[i] != "") && (n < |path| ==> path[n] == "")
    ensures Store(Conf, fields, path, v).None? <==> |path| > 1 && path[1] == ""
    ensures Store(Conf, fields, path, v).Some? ==>
      Store(Conf, fields, path, v).value == fields[path[0] := Nested(path[..n][1..], v)]
    ensures Nested(path[..n], v) == Object(map[path[0] := Nested(path[..n][1..], v)], false)
  {
    hide Nested;
    KeysUpToEmpty(path[1..], n - 1);
    NestedKeys(path[..n], v);
    assert path[1..][..n - 1] == path[..n][1..];
  }

  /** The keys under which a setting puts its value. */
  function SettingKeys(path: Path): (keys: Path)
    requires path != []
    ensures keys != [] && keys[0] == path[0]
  {
    [path[0]] + if |path| == 1 then [] else KeysBeforeEmpty(path[1..])
  }

  /** A setting means a merge: under every assignment, an object after `path = v` means the nested
      object for the path merged over what the object meant before, so later settings win and
      objects are combined at every depth. */
  lemma SettingIsMerging(fields: map<string, Value>, path: Path, v: Value, env: Value -> Option<Value>)
    requires path != [] && Assignment(env) && Store(Conf, fields, path, v).Some?
    ensures Meaning(Object(Store(Conf, fields, path, v).value, false), env)
      == MergeOptional(Meaning(Nested(SettingKeys(path), v), env), Meaning(Object(fields, false), env))
  {
    hide WithFallback, KeysBeforeEmpty;
    var key, keys := path[0], SettingKeys(path);
    assert keys[1..] == if |path| == 1 then [] else KeysBeforeEmpty(path[1..]);
    var added, stored := Nested(keys[1..], v), Store(Conf, fields, path, v).value;
    if key in fields {
      WithFallbackPreservesMeaning(added, fields[key], env);
    }
    SettingByKey(fields, key, added, stored, env);
  }

  lemma SettingByKey(fields: map<string, Value>, key: string, added: Value, stored: map<string, Value>,
                     env: Value -> Option<Value>)
    requires stored.Keys == fields.Keys + {key} && forall k | k in fields && k != key :: stored[k] == fields[k]
    requires Meaning(stored[key], env)
      == if key in fields then MergeOptional(Meaning(added, env), Meaning(fields[key], env)) else Meaning(added, env)
    ensures Meaning(Object(stored, false), env)
      == MergeOptional(Meaning(Object(map[key := added], false), env), Meaning(Object(fields, false), env))
  {
    var above, below := Meaning(Object(map[key := added], false), env).value, Meaning(Object(fields, false), env).value;
    var whole := Meaning(Object(stored, false), env).value;
    MergedAt(above, below);
    forall k ensures FieldAt(whole, k) == MergeOptional(FieldAt(above, k), FieldAt(below, k)) {
      assert FieldAt(above, k) == if k == key then Meaning(added, env) else None;
      assert FieldAt(below, k) == if k in fields then Meaning(fields[k], env) else None;
      assert FieldAt(whole, k) == if k in stored then Meaning(stored[k], env) else None;
    }
    SameEntries(whole, WithFallback(above, below));
  }
}

/** HOCON contains JSON: what the parser accepts in JSON flavour it accepts in CONF flavour with
    the same value, although CONF joins neighbouring values, takes newlines for separators, reads
    keys as paths and allows a trailing comma. */
module JsonInConf {
  import opened ConfigValues
  import opened Tokenization
  import opened PathSyntax
  import opened Parsing

  // ---------------------------------------------------------------- tokens and separators

  lemma {:induction false} SameNext(ts: seq<Token>)
    requires NextOnAnyLine(Json, ts).Parsed?
    ensures NextOnAnyLine(Conf, ts) == NextOnAnyLine(Json, ts)
    ensures Next(Conf, ts).Parsed? && ts != []
    ensures ts[0].Newline? || ts[0] == NextOnAnyLine(Json, ts).result
    decreases |ts|
  {
    if ts[0].Newline? {
      SameNext(ts[1..]);
    }
  }

  /** A separator in JSON is one in CONF; where JSON sees none, CONF may have seen newlines. */
  lemma {:induction false} SameSeparator(ts: seq<Token>, saw: bool)
    requires NextOnAnyLine(Json, ts).Parsed?
    ensures var next := NextOnAnyLine(Json, ts); var conf := SeparatorOnLines(ts, saw);
      if next.result.Comma? then conf == Parsed(true, next.rest)
      else conf == Parsed(saw || ts[0].Newline?, [next.result] + next.rest)
    decreases |ts|
  {
    if ts[0].Newline? {
      SameSeparator(ts[1..], true);
    } else {
      assert [ts[0]] + ts[1..] == ts;
    }
  }

  /** A token that neither starts nor continues a value. */
  predicate Delimits(t: Token) {
    t.Newline? || t.Comma? || t.CloseCurly? || t.CloseSquare? || t.Colon? || t.End?
  }

  /** A quoted JSON key is the same one-element path in CONF. */
  lemma SameKey(key: string, ts: seq<Token>)
    requires ts != [] && Delimits(ts[0])
    ensures ParseKey(Conf, Literal(Str(key)), ts) == Parsed([key], ts)
  {
    var t := Literal(Str(key));
    assert [] + [t] == [t] && [ts[0]] + ts[1..] == ts;
    assert CollectKey(t, ts, []) == CollectKey(ts[0], ts[1..], [t]) == Parsed([t], ts);
    QuotedKeyPath(key);
  }

  lemma QuotedKeyPath(key: string)
    ensures ParsePathExpression([Literal(Str(key))]) == Some([key])
  {
    FillQuoted([], key);
    var element := Element(key, key == "");
    assert [] + [Fresh] == [Fresh] && [] + [element] == [element];
    assert AddPathTokens([Fresh], [Literal(Str(key))]) == AddPathTokens([element], []);
    assert Texts([element]) == [key];
  }

  // ---------------------------------------------------------------- values

  /** A value on its own, followed by a delimiter, is consolidated to itself. */
  lemma LoneValue(ts: seq<Token>, parents: Path)
    requires NextOnAnyLine(Conf, ts).Parsed?
    requires var next := NextOnAnyLine(Conf, ts);
      && StartsValue(next.result)
      && ParseValue(Conf, next.result, next.rest, parents).Parsed?
      && var value := ParseValue(Conf, next.result, next.rest, parents);
         value.rest != [] && Delimits(value.rest[0])
    ensures var next := NextOnAnyLine(Conf, ts);
      var value := ParseValue(Conf, next.result, next.rest, parents);
      var consolidated := ConsolidateValues(Conf, ts, parents);
      && consolidated == Parsed(true, [Literal(value.result)] + value.rest)
      && NextOnAnyLine(Conf, consolidated.rest) == Parsed(Literal(value.result), value.rest)
  {
    hide ParseValue;
    var next := NextOnAnyLine(Conf, ts);
    var value := ParseValue(Conf, next.result, next.rest, parents);
    var stream := [next.result] + next.rest;
    assert stream[1..] == next.rest;
    assert Next(Conf, stream) == Parsed(next.result, next.rest) by {
      PulledIsFine(Conf, ts);
    }
    assert [] + [value.result] == [value.result];
    assert ConsolidateFrom(stream, [], parents) == ConsolidateFrom(value.rest, [value.result], parents);
    var put := [Literal(value.result)] + value.rest;
    assert put[1..] == value.rest;
  }

  lemma {:induction false} PulledIsFine(flavor: Flavor, ts: seq<Token>)
    requires NextOnAnyLine(flavor, ts).Parsed?
    ensures !NextOnAnyLine(flavor, ts).result.Problem?
    decreases |ts|
  {
    if ts[0].Newline? {
      PulledIsFine(flavor, ts[1..]);
    }
  }

  /** Where no value starts, consolidation only skips newlines. */
  lemma NoValue(ts: seq<Token>, parents: Path)
    requires NextOnAnyLine(Conf, ts).Parsed?
    requires var t := NextOnAnyLine(Conf, ts).result; Delimits(t)
    ensures var next := NextOnAnyLine(Conf, ts);
      && ConsolidateValues(Conf, ts, parents) == Parsed(false, [next.result] + next.rest)
      && NextOnAnyLine(Conf, [next.result] + next.rest) == next
  {
    var next := NextOnAnyLine(Conf, ts);
    assert ([next.result] + next.rest)[1..] == next.rest;
  }

  /** What follows a value in an accepted JSON object or array. */
  lemma AfterValue(ts: seq<Token>)
    requires NextOnAnyLine(Json, ts).Parsed?
    requires var t := NextOnAnyLine(Json, ts).result; t.Comma? || t.CloseCurly? || t.CloseSquare? || t.Colon?
    ensures ts != [] && Delimits(ts[0])
  {
    SameNext(ts);
  }

  lemma {:induction false} ValueInConf(t: Token, ts: seq<Token>, parents: Path)
    requires ParseValue(Json, t, ts, parents).Parsed?
    ensures ParseValue(Conf, t, ts, parents) == ParseValue(Json, t, ts, parents)
    decreases |ts|, 4
  {
    match t
    case Literal(v) =>
    case OpenCurly => FieldsInConf(ts, map[], false, parents);
    case OpenSquare => ArrayInConf(ts, parents);
    case _ =>
  }

  /** A token that was read and put back is read again. */
  lemma {:induction false} ReadAgain(flavor: Flavor, ts: seq<Token>)
    requires NextOnAnyLine(flavor, ts).Parsed?
    ensures var next := NextOnAnyLine(flavor, ts);
      Next(flavor, [next.result] + next.rest) == NextOnAnyLine(flavor, [next.result] + next.rest) == next
    decreases |ts|
  {
    if ts[0].Newline? {
      ReadAgain(flavor, ts[1..]);
    } else {
      assert [ts[0]] + ts[1..] == ts;
    }
  }

  lemma {:induction false} FieldsInConf(ts: seq<Token>, fields: map<string, Value>, afterComma: bool, parents: Path)
    requires ParseFields(Json, true, ts, fields, afterComma, parents).Parsed?
    ensures ParseFields(Conf, true, ts, fields, afterComma, parents)
      == ParseFields(Json, true, ts, fields, afterComma, parents)
    decreases |ts|, 3
  {
    hide ParseField, NextOnAnyLine;
    SameNext(ts);
    var first := NextOnAnyLine(Json, ts);
    JsonToken(ts);
    if !first.result.CloseCurly? {
      var field := ParseField(Json, first.result, first.rest, fields, parents);
      var next := NextOnAnyLine(Json, field.rest);
      ReadAgain(Json, field.rest);
      SameNext(field.rest);
      SameSeparator(field.rest, false);
      FieldInConf(first.result, first.rest, fields, parents);
      ReadAgain(Conf, field.rest);
      if next.result.Comma? {
        FieldsInConf(next.rest, field.result, true, parents);
      }
    }
  }

  lemma {:induction false} JsonToken(ts: seq<Token>)
    requires NextOnAnyLine(Json, ts).Parsed?
    ensures !NextOnAnyLine(Json, ts).result.Unquoted? && !NextOnAnyLine(Json, ts).result.Substitution?
    decreases |ts|
  {
    if ts[0].Newline? {
      JsonToken(ts[1..]);
    }
  }

  lemma {:induction false} FieldInConf(t: Token, ts: seq<Token>, fields: map<string, Value>, parents: Path)
    requires ParseField(Json, t, ts, fields, parents).Parsed?
    requires var next := NextOnAnyLine(Json, ParseField(Json, t, ts, fields, parents).rest);
      next.Parsed? && (next.result.Comma? || next.result.CloseCurly?)
    ensures ParseField(Conf, t, ts, fields, parents) == ParseField(Json, t, ts, fields, parents)
    decreases |ts|, 2
  {
    hide NextOnAnyLine, ParsePathExpression, ParseValue, ConsolidateFrom, ParseFieldValue;
    var key, after := ParseKey(Json, t, ts), NextOnAnyLine(Json, ts);
    var path := parents + key.result;
    SameNext(ts);
    var value := ParseFieldValue(Json, after.result, after.rest, path);
    AfterValue(value.rest);
    FieldValueInConf(after.result, after.rest, path);
    AfterValue(ts);
    SameKey(t.value.text, ts);
  }

  lemma {:induction false} FieldValueInConf(afterKey: Token, ts: seq<Token>, path: Path)
    requires ParseFieldValue(Json, afterKey, ts, path).Parsed?
    requires var rest := ParseFieldValue(Json, afterKey, ts, path).rest; rest != [] && Delimits(rest[0])
    ensures afterKey.Colon?
    ensures ParseFieldValue(Conf, afterKey, ts, path) == ParseFieldValue(Json, afterKey, ts, path)
    decreases |ts|, 5
  {
    hide NextOnAnyLine, ParseFields, ParseArray, ConsolidateFrom;
    var next := NextOnAnyLine(Json, ts);
    SameNext(ts);
    ValueInConf(next.result, next.rest, path);
    LoneValue(ts, path);
  }

  lemma {:induction false} ArrayInConf(ts: seq<Token>, parents: Path)
    requires ParseArray(Json, ts, parents).Parsed?
    ensures ParseArray(Conf, ts, parents) == ParseArray(Json, ts, parents)
    decreases |ts|, 3
  {
    hide NextOnAnyLine, ParseFields, ParseItems, ConsolidateFrom, ConsolidateValues;
    JsonLeavesValues(ts, parents);
    var next := NextOnAnyLine(Json, ts);
    SameNext(ts);
    if next.result.CloseSquare? {
      NoValue(ts, parents);
    } else {
      var value := ParseValue(Json, next.result, next.rest, parents);
      ValueInConf(next.result, next.rest, parents);
      ItemsFollow(value.rest, [value.result], parents);
      LoneValue(ts, parents);
      ItemsInConf(value.rest, [value.result], parents);
    }
  }

  lemma JsonLeavesValues(ts: seq<Token>, parents: Path)
    ensures ConsolidateValues(Json, ts, parents) == Parsed(false, ts)
  {
  }

  lemma ItemsFollow(ts: seq<Token>, items: seq<Value>, parents: Path)
    requires ParseItems(Json, ts, items, parents).Parsed?
    ensures NextOnAnyLine(Json, ts).Parsed?
    ensures NextOnAnyLine(Json, ts).result.Comma? || NextOnAnyLine(Json, ts).result.CloseSquare?
    ensures ts != [] && Delimits(ts[0])
  {
    hide NextOnAnyLine, ConsolidateValues, ParseValue;
    ReadAgain(Json, ts);
    AfterValue(ts);
  }

  lemma {:induction false} ItemsInConf(ts: seq<Token>, items: seq<Value>, parents: Path)
    requires ParseItems(Json, ts, items, parents).Parsed?
    ensures ParseItems(Conf, ts, items, parents) == ParseItems(Json, ts, items, parents)
    decreases |ts|, 2
  {
    hide NextOnAnyLine, ParseFields, ParseArray, ConsolidateFrom, ConsolidateValues;
    ItemsFollow(ts, items, parents);
    var next := NextOnAnyLine(Json, ts);
    SameNext(ts);
    SameSeparator(ts, false);
    ReadAgain(Json, ts);
    ReadAgain(Conf, ts);
    if next.result.Comma? {
      JsonLeavesValues(next.rest, parents);
      var item := NextOnAnyLine(Json, next.rest);
      SameNext(next.rest);
      var value := ParseValue(Json, item.result, item.rest, parents);
      ValueInConf(item.result, item.rest, parents);
      ItemsFollow(value.rest, items + [value.result], parents);
      LoneValue(next.rest, parents);
      ItemsInConf(value.rest, items + [value.result], parents);
    } else {
      CloseAfterNewline(next.rest, items, parents);
    }
  }

  /** In CONF a closing bracket after a separator still ends the array. */
  lemma CloseAfterNewline(ts: seq<Token>, items: seq<Value>, parents: Path)
    ensures ParseItems(Conf, [CloseSquare] + ts, items, parents) == Parsed(List(items), ts)
    ensures ConsolidateValues(Conf, [CloseSquare] + ts, parents) == Parsed(false, [CloseSquare] + ts)
  {
    assert ([CloseSquare] + ts)[1..] == ts;
    assert NextOnAnyLine(Conf, [CloseSquare] + ts) == Parsed(CloseSquare, ts);
  }

  /** Every token stream the parser accepts in JSON flavour is accepted in CONF flavour with the
      same value. */
  lemma JsonAcceptedInConf(tokens: seq<Token>)
    requires ParseDocument(Json, tokens).Some?
    ensures ParseDocument(Conf, tokens) == ParseDocument(Json, tokens)
  {
    hide NextOnAnyLine, ParseFields, ParseArray;
    var ts := WithoutComments(tokens);
    SameNext(ts);
    var start := NextOnAnyLine(Json, ts);
    SameNext(start.rest);
    var first := NextOnAnyLine(Json, start.rest);
    ValueInConf(first.result, first.rest, []);
    SameNext(ParseValue(Json, first.result, first.rest, []).rest);
  }

  // ---------------------------------------------------------------- texts

  /** A token JSON may contain. */
  predicate InJson(t: Token) {
    !t.Problem? && !t.Unquoted? && !t.Substitution?
  }

  predicate AllInJson(ts: seq<Token>) {
    forall i | 0 <= i < |ts| :: InJson(ts[i])
  }

  /** `rest` is what is left of `ts` after reading tokens JSON may contain. */
  predicate ReadOff(ts: seq<Token>, rest: seq<Token>) {
    && |rest| <= |ts| && rest == ts[|ts| - |rest|..]
    && forall i | 0 <= i < |ts| - |rest| :: InJson(ts[i])
  }

  lemma ReadOffThen(a: seq<Token>, b: seq<Token>, c: seq<Token>)
    requires ReadOff(a, b) && ReadOff(b, c)
    ensures ReadOff(a, c)
  {
    var n, m := |a| - |b|, |b| - |c|;
    assert a[n..][m..] == a[n + m..];
    forall i | 0 <= i < |a| - |c| ensures InJson(a[i]) {
      if i >= n {
        assert a[i] == b[i - n];
      }
    }
  }

  lemma OneReadOff(ts: seq<Token>)
    requires ts != [] && InJson(ts[0])
    ensures ReadOff(ts, ts[1..]) && ReadOff(ts, ts)
  {
  }

  /** Reading a token on any line, and putting it back. */
  lemma {:induction false} NextReadsOff(ts: seq<Token>)
    requires NextOnAnyLine(Json, ts).Parsed?
    ensures var next := NextOnAnyLine(Json, ts);
      && ReadOff(ts, next.rest) && ReadOff(ts, [next.result] + next.rest)
      && |next.rest| < |ts| && ts[|ts| - |next.rest| - 1] == next.result
    decreases |ts|
  {
    hide ReadOff;
    OneReadOff(ts);
    var rest := ts[1..];
    if ts[0].Newline? {
      NextReadsOff(rest);
      var next := NextOnAnyLine(Json, rest);
      ReadOffThen(ts, rest, next.rest);
      ReadOffThen(ts, rest, [next.result] + next.rest);
      assert rest[|rest| - |next.rest| - 1] == ts[|ts| - |next.rest| - 1];
    } else {
      assert [ts[0]] + rest == ts;
    }
  }

  lemma {:induction false} ValueReadsOff(t: Token, ts: seq<Token>, parents: Path)
    requires ParseValue(Json, t, ts, parents).Parsed?
    ensures ReadOff(ts, ParseValue(Json, t, ts, parents).rest)
    decreases |ts|, 4
  {
    match t
    case Literal(v) =>
    case OpenCurly => FieldsReadOff(ts, map[], false, parents);
    case OpenSquare => ArrayReadsOff(ts, parents);
    case _ =>
  }

  lemma {:induction false} FieldsReadOff(ts: seq<Token>, fields: map<string, Value>, afterComma: bool, parents: Path)
    requires ParseFields(Json, true, ts, fields, afterComma, parents).Parsed?
    ensures ReadOff(ts, ParseFields(Json, true, ts, fields, afterComma, parents).rest)
    decreases |ts|, 3
  {
    hide ParseField, NextOnAnyLine, ReadOff;
    var first := NextOnAnyLine(Json, ts);
    NextReadsOff(ts);
    if !first.result.CloseCurly? {
      var field := ParseField(Json, first.result, first.rest, fields, parents);
      FieldReadsOff(first.result, first.rest, fields, parents);
      ReadOffThen(ts, first.rest, field.rest);
      var next := NextOnAnyLine(Json, field.rest);
      NextReadsOff(field.rest);
      ReadAgain(Json, field.rest);
      ReadOffThen(ts, field.rest, next.rest);
      if next.result.Comma? {
        FieldsReadOff(next.rest, field.result, true, parents);
        ReadOffThen(ts, next.rest, ParseFields(Json, true, next.rest, field.result, true, parents).rest);
      }
    }
  }

  lemma {:induction false} FieldReadsOff(t: Token, ts: seq<Token>, fields: map<string, Value>, parents: Path)
    requires ParseField(Json, t, ts, fields, parents).Parsed?
    ensures ReadOff(ts, ParseField(Json, t, ts, fields, parents).rest)
    decreases |ts|, 2
  {
    hide NextOnAnyLine, ParsePathExpression, ParseFieldValue, ReadOff;
    var after := NextOnAnyLine(Json, ts);
    NextReadsOff(ts);
    var path := parents + ParseKey(Json, t, ts).result;
    FieldValueReadsOff(after.result, after.rest, path);
    ReadOffThen(ts, after.rest, ParseFieldValue(Json, after.result, after.rest, path).rest);
  }

  lemma {:induction false} FieldValueReadsOff(afterKey: Token, ts: seq<Token>, path: Path)
    requires ParseFieldValue(Json, afterKey, ts, path).Parsed?
    ensures ReadOff(ts, ParseFieldValue(Json, afterKey, ts, path).rest)
    decreases |ts|, 5
  {
    hide NextOnAnyLine, ParseValue, ReadOff;
    var next := NextOnAnyLine(Json, ts);
    NextReadsOff(ts);
    ValueReadsOff(next.result, next.rest, path);
    ReadOffThen(ts, next.rest, ParseValue(Json, next.result, next.rest, path).rest);
  }

  lemma {:induction false} ArrayReadsOff(ts: seq<Token>, parents: Path)
    requires ParseArray(Json, ts, parents).Parsed?
    ensures ReadOff(ts, ParseArray(Json, ts, parents).rest)
    decreases |ts|, 3
  {
    hide NextOnAnyLine, ParseValue, ParseItems, ConsolidateValues, ReadOff;
    JsonLeavesValues(ts, parents);
    var next := NextOnAnyLine(Json, ts);
    NextReadsOff(ts);
    if !next.result.CloseSquare? {
      var value := ParseValue(Json, next.result, next.rest, parents);
      ValueReadsOff(next.result, next.rest, parents);
      ReadOffThen(ts, next.rest, value.rest);
      ItemsReadOff(value.rest, [value.result], parents);
      ReadOffThen(ts, value.rest, ParseItems(Json, value.rest, [value.result], parents).rest);
    }
  }

  lemma {:induction false} ItemsReadOff(ts: seq<Token>, items: seq<Value>, parents: Path)
    requires ParseItems(Json, ts, items, parents).Parsed?
    ensures ReadOff(ts, ParseItems(Json, ts, items, parents).rest)
    decreases |ts|, 2
  {
    hide NextOnAnyLine, ParseValue, ConsolidateValues, ReadOff;
    var next := NextOnAnyLine(Json, ts);
    NextReadsOff(ts);
    ReadAgain(Json, ts);
    if next.result.Comma? {
      JsonLeavesValues(next.rest, parents);
      var item := NextOnAnyLine(Json, next.rest);
      NextReadsOff(next.rest);
      ReadOffThen(ts, next.rest, item.rest);
      var value := ParseValue(Json, item.result, item.rest, parents);
      ValueReadsOff(item.result, item.rest, parents);
      ReadOffThen(ts, item.rest, value.rest);
      ItemsReadOff(value.rest, items + [value.result], parents);
      ReadOffThen(ts, value.rest, ParseItems(Json, value.rest, items + [value.result], parents).rest);
    }
  }

  /** The stream has no comments, and only its last token can be the end. */
  predicate PlainStream(ts: seq<Token>) {
    && (forall i | 0 <= i < |ts| :: !ts[i].Comment?)
    && (forall i | 0 <= i < |ts| - 1 :: !ts[i].End?)
  }

  lemma {:induction false} NoComments(ts: seq<Token>)
    requires forall i | 0 <= i < |ts| :: !ts[i].Comment?
    ensures WithoutComments(ts) == ts
  {
    if ts != [] {
      NoComments(ts[1..]);
    }
  }

  lemma {:induction false} JsonStream(lex: Lexing, s: string, afterSimple: bool)
    requires !lex.allowComments
    ensures PlainStream(Tokens(lex, s, afterSimple))
    decreases |s|
  {
    hide PullToken;
    var pulled := PullToken(lex, s);
    NoCommentPulled(lex, s);
    if pulled.Scanned? && !pulled.result.End? {
      JsonStream(lex, pulled.rest, Simple(pulled.result));
    }
  }

  lemma NoCommentPulled(lex: Lexing, s: string)
    requires !lex.allowComments
    ensures PullToken(lex, s).Scanned? ==> !PullToken(lex, s).result.Comment?
  {
    hide ScanUnquoted, NumberRun, ParseInt64, PullExpression, ScanQuoted, ScanTriple;
  }

  lemma ReadToTheEnd(tokens: seq<Token>, a: seq<Token>, b: seq<Token>)
    requires PlainStream(tokens) && ReadOff(tokens, a) && ReadOff(a, b)
    requires |b| < |a| && a[|a| - |b| - 1] == End
    ensures AllInJson(tokens)
  {
    ReadOffThen(tokens, a, b);
    assert a[|a| - |b| - 1] == tokens[|tokens| - |b| - 1];
  }

  /** An accepted JSON stream consists of JSON tokens only. */
  lemma AcceptedIsClean(tokens: seq<Token>)
    requires PlainStream(tokens) && ParseDocument(Json, tokens).Some?
    ensures AllInJson(tokens)
  {
    hide NextOnAnyLine, ParseValue, ReadOff, AllInJson;
    NoComments(tokens);
    var start := NextOnAnyLine(Json, tokens);
    NextReadsOff(tokens);
    var first := NextOnAnyLine(Json, start.rest);
    NextReadsOff(start.rest);
    ReadOffThen(tokens, start.rest, first.rest);
    var result := ParseValue(Json, first.result, first.rest, []);
    ValueReadsOff(first.result, first.rest, []);
    ReadOffThen(tokens, first.rest, result.rest);
    var last := NextOnAnyLine(Json, result.rest);
    NextReadsOff(result.rest);
    ReadToTheEnd(tokens, result.rest, last.rest);
  }

  /** Text with a slash in it is no keyword, so it stays unquoted text. */
  lemma {:induction false} SlashStaysUnquoted(lex: Lexing, s: string, sb: string)
    requires '/' in sb
    ensures ScanUnquoted(lex, s, sb).0.Unquoted?
    decreases |s|
  {
    hide ScanUnquoted;
    ScanStep(lex, s, sb);
    if !EndsUnquoted(lex, s) {
      assert '/' in sb + [s[0]] && '/' !in "true" && '/' !in "false" && '/' !in "null";
      SlashStaysUnquoted(lex, s[1..], sb + [s[0]]);
    }
  }

  /** A keyword is the same keyword when comments are allowed. */
  lemma {:induction false} SameKeyword(json: Lexing, conf: Lexing, s: string, sb: string)
    requires !json.allowComments && ScanUnquoted(json, s, sb).0.Literal?
    ensures ScanUnquoted(conf, s, sb) == ScanUnquoted(json, s, sb)
    decreases |s|
  {
    hide ScanUnquoted, Keyword;
    ScanStep(json, s, sb);
    ScanStep(conf, s, sb);
    if s[0] == '/' {
      assert '/' in sb + [s[0]];
      SlashIsNoKeyword(sb + [s[0]]);
      SlashStaysUnquoted(json, s[1..], sb + [s[0]]);
    } else if Keyword(sb + [s[0]]).None? {
      SameKeyword(json, conf, s[1..], sb + [s[0]]);
    }
  }

  lemma SlashIsNoKeyword(sb: string)
    requires '/' in sb
    ensures Keyword(sb).None?
  {
    assert '/' !in "true" && '/' !in "false" && '/' !in "null";
  }

  lemma SamePull(json: Lexing, conf: Lexing, s: string)
    requires !json.allowComments && conf.floating == json.floating
    requires PullToken(json, s).Scanned? && InJson(PullToken(json, s).result)
    ensures PullToken(conf, s) == PullToken(json, s)
  {
    SameVisible(json, conf, s[BlankRun(s)..]);
  }

  lemma HashIsBad(json: Lexing, s: string)
    requires !json.allowComments && s != [] && s[0] == '#'
    ensures PullVisible(json, s).Bad?
  {
    hide ScanUnquoted, PullQuoted, NumberRun, ParseInt64, PullSubstitution;
  }

  lemma SlashIsUnquoted(json: Lexing, s: string)
    requires !json.allowComments && s != [] && s[0] == '/'
    ensures PullVisible(json, s).Scanned? && PullVisible(json, s).result.Unquoted?
  {
    hide ScanUnquoted, PullQuoted, NumberRun, ParseInt64, PullSubstitution;
    ScanStep(json, s, "");
    SlashIsNoKeyword("" + [s[0]]);
    SlashStaysUnquoted(json, s[1..], "" + [s[0]]);
  }

  lemma SameVisible(json: Lexing, conf: Lexing, s: string)
    requires !json.allowComments && conf.floating == json.floating
    requires s != [] ==> !Characters.IsBlank(s[0])
    requires PullVisible(json, s).Scanned? && InJson(PullVisible(json, s).result)
    ensures PullVisible(conf, s) == PullVisible(json, s)
  {
    hide ScanUnquoted, PullQuoted, NumberRun, ParseInt64, PullSubstitution, StopsUnquoted, Punctuation;
    if s != [] {
      if s[0] == '#' {
        HashIsBad(json, s);
      }
      if s[0] == '/' {
        SlashIsUnquoted(json, s);
      }
      if ScanUnquoted(json, s, "").0.Literal? {
        SameKeyword(json, conf, s, "");
      }
    }
  }

  lemma {:induction false} SameTokens(json: Lexing, conf: Lexing, s: string, afterSimple: bool)
    requires !json.allowComments && conf.floating == json.floating
    requires AllInJson(Tokens(json, s, afterSimple))
    ensures Tokens(conf, s, afterSimple) == Tokens(json, s, afterSimple)
    decreases |s|
  {
    hide PullToken;
    var pulled := PullToken(json, s);
    var ts := Tokens(json, s, afterSimple);
    assert |ts| > 0 && InJson(ts[0]);
    TokensFrom(json, s, afterSimple, pulled.result, pulled.rest);
    var space := Spacing(s, afterSimple, pulled.result);
    if !pulled.result.End? {
      assert ts[|space|] == pulled.result;
    }
    SamePull(json, conf, s);
    TokensFrom(conf, s, afterSimple, pulled.result, pulled.rest);
    if !pulled.result.End? {
      var tail := Tokens(json, pulled.rest, Simple(pulled.result));
      assert AllInJson(tail) by {
        forall i | 0 <= i < |tail| ensures InJson(tail[i]) {
          assert tail[i] == ts[|space| + 1 + i];
        }
      }
      SameTokens(json, conf, pulled.rest, Simple(pulled.result));
    }
  }

  /** Every text that is accepted as JSON is accepted as HOCON with the same value. */
  lemma JsonTextAcceptedInConf(json: Lexing, conf: Lexing, s: string)
    requires !json.allowComments && conf.allowComments && conf.floating == json.floating
    requires ParseDocument(Json, Tokenized(json, s)).Some?
    ensures ParseDocument(Conf, Tokenized(conf, s)) == ParseDocument(Json, Tokenized(json, s))
  {
    hide ParseDocument, Tokens;
    var tokens := Tokenized(json, s);
    JsonStream(json, s, false);
    AcceptedIsClean(tokens);
    var ts := Tokens(json, s, false);
    assert AllInJson(ts) by {
      forall i | 0 <= i < |ts| ensures InJson(ts[i]) {
        assert ts[i] == tokens[i + 1];
      }
    }
    SameTokens(json, conf, s, false);
    JsonAcceptedInConf(tokens);
  }
}

/** The text `key=[1]`, a newline, `key+=2`, from its characters to its resolved document. */
module ParsedExample {
  import opened ConfigValues
  import opened Concatenations
  import opened Tokenization
  import opened PathSyntax
  import opened Parsing
  import opened Resolution
  import opened SelfReference
  import opened SelfReferenceDocuments
  import opened ParsedExtensions

  const One := Number(1, "1")
  const Two := Number(2, "2")

  // ---------------------------------------------------------------- tokens

  const SecondLine := [Unquoted("key"), Token.PlusEquals, Literal(Two), End]
  const AfterEquals := [OpenSquare, Literal(One), CloseSquare, Newline] + SecondLine
  const Settings := [Unquoted("key"), EqualsSign] + AfterEquals

  /** A word in front of something that ends it. */
  lemma KeyToken(lex: Lexing, rest: string)
    requires rest != "" && (rest[0] == '=' || rest[0] == '+')
    ensures PullToken(lex, "key" + rest) == Scanned(Unquoted("key"), rest) && BlankRun("key" + rest) == 0
  {
    hide ScanUnquoted;
    var s := "key" + rest;
    assert s[0] == 'k' && "key"[0..] == "key" && "key"[..0] == "" && "" + "key" == "key";
    PullsWord(lex, s);
    ScanKey(lex, "key", 0, rest, "");
    ScanStep(lex, rest, "key");
  }

  lemma MarkToken(lex: Lexing, mark: char, rest: string)
    requires Punctuation(mark).Some?
    ensures PullToken(lex, [mark] + rest) == Scanned(Punctuation(mark).value, rest) && BlankRun([mark] + rest) == 0
  {
    hide ScanUnquoted, PullQuoted, PullSubstitution, NumberToken;
    var s := [mark] + rest;
    assert s[0..] == s && s[1..] == rest;
  }

  lemma DigitToken(lex: Lexing, digit: char, rest: string)
    requires (digit == '1' || digit == '2') && (rest == "" || rest[0] == ']')
    ensures PullToken(lex, [digit] + rest) == Scanned(Literal(if digit == '1' then One else Two), rest)
    ensures BlankRun([digit] + rest) == 0
  {
    hide ScanUnquoted, PullQuoted, PullSubstitution;
    var s := [digit] + rest;
    assert s[1..] == rest && NumberRun(rest) == 0 && NumberRun(s) == 1 && s[..1] == [digit];
    PullsNumber(lex, s);
    assert [digit][..0] == [] && DigitsValue([]) == Some(0);
    assert DigitsValue([digit]) == Some(digit as int - '0' as int);
  }

  lemma PlusEqualsToken(lex: Lexing, rest: string)
    ensures PullToken(lex, "+=" + rest) == Scanned(Token.PlusEquals, rest) && BlankRun("+=" + rest) == 0
  {
    hide ScanUnquoted, PullQuoted, PullSubstitution, NumberToken;
    var s := "+=" + rest;
    assert s[0..] == s && s[2..] == rest;
  }

  lemma NewlineToken(lex: Lexing, rest: string)
    ensures PullToken(lex, "\n" + rest) == Scanned(Newline, rest) && BlankRun("\n" + rest) == 0
  {
    var s := "\n" + rest;
    assert s[1..] == rest;
    PullNewline(lex, s);
  }

  const Text := "key=[1]\nkey+=2"

  lemma LastLineTokens(lex: Lexing, afterSimple: bool)
    ensures Tokens(lex, "key+=2", afterSimple) == SecondLine
  {
    hide PullToken, Tokens;
    KeyToken(lex, "+=2");
    PlusEqualsToken(lex, "2");
    DigitToken(lex, '2', "");
    PullEnd(lex, "");
    assert "key" + "+=2" == "key+=2" && "+=" + "2" == "+=2" && ['2'] + "" == "2";
    TokensFrom(lex, "key+=2", afterSimple, Unquoted("key"), "+=2");
    TokensFrom(lex, "+=2", true, Token.PlusEquals, "2");
    TokensFrom(lex, "2", false, Literal(Two), "");
    TokensFrom(lex, "", true, End, "");
  }

  lemma ClosingTokens(lex: Lexing)
    ensures Tokens(lex, "]\nkey+=2", true) == [CloseSquare] + ([Newline] + SecondLine)
  {
    hide PullToken, Tokens, Punctuation;
    Marks();
    MarkToken(lex, ']', "\nkey+=2");
    NewlineToken(lex, "key+=2");
    assert [']'] + "\nkey+=2" == "]\nkey+=2" && "\n" + "key+=2" == "\nkey+=2";
    TokensFrom(lex, "]\nkey+=2", true, CloseSquare, "\nkey+=2");
    TokensFrom(lex, "\nkey+=2", false, Newline, "key+=2");
    LastLineTokens(lex, false);
  }

  lemma Marks()
    ensures Punctuation('[') == Some(OpenSquare) && Punctuation(']') == Some(CloseSquare)
  {
  }

  lemma ListTokens(lex: Lexing)
    ensures Tokens(lex, "[1]\nkey+=2", false) == AfterEquals
  {
    hide PullToken, Tokens, Punctuation;
    Marks();
    MarkToken(lex, '[', "1]\nkey+=2");
    DigitToken(lex, '1', "]\nkey+=2");
    assert ['['] + "1]\nkey+=2" == "[1]\nkey+=2" && ['1'] + "]\nkey+=2" == "1]\nkey+=2";
    TokensFrom(lex, "[1]\nkey+=2", false, OpenSquare, "1]\nkey+=2");
    TokensFrom(lex, "1]\nkey+=2", false, Literal(One), "]\nkey+=2");
    ClosingTokens(lex);
    assert [OpenSquare] + ([Literal(One)] + ([CloseSquare] + ([Newline] + SecondLine))) == AfterEquals;
  }

  lemma TextTokens(lex: Lexing)
    ensures Tokenized(lex, Text) == [Start] + Settings
  {
    hide PullToken, Tokens;
    KeyToken(lex, "=[1]\nkey+=2");
    MarkToken(lex, '=', "[1]\nkey+=2");
    assert "key" + "=[1]\nkey+=2" == Text && ['='] + "[1]\nkey+=2" == "=[1]\nkey+=2";
    TokensFrom(lex, Text, false, Unquoted("key"), "=[1]\nkey+=2");
    TokensFrom(lex, "=[1]\nkey+=2", true, EqualsSign, "[1]\nkey+=2");
    ListTokens(lex);
    assert [Unquoted("key")] + ([EqualsSign] + AfterEquals) == Settings;
  }

  // ---------------------------------------------------------------- settings

  lemma KeyPath()
    ensures ParsePathExpression([Unquoted("key")]) == Some(["key"])
  {
    hide AddPathText;
    var expression, element := [Unquoted("key")], Element("key", false);
    FillPlain([], "key");
    assert [] + [Fresh] == [Fresh] && [] + [element] == [element];
    assert expression[1..] == [] && AddPathTokens([element], []) == Some([element]);
    assert AddPathTokens([Fresh], expression) == Some([element]);
    assert [element][1..] == [] && Texts([element]) == ["key"] + Texts([]) == ["key"];
    assert Complete([element]);
  }

  lemma KeyIsParsed(sign: Token, rest: seq<Token>)
    requires sign.EqualsSign? || sign.PlusEquals?
    ensures ParseKey(Conf, Unquoted("key"), [sign] + rest) == Parsed(["key"], [sign] + rest)
  {
    hide ParsePathExpression;
    KeyPath();
    var ts := [sign] + rest;
    assert ts[1..] == rest && [] + [Unquoted("key")] == [Unquoted("key")];
    assert CollectKey(sign, rest, [Unquoted("key")]) == Parsed([Unquoted("key")], ts);
    assert CollectKey(Unquoted("key"), ts, []) == Parsed([Unquoted("key")], ts);
  }

  lemma OneJoined(v: Value)
    ensures Concatenated([v]) == Fine(Some(v))
  {
  }

  /** One value in front of a token that ends it. */
  lemma ValueJoined(v: Value, ts: seq<Token>, parents: Path)
    requires ts != [] && (ts[0].CloseSquare? || ts[0].End?)
    ensures ConsolidateValues(Conf, [Literal(v)] + ts, parents) == Parsed(true, [Literal(v)] + ts)
  {
    var stream := [Literal(v)] + ts;
    assert stream[1..] == ts && [stream[0]] + ts == stream && [] + [v] == [v];
    OneJoined(v);
    assert ConsolidateFrom(ts, [v], parents) == Parsed(true, stream);
    assert Next(Conf, stream) == Parsed(Literal(v), ts) && ParsePiece(Literal(v), ts, parents) == Parsed(v, ts);
    assert ConsolidateFrom(stream, [], parents) == Parsed(true, stream);
  }

  lemma ListIsParsed(parents: Path)
    ensures ParseArray(Conf, AfterEquals[1..], parents) == Parsed(List([One]), [Newline] + SecondLine)
  {
    hide ConsolidateValues;
    var rest := [CloseSquare, Newline] + SecondLine;
    var stream := [Literal(One)] + rest;
    assert AfterEquals[1..] == stream && stream[1..] == rest;
    ValueJoined(One, rest, parents);
    assert rest[1..] == [Newline] + SecondLine;
    assert ParseItems(Conf, rest, [One], parents) == Parsed(List([One]), [Newline] + SecondLine);
  }

  lemma ListIsConsolidated(parents: Path)
    ensures ConsolidateValues(Conf, AfterEquals, parents) == Parsed(true, [Literal(List([One])), Newline] + SecondLine)
  {
    hide ParseArray;
    var rest := [Newline] + SecondLine;
    ListIsParsed(parents);
    assert [AfterEquals[0]] + AfterEquals[1..] == AfterEquals && [] + [List([One])] == [List([One])];
    OneJoined(List([One]));
    assert [Literal(List([One]))] + rest == [Literal(List([One])), Newline] + SecondLine;
    assert ConsolidateFrom(rest, [List([One])], parents) == Parsed(true, [Literal(List([One]))] + rest);
    assert ParsePiece(OpenSquare, AfterEquals[1..], parents) == Parsed(List([One]), rest);
    assert ConsolidateFrom(AfterEquals, [], parents) == Parsed(true, [Literal(List([One]))] + rest);
  }

  const Begun := map["key" := List([One])]

  /** The first setting. */
  lemma FirstSetting()
    ensures Setting(Settings, map[]) == Parsed(Progress(Begun, true), SecondLine)
    ensures Appended("key", Settings).Rejected?
  {
    hide ParseKey, ConsolidateValues;
    var rest := [Newline] + SecondLine;
    assert Settings[1..] == [EqualsSign] + AfterEquals && ([EqualsSign] + AfterEquals)[1..] == AfterEquals;
    KeyIsParsed(EqualsSign, AfterEquals);
    ListIsConsolidated(["key"]);
    var stream := [Literal(List([One])), Newline] + SecondLine;
    assert stream[1..] == rest && rest[1..] == SecondLine;
    assert ParseFieldValue(Conf, EqualsSign, AfterEquals, ["key"]) == Parsed(List([One]), rest);
    assert [] + ["key"] == ["key"];
    assert ParseField(Conf, Unquoted("key"), Settings[1..], map[], []) == Parsed(Begun, rest);
    assert SeparatorOnLines(SecondLine, true) == Parsed(true, SecondLine);
    assert Separator(Conf, rest) == Parsed(true, SecondLine);
  }

  const Itself := Reference(3, ["key"], true, 0)

  const AfterSign := [Literal(Two), End]

  lemma SecondKey()
    ensures SecondLine[1..] == [Token.PlusEquals] + AfterSign && SecondLine[1..][1..] == AfterSign
    ensures ParseKey(Conf, SecondLine[0], SecondLine[1..]) == Parsed(["key"], SecondLine[1..])
    ensures ConsolidateValues(Conf, AfterSign, ["key"]) == Parsed(true, AfterSign)
  {
    hide ParseKey, ConsolidateValues;
    assert SecondLine[1..] == [Token.PlusEquals] + AfterSign && SecondLine[1..][1..] == AfterSign;
    KeyIsParsed(Token.PlusEquals, AfterSign);
    assert [Literal(Two)] + [End] == AfterSign;
    ValueJoined(Two, [End], ["key"]);
  }

  lemma SecondField()
    ensures Appended("key", SecondLine) == Parsed(Two, [End])
    ensures ParseField(Conf, SecondLine[0], SecondLine[1..], Begun, []).Parsed?
    ensures ParseField(Conf, SecondLine[0], SecondLine[1..], Begun, []).rest == [End]
  {
    hide ParseKey, ConsolidateValues, Extend, Store;
    SecondKey();
    assert AfterSign[1..] == [End] && [] + ["key"] == ["key"];
    assert Appended("key", SecondLine) == Parsed(Two, [End]);
    assert ParseFieldValue(Conf, Token.PlusEquals, AfterSign, ["key"]) == Extend(Parsed(Two, [End]), ["key"]);
    SecondStored();
  }

  lemma SecondStored()
    ensures Extend(Parsed(Two, [End]), ["key"]).Parsed?
    ensures Store(Conf, Begun, ["key"], Extend(Parsed(Two, [End]), ["key"]).result).Some?
  {
    StepConcatenated(Itself, Two);
  }

  /** The second setting, which no separator follows. */
  lemma SecondSetting()
    ensures Appended("key", SecondLine) == Parsed(Two, [End])
    ensures Setting(SecondLine, Begun).Parsed? && Setting(SecondLine, Begun).rest == [End]
    ensures !Setting(SecondLine, Begun).result.more
  {
    hide Appended, ParseField;
    SecondField();
    assert Separator(Conf, [End]) == Parsed(false, [End]);
  }

  // ---------------------------------------------------------------- the document

  lemma TextIsParsed(lex: Lexing)
    ensures ParseDocument(Conf, Tokenized(lex, Text)).Some? && ParseDocument(Conf, Tokenized(lex, Text)).value.Object?
    ensures SettingsOf(Tokenized(lex, Text)) == Some((false, Settings))
    ensures ParseDocument(Conf, Tokenized(lex, Text)).value.fields.Keys == {"key"}
  {
    hide Setting, ParseFields, Tokenized, WithoutComments;
    var tokens := [Start] + Settings;
    TextTokens(lex);
    NoComments();
    assert tokens[1..] == Settings && [Settings[0]] + Settings[1..] == Settings;
    SettingsParse();
  }

  lemma NoComments()
    ensures WithoutComments([Start] + Settings) == [Start] + Settings
  {
    CommentsOnly([Start] + Settings);
  }

  lemma {:induction false} CommentsOnly(ts: seq<Token>)
    requires forall i | 0 <= i < |ts| :: !ts[i].Comment?
    ensures WithoutComments(ts) == ts
  {
    if ts != [] {
      CommentsOnly(ts[1..]);
    }
  }

  lemma SettingsParse()
    ensures var p := ParseFields(Conf, false, Settings, map[], false, []);
      p.Parsed? && p.rest == [End] && p.result.Object? && p.result.fields.Keys == {"key"}
  {
    hide Setting, ParseFields;
    FirstSetting();
    SecondSetting();
    SettingTaken(Settings, map[], false);
    SettingTaken(SecondLine, Begun, true);
    SecondFields();
    assert EndFields(Conf, false, [End], Setting(SecondLine, Begun).result.fields).rest == [End];
  }

  /** The loop goes on after a setting that can be read. */
  lemma SettingTaken(ts: seq<Token>, fields: map<string, Value>, afterComma: bool)
    requires Setting(ts, fields).Parsed?
    ensures var setting := Setting(ts, fields);
      ParseFields(Conf, false, ts, fields, afterComma, []) ==
        if setting.result.more then ParseFields(Conf, false, setting.rest, setting.result.fields, true, [])
        else EndFields(Conf, false, setting.rest, setting.result.fields)
  {
    hide ParseField, Separator, NextOnAnyLine, EndFields;
  }

  lemma SecondFields()
    requires Setting(SecondLine, Begun).Parsed?
    ensures Setting(SecondLine, Begun).result.fields.Keys == {"key"}
  {
    hide Separator, Extend, ConsolidateValues;
    var after := SecondLine[1..];
    SecondKey();
    assert ParseField(Conf, SecondLine[0], after, Begun, []).result.Keys == {"key"};
  }

  lemma TextExtends(lex: Lexing)
    ensures Extends(Tokenized(lex, Text), "key")
    ensures Beginning("key", Settings, map[]) == Some(List([One]))
    ensures Appendings("key", Settings, map[]) == [Appending(Itself, Two)]
  {
    hide Setting, Appended;
    TextIsParsed(lex);
    FirstSetting();
    SecondSetting();
    assert Appendings("key", SecondLine, Begun) == [Appending(Itself, Two)] + [] == [Appending(Itself, Two)];
    assert Appendings("key", Settings, map[]) == [] + [Appending(Itself, Two)] == [Appending(Itself, Two)];
    assert OnlyAppended("key", SecondLine, Begun, false);
  }

  function NoRank(n: Value): (r: nat) {
    0
  }

  /** The text resolves to `key = [1, 2]`. */
  lemma TextResolves(lex: Lexing, order: set<string> -> seq<string>)
    requires Ordering(order)
    ensures ParseDocument(Conf, Tokenized(lex, Text)).Some?
    ensures var root := ParseDocument(Conf, Tokenized(lex, Text)).value;
      && root.Object? && Ready(Document(root, root, order), root, map[], map[])
      && Resolve(Document(root, root, order), root, [], map[], map[]).outcome ==
           Done(Some(Object(map["key" := List([One, Two])], false)))
  {
    hide Resolve, Ready, ParseDocument, Tokenized, Appendings, Beginning, Extends, SettingsOf;
    var tokens := Tokenized(lex, Text);
    TextIsParsed(lex);
    TextExtends(lex);
    var e := ExtensionOf(tokens, "key", {}, order, NoRank, 0);
    assert e.others == map[] && e.readers == map[];
    ParsedPlausible(tokens, "key", {}, order, NoRank, 0);
    ParsedExtension(tokens, "key", {}, order, NoRank, 0);
    assert Values(e, 1) == Values(e, 0) + [Two] == [Two];
    PartsAreResolved(e);
    PlainDocument(e);
    assert [One] + [Two] == [One, Two];
    var list := List([One, Two]);
    assert (map[] + (map k | k in e.readers :: list))["key" := list] == map["key" := list];
  }

  lemma PartsAreResolved(e: Extension)
    requires e.base == Some(List([One])) && e.steps == [Appending(Itself, Two)] && e.others == map[]
    ensures Resolved(Parts(e))
  {
    assert Values(e, 1) == Values(e, 0) + [Two] == [Two];
    var items := Parts(e).items;
    assert items == [List([One])] + [Two] + [Object(map[], false)];
    assert Resolved(List([One])) && Resolved(Two) && Resolved(Object(map[], false));
    assert forall i | 0 <= i < |items| :: items[i] in [List([One]), Two, Object(map[], false)];
  }
}

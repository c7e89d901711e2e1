/** Concise JSON rendering, and the round trip: what is rendered is tokenized and parsed back to
    an equal value. */
module JsonRoundTrip {
  import opened ConfigValues
  import opened Characters
  import opened Numerals
  import opened Tokenization
  import opened PathSyntax
  import opened Parsing
  import opened JsonInConf
  import JsonGrammar

  /** A resolved value in the order in which its maps are iterated. */
  datatype Layout =
    | Scalar(value: Value)
    | Array(items: seq<Layout>)
    | Record(entries: seq<Entry>)

  datatype Entry = Entry(key: string, layout: Layout)

  predicate IsScalar(v: Value) {
    v.Null? || v.Bool? || v.Number? || v.Str?
  }

  predicate HasKey(entries: seq<Entry>, key: string) {
    exists i | 0 <= i < |entries| :: entries[i].key == key
  }

  predicate DistinctKeys(entries: seq<Entry>) {
    forall i, j | 0 <= i < j < |entries| :: entries[i].key != entries[j].key
  }

  /** `o` is `v` with its entries in some order. */
  predicate LaysOut(o: Layout, v: Value) {
    match o
    case Scalar(value) => IsScalar(v) && value == v
    case Array(items) =>
      v.List? && |items| == |v.items| && forall i | 0 <= i < |items| :: LaysOut(items[i], v.items[i])
    case Record(entries) =>
      && v.Object? && DistinctKeys(entries)
      && (forall k | k in v.fields :: HasKey(entries, k))
      && forall i | 0 <= i < |entries| ::
           entries[i].key in v.fields && LaysOut(entries[i].layout, v.fields[entries[i].key])
  }

  /** What the round trip is promised for: 64-bit integers and 7-bit strings. */
  predicate Renderable(o: Layout) {
    match o
    case Scalar(v) => IsScalar(v) && (v.Number? ==> Int64(v.number)) && (v.Str? ==> SevenBit(v.text))
    case Array(items) => forall i | 0 <= i < |items| :: Renderable(items[i])
    case Record(entries) =>
      DistinctKeys(entries) &&
        forall i | 0 <= i < |entries| :: SevenBit(entries[i].key) && Renderable(entries[i].layout)
  }

  // ---------------------------------------------------------------- rendering

  function ScalarText(v: Value): (s: string)
    requires IsScalar(v) && (v.Str? ==> SevenBit(v.text))
    ensures s != []
  {
    match v
    case Null => "null"
    case Bool(flag) => if flag then "true" else "false"
    case Number(number, _) => IntText(number)
    case Str(text) => Quoted(text)
  }

  /** The text of a value under the concise render options. */
  function Text(o: Layout): (s: string)
    requires Renderable(o)
  {
    match o
    case Scalar(v) => ScalarText(v)
    case Array(items) => "[" + ItemsText(items) + "]"
    case Record(entries) => "{" + EntriesText(entries) + "}"
  }

  function ItemsText(items: seq<Layout>): (s: string)
    requires forall i | 0 <= i < |items| :: Renderable(items[i])
  {
    if items == [] then ""
    else Text(items[0]) + (if |items| == 1 then "" else "," + ItemsText(items[1..]))
  }

  predicate RenderableEntries(entries: seq<Entry>) {
    forall i | 0 <= i < |entries| :: SevenBit(entries[i].key) && Renderable(entries[i].layout)
  }

  function EntriesText(entries: seq<Entry>): (s: string)
    requires RenderableEntries(entries)
  {
    if entries == [] then ""
    else EntryText(entries[0]) + (if |entries| == 1 then "" else "," + EntriesText(entries[1..]))
  }

  function EntryText(e: Entry): (s: string)
    requires SevenBit(e.key) && Renderable(e.layout)
  {
    Quoted(e.key) + ":" + Text(e.layout)
  }

  // ---------------------------------------------------------------- tokens

  /** The tokens of a rendered value. */
  function LayoutTokens(o: Layout): (ts: seq<Token>)
    ensures ts != []
  {
    match o
    case Scalar(v) => [Literal(Reread(o))]
    case Array(items) => [OpenSquare] + ItemsTokens(items) + [CloseSquare]
    case Record(entries) => [OpenCurly] + EntriesTokens(entries) + [CloseCurly]
  }

  function ItemsTokens(items: seq<Layout>): (ts: seq<Token>) {
    if items == [] then []
    else LayoutTokens(items[0]) + (if |items| == 1 then [] else [Comma] + ItemsTokens(items[1..]))
  }

  function EntriesTokens(entries: seq<Entry>): (ts: seq<Token>) {
    if entries == [] then []
    else EntryTokens(entries[0]) + (if |entries| == 1 then [] else [Comma] + EntriesTokens(entries[1..]))
  }

  function EntryTokens(e: Entry): (ts: seq<Token>) {
    [Literal(Str(e.key)), Colon] + LayoutTokens(e.layout)
  }

  /** The value that is read back: numbers have their decimal text. */
  function Reread(o: Layout): (v: Value) {
    match o
    case Scalar(v) => if v.Number? then Number(v.number, IntText(v.number)) else v
    case Array(items) => List(RereadItems(items))
    case Record(entries) => Object(RereadEntries(map[], entries), false)
  }

  function RereadItems(items: seq<Layout>): (vs: seq<Value>)
    ensures |vs| == |items| && forall i | 0 <= i < |vs| :: vs[i] == Reread(items[i])
  {
    if items == [] then [] else [Reread(items[0])] + RereadItems(items[1..])
  }

  function RereadEntries(fields: map<string, Value>, entries: seq<Entry>): (r: map<string, Value>)
    decreases entries
  {
    if entries == [] then fields
    else RereadEntries(fields[entries[0].key := Reread(entries[0].layout)], entries[1..])
  }

  // ---------------------------------------------------------------- tokenizing what was rendered

  /** What follows a rendered value. */
  predicate Delimiter(s: string) {
    s == [] || s[0] in ",:]}"
  }

  /** Where no blank comes first, it does not matter what came before. */
  lemma SpacingAside(lex: Lexing, s: string, afterSimple: bool)
    requires BlankRun(s) == 0
    ensures Tokens(lex, s, afterSimple) == Tokens(lex, s, false)
  {
    hide PullToken, BlankRun;
  }

  lemma PunctuationTokens(lex: Lexing, c: char, rest: string)
    requires c in "{}[]:,"
    ensures Tokens(lex, [c] + rest, false) == [Punctuation(c).value] + Tokens(lex, rest, false)
  {
    hide PullToken;
    PunctuationToken(lex, c, rest);
    TokensFrom(lex, [c] + rest, false, Punctuation(c).value, rest);
  }

  lemma PunctuationToken(lex: Lexing, c: char, rest: string)
    requires c in "{}[]:,"
    ensures Punctuation(c).Some? && !Simple(Punctuation(c).value) && !Punctuation(c).value.End?
    ensures PullToken(lex, [c] + rest) == Scanned(Punctuation(c).value, rest)
  {
    hide ScanUnquoted, PullQuoted, PullSubstitution, NumberToken;
    var s := [c] + rest;
    assert s[0] == c && s[1..] == rest && s[0..] == s;
  }

  lemma DelimiterIsNoBlank(s: string)
    requires Delimiter(s)
    ensures BlankRun(s) == 0 && (s != [] ==> !NumberChar(s[0]) && s[0] != '"')
  {
  }

  lemma {:induction false} DecimalDigits(n: nat)
    ensures DigitsValue(Decimal(n)) == Some(n)
    ensures forall i | 0 <= i < |Decimal(n)| :: IsDigit(Decimal(n)[i])
  {
    var s := Decimal(n);
    if n < 10 {
      assert s == [Digit(n)] && s[..0] == [];
    } else {
      DecimalDigits(n / 10);
      assert s[..|s| - 1] == Decimal(n / 10) && s[|s| - 1] == Digit(n % 10);
    }
  }

  /** The decimal text of an integer is read back as it exactly in the signed 64-bit range. */
  lemma IntTextReadsBack(n: int)
    ensures ParseInt64(IntText(n)) ==
      if -9_223_372_036_854_775_808 <= n <= 9_223_372_036_854_775_807 then Some(n) else None
    ensures var s := IntText(n); (IsDigit(s[0]) || s[0] == '-') && forall i | 1 <= i < |s| :: IsDigit(s[i])
  {
    DecimalDigits(if n < 0 then -n else n);
    var s := IntText(n);
    if n < 0 {
      assert s[1..] == Decimal(-n);
    }
  }

  lemma {:induction false} NumberRunOf(digits: string, tail: string)
    requires (forall i | 0 <= i < |digits| :: NumberChar(digits[i])) && (tail != [] ==> !NumberChar(tail[0]))
    ensures NumberRun(digits + tail) == |digits|
  {
    if digits == [] {
      assert digits + tail == tail;
    } else {
      assert (digits + tail)[1..] == digits[1..] + tail;
      NumberRunOf(digits[1..], tail);
    }
  }

  /** So is its token; outside that range it is a problem. */
  lemma IntToken(lex: Lexing, n: int, tail: string)
    requires Delimiter(tail)
    ensures PullToken(lex, IntText(n) + tail) ==
      if -9_223_372_036_854_775_808 <= n <= 9_223_372_036_854_775_807 then
        Scanned(Literal(Number(n, IntText(n))), tail)
      else Bad
    ensures BlankRun(IntText(n) + tail) == 0
  {
    hide ScanUnquoted, PullQuoted, PullSubstitution, ParseInt64, IntText, StopsUnquoted;
    IntTextReadsBack(n);
    DelimiterIsNoBlank(tail);
    var text := IntText(n);
    NumberRunOf(text, tail);
    var s := text + tail;
    assert s[0] == text[0] && s[..|text|] == text && s[|text|..] == tail && s[0..] == s;
    assert !Fractional(text);
  }

  lemma KeywordToken(lex: Lexing, word: string, tail: string)
    requires Keyword(word).Some?
    ensures PullToken(lex, word + tail) == Scanned(Literal(Keyword(word).value), tail)
    ensures BlankRun(word + tail) == 0
  {
    hide PullToken, ScanUnquoted, Keyword;
    KeywordChars(word);
    ScanKeyword(lex, word, 0, tail);
    assert word[0..] == word && word[..0] == "" && (word + tail)[0] == word[0];
    WordToken(lex, word + tail);
  }

  lemma ScalarToken(lex: Lexing, v: Value, tail: string)
    requires Renderable(Scalar(v)) && Delimiter(tail)
    ensures PullToken(lex, ScalarText(v) + tail) == Scanned(Literal(Reread(Scalar(v))), tail)
    ensures BlankRun(ScalarText(v) + tail) == 0
  {
    hide PullToken, BlankRun;
    DelimiterIsNoBlank(tail);
    match v
    case Null => KeywordToken(lex, "null", tail);
    case Bool(flag) => KeywordToken(lex, if flag then "true" else "false", tail);
    case Number(n, _) => IntToken(lex, n, tail);
    case Str(text) => QuotedToken(lex, text, tail);
  }

  /** Tokenizing a simple value and the delimiter after it. */
  lemma SimpleTokens(lex: Lexing, s: string, v: Value, tail: string)
    requires PullToken(lex, s) == Scanned(Literal(v), tail) && BlankRun(s) == 0 && Delimiter(tail)
    ensures Tokens(lex, s, false) == [Literal(v)] + Tokens(lex, tail, false)
  {
    hide PullToken;
    TokensFrom(lex, s, false, Literal(v), tail);
    DelimiterIsNoBlank(tail);
    SpacingAside(lex, tail, true);
  }

  /** Brackets around something that is tokenized. */
  lemma FramedTokens(lex: Lexing, open: char, body: string, close: char, tail: string, ts: seq<Token>)
    requires open in "{}[]:," && close in "{}[]:,"
    requires Tokens(lex, body + ([close] + tail), false) == ts + Tokens(lex, [close] + tail, false)
    ensures Tokens(lex, [open] + body + [close] + tail, false)
      == [Punctuation(open).value] + ts + [Punctuation(close).value] + Tokens(lex, tail, false)
  {
    hide Tokens, Punctuation;
    var rest := body + ([close] + tail);
    assert [open] + body + [close] + tail == [open] + rest;
    PunctuationTokens(lex, open, rest);
    PunctuationTokens(lex, close, tail);
  }

  lemma {:induction false} TextTokens(lex: Lexing, o: Layout, tail: string)
    requires Renderable(o) && Delimiter(tail)
    ensures Tokens(lex, Text(o) + tail, false) == LayoutTokens(o) + Tokens(lex, tail, false)
    decreases o, 0
  {
    hide Tokens, PullToken, ScalarText;
    match o
    case Scalar(v) =>
      ScalarToken(lex, v, tail);
      SimpleTokens(lex, Text(o) + tail, Reread(o), tail);
    case Array(items) =>
      hide ItemsText, ItemsTokens;
      ItemsTextTokens(lex, items, "]" + tail);
      FramedTokens(lex, '[', ItemsText(items), ']', tail, ItemsTokens(items));
    case Record(entries) =>
      hide EntriesText, EntriesTokens;
      EntriesTextTokens(lex, entries, "}" + tail);
      FramedTokens(lex, '{', EntriesText(entries), '}', tail, EntriesTokens(entries));
  }

  lemma {:induction false} ItemsTextTokens(lex: Lexing, items: seq<Layout>, tail: string)
    requires forall i | 0 <= i < |items| :: Renderable(items[i])
    requires Delimiter(tail)
    ensures Tokens(lex, ItemsText(items) + tail, false) == ItemsTokens(items) + Tokens(lex, tail, false)
    decreases items, 0
  {
    hide Tokens, Text, LayoutTokens;
    if items == [] {
      assert ItemsText(items) + tail == tail;
      assert ItemsTokens(items) + Tokens(lex, tail, false) == Tokens(lex, tail, false);
    } else if |items| == 1 {
      assert ItemsText(items) == Text(items[0]);
      assert ItemsTokens(items) == LayoutTokens(items[0]);
      TextTokens(lex, items[0], tail);
    } else {
      var more := ItemsText(items[1..]) + tail;
      assert ItemsText(items) + tail == Text(items[0]) + ("," + more);
      TextTokens(lex, items[0], "," + more);
      PunctuationTokens(lex, ',', more);
      ItemsTextTokens(lex, items[1..], tail);
      assert ItemsTokens(items) + Tokens(lex, tail, false)
        == LayoutTokens(items[0]) + ([Comma] + (ItemsTokens(items[1..]) + Tokens(lex, tail, false)));
    }
  }

  /** A key, a colon and a value. */
  lemma {:induction false} EntryTextTokens(lex: Lexing, e: Entry, tail: string)
    requires SevenBit(e.key) && Renderable(e.layout) && Delimiter(tail)
    ensures Tokens(lex, EntryText(e) + tail, false) == EntryTokens(e) + Tokens(lex, tail, false)
    decreases e, 0
  {
    hide Tokens, Quoted, PullToken, Text, LayoutTokens, Renderable, SevenBit;
    var value := Text(e.layout) + tail;
    assert EntryText(e) + tail == Quoted(e.key) + (":" + value);
    QuotedToken(lex, e.key, ":" + value);
    SimpleTokens(lex, Quoted(e.key) + (":" + value), Str(e.key), ":" + value);
    PunctuationTokens(lex, ':', value);
    TextTokens(lex, e.layout, tail);
  }

  lemma {:induction false} EntriesTextTokens(lex: Lexing, entries: seq<Entry>, tail: string)
    requires RenderableEntries(entries) && Delimiter(tail)
    ensures Tokens(lex, EntriesText(entries) + tail, false) == EntriesTokens(entries) + Tokens(lex, tail, false)
    decreases entries, 0
  {
    hide Tokens, EntryText, EntryTokens, SevenBit, Renderable;
    if entries == [] {
      assert EntriesText(entries) + tail == tail;
      assert EntriesTokens(entries) + Tokens(lex, tail, false) == Tokens(lex, tail, false);
    } else if |entries| == 1 {
      assert EntriesText(entries) == EntryText(entries[0]);
      assert EntriesTokens(entries) == EntryTokens(entries[0]);
      EntryTextTokens(lex, entries[0], tail);
    } else {
      var more := EntriesText(entries[1..]) + tail;
      assert EntriesText(entries) + tail == EntryText(entries[0]) + ("," + more);
      EntryTextTokens(lex, entries[0], "," + more);
      PunctuationTokens(lex, ',', more);
      EntriesTextTokens(lex, entries[1..], tail);
      assert EntriesTokens(entries) + Tokens(lex, tail, false)
        == EntryTokens(entries[0]) + ([Comma] + (EntriesTokens(entries[1..]) + Tokens(lex, tail, false)));
    }
  }

  // ---------------------------------------------------------------- what was tokenized is JSON

  /** The value by the grammar. */
  function Reading(o: Layout): (j: JsonGrammar.Json)
    decreases o, 0
  {
    match o
    case Scalar(_) => JsonGrammar.Leaf(Reread(o))
    case Array(items) => JsonGrammar.Array(ReadingItems(items))
    case Record(entries) => JsonGrammar.Record(ReadingEntries(entries))
  }

  function ReadingItems(items: seq<Layout>): (js: seq<JsonGrammar.Json>)
    decreases items, 1
  {
    if items == [] then [] else [Reading(items[0])] + ReadingItems(items[1..])
  }

  function ReadingEntries(entries: seq<Entry>): (ms: seq<JsonGrammar.Member>)
    ensures |ms| == |entries| && forall i | 0 <= i < |ms| :: ms[i].key == entries[i].key
    decreases entries, 1
  {
    if entries == [] then []
    else [JsonGrammar.Member(entries[0].key, Reading(entries[0].layout))] + ReadingEntries(entries[1..])
  }

  /** The tokens of a rendered value are what the grammar writes, and mean what is read back. */
  lemma {:induction false} LayoutIsWritten(o: Layout)
    requires Renderable(o)
    ensures JsonGrammar.Written(Reading(o)) == LayoutTokens(o)
    ensures JsonGrammar.ValueOf(Reading(o)) == Reread(o) && JsonGrammar.Strict(Reading(o))
    decreases o, 0
  {
    match o
    case Scalar(_) =>
    case Array(items) =>
      ItemsAreWritten(items);
    case Record(entries) => EntriesAreWritten(map[], entries);
  }

  lemma {:induction false} ItemsAreWritten(items: seq<Layout>)
    requires forall i | 0 <= i < |items| :: Renderable(items[i])
    ensures var js := ReadingItems(items);
      && |js| == |items| && (forall i | 0 <= i < |js| :: JsonGrammar.Strict(js[i]))
      && JsonGrammar.ValuesOf(js) == RereadItems(items)
      && (items != [] ==> JsonGrammar.Written(js[0]) + JsonGrammar.MoreItems(js[1..]) == ItemsTokens(items))
    decreases items, 1
  {
    hide Renderable, Reread, LayoutTokens, JsonGrammar.Written, JsonGrammar.Strict, JsonGrammar.ValueOf, Reading;
    if items != [] {
      var js, more := ReadingItems(items), ReadingItems(items[1..]);
      LayoutIsWritten(items[0]);
      ItemsAreWritten(items[1..]);
      assert js[1..] == more && js[0] == Reading(items[0]);
      if more != [] {
        assert JsonGrammar.MoreItems(more)
          == [Comma] + (JsonGrammar.Written(more[0]) + JsonGrammar.MoreItems(more[1..]));
      }
    }
  }

  lemma {:induction false} EntriesAreWritten(fields: map<string, Value>, entries: seq<Entry>)
    requires RenderableEntries(entries) && DistinctKeys(entries)
    ensures var ms := ReadingEntries(entries);
      && (forall i | 0 <= i < |ms| :: JsonGrammar.Strict(ms[i].value))
      && JsonGrammar.WithMembers(fields, ms) == RereadEntries(fields, entries)
      && (entries != [] ==>
            JsonGrammar.WrittenMember(ms[0]) + JsonGrammar.MoreMembers(ms[1..]) == EntriesTokens(entries))
    decreases entries, 1
  {
    hide Renderable, Reread, LayoutTokens, JsonGrammar.Written, JsonGrammar.Strict, JsonGrammar.ValueOf, Reading;
    if entries != [] {
      var ms, more := ReadingEntries(entries), ReadingEntries(entries[1..]);
      var e := entries[0];
      LayoutIsWritten(e.layout);
      EntriesAreWritten(fields[e.key := Reread(e.layout)], entries[1..]);
      assert ms[1..] == more && ms[0] == JsonGrammar.Member(e.key, Reading(e.layout));
      assert JsonGrammar.WrittenMember(ms[0]) == EntryTokens(e);
      if more != [] {
        assert JsonGrammar.MoreMembers(more)
          == [Comma] + (JsonGrammar.WrittenMember(more[0]) + JsonGrammar.MoreMembers(more[1..]));
      }
    }
  }

  // ---------------------------------------------------------------- the round trip

  /** `equals` on resolved values: the text of a number and the fallback flag do not count. */
  predicate SameConfig(v: Value, w: Value) {
    match v
    case Null => w.Null?
    case Bool(flag) => w == v
    case Number(number, _) => w.Number? && w.number == number
    case Str(text) => w == v
    case List(items) => w.List? && |w.items| == |items| &&
      forall i | 0 <= i < |items| :: SameConfig(items[i], w.items[i])
    case Object(fields, _) =>
      w.Object? && w.fields.Keys == fields.Keys && forall k | k in fields :: SameConfig(fields[k], w.fields[k])
    case _ => false
  }

  lemma {:induction false} RereadEntry(fields: map<string, Value>, entries: seq<Entry>, k: string)
    requires DistinctKeys(entries)
    ensures k in RereadEntries(fields, entries) <==> k in fields || HasKey(entries, k)
    ensures !HasKey(entries, k) && k in fields ==> RereadEntries(fields, entries)[k] == fields[k]
    ensures forall i | 0 <= i < |entries| && entries[i].key == k ::
      k in RereadEntries(fields, entries) && RereadEntries(fields, entries)[k] == Reread(entries[i].layout)
    decreases |entries|
  {
    if entries != [] {
      var first, more := entries[0], entries[1..];
      RereadEntry(fields[first.key := Reread(first.layout)], more, k);
      assert HasKey(entries, k) <==> first.key == k || HasKey(more, k) by {
        if i :| 0 <= i < |entries| && entries[i].key == k {
          assert i == 0 || more[i - 1].key == k;
        }
        if HasKey(more, k) {
          var i :| 0 <= i < |more| && more[i].key == k;
          assert entries[i + 1].key == k;
        }
      }
      forall i | 0 <= i < |entries| && entries[i].key == k
        ensures k in RereadEntries(fields, entries) && RereadEntries(fields, entries)[k] == Reread(entries[i].layout)
      {
        if i == 0 {
          assert !HasKey(more, k) by {
            forall j | 0 <= j < |more| ensures more[j].key != k {
              assert more[j] == entries[j + 1];
            }
          }
        } else {
          assert more[i - 1] == entries[i];
        }
      }
    }
  }

  /** What is read back equals what was laid out. */
  lemma {:induction false} RereadIsSame(o: Layout, v: Value)
    requires LaysOut(o, v)
    ensures SameConfig(v, Reread(o))
  {
    match o
    case Scalar(_) =>
    case Array(items) =>
      forall i | 0 <= i < |items| ensures SameConfig(v.items[i], Reread(o).items[i]) {
        RereadIsSame(items[i], v.items[i]);
      }
    case Record(entries) =>
      var fields := RereadEntries(map[], entries);
      forall k ensures k in fields <==> k in v.fields {
        RereadEntry(map[], entries, k);
        if HasKey(entries, k) {
          var i :| 0 <= i < |entries| && entries[i].key == k;
        }
      }
      forall k | k in v.fields ensures SameConfig(v.fields[k], fields[k]) {
        RereadEntry(map[], entries, k);
        var i :| 0 <= i < |entries| && entries[i].key == k;
        RereadIsSame(entries[i].layout, v.fields[k]);
      }
  }

  /** Rendering any resolved object or list of null, booleans, 64-bit integers and 7-bit strings
      with the concise options, in whatever order its maps are iterated, then tokenizing and
      parsing the text as JSON, gives back an equal value. */
  lemma RenderedTextParsesBack(lex: Lexing, v: Value, o: Layout)
    requires LaysOut(o, v) && Renderable(o) && (v.List? || v.Object?)
    ensures ParseDocument(Json, Tokenized(lex, Text(o))) == Some(Reread(o))
    ensures SameConfig(v, Reread(o))
  {
    hide Tokens, Text, Renderable, LaysOut, Reread, LayoutTokens, Reading, JsonGrammar.Written, JsonGrammar.ValueOf;
    hide JsonGrammar.Strict;
    RereadIsSame(o, v);
    LaidOutRoot(o, v);
    var text, ts := Text(o), [Start] + LayoutTokens(o) + [End];
    TextTokens(lex, o, "");
    assert text + "" == text;
    PullEnd(lex, "");
    TokensFrom(lex, "", false, End, []);
    assert Tokenized(lex, text) == ts;
    LayoutHasNoComments(o);
    NoComments(ts);
    OnOneLine(ts);
    LayoutIsWritten(o);
    JsonGrammar.WrittenIsAccepted(Reading(o), ts);
  }

  lemma {:induction false} OnOneLine(ts: seq<Token>)
    requires forall i | 0 <= i < |ts| :: !ts[i].Newline?
    ensures JsonGrammar.OneLine(ts) == ts
  {
    if ts != [] {
      OnOneLine(ts[1..]);
    }
  }

  lemma LaidOutRoot(o: Layout, v: Value)
    requires LaysOut(o, v) && (v.List? || v.Object?)
    ensures !Reading(o).Leaf?
  {
  }

  predicate CommentFree(ts: seq<Token>) {
    forall i | 0 <= i < |ts| :: !ts[i].Comment? && !ts[i].Newline?
  }

  lemma {:induction false} LayoutHasNoComments(o: Layout)
    ensures CommentFree(LayoutTokens(o))
    decreases o
  {
    match o
    case Scalar(v) =>
    case Array(items) => ItemsHaveNoComments(items);
    case Record(entries) => EntriesHaveNoComments(entries);
  }

  lemma {:induction false} ItemsHaveNoComments(items: seq<Layout>)
    ensures CommentFree(ItemsTokens(items))
    decreases items
  {
    if items != [] {
      LayoutHasNoComments(items[0]);
      ItemsHaveNoComments(items[1..]);
    }
  }

  lemma {:induction false} EntriesHaveNoComments(entries: seq<Entry>)
    ensures CommentFree(EntriesTokens(entries))
    decreases entries
  {
    if entries != [] {
      LayoutHasNoComments(entries[0].layout);
      EntriesHaveNoComments(entries[1..]);
    }
  }

  /** The same text is HOCON for the same value. */
  lemma RenderedTextIsHocon(json: Lexing, conf: Lexing, v: Value, o: Layout)
    requires !json.allowComments && conf.allowComments && conf.floating == json.floating
    requires LaysOut(o, v) && Renderable(o) && (v.List? || v.Object?)
    ensures ParseDocument(Conf, Tokenized(conf, Text(o))) == Some(Reread(o))
  {
    hide ParseDocument, Tokenized, LaysOut, Renderable;
    RenderedTextParsesBack(json, v, o);
    JsonTextAcceptedInConf(json, conf, Text(o));
  }

  // ---------------------------------------------------------------- the renderer's loops

  /** Resolved values the round trip is promised for. */
  predicate Printable(v: Value) {
    match v
    case Number(number, _) => Int64(number)
    case Str(text) => SevenBit(text)
    case List(items) => forall i | 0 <= i < |items| :: Printable(items[i])
    case Object(fields, _) => forall k | k in fields :: SevenBit(k) && Printable(fields[k])
    case Reference(_, _, _, _) => false
    case Concatenation(_) => false
    case DelayedMerge(_, _) => false
    case _ => true
  }

  predicate AllRenderable(items: seq<Layout>) {
    forall i | 0 <= i < |items| :: Renderable(items[i])
  }

  lemma {:induction false} OneMoreItem(items: seq<Layout>, o: Layout)
    requires AllRenderable(items) && Renderable(o)
    ensures AllRenderable(items + [o])
    ensures ItemsText(items + [o]) == (if items == [] then "" else ItemsText(items) + ",") + Text(o)
  {
    hide Text, Renderable;
    if items != [] {
      assert (items + [o])[1..] == items[1..] + [o] && (items + [o])[0] == items[0];
      OneMoreItem(items[1..], o);
    }
  }

  lemma {:induction false} OneMoreEntry(entries: seq<Entry>, e: Entry)
    requires RenderableEntries(entries) && SevenBit(e.key) && Renderable(e.layout)
    ensures RenderableEntries(entries + [e])
    ensures EntriesText(entries + [e])
      == (if entries == [] then "" else EntriesText(entries) + ",") + EntryText(e)
  {
    hide EntryText, Renderable, SevenBit;
    if entries != [] {
      assert (entries + [e])[1..] == entries[1..] + [e] && (entries + [e])[0] == entries[0];
      OneMoreEntry(entries[1..], e);
    }
  }

  /** `r` is `s` with the text of `v` appended, for some order of its map entries. */
  ghost predicate Appends(s: string, v: Value, r: string) {
    exists o :: LaysOut(o, v) && Renderable(o) && r == s + Text(o)
  }

  lemma AppendsLayout(s: string, v: Value, o: Layout, r: string)
    requires LaysOut(o, v) && Renderable(o) && r == s + Text(o)
    ensures Appends(s, v, r)
  {
  }

  /** `render` with the concise options, appending to `s`: every element is followed by a comma
      and the last comma is chopped.  Map entries come in any order. */
  method Render(s: string, v: Value) returns (r: string)
    requires Printable(v)
    ensures Appends(s, v, r)
    decreases v, 1
  {
    match v
    case List(items) =>
      if items == [] {
        r := s + "[]";
        AppendsLayout(s, v, Array([]), r);
      } else {
        r := RenderItems(s, v);
      }
    case Object(fields, _) =>
      if fields == map[] {
        r := s + "{}";
        AppendsLayout(s, v, Record([]), r);
      } else {
        r := RenderEntries(s, v);
      }
    case Null =>
      r := s + "null";
      AppendsLayout(s, v, Scalar(v), r);
    case Bool(flag) =>
      r := s + (if flag then "true" else "false");
      AppendsLayout(s, v, Scalar(v), r);
    case Number(n, _) =>
      r := s + IntText(n);
      AppendsLayout(s, v, Scalar(v), r);
    case Str(text) =>
      var quoted := RenderJsonString(text);
      r := s + quoted;
      AppendsLayout(s, v, Scalar(v), r);
  }

  lemma Appended(s: string, open: string, body: string, piece: string)
    ensures s + open + body + piece + "," == s + open + (body + piece + ",")
  {
  }

  /** Chopping the last comma and closing the bracket. */
  lemma Closed(r: string, s: string, open: string, body: string, close: string)
    requires r == s + open + (body + ",")
    ensures r[..|r| - 1] + close == s + (open + body + close)
  {
    assert r == (s + open + body) + ",";
  }

  /** The text of the items so far, each followed by a comma. */
  function ItemsSoFar(items: seq<Layout>): (s: string)
    requires AllRenderable(items)
  {
    if items == [] then "" else ItemsText(items) + ","
  }

  lemma ItemAppended(s: string, items: seq<Layout>, o: Layout)
    requires AllRenderable(items) && Renderable(o)
    ensures AllRenderable(items + [o])
    ensures s + "[" + ItemsSoFar(items) + Text(o) + "," == s + "[" + ItemsSoFar(items + [o])
  {
    hide Text, ItemsText, Renderable;
    OneMoreItem(items, o);
    Appended(s, "[", ItemsSoFar(items), Text(o));
  }

  method RenderItems(s: string, v: Value) returns (r: string)
    requires Printable(v) && v.List? && v.items != []
    ensures Appends(s, v, r)
    decreases v, 0
  {
    hide Text, ItemsText;
    r := s + "[";
    ghost var layouts: seq<Layout> := [];
    var i := 0;
    assert r + "" == r;
    while i < |v.items|
      invariant i == |layouts| <= |v.items| && AllRenderable(layouts)
      invariant forall j | 0 <= j < i :: LaysOut(layouts[j], v.items[j])
      invariant r == s + "[" + ItemsSoFar(layouts)
    {
      hide ItemsSoFar, Text, Renderable;
      ghost var before := r;
      r := Render(r, v.items[i]);
      ghost var item :| LaysOut(item, v.items[i]) && Renderable(item) && r == before + Text(item);
      ItemAppended(s, layouts, item);
      layouts := layouts + [item];
      r := r + ",";
      i := i + 1;
    }
    Closed(r, s, "[", ItemsText(layouts), "]");
    r := r[..|r| - 1];
    r := r + "]";
    ArrayText(layouts);
    AppendsLayout(s, v, Array(layouts), r);
  }

  function EntriesSoFar(entries: seq<Entry>): (s: string)
    requires RenderableEntries(entries)
  {
    if entries == [] then "" else EntriesText(entries) + ","
  }

  lemma EntryAppended(s: string, entries: seq<Entry>, e: Entry)
    requires RenderableEntries(entries) && SevenBit(e.key) && Renderable(e.layout)
    ensures RenderableEntries(entries + [e])
    ensures s + "{" + EntriesSoFar(entries) + Quoted(e.key) + ":" + Text(e.layout) + "," ==
      s + "{" + EntriesSoFar(entries + [e])
  {
    hide Text, EntriesText, Renderable, Quoted, SevenBit;
    OneMoreEntry(entries, e);
    var piece := Quoted(e.key) + ":" + Text(e.layout);
    Appended(s, "{", EntriesSoFar(entries), EntryText(e));
    assert s + "{" + EntriesSoFar(entries) + Quoted(e.key) + ":" + Text(e.layout) ==
      s + "{" + EntriesSoFar(entries) + piece;
  }

  method RenderEntries(s: string, v: Value) returns (r: string)
    requires Printable(v) && v.Object? && v.fields != map[]
    ensures Appends(s, v, r)
    decreases v, 0
  {
    hide Text, EntriesText, Quoted;
    r := s + "{";
    ghost var entries: seq<Entry> := [];
    var todo := v.fields.Keys;
    assert r + "" == r;
    while todo != {}
      invariant todo <= v.fields.Keys && RenderableEntries(entries)
      invariant Listed(entries, v.fields, todo)
      invariant todo != v.fields.Keys ==> entries != []
      invariant r == s + "{" + EntriesSoFar(entries)
    {
      hide EntriesSoFar, Listed, Renderable, SevenBit;
      var key :| key in todo;
      var quoted := RenderJsonString(key);
      r := r + quoted + ":";
      ghost var before := r;
      r := Render(r, v.fields[key]);
      ghost var layout :| LaysOut(layout, v.fields[key]) && Renderable(layout) && r == before + Text(layout);
      EntryAppended(s, entries, Entry(key, layout));
      OneMoreListed(entries, v.fields, todo, Entry(key, layout));
      entries := entries + [Entry(key, layout)];
      r := r + ",";
      todo := todo - {key};
    }
    Closed(r, s, "{", EntriesText(entries), "}");
    r := r[..|r| - 1];
    r := r + "}";
    RecordText(entries);
    AppendsLayout(s, v, Record(entries), r);
  }

  /** The entries lay out exactly the fields that are no longer to do. */
  ghost predicate Listed(entries: seq<Entry>, fields: map<string, Value>, todo: set<string>) {
    && DistinctKeys(entries)
    && (forall k | k in fields :: k in todo || HasKey(entries, k))
    && (forall i | 0 <= i < |entries| ::
          entries[i].key in fields && entries[i].key !in todo && LaysOut(entries[i].layout, fields[entries[i].key]))
  }

  lemma OneMoreListed(entries: seq<Entry>, fields: map<string, Value>, todo: set<string>, e: Entry)
    requires Listed(entries, fields, todo) && e.key in todo && e.key in fields && LaysOut(e.layout, fields[e.key])
    ensures Listed(entries + [e], fields, todo - {e.key})
  {
    var more := entries + [e];
    forall k | k in fields ensures k in todo - {e.key} || HasKey(more, k) {
      if k == e.key {
        assert more[|entries|].key == k;
      } else if HasKey(entries, k) {
        var i :| 0 <= i < |entries| && entries[i].key == k;
        assert more[i].key == k;
      }
    }
  }

  lemma ArrayText(items: seq<Layout>)
    requires AllRenderable(items)
    ensures Renderable(Array(items)) && Text(Array(items)) == "[" + ItemsText(items) + "]"
  {
  }

  lemma RecordText(entries: seq<Entry>)
    requires RenderableEntries(entries) && DistinctKeys(entries)
    ensures Renderable(Record(entries)) && Text(Record(entries)) == "{" + EntriesText(entries) + "}"
  {
  }

  /** Whatever `render` returned for an object or a list parses back to an equal value. */
  lemma RenderParsesBack(lex: Lexing, v: Value, text: string)
    requires Appends("", v, text) && (v.List? || v.Object?)
    ensures var parsed := ParseDocument(Json, Tokenized(lex, text)); parsed.Some? && SameConfig(v, parsed.value)
  {
    hide LaysOut, Renderable, Text, ParseDocument, SameConfig, Tokenized;
    var o :| LaysOut(o, v) && Renderable(o) && text == "" + Text(o);
    assert "" + Text(o) == Text(o);
    RenderedTextParsesBack(lex, v, o);
  }
}

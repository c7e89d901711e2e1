/** The liberties HOCON takes with JSON, stated by a grammar that knows nothing of the parser: line
    breaks in place of commas, a comma or line breaks after the last member, `=` for `:` and nothing at
    all before an object, keys without quotes, and no braces around the document.

    Whatever is written so is parsed to the value it would have with all liberties undone. */
module HoconGrammar {
  import opened ConfigValues
  import opened Tokenization
  import opened PathSyntax
  import opened Parsing
  import opened JsonInConf

  // ---------------------------------------------------------------- the grammar

  /** A value, written with some line breaks after its opening bracket. */
  datatype Hocon = Leaf(value: Value) | Array(breaks: nat, items: seq<Item>) | Record(breaks: nat, members: seq<Member>)

  datatype Item = Item(value: Hocon, gap: Gap)

  /** A member whose key is the path of one element that the tokens `name` stand for. */
  datatype Member = Member(name: seq<Token>, key: string, sign: Sign, value: Hocon, gap: Gap)

  datatype Sign = WithColon | WithEquals | WithNothing

  /** What follows a member: line breaks, possibly a comma, line breaks. */
  datatype Gap = Gap(before: nat, comma: bool, behind: nat)

  function Breaks(n: nat): (ts: seq<Token>) {
    if n == 0 then [] else [Newline] + Breaks(n - 1)
  }

  function WrittenGap(g: Gap): (ts: seq<Token>) {
    Breaks(g.before) + (if g.comma then [Comma] else []) + Breaks(g.behind)
  }

  function WrittenSign(s: Sign): (ts: seq<Token>) {
    match s
    case WithColon => [Colon]
    case WithEquals => [EqualsSign]
    case WithNothing => []
  }

  function Written(h: Hocon): (ts: seq<Token>)
    ensures ts != [] && StartsValue(ts[0])
    decreases h, 0
  {
    match h
    case Leaf(v) => [Literal(v)]
    case Array(n, items) => [OpenSquare] + Breaks(n) + WrittenItems(items) + [CloseSquare]
    case Record(n, members) => [OpenCurly] + Breaks(n) + WrittenMembers(members) + [CloseCurly]
  }

  function WrittenItems(items: seq<Item>): (ts: seq<Token>)
    decreases items, 1
  {
    if items == [] then []
    else
      assert items[0].value < items[0];
      Written(items[0].value) + WrittenGap(items[0].gap) + WrittenItems(items[1..])
  }

  function WrittenMembers(members: seq<Member>): (ts: seq<Token>)
    decreases members, 1
  {
    if members == [] then []
    else
      var m := members[0];
      m.name + WrittenSign(m.sign) + Written(m.value) + WrittenGap(m.gap) + WrittenMembers(members[1..])
  }

  /** Between two members there is a comma or a line break. */
  predicate Apart(g: Gap) {
    g.comma || g.before + g.behind > 0
  }

  /** The tokens of a key, quoted or not. */
  predicate Names(name: seq<Token>, key: string) {
    && name != [] && name[0] != Unquoted("include")
    && (forall i | 0 <= i < |name| :: name[i].Literal? || name[i].Unquoted?)
    && ParsePathExpression(name) == Some([key])
  }

  /** Members are kept apart, only an object may lack the sign, and no object has a key twice. */
  predicate Legal(h: Hocon) {
    match h
    case Leaf(_) => true
    case Array(_, items) =>
      forall i | 0 <= i < |items| :: Legal(items[i].value) && (i < |items| - 1 ==> Apart(items[i].gap))
    case Record(_, members) => LegalKeys(map[], members) && forall i | 0 <= i < |members| :: Legal(members[i].value)
  }

  predicate LegalKeys(fields: map<string, Value>, members: seq<Member>) {
    && (forall i | 0 <= i < |members| ::
          && members[i].key !in fields && Names(members[i].name, members[i].key)
          && (members[i].sign.WithNothing? ==> members[i].value.Record?)
          && (i < |members| - 1 ==> Apart(members[i].gap)))
    && (forall i, j | 0 <= i < j < |members| :: members[i].key != members[j].key)
  }

  function ValueOf(h: Hocon): (v: Value)
    decreases h, 0
  {
    match h
    case Leaf(v) => v
    case Array(_, items) => List(ValuesOf(items))
    case Record(_, members) => Object(WithMembers(map[], members), false)
  }

  function ValuesOf(items: seq<Item>): (vs: seq<Value>)
    decreases items, 1
  {
    if items == [] then []
    else
      assert items[0].value < items[0];
      [ValueOf(items[0].value)] + ValuesOf(items[1..])
  }

  function WithMembers(fields: map<string, Value>, members: seq<Member>): (r: map<string, Value>)
    decreases members, 1
  {
    if members == [] then fields else WithMembers(fields[members[0].key := ValueOf(members[0].value)], members[1..])
  }

  // ---------------------------------------------------------------- line breaks and separators

  /** A token that is read as it is. */
  predicate Plain(t: Token) {
    !t.Newline? && !t.Problem?
  }

  lemma {:induction false} BreaksSkipped(n: nat, t: Token, ts: seq<Token>)
    requires Plain(t)
    ensures NextOnAnyLine(Conf, Breaks(n) + ([t] + ts)) == Parsed(t, ts)
  {
    var stream := Breaks(n) + ([t] + ts);
    if n == 0 {
      assert stream == [t] + ts && stream[1..] == ts;
    } else {
      assert stream == [Newline] + (Breaks(n - 1) + ([t] + ts));
      assert stream[1..] == Breaks(n - 1) + ([t] + ts);
      BreaksSkipped(n - 1, t, ts);
    }
  }

  lemma {:induction false} BreaksSeparate(n: nat, t: Token, ts: seq<Token>, saw: bool)
    requires Plain(t)
    ensures SeparatorOnLines(Breaks(n) + ([t] + ts), saw) ==
      if t.Comma? then Parsed(true, ts) else Parsed(saw || n > 0, [t] + ts)
    decreases n
  {
    var stream := Breaks(n) + ([t] + ts);
    if n == 0 {
      assert stream == [t] + ts && stream[1..] == ts;
    } else {
      assert stream == [Newline] + (Breaks(n - 1) + ([t] + ts));
      assert stream[1..] == Breaks(n - 1) + ([t] + ts);
      BreaksSeparate(n - 1, t, ts, true);
    }
  }

  lemma {:induction false} BreaksTogether(n: nat, m: nat)
    ensures Breaks(n) + Breaks(m) == Breaks(n + m)
  {
    if n > 0 {
      BreaksTogether(n - 1, m);
      assert Breaks(n) + Breaks(m) == [Newline] + (Breaks(n - 1) + Breaks(m));
    } else {
      assert [] + Breaks(m) == Breaks(m);
    }
  }

  /** How many line breaks are left after a gap has been read as a separator. */
  function Left(g: Gap): (n: nat) {
    if g.comma then g.behind else 0
  }

  /** A gap is a separator exactly if it keeps apart. */
  lemma GapSeparates(g: Gap, t: Token, ts: seq<Token>)
    requires Plain(t) && !t.Comma?
    ensures Separator(Conf, WrittenGap(g) + ([t] + ts)) == Parsed(Apart(g), Breaks(Left(g)) + ([t] + ts))
  {
    hide SeparatorOnLines, Breaks, WrittenGap;
    GapBefore(g, [t] + ts);
    if g.comma {
      BreaksSeparate(g.before, Comma, Breaks(g.behind) + ([t] + ts), false);
    } else {
      BreaksSeparate(g.before + g.behind, t, ts, false);
      NoGap([t] + ts);
    }
  }

  lemma GapBefore(g: Gap, ts: seq<Token>)
    ensures WrittenGap(g) + ts ==
      if g.comma then Breaks(g.before) + ([Comma] + (Breaks(g.behind) + ts)) else Breaks(g.before + g.behind) + ts
  {
    BreaksTogether(g.before, g.behind);
  }

  /** A gap and what follows it delimit a value. */
  lemma GapDelimits(g: Gap, t: Token, ts: seq<Token>)
    requires t.CloseCurly? || t.CloseSquare? || t.End? || Apart(g)
    ensures var stream := WrittenGap(g) + ([t] + ts); Delimits(stream[0])
  {
    if g.before > 0 {
      assert Breaks(g.before)[0] == Newline;
    } else if !g.comma && g.behind > 0 {
      assert Breaks(g.behind)[0] == Newline;
      assert WrittenGap(g) == Breaks(g.behind);
    } else if !g.comma {
      assert WrittenGap(g) == [];
    }
  }

  // ---------------------------------------------------------------- keys

  lemma {:induction false} NameCollected(name: seq<Token>, done: seq<Token>, t: Token, ts: seq<Token>)
    requires name != [] && (forall i | 0 <= i < |name| :: name[i].Literal? || name[i].Unquoted?)
    requires Plain(t) && !t.Literal? && !t.Unquoted?
    ensures CollectKey(name[0], name[1..] + ([t] + ts), done) == Parsed(done + name, [t] + ts)
    decreases |name|
  {
    var stream := name[1..] + ([t] + ts);
    if |name| == 1 {
      assert stream == [t] + ts && stream[1..] == ts && done + [name[0]] == done + name;
    } else {
      assert stream[0] == name[1] && stream[1..] == name[1..][1..] + ([t] + ts);
      NameCollected(name[1..], done + [name[0]], t, ts);
      assert done + [name[0]] + name[1..] == done + name;
    }
  }

  lemma NameIsKey(name: seq<Token>, key: string, t: Token, ts: seq<Token>)
    requires Names(name, key) && Plain(t) && !t.Literal? && !t.Unquoted?
    ensures ParseKey(Conf, name[0], name[1..] + ([t] + ts)) == Parsed([key], [t] + ts)
  {
    hide CollectKey, ParsePathExpression;
    NameCollected(name, [], t, ts);
    assert [] + name == name;
  }

  // ---------------------------------------------------------------- values

  /** What is written is parsed, whatever follows. */
  lemma {:induction false} WrittenIsParsed(h: Hocon, rest: seq<Token>, parents: Path)
    requires Legal(h)
    ensures var ts := Written(h) + rest; ParseValue(Conf, ts[0], ts[1..], parents) == Parsed(ValueOf(h), rest)
    decreases h, 0
  {
    hide ParseFields, ParseArray, WrittenItems, WrittenMembers, ValuesOf, WithMembers, Legal, Breaks;
    var ts := Written(h) + rest;
    match h
    case Leaf(v) => assert ts[1..] == rest;
    case Array(n, items) =>
      assert ts[1..] == Breaks(n) + (WrittenItems(items) + ([CloseSquare] + rest));
      ArrayIsLegal(n, items);
      ArrayIsParsed(n, items, rest, parents);
    case Record(n, members) =>
      assert ts[1..] == Breaks(n) + (WrittenMembers(members) + ([CloseCurly] + rest));
      RecordIsLegal(n, members);
      MembersAreParsed(n, members, CloseCurly, rest, map[], false, parents);
      RecordIs(n, members);

  }

  lemma ArrayIsLegal(n: nat, items: seq<Item>)
    ensures Legal(Array(n, items)) <==>
      forall i | 0 <= i < |items| :: Legal(items[i].value) && (i < |items| - 1 ==> Apart(items[i].gap))
  {
  }

  lemma RecordIsLegal(n: nat, members: seq<Member>)
    ensures Legal(Record(n, members)) <==>
      LegalKeys(map[], members) && forall i | 0 <= i < |members| :: Legal(members[i].value)
  {
  }

  /** A value by itself, after line breaks and before a gap. */
  lemma {:induction false} LoneIsParsed(n: nat, h: Hocon, rest: seq<Token>, parents: Path)
    requires Legal(h) && rest != [] && Delimits(rest[0])
    ensures var consolidated := ConsolidateValues(Conf, Breaks(n) + (Written(h) + rest), parents);
      && consolidated.Parsed?
      && var next := NextOnAnyLine(Conf, consolidated.rest);
         && next.Parsed? && next.result.Literal?
         && ParseValue(Conf, next.result, next.rest, parents) == Parsed(ValueOf(h), rest)
    decreases h, 1
  {
    hide ParseValue, ValueOf, Written, Legal, Breaks, NextOnAnyLine, ConsolidateValues;
    WrittenIsParsed(h, rest, parents);
    var ts := Written(h) + rest;
    assert ts == [ts[0]] + ts[1..];
    BreaksSkipped(n, ts[0], ts[1..]);
    LoneValue(Breaks(n) + ts, parents);
    LiteralParsed(ValueOf(h), rest, parents);
  }

  lemma LiteralParsed(v: Value, rest: seq<Token>, parents: Path)
    ensures ParseValue(Conf, Literal(v), rest, parents) == Parsed(v, rest)
  {
  }

  lemma {:induction false} ArrayIsParsed(n: nat, items: seq<Item>, rest: seq<Token>, parents: Path)
    requires forall i | 0 <= i < |items| :: Legal(items[i].value) && (i < |items| - 1 ==> Apart(items[i].gap))
    ensures ParseArray(Conf, Breaks(n) + (WrittenItems(items) + ([CloseSquare] + rest)), parents)
      == Parsed(List(ValuesOf(items)), rest)
    decreases items, 3
  {
    hide ParseValue, ParseItems, ValueOf, Written, Legal, Breaks, NextOnAnyLine, ConsolidateValues;
    var close := [CloseSquare] + rest;
    if items == [] {
      assert WrittenItems(items) + close == close;
      NothingConsolidated(n, CloseSquare, rest, parents);
      assert ValuesOf(items) == [];
    } else {
      var more := AfterValue(items, rest);
      assert WrittenItems(items) + close == Written(items[0].value) + more;
      AfterValueDelimits(items, rest);
      assert items[0].value < items[0];
      LoneIsParsed(n, items[0].value, more, parents);
      ItemsAreParsed(items, [ValueOf(items[0].value)], rest, parents);
      assert [ValueOf(items[0].value)] + ValuesOf(items[1..]) == ValuesOf(items);
    }
  }

  /** What follows the first item's value. */
  function AfterValue(items: seq<Item>, rest: seq<Token>): (ts: seq<Token>)
    requires items != []
  {
    WrittenGap(items[0].gap) + (WrittenItems(items[1..]) + ([CloseSquare] + rest))
  }

  /** The first token after the gap. */
  lemma AfterGap(items: seq<Item>, rest: seq<Token>) returns (t: Token, ts: seq<Token>)
    ensures WrittenItems(items) + ([CloseSquare] + rest) == [t] + ts && Plain(t) && !t.Comma?
    ensures items == [] ==> t.CloseSquare? && ts == rest
    ensures items != [] ==> StartsValue(t)
  {
    hide Written;
    var stream := WrittenItems(items) + ([CloseSquare] + rest);
    t, ts := stream[0], stream[1..];
    if items != [] {
      assert stream[0] == Written(items[0].value)[0];
    }
  }

  lemma AfterValueDelimits(items: seq<Item>, rest: seq<Token>)
    requires items != [] && (|items| > 1 ==> Apart(items[0].gap))
    ensures AfterValue(items, rest) != [] && Delimits(AfterValue(items, rest)[0])
  {
    hide WrittenGap;
    var t, ts := AfterGap(items[1..], rest);
    GapDelimits(items[0].gap, t, ts);
  }

  lemma NothingConsolidated(n: nat, t: Token, ts: seq<Token>, parents: Path)
    requires Plain(t) && !StartsValue(t) && !t.Unquoted? && !t.Substitution?
    ensures ConsolidateValues(Conf, Breaks(n) + ([t] + ts), parents) == Parsed(false, [t] + ts)
    ensures NextOnAnyLine(Conf, [t] + ts) == Parsed(t, ts)
  {
    BreaksSkipped(n, t, ts);
    BreaksSkipped(0, t, ts);
    assert Breaks(0) + ([t] + ts) == [t] + ts && ([t] + ts)[1..] == ts;
    assert ConsolidateFrom([t] + ts, [], parents) == Parsed(false, [t] + ts);
  }

  /** The items after the first of `items`, from the gap on. */
  lemma {:induction false} ItemsAreParsed(items: seq<Item>, done: seq<Value>, rest: seq<Token>, parents: Path)
    requires items != []
    requires forall i | 0 <= i < |items| :: Legal(items[i].value) && (i < |items| - 1 ==> Apart(items[i].gap))
    ensures ParseItems(Conf, AfterValue(items, rest), done, parents) == Parsed(List(done + ValuesOf(items[1..])), rest)
    decreases items, 2
  {
    hide ParseValue, ValueOf, Written, Legal, Breaks, NextOnAnyLine, ConsolidateValues, Separator, WrittenGap;
    var gap, more := items[0].gap, items[1..];
    var t, ts := AfterGap(more, rest);
    GapSeparates(gap, t, ts);
    if more == [] {
      assert done + ValuesOf(more) == done;
      CloseItems(gap, done, rest, parents);
    } else {
      var after := AfterValue(more, rest);
      assert [t] + ts == Written(more[0].value) + after;
      AfterValueDelimits(more, rest);
      assert more[0].value < more[0];
      LoneIsParsed(Left(gap), more[0].value, after, parents);
      ItemsAreParsed(more, done + [ValueOf(more[0].value)], rest, parents);
      assert done + [ValueOf(more[0].value)] + ValuesOf(more[1..]) == done + ValuesOf(more);
    }
  }

  /** The end of a list, with or without a separator before it. */
  lemma CloseItems(gap: Gap, done: seq<Value>, rest: seq<Token>, parents: Path)
    ensures ParseItems(Conf, WrittenGap(gap) + ([CloseSquare] + rest), done, parents) == Parsed(List(done), rest)
  {
    hide ParseValue, NextOnAnyLine, ConsolidateValues, Separator, WrittenGap, Breaks;
    var close := [CloseSquare] + rest;
    var nothing := Gap(0, false, 0);
    NoGap(close);
    GapSeparates(nothing, CloseSquare, rest);
    GapSeparates(gap, CloseSquare, rest);
    NothingConsolidated(Left(gap), CloseSquare, rest, parents);
    assert Separator(Conf, close) == Parsed(false, close);
    assert ParseItems(Conf, close, done, parents) == Parsed(List(done), rest);
    if !Apart(gap) {
      BreaksNone(gap, close);
    }
  }

  lemma NoGap(ts: seq<Token>)
    ensures WrittenGap(Gap(0, false, 0)) + ts == ts && Breaks(0) + ts == ts && Left(Gap(0, false, 0)) == 0
  {
  }

  lemma BreaksNone(gap: Gap, ts: seq<Token>)
    requires !Apart(gap)
    ensures WrittenGap(gap) + ts == ts
  {
  }

  lemma RecordIs(n: nat, members: seq<Member>)
    ensures ValueOf(Record(n, members)) == Object(WithMembers(map[], members), false)
    ensures Written(Record(n, members)) == [OpenCurly] + Breaks(n) + WrittenMembers(members) + [CloseCurly]
  {
  }

  // ---------------------------------------------------------------- members

  /** The sign and value of a member, and what follows. */
  function AfterName(m: Member, after: seq<Token>): (ts: seq<Token>) {
    WrittenSign(m.sign) + (Written(m.value) + after)
  }

  lemma {:induction false} MemberIsParsed(m: Member, after: seq<Token>, fields: map<string, Value>, parents: Path)
    requires Legal(m.value) && Names(m.name, m.key) && (m.sign.WithNothing? ==> m.value.Record?) && m.key !in fields
    requires after != [] && Delimits(after[0])
    ensures ParseField(Conf, m.name[0], m.name[1..] + AfterName(m, after), fields, parents)
      == Parsed(fields[m.key := ValueOf(m.value)], after)
    decreases m, 2
  {
    hide ParseValue, ParseKey, ValueOf, Written, Legal, NextOnAnyLine, ConsolidateValues, Names;
    var value, path := Written(m.value) + after, parents + [m.key];
    var stream := AfterName(m, after);
    var t, ts := stream[0], stream[1..];
    assert stream == [t] + ts && (m.sign.WithNothing? ==> stream == value);
    if m.sign.WithNothing? {
      RecordStarts(m.value);
    } else {
      assert ts == value;
    }
    NameIsKey(m.name, m.key, t, ts);
    BreaksSkipped(0, t, ts);
    assert Breaks(0) + ([t] + ts) == [t] + ts;
    WrittenIsParsed(m.value, after, path);
    assert Breaks(0) + value == value;
    LoneIsParsed(0, m.value, after, path);
    assert ParseFieldValue(Conf, t, ts, path) == Parsed(ValueOf(m.value), after);
    StoredKey(fields, m.key, ValueOf(m.value));
  }

  lemma RecordStarts(h: Hocon)
    requires h.Record?
    ensures Written(h)[0] == OpenCurly
  {
  }

  lemma StoredKey(fields: map<string, Value>, key: string, v: Value)
    requires key !in fields
    ensures Store(Conf, fields, [key], v) == Some(fields[key := v])
  {
  }

  /** What an object without braces leaves of its end. */
  function AtClose(close: Token, rest: seq<Token>): (ts: seq<Token>) {
    if close.End? then [End] + rest else rest
  }

  lemma {:induction false} MembersAreParsed(n: nat, members: seq<Member>, close: Token, rest: seq<Token>,
                                            fields: map<string, Value>, afterComma: bool, parents: Path)
    requires close.CloseCurly? || close.End?
    requires LegalKeys(fields, members) && forall i | 0 <= i < |members| :: Legal(members[i].value)
    ensures ParseFields(Conf, close.CloseCurly?, Breaks(n) + (WrittenMembers(members) + ([close] + rest)), fields,
                        afterComma, parents)
      == Parsed(Object(WithMembers(fields, members), false), AtClose(close, rest))
    decreases members, 3
  {
    hide ParseField, ParseFields, ValueOf, Written, Legal, NextOnAnyLine, Separator, WrittenGap, Breaks, Names;
    hide EndFields, AfterName, WrittenMembers;
    if members == [] {
      NoMembers([close] + rest);
      BreaksSkipped(n, close, rest);
      FieldsClose(close, rest, Breaks(n) + ([close] + rest), fields, afterComma, parents);
    } else {
      var m, more := members[0], members[1..];
      var tail := WrittenMembers(more) + ([close] + rest);
      var after := WrittenGap(m.gap) + tail;
      FirstToken(m);
      MembersSplit(members, [close] + rest);
      BreaksSkipped(n, m.name[0], m.name[1..] + AfterName(m, after));
      var t, ts := TailStarts(more, close, rest);
      GapDelimits(m.gap, t, ts);
      MemberIsParsed(m, after, fields, parents);
      GapSeparates(m.gap, t, ts);
      TakesField(close.CloseCurly?, Breaks(n) + ([m.name[0]] + (m.name[1..] + AfterName(m, after))), fields, afterComma,
                 parents);
      var fields' := fields[m.key := ValueOf(m.value)];
      if Apart(m.gap) {
        MembersAreParsed(Left(m.gap), more, close, rest, fields', true, parents);
      } else {
        NoGap(tail);
        FieldsEnd(close, rest, fields');
      }
    }
  }

  lemma NoMembers(close: seq<Token>)
    ensures WrittenMembers([]) + close == close
  {
  }

  lemma MembersSplit(members: seq<Member>, close: seq<Token>)
    requires members != [] && members[0].name != []
    ensures var m := members[0];
      WrittenMembers(members) + close
        == [m.name[0]] + (m.name[1..] + AfterName(m, WrittenGap(m.gap) + (WrittenMembers(members[1..]) + close)))
  {
    hide Written, WrittenGap;
  }

  lemma TakesField(braces: bool, ts: seq<Token>, fields: map<string, Value>, afterComma: bool, parents: Path)
    requires var first := NextOnAnyLine(Conf, ts);
      first.Parsed? && (first.result.Literal? || first.result.Unquoted?) && first.result != Unquoted("include")
    ensures var first := NextOnAnyLine(Conf, ts);
      var field := ParseField(Conf, first.result, first.rest, fields, parents);
      ParseFields(Conf, braces, ts, fields, afterComma, parents) ==
        if field.Rejected? || Separator(Conf, field.rest).Rejected? then Rejected
        else
          var separator := Separator(Conf, field.rest);
          if separator.result then ParseFields(Conf, braces, separator.rest, field.result, true, parents)
          else EndFields(Conf, braces, separator.rest, field.result)
  {
    hide ParseField, NextOnAnyLine, Separator, EndFields;
  }

  lemma FieldsClose(close: Token, rest: seq<Token>, ts: seq<Token>, fields: map<string, Value>, afterComma: bool,
                    parents: Path)
    requires close.CloseCurly? || close.End?
    requires NextOnAnyLine(Conf, ts) == Parsed(close, rest)
    ensures ParseFields(Conf, close.CloseCurly?, ts, fields, afterComma, parents)
      == Parsed(Object(fields, false), AtClose(close, rest))
  {
    hide NextOnAnyLine;
  }

  lemma FirstToken(m: Member)
    requires Names(m.name, m.key)
    ensures var t := m.name[0]; Plain(t) && (t.Literal? || t.Unquoted?) && t != Unquoted("include")
    ensures m.name == [m.name[0]] + m.name[1..]
  {
  }

  predicate Begins(t: Token, m: Member) {
    m.name != [] && t == m.name[0]
  }

  lemma TailStarts(members: seq<Member>, close: Token, rest: seq<Token>) returns (t: Token, ts: seq<Token>)
    requires close.CloseCurly? || close.End?
    requires forall i | 0 <= i < |members| :: Names(members[i].name, members[i].key)
    ensures WrittenMembers(members) + ([close] + rest) == [t] + ts && Plain(t) && !t.Comma?
    ensures if members == [] then t == close && ts == rest else Begins(t, members[0])
  {
    hide Written, Names, WrittenGap;
    var stream := WrittenMembers(members) + ([close] + rest);
    if members != [] {
      FirstToken(members[0]);
      assert stream[0] == members[0].name[0];
    }
    t, ts := stream[0], stream[1..];
  }

  lemma FieldsEnd(close: Token, rest: seq<Token>, fields: map<string, Value>)
    requires close.CloseCurly? || close.End?
    ensures EndFields(Conf, close.CloseCurly?, [close] + rest, fields)
      == Parsed(Object(fields, false), AtClose(close, rest))
  {
    BreaksSkipped(0, close, rest);
    NoGap([close] + rest);
  }

  // ---------------------------------------------------------------- documents

  /** A document written with these liberties, between braces or brackets, is accepted with the value it
      has by the grammar. */
  lemma HoconIsAccepted(h: Hocon, tokens: seq<Token>, n: nat, m: nat)
    requires Legal(h) && !h.Leaf?
    requires WithoutComments(tokens) == [Start] + Breaks(n) + Written(h) + Breaks(m) + [End]
    ensures ParseDocument(Conf, tokens) == Some(ValueOf(h))
  {
    hide ParseValue, ParseFields, NextOnAnyLine, Written, ValueOf, Legal, Breaks;
    var rest := Breaks(m) + ([End] + []);
    var ts := Written(h) + rest;
    assert WithoutComments(tokens) == [Start] + (Breaks(n) + ts);
    StartSkipped(Breaks(n) + ts);
    NoLeaf(h);
    assert ts == [ts[0]] + ts[1..] && ts[0] == Written(h)[0];
    BreaksSkipped(n, ts[0], ts[1..]);
    WrittenIsParsed(h, rest, []);
    BreaksSkipped(m, End, []);
  }

  lemma NoLeaf(h: Hocon)
    requires !h.Leaf?
    ensures Written(h)[0].OpenCurly? || Written(h)[0].OpenSquare?
  {
  }

  lemma StartSkipped(ts: seq<Token>)
    ensures NextOnAnyLine(Conf, [Start] + ts) == Parsed(Start, ts)
  {
    BreaksSkipped(0, Start, ts);
    NoGap([Start] + ts);
  }

  /** So is a document without braces. */
  lemma BareHoconIsAccepted(members: seq<Member>, tokens: seq<Token>, n: nat)
    requires Legal(Record(0, members))
    requires WithoutComments(tokens) == [Start] + Breaks(n) + WrittenMembers(members) + [End]
    ensures ParseDocument(Conf, tokens) == Some(ValueOf(Record(0, members)))
  {
    hide ParseValue, ParseFields, NextOnAnyLine, Written, WrittenMembers, ValueOf, Legal, Breaks, WithMembers, Names;
    RecordIsLegal(0, members);
    RecordIs(0, members);
    var ts := WrittenMembers(members) + ([End] + []);
    assert WithoutComments(tokens) == [Start] + (Breaks(n) + ts);
    StartSkipped(Breaks(n) + ts);
    var t, more := TailStarts(members, End, []);
    if members != [] {
      FirstToken(members[0]);
    }
    BreaksSkipped(n, t, more);
    MembersAreParsed(0, members, End, [], map[], false, []);
    NoGap(ts);
    BreaksSkipped(0, End, []);
    NoGap([End] + []);
  }
}

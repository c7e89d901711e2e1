/** What a HOCON text says literally: comments say nothing, triple-quoted strings say what stands between
    the quotes, and words on a line say themselves with the blanks between them. */
module PlainText {
  import opened ConfigValues
  import opened Characters
  import opened Concatenations
  import opened Tokenization
  import opened PathSyntax
  import opened Parsing

  // ---------------------------------------------------------------- comments

  lemma {:induction false} LineRunIs(body: string, rest: string)
    requires '\n' !in body && (rest == "" || rest[0] == '\n')
    ensures LineRun(body + rest) == |body|
  {
    if body == "" {
      assert body + rest == rest;
    } else {
      assert (body + rest)[1..] == body[1..] + rest;
      LineRunIs(body[1..], rest);
    }
  }

  lemma PullsComment(lex: Lexing, mark: string, body: string, rest: string)
    requires lex.allowComments && (mark == "#" || mark == "//")
    requires '\n' !in body && (rest == "" || rest[0] == '\n')
    ensures PullToken(lex, mark + body + rest) == Scanned(Comment(body), rest)
  {
    hide PullSubstitution, PullQuoted, ScanUnquoted, NumberToken, LineRun;
    var text := mark + body + rest;
    assert text[0] == mark[0] && BlankRun(text) == 0 && text[0..] == text;
    if mark == "//" {
      assert text[1] == '/' && text[2..] == body + rest;
    } else {
      assert text[1..] == body + rest;
    }
    LineRunIs(body, rest);
    assert (body + rest)[..|body|] == body && (body + rest)[|body|..] == rest;
  }

  /** A comment up to the end of its line, in either form, is as good as nothing to the parser. */
  lemma CommentSaysNothing(lex: Lexing, mark: string, body: string, rest: string, afterSimple: bool)
    requires lex.allowComments && (mark == "#" || mark == "//")
    requires '\n' !in body && (rest == "" || rest[0] == '\n')
    ensures WithoutComments(Tokens(lex, mark + body + rest, afterSimple))
      == WithoutComments(Tokens(lex, rest, afterSimple))
  {
    hide PullToken;
    PullsComment(lex, mark, body, rest);
    TokensFrom(lex, mark + body + rest, afterSimple, Comment(body), rest);
    assert ([Comment(body)] + Tokens(lex, rest, false))[1..] == Tokens(lex, rest, false);
    if rest == "" {
      PullEnd(lex, rest);
      TokensFrom(lex, rest, afterSimple, End, []);
      TokensFrom(lex, rest, false, End, []);
    } else {
      PullNewline(lex, rest);
      TokensFrom(lex, rest, afterSimple, Newline, rest[1..]);
      TokensFrom(lex, rest, false, Newline, rest[1..]);
    }
  }

  // ---------------------------------------------------------------- quoted strings

  /** The ways to write a character between quotes: as it is unless it is a quote, a backslash or a
      control character, by a short escape, or by `\u` and four characters read as `strtol` reads them. */
  predicate Spells(e: string, c: char) {
    || (e == [c] && c != '"' && c != '\\' && c >= ' ' && c != 127 as char)
    || (c == '"' && e == "\\\"") || (c == '\\' && e == "\\\\") || (c == '/' && e == "\\/")
    || (c == 8 as char && e == "\\b") || (c == 12 as char && e == "\\f") || (c == '\n' && e == "\\n")
    || (c == '\r' && e == "\\r") || (c == '\t' && e == "\\t")
    || (|e| == 6 && e[..2] == "\\u" && c == (StrToL(e[2..]) % 256) as char)
  }

  predicate SpellsAll(es: seq<string>, text: string) {
    |es| == |text| && forall i | 0 <= i < |es| :: Spells(es[i], text[i])
  }

  function Joined(es: seq<string>): (s: string) {
    if es == [] then "" else es[0] + Joined(es[1..])
  }

  lemma SpelledOut(e: string, c: char, s: string)
    requires Spells(e, c)
    ensures if e[0] == '\\' then e + s != "" && PullEscape((e + s)[1..]) == Scanned(c, s)
            else e == [c] && c != '"' && !IsControl(c)
  {
    hide StrToL;
    var text := e + s;
    if e[0] == '\\' {
      assert text[1..] == e[1..] + s && |e| >= 2;
      if |e| == 6 {
        assert text[1..][1..5] == e[2..] && text[1..][5..] == s;
      } else {
        assert text[1..][1..] == s;
      }
    }
  }

  /** One spelled character is read as that character. */
  lemma SpelledIsRead(e: string, c: char, s: string, acc: string)
    requires Spells(e, c)
    ensures ScanQuoted(e + s, acc) == ScanQuoted(s, acc + [c])
  {
    hide PullEscape, ScanQuoted, Spells;
    SpelledOut(e, c, s);
    var text := e + s;
    if e[0] == '\\' {
      assert text[0] == '\\';
      EscapeStep(text, acc, c, s);
    } else {
      assert text[0] == c && text[1..] == s;
      PlainStep(text, acc);
    }
  }

  lemma PlainStep(s: string, acc: string)
    requires s != "" && s[0] != '\\' && s[0] != '"' && !IsControl(s[0])
    ensures ScanQuoted(s, acc) == ScanQuoted(s[1..], acc + [s[0]])
  {
  }

  lemma {:induction false} SpelledAreRead(es: seq<string>, text: string, rest: string, acc: string)
    requires SpellsAll(es, text)
    ensures ScanQuoted(Joined(es) + "\"" + rest, acc) == Scanned(acc + text, rest)
    decreases |es|
  {
    hide Spells, ScanQuoted;
    if es == [] {
      var close := "\"" + rest;
      assert Joined(es) + "\"" + rest == close && close[1..] == rest && acc + text == acc;
      CloseStep(close, acc);
    } else {
      var more := Joined(es[1..]) + "\"" + rest;
      assert Joined(es) + "\"" + rest == es[0] + more;
      SpelledIsRead(es[0], text[0], more, acc);
      SpelledAreRead(es[1..], text[1..], rest, acc + [text[0]]);
      assert acc + [text[0]] + text[1..] == acc + text;
    }
  }

  lemma CloseStep(s: string, acc: string)
    requires s != "" && s[0] == '"'
    ensures ScanQuoted(s, acc) == Scanned(acc, s[1..])
  {
  }

  /** Whatever is read was spelled. */
  lemma {:induction false} ReadIsSpelled(s: string, acc: string) returns (es: seq<string>, text: string)
    requires ScanQuoted(s, acc).Scanned?
    ensures SpellsAll(es, text) && ScanQuoted(s, acc).result == acc + text
    ensures s == Joined(es) + "\"" + ScanQuoted(s, acc).rest
    decreases |s|
  {
    hide Spells, PullEscape, SpellsAll, ScanQuoted, Joined;
    ReadStarts(s, acc);
    if s[0] == '"' {
      es, text := [], "";
      NothingSpelled();
      CloseStep(s, acc);
      assert s == "" + "\"" + s[1..];
      assert acc + "" == acc;
    } else {
      var e, c, rest := [s[0]], s[0], s[1..];
      if s[0] == '\\' {
        var escaped := PullEscape(s[1..]);
        c, rest := escaped.result, escaped.rest;
        e := s[..|s| - |rest|];
        EscapeIsSpelled(s);
        EscapeStep(s, acc, c, rest);
      } else {
        PlainIsSpelled(c);
        PlainStep(s, acc);
      }
      assert s == e + rest;
      var more, others := ReadIsSpelled(rest, acc + [c]);
      es, text := [e] + more, [c] + others;
      MoreSpelled(e, c, more, others);
      assert acc + [c] + others == acc + text;
    }
  }

  lemma ReadStarts(s: string, acc: string)
    requires ScanQuoted(s, acc).Scanned?
    ensures s != "" && (s[0] == '\\' ==> PullEscape(s[1..]).Scanned?)
    ensures s[0] != '\\' && s[0] != '"' ==> !IsControl(s[0])
  {
    hide PullEscape;
  }

  lemma NothingSpelled()
    ensures SpellsAll([], "") && Joined([]) == ""
  {
  }

  lemma MoreSpelled(e: string, c: char, es: seq<string>, text: string)
    requires Spells(e, c) && SpellsAll(es, text)
    ensures SpellsAll([e] + es, [c] + text) && Joined([e] + es) == e + Joined(es)
  {
    hide Spells;
    assert ([e] + es)[1..] == es;
  }

  lemma PlainIsSpelled(c: char)
    requires c != '"' && c != '\\' && !IsControl(c)
    ensures Spells([c], c)
  {
  }

  lemma EscapeIsSpelled(s: string)
    requires s != "" && s[0] == '\\' && PullEscape(s[1..]).Scanned?
    ensures var escaped := PullEscape(s[1..]);
      && s == s[..|s| - |escaped.rest|] + escaped.rest && Spells(s[..|s| - |escaped.rest|], escaped.result)
  {
    hide StrToL;
    var escaped := PullEscape(s[1..]);
    var n := |s| - |escaped.rest|;
    if s[1] == 'u' {
      assert escaped.rest == s[6..] && n == 6 && s[..6][2..] == s[1..][1..5];
    } else {
      assert escaped.rest == s[2..] && n == 2 && s[..2] == ['\\', s[1]];
    }
  }

  /** After an opening quote a string is read up to its closing quote exactly if it is spelled so: each
      character in one of these ways, and no other. */
  lemma StringExactly(s: string, text: string, rest: string)
    ensures ScanQuoted(s, "") == Scanned(text, rest) <==>
      exists es :: SpellsAll(es, text) && s == Joined(es) + "\"" + rest
  {
    hide ScanQuoted, SpellsAll;
    if ScanQuoted(s, "") == Scanned(text, rest) {
      var es, read := ReadIsSpelled(s, "");
      assert "" + read == read;
    }
    if exists es :: SpellsAll(es, text) && s == Joined(es) + "\"" + rest {
      var es :| SpellsAll(es, text) && s == Joined(es) + "\"" + rest;
      SpelledAreRead(es, text, rest, "");
      assert "" + text == text;
    }
  }

  // ---------------------------------------------------------------- triple-quoted strings

  const QUOTES := "\"\"\""

  /** Three quotes in a row stand at the end of the text only. */
  ghost predicate NoQuotesInside(body: string) {
    forall i, j | ThreeQuotes(body, i) && i + 3 <= j < |body| :: body[j] == '"'
  }

  predicate ThreeQuotes(body: string, i: int) {
    0 <= i && i + 3 <= |body| && body[i] == '"' && body[i + 1] == '"' && body[i + 2] == '"'
  }

  /** The loop over `done` characters of the text, of which the last `quotes` are quotes. */
  lemma {:induction false} TripleRead(body: string, done: nat, quotes: nat, tail: string)
    requires NoQuotesInside(body) && quotes <= done <= |body| && (tail == "" || tail[0] != '"')
    requires forall i | done - quotes <= i < done :: body[i] == '"'
    ensures ScanTriple(body[done..] + QUOTES + tail, body[..done], quotes) == Scanned(body, tail)
    decreases |body| - done
  {
    var text := body[done..] + QUOTES + tail;
    if done == |body| {
      QuotesEnd(body, quotes, tail);
      assert text == QUOTES + tail && body[..done] == body;
    } else {
      assert text[0] == body[done] && text[1..] == body[done + 1..] + QUOTES + tail;
      assert body[..done] + [body[done]] == body[..done + 1];
      if body[done] == '"' {
        TripleRead(body, done + 1, quotes + 1, tail);
      } else {
        assert quotes >= 3 ==> ThreeQuotes(body, done - quotes);
        TripleRead(body, done + 1, 0, tail);
      }
    }
  }

  lemma QuotesEnd(acc: string, quotes: nat, tail: string)
    requires quotes <= |acc| && (tail == "" || tail[0] != '"')
    ensures ScanTriple(QUOTES + tail, acc, quotes) == Scanned(acc, tail)
  {
    var q := ['"'];
    assert (QUOTES + tail)[1..] == q + q + tail && (q + q + tail)[1..] == q + tail && (q + tail)[1..] == tail;
    assert ScanTriple(QUOTES + tail, acc, quotes) == ScanTriple(q + q + tail, acc + q, quotes + 1);
    assert ScanTriple(q + q + tail, acc + q, quotes + 1) == ScanTriple(q + tail, acc + q + q, quotes + 2);
    assert ScanTriple(q + tail, acc + q + q, quotes + 2) == ScanTriple(tail, acc + q + q + q, quotes + 3);
    assert (acc + q + q + q)[..|acc|] == acc;
  }

  /** Between triple quotes stands the text itself, line breaks, backslashes and single or double quotes
      included, whatever follows but a quote. */
  lemma TripleQuotedIsVerbatim(lex: Lexing, body: string, tail: string)
    requires NoQuotesInside(body) && (tail == "" || tail[0] != '"')
    ensures PullToken(lex, "\"\"\"" + body + "\"\"\"" + tail) == Scanned(Literal(Str(body)), tail)
  {
    hide PullToken, PullQuoted;
    var after := body + QUOTES + tail;
    TripleRead(body, 0, 0, tail);
    assert body[0..] == body && body[..0] == "";
    var text := "\"\"\"" + after;
    assert "\"\"\"" + body + "\"\"\"" + tail == text;
    assert text[0] == '"' && text[1..] == "\"\"" + after;
    PullsQuoted(lex, text);
    PullsTriple(after);
  }

  lemma PullsTriple(after: string)
    requires ScanTriple(after, "", 0).Scanned?
    ensures PullQuoted("\"\"" + after)
      == Scanned(Literal(Str(ScanTriple(after, "", 0).result)), ScanTriple(after, "", 0).rest)
  {
    hide ScanTriple;
    var s := "\"\"" + after;
    assert s[0] == '"' && s[1..] == "\"" + after && s[1..][0] == '"' && s[1..][1..] == after;
    assert ScanQuoted(s, "") == Scanned("", s[1..]);
  }

  // ---------------------------------------------------------------- words on a line

  /** The value of a piece of unquoted text: a keyword by itself is its value, all else is a string. */
  function Said(s: string): (v: Value) {
    if Keyword(s).Some? then Keyword(s).value else Str(s)
  }

  /** Such pieces with the text `s` together. */
  predicate Says(vs: seq<Value>, s: string)
    decreases |vs|
  {
    if vs == [] then s == ""
    else
      var last := vs[|vs| - 1];
      var t := TransformToString(last);
      && t != "" && last == Said(t) && |t| <= |s| && s[|s| - |t|..] == t
      && Says(vs[..|vs| - 1], s[..|s| - |t|])
  }

  lemma SaysMore(vs: seq<Value>, s: string, t: string)
    requires Says(vs, s) && t != ""
    ensures Says(vs + [Said(t)], s + t)
  {
    var v := Said(t);
    assert TransformToString(v) == t;
    assert (vs + [v])[..|vs|] == vs;
    assert (s + t)[|s|..] == t && (s + t)[..|s|] == s;
  }

  lemma {:induction false} SaidJoins(vs: seq<Value>, s: string)
    requires Says(vs, s) && vs != []
    ensures s != "" && Flatten(vs) == vs
    ensures JoinAll([], vs) == Fine([if |vs| == 1 then Said(s) else Str(s)])
    decreases |vs|
  {
    hide TransformToString, Keyword;
    var front, last := vs[..|vs| - 1], vs[|vs| - 1];
    var t := TransformToString(last);
    var before := s[..|s| - |t|];
    assert s == before + t && vs == front + [last];
    SaidIsPlain(t);
    if front == [] {
      assert JoinAll([], []) == Fine([]) && Flatten([]) == [];
    } else {
      SaidJoins(front, before);
      JoinSaid(if |front| == 1 then Said(before) else Str(before), before, t);
    }
  }

  lemma SaidIsPlain(s: string)
    ensures !Said(s).Concatenation? && TransformToString(Said(s)) == s
  {
  }

  lemma JoinSaid(joined: Value, before: string, t: string)
    requires joined == Said(before) || joined == Str(before)
    requires before != "" && t != ""
    ensures Join([joined], Said(t)) == Fine([Str(before + t)])
  {
    SaidIsPlain(before);
    SaidIsPlain(t);
    assert [joined][..0] + [Str(before + t)] == [Str(before + t)];
  }

  /** Pieces join to the text they say. */
  lemma SaidConcatenates(vs: seq<Value>, s: string)
    requires Says(vs, s) && vs != []
    ensures Concatenated(vs) == Fine(Some(if |vs| == 1 then Said(s) else Str(s)))
  {
    hide JoinAll, Flatten;
    SaidJoins(vs, s);
    if |vs| == 1 {
      assert vs == [vs[0]];
      assert vs[..0] == [];
    }
  }

  /** A text of letters, periods and blanks. */
  predicate Wordy(s: string) {
    forall i | 0 <= i < |s| :: IsAlpha(s[i]) || s[i] == '.' || IsBlank(s[i])
  }

  /** The tokens that may follow a value on its line. */
  predicate EndsValue(t: Token) {
    t.Newline? || t.Comma? || t.CloseCurly? || t.CloseSquare? || t.End?
  }

  /** How long the word is that the text begins with. */
  function WordRun(s: string): (n: nat)
    ensures n <= |s| && (n < |s| ==> !Safe([s[n]])) && Safe(s[..n])
  {
    if s != "" && Safe([s[0]]) then
      assert s[..1 + WordRun(s[1..])] == [s[0]] + s[1..][..WordRun(s[1..])];
      1 + WordRun(s[1..])
    else 0
  }

  /** The token of a word, or of the keyword it begins with. */
  lemma WordIsPulled(lex: Lexing, s: string, tail: string) returns (n: nat, t: Token)
    requires s != "" && Wordy(s) && !IsBlank(s[0]) && EndsUnquoted(lex, tail)
    ensures 0 < n <= |s| && PullToken(lex, s + tail) == Scanned(t, s[n..] + tail)
    ensures t == if Keyword(s[..n]).Some? then Literal(Said(s[..n])) else Unquoted(s[..n])
    ensures BlankRun(s + tail) == 0
  {
    hide PullToken, ScanUnquoted, Keyword, EndsUnquoted, TransformToString;
    var w := WordRun(s);
    var word, rest := s[..w], s[w..] + tail;
    assert s + tail == word + rest;
    BlankEnds(lex, s[w..], tail);
    assert w > 0;
    n := ScanSafeText(lex, word, rest, "");
    t := ScanUnquoted(lex, word + rest, "").0;
    assert (word + rest)[0] == s[0];
    WordToken(lex, word + rest);
    assert word[n..] + rest == s[n..] + tail && word[..n] == s[..n] && "" + word[..n] == s[..n];
    ScannedKind(lex, word + rest, "", s[..n]);
  }

  lemma BlankEnds(lex: Lexing, s: string, tail: string)
    requires Wordy(s) && (s != "" ==> !Safe([s[0]])) && EndsUnquoted(lex, tail)
    ensures EndsUnquoted(lex, s + tail)
  {
    if s == "" {
      assert s + tail == tail;
    } else {
      assert (s + tail)[0] == s[0];
    }
  }

  /** What was scanned is a keyword's literal exactly if it is a keyword. */
  lemma {:induction false} ScannedKind(lex: Lexing, s: string, sb: string, text: string)
    requires Contributes(ScanUnquoted(lex, s, sb).0, text) && (sb == "" || Keyword(sb).None?)
    ensures ScanUnquoted(lex, s, sb).0 == if Keyword(text).Some? then Literal(Said(text)) else Unquoted(text)
    decreases |s|
  {
    hide ScanUnquoted;
    ScanStep(lex, s, sb);
    if !EndsUnquoted(lex, s) && Keyword(sb + [s[0]]).None? {
      ScannedKind(lex, s[1..], sb + [s[0]], text);
    }
  }

  lemma {:induction false} BlanksAre(s: string)
    ensures forall i | 0 <= i < BlankRun(s) :: IsBlank(s[i])
  {
    if s != "" && IsBlank(s[0]) {
      BlanksAre(s[1..]);
    }
  }

  /** Blanks before a word do not belong to it. */
  lemma BlanksInFront(lex: Lexing, s: string, tail: string)
    requires s != "" && !IsBlank(s[|s| - 1])
    ensures var b := BlankRun(s);
      && b < |s| && !IsBlank(s[b]) && BlankRun(s + tail) == b && (s + tail)[..b] == s[..b]
      && PullToken(lex, s + tail) == PullToken(lex, s[b..] + tail)
      && (forall i | 0 <= i < b :: IsBlank(s[i]))
  {
    hide PullVisible, IsBlank;
    var b := BlankRun(s);
    BlanksAre(s);
    var blanks, rest := s[..b], s[b..] + tail;
    assert s + tail == blanks + rest;
    BlanksThen(blanks, rest);
    BlanksThen("", rest);
    assert "" + rest == rest && rest[0..] == rest && (blanks + rest)[b..] == rest;
  }

  lemma BlanksAreSaid(s: string)
    requires s != "" && forall i | 0 <= i < |s| :: IsBlank(s[i])
    ensures Said(s) == Str(s) && Keyword(s).None?
  {
    assert IsBlank(s[0]);
  }

  /** One more piece of a value. */
  lemma OnePiece(t: Token, ts: seq<Token>, vs: seq<Value>, text: string, parents: Path)
    requires t == if Keyword(text).Some? then Literal(Said(text)) else Unquoted(text)
    ensures ConsolidateFrom([t] + ts, vs, parents) == ConsolidateFrom(ts, vs + [Said(text)], parents)
  {
    hide ConsolidateFrom, Keyword;
    assert ([t] + ts)[1..] == ts;
    TakesPiece(t, ts, vs, parents);
  }

  lemma TakesPiece(t: Token, ts: seq<Token>, vs: seq<Value>, parents: Path)
    requires t.Literal? || t.Unquoted?
    ensures ConsolidateFrom([t] + ts, vs, parents)
      == ConsolidateFrom(ts, vs + [if t.Literal? then t.value else Str(t.text)], parents)
  {
    hide Concatenated, ParseValue;
    assert ([t] + ts)[1..] == ts && Next(Conf, [t] + ts) == Parsed(t, ts);
    if t.Literal? {
      assert ParseValue(Conf, t, ts, parents) == Parsed(t.value, ts) by { LiteralIsParsed(t.value, ts, parents); }
      assert ParsePiece(t, ts, parents) == Parsed(t.value, ts);
    } else {
      assert ParsePiece(t, ts, parents) == Parsed(Str(t.text), ts);
    }
  }

  lemma LiteralIsParsed(v: Value, ts: seq<Token>, parents: Path)
    ensures ParseValue(Conf, Literal(v), ts, parents) == Parsed(v, ts)
  {
  }

  /** The words of a line, some of them read already. */
  lemma {:induction false} WordsRead(lex: Lexing, s: string, tail: string, afterSimple: bool, vs: seq<Value>,
                                     said: string, parents: Path) returns (all: seq<Value>)
    requires Wordy(s) && (s != "" ==> !IsBlank(s[|s| - 1])) && EndsUnquoted(lex, tail)
    requires Says(vs, said) && (afterSimple <==> vs != []) && (vs == [] ==> s != "" && !IsBlank(s[0]))
    ensures Says(all, said + s) && all != []
    ensures ConsolidateFrom(Tokens(lex, s + tail, afterSimple), vs, parents)
      == ConsolidateFrom(Tokens(lex, tail, true), all, parents)
    decreases |s|
  {
    hide PullToken, Says, Said, Tokens, ConsolidateFrom, EndsUnquoted, Keyword, BlankRun;
    if s == "" {
      all := vs;
      assert s + tail == tail && said + s == said;
    } else {
      var b := BlankRun(s);
      var blanks, rest := s[..b], s[b..];
      BlanksInFront(lex, s, tail);
      var n, t := WordIsPulled(lex, rest, tail);
      TokensFrom(lex, s + tail, afterSimple, t, rest[n..] + tail);
      var ts := Tokens(lex, rest[n..] + tail, true);
      var more := if b == 0 then vs else vs + [Said(blanks)];
      if b > 0 {
        BlanksAreSaid(blanks);
        SaysMore(vs, said, blanks);
        assert Spacing(s + tail, afterSimple, t) == [Unquoted(blanks)];
        assert [Unquoted(blanks)] + [t] + ts == [Unquoted(blanks)] + ([t] + ts);
        OnePiece(Unquoted(blanks), [t] + ts, vs, blanks, parents);
      } else {
        assert said + blanks == said;
        assert [] + [t] + ts == [t] + ts;
      }
      SaysMore(more, said + blanks, rest[..n]);
      OnePiece(t, ts, more, rest[..n], parents);
      all := WordsRead(lex, rest[n..], tail, true, more + [Said(rest[..n])], said + blanks + rest[..n], parents);
      assert said + blanks + rest[..n] + rest[n..] == said + s;
    }
  }

  /** Words on a line, periods among them, are a string with just this text, the blanks between them
      kept; except that `true`, `false` or `null` alone is that value. */
  lemma WordsSayThemselves(lex: Lexing, s: string, tail: string, parents: Path)
    requires s != "" && Wordy(s) && !IsBlank(s[0]) && !IsBlank(s[|s| - 1])
    requires EndsUnquoted(lex, tail) && EndsValue(Tokens(lex, tail, true)[0])
    ensures var v := if s == "true" then Bool(true) else if s == "false" then Bool(false)
                     else if s == "null" then Null else Str(s);
      ConsolidateFrom(Tokens(lex, s + tail, false), [], parents) == Parsed(true, [Literal(v)] + Tokens(lex, tail, true))
  {
    hide Tokens, ConsolidateFrom, EndsUnquoted, Says, StartsWithKeyword, TransformToString;
    NothingSaid();
    var all := [Said(s)];
    if Keyword(s).Some? {
      KeywordIsWhole(s);
      PullsKeyword(lex, s, tail, false);
      assert s[|s|..] + tail == tail && s[..|s|] == s && [] + all == all && "" + s == s;
      OnePiece(Literal(Said(s)), Tokens(lex, tail, true), [], s, parents);
      SaysMore([], "", s);
    } else {
      all := WordsRead(lex, s, tail, false, [], "", parents);
      assert "" + s == s;
    }
    SaidConcatenates(all, s);
    LastPiece(Tokens(lex, tail, true), all, parents);
  }

  lemma KeywordIsWhole(s: string)
    requires Keyword(s).Some?
    ensures StartsWithKeyword(s) && KeywordLength(s) == |s|
  {
  }

  lemma NothingSaid()
    ensures Says([], "")
  {
  }

  lemma LastPiece(ts: seq<Token>, vs: seq<Value>, parents: Path)
    requires ts != [] && EndsValue(ts[0]) && vs != [] && Concatenated(vs).Fine? && Concatenated(vs).value.Some?
    ensures ConsolidateFrom(ts, vs, parents) == Parsed(true, [Literal(Concatenated(vs).value.value)] + ts)
  {
    hide Concatenated;
  }
}

/** Substitutions in a text: between `${` or `${?` and the closing brace stands any text that is a path,
    and the parser makes of it a reference to that path. */
module Substitutions {
  import opened ConfigValues
  import opened Characters
  import opened Concatenations
  import opened Tokenization
  import opened PathSyntax
  import opened Parsing

  // ---------------------------------------------------------------- a brace ends every token

  lemma {:induction false} BlanksBeforeBrace(s: string, tail: string)
    ensures BlankRun(s + "}" + tail) == BlankRun(s)
  {
    var text := s + "}" + tail;
    if s != "" && IsBlank(s[0]) {
      assert text[1..] == s[1..] + "}" + tail;
      BlanksBeforeBrace(s[1..], tail);
    } else if s == "" {
      assert text[0] == '}';
    }
  }

  lemma {:induction false} NumberBeforeBrace(s: string, tail: string)
    ensures NumberRun(s + "}" + tail) == NumberRun(s)
  {
    var text := s + "}" + tail;
    if s != "" && NumberChar(s[0]) {
      assert text[1..] == s[1..] + "}" + tail;
      NumberBeforeBrace(s[1..], tail);
    } else if s == "" {
      assert text[0] == '}';
    }
  }

  lemma EndsBeforeBrace(lex: Lexing, s: string, tail: string)
    ensures EndsUnquoted(lex, s + "}" + tail) <==> EndsUnquoted(lex, s)
    ensures s != "" ==> (StartsComment(lex, s + "}" + tail) <==> StartsComment(lex, s))
  {
    var text := s + "}" + tail;
    assert |s| == 1 ==> text[1] == '}';
    assert s == "" ==> text[0] == '}';
  }

  lemma {:induction false} UnquotedBeforeBrace(lex: Lexing, s: string, sb: string, tail: string)
    ensures var (t, rest) := ScanUnquoted(lex, s, sb);
      ScanUnquoted(lex, s + "}" + tail, sb) == (t, rest + "}" + tail)
    decreases |s|
  {
    hide ScanUnquoted, EndsUnquoted, Keyword;
    var text := s + "}" + tail;
    EndsBeforeBrace(lex, s, tail);
    ScanStep(lex, s, sb);
    ScanStep(lex, text, sb);
    if !EndsUnquoted(lex, s) {
      assert s != "" by { NonEmpty(lex, s); }
      assert text[0] == s[0] && text[1..] == s[1..] + "}" + tail;
      UnquotedBeforeBrace(lex, s[1..], sb + [s[0]], tail);
    }
  }

  lemma NonEmpty(lex: Lexing, s: string)
    requires !EndsUnquoted(lex, s)
    ensures s != ""
  {
  }

  lemma EscapeBeforeBrace(s: string, tail: string)
    requires PullEscape(s).Scanned?
    ensures PullEscape(s + "}" + tail) == Scanned(PullEscape(s).result, PullEscape(s).rest + "}" + tail)
  {
    hide StrToL;
    var text := s + "}" + tail;
    assert text[0] == s[0] && text[1..] == s[1..] + "}" + tail;
    if s[0] == 'u' {
      assert text[1..5] == s[1..5] && text[5..] == s[5..] + "}" + tail;
    }
  }

  lemma {:induction false} QuotedBeforeBrace(s: string, acc: string, tail: string)
    requires ScanQuoted(s, acc).Scanned?
    ensures ScanQuoted(s + "}" + tail, acc)
      == Scanned(ScanQuoted(s, acc).result, ScanQuoted(s, acc).rest + "}" + tail)
    decreases |s|
  {
    hide PullEscape;
    var text := s + "}" + tail;
    assert text[0] == s[0] && text[1..] == s[1..] + "}" + tail;
    if s[0] == '\\' {
      EscapeBeforeBrace(s[1..], tail);
      var escaped := PullEscape(s[1..]);
      QuotedBeforeBrace(escaped.rest, acc + [escaped.result], tail);
    } else if s[0] != '"' {
      QuotedBeforeBrace(s[1..], acc + [s[0]], tail);
    }
  }

  lemma {:induction false} TripleBeforeBrace(s: string, acc: string, quotes: nat, tail: string)
    requires quotes <= |acc| && ScanTriple(s, acc, quotes).Scanned?
    ensures ScanTriple(s + "}" + tail, acc, quotes)
      == Scanned(ScanTriple(s, acc, quotes).result, ScanTriple(s, acc, quotes).rest + "}" + tail)
    decreases |s|
  {
    var text := s + "}" + tail;
    if s == "" {
      assert text[0] == '}';
    } else {
      assert text[0] == s[0] && text[1..] == s[1..] + "}" + tail;
      if s[0] == '"' {
        TripleBeforeBrace(s[1..], acc + ['"'], quotes + 1, tail);
      } else if quotes < 3 {
        TripleBeforeBrace(s[1..], acc + [s[0]], 0, tail);
      }
    }
  }

  lemma PullQuotedBeforeBrace(s: string, tail: string)
    requires PullQuoted(s).Scanned?
    ensures PullQuoted(s + "}" + tail) == Scanned(PullQuoted(s).result, PullQuoted(s).rest + "}" + tail)
  {
    hide ScanQuoted, ScanTriple;
    var quoted := ScanQuoted(s, "");
    QuotedBeforeBrace(s, "", tail);
    var rest := quoted.rest + "}" + tail;
    if quoted.rest == "" {
      assert rest[0] == '}';
    } else {
      assert rest[0] == quoted.rest[0] && rest[1..] == quoted.rest[1..] + "}" + tail;
      if quoted.result == "" && quoted.rest[0] == '"' {
        TripleBeforeBrace(quoted.rest[1..], "", 0, tail);
      }
    }
  }

  /** The tokens that can stand in a path. */
  predicate PathToken(t: Token) {
    t.Literal? || t.Unquoted?
  }

  lemma VisibleBeforeBrace(lex: Lexing, s: string, tail: string)
    requires s != "" && !IsBlank(s[0]) && PullVisible(lex, s).Scanned? && PathToken(PullVisible(lex, s).result)
    ensures PullVisible(lex, s + "}" + tail)
      == Scanned(PullVisible(lex, s).result, PullVisible(lex, s).rest + "}" + tail)
  {
    hide PullQuoted, ScanUnquoted, NumberRun, NumberToken, PullSubstitution, StartsComment, Punctuation, LineRun;
    var text := s + "}" + tail;
    assert text[0] == s[0] && text[1..] == s[1..] + "}" + tail;
    EndsBeforeBrace(lex, s, tail);
    PunctuationIsNoPath(s[0]);
    if s[0] == '"' {
      PullQuotedBeforeBrace(s[1..], tail);
    } else if IsDigit(s[0]) || s[0] == '-' {
      var n := NumberRun(s);
      NumberBeforeBrace(s, tail);
      assert text[..n] == s[..n] && text[n..] == s[n..] + "}" + tail;
    } else {
      UnquotedBeforeBrace(lex, s, "", tail);
    }
  }

  lemma PunctuationIsNoPath(c: char)
    ensures Punctuation(c).Some? ==> !PathToken(Punctuation(c).value)
  {
  }

  /** A token of a path is the same before a brace. */
  lemma TokenBeforeBrace(lex: Lexing, s: string, tail: string)
    requires PullToken(lex, s).Scanned? && PathToken(PullToken(lex, s).result)
    ensures PullToken(lex, s + "}" + tail) == Scanned(PullToken(lex, s).result, PullToken(lex, s).rest + "}" + tail)
  {
    hide PullVisible;
    var n := BlankRun(s);
    BlanksBeforeBrace(s, tail);
    assert (s + "}" + tail)[n..] == s[n..] + "}" + tail;
    VisibleBeforeBrace(lex, s[n..], tail);
  }

  /** Where a path's text has ended, the brace is the next token. */
  lemma BraceAtEnd(lex: Lexing, s: string, tail: string)
    requires BlankRun(s) == |s|
    ensures PullToken(lex, s + "}" + tail) == Scanned(CloseCurly, tail)
  {
    hide PullQuoted, ScanUnquoted, NumberToken, PullSubstitution;
    BlanksBeforeBrace(s, tail);
    assert (s + "}" + tail)[|s|..] == "}" + tail && ("}" + tail)[1..] == tail;
  }

  // ---------------------------------------------------------------- the tokens of a substitution

  /** The tokens of a text, which are the path tokens `ts`. */
  lemma {:induction false} ExpressionTokens(lex: Lexing, s: string, afterSimple: bool, buf: seq<Element>,
                                            before: seq<Token>, tail: string) returns (ts: seq<Token>)
    requires buf != [] && AddPathTokens(buf, Tokens(lex, s, afterSimple)).Some?
    ensures Tokens(lex, s, afterSimple) == ts + [End]
    ensures AddPathTokens(buf, ts) == AddPathTokens(buf, Tokens(lex, s, afterSimple))
    ensures PullExpression(lex, s + "}" + tail, afterSimple, before) == Scanned(before + ts, tail)
    decreases |s|
  {
    hide PullToken, AddPathText, Tokens;
    var pulled := PullToken(lex, s);
    var all := Tokens(lex, s, afterSimple);
    FirstToken(lex, s, afterSimple, buf);
    TokensFrom(lex, s, afterSimple, pulled.result, pulled.rest);
    if pulled.result.End? {
      ts := [];
      BraceAtEnd(lex, s, tail);
      assert AddPathTokens(buf, [End]) == AddPathTokens(buf, []);
      assert before + [] == before;
    } else {
      var spacing := Spacing(s, afterSimple, pulled.result);
      var first := spacing + [pulled.result];
      TokenBeforeBrace(lex, s, tail);
      SameSpacing(s, afterSimple, pulled.result, tail);
      var more := Tokens(lex, pulled.rest, Simple(pulled.result));
      assert all == first + more;
      AddInTwo(buf, first, more);
      var within := AddPathTokens(buf, first).value;
      var rest := ExpressionTokens(lex, pulled.rest, Simple(pulled.result), within, before + first, tail);
      ts := first + rest;
      AddInTwo(buf, first, rest);
      assert all == ts + [End] && before + first + rest == before + ts;
      assert before + spacing + [pulled.result] == before + first;
    }
  }

  /** A text whose tokens are a path's begins with one of them, or has ended. */
  lemma FirstToken(lex: Lexing, s: string, afterSimple: bool, buf: seq<Element>)
    requires buf != [] && AddPathTokens(buf, Tokens(lex, s, afterSimple)).Some?
    ensures PullToken(lex, s).Scanned?
    ensures PullToken(lex, s).result.End? || PathToken(PullToken(lex, s).result)
    ensures PullToken(lex, s).result.End? ==> BlankRun(s) == |s|
  {
    hide AddPathText;
    var pulled := PullToken(lex, s);
    if pulled.Scanned? && !pulled.result.End? {
      var spacing, more := Spacing(s, afterSimple, pulled.result), Tokens(lex, pulled.rest, Simple(pulled.result));
      assert Tokens(lex, s, afterSimple) == spacing + [pulled.result] + more;
      assert (spacing + [pulled.result] + more)[|spacing|] == pulled.result;
      if spacing != [] {
        assert (spacing + [pulled.result] + more)[1..] == [pulled.result] + more;
      }
    }
  }

  lemma SameSpacing(s: string, afterSimple: bool, t: Token, tail: string)
    ensures Spacing(s + "}" + tail, afterSimple, t) == Spacing(s, afterSimple, t)
  {
    BlanksBeforeBrace(s, tail);
    assert (s + "}" + tail)[..BlankRun(s)] == s[..BlankRun(s)];
  }

  /** Tokens can be added in two runs. */
  lemma {:induction false} AddInTwo(buf: seq<Element>, first: seq<Token>, more: seq<Token>)
    requires buf != []
    ensures var within := AddPathTokens(buf, first);
      AddPathTokens(buf, first + more) == if within.None? then None else AddPathTokens(within.value, more)
    decreases |first|
  {
    hide AddPathText;
    if first == [] {
      assert first + more == more;
    } else {
      assert (first + more)[1..] == first[1..] + more;
      match first[0]
      case End => AddInTwo(buf, first[1..], more);
      case Literal(v) => AddInTwo(AddPathText(buf, v.Str?, TransformToString(v)), first[1..], more);
      case Unquoted(text) => AddInTwo(AddPathText(buf, false, text), first[1..], more);
      case _ =>
    }
  }

  // ---------------------------------------------------------------- substitutions

  function Opening(optional: bool): (s: string) {
    if optional then "${?" else "${"
  }

  /** The text of a path between the braces becomes the substitution's tokens, which are that path, and
      the question mark alone makes the substitution optional. */
  lemma SubstitutionPulled(lex: Lexing, optional: bool, s: string, tail: string)
    requires FullParsePath(lex, s).Some?
    ensures var pulled := PullToken(lex, Opening(optional) + s + "}" + tail);
      && pulled.Scanned? && pulled.rest == tail && pulled.result.Substitution?
      && pulled.result.optional == optional
      && ParsePathExpression(pulled.result.expression) == FullParsePath(lex, s)
  {
    hide PullExpression, AddPathTokens, Tokens, Complete, Texts;
    var text := Opening(optional) + s + "}" + tail;
    var ts := ExpressionTokens(lex, s, false, [Fresh], [], tail);
    assert [] + ts == ts;
    PathTextStarts(lex, s);
    assert ts != [] by { NothingIsNoPath(); }
    if optional {
      assert text[2] == '?' && text[3..] == s + "}" + tail;
    } else {
      assert text[2] == s[0] && text[2..] == s + "}" + tail;
    }
    DollarPulls(lex, text);
  }

  lemma DollarPulls(lex: Lexing, s: string)
    requires s != "" && s[0] == '$'
    ensures PullToken(lex, s) == PullSubstitution(lex, s)
  {
    hide PullSubstitution, PullQuoted, ScanUnquoted, NumberToken;
    assert BlankRun(s) == 0 && s[0..] == s;
  }

  lemma NothingIsNoPath()
    ensures AddPathTokens([Fresh], []) == Some([Fresh]) && !Complete([Fresh])
  {
    assert [Fresh][0].text == "";
  }

  /** No path text is empty or begins with a question mark. */
  lemma PathTextStarts(lex: Lexing, s: string)
    requires FullParsePath(lex, s).Some?
    ensures s != "" && s[0] != '?'
  {
    hide PullToken, AddPathText, Complete;
    NothingIsNoPath();
    if s == "" {
      EndOnly(lex, [Fresh], false);
    } else if s[0] == '?' {
      QuestionIsBad(lex, s);
    }
  }

  lemma QuestionIsBad(lex: Lexing, s: string)
    requires s != "" && s[0] == '?'
    ensures PullToken(lex, s) == Bad
  {
    hide PullSubstitution, PullQuoted, ScanUnquoted, NumberToken;
    assert BlankRun(s) == 0 && s[0..] == s;
  }

  /** `${path}` is parsed as a required reference to the path and `${?path}` as an optional one, for
      every text that is a path, whatever follows the closing brace. */
  lemma ReferenceIsParsed(lex: Lexing, optional: bool, s: string, tail: string, ts: seq<Token>, parents: Path)
    requires FullParsePath(lex, s).Some?
    ensures var pulled := PullToken(lex, Opening(optional) + s + "}" + tail);
      && pulled.Scanned? && pulled.rest == tail
      && var piece := ParsePiece(pulled.result, ts, parents);
         && piece.Parsed? && piece.rest == ts && piece.result.Reference?
         && piece.result.path == FullParsePath(lex, s).value
         && piece.result.optional == optional && piece.result.prefixLength == 0
  {
    hide PullToken, FullParsePath, ParsePathExpression;
    SubstitutionPulled(lex, optional, s, tail);
  }

  /** In particular for the rendered text of a path: `${a.b."c d"}` refers to `a`, `b`, `c d`. */
  lemma RenderedReference(lex: Lexing, optional: bool, p: Path, tail: string, ts: seq<Token>, parents: Path)
    requires p != [] && SevenBitPath(p) && (NeedsQuotes(p[0]) || WordAfterKeywords(p[0]))
    ensures var pulled := PullToken(lex, (if optional then "${?" else "${") + RenderPath(p) + "}" + tail);
      && pulled.Scanned? && pulled.rest == tail
      && var piece := ParsePiece(pulled.result, ts, parents);
         && piece.Parsed? && piece.rest == ts && piece.result.Reference? && piece.result.path == p
         && piece.result.optional == optional && piece.result.prefixLength == 0
  {
    hide PullToken, AddPathTokens, Tokens, RenderPath, WordAfterKeywords, NeedsQuotes;
    RenderedElements(lex, p);
    RenderedKeys(p);
    assert FullParsePath(lex, RenderPath(p)) == Some(p);
    ReferenceIsParsed(lex, optional, RenderPath(p), tail, ts, parents);
  }
}

/** The tokenizer as the source runs it: a reader position, a push-back buffer, a whitespace saver
    and a queue of tokens, all changed step by step.

    Every method is proved against its counterpart in `Tokenization`.  The push-back buffer never
    holds more than two characters, so the "put back three times" exception is never thrown. */
module TokenStreams {
  import opened ConfigValues
  import opened Characters
  import opened Tokenization

  class WhitespaceSaver {
    var whitespace: string
    var lastTokenWasSimpleValue: bool

    constructor ()
      ensures whitespace == "" && !lastTokenWasSimpleValue
    {
      whitespace, lastTokenWasSimpleValue := "", false;
    }

    method Add(c: char)
      modifies this
      ensures lastTokenWasSimpleValue == old(lastTokenWasSimpleValue)
      ensures whitespace == old(whitespace) + if lastTokenWasSimpleValue then [c] else []
    {
      if lastTokenWasSimpleValue {
        whitespace := whitespace + [c];
      }
    }

    /** The saved whitespace as a token, when it stands between two simple values. */
    method Check(t: Token) returns (space: seq<Token>)
      modifies this
      ensures whitespace == "" && lastTokenWasSimpleValue == Simple(t)
      ensures space == if old(lastTokenWasSimpleValue) && Simple(t) && old(whitespace) != ""
        then [Unquoted(old(whitespace))] else []
    {
      space := [];
      if Simple(t) {
        if lastTokenWasSimpleValue {
          if whitespace != "" {
            space := [Unquoted(whitespace)];
            whitespace := "";
          }
        } else {
          lastTokenWasSimpleValue, whitespace := true, "";
        }
      } else {
        lastTokenWasSimpleValue, whitespace := false, "";
      }
    }
  }

  /** The characters in a push-back buffer; `None` is the end of the file. */
  function Text(buffer: seq<Option<char>>): (s: string) {
    if buffer == [] then [] else (if buffer[0].Some? then [buffer[0].value] else []) + Text(buffer[1..])
  }

  lemma FractionalFrom(text: string, c: char)
    ensures !Fractional([])
    ensures Fractional(text + [c]) <==> Fractional(text) || c == '.' || c == 'e' || c == 'E'
  {
  }

  /** A tokenizer problem (`None`) or a token. */
  ghost predicate Pulls(t: Option<Token>, rest: string, spec: Scan<Token>) {
    if spec.Bad? then t == None else t == Some(spec.result) && rest == spec.rest
  }

  class TokenStream {
    const input: string
    const lex: Lexing
    var position: nat
    var buffer: seq<Option<char>>
    var tokens: seq<Token>
    const saver: WhitespaceSaver
    /** The text still to be read. */
    ghost var rest: string

    ghost predicate Valid()
      reads this`position, this`buffer, this`rest
    {
      && position <= |input| && |buffer| <= 2 && rest == Text(buffer) + input[position..]
      && forall i | 0 <= i < |buffer| && buffer[i].None? :: i == |buffer| - 1 && position == |input|
    }

    constructor (text: string, lexing: Lexing)
      ensures Valid() && rest == text && lex == lexing && tokens == [Start]
      ensures fresh(saver) && saver.whitespace == "" && !saver.lastTokenWasSimpleValue
    {
      input, lex, position, buffer, tokens, rest := text, lexing, 0, [], [Start], text;
      saver := new WhitespaceSaver();
    }

    method NextCharRaw() returns (c: Option<char>)
      requires Valid()
      modifies this`position, this`buffer, this`rest
      ensures Valid() && |buffer| <= 1 && (old(|buffer|) <= 1 ==> buffer == [])
      ensures old(rest) == [] ==> c == None && rest == [] && buffer == []
      ensures old(rest) != [] ==> c == Some(old(rest)[0]) && rest == old(rest)[1..]
    {
      if buffer == [] {
        if position >= |input| {
          return None;
        }
        c := Some(input[position]);
        position := position + 1;
      } else {
        c := buffer[0];
        buffer := buffer[1..];
      }
      rest := Text(buffer) + input[position..];
    }

    method PutBack(c: Option<char>)
      requires Valid() && |buffer| <= 1
      requires c == None ==> rest == [] && buffer == []
      modifies this`buffer, this`rest
      ensures Valid() && |buffer| == old(|buffer|) + 1
      ensures rest == (if c.Some? then [c.value] else []) + old(rest)
    {
      assert c == None ==> position == |input|;
      buffer := [c] + buffer;
      rest := Text(buffer) + input[position..];
    }

    /** Whether `c`, just read, starts a comment; reads ahead and puts back. */
    method StartOfComment(c: char) returns (starts: bool)
      requires Valid() && |buffer| <= 1
      modifies this`position, this`buffer, this`rest
      ensures Valid() && |buffer| <= 1 && rest == old(rest)
      ensures starts == StartsComment(lex, [c] + rest)
    {
      hide Valid;
      if !lex.allowComments {
        return false;
      }
      if c == '#' {
        return true;
      }
      if c != '/' {
        return false;
      }
      var maybeSecondSlash := NextCharRaw();
      PutBack(maybeSecondSlash);
      assert rest == old(rest);
      return maybeSecondSlash == Some('/');
    }

    method NextCharAfterWhitespace(whitespace: WhitespaceSaver) returns (c: Option<char>)
      requires Valid() && whitespace.whitespace == ""
      modifies this`position, this`buffer, this`rest, whitespace
      ensures Valid() && |buffer| <= 1
      ensures whitespace.lastTokenWasSimpleValue == old(whitespace.lastTokenWasSimpleValue)
      ensures var s := old(rest); var n := BlankRun(s);
        && whitespace.whitespace == (if whitespace.lastTokenWasSimpleValue then s[..n] else "")
        && (n == |s| ==> c == None && rest == [] && buffer == [])
        && (n < |s| ==> c == Some(s[n]) && rest == s[n + 1..])
    {
      hide Valid;
      ghost var s := rest;
      ghost var k := 0;
      while true
        invariant Valid() && k <= |s| && rest == s[k..]
        invariant BlankRun(s) == k + BlankRun(s[k..])
        invariant whitespace.lastTokenWasSimpleValue == old(whitespace.lastTokenWasSimpleValue)
        invariant whitespace.whitespace == (if whitespace.lastTokenWasSimpleValue then s[..k] else "")
        decreases |s| - k
      {
        c := NextCharRaw();
        if c == None || !IsBlank(c.value) {
          return;
        }
        assert s[k..][1..] == s[k + 1..] && s[..k] + [s[k]] == s[..k + 1];
        whitespace.Add(c.value);
        k := k + 1;
      }
    }

    method PullComment(first: char) returns (t: Token)
      requires Valid() && |buffer| <= 1 && StartsComment(lex, [first] + rest)
      modifies this`position, this`buffer, this`rest
      ensures Valid() && Scanned(t, rest) == PullVisible(lex, [first] + old(rest))
    {
      hide Valid;
      if first == '/' {
        var discard := NextCharRaw();
        assert discard == Some('/');
      }
      assert rest == if first == '/' then ([first] + old(rest))[2..] else ([first] + old(rest))[1..];
      var text := PullLine();
      t := Comment(text);
    }

    method PullLine() returns (text: string)
      requires Valid()
      modifies this`position, this`buffer, this`rest
      ensures Valid()
      ensures var n := LineRun(old(rest)); text == old(rest)[..n] && rest == old(rest)[n..]
    {
      hide Valid;
      ghost var body := rest;
      text := "";
      while true
        invariant Valid() && |text| <= |body| && text == body[..|text|] && rest == body[|text|..]
        invariant LineRun(body) == |text| + LineRun(body[|text|..])
        decreases |body| - |text|
      {
        var c := NextCharRaw();
        if c == None || c == Some('\n') {
          PutBack(c);
          return;
        }
        assert body[|text|..][1..] == body[|text| + 1..];
        text := text + [c.value];
      }
    }

    method PullUnquotedText() returns (t: Token)
      requires Valid()
      modifies this`position, this`buffer, this`rest
      ensures Valid() && (t, rest) == ScanUnquoted(lex, old(rest), "")
    {
      hide Valid;
      ghost var s := rest;
      var sb := "";
      var c := NextCharRaw();
      ghost var here := s;
      while true
        invariant Valid() && |buffer| <= 1
        invariant ScanUnquoted(lex, s, "") == ScanUnquoted(lex, here, sb)
        invariant here == [] ==> c == None && rest == [] && buffer == []
        invariant here != [] ==> c == Some(here[0]) && rest == here[1..]
        decreases |here|
      {
        if c == None || StopsUnquoted(c.value) || IsSpace(c.value) {
          break;
        }
        assert here == [c.value] + rest;
        var comment := StartOfComment(c.value);
        if comment {
          break;
        }
        sb := sb + [c.value];
        if |sb| == 4 {
          if sb == "true" {
            return Literal(Bool(true));
          } else if sb == "null" {
            return Literal(Null);
          }
        } else if |sb| == 5 {
          if sb == "false" {
            return Literal(Bool(false));
          }
        }
        here := here[1..];
        c := NextCharRaw();
      }
      PutBack(c);
      assert rest == here;
      t := Unquoted(sb);
    }

    method PullNumber(first: char) returns (t: Option<Token>)
      requires Valid() && |buffer| <= 1 && NumberChar(first)
      modifies this`position, this`buffer, this`rest
      ensures Valid()
      ensures var s := [first] + old(rest); var n := NumberRun(s);
        t == NumberToken(lex, s[..n]) && rest == s[n..]
    {
      hide Valid, Fractional, NumberChar, ParseInt64;
      ghost var s := [first] + rest;
      var text := [first];
      FractionalFrom([], first);
      assert [] + [first] == text;
      var containedDecimalOrE := first == '.' || first == 'e' || first == 'E';
      var c := NextCharRaw();
      assert s[1..] == old(rest) && NumberRun(s) == 1 + NumberRun(s[1..]);
      while c != None && NumberChar(c.value)
        invariant Valid() && |buffer| <= 1
        invariant 1 <= |text| <= |s| && text == s[..|text|]
        invariant NumberRun(s) == |text| + NumberRun(s[|text|..])
        invariant containedDecimalOrE == Fractional(text)
        invariant |text| == |s| ==> c == None && rest == [] && buffer == []
        invariant |text| < |s| ==> c == Some(s[|text|]) && rest == s[|text| + 1..]
        decreases |s| - |text|
      {
        if c.value == '.' || c.value == 'e' || c.value == 'E' {
          containedDecimalOrE := true;
        }
        assert s[|text|..][1..] == s[|text| + 1..] && s[..|text|] + [s[|text|]] == s[..|text| + 1];
        FractionalFrom(text, c.value);
        text := text + [c.value];
        c := NextCharRaw();
      }
      PutBack(c);
      assert NumberRun(s) == |text| && rest == s[|text|..];
      if containedDecimalOrE {
        var v := lex.floating(text);
        t := if v.Some? then Some(Literal(v.value)) else None;
      } else {
        var n := ParseInt64(text);
        t := if n.Some? then Some(Literal(Number(n.value, text))) else None;
      }
    }

    method PullEscapeSequence() returns (c: Option<char>)
      requires Valid()
      modifies this`position, this`buffer, this`rest
      ensures Valid()
      ensures var spec := PullEscape(old(rest));
        if spec.Bad? then c == None else c == Some(spec.result) && rest == spec.rest
    {
      hide Valid;
      ghost var s := rest;
      var escaped := NextCharRaw();
      if escaped == None {
        return None;
      }
      match escaped.value
      case '"' => c := Some('"');
      case '\\' => c := Some('\\');
      case '/' => c := Some('/');
      case 'b' => c := Some(8 as char);
      case 'f' => c := Some(12 as char);
      case 'n' => c := Some('\n');
      case 'r' => c := Some('\r');
      case 't' => c := Some('\t');
      case 'u' =>
        assert |s| >= 5 ==> s[1..][..4] == s[1..5] && s[1..][4..] == s[5..];
        var digits := PullHexDigits();
        c := if digits == None then None else Some((StrToL(digits.value) % 256) as char);
      case _ => c := None;
    }

    method PullHexDigits() returns (digits: Option<string>)
      requires Valid()
      modifies this`position, this`buffer, this`rest
      ensures Valid()
      ensures if old(|rest|) < 4 then digits == None else digits == Some(old(rest)[..4]) && rest == old(rest)[4..]
    {
      hide Valid;
      ghost var from := rest;
      var read := "";
      while |read| < 4
        invariant Valid() && |read| <= 4 && |read| <= |from|
        invariant read == from[..|read|] && rest == from[|read|..]
      {
        var digit := NextCharRaw();
        if digit == None {
          return None;
        }
        assert from[..|read|] + [from[|read|]] == from[..|read| + 1];
        read := read + [digit.value];
      }
      digits := Some(read);
    }

    method AppendTripleQuotedString() returns (text: Option<string>)
      requires Valid()
      modifies this`position, this`buffer, this`rest
      ensures Valid()
      ensures var spec := ScanTriple(old(rest), "", 0);
        if spec.Bad? then text == None else text == Some(spec.result) && rest == spec.rest
    {
      hide Valid;
      var s: string := "";
      var consecutiveQuotes := 0;
      while true
        invariant Valid() && consecutiveQuotes <= |s|
        invariant ScanTriple(old(rest), "", 0) == ScanTriple(rest, s, consecutiveQuotes)
        decreases |rest|
      {
        var c := NextCharRaw();
        if c == Some('"') {
          consecutiveQuotes := consecutiveQuotes + 1;
        } else if consecutiveQuotes >= 3 {
          PutBack(c);
          return Some(s[..|s| - 3]);
        } else {
          consecutiveQuotes := 0;
          if c == None {
            return None;
          }
        }
        s := s + [c.value];
      }
    }

    method PullQuotedString() returns (t: Option<Token>)
      requires Valid()
      modifies this`position, this`buffer, this`rest
      ensures Valid() && Pulls(t, rest, PullQuoted(old(rest)))
    {
      hide Valid;
      var s := "";
      ghost var from := rest;
      while true
        invariant Valid() && ScanQuoted(from, "") == ScanQuoted(rest, s)
        decreases |rest|
      {
        var c := NextCharRaw();
        if c == None {
          return None;
        }
        if c == Some('\\') {
          var escaped := PullEscapeSequence();
          if escaped == None {
            return None;
          }
          s := s + [escaped.value];
        } else if c == Some('"') {
          break;
        } else if IsControl(c.value) {
          return None;
        } else {
          s := s + [c.value];
        }
      }
      if s == "" {
        var third := NextCharRaw();
        if third == Some('"') {
          var triple := AppendTripleQuotedString();
          return if triple == None then None else Some(Literal(Str(triple.value)));
        }
        PutBack(third);
      }
      t := Some(Literal(Str(s)));
    }

    method PullSubstitutionToken() returns (t: Option<Token>)
      requires Valid() && |buffer| <= 1
      modifies this`position, this`buffer, this`rest
      ensures Valid() && Pulls(t, rest, PullSubstitution(lex, ['$'] + old(rest)))
      decreases |rest|, 3
    {
      hide Valid;
      ghost var s := ['$'] + rest;
      var c := NextCharRaw();
      if c != Some('{') {
        return None;
      }
      assert rest == s[2..];
      var optional := false;
      c := NextCharRaw();
      if c == Some('?') {
        optional := true;
        assert rest == s[3..];
      } else {
        PutBack(c);
        assert rest == s[2..];
      }
      var expression := PullExpressionTokens();
      t := if expression == None then None else Some(Substitution(optional, expression.value));
    }

    method PullExpressionTokens() returns (r: Option<seq<Token>>)
      requires Valid()
      modifies this`position, this`buffer, this`rest
      ensures Valid()
      ensures var spec := PullExpression(lex, old(rest), false, []);
        if spec.Bad? then r == None else r == Some(spec.result) && rest == spec.rest
      decreases |rest|, 6
    {
      hide Valid, PullToken, Simple;
      var whitespace := new WhitespaceSaver();
      var expression: seq<Token> := [];
      ghost var from := rest;
      while true
        invariant Valid() && |rest| <= |from| && whitespace.whitespace == "" && fresh(whitespace)
        invariant PullExpression(lex, from, false, [])
          == PullExpression(lex, rest, whitespace.lastTokenWasSimpleValue, expression)
        decreases |rest|
      {
        var t := PullNextToken(whitespace);
        if t == None {
          return None;
        }
        if t.value == CloseCurly {
          return Some(expression);
        } else if t.value == End {
          return None;
        }
        var space := whitespace.Check(t.value);
        expression := expression + space + [t.value];
      }
    }

    method PullNextToken(whitespace: WhitespaceSaver) returns (t: Option<Token>)
      requires Valid() && whitespace.whitespace == ""
      modifies this`position, this`buffer, this`rest, whitespace
      ensures Valid() && Pulls(t, rest, PullToken(lex, old(rest)))
      ensures whitespace.lastTokenWasSimpleValue == old(whitespace.lastTokenWasSimpleValue)
      ensures whitespace.whitespace
        == if whitespace.lastTokenWasSimpleValue then old(rest[..BlankRun(rest)]) else ""
      decreases |rest|, 5
    {
      hide Valid, PullQuoted, PullSubstitution, NumberToken, NumberRun, ScanUnquoted, StopsUnquoted;
      ghost var visible := rest[BlankRun(rest)..];
      var c := NextCharAfterWhitespace(whitespace);
      if c == None {
        return Some(End);
      }
      assert visible == [c.value] + rest;
      assert visible[1..] == rest;
      if c == Some('\n') {
        return Some(Newline);
      }
      var comment := StartOfComment(c.value);
      if comment {
        var text := PullComment(c.value);
        return Some(text);
      }
      t := PullVisibleToken(c.value);
    }

    /** The switch of `pull_next_token`, on a character that is no blank, newline or comment. */
    method PullVisibleToken(first: char) returns (t: Option<Token>)
      requires Valid() && |buffer| <= 1 && !IsSpace(first) && !StartsComment(lex, [first] + rest)
      modifies this`position, this`buffer, this`rest
      ensures Valid() && Pulls(t, rest, PullVisible(lex, [first] + old(rest)))
      decreases |rest|, 4
    {
      hide Valid, PullQuoted, PullSubstitution, NumberToken, NumberRun, ScanUnquoted, StopsUnquoted;
      ghost var visible := [first] + rest;
      assert visible[1..] == rest;
      match first
      case '"' => t := PullQuotedString();
      case '$' => t := PullSubstitutionToken();
      case ':' => t := Some(Colon);
      case ',' => t := Some(Comma);
      case '=' => t := Some(EqualsSign);
      case '{' => t := Some(OpenCurly);
      case '}' => t := Some(CloseCurly);
      case '[' => t := Some(OpenSquare);
      case ']' => t := Some(CloseSquare);
      case '+' =>
        assert rest != [] ==> visible[1] == rest[0] && visible[2..] == rest[1..];
        var c := NextCharRaw();
        t := if c == Some('=') then Some(PlusEquals) else None;
      case _ =>
        if IsDigit(first) || first == '-' {
          t := PullNumber(first);
        } else if StopsUnquoted(first) {
          t := None;
        } else {
          PutBack(Some(first));
          var text := PullUnquotedText();
          t := Some(text);
        }
    }

    /** The tokens still to come, up to the end or the first problem. */
    ghost function Remaining(): (ts: seq<Token>)
      reads this, saver
    {
      if tokens != [] && (tokens[|tokens| - 1].End? || tokens[|tokens| - 1].Problem?) then tokens
      else tokens + Tokens(lex, rest, saver.lastTokenWasSimpleValue)
    }

    method QueueNextToken()
      requires Valid() && tokens == [] && saver.whitespace == ""
      modifies this`position, this`buffer, this`rest, this`tokens, saver
      ensures Valid() && tokens != []
      ensures Remaining() == old(Remaining())
      ensures !tokens[|tokens| - 1].Problem? ==> saver.whitespace == ""
    {
      hide Valid, PullToken;
      var t := PullNextToken(saver);
      if t == None {
        tokens := [Problem];
        return;
      }
      var space := saver.Check(t.value);
      tokens := space + [t.value];
    }

    /** `next`: the front of the queue; the queue is refilled at once. */
    method Next() returns (t: Token)
      requires Valid() && tokens != [] && saver.whitespace == "" && !tokens[|tokens| - 1].Problem?
      modifies this`position, this`buffer, this`rest, this`tokens, saver
      ensures Valid() && t == old(Remaining())[0]
      ensures Remaining() == old(Remaining())[1..] || t == End
      ensures t != End ==> tokens != [] && (!tokens[|tokens| - 1].Problem? ==> saver.whitespace == "")
    {
      hide Valid, Tokens;
      t := tokens[0];
      tokens := tokens[1..];
      if tokens == [] && t != End {
        QueueNextToken();
      }
    }
  }
}

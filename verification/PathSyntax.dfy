/** Paths as text: rendering, the full parser over tokens, the speculative fast parser, and
    `join_path`/`split_path`. */
module PathSyntax {
  import opened ConfigValues
  import opened Characters
  import opened Tokenization
  import opened Concatenations

  // ---------------------------------------------------------------- rendering

  /** One character inside a rendered JSON string. */
  function Escaped(c: char): (s: string)
    requires c < 128 as char
  {
    if c == '"' then "\\\""
    else if c == '\\' then "\\\\"
    else if c == '\n' then "\\n"
    else if c == 8 as char then "\\b"
    else if c == 12 as char then "\\f"
    else if c == '\r' then "\\r"
    else if c == '\t' then "\\t"
    else if IsControl(c) then "\\u" + FourHex(c as nat)
    else [c]
  }

  function EscapedAll(s: string): (r: string)
    requires SevenBit(s)
  {
    if s == [] then [] else Escaped(s[0]) + EscapedAll(s[1..])
  }

  function Quoted(s: string): (r: string)
    requires SevenBit(s)
  {
    "\"" + EscapedAll(s) + "\""
  }

  lemma {:induction false} EscapedAllAppends(s: string, c: char)
    requires SevenBit(s) && c < 128 as char
    ensures SevenBit(s + [c]) && EscapedAll(s + [c]) == EscapedAll(s) + Escaped(c)
  {
    if s == [] {
      assert s + [c] == [c] && EscapedAll([c][1..]) == [];
    } else {
      hide Escaped;
      EscapedAllAppends(s[1..], c);
      assert (s + [c])[1..] == s[1..] + [c] && (s + [c])[0] == s[0];
      assert EscapedAll(s + [c]) == Escaped(s[0]) + (EscapedAll(s[1..]) + Escaped(c));
    }
  }

  /** `render_json_string`. */
  method RenderJsonString(s: string) returns (stream: string)
    requires SevenBit(s)
    ensures stream == Quoted(s)
  {
    hide Escaped;
    stream := "\"";
    var i := 0;
    while i < |s|
      invariant i <= |s| && stream == "\"" + EscapedAll(s[..i])
    {
      EscapedAllAppends(s[..i], s[i]);
      assert s[..i] + [s[i]] == s[..i + 1];
      stream := stream + Escaped(s[i]);
      i := i + 1;
    }
    assert s[..i] == s;
    stream := stream + "\"";
  }

  predicate PlainKeyChar(c: char) {
    IsAlpha(c) || IsDigit(c) || c == '-' || c == '_'
  }

  predicate HasFunkyChars(s: string) {
    s != [] && (!IsAlpha(s[0]) || exists i | 1 <= i < |s| :: !PlainKeyChar(s[i]))
  }

  predicate NeedsQuotes(key: string) {
    HasFunkyChars(key) || key == ""
  }

  predicate SevenBitPath(p: Path) {
    forall i | 0 <= i < |p| :: SevenBit(p[i])
  }

  /** `Path::append_to_stream`. */
  function RenderPath(p: Path): (s: string)
    requires p != [] && SevenBitPath(p)
    decreases |p|, 0
  {
    (if NeedsQuotes(p[0]) then Quoted(p[0]) else p[0]) + RenderTail(p[1..])
  }

  function RenderTail(p: Path): (s: string)
    requires SevenBitPath(p)
    decreases |p|, 1
  {
    if p == [] then "" else "." + RenderPath(p)
  }

  // ---------------------------------------------------------------- the full parser

  datatype Element = Element(text: string, canBeEmpty: bool)

  const Fresh := Element("", false)

  /** The index of the first period, or the length. */
  function FirstPeriod(s: string): (n: nat)
    ensures n <= |s| && (n < |s| ==> s[n] == '.') && '.' !in s[..n]
  {
    if s == [] || s[0] == '.' then 0 else 1 + FirstPeriod(s[1..])
  }

  function AppendToLast(buf: seq<Element>, text: string, quoted: bool): (r: seq<Element>)
    requires buf != []
    ensures |r| == |buf|
  {
    var last := buf[|buf| - 1];
    var text' := last.text + text;
    buf[..|buf| - 1] + [Element(text', last.canBeEmpty || (quoted && text' == ""))]
  }

  /** `add_path_text`: periods separate elements unless they were quoted. */
  function AddPathText(buf: seq<Element>, quoted: bool, text: string): (r: seq<Element>)
    requires buf != []
    ensures r != []
    decreases |text|
  {
    var i := FirstPeriod(text);
    if quoted || i == |text| then AppendToLast(buf, text, quoted)
    else AddPathText(AppendToLast(buf, text[..i], false) + [Fresh], false, text[i + 1..])
  }

  /** The elements after the tokens `ts`; `None` when a token is not allowed in a path. */
  function AddPathTokens(buf: seq<Element>, ts: seq<Token>): (r: Option<seq<Element>>)
    requires buf != []
    ensures r.Some? ==> r.value != []
    decreases |ts|
  {
    if ts == [] then Some(buf)
    else
      match ts[0]
      case End => AddPathTokens(buf, ts[1..])
      case Literal(v) => AddPathTokens(AddPathText(buf, v.Str?, TransformToString(v)), ts[1..])
      case Unquoted(text) => AddPathTokens(AddPathText(buf, false, text), ts[1..])
      case _ => None
  }

  predicate Complete(buf: seq<Element>) {
    forall i | 0 <= i < |buf| :: buf[i].text != "" || buf[i].canBeEmpty
  }

  function Texts(buf: seq<Element>): (p: Path)
    ensures |p| == |buf| && forall i | 0 <= i < |p| :: p[i] == buf[i].text
  {
    if buf == [] then [] else [buf[0].text] + Texts(buf[1..])
  }

  /** `parse_path_expression`; `None` is the bad-path exception. */
  function ParsePathExpression(ts: seq<Token>): (r: Option<Path>)
    ensures r.Some? ==> r.value != []
  {
    if ts == [] then None
    else
      var buf := AddPathTokens([Fresh], ts);
      if buf.Some? && Complete(buf.value) then Some(Texts(buf.value)) else None
  }

  function FullParsePath(lex: Lexing, s: string): (r: Option<Path>) {
    ParsePathExpression(Tokens(lex, s, false))
  }

  /** `PathBuilder`: keys are pushed to the front and linked up from the front. */
  class PathBuilder {
    var keys: seq<string>
    var built: Path

    constructor ()
      ensures keys == [] && built == [] && Appended() == []
    {
      keys, built := [], [];
    }

    /** The keys in the order they were appended. */
    ghost function Appended(): (p: Path)
      reads this
    {
      Reversed(keys)
    }

    method AppendKey(key: string)
      requires built == []
      modifies this`keys
      ensures Appended() == old(Appended()) + [key]
    {
      keys := [key] + keys;
    }

    /** The path of all keys; empty when nothing was appended. */
    method Result() returns (p: Path)
      requires built == []
      modifies this
      ensures p == built == old(Appended())
    {
      var remainder: Path := [];
      while keys != []
        invariant Reversed(keys) + remainder == old(Appended())
        decreases |keys|
      {
        var key := keys[0];
        keys := keys[1..];
        remainder := [key] + remainder;
      }
      built := remainder;
      p := built;
    }
  }

  function Reversed(s: seq<string>): (r: seq<string>) {
    if s == [] then [] else Reversed(s[1..]) + [s[0]]
  }

  /** The loop over the tokens and the loop over the elements. */
  method ParsePathTokens(expression: seq<Token>) returns (path: Option<Path>)
    ensures path == ParsePathExpression(expression)
  {
    var buf := [Fresh];
    if expression == [] {
      return None;
    }
    var i := 0;
    while i < |expression|
      invariant i <= |expression| && buf != []
      invariant AddPathTokens([Fresh], expression) == AddPathTokens(buf, expression[i..])
    {
      var t := expression[i];
      match t {
        case Literal(v) => buf := AddPathText(buf, v.Str?, TransformToString(v));
        case Unquoted(text) => buf := AddPathText(buf, false, text);
        case End =>
        case _ => return None;
      }
      i := i + 1;
    }
    path := BuildPath(buf);
  }

  /** The keys of the elements, unless one is empty that may not be. */
  method BuildPath(buf: seq<Element>) returns (path: Option<Path>)
    ensures path == if Complete(buf) then Some(Texts(buf)) else None
  {
    hide Texts, Reversed;
    var pb := new PathBuilder();
    var k := 0;
    while k < |buf|
      invariant k <= |buf| && pb.built == [] && fresh(pb)
      invariant pb.Appended() == Texts(buf)[..k]
      invariant forall j | 0 <= j < k :: buf[j].text != "" || buf[j].canBeEmpty
    {
      if buf[k].text == "" && !buf[k].canBeEmpty {
        return None;
      }
      assert Texts(buf)[..k + 1] == Texts(buf)[..k] + [buf[k].text];
      pb.AppendKey(buf[k].text);
      k := k + 1;
    }
    assert Texts(buf)[..k] == Texts(buf);
    var p := pb.Result();
    path := Some(p);
  }

  // ---------------------------------------------------------------- the fast parser

  function TrimLeft(s: string): (r: string) {
    if s != [] && IsSpace(s[0]) then TrimLeft(s[1..]) else s
  }

  function TrimRight(s: string): (r: string) {
    if s != [] && IsSpace(s[|s| - 1]) then TrimRight(s[..|s| - 1]) else s
  }

  predicate Safe(s: string) {
    forall i | 0 <= i < |s| :: IsAlpha(s[i]) || s[i] == '.'
  }

  predicate StrayPeriod(s: string) {
    s != [] && (s[0] == '.' || s[|s| - 1] == '.' || exists i | 0 <= i < |s| - 1 :: s[i] == '.' && s[i + 1] == '.')
  }

  /** `append_path_string`. */
  function SplitAtPeriods(s: string): (p: Path)
    ensures p != []
    decreases |s|
  {
    var i := FirstPeriod(s);
    if i == |s| then [s] else [s[..i]] + SplitAtPeriods(s[i + 1..])
  }

  /** `speculative_fast_parse_path`; `None` leaves the text to the full parser. */
  function FastParsePath(s: string): (r: Option<Path>) {
    var core := TrimRight(TrimLeft(s));
    if core == "" || !Safe(core) || StrayPeriod(core) then None else Some(SplitAtPeriods(core))
  }

  /** `Parser::parse_path`. */
  function ParsePath(lex: Lexing, s: string): (r: Option<Path>) {
    var speculated := FastParsePath(s);
    if speculated.Some? then speculated else FullParsePath(lex, s)
  }

  // ---------------------------------------------------------------- texts of tokens

  /** Text without quotes can be added in any two pieces. */
  lemma {:induction false} AddTextInPieces(buf: seq<Element>, a: string, b: string)
    requires buf != []
    ensures AddPathText(AddPathText(buf, false, a), false, b) == AddPathText(buf, false, a + b)
    decreases |a|
  {
    hide AppendToLast, FirstPeriod;
    var i := FirstPeriod(a);
    PeriodOfPieces(a, b);
    if i == |a| {
      var j := FirstPeriod(b);
      AppendTwice(buf, a, b[..j]);
      if j < |b| {
        assert (a + b)[..|a| + j] == a + b[..j] && (a + b)[|a| + j + 1..] == b[j + 1..];
      } else {
        assert b[..j] == b;
      }
    } else {
      assert (a + b)[..i] == a[..i] && (a + b)[i + 1..] == a[i + 1..] + b;
      AddTextInPieces(AppendToLast(buf, a[..i], false) + [Fresh], a[i + 1..], b);
    }
  }

  lemma AppendTwice(buf: seq<Element>, a: string, b: string)
    requires buf != []
    ensures AppendToLast(AppendToLast(buf, a, false), b, false) == AppendToLast(buf, a + b, false)
  {
    var last := buf[|buf| - 1];
    assert (last.text + a) + b == last.text + (a + b);
  }

  lemma {:induction false} PeriodOfPieces(a: string, b: string)
    ensures FirstPeriod(a + b) == if FirstPeriod(a) < |a| then FirstPeriod(a) else |a| + FirstPeriod(b)
  {
    if a == [] {
      assert a + b == b;
    } else {
      assert (a + b)[1..] == a[1..] + b;
      PeriodOfPieces(a[1..], b);
    }
  }

  /** The text a token contributes to a path. */
  function TokenText(t: Token): (s: string)
    requires t.Unquoted? || t.Literal?
  {
    if t.Unquoted? then t.text else TransformToString(t.value)
  }

  lemma AddToken(buf: seq<Element>, t: Token, ts: seq<Token>)
    requires buf != [] && (t.Unquoted? || t.Literal?)
    ensures AddPathTokens(buf, [t] + ts)
      == AddPathTokens(AddPathText(buf, t.Literal? && t.value.Str?, TokenText(t)), ts)
  {
    hide AddPathText;
    assert ([t] + ts)[1..] == ts;
  }

  lemma KeywordText(s: string)
    requires Keyword(s).Some?
    ensures TransformToString(Keyword(s).value) == s && !Keyword(s).value.Str?
  {
  }

  /** A letter or a period starts or continues unquoted text. */
  lemma WordToken(lex: Lexing, s: string)
    requires s != [] && (IsAlpha(s[0]) || s[0] == '.')
    ensures !EndsUnquoted(lex, s)
    ensures BlankRun(s) == 0
    ensures var (token, rest) := ScanUnquoted(lex, s, ""); PullToken(lex, s) == Scanned(token, rest)
  {
    hide PullSubstitution, PullQuoted, NumberToken, ScanUnquoted;
    assert s[0..] == s;
  }

  /** The token stands for `text` outside quotes. */
  predicate Contributes(t: Token, text: string) {
    (t.Unquoted? || (t.Literal? && !t.value.Str?)) && TokenText(t) == text
  }

  /** Scanning safe text takes a prefix of it, which the token carries as its text. */
  lemma {:induction false} ScanSafeText(lex: Lexing, c: string, t: string, sb: string) returns (n: nat)
    requires Safe(c) && EndsUnquoted(lex, t)
    ensures n <= |c| && (c != [] ==> n > 0)
    ensures ScanUnquoted(lex, c + t, sb).1 == c[n..] + t
    ensures Contributes(ScanUnquoted(lex, c + t, sb).0, sb + c[..n])
  {
    hide TransformToString, PullToken, Keyword, ScanUnquoted;
    ScanStep(lex, c + t, sb);
    if c == [] {
      n := 0;
      assert c + t == t;
    } else {
      WordToken(lex, c + t);
      assert (c + t)[0] == c[0] && (c + t)[1..] == c[1..] + t;
      var sb' := sb + [c[0]];
      if Keyword(sb').Some? {
        n := 1;
        KeywordText(sb');
        assert c[..1] == [c[0]] && sb + c[..1] == sb';
      } else {
        var m := ScanSafeText(lex, c[1..], t, sb');
        n := m + 1;
        assert c[1..][m..] == c[n..] && [c[0]] + c[1..][..m] == c[..n];
      }
    }
  }

  /** On safe text followed by spaces the full parser sees the text, unless there is a newline. */
  lemma {:induction false} SafeTextTokens(lex: Lexing, c: string, t: string, afterSimple: bool, buf: seq<Element>)
    requires buf != [] && Safe(c) && forall i | 0 <= i < |t| :: IsSpace(t[i])
    ensures AddPathTokens(buf, Tokens(lex, c + t, afterSimple))
      == if '\n' in t then None else Some(AddPathText(buf, false, c))
    decreases |c|
  {
    hide StopsUnquoted, TransformToString, PullToken, ScanUnquoted, AddPathText, IsSpace, Tokens;
    var s := c + t;
    if c == [] {
      assert s == t;
      SpacesTokens(lex, t, afterSimple);
      AppendNothing(buf);
    } else {
      var n := ScanSafeText(lex, c, t, "");
      var (token, rest) := ScanUnquoted(lex, s, "");
      assert s[0] == c[0];
      WordToken(lex, s);
      TokensFrom(lex, s, afterSimple, token, rest);
      assert Tokens(lex, s, afterSimple) == [token] + Tokens(lex, rest, true);
      AddToken(buf, token, Tokens(lex, rest, true));
      assert "" + c[..n] == c[..n];
      SafeTextTokens(lex, c[n..], t, true, AddPathText(buf, false, c[..n]));
      AddTextInPieces(buf, c[..n], c[n..]);
      assert c[..n] + c[n..] == c;
    }
  }

  lemma AppendNothing(buf: seq<Element>)
    requires buf != []
    ensures AddPathText(buf, false, "") == buf
  {
    var last := buf[|buf| - 1];
    assert last.text + "" == last.text;
    assert buf[..|buf| - 1] + [last] == buf;
  }

  /** Spaces are the end of the text, or a newline comes first. */
  lemma {:induction false} BlanksOrNewline(t: string)
    requires forall i | 0 <= i < |t| :: IsSpace(t[i])
    ensures BlankRun(t) == |t| <==> '\n' !in t
    ensures BlankRun(t) < |t| ==> t[BlankRun(t)] == '\n'
  {
    if t != [] && t[0] != '\n' {
      BlanksOrNewline(t[1..]);
      assert t == [t[0]] + t[1..];
    }
  }

  lemma SpacesTokens(lex: Lexing, t: string, afterSimple: bool)
    requires forall i | 0 <= i < |t| :: IsSpace(t[i])
    ensures var ts := Tokens(lex, t, afterSimple);
      if '\n' in t then ts[0] == Newline else ts == [End]
  {
    hide PullToken, BlankRun;
    BlanksOrNewline(t);
    if '\n' in t {
      PullNewline(lex, t);
      TokensFrom(lex, t, afterSimple, Newline, t[BlankRun(t) + 1..]);
    } else {
      PullEnd(lex, t);
      TokensFrom(lex, t, afterSimple, End, []);
    }
  }

  /** With a newline before it, text is no path for the full parser. */
  lemma NewlineFirst(lex: Lexing, s: string)
    requires BlankRun(s) < |s| && s[BlankRun(s)] == '\n'
    ensures FullParsePath(lex, s) == None
  {
    hide PullToken, BlankRun, Tokens;
    PullNewline(lex, s);
    TokensFrom(lex, s, false, Newline, s[BlankRun(s) + 1..]);
    assert Tokens(lex, s, false)[0] == Newline;
  }

  // ---------------------------------------------------------------- fast refines full

  lemma {:induction false} TrimmedLeft(s: string) returns (n: nat)
    ensures n <= |s| && TrimLeft(s) == s[n..]
    ensures forall i | 0 <= i < n :: IsSpace(s[i])
    ensures n < |s| ==> !IsSpace(s[n])
  {
    if s != [] && IsSpace(s[0]) {
      var m := TrimmedLeft(s[1..]);
      n := m + 1;
    } else {
      n := 0;
    }
  }

  lemma {:induction false} TrimmedRight(s: string) returns (n: nat)
    ensures n <= |s| && TrimRight(s) == s[..n]
    ensures forall i | n <= i < |s| :: IsSpace(s[i])
  {
    if s != [] && IsSpace(s[|s| - 1]) {
      var init := s[..|s| - 1];
      n := TrimmedRight(init);
      assert init[..n] == s[..n];
      forall i | n <= i < |s| ensures IsSpace(s[i]) {
        assert i < |init| ==> s[i] == init[i];
      }
    } else {
      n := |s|;
    }
  }

  /** A trimmed text sits between spaces. */
  lemma Trimmed(s: string) returns (lead: string, core: string, trail: string)
    ensures core == TrimRight(TrimLeft(s)) && s == lead + core + trail
    ensures forall i | 0 <= i < |lead| :: IsSpace(lead[i])
    ensures forall i | 0 <= i < |trail| :: IsSpace(trail[i])
  {
    var n := TrimmedLeft(s);
    var m := TrimmedRight(s[n..]);
    lead, core, trail := s[..n], s[n..][..m], s[n..][m..];
  }

  lemma FillFresh(done: seq<Element>, text: string)
    ensures AppendToLast(done + [Fresh], text, false) == done + [Element(text, false)]
  {
    assert (done + [Fresh])[..|done|] == done && Fresh.text + text == text;
  }

  /** What periods do to one fresh element. */
  lemma {:induction false} AddedElements(done: seq<Element>, s: string)
    ensures AddPathText(done + [Fresh], false, s) == done + Plain(SplitAtPeriods(s))
    decreases |s|
  {
    hide FirstPeriod, AppendToLast, Plain;
    var i := FirstPeriod(s);
    FillFresh(done, s[..i]);
    if i == |s| {
      assert s[..i] == s;
      PlainStep(done, s, []);
      assert [s] + [] == [s];
    } else {
      AddedElements(done + [Element(s[..i], false)], s[i + 1..]);
      PlainStep(done, s[..i], SplitAtPeriods(s[i + 1..]));
    }
  }

  /** Elements of unquoted text. */
  function Plain(p: Path): (r: seq<Element>) {
    if p == [] then [] else [Element(p[0], false)] + Plain(p[1..])
  }

  lemma {:induction false} PlainKeys(p: Path)
    requires forall i | 0 <= i < |p| :: p[i] != ""
    ensures Texts(Plain(p)) == p && Complete(Plain(p))
  {
    if p != [] {
      PlainKeys(p[1..]);
      assert Plain(p)[1..] == Plain(p[1..]);
    }
  }

  lemma PlainStep(done: seq<Element>, key: string, p: Path)
    ensures done + [Element(key, false)] + Plain(p) == done + Plain([key] + p)
    ensures p == [] ==> done + [Element(key, false)] == done + Plain([key] + p)
  {
    assert ([key] + p)[1..] == p;
  }

  /** Without stray periods no element is empty. */
  lemma {:induction false} NoEmptyElement(s: string)
    requires s != "" && !StrayPeriod(s)
    ensures forall i | 0 <= i < |SplitAtPeriods(s)| :: SplitAtPeriods(s)[i] != ""
    decreases |s|
  {
    var i := FirstPeriod(s);
    if i < |s| {
      var rest := s[i + 1..];
      assert 0 < i < |s| - 1;
      assert s[i] == '.' && s[i + 1] == rest[0];
      assert rest[|rest| - 1] == s[|s| - 1];
      assert !StrayPeriod(rest) by {
        forall k | 0 <= k < |rest| - 1 ensures !(rest[k] == '.' && rest[k + 1] == '.') {
          assert rest[k] == s[i + 1 + k] && rest[k + 1] == s[(i + 1 + k) + 1];
        }
      }
      NoEmptyElement(rest);
    }
  }

  /** With one there is an empty element. */
  lemma {:induction false} EmptyElement(s: string)
    requires StrayPeriod(s)
    ensures !Complete(Plain(SplitAtPeriods(s)))
    decreases |s|
  {
    var i := FirstPeriod(s);
    assert i < |s| by {
      assert '.' in s;
    }
    var rest := s[i + 1..];
    var more := Plain(SplitAtPeriods(rest));
    var elements := Plain(SplitAtPeriods(s));
    assert elements == [Element(s[..i], false)] + more;
    if i == 0 {
      assert elements[0].text == "";
    } else {
      if rest == "" {
        assert more[0].text == "";
      } else {
        StrayInRest(s, i);
        EmptyElement(rest);
      }
      var k :| 0 <= k < |more| && more[k].text == "" && !more[k].canBeEmpty;
      assert elements[k + 1] == more[k];
    }
  }

  lemma StrayInRest(s: string, i: nat)
    requires StrayPeriod(s) && 0 < i < |s| - 1 && s[i] == '.' && '.' !in s[..i]
    ensures StrayPeriod(s[i + 1..])
  {
    var rest := s[i + 1..];
    assert forall k | 0 <= k < i :: s[k] == s[..i][k];
    if s[|s| - 1] != '.' {
      var k :| 0 <= k < |s| - 1 && s[k] == '.' && s[k + 1] == '.';
      if k > i {
        assert rest[k - i - 1] == '.' && rest[(k - i - 1) + 1] == '.';
      }
    }
  }

  /** On the text that is left after trimming, both parsers see the same path, or none. */
  lemma FullParsesCore(lex: Lexing, core: string, trail: string)
    requires core != "" && Safe(core)
    requires forall i | 0 <= i < |trail| :: IsSpace(trail[i])
    ensures FullParsePath(lex, core + trail)
      == if '\n' in trail || StrayPeriod(core) then None else Some(SplitAtPeriods(core))
  {
    hide Safe, StrayPeriod, Tokens, AddPathTokens, AddPathText, SplitAtPeriods, IsSpace, Complete;
    SafeTextTokens(lex, core, trail, false, [Fresh]);
    AddedElements([], core);
    assert [] + [Fresh] == [Fresh];
    var elements := Plain(SplitAtPeriods(core));
    assert [] + elements == elements;
    if StrayPeriod(core) {
      EmptyElement(core);
    } else {
      NoEmptyElement(core);
      PlainKeys(SplitAtPeriods(core));
    }
  }

  /** Blanks in front of a text do not matter to the full parser. */
  lemma LeadingBlanks(lex: Lexing, lead: string, s: string)
    requires forall i | 0 <= i < |lead| :: IsBlank(lead[i])
    requires s != [] && !IsSpace(s[0])
    ensures FullParsePath(lex, lead + s) == FullParsePath(lex, s)
  {
    hide PullVisible;
    BlanksThen(lead, s);
    BlanksThen([], s);
    assert [] + s == s;
    assert (lead + s)[|lead|..] == s == s[0..];
    assert PullToken(lex, lead + s) == PullToken(lex, s);
    var pulled := PullToken(lex, s);
    if pulled.Scanned? {
      TokensFrom(lex, s, false, pulled.result, pulled.rest);
      TokensFrom(lex, lead + s, false, pulled.result, pulled.rest);
    }
  }

  lemma {:induction false} BlanksThen(lead: string, s: string)
    requires forall i | 0 <= i < |lead| :: IsBlank(lead[i])
    requires s != [] ==> !IsBlank(s[0])
    ensures BlankRun(lead + s) == |lead|
  {
    if lead == [] {
      assert lead + s == s;
    } else {
      assert (lead + s)[1..] == lead[1..] + s;
      BlanksThen(lead[1..], s);
    }
  }

  /** A newline among the leading spaces is the first token. */
  lemma {:induction false} NewlineInFront(lead: string, s: string)
    requires '\n' in lead && forall i | 0 <= i < |lead| :: IsSpace(lead[i])
    ensures BlankRun(lead + s) < |lead| && (lead + s)[BlankRun(lead + s)] == '\n'
  {
    if lead[0] != '\n' {
      assert (lead + s)[1..] == lead[1..] + s;
      assert lead == [lead[0]] + lead[1..];
      NewlineInFront(lead[1..], s);
    }
  }

  /** The fast parser refines the full one: on a text it accepts, tokenizing and parsing gives
      the same path exactly when the text has no newline (the fast parser trims newlines away,
      the full one rejects them). */
  lemma FastRefinesFull(lex: Lexing, s: string)
    requires FastParsePath(s).Some?
    ensures FullParsePath(lex, s) == FastParsePath(s) <==> '\n' !in s
    ensures '\n' in s ==> FullParsePath(lex, s) == None
  {
    hide FullParsePath, Safe, StrayPeriod, TrimLeft, TrimRight, SplitAtPeriods;
    var lead, core, trail := Trimmed(s);
    FullParsesSpaced(lex, lead, core, trail);
  }

  lemma FullParsesSpaced(lex: Lexing, lead: string, core: string, trail: string)
    requires core != "" && Safe(core)
    requires forall i | 0 <= i < |lead| :: IsSpace(lead[i])
    requires forall i | 0 <= i < |trail| :: IsSpace(trail[i])
    ensures FullParsePath(lex, lead + core + trail)
      == if '\n' in lead + core + trail || StrayPeriod(core) then None else Some(SplitAtPeriods(core))
  {
    hide FullParsePath, StrayPeriod, SplitAtPeriods;
    var s := core + trail;
    assert lead + core + trail == lead + s;
    FullParsesCore(lex, core, trail);
    if '\n' in lead {
      NewlineInFront(lead, s);
      NewlineFirst(lex, lead + s);
    } else {
      assert s[0] == core[0];
      LeadingBlanks(lex, lead, s);
      NoNewline(core);
    }
  }

  /** The keys with periods between them. */
  function Dotted(p: Path): (s: string) {
    if p == [] then "" else if |p| == 1 then p[0] else p[0] + "." + Dotted(p[1..])
  }

  lemma DottedStep(key: string, more: Path)
    requires more != []
    ensures Dotted([key] + more) == key + "." + Dotted(more)
  {
    assert ([key] + more)[1..] == more;
  }

  lemma {:induction false} SplitIsDotted(s: string)
    ensures Dotted(SplitAtPeriods(s)) == s
    ensures forall i | 0 <= i < |SplitAtPeriods(s)| :: '.' !in SplitAtPeriods(s)[i]
    decreases |s|
  {
    var i := FirstPeriod(s);
    if i < |s| {
      var more := SplitAtPeriods(s[i + 1..]);
      SplitIsDotted(s[i + 1..]);
      DottedStep(s[..i], more);
      assert s == s[..i] + "." + s[i + 1..];
    }
  }

  /** A text of letters and periods between spaces is a path exactly if it is on one line and no period
      stands at its front, at its end or next to another; and the path is the keys that the periods
      separate. */
  lemma PlainPathExactly(lex: Lexing, s: string, core: string)
    requires core == TrimRight(TrimLeft(s)) && core != "" && Safe(core)
    ensures var r := FullParsePath(lex, s);
      && (r.Some? <==>
            && '\n' !in s && core[0] != '.' && core[|core| - 1] != '.'
            && forall i | 0 <= i < |core| - 1 :: core[i] == '.' ==> core[i + 1] != '.')
      && (r.Some? ==> Dotted(r.value) == core && forall i | 0 <= i < |r.value| :: '.' !in r.value[i])
      && ParsePath(lex, s) == if StrayPeriod(core) then None else Some(SplitAtPeriods(core))
  {
    hide FullParsePath, Safe, TrimLeft, TrimRight, SplitAtPeriods;
    var lead, core', trail := Trimmed(s);
    FullParsesSpaced(lex, lead, core, trail);
    SplitIsDotted(core);
  }

  lemma NoNewline(s: string)
    requires Safe(s)
    ensures '\n' !in s
  {
  }

  /** Without newlines `parse_path` is the full parser. */
  lemma ParsePathIsFull(lex: Lexing, s: string)
    requires '\n' !in s
    ensures ParsePath(lex, s) == FullParsePath(lex, s)
  {
    if FastParsePath(s).Some? {
      FastRefinesFull(lex, s);
    }
  }

  // ---------------------------------------------------------------- split undoes join

  /** `join_path`; `None` is the exception for an empty path. */
  function JoinPath(elements: seq<string>): (r: Option<string>)
    requires SevenBitPath(elements)
  {
    if elements == [] then None else Some(RenderPath(elements))
  }

  lemma EscapeStep(s: string, acc: string, c: char, rest: string)
    requires s != [] && s[0] == '\\' && PullEscape(s[1..]) == Scanned(c, rest)
    ensures ScanQuoted(s, acc) == ScanQuoted(rest, acc + [c])
  {
    hide PullEscape;
  }

  /** One escaped character reads back as itself. */
  lemma EscapedReadsBack(c: char, r: string, acc: string)
    requires c < 128 as char
    ensures ScanQuoted(Escaped(c) + r, acc) == ScanQuoted(r, acc + [c])
  {
    var s := Escaped(c) + r;
    if c in "\"\\" || IsControl(c) {
      EscapeReadsBack(c, r);
      EscapeStep(s, acc, c, r);
    } else {
      assert Escaped(c) == [c] && s[0] == c && s[1..] == r;
    }
  }

  lemma EscapeReadsBack(c: char, r: string)
    requires c < 128 as char && (c in "\"\\" || IsControl(c))
    ensures var s := Escaped(c) + r; s[0] == '\\' && PullEscape(s[1..]) == Scanned(c, r)
  {
    hide StrToL, FourHex;
    var s := Escaped(c) + r;
    assert s[0] == '\\';
    if Escaped(c)[1] == 'u' {
      var hex := FourHex(c as nat);
      assert s[1..] == "u" + hex + r;
      assert s[1..][1..5] == hex && s[1..][5..] == r;
    } else {
      assert s[1..] == [Escaped(c)[1]] + r && s[1..][1..] == r;
    }
  }

  /** A rendered JSON string reads back as the string. */
  lemma {:induction false} QuotedReadsBack(s: string, tail: string, acc: string)
    requires SevenBit(s)
    ensures ScanQuoted(EscapedAll(s) + ("\"" + tail), acc) == Scanned(acc + s, tail)
  {
    var close := "\"" + tail;
    if s == [] {
      assert EscapedAll(s) + close == close && close[1..] == tail;
      assert acc + s == acc;
    } else {
      hide ScanQuoted, Escaped;
      assert EscapedAll(s) + close == Escaped(s[0]) + (EscapedAll(s[1..]) + close);
      EscapedReadsBack(s[0], EscapedAll(s[1..]) + close, acc);
      QuotedReadsBack(s[1..], tail, acc + [s[0]]);
      assert acc + [s[0]] + s[1..] == acc + s;
    }
  }

  /** So does its token, when no further quote follows. */
  lemma QuotedToken(lex: Lexing, s: string, tail: string)
    requires SevenBit(s) && (tail != [] ==> tail[0] != '"')
    ensures PullToken(lex, Quoted(s) + tail) == Scanned(Literal(Str(s)), tail)
    ensures BlankRun(Quoted(s) + tail) == 0
  {
    hide PullToken, ScanQuoted, EscapedAll;
    var text := Quoted(s) + tail;
    QuotedReadsBack(s, tail, "");
    assert text[0] == '"' && text[1..] == EscapedAll(s) + ("\"" + tail);
    assert "" + s == s;
    PullsQuoted(lex, text);
  }

  lemma PullsQuoted(lex: Lexing, s: string)
    requires s != [] && s[0] == '"'
    ensures BlankRun(s) == 0 && PullToken(lex, s) == PullQuoted(s[1..])
  {
    hide PullSubstitution, ScanUnquoted, NumberToken, PullQuoted;
    assert s[0..] == s;
  }

  predicate StartsWithKeyword(s: string) {
    "true" <= s || "false" <= s || "null" <= s
  }

  lemma PeriodIsNoKeyword(sb: string)
    requires '.' in sb
    ensures Keyword(sb).None?
  {
    assert '.' !in "true" && '.' !in "false" && '.' !in "null";
  }

  /** Scanning over a key that needs no quotes. */
  lemma {:induction false} ScanKey(lex: Lexing, key: string, done: nat, rest: string, sb: string)
    requires done <= |key| && forall i | done <= i < |key| :: PlainKeyChar(key[i])
    requires '.' in sb || (sb == key[..done] && !StartsWithKeyword(key))
    ensures ScanUnquoted(lex, key[done..] + rest, sb) == ScanUnquoted(lex, rest, sb + key[done..])
    decreases |key| - done
  {
    hide ScanUnquoted, Keyword, EndsUnquoted;
    var s := key[done..] + rest;
    if done == |key| {
      assert s == rest && sb + key[done..] == sb;
    } else {
      var sb' := sb + [key[done]];
      assert s[0] == key[done] && s[1..] == key[done + 1..] + rest;
      PlainGoesOn(lex, s);
      if '.' in sb {
        assert '.' in sb';
        PeriodIsNoKeyword(sb');
      } else {
        assert sb' == key[..done + 1];
        PrefixIsNoKeyword(key, done + 1);
      }
      ScanStep(lex, s, sb);
      ScanKey(lex, key, done + 1, rest, sb');
      assert sb' + key[done + 1..] == sb + key[done..];
    }
  }

  lemma PlainGoesOn(lex: Lexing, s: string)
    requires s != [] && (PlainKeyChar(s[0]) || s[0] == '.')
    ensures !EndsUnquoted(lex, s)
  {
  }

  lemma PrefixIsNoKeyword(key: string, n: nat)
    requires n <= |key| && !StartsWithKeyword(key)
    ensures Keyword(key[..n]).None?
  {
    assert key[..n] <= key;
  }

  /** The elements a rendered path is parsed into. */
  function Rendered(p: Path): (r: seq<Element>) {
    if p == [] then [] else [Element(p[0], p[0] == "")] + Rendered(p[1..])
  }

  lemma {:induction false} RenderedKeys(p: Path)
    ensures Texts(Rendered(p)) == p && Complete(Rendered(p))
  {
    if p != [] {
      RenderedKeys(p[1..]);
      assert Rendered(p)[1..] == Rendered(p[1..]);
    }
  }

  lemma RenderedStep(done: seq<Element>, p: Path)
    requires p != []
    ensures done + [Element(p[0], p[0] == "")] + Rendered(p[1..]) == done + Rendered(p)
  {
  }

  /** The tokens when `sb` has been read of an unquoted text. */
  function TokensWithin(lex: Lexing, s: string, sb: string): (r: seq<Token>) {
    var (t, rest) := ScanUnquoted(lex, s, sb);
    [t] + Tokens(lex, rest, true)
  }

  lemma FillQuoted(done: seq<Element>, key: string)
    ensures AddPathText(done + [Fresh], true, key) == done + [Element(key, key == "")]
  {
    assert (done + [Fresh])[..|done|] == done && Fresh.text + key == key;
  }

  lemma FillPlain(done: seq<Element>, key: string)
    requires !NeedsQuotes(key)
    ensures AddPathText(done + [Fresh], false, key) == done + [Element(key, key == "")]
  {
    KeyChars(key);
    FillFresh(done, key);
  }

  lemma KeyChars(key: string)
    requires !NeedsQuotes(key)
    ensures key != "" && IsAlpha(key[0]) && forall i | 0 <= i < |key| :: PlainKeyChar(key[i]) && key[i] != '.'
  {
  }

  lemma AddPeriod(buf: seq<Element>)
    requires buf != []
    ensures AddPathText(buf, false, ".") == buf + [Fresh]
  {
    AppendNothing(buf);
    assert "."[..0] == "" && "."[1..] == "";
    AppendNothing(buf + [Fresh]);
  }

  lemma EndOnly(lex: Lexing, buf: seq<Element>, afterSimple: bool)
    requires buf != []
    ensures Tokens(lex, "", afterSimple) == [End] && AddPathTokens(buf, [End]) == Some(buf)
  {
    hide PullToken;
    PullEnd(lex, "");
    TokensFrom(lex, "", afterSimple, End, []);
  }

  /** After a period, within unquoted text: the rest of a rendered path is parsed back. */
  lemma {:induction false} PathWithin(lex: Lexing, p: Path, sb: string, buf: seq<Element>, done: seq<Element>)
    requires p != [] && SevenBitPath(p) && '.' in sb && buf != []
    requires AddPathText(buf, false, sb) == done + [Fresh]
    ensures AddPathTokens(buf, TokensWithin(lex, RenderPath(p), sb)) == Some(done + Rendered(p))
    decreases |p|, 3
  {
    if NeedsQuotes(p[0]) {
      hide AddPathText, AddPathTokens, Tokens, ScanUnquoted, Quoted, HasFunkyChars, SevenBit, Rendered;
      var s := Quoted(p[0]) + RenderTail(p[1..]);
      QuoteEndsUnquoted(lex, p[0], RenderTail(p[1..]));
      ScanStep(lex, s, sb);
      AddToken(buf, Unquoted(sb), Tokens(lex, s, true));
      QuotedElement(lex, p, done, true);
    } else {
      KeyWithin(lex, p, sb, buf, done);
    }
  }

  /** The same at an element without quotes, which may be the first one. */
  lemma {:induction false} KeyWithin(lex: Lexing, p: Path, sb: string, buf: seq<Element>, done: seq<Element>)
    requires p != [] && SevenBitPath(p) && !NeedsQuotes(p[0]) && buf != []
    requires '.' in sb || (sb == "" && !StartsWithKeyword(p[0]))
    requires AddPathText(buf, false, sb) == done + [Fresh]
    ensures AddPathTokens(buf, TokensWithin(lex, RenderPath(p), sb)) == Some(done + Rendered(p))
    decreases |p|, 2
  {
    hide AddPathText, AddPathTokens, Tokens, ScanUnquoted, Quoted, HasFunkyChars, SevenBit, RenderTail;
    hide StartsWithKeyword, Rendered;
    var key, tail := p[0], RenderTail(p[1..]);
    KeyChars(key);
    assert key[0..] == key && key[..0] == "";
    ScanKey(lex, key, 0, tail, sb);
    AddTextInPieces(buf, sb, key);
    FillPlain(done, key);
    var here := [Element(key, key == "")];
    TailWithin(lex, p[1..], sb + key, buf, done + here);
    RenderedStep(done, p);
  }

  lemma QuoteEndsUnquoted(lex: Lexing, key: string, tail: string)
    requires SevenBit(key)
    ensures EndsUnquoted(lex, Quoted(key) + tail)
  {
    assert (Quoted(key) + tail)[0] == '"';
  }

  /** The same at a quoted element. */
  lemma {:induction false} QuotedElement(lex: Lexing, p: Path, done: seq<Element>, afterSimple: bool)
    requires p != [] && SevenBitPath(p) && NeedsQuotes(p[0])
    ensures AddPathTokens(done + [Fresh], Tokens(lex, RenderPath(p), afterSimple)) == Some(done + Rendered(p))
    decreases |p|, 1
  {
    hide ScanUnquoted, AddPathText, AddPathTokens, Tokens, PullToken, Quoted, HasFunkyChars, SevenBit, Rendered;
    var key, tail := p[0], RenderTail(p[1..]);
    var s, here := Quoted(key) + tail, [Element(key, key == "")];
    QuotedToken(lex, key, tail);
    TokensFrom(lex, s, afterSimple, Literal(Str(key)), tail);
    assert Tokens(lex, s, afterSimple) == [Literal(Str(key))] + Tokens(lex, tail, true);
    AddToken(done + [Fresh], Literal(Str(key)), Tokens(lex, tail, true));
    FillQuoted(done, key);
    AfterQuoted(lex, p[1..], done + here);
    RenderedStep(done, p);
  }

  /** The same just after a quoted element. */
  lemma {:induction false} AfterQuoted(lex: Lexing, p: Path, done: seq<Element>)
    requires SevenBitPath(p) && done != []
    ensures AddPathTokens(done, Tokens(lex, RenderTail(p), true)) == Some(done + Rendered(p))
    decreases |p|, 4
  {
    hide ScanUnquoted, AddPathText, AddPathTokens, Tokens, PullToken, RenderPath, SevenBit;
    if p == [] {
      EndOnly(lex, done, true);
      assert done + [] == done;
    } else {
      var r := RenderPath(p);
      var s := "." + r;
      WordToken(lex, s);
      PeriodIsNoKeyword(".");
      assert "" + [s[0]] == "." && s[1..] == r;
      ScanStep(lex, s, "");
      var (t, rest) := ScanUnquoted(lex, s, "");
      TokensFrom(lex, s, true, t, rest);
      assert Tokens(lex, s, true) == TokensWithin(lex, r, ".");
      AddPeriod(done);
      PathWithin(lex, p, ".", done, done);
    }
  }

  /** The same within unquoted text, just after an element. */
  lemma {:induction false} TailWithin(lex: Lexing, p: Path, sb: string, buf: seq<Element>, done: seq<Element>)
    requires SevenBitPath(p) && buf != [] && done != []
    requires AddPathText(buf, false, sb) == done
    ensures AddPathTokens(buf, TokensWithin(lex, RenderTail(p), sb)) == Some(done + Rendered(p))
    decreases |p|, 4
  {
    hide ScanUnquoted, AddPathText, AddPathTokens, Tokens, PullToken, RenderPath;
    if p == [] {
      ScanStep(lex, "", sb);
      EndOnly(lex, done, true);
      AddToken(buf, Unquoted(sb), Tokens(lex, "", true));
      assert done + [] == done;
    } else {
      var r := RenderPath(p);
      var s := "." + r;
      PlainGoesOn(lex, s);
      PeriodIsNoKeyword(sb + ".");
      assert s[1..] == r && [s[0]] == ".";
      ScanStep(lex, s, sb);
      AddTextInPieces(buf, sb, ".");
      AddPeriod(done);
      PathWithin(lex, p, sb + ".", buf, done);
    }
  }

  lemma {:induction false} RenderedOnOneLine(p: Path)
    requires p != [] && SevenBitPath(p)
    ensures '\n' !in RenderPath(p)
    decreases |p|
  {
    QuotedOnOneLine(p[0]);
    if !NeedsQuotes(p[0]) {
      KeyChars(p[0]);
      assert forall i | 0 <= i < |p[0]| :: p[0][i] != '\n';
    }
    if |p| > 1 {
      RenderedOnOneLine(p[1..]);
    }
  }

  lemma {:induction false} QuotedOnOneLine(s: string)
    requires SevenBit(s)
    ensures '\n' !in EscapedAll(s) && '\n' !in Quoted(s)
  {
    if s != [] {
      QuotedOnOneLine(s[1..]);
      EscapedOnOneLine(s[0]);
    }
  }

  lemma EscapedOnOneLine(c: char)
    requires c < 128 as char
    ensures '\n' !in Escaped(c)
  {
    hide FourHex;
    if IsControl(c) {
      HexOnOneLine(c as nat);
    }
  }

  lemma HexOnOneLine(n: nat)
    requires n < 128
    ensures '\n' !in FourHex(n)
  {
  }

  /** A keyword is split off whatever follows it. */
  lemma {:induction false} ScanKeyword(lex: Lexing, word: string, done: nat, rest: string)
    requires done < |word| && Keyword(word).Some?
    ensures ScanUnquoted(lex, word[done..] + rest, word[..done]) == (Literal(Keyword(word).value), rest)
    decreases |word| - done
  {
    hide ScanUnquoted, EndsUnquoted;
    var s := word[done..] + rest;
    assert s[0] == word[done] && s[1..] == word[done + 1..] + rest;
    assert word[..done] + [s[0]] == word[..done + 1];
    KeywordChars(word);
    PlainGoesOn(lex, s);
    ScanStep(lex, s, word[..done]);
    if done + 1 == |word| {
      assert word[..done + 1] == word && s[1..] == rest;
    } else {
      ScanKeyword(lex, word, done + 1, rest);
    }
  }

  lemma KeywordChars(word: string)
    requires Keyword(word).Some?
    ensures word != [] && forall i | 0 <= i < |word| :: IsAlpha(word[i])
    ensures forall n | 0 <= n < |word| :: Keyword(word[..n]).None?
  {
    forall n | 0 <= n < |word| ensures Keyword(word[..n]).None? {
      assert word[..n] <= word && |word[..n]| < |word| <= 5;
      if word == "false" && n == 4 {
        assert word[..4][0] == 'f';
      }
    }
  }

  // ---------------------------------------------------------------- keywords in front

  /** How long the keyword is that the text begins with. */
  function KeywordLength(s: string): (n: nat)
    requires StartsWithKeyword(s)
    ensures 0 < n <= |s| && Keyword(s[..n]).Some?
  {
    if "false" <= s then assert s[..5] == "false"; 5
    else if "true" <= s then assert s[..4] == "true"; 4
    else assert s[..4] == "null"; 4
  }

  /** The text without the keywords it begins with. */
  function Stripped(s: string): (r: string)
    ensures |r| <= |s| && !StartsWithKeyword(r)
  {
    if StartsWithKeyword(s) then Stripped(s[KeywordLength(s)..]) else s
  }

  /** A letter or an underscore: the tokenizer reads a word. */
  predicate StartsWord(c: char) {
    IsAlpha(c) || c == '_'
  }

  /** What follows the keywords the text begins with is nothing, or a word. */
  predicate WordAfterKeywords(s: string) {
    var rest := Stripped(s);
    rest == "" || StartsWord(rest[0])
  }

  /** At a letter or an underscore the tokenizer pulls a word. */
  lemma PullsWord(lex: Lexing, s: string)
    requires s != [] && StartsWord(s[0])
    ensures BlankRun(s) == 0
    ensures var (token, rest) := ScanUnquoted(lex, s, ""); PullToken(lex, s) == Scanned(token, rest)
  {
    hide PullSubstitution, PullQuoted, NumberToken, ScanUnquoted;
    assert s[0..] == s;
  }

  /** The token of a keyword in front. */
  lemma PullsKeyword(lex: Lexing, s: string, tail: string, afterSimple: bool)
    requires StartsWithKeyword(s)
    ensures var n := KeywordLength(s);
      Tokens(lex, s + tail, afterSimple) == [Literal(Keyword(s[..n]).value)] + Tokens(lex, s[n..] + tail, true)
  {
    hide ScanUnquoted, PullToken, Tokens;
    var n := KeywordLength(s);
    var word, rest, text := s[..n], s[n..] + tail, s + tail;
    KeywordChars(word);
    ScanKeyword(lex, word, 0, rest);
    assert word[0..] + rest == text && word[..0] == "";
    assert text[0] == word[0];
    PullsWord(lex, text);
    TokensFrom(lex, text, afterSimple, Literal(Keyword(word).value), rest);
  }

  lemma AddKeyword(buf: seq<Element>, word: string, ts: seq<Token>)
    requires buf != [] && Keyword(word).Some?
    ensures AddPathTokens(buf, [Literal(Keyword(word).value)] + ts) == AddPathTokens(AddPathText(buf, false, word), ts)
  {
    hide AddPathText, AddPathTokens;
    KeywordText(word);
    AddToken(buf, Literal(Keyword(word).value), ts);
  }

  lemma SamePrefix(s: string, n: nat)
    requires n <= |s|
    ensures s[..n] + s[n..] == s
  {
  }

  /** The first element, some of it read already, and what follows it. */
  lemma {:induction false} FirstElement(lex: Lexing, s: string, p: Path, buf: seq<Element>, afterSimple: bool)
    requires SevenBitPath(p) && buf != [] && WordAfterKeywords(s) && forall i | 0 <= i < |s| :: PlainKeyChar(s[i])
    requires s == "" ==> afterSimple
    ensures AddPathTokens(buf, Tokens(lex, s + RenderTail(p), afterSimple)) ==
      Some(AddPathText(buf, false, s) + Rendered(p))
    decreases |s|
  {
    hide AddPathText, AddPathTokens, Tokens, ScanUnquoted, PullToken, RenderTail, StartsWithKeyword, Rendered, Keyword;
    var tail := RenderTail(p);
    if s == "" {
      AppendNothing(buf);
      assert s + tail == tail;
      AfterQuoted(lex, p, buf);
    } else if StartsWithKeyword(s) {
      var n := KeywordLength(s);
      PullsKeyword(lex, s, tail, afterSimple);
      AddKeyword(buf, s[..n], Tokens(lex, s[n..] + tail, true));
      var more := AddPathText(buf, false, s[..n]);
      AddTextInPieces(buf, s[..n], s[n..]);
      SamePrefix(s, n);
      FirstElement(lex, s[n..], p, more, true);
    } else {
      var text := s + tail;
      assert text[0] == s[0];
      PullsWord(lex, text);
      var (t, rest) := ScanUnquoted(lex, text, "");
      TokensFrom(lex, text, afterSimple, t, rest);
      assert s[0..] == s && s[..0] == "" && "" + s == s;
      ScanKey(lex, s, 0, tail, "");
      assert Tokens(lex, text, afterSimple) == TokensWithin(lex, tail, s);
      TailWithin(lex, p, s, buf, AddPathText(buf, false, s));
    }
  }

  /** The elements of a whole rendered path. */
  lemma RenderedElements(lex: Lexing, p: Path)
    requires p != [] && SevenBitPath(p) && (NeedsQuotes(p[0]) || WordAfterKeywords(p[0]))
    ensures AddPathTokens([Fresh], Tokens(lex, RenderPath(p), false)) == Some(Rendered(p))
  {
    hide AddPathText, AddPathTokens, Tokens, HasFunkyChars, SevenBit, RenderTail, WordAfterKeywords, Rendered;
    assert [] + [Fresh] == [Fresh] && [] + Rendered(p) == Rendered(p);
    if NeedsQuotes(p[0]) {
      QuotedElement(lex, p, [], false);
    } else {
      KeyChars(p[0]);
      FirstElement(lex, p[0], p[1..], [Fresh], false);
      FillPlain([], p[0]);
      RenderedStep([], p);
      assert [] + [Element(p[0], p[0] == "")] == [Element(p[0], p[0] == "")];
    }
  }

  /** `split_path(join_path(es)) == es` for 7-bit elements, empty and dotted ones included, unless the
      first is written without quotes and begins with true, false or null followed by a digit or a
      hyphen. */
  lemma SplitUndoesJoin(lex: Lexing, es: seq<string>)
    requires es != [] && SevenBitPath(es) && (NeedsQuotes(es[0]) || WordAfterKeywords(es[0]))
    ensures ParsePath(lex, JoinPath(es).value) == Some(es)
  {
    hide AddPathTokens, Tokens, RenderPath, FastParsePath, WordAfterKeywords, NeedsQuotes;
    RenderedElements(lex, es);
    RenderedKeys(es);
    RenderedOnOneLine(es);
    ParsePathIsFull(lex, RenderPath(es));
  }

  /** What is read as a floating-point number keeps its text. */
  ghost predicate FloatsKeepText(lex: Lexing) {
    forall text :: lex.floating(text).Some? ==> Contributes(Literal(lex.floating(text).value), text)
  }

  /** The tokenizer reads all of the text: the keywords in front, a number after them if the next
      character is a digit or a hyphen, and so on; everything else is a word. */
  predicate ReadsWhole(lex: Lexing, s: string)
    decreases |s|
  {
    if s == "" then true
    else if IsDigit(s[0]) || s[0] == '-' then
      NumberToken(lex, s[..NumberRun(s)]).Some? && ReadsWhole(lex, s[NumberRun(s)..])
    else StartsWithKeyword(s) ==> ReadsWhole(lex, s[KeywordLength(s)..])
  }

  lemma PullsNumber(lex: Lexing, s: string)
    requires s != [] && (IsDigit(s[0]) || s[0] == '-')
    ensures BlankRun(s) == 0
    ensures var t := NumberToken(lex, s[..NumberRun(s)]);
      PullToken(lex, s) == if t.Some? then Scanned(t.value, s[NumberRun(s)..]) else Bad
  {
    hide PullSubstitution, PullQuoted, NumberToken, ScanUnquoted;
    assert s[0..] == s;
  }

  lemma NumberContributes(lex: Lexing, text: string)
    requires FloatsKeepText(lex) && NumberToken(lex, text).Some?
    ensures Contributes(NumberToken(lex, text).value, text) && Simple(NumberToken(lex, text).value)
  {
  }

  /** An element without quotes, some of it read already. */
  lemma {:induction false} LoneElement(lex: Lexing, s: string, buf: seq<Element>, afterSimple: bool)
    requires FloatsKeepText(lex) && buf != [] && forall i | 0 <= i < |s| :: PlainKeyChar(s[i])
    ensures AddPathTokens(buf, Tokens(lex, s, afterSimple)) ==
      if ReadsWhole(lex, s) then Some(AddPathText(buf, false, s)) else None
    decreases |s|
  {
    hide AddPathText, AddPathTokens, Tokens, ScanUnquoted, PullToken, StartsWithKeyword, Keyword, FloatsKeepText;
    hide NumberToken;
    if s == "" {
      AppendNothing(buf);
      EndOnly(lex, buf, afterSimple);
    } else if IsDigit(s[0]) || s[0] == '-' {
      LoneNumber(lex, s, buf, afterSimple);
      var n := NumberRun(s);
      if NumberToken(lex, s[..n]).Some? {
        AddTextInPieces(buf, s[..n], s[n..]);
        SamePrefix(s, n);
        LoneElement(lex, s[n..], AddPathText(buf, false, s[..n]), true);
      }
    } else if StartsWithKeyword(s) {
      var n := KeywordLength(s);
      assert s + "" == s && s[n..] + "" == s[n..];
      PullsKeyword(lex, s, "", afterSimple);
      AddKeyword(buf, s[..n], Tokens(lex, s[n..], true));
      AddTextInPieces(buf, s[..n], s[n..]);
      SamePrefix(s, n);
      LoneElement(lex, s[n..], AddPathText(buf, false, s[..n]), true);
    } else {
      LoneWord(lex, s, buf, afterSimple);
    }
  }

  lemma LoneNumber(lex: Lexing, s: string, buf: seq<Element>, afterSimple: bool)
    requires FloatsKeepText(lex) && buf != [] && s != "" && (IsDigit(s[0]) || s[0] == '-')
    ensures var n := NumberRun(s);
      AddPathTokens(buf, Tokens(lex, s, afterSimple)) ==
        if NumberToken(lex, s[..n]).Some? then AddPathTokens(AddPathText(buf, false, s[..n]), Tokens(lex, s[n..], true))
        else None
  {
    hide AddPathText, PullToken, NumberToken;
    var n := NumberRun(s);
    PullsNumber(lex, s);
    var t := NumberToken(lex, s[..n]);
    if t.Some? {
      NumberContributes(lex, s[..n]);
      TokensFrom(lex, s, afterSimple, t.value, s[n..]);
      AddToken(buf, t.value, Tokens(lex, s[n..], true));
    }
  }

  lemma LoneWord(lex: Lexing, s: string, buf: seq<Element>, afterSimple: bool)
    requires buf != [] && s != "" && StartsWord(s[0]) && !StartsWithKeyword(s)
    requires forall i | 0 <= i < |s| :: PlainKeyChar(s[i])
    ensures AddPathTokens(buf, Tokens(lex, s, afterSimple)) == Some(AddPathText(buf, false, s))
  {
    hide AddPathText, AddPathTokens, Tokens, ScanUnquoted, PullToken, StartsWithKeyword;
    PullsWord(lex, s);
    assert s[0..] + "" == s && s[..0] == "" && "" + s[0..] == s;
    ScanKey(lex, s, 0, "", "");
    ScanStep(lex, "", s);
    assert ScanUnquoted(lex, s, "") == (Unquoted(s), "");
    TokensFrom(lex, s, afterSimple, Unquoted(s), "");
    assert Tokens(lex, s, afterSimple) == [Unquoted(s)] + Tokens(lex, "", true);
    EndOnly(lex, AddPathText(buf, false, s), true);
    AddToken(buf, Unquoted(s), Tokens(lex, "", true));
  }

  /** A single element written without quotes is read back exactly if the tokenizer reads all of it. */
  lemma LoneElementExactly(lex: Lexing, key: string)
    requires FloatsKeepText(lex) && SevenBit(key) && !NeedsQuotes(key)
    ensures JoinPath([key]) == Some(key)
    ensures ParsePath(lex, key) == if ReadsWhole(lex, key) then Some([key]) else None
  {
    hide AddPathTokens, Tokens, FastParsePath, ReadsWhole, AddPathText, FloatsKeepText;
    KeyChars(key);
    RenderPlainKey(key);
    RenderedOnOneLine([key]);
    ParsePathIsFull(lex, key);
    LoneElement(lex, key, [Fresh], false);
    FillPlain([], key);
    var element := Element(key, key == "");
    assert [] + [Fresh] == [Fresh] && [] + [element] == [element];
    assert [element][1..] == [] && Texts([element]) == [key] + Texts([]) == [key];
    assert Complete([element]);
  }

  lemma RenderPlainKey(key: string)
    requires SevenBit(key) && key != "" && IsAlpha(key[0])
    requires forall i | 0 <= i < |key| :: PlainKeyChar(key[i])
    ensures RenderPath([key]) == key
  {
    assert RenderPath([key]) == key + RenderTail([]);
  }

  /** A path of one key is written as it is exactly if the key is a letter followed by letters, digits,
      hyphens and underscores; otherwise it is written between quotes. */
  lemma BareKeyExactly(key: string)
    requires SevenBit(key)
    ensures RenderPath([key]) ==
      if && key != "" && ('a' <= key[0] <= 'z' || 'A' <= key[0] <= 'Z')
         && forall i | 0 <= i < |key| ::
              || 'a' <= key[i] <= 'z' || 'A' <= key[i] <= 'Z' || '0' <= key[i] <= '9'
              || key[i] == '-' || key[i] == '_'
      then key
      else "\"" + EscapedAll(key) + "\""
  {
    hide EscapedAll, NeedsQuotes;
    BareExactly(key);
    assert RenderPath([key]) == (if NeedsQuotes(key) then Quoted(key) else key) + RenderTail([]);
  }

  lemma BareExactly(key: string)
    ensures !NeedsQuotes(key) <==>
      && key != "" && ('a' <= key[0] <= 'z' || 'A' <= key[0] <= 'Z')
      && forall i | 0 <= i < |key| ::
           || 'a' <= key[i] <= 'z' || 'A' <= key[i] <= 'Z' || '0' <= key[i] <= '9'
           || key[i] == '-' || key[i] == '_'
  {
  }

  /** An empty key is written as two quotes, and read back at any position of a path. */
  lemma EmptyKeysReadBack(lex: Lexing, p: Path, i: nat)
    requires SevenBitPath(p) && i < |p| && p[i] == "" && (p[0] == "" || WordAfterKeywords(p[0]))
    ensures FullParsePath(lex, RenderPath(p)) == Some(p) && RenderPath([p[i]]) == "\"\""
  {
    hide AddPathTokens, Tokens, RenderPath, WordAfterKeywords;
    RenderedElements(lex, p);
    RenderedKeys(p);
    BareKeyExactly("");
  }
}

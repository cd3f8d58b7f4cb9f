/** The regular expressions of the annotation scanners, as matchers over tokens.
    Go's `regexp` reports the leftmost match and, at that start, the submatches
    of the first alternative a backtracking engine would find. Every pattern
    here is a chain of a literal, runs of one character class and white space,
    and the classes of neighbouring runs are disjoint, so every run is forced to
    be maximal; only a trailing `\s+(.+)` and a trailing `"(.+)"` are resolved
    by backtracking, and the matchers below spell out the results. */
module Patterns {
  import opened Strings
  import opened Wrappers

  /** The character classes the patterns use, in RE2's ASCII meaning. */
  datatype CharClass =
    | Space     // \s
    | Word      // \w
    | WordDash  // [\w-]
    | WordDot   // [\w\.]
    | Digit     // \d
    | DigitDot  // [\d\.]
    | PathChar  // [/a-zA-Z0-9-]
    | RouterChar  // [/\w\d-{}]: `-`, `{` and `}` are literal members
    | AlphaNum  // [0-9a-zA-Z]

  predicate IsLetter(c: char) {
    'a' <= c <= 'z' || 'A' <= c <= 'Z'
  }

  predicate IsDigit(c: char) {
    '0' <= c <= '9'
  }

  predicate IsWordChar(c: char) {
    IsLetter(c) || IsDigit(c) || c == '_'
  }

  predicate InClass(c: char, cls: CharClass) {
    match cls
    case Space => c == '\t' || c == '\n' || c == '\U{C}' || c == '\r' || c == ' '
    case Word => IsWordChar(c)
    case WordDash => IsWordChar(c) || c == '-'
    case WordDot => IsWordChar(c) || c == '.'
    case Digit => IsDigit(c)
    case DigitDot => IsDigit(c) || c == '.'
    case PathChar => IsLetter(c) || IsDigit(c) || c == '/' || c == '-'
    case RouterChar => IsWordChar(c) || c == '/' || c == '-' || c == '{' || c == '}'
    case AlphaNum => IsLetter(c) || IsDigit(c)
  }

  /** The length of the longest run of `cls` characters starting at `i`. */
  function RunLength(s: string, i: nat, cls: CharClass): (n: nat)
    requires i <= |s|
    ensures i + n <= |s|
    decreases |s| - i
  {
    if i < |s| && InClass(s[i], cls) then 1 + RunLength(s, i + 1, cls) else 0
  }

  /** The run is maximal: every character in it is of the class, and the one
      after it (if any) is not. */
  lemma {:induction false} RunLengthMaximal(s: string, i: nat, cls: CharClass)
    requires i <= |s|
    ensures forall k :: i <= k < i + RunLength(s, i, cls) ==> InClass(s[k], cls)
    ensures i + RunLength(s, i, cls) == |s| || !InClass(s[i + RunLength(s, i, cls)], cls)
    decreases |s| - i
  {
    if i < |s| && InClass(s[i], cls) {
      RunLengthMaximal(s, i + 1, cls);
    }
  }

  /** A captured run and the position after it. */
  datatype Tok = Tok(text: string, end: nat)

  /** `(cls+)` at `i`: the maximal run, which must not be empty. */
  function Token(s: string, i: nat, cls: CharClass): (r: Option<Tok>)
    requires i <= |s|
    ensures r.Some? ==> i < r.value.end <= |s| && r.value.text == s[i..r.value.end]
  {
    var n := RunLength(s, i, cls);
    if n == 0 then None else Some(Tok(s[i..i + n], i + n))
  }

  /** `\s+` at `i`, followed by a character that is not white space (or the end). */
  function Spaces(s: string, i: nat): (r: Option<nat>)
    requires i <= |s|
    ensures r.Some? ==> i < r.value <= |s|
  {
    var n := RunLength(s, i, Space);
    if n == 0 then None else Some(i + n)
  }

  /** A literal at `i`. */
  function Literal(s: string, i: nat, lit: string): (r: Option<nat>)
    requires i <= |s|
    ensures r.Some? ==> r.value == i + |lit| <= |s| && s[i..r.value] == lit
  {
    if HasPrefix(s[i..], lit) then Some(i + |lit|) else None
  }

  /** The index of the first newline at or after `i`, or the length: `.` never
      matches a newline, so `.+` from `i` can reach no further. */
  function LineEnd(s: string, i: nat): (e: nat)
    requires i <= |s|
    ensures i <= e <= |s|
    ensures e < |s| ==> s[e] == '\n'
    ensures forall k :: i <= k < e ==> s[k] != '\n'
    decreases |s| - i
  {
    if i == |s| || s[i] == '\n' then i else LineEnd(s, i + 1)
  }

  /** The line from `i` ends at the first newline, or at the end of the input. */
  lemma {:induction false} LineEndAt(s: string, i: nat, e: nat)
    requires i <= e <= |s|
    requires forall k :: i <= k < e ==> s[k] != '\n'
    requires e == |s| || s[e] == '\n'
    ensures LineEnd(s, i) == e
    decreases e - i
  {
    if i < e {
      LineEndAt(s, i + 1, e);
    }
  }

  /** The index of the last character at or after `lo` that is not a newline, or -1. */
  function LastOnLine(s: string, lo: nat): (r: int)
    ensures r == -1 || (lo <= r < |s| && s[r] != '\n')
    ensures forall k :: r < k < |s| && lo <= k ==> s[k] == '\n'
  {
    if |s| <= lo then -1
    else if s[|s| - 1] != '\n' then |s| - 1
    else LastOnLine(s[..|s| - 1], lo)
  }

  /** `\s+(.+)` at `i`: the text after the white space up to the end of its line;
      or, when the white space runs to the end of the input, the last of its
      characters after the first that is not a newline, `\s+` giving it back. */
  function RestAfterSpaces(s: string, i: nat): (r: Option<string>)
    requires i <= |s|
    ensures r.Some? ==> r.value != [] && '\n' !in r.value
  {
    var n := RunLength(s, i, Space);
    if n == 0 then None
    else if i + n < |s| then
      var e := LineEnd(s, i + n);
      assert s[i + n] != '\n' by { RunLengthMaximal(s, i, Space); }
      Some(s[i + n..e])
    else
      var k := LastOnLine(s, i + 1);
      if k >= 0 then Some([s[k]]) else None
  }

  /** The index of the last `c` in `s`, or -1. */
  function LastIndex(s: string, c: char): (r: int)
    ensures -1 <= r < |s|
    ensures r >= 0 ==> s[r] == c
    ensures forall k :: r < k < |s| ==> s[k] != c
  {
    if s == [] then -1
    else if s[|s| - 1] == c then |s| - 1
    else LastIndex(s[..|s| - 1], c)
  }

  /** `"(.+)"` at `i`: the text up to the last quote on the opening quote's
      line, which must leave at least one character after the opening quote. */
  function Quoted(s: string, i: nat): (r: Option<string>)
    requires i <= |s|
    ensures r.Some? ==> r.value != [] && '\n' !in r.value
  {
    if i < |s| && s[i] == '"' then
      var e := LineEnd(s, i);
      var last := LastIndex(s[..e], '"');
      if last >= i + 2 then Some(s[i + 1..last]) else None
    else None
  }

  /** The patterns of intermediate_api.go and intermediate_operation.go. */
  datatype Pattern =
    | KeywordText(keyword: string)                 // keyword\s+(.+)
    | KeywordToken(keyword: string, cls: CharClass)  // keyword\s+(cls+)
    | SubApiPattern    // @SubApi\s+([0-9a-zA-Z]+)\s+\[([/a-zA-Z0-9-]+)\]
    | ParamPattern     // @Param\s+([\w-]+)\s+(\w+)\s+([\w\.]+)\s+(\w+)\s+\"(.+)\"
    | ResponsePattern  // @(Success|Failure)\s+(\d+)\s+\{([\w]+)\}\s+([\w\.]+)\s+\"(.+)\"
    | RouterPattern    // @Router\s+([/\w\d-{}]+)\s+\[(\w+)\]
    | QueryParamPattern  // ([\w-]+)\s+(\w+)\s+([\w\.]+)\s+(.+)

  /** The number of capture groups. */
  function Arity(p: Pattern): nat {
    match p
    case KeywordText(_) => 1
    case KeywordToken(_, _) => 1
    case SubApiPattern => 2
    case ParamPattern => 5
    case ResponsePattern => 5
    case RouterPattern => 2
    case QueryParamPattern => 4
  }

  function MatchSubApi(s: string, i: nat): (r: Option<seq<string>>)
    requires i <= |s|
    ensures r.Some? ==> |r.value| == 2
  {
    var a :- Literal(s, i, "@SubApi");
    var b :- Spaces(s, a);
    var name :- Token(s, b, AlphaNum);
    var c :- Spaces(s, name.end);
    var d :- Literal(s, c, "[");
    var path :- Token(s, d, PathChar);
    var _ :- Literal(s, path.end, "]");
    Some([name.text, path.text])
  }

  /** `(cls+)\s+` at `i`: the run, and the position after the white space that
      follows it. */
  function Field(s: string, i: nat, cls: CharClass): (r: Option<Tok>)
    requires i <= |s|
    ensures r.Some? ==> i < r.value.end <= |s|
  {
    var t :- Token(s, i, cls);
    var e :- Spaces(s, t.end);
    Some(Tok(t.text, e))
  }

  function MatchParam(s: string, i: nat): (r: Option<seq<string>>)
    requires i <= |s|
    ensures r.Some? ==> |r.value| == 5
  {
    var a :- Literal(s, i, "@Param");
    var b :- Spaces(s, a);
    var name :- Field(s, b, WordDash);
    var location :- Field(s, name.end, Word);
    var typ :- Field(s, location.end, WordDot);
    var required :- Field(s, typ.end, Word);
    var description :- Quoted(s, required.end);
    Some([name.text, location.text, typ.text, required.text, description])
  }

  /** `@(Success|Failure)`: the two alternatives differ in their first letter. */
  function Outcome(s: string, i: nat): (r: Option<Tok>)
    requires i <= |s|
    ensures r.Some? ==> i < r.value.end <= |s|
    ensures r.Some? ==> r.value.text == "Success" || r.value.text == "Failure"
  {
    match Literal(s, i, "Success")
    case Some(j) => Some(Tok("Success", j))
    case None =>
      match Literal(s, i, "Failure")
      case Some(j) => Some(Tok("Failure", j))
      case None => None
  }

  /** `\{([\w]+)\}\s+` at `i`: the braced run, and the position after the white
      space that follows the closing brace. */
  function Braced(s: string, i: nat): (r: Option<Tok>)
    requires i <= |s|
    ensures r.Some? ==> i < r.value.end <= |s|
  {
    var a :- Literal(s, i, "{");
    var meta :- Token(s, a, Word);
    var b :- Literal(s, meta.end, "}");
    var c :- Spaces(s, b);
    Some(Tok(meta.text, c))
  }

  function MatchResponse(s: string, i: nat): (r: Option<seq<string>>)
    requires i <= |s|
    ensures r.Some? ==> |r.value| == 5
    ensures r.Some? ==> r.value[0] == "Success" || r.value[0] == "Failure"
  {
    var a :- Literal(s, i, "@");
    var outcome :- Outcome(s, a);
    var b :- Spaces(s, outcome.end);
    var code :- Field(s, b, Digit);
    var meta :- Braced(s, code.end);
    var typ :- Field(s, meta.end, WordDot);
    var description :- Quoted(s, typ.end);
    Some([outcome.text, code.text, meta.text, typ.text, description])
  }

  function MatchRouter(s: string, i: nat): (r: Option<seq<string>>)
    requires i <= |s|
    ensures r.Some? ==> |r.value| == 2
  {
    var a :- Literal(s, i, "@Router");
    var b :- Spaces(s, a);
    var path :- Token(s, b, RouterChar);
    var c :- Spaces(s, path.end);
    var d :- Literal(s, c, "[");
    var verb :- Token(s, d, Word);
    var _ :- Literal(s, verb.end, "]");
    Some([path.text, verb.text])
  }

  function MatchQueryParam(s: string, i: nat): (r: Option<seq<string>>)
    requires i <= |s|
    ensures r.Some? ==> |r.value| == 4
  {
    var name :- Token(s, i, WordDash);
    var a :- Spaces(s, name.end);
    var typ :- Token(s, a, Word);
    var b :- Spaces(s, typ.end);
    var required :- Token(s, b, WordDot);
    var description :- RestAfterSpaces(s, required.end);
    Some([name.text, typ.text, required.text, description])
  }

  /** The captures of a match of `p` that starts at `i`. */
  function MatchAt(p: Pattern, s: string, i: nat): (r: Option<seq<string>>)
    requires i <= |s|
    ensures r.Some? ==> |r.value| == Arity(p)
    ensures r.Some? && p.ResponsePattern? ==> r.value[0] == "Success" || r.value[0] == "Failure"
  {
    match p
    case KeywordText(keyword) =>
      var a :- Literal(s, i, keyword);
      var text :- RestAfterSpaces(s, a);
      Some([text])
    case KeywordToken(keyword, cls) =>
      var a :- Literal(s, i, keyword);
      var b :- Spaces(s, a);
      var tok :- Token(s, b, cls);
      Some([tok.text])
    case SubApiPattern => MatchSubApi(s, i)
    case ParamPattern => MatchParam(s, i)
    case ResponsePattern => MatchResponse(s, i)
    case RouterPattern => MatchRouter(s, i)
    case QueryParamPattern => MatchQueryParam(s, i)
  }

  /** The leftmost start at or after `i` where `p` matches. */
  function FirstMatch(p: Pattern, s: string, i: nat): (r: Option<nat>)
    requires i <= |s| + 1
    ensures r.Some? ==> i <= r.value <= |s| && MatchAt(p, s, r.value).Some?
    ensures forall k :: i <= k <= |s| && (r.None? || k < r.value) ==> MatchAt(p, s, k).None?
    decreases |s| + 1 - i
  {
    if i > |s| then None
    else if MatchAt(p, s, i).Some? then Some(i)
    else FirstMatch(p, s, i + 1)
  }

  /** `FindStringSubmatch` without the whole match: the captures of the leftmost
      match, or `None` (`nil`) when `MatchString` is false. */
  function Find(p: Pattern, s: string): (r: Option<seq<string>>)
    ensures r.Some? ==> |r.value| == Arity(p)
    ensures r.Some? && p.ResponsePattern? ==> r.value[0] == "Success" || r.value[0] == "Failure"
    ensures r.None? <==> forall k :: 0 <= k <= |s| ==> MatchAt(p, s, k).None?
  {
    match FirstMatch(p, s, 0)
    case Some(i) => MatchAt(p, s, i)
    case None => None
  }

  // ---- how annotations as they are usually written are matched ----

  /** A maximal run is found as such. */
  lemma {:induction false} RunOf(s: string, i: nat, n: nat, cls: CharClass)
    requires i + n <= |s|
    requires forall k :: i <= k < i + n ==> InClass(s[k], cls)
    requires i + n == |s| || !InClass(s[i + n], cls)
    ensures RunLength(s, i, cls) == n
    decreases n
  {
    if n > 0 {
      RunOf(s, i + 1, n - 1, cls);
    }
  }

  predicate AllIn(t: string, cls: CharClass) {
    forall k :: 0 <= k < |t| ==> InClass(t[k], cls)
  }

  /** `keyword pad text`, with white space `pad` and a `text` that does not start
      with white space, captures `text` when `keyword` starts the line. */
  lemma KeywordTextCaptures(keyword: string, pad: string, text: string)
    requires keyword != [] && pad != [] && text != []
    requires AllIn(pad, Space) && !InClass(text[0], Space) && '\n' !in text
    ensures Find(KeywordText(keyword), keyword + pad + text) == Some([text])
  {
    var s := keyword + pad + text;
    assert s[..|keyword|] == keyword;
    assert Literal(s, 0, keyword) == Some(|keyword|);
    KeywordTextRest(s, keyword, pad, text);
    assert MatchAt(KeywordText(keyword), s, 0) == Some([text]);
  }

  /** `(.+)` stops at a newline: the text of a keyword line is captured up to
      the end of its line, whatever follows. */
  lemma KeywordTextStopsAtNewline(keyword: string, pad: string, text: string, rest: string)
    requires keyword != [] && pad != [] && text != []
    requires AllIn(pad, Space) && !InClass(text[0], Space) && '\n' !in text
    ensures Find(KeywordText(keyword), keyword + pad + text + "\n" + rest) == Some([text])
  {
    var s := keyword + pad + text + "\n" + rest;
    var p := |keyword| + |pad|;
    var e := p + |text|;
    assert s[..|keyword|] == keyword;
    assert Literal(s, 0, keyword) == Some(|keyword|);
    RunOf(s, |keyword|, |pad|, Space);
    assert forall k :: p <= k < e ==> s[k] == text[k - p];
    assert s[e] == '\n';
    LineEndAt(s, p, e);
    assert s[p..e] == text;
    assert MatchAt(KeywordText(keyword), s, 0) == Some([text]);
  }

  /** White space that runs, through a newline, to the end of the input
      leaves `(.+)` nothing to match. */
  lemma KeywordTextBlankLine()
    ensures Find(KeywordText("@Title"), "@Title \n") == None
  {
    var s := "@Title \n";
    assert RunLength(s, 6, Space) == 2;
    assert LastOnLine(s, 7) == -1;
    forall i | 0 <= i <= |s| ensures MatchAt(KeywordText("@Title"), s, i) == None {
      if 0 < i <= 2 {
        assert s[i..][0] != '@';
      }
    }
  }

  lemma KeywordTextRest(s: string, keyword: string, pad: string, text: string)
    requires s == keyword + pad + text
    requires pad != [] && text != []
    requires AllIn(pad, Space) && !InClass(text[0], Space) && '\n' !in text
    ensures RestAfterSpaces(s, |keyword|) == Some(text)
  {
    var p := |keyword| + |pad|;
    RunOf(s, |keyword|, |pad|, Space);
    assert forall k :: p <= k < |s| ==> s[k] == text[k - p];
    LineEndAt(s, p, |s|);
    assert s[p..|s|] == text;
  }

  lemma TokenAt(s: string, i: nat, t: string, cls: CharClass)
    requires i + |t| <= |s| && s[i..i + |t|] == t
    requires t != [] && AllIn(t, cls)
    requires i + |t| == |s| || !InClass(s[i + |t|], cls)
    ensures Token(s, i, cls) == Some(Tok(t, i + |t|))
  {
    forall k | i <= k < i + |t| ensures InClass(s[k], cls) {
      assert s[k] == t[k - i];
    }
    RunOf(s, i, |t|, cls);
  }

  lemma SpaceAt(s: string, i: nat)
    requires i < |s| && s[i] == ' '
    requires i + 1 == |s| || !InClass(s[i + 1], Space)
    ensures Spaces(s, i) == Some(i + 1)
  {
    RunOf(s, i, 1, Space);
  }

  function RouterLine(path: string, verb: string): string {
    "@Router " + path + " [" + verb + "]"
  }

  lemma RouterHead(path: string, verb: string)
    requires path != [] && AllIn(path, RouterChar)
    ensures Literal(RouterLine(path, verb), 0, "@Router") == Some(7)
    ensures Spaces(RouterLine(path, verb), 7) == Some(8)
    ensures Token(RouterLine(path, verb), 8, RouterChar) == Some(Tok(path, 8 + |path|))
  {
    var s := RouterLine(path, verb);
    var p1 := 8 + |path|;
    assert s[..7] == "@Router";
    SpaceAt(s, 7);
    TokenAt(s, 8, path, RouterChar) by {
      assert s[8..p1] == path;
      assert s[p1] == ' ';
    }
  }

  lemma RouterTail(path: string, verb: string)
    requires verb != [] && AllIn(verb, Word)
    ensures var s, p1 := RouterLine(path, verb), 8 + |path|;
      && Spaces(s, p1) == Some(p1 + 1)
      && Literal(s, p1 + 1, "[") == Some(p1 + 2)
      && Token(s, p1 + 2, Word) == Some(Tok(verb, p1 + 2 + |verb|))
      && Literal(s, p1 + 2 + |verb|, "]") == Some(p1 + 3 + |verb|)
  {
    var s := RouterLine(path, verb);
    var p1 := 8 + |path|;
    var p3 := p1 + 2 + |verb|;
    SpaceAt(s, p1);
    assert s[p1 + 1..][..1] == "[";
    TokenAt(s, p1 + 2, verb, Word) by {
      assert s[p1 + 2..p3] == verb;
      assert s[p3] == ']';
    }
    assert s[p3..] == "]";
  }

  /** `@Router path [verb]` captures the path and the verb. */
  lemma RouterCaptures(path: string, verb: string)
    requires path != [] && verb != []
    requires AllIn(path, RouterChar) && AllIn(verb, Word)
    ensures Find(RouterPattern, RouterLine(path, verb)) == Some([path, verb])
  {
    RouterHead(path, verb);
    RouterTail(path, verb);
    assert MatchAt(RouterPattern, RouterLine(path, verb), 0) == Some([path, verb]);
  }

  function QueryParamLine(name: string, typ: string, required: string, description: string): string {
    name + " " + typ + " " + required + " " + description
  }

  lemma QueryParamName(s: string, name: string, typ: string, required: string, description: string)
    requires s == QueryParamLine(name, typ, required, description)
    requires name != [] && AllIn(name, WordDash)
    ensures Token(s, 0, WordDash) == Some(Tok(name, |name|))
  {
    TokenAt(s, 0, name, WordDash) by {
      assert s[..|name|] == name;
      assert s[|name|] == ' ';
    }
  }

  lemma QueryParamType(s: string, name: string, typ: string, required: string, description: string, p1: nat, p2: nat)
    requires s == QueryParamLine(name, typ, required, description)
    requires p1 == |name| && p2 == p1 + 1 + |typ|
    requires typ != [] && AllIn(typ, Word)
    ensures Spaces(s, p1) == Some(p1 + 1)
    ensures Token(s, p1 + 1, Word) == Some(Tok(typ, p2))
  {
    SpaceAt(s, p1) by {
      assert s[p1 + 1] == typ[0];
    }
    TokenAt(s, p1 + 1, typ, Word) by {
      assert forall k :: 0 <= k < |typ| ==> s[p1 + 1 + k] == typ[k];
      assert s[p1 + 1..p2] == typ;
      assert s[p2] == ' ';
    }
  }

  lemma QueryParamRequired(s: string, name: string, typ: string, required: string, description: string, p2: nat, p3: nat)
    requires s == QueryParamLine(name, typ, required, description)
    requires p2 == |name| + 1 + |typ| && p3 == p2 + 1 + |required|
    requires required != [] && AllIn(required, WordDot)
    ensures Spaces(s, p2) == Some(p2 + 1)
    ensures Token(s, p2 + 1, WordDot) == Some(Tok(required, p3))
  {
    SpaceAt(s, p2) by {
      assert s[p2 + 1] == required[0];
    }
    TokenAt(s, p2 + 1, required, WordDot) by {
      assert s[p2 + 1..p3] == required;
      assert s[p3] == ' ';
    }
  }

  lemma QueryParamDescription(s: string, name: string, typ: string, required: string, description: string, p3: nat)
    requires s == QueryParamLine(name, typ, required, description)
    requires p3 == |name| + 1 + |typ| + 1 + |required|
    requires description != [] && !InClass(description[0], Space) && '\n' !in description
    ensures RestAfterSpaces(s, p3) == Some(description)
  {
    assert forall k :: p3 + 1 <= k < |s| ==> s[k] == description[k - p3 - 1];
    assert s[p3 + 1..|s|] == description;
    RunOf(s, p3, 1, Space);
    LineEndAt(s, p3 + 1, |s|);
  }

  lemma QueryParamMatch(s: string, name: string, typ: string, required: string, description: string, p1: nat, p2: nat, p3: nat)
    requires Token(s, 0, WordDash) == Some(Tok(name, p1))
    requires Spaces(s, p1) == Some(p1 + 1)
    requires Token(s, p1 + 1, Word) == Some(Tok(typ, p2))
    requires Spaces(s, p2) == Some(p2 + 1)
    requires Token(s, p2 + 1, WordDot) == Some(Tok(required, p3))
    requires RestAfterSpaces(s, p3) == Some(description)
    ensures Find(QueryParamPattern, s) == Some([name, typ, required, description])
  {
    assert MatchAt(QueryParamPattern, s, 0) == Some([name, typ, required, description]);
  }

  /** A query-string parameter line `name type required description` captures
      its four parts. */
  lemma QueryParamCaptures(name: string, typ: string, required: string, description: string)
    requires name != [] && typ != [] && required != [] && description != []
    requires AllIn(name, WordDash) && AllIn(typ, Word) && AllIn(required, WordDot)
    requires !InClass(description[0], Space) && '\n' !in description
    ensures Find(QueryParamPattern, QueryParamLine(name, typ, required, description))
            == Some([name, typ, required, description])
  {
    var s := QueryParamLine(name, typ, required, description);
    var p1 := |name|;
    var p2 := p1 + 1 + |typ|;
    var p3 := p2 + 1 + |required|;
    QueryParamName(s, name, typ, required, description);
    QueryParamType(s, name, typ, required, description, p1, p2);
    QueryParamRequired(s, name, typ, required, description, p2, p3);
    QueryParamDescription(s, name, typ, required, description, p3);
    QueryParamMatch(s, name, typ, required, description, p1, p2, p3);
  }


  function SubApiLine(name: string, path: string): string {
    "@SubApi " + name + " [" + path + "]"
  }

  lemma SubApiHead(s: string, name: string, path: string)
    requires s == SubApiLine(name, path)
    requires name != [] && AllIn(name, AlphaNum)
    ensures Literal(s, 0, "@SubApi") == Some(7)
    ensures Spaces(s, 7) == Some(8)
    ensures Token(s, 8, AlphaNum) == Some(Tok(name, 8 + |name|))
  {
    var p1 := 8 + |name|;
    assert s[..7] == "@SubApi";
    SpaceAt(s, 7);
    TokenAt(s, 8, name, AlphaNum) by {
      assert s[8..p1] == name;
      assert s[p1] == ' ';
    }
  }

  lemma SubApiTail(s: string, name: string, path: string)
    requires s == SubApiLine(name, path)
    requires path != [] && AllIn(path, PathChar)
    ensures var p1 := 8 + |name|;
      && Spaces(s, p1) == Some(p1 + 1)
      && Literal(s, p1 + 1, "[") == Some(p1 + 2)
      && Token(s, p1 + 2, PathChar) == Some(Tok(path, p1 + 2 + |path|))
      && Literal(s, p1 + 2 + |path|, "]") == Some(p1 + 3 + |path|)
  {
    var p1 := 8 + |name|;
    var p3 := p1 + 2 + |path|;
    SpaceAt(s, p1);
    assert s[p1 + 1..][..1] == "[";
    TokenAt(s, p1 + 2, path, PathChar) by {
      assert s[p1 + 2..p3] == path;
      assert s[p3] == ']';
    }
    assert s[p3..] == "]";
  }

  /** `@SubApi name [path]` captures the name and the path. */
  lemma SubApiCaptures(name: string, path: string)
    requires name != [] && path != []
    requires AllIn(name, AlphaNum) && AllIn(path, PathChar)
    ensures Find(SubApiPattern, SubApiLine(name, path)) == Some([name, path])
  {
    var s := SubApiLine(name, path);
    SubApiHead(s, name, path);
    SubApiTail(s, name, path);
    assert MatchAt(SubApiPattern, s, 0) == Some([name, path]);
  }

  /** `(cls+)\s+` at `i` when `t` is followed by one space. */
  lemma FieldAt(s: string, i: nat, t: string, cls: CharClass)
    requires i + |t| < |s| && s[i..i + |t|] == t && t != [] && AllIn(t, cls)
    requires s[i + |t|] == ' ' && !InClass(' ', cls)
    requires i + |t| + 1 == |s| || !InClass(s[i + |t| + 1], Space)
    ensures Field(s, i, cls) == Some(Tok(t, i + |t| + 1))
  {
    TokenAt(s, i, t, cls);
    SpaceAt(s, i + |t|);
  }

  /** `"(.+)"` from `f` when the line ends with the closing quote. */
  lemma QuotedAt(s: string, f: nat, description: string)
    requires f + |description| + 2 == |s| && description != []
    requires s[f] == '"' && s[|s| - 1] == '"' && s[f + 1..|s| - 1] == description
    requires '\n' !in description
    ensures Quoted(s, f) == Some(description)
  {
    assert forall k :: f + 1 <= k < |s| - 1 ==> s[k] == description[k - f - 1];
    LineEndAt(s, f, |s|);
    assert s[..|s|] == s;
    assert LastIndex(s, '"') == |s| - 1;
  }

  function ParamAnnotation(name: string, location: string, typ: string, required: string, description: string): string {
    "@Param " + name + " " + location + " " + typ + " " + required + " \"" + description + "\""
  }

  /** The parts of a `@Param` line as the pattern's groups take them. */
  predicate ParamParts(name: string, location: string, typ: string, required: string, description: string) {
    && name != [] && location != [] && typ != [] && required != [] && description != [] && '\n' !in description
    && AllIn(name, WordDash) && AllIn(location, Word) && AllIn(typ, WordDot) && AllIn(required, Word)
  }

  lemma ParamName(s: string, name: string, location: string, typ: string, required: string, description: string)
    requires s == ParamAnnotation(name, location, typ, required, description)
    requires ParamParts(name, location, typ, required, description)
    ensures Literal(s, 0, "@Param") == Some(6)
    ensures Spaces(s, 6) == Some(7)
    ensures Field(s, 7, WordDash) == Some(Tok(name, 8 + |name|))
  {
    var p1 := 7 + |name|;
    assert s[..6] == "@Param";
    SpaceAt(s, 6);
    FieldAt(s, 7, name, WordDash) by {
      assert forall k :: 0 <= k < |name| ==> s[7 + k] == name[k];
      assert s[7..p1] == name;
      assert s[p1] == ' ';
      assert s[p1 + 1] == location[0];
    }
  }

  lemma ParamLocation(s: string, name: string, location: string, typ: string, required: string, description: string)
    requires s == ParamAnnotation(name, location, typ, required, description)
    requires ParamParts(name, location, typ, required, description)
    ensures Field(s, 8 + |name|, Word) == Some(Tok(location, 9 + |name| + |location|))
  {
    var p1 := 7 + |name|;
    var p2 := p1 + 1 + |location|;
    FieldAt(s, p1 + 1, location, Word) by {
      assert forall k :: 0 <= k < |location| ==> s[p1 + 1 + k] == location[k];
      assert s[p1 + 1..p2] == location;
      assert s[p2] == ' ';
      assert s[p2 + 1] == typ[0];
    }
  }

  lemma ParamType(s: string, name: string, location: string, typ: string, required: string, description: string)
    requires s == ParamAnnotation(name, location, typ, required, description)
    requires ParamParts(name, location, typ, required, description)
    ensures Field(s, 9 + |name| + |location|, WordDot) == Some(Tok(typ, 10 + |name| + |location| + |typ|))
  {
    var p2 := 8 + |name| + |location|;
    var p3 := p2 + 1 + |typ|;
    FieldAt(s, p2 + 1, typ, WordDot) by {
      assert forall k :: 0 <= k < |typ| ==> s[p2 + 1 + k] == typ[k];
      assert s[p2 + 1..p3] == typ;
      assert s[p3] == ' ';
      assert s[p3 + 1] == required[0];
    }
  }

  lemma ParamRequired(s: string, name: string, location: string, typ: string, required: string, description: string)
    requires s == ParamAnnotation(name, location, typ, required, description)
    requires ParamParts(name, location, typ, required, description)
    ensures Field(s, 10 + |name| + |location| + |typ|, Word) == Some(Tok(required, 11 + |name| + |location| + |typ| + |required|))
  {
    var p3 := 9 + |name| + |location| + |typ|;
    var p4 := p3 + 1 + |required|;
    FieldAt(s, p3 + 1, required, Word) by {
      assert forall k :: 0 <= k < |required| ==> s[p3 + 1 + k] == required[k];
      assert s[p3 + 1..p4] == required;
      assert s[p4] == ' ';
      assert s[p4 + 1] == '"';
    }
  }

  lemma ParamDescription(s: string, name: string, location: string, typ: string, required: string, description: string)
    requires s == ParamAnnotation(name, location, typ, required, description)
    requires ParamParts(name, location, typ, required, description)
    ensures Quoted(s, 11 + |name| + |location| + |typ| + |required|) == Some(description)
  {
    var p4 := 10 + |name| + |location| + |typ| + |required|;
    QuotedAt(s, p4 + 1, description) by {
      assert s[p4 + 1] == '"';
      assert s[|s| - 1] == '"';
      assert forall k :: 0 <= k < |description| ==> s[p4 + 2 + k] == description[k];
      assert s[p4 + 2..|s| - 1] == description;
    }
  }

  lemma ParamMatchAt(s: string, name: string, location: string, typ: string, required: string, description: string, e1: nat, e2: nat, e3: nat, e4: nat)
    requires Literal(s, 0, "@Param") == Some(6) && Spaces(s, 6) == Some(7)
    requires Field(s, 7, WordDash) == Some(Tok(name, e1))
    requires Field(s, e1, Word) == Some(Tok(location, e2))
    requires Field(s, e2, WordDot) == Some(Tok(typ, e3))
    requires Field(s, e3, Word) == Some(Tok(required, e4))
    requires e4 <= |s| && Quoted(s, e4) == Some(description)
    ensures Find(ParamPattern, s) == Some([name, location, typ, required, description])
  {
    assert MatchParam(s, 0) == Some([name, location, typ, required, description]);
    assert MatchAt(ParamPattern, s, 0) == Some([name, location, typ, required, description]);
  }

  lemma ParamMatch(s: string, name: string, location: string, typ: string, required: string, description: string)
    requires 11 + |name| + |location| + |typ| + |required| <= |s|
    requires Literal(s, 0, "@Param") == Some(6) && Spaces(s, 6) == Some(7)
    requires Field(s, 7, WordDash) == Some(Tok(name, 8 + |name|))
    requires Field(s, 8 + |name|, Word) == Some(Tok(location, 9 + |name| + |location|))
    requires Field(s, 9 + |name| + |location|, WordDot) == Some(Tok(typ, 10 + |name| + |location| + |typ|))
    requires Field(s, 10 + |name| + |location| + |typ|, Word) == Some(Tok(required, 11 + |name| + |location| + |typ| + |required|))
    requires Quoted(s, 11 + |name| + |location| + |typ| + |required|) == Some(description)
    ensures Find(ParamPattern, s) == Some([name, location, typ, required, description])
  {
    ParamMatchAt(s, name, location, typ, required, description, 8 + |name|, 9 + |name| + |location|,
                 10 + |name| + |location| + |typ|, 11 + |name| + |location| + |typ| + |required|);
  }

  /** `@Param name in type required "description"` captures its five parts: the
      description is everything between the first quote after the required flag
      and the last quote of the line. */
  lemma ParamCaptures(name: string, location: string, typ: string, required: string, description: string)
    requires ParamParts(name, location, typ, required, description)
    ensures Find(ParamPattern, ParamAnnotation(name, location, typ, required, description))
            == Some([name, location, typ, required, description])
  {
    var s := ParamAnnotation(name, location, typ, required, description);
    ParamName(s, name, location, typ, required, description);
    ParamLocation(s, name, location, typ, required, description);
    ParamType(s, name, location, typ, required, description);
    ParamRequired(s, name, location, typ, required, description);
    ParamDescription(s, name, location, typ, required, description);
    ParamMatch(s, name, location, typ, required, description);
  }

  function ResponseAnnotation(outcome: string, code: string, meta: string, typ: string, description: string): string {
    "@" + outcome + " " + code + " {" + meta + "} " + typ + " \"" + description + "\""
  }

  /** The parts of a `@Success` or `@Failure` line as the pattern's groups take them. */
  predicate ResponseParts(outcome: string, code: string, meta: string, typ: string, description: string) {
    && (outcome == "Success" || outcome == "Failure")
    && code != [] && meta != [] && typ != [] && description != [] && '\n' !in description
    && AllIn(code, Digit) && AllIn(meta, Word) && AllIn(typ, WordDot)
  }

  lemma ResponseHead(s: string, outcome: string, code: string, meta: string, typ: string, description: string)
    requires s == ResponseAnnotation(outcome, code, meta, typ, description)
    requires ResponseParts(outcome, code, meta, typ, description)
    ensures Literal(s, 0, "@") == Some(1)
    ensures Outcome(s, 1) == Some(Tok(outcome, 8))
    ensures Spaces(s, 8) == Some(9)
  {
    assert s[..1] == "@";
    assert s[1..][..7] == outcome;
    assert s[1] == outcome[0];
    SpaceAt(s, 8) by {
      assert s[9] == code[0];
    }
  }

  lemma ResponseCode(s: string, outcome: string, code: string, meta: string, typ: string, description: string)
    requires s == ResponseAnnotation(outcome, code, meta, typ, description)
    requires ResponseParts(outcome, code, meta, typ, description)
    ensures Field(s, 9, Digit) == Some(Tok(code, 10 + |code|))
  {
    var c := 9 + |code|;
    FieldAt(s, 9, code, Digit) by {
      assert forall k :: 0 <= k < |code| ==> s[9 + k] == code[k];
      assert s[9..c] == code;
      assert s[c] == ' ';
      assert s[c + 1] == '{';
    }
  }

  lemma ResponseMetaOpen(s: string, outcome: string, code: string, meta: string, typ: string, description: string)
    requires s == ResponseAnnotation(outcome, code, meta, typ, description)
    requires ResponseParts(outcome, code, meta, typ, description)
    ensures Literal(s, 10 + |code|, "{") == Some(11 + |code|)
    ensures Token(s, 11 + |code|, Word) == Some(Tok(meta, 11 + |code| + |meta|))
  {
    var c := 10 + |code|;
    var m := c + 1 + |meta|;
    assert s[c] == '{';
    assert s[c..][..1] == "{";
    TokenAt(s, c + 1, meta, Word) by {
      assert forall k :: 0 <= k < |meta| ==> s[c + 1 + k] == meta[k];
      assert s[c + 1..m] == meta;
      assert s[m] == '}';
    }
  }

  lemma ResponseMetaClose(s: string, outcome: string, code: string, meta: string, typ: string, description: string)
    requires s == ResponseAnnotation(outcome, code, meta, typ, description)
    requires ResponseParts(outcome, code, meta, typ, description)
    ensures Literal(s, 11 + |code| + |meta|, "}") == Some(12 + |code| + |meta|)
    ensures Spaces(s, 12 + |code| + |meta|) == Some(13 + |code| + |meta|)
  {
    var m := 11 + |code| + |meta|;
    assert s[m] == '}';
    assert s[m..][..1] == "}";
    SpaceAt(s, m + 1) by {
      assert s[m + 1] == ' ';
      assert s[m + 2] == typ[0];
    }
  }

  /** `\{([\w]+)\}\s+` from its four parts. */
  lemma BracedOf(s: string, i: nat, meta: string, m: nat, e: nat)
    requires i + 1 <= |s| && Literal(s, i, "{") == Some(i + 1)
    requires Token(s, i + 1, Word) == Some(Tok(meta, m))
    requires Literal(s, m, "}") == Some(m + 1)
    requires Spaces(s, m + 1) == Some(e)
    ensures Braced(s, i) == Some(Tok(meta, e))
  {
  }

  lemma ResponseMeta(s: string, outcome: string, code: string, meta: string, typ: string, description: string)
    requires s == ResponseAnnotation(outcome, code, meta, typ, description)
    requires ResponseParts(outcome, code, meta, typ, description)
    ensures Braced(s, 10 + |code|) == Some(Tok(meta, 13 + |code| + |meta|))
  {
    ResponseMetaOpen(s, outcome, code, meta, typ, description);
    ResponseMetaClose(s, outcome, code, meta, typ, description);
    BracedOf(s, 10 + |code|, meta, 11 + |code| + |meta|, 13 + |code| + |meta|);
  }

  lemma ResponseType(s: string, outcome: string, code: string, meta: string, typ: string, description: string)
    requires s == ResponseAnnotation(outcome, code, meta, typ, description)
    requires ResponseParts(outcome, code, meta, typ, description)
    ensures Field(s, 13 + |code| + |meta|, WordDot) == Some(Tok(typ, 14 + |code| + |meta| + |typ|))
  {
    var e2 := 13 + |code| + |meta|;
    var t := e2 + |typ|;
    FieldAt(s, e2, typ, WordDot) by {
      assert forall k :: 0 <= k < |typ| ==> s[e2 + k] == typ[k];
      assert s[e2..t] == typ;
      assert s[t] == ' ';
      assert s[t + 1] == '"';
    }
  }

  lemma ResponseDescription(s: string, outcome: string, code: string, meta: string, typ: string, description: string)
    requires s == ResponseAnnotation(outcome, code, meta, typ, description)
    requires ResponseParts(outcome, code, meta, typ, description)
    ensures Quoted(s, 14 + |code| + |meta| + |typ|) == Some(description)
  {
    var e3 := 14 + |code| + |meta| + |typ|;
    QuotedAt(s, e3, description) by {
      assert s[e3] == '"';
      assert s[|s| - 1] == '"';
      assert forall k :: 0 <= k < |description| ==> s[e3 + 1 + k] == description[k];
      assert s[e3 + 1..|s| - 1] == description;
    }
  }

  lemma ResponseMatchAt(s: string, outcome: string, code: string, meta: string, typ: string, description: string, e1: nat, e2: nat, e3: nat)
    requires Literal(s, 0, "@") == Some(1) && Outcome(s, 1) == Some(Tok(outcome, 8)) && Spaces(s, 8) == Some(9)
    requires Field(s, 9, Digit) == Some(Tok(code, e1))
    requires Braced(s, e1) == Some(Tok(meta, e2))
    requires Field(s, e2, WordDot) == Some(Tok(typ, e3))
    requires e3 <= |s| && Quoted(s, e3) == Some(description)
    ensures Find(ResponsePattern, s) == Some([outcome, code, meta, typ, description])
  {
    assert MatchResponse(s, 0) == Some([outcome, code, meta, typ, description]);
    assert MatchAt(ResponsePattern, s, 0) == Some([outcome, code, meta, typ, description]);
  }

  lemma ResponseMatch(s: string, outcome: string, code: string, meta: string, typ: string, description: string)
    requires 14 + |code| + |meta| + |typ| <= |s|
    requires Literal(s, 0, "@") == Some(1) && Outcome(s, 1) == Some(Tok(outcome, 8)) && Spaces(s, 8) == Some(9)
    requires Field(s, 9, Digit) == Some(Tok(code, 10 + |code|))
    requires Braced(s, 10 + |code|) == Some(Tok(meta, 13 + |code| + |meta|))
    requires Field(s, 13 + |code| + |meta|, WordDot) == Some(Tok(typ, 14 + |code| + |meta| + |typ|))
    requires Quoted(s, 14 + |code| + |meta| + |typ|) == Some(description)
    ensures Find(ResponsePattern, s) == Some([outcome, code, meta, typ, description])
  {
    ResponseMatchAt(s, outcome, code, meta, typ, description, 10 + |code|, 13 + |code| + |meta|, 14 + |code| + |meta| + |typ|);
  }

  /** `@Success code {meta} type "description"` (or `@Failure …`) captures the
      outcome, the code, the meta type, the type and the description. */
  lemma ResponseCaptures(outcome: string, code: string, meta: string, typ: string, description: string)
    requires ResponseParts(outcome, code, meta, typ, description)
    ensures Find(ResponsePattern, ResponseAnnotation(outcome, code, meta, typ, description))
            == Some([outcome, code, meta, typ, description])
  {
    var s := ResponseAnnotation(outcome, code, meta, typ, description);
    ResponseHead(s, outcome, code, meta, typ, description);
    ResponseCode(s, outcome, code, meta, typ, description);
    ResponseMeta(s, outcome, code, meta, typ, description);
    ResponseType(s, outcome, code, meta, typ, description);
    ResponseDescription(s, outcome, code, meta, typ, description);
    ResponseMatch(s, outcome, code, meta, typ, description);
  }
}

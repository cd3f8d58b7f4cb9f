/** Sections of an annotation comment (section.go): a header line
    `OpenAPI <something>:` opens a section, the lines after it up to the next
    header form its body, and uniform indentation is stripped from each body. */
module Sections {
  import opened Strings
  import opened Wrappers

  // ---- indexed access to the non-blank body lines ----

  /** The trimmed, non-empty lines among `ls`, in order. */
  function NonBlank(ls: seq<string>): (r: seq<string>)
    ensures |r| <= |ls|
    ensures forall k :: 0 <= k < |r| ==> r[k] != "" && Trimmed(r[k])
  {
    if ls == [] then []
    else
      var line := TrimSpace(ls[|ls| - 1]);
      NonBlank(ls[..|ls| - 1]) + (if line == "" then [] else [line])
  }

  /** The lines `Lines` hands out for a body. */
  function BodyLines(body: string): seq<string> {
    NonBlank(Split(body, '\n'))
  }

  lemma {:induction false} NonBlankAppend(a: seq<string>, b: seq<string>)
    ensures NonBlank(a + b) == NonBlank(a) + NonBlank(b)
    decreases |b|
  {
    if b == [] {
      assert a + b == a;
    } else {
      var b' := b[..|b| - 1];
      assert (a + b)[..|a + b| - 1] == a + b';
      assert (a + b)[|a + b| - 1] == b[|b| - 1];
      NonBlankAppend(a, b');
    }
  }

  /** A line is kept, trimmed, exactly when it is not blank. */
  lemma {:induction false} NonBlankMembers(ls: seq<string>, x: string)
    ensures x in NonBlank(ls) <==> x != "" && exists k :: 0 <= k < |ls| && x == TrimSpace(ls[k])
  {
    if ls != [] {
      var init := ls[..|ls| - 1];
      NonBlankMembers(init, x);
      if x != "" && exists k :: 0 <= k < |ls| && x == TrimSpace(ls[k]) {
        var k :| 0 <= k < |ls| && x == TrimSpace(ls[k]);
        if k < |init| {
          assert init[k] == ls[k];
        }
      }
      if x in NonBlank(init) {
        var k :| 0 <= k < |init| && x == TrimSpace(init[k]);
        assert ls[k] == init[k];
      }
    }
  }

  /** Taking the non-blank lines of the non-blank lines changes nothing. */
  lemma {:induction false} NonBlankIdempotent(ls: seq<string>)
    ensures NonBlank(NonBlank(ls)) == NonBlank(ls)
  {
    if ls != [] {
      var init := ls[..|ls| - 1];
      var line := TrimSpace(ls[|ls| - 1]);
      var tail := if line == "" then [] else [line];
      NonBlankIdempotent(init);
      NonBlankAppend(NonBlank(init), tail);
      if line != "" {
        assert NonBlank(tail) == NonBlank([]) + [line] by {
          assert tail[..0] == [];
        }
      }
    }
  }

  datatype Section = Section(title: string, body: string)
  {
    /** `Line`: the `i`-th non-blank line of the body and `true`, or `""` and
        `false` past the last one. */
    function Line(i: int): (r: (string, bool))
      requires i >= 0
      ensures r.1 <==> i < |BodyLines(body)|
      ensures r.1 ==> r.0 == BodyLines(body)[i] && r.0 != "" && Trimmed(r.0)
      ensures !r.1 ==> r.0 == ""
    {
      var lines := BodyLines(body);
      if i >= |lines| then ("", false) else (lines[i], true)
    }

    /** `Lines`: the body split on newlines, each piece trimmed, blank pieces dropped. */
    method Lines() returns (out: seq<string>)
      ensures out == BodyLines(body)
    {
      var pieces := Split(body, '\n');
      out := [];
      for k := 0 to |pieces|
        invariant out == NonBlank(pieces[..k])
      {
        assert pieces[..k + 1][..k] == pieces[..k];
        var line := TrimSpace(pieces[k]);
        if line != "" {
          out := out + [line];
        }
      }
      assert pieces[..|pieces|] == pieces;
    }
  }

  /** The lines of a body written line by line are its non-blank lines. */
  lemma BodyLinesOfTerminated(ls: seq<string>)
    requires forall k :: 0 <= k < |ls| ==> '\n' !in ls[k]
    ensures BodyLines(Terminated(ls)) == NonBlank(ls)
  {
    SplitTerminated(ls);
    NonBlankAppend(ls, [""]);
    assert NonBlank([""]) == [] by {
      assert [""][..0] == [];
    }
  }

  // ---- trimPrefixMultiline ----

  /** The output line for one input line: blank lines become empty, others lose `prefix`. */
  function StripLine(line: string, prefix: string): string {
    if TrimSpace(line) == "" then "" else TrimPrefix(line, prefix)
  }

  predicate AllPrefixed(lines: seq<string>, prefix: string) {
    forall k :: 0 <= k < |lines| ==> TrimSpace(lines[k]) == "" || HasPrefix(lines[k], prefix)
  }

  function StripLines(lines: seq<string>, prefix: string): (r: seq<string>)
    ensures |r| == |lines|
    ensures forall k :: 0 <= k < |lines| ==> r[k] == StripLine(lines[k], prefix)
  {
    seq(|lines|, k requires 0 <= k < |lines| => StripLine(lines[k], prefix))
  }

  /** `trimPrefixMultiline` as evidently intended: `s` itself when some non-blank
      line does not start with `prefix`, otherwise every line with `prefix`
      removed and every blank line emptied, each ended by a newline. */
  function PrefixTrimmed(s: string, prefix: string): string {
    var lines := ScanLines(s);
    if AllPrefixed(lines, prefix) then Terminated(StripLines(lines, prefix)) else s
  }

  lemma StripLinesSnoc(lines: seq<string>, prefix: string, k: nat)
    requires k < |lines|
    ensures Terminated(StripLines(lines[..k + 1], prefix)) ==
            Terminated(StripLines(lines[..k], prefix)) + StripLine(lines[k], prefix) + "\n"
  {
    var before := StripLines(lines[..k], prefix);
    assert StripLines(lines[..k + 1], prefix) == before + [StripLine(lines[k], prefix)];
    TerminatedSnoc(before, StripLine(lines[k], prefix));
  }

  /** `trimPrefixMultiline`, with the line (not the whole input) trimmed at
      section.go:140. The Go test `strings.Index(line, prefix) != 0` is the
      negation of `HasPrefix(line, prefix)`. */
  method TrimPrefixMultiline(s: string, prefix: string) returns (r: string)
    ensures r == PrefixTrimmed(s, prefix)
  {
    var lines := ScanLines(s);
    var out := "";
    for k := 0 to |lines|
      invariant AllPrefixed(lines[..k], prefix)
      invariant out == Terminated(StripLines(lines[..k], prefix))
    {
      var line := lines[k];
      StripLinesSnoc(lines, prefix, k);
      PrefixedSnoc(lines, prefix, k);
      if |TrimSpace(line)| == 0 {
        out := out + "\n";
        continue;
      }
      if !HasPrefix(line, prefix) {
        PrefixedAt(lines, prefix, k);
        return s;
      }
      out := out + TrimPrefix(line, prefix) + "\n";
    }
    assert lines[..|lines|] == lines;
    return out;
  }

  lemma PrefixedSnoc(lines: seq<string>, prefix: string, k: nat)
    requires k < |lines|
    ensures AllPrefixed(lines[..k + 1], prefix) <==>
      AllPrefixed(lines[..k], prefix) && (TrimSpace(lines[k]) == "" || HasPrefix(lines[k], prefix))
  {
    assert forall j :: 0 <= j < k ==> lines[..k + 1][j] == lines[..k][j];
    assert lines[..k + 1][k] == lines[k];
  }

  lemma PrefixedAt(lines: seq<string>, prefix: string, k: nat)
    requires k < |lines| && TrimSpace(lines[k]) != "" && !HasPrefix(lines[k], prefix)
    ensures !AllPrefixed(lines, prefix)
  {
  }

  /** Stripping a non-empty prefix never makes the text longer. */
  lemma PrefixTrimmedShrinks(s: string, prefix: string)
    requires prefix != ""
    ensures |PrefixTrimmed(s, prefix)| <= |s|
  {
    if AllPrefixed(ScanLines(s), prefix) {
      StrippedShrinks(s, prefix);
    }
  }

  /** A blank or prefixed line loses at least one character, unless it is empty. */
  lemma StripLineShorter(line: string, prefix: string)
    requires prefix != "" && (TrimSpace(line) == "" || HasPrefix(line, prefix))
    ensures |StripLine(line, prefix)| <= |line|
    ensures line != "" ==> |StripLine(line, prefix)| < |line|
  {
  }

  lemma {:induction false} StrippedShrinks(s: string, prefix: string)
    requires prefix != "" && AllPrefixed(ScanLines(s), prefix)
    ensures |Terminated(StripLines(ScanLines(s), prefix))| <= |s|
    decreases |s|
  {
    if s != [] {
      var i := IndexOf(s, '\n');
      if i == |s| {
        StrippedShrinksLast(s, prefix);
      } else {
        var rest := s[i + 1..];
        StrippedCons(s, prefix, i);
        StrippedShrinks(rest, prefix);
      }
    }
  }

  lemma StrippedShrinksLast(s: string, prefix: string)
    requires prefix != "" && s != [] && IndexOf(s, '\n') == |s|
    requires AllPrefixed(ScanLines(s), prefix)
    ensures |Terminated(StripLines(ScanLines(s), prefix))| <= |s|
  {
    var lines := ScanLines(s);
    assert lines == [DropCR(s)];
    var first := StripLine(lines[0], prefix);
    StripLineShorter(lines[0], prefix);
    assert StripLines(lines, prefix) == [first];
    assert Terminated([first]) == first + "\n";
  }

  /** The first line of a text with a newline, and the lines after it. */
  lemma StrippedCons(s: string, prefix: string, i: nat)
    requires prefix != "" && i < |s| && IndexOf(s, '\n') == i
    requires AllPrefixed(ScanLines(s), prefix)
    ensures AllPrefixed(ScanLines(s[i + 1..]), prefix)
    ensures |Terminated(StripLines(ScanLines(s), prefix))| <=
      i + 1 + |Terminated(StripLines(ScanLines(s[i + 1..]), prefix))|
  {
    var lines := ScanLines(s);
    var more := ScanLines(s[i + 1..]);
    assert lines == [DropCR(s[..i])] + more;
    PrefixedTail(lines, more, prefix);
    StripLineShorter(lines[0], prefix);
    var stripped := StripLines(lines, prefix);
    assert stripped[1..] == StripLines(more, prefix);
  }

  lemma PrefixedTail(lines: seq<string>, more: seq<string>, prefix: string)
    requires lines != [] && lines[1..] == more && AllPrefixed(lines, prefix)
    ensures AllPrefixed(more, prefix)
  {
    forall k | 0 <= k < |more|
      ensures TrimSpace(more[k]) == "" || HasPrefix(more[k], prefix)
    {
      assert more[k] == lines[k + 1];
    }
  }

  // ---- cleanupSection ----

  /** The body `cleanupSection` ends with: rounds of stripping one level of uniform
      spaces and then of uniform tabs, until a round changes neither length. */
  function CleanedBody(body: string): string
    decreases |body|
  {
    var spaced := PrefixTrimmed(body, " ");
    var tabbed := PrefixTrimmed(spaced, "\t");
    PrefixTrimmedShrinks(body, " ");
    PrefixTrimmedShrinks(spaced, "\t");
    if |spaced| != |body| || |tabbed| != |spaced| then CleanedBody(tabbed) else tabbed
  }

  /** `cleanupSection`: the title is kept, the body is cleaned. */
  method CleanupSection(section: Section) returns (r: Section)
    ensures r == Section(section.title, CleanedBody(section.body))
  {
    var spacesRemoved, tabsRemoved := true, false;
    r := section;
    while spacesRemoved || tabsRemoved
      invariant r.title == section.title
      invariant spacesRemoved || tabsRemoved ==> CleanedBody(r.body) == CleanedBody(section.body)
      invariant !(spacesRemoved || tabsRemoved) ==> r.body == CleanedBody(section.body)
      decreases if spacesRemoved || tabsRemoved then |r.body| + 1 else 0
    {
      PrefixTrimmedShrinks(r.body, " ");
      var body := TrimPrefixMultiline(r.body, " ");
      spacesRemoved := |body| != |r.body|;
      r := r.(body := body);

      PrefixTrimmedShrinks(r.body, "\t");
      body := TrimPrefixMultiline(r.body, "\t");
      tabsRemoved := |body| != |r.body|;
      r := r.(body := body);
    }
  }

  /** A body as `parseSections` builds it: trimmed, newline-free lines, each ended by a newline. */
  predicate ParsedBody(body: string) {
    var lines := ScanLines(body);
    Terminated(lines) == body && forall k :: 0 <= k < |lines| ==> Trimmed(lines[k])
  }

  lemma ParsedBodyOf(ls: seq<string>)
    requires forall k :: 0 <= k < |ls| ==> Trimmed(ls[k]) && '\n' !in ls[k]
    ensures ParsedBody(Terminated(ls))
  {
    forall k | 0 <= k < |ls| ensures PlainLine(ls[k]) {
      TrimmedIsPlain(ls[k]);
    }
    ScanTerminated(ls);
  }

  /** A trimmed line that may be stripped of a space or tab is blank. */
  lemma StrippableTrimmedIsEmpty(line: string, prefix: string)
    requires Trimmed(line)
    requires prefix == " " || prefix == "\t"
    requires TrimSpace(line) == "" || HasPrefix(line, prefix)
    ensures line == ""
  {
  }

  /** No non-blank line of a parsed body starts with white space, so neither a
      space nor a tab can be stripped from it. */
  lemma ParsedBodyNotIndented(body: string, prefix: string)
    requires ParsedBody(body)
    requires prefix == " " || prefix == "\t"
    ensures PrefixTrimmed(body, prefix) == body
  {
    var lines := ScanLines(body);
    if AllPrefixed(lines, prefix) {
      forall k | 0 <= k < |lines| ensures StripLines(lines, prefix)[k] == lines[k] {
        StrippableTrimmedIsEmpty(lines[k], prefix);
      }
      assert StripLines(lines, prefix) == lines;
    }
  }

  /** `cleanupSection` leaves every body built by `parseSections` as it is. */
  lemma CleanupKeepsParsedBody(body: string)
    requires ParsedBody(body)
    ensures CleanedBody(body) == body
  {
    ParsedBodyNotIndented(body, " ");
    ParsedBodyNotIndented(body, "\t");
  }

  lemma TrimSpaceIndented()
    ensures TrimSpace(" a") == "a" && TrimSpace(" b") == "b" && TrimSpace("b") == "b"
  {
    assert " a"[1..] == "a";
    assert " b"[1..] == "b";
  }

  lemma ScanTwoLines(a: string, b: string)
    requires a != "" && b != "" && '\n' !in a && '\n' !in b
    requires !EndsWithCR(a) && !EndsWithCR(b)
    ensures ScanLines(a + "\n" + b) == [a, b]
  {
    ScanCons(a, b);
    ScanLast(b);
  }

  lemma TerminatedTwo(a: string, b: string)
    ensures Terminated([a, b]) == a + "\n" + b + "\n"
  {
    assert [a, b][1..] == [b];
    assert [b][1..] == [];
    assert Terminated([b]) == b + "\n" + "";
    assert Terminated([a, b]) == a + "\n" + (b + "\n");
  }

  /** Stripping one uniform indentation level from a two-line block. */
  lemma StripExample()
    ensures PrefixTrimmed(" a\n b", " ") == "a\nb\n"
  {
    TrimSpaceIndented();
    ScanTwoLines(" a", " b");
    assert " a\n b" == " a" + "\n" + " b";
    assert StripLines([" a", " b"], " ") == ["a", "b"];
    TerminatedTwo("a", "b");
  }

  /** A block with one unindented line comes back unchanged. */
  lemma KeepExample()
    ensures PrefixTrimmed(" a\nb", " ") == " a\nb"
  {
    TrimSpaceIndented();
    ScanTwoLines(" a", "b");
    assert " a\nb" == " a" + "\n" + "b";
    assert [" a", "b"][1] == "b" && !HasPrefix("b", " ");
    assert !AllPrefixed([" a", "b"], " ");
  }

  // ---- trimPrefixMultiline and cleanupSection as written ----

  /** `trimPrefixMultiline` as section.go:140 writes it: every non-blank line is
      replaced by the whole input `s` without `prefix`. */
  function PrefixTrimmedAsWritten(s: string, prefix: string): string {
    var lines := ScanLines(s);
    if AllPrefixed(lines, prefix) then Terminated(RepeatedLines(lines, s, prefix)) else s
  }

  /** The lines section.go:140 writes: `s` without `prefix` for every non-blank line. */
  function RepeatedLines(lines: seq<string>, s: string, prefix: string): (r: seq<string>)
    ensures |r| == |lines|
    ensures forall k :: 0 <= k < |lines| ==> r[k] == if TrimSpace(lines[k]) == "" then "" else TrimPrefix(s, prefix)
  {
    seq(|lines|, k requires 0 <= k < |lines| => if TrimSpace(lines[k]) == "" then "" else TrimPrefix(s, prefix))
  }

  /** The loop of `cleanupSection` over the as-written helper, cut off after
      `fuel` rounds: `None` when it is still going. */
  function CleanupAsWritten(body: string, fuel: nat): Option<string>
    decreases fuel
  {
    if fuel == 0 then None
    else
      var spaced := PrefixTrimmedAsWritten(body, " ");
      var tabbed := PrefixTrimmedAsWritten(spaced, "\t");
      if |spaced| != |body| || |tabbed| != |spaced| then CleanupAsWritten(tabbed, fuel - 1) else Some(tabbed)
  }

  /** The as-written helper also leaves a parsed body alone: every line it
      could strip is blank, and blank lines are written empty. */
  lemma ParsedBodyNotIndentedAsWritten(body: string, prefix: string)
    requires ParsedBody(body)
    requires prefix == " " || prefix == "\t"
    ensures PrefixTrimmedAsWritten(body, prefix) == body
  {
    var lines := ScanLines(body);
    if AllPrefixed(lines, prefix) {
      forall k | 0 <= k < |lines| ensures RepeatedLines(lines, body, prefix)[k] == lines[k] {
        StrippableTrimmedIsEmpty(lines[k], prefix);
      }
      assert RepeatedLines(lines, body, prefix) == lines;
    }
  }

  /** `cleanupSection` as written stops after one round on a body built by
      `parseSections`, with the body unchanged, just as the corrected loop does. */
  lemma CleanupAsWrittenKeepsParsedBody(body: string, fuel: nat)
    requires ParsedBody(body)
    requires fuel >= 1
    ensures CleanupAsWritten(body, fuel) == Some(body)
    ensures CleanupAsWritten(body, fuel) == Some(CleanedBody(body))
  {
    ParsedBodyNotIndentedAsWritten(body, " ");
    ParsedBodyNotIndentedAsWritten(body, "\t");
    CleanupKeepsParsedBody(body);
  }

  /** On a two-line block indented by one space the as-written helper repeats
      the input instead of producing the two unindented lines. */
  lemma AsWrittenRepeatsInput()
    ensures PrefixTrimmedAsWritten(" a\n b", " ") == "a\n b\na\n b\n"
    ensures PrefixTrimmed(" a\n b", " ") == "a\nb\n"
  {
    StripExample();
    var s := " a\n b";
    var lines := [" a", " b"];
    var t := "a\n b";
    AsWrittenTwoLines(s, t, lines);
    TerminatedTwo(t, t);
    TwoCopies(t);
  }

  lemma TwoCopies(t: string)
    requires t == "a\n b"
    ensures t + "\n" + t + "\n" == "a\n b\na\n b\n"
  {
    var u := t + "\n" + t + "\n";
    assert |u| == 10;
    forall k | 0 <= k < 10 ensures u[k] == "a\n b\na\n b\n"[k] {
      if k < 5 {
        assert u[k] == (t + "\n")[k];
      } else {
        assert u[k] == (t + "\n")[k - 5];
      }
    }
  }

  lemma AsWrittenTwoLines(s: string, t: string, lines: seq<string>)
    requires s == " a\n b" && t == "a\n b" && lines == [" a", " b"]
    ensures PrefixTrimmedAsWritten(s, " ") == Terminated([t, t])
  {
    TrimSpaceIndented();
    ScanTwoLines(" a", " b");
    assert s == " a" + "\n" + " b";
    assert ScanLines(s) == lines;
    assert TrimPrefix(s, " ") == t by {
      assert s[..1] == " ";
      assert s[1..] == t;
    }
    assert AllPrefixed(lines, " ") by {
      assert HasPrefix(lines[0], " ") && HasPrefix(lines[1], " ");
    }
    assert RepeatedLines(lines, s, " ") == [t, t];
  }

  function Newlines(n: nat): (r: string)
    ensures |r| == n
    ensures forall k :: 0 <= k < n ==> r[k] == '\n'
  {
    if n == 0 then "" else "\n" + Newlines(n - 1)
  }

  function Blanks(n: nat): (r: seq<string>)
    ensures |r| == n
    ensures forall k :: 0 <= k < n ==> r[k] == ""
  {
    seq(n, _ => "")
  }

  /** The block `m` newlines, a line ` a`, `j` newlines. */
  function Padded(m: nat, j: nat): string {
    Newlines(m) + " a" + Newlines(j)
  }

  lemma PaddedLength(m: nat, j: nat)
    ensures |Padded(m, j)| == m + 2 + j
  {
  }

  lemma {:induction false} ScanNewlines(n: nat)
    ensures ScanLines(Newlines(n)) == Blanks(n)
  {
    if n > 0 {
      var s := Newlines(n);
      assert IndexOf(s, '\n') == 0;
      assert s[1..] == Newlines(n - 1);
      ScanNewlines(n - 1);
      assert s[..0] == "";
      assert Blanks(n) == [""] + Blanks(n - 1);
    }
  }

  lemma {:induction false} TerminatedBlanks(n: nat)
    ensures Terminated(Blanks(n)) == Newlines(n)
  {
    if n > 0 {
      assert Blanks(n)[1..] == Blanks(n - 1);
      TerminatedBlanks(n - 1);
      assert Newlines(n) == "" + "\n" + Newlines(n - 1);
    }
  }

  lemma NewlinesCons(n: nat)
    requires n > 0
    ensures Newlines(n) == "\n" + Newlines(n - 1)
  {
  }

  lemma {:induction false} ScanPadded(m: nat, j: nat)
    requires j >= 1
    ensures ScanLines(Padded(m, j)) == Blanks(m) + [" a"] + Blanks(j - 1)
  {
    if m == 0 {
      ScanPaddedLine(j);
    } else {
      ScanPadded(m - 1, j);
      ScanPaddedBlank(m, j);
    }
  }

  lemma ScanPaddedLine(j: nat)
    requires j >= 1
    ensures ScanLines(Padded(0, j)) == Blanks(0) + [" a"] + Blanks(j - 1)
  {
    NewlinesCons(j);
    assert Newlines(0) == "";
    assert Newlines(0) + " a" == " a";
    assert Padded(0, j) == " a" + ("\n" + Newlines(j - 1));
    assert " a" + ("\n" + Newlines(j - 1)) == " a" + "\n" + Newlines(j - 1);
    ScanCons(" a", Newlines(j - 1));
    ScanNewlines(j - 1);
    assert Blanks(0) + [" a"] + Blanks(j - 1) == [" a"] + Blanks(j - 1);
  }

  lemma ScanPaddedBlank(m: nat, j: nat)
    requires m >= 1 && j >= 1
    requires ScanLines(Padded(m - 1, j)) == Blanks(m - 1) + [" a"] + Blanks(j - 1)
    ensures ScanLines(Padded(m, j)) == Blanks(m) + [" a"] + Blanks(j - 1)
  {
    NewlinesCons(m);
    assert Padded(m, j) == "" + "\n" + Padded(m - 1, j);
    ScanCons("", Padded(m - 1, j));
    BlanksCons(m);
    var rest := [" a"] + Blanks(j - 1);
    ConcatAssoc([""], Blanks(m - 1), rest);
    ConcatAssoc(Blanks(m), [" a"], Blanks(j - 1));
    ConcatAssoc(Blanks(m - 1), [" a"], Blanks(j - 1));
  }

  lemma ConcatAssoc(a: seq<string>, b: seq<string>, c: seq<string>)
    ensures a + b + c == a + (b + c)
  {
  }

  lemma BlanksCons(n: nat)
    requires n > 0
    ensures Blanks(n) == [""] + Blanks(n - 1)
  {
  }

  lemma NewlinesAdd(a: nat, b: nat)
    ensures Newlines(a) + Newlines(b) == Newlines(a + b)
  {
  }

  lemma PaddedPrefixed(m: nat, j: nat)
    requires j >= 1
    ensures AllPrefixed(ScanLines(Padded(m, j)), " ")
  {
    var lines := ScanLines(Padded(m, j));
    ScanPadded(m, j);
    TrimSpaceIndented();
    forall k | 0 <= k < |lines| ensures TrimSpace(lines[k]) == "" || HasPrefix(lines[k], " ") {
      if k != m {
        assert lines[k] == "";
      } else {
        assert lines[k] == " a";
      }
    }
  }

  lemma PaddedRepeated(m: nat, j: nat)
    requires m >= 1 && j >= 1
    ensures RepeatedLines(ScanLines(Padded(m, j)), Padded(m, j), " ") == Blanks(m) + [Padded(m, j)] + Blanks(j - 1)
  {
    var s := Padded(m, j);
    var lines := ScanLines(s);
    ScanPadded(m, j);
    TrimSpaceIndented();
    assert !HasPrefix(s, " ") by {
      assert s[0] == '\n';
    }
    var out := RepeatedLines(lines, s, " ");
    var want := Blanks(m) + [s] + Blanks(j - 1);
    forall k | 0 <= k < |out| ensures out[k] == want[k] {
      if k != m {
        assert lines[k] == "";
      } else {
        assert lines[k] == " a";
      }
    }
  }

  lemma TerminatedPadded(m: nat, s: string, n: nat)
    ensures Terminated(Blanks(m) + [s] + Blanks(n)) == Newlines(m) + s + "\n" + Newlines(n)
  {
    TerminatedAppend(Blanks(m) + [s], Blanks(n));
    TerminatedAppend(Blanks(m), [s]);
    TerminatedBlanks(m);
    TerminatedBlanks(n);
    assert [s][1..] == [];
  }

  lemma PaddedDoubled(m: nat, j: nat)
    requires j >= 1
    ensures Newlines(m) + Padded(m, j) + "\n" + Newlines(j - 1) == Padded(2 * m, 2 * j)
  {
    NewlinesAdd(m, m);
    NewlinesAdd(1, j - 1);
    NewlinesAdd(j, j);
    assert "\n" == Newlines(1);
    calc {
      Newlines(m) + Padded(m, j) + "\n" + Newlines(j - 1);
      Newlines(m) + Newlines(m) + " a" + Newlines(j) + (Newlines(1) + Newlines(j - 1));
      Newlines(2 * m) + " a" + Newlines(j) + Newlines(j);
    }
  }

  /** One space round of the as-written helper doubles the blank lines around ` a`. */
  lemma AsWrittenSpaceRound(m: nat, j: nat)
    requires m >= 1 && j >= 1
    ensures PrefixTrimmedAsWritten(Padded(m, j), " ") == Padded(2 * m, 2 * j)
  {
    PaddedPrefixed(m, j);
    PaddedRepeated(m, j);
    TerminatedPadded(m, Padded(m, j), j - 1);
    PaddedDoubled(m, j);
  }

  /** The tab round of the as-written helper leaves such a block alone. */
  lemma AsWrittenTabRound(m: nat, j: nat)
    requires j >= 1
    ensures PrefixTrimmedAsWritten(Padded(m, j), "\t") == Padded(m, j)
  {
    var lines := ScanLines(Padded(m, j));
    ScanPadded(m, j);
    assert lines[m] == " a";
    assert TrimSpace(" a") == "a" by {
      assert " a"[1..] == "a";
    }
    assert !HasPrefix(lines[m], "\t");
  }

  /** A whole round of the as-written loop on such a block: the space pass
      doubles the blank lines, the tab pass keeps the result. */
  lemma AsWrittenRound(m: nat, j: nat)
    requires m >= 1 && j >= 1
    ensures PrefixTrimmedAsWritten(Padded(m, j), " ") == Padded(2 * m, 2 * j)
    ensures PrefixTrimmedAsWritten(Padded(2 * m, 2 * j), "\t") == Padded(2 * m, 2 * j)
    ensures |Padded(2 * m, 2 * j)| != |Padded(m, j)|
  {
    AsWrittenSpaceRound(m, j);
    AsWrittenTabRound(2 * m, 2 * j);
  }

  /** A round that changes the length goes on to the next round, so the loop is
      still running after `fuel` rounds when it is after `fuel - 1` from there. */
  lemma CleanupAsWrittenStep(body: string, next: string, fuel: nat)
    requires fuel > 0 && |next| != |body|
    requires PrefixTrimmedAsWritten(body, " ") == next
    requires PrefixTrimmedAsWritten(next, "\t") == next
    requires CleanupAsWritten(next, fuel - 1) == None
    ensures CleanupAsWritten(body, fuel) == None
  {
  }

  /** A block that is still running after `fuel - 1` rounds once doubled is
      still running after `fuel` rounds. */
  lemma PaddedStep(m: nat, j: nat, fuel: nat)
    requires m >= 1 && j >= 1 && fuel > 0
    requires CleanupAsWritten(Padded(2 * m, 2 * j), fuel - 1) == None
    ensures CleanupAsWritten(Padded(m, j), fuel) == None
  {
    AsWrittenRound(m, j);
    PaddedLength(m, j);
    PaddedLength(2 * m, 2 * j);
    CleanupAsWrittenStep(Padded(m, j), Padded(2 * m, 2 * j), fuel);
  }

  /** With the as-written helper `cleanupSection` never finishes on a body
      such as "\n a\n": each round lengthens it, however many rounds are allowed. */
  lemma {:induction false} AsWrittenCleanupDiverges(m: nat, j: nat, fuel: nat)
    requires m >= 1 && j >= 1
    ensures CleanupAsWritten(Padded(m, j), fuel) == None
    decreases fuel
  {
    if fuel > 0 {
      AsWrittenCleanupDiverges(2 * m, 2 * j, fuel - 1);
      PaddedStep(m, j, fuel);
    }
  }

  // ---- parseSections ----

  /** A trimmed line opens a section iff, lowercased, it starts with "openapi"
      and ends with ":". */
  predicate IsHeader(line: string) {
    var lower := ToLower(line);
    HasPrefix(lower, "openapi") && HasSuffix(lower, ":")
  }

  /** The title of the section a header opens. */
  function TitleOf(line: string): string {
    TrimSuffix(line, ":")
  }

  /** The title is the header line, case kept, without its one trailing colon. */
  lemma HeaderTitle(line: string)
    requires IsHeader(line)
    ensures |line| >= 8 && line[|line| - 1] == ':'
    ensures TitleOf(line) + ":" == line
  {
    var lower := ToLower(line);
    assert lower[6] == 'i';
    assert lower[|line| - 1] == ':';
    assert LowerChar(line[|line| - 1]) == ':';
  }

  /** The header lines among `lines`, in order. */
  function Headers(lines: seq<string>): (r: seq<string>)
    ensures |r| <= |lines|
  {
    if lines == [] then []
    else
      var last := lines[|lines| - 1];
      Headers(lines[..|lines| - 1]) + (if IsHeader(last) then [last] else [])
  }

  /** Every line `Headers` picks is a header, and one of the lines. */
  lemma {:induction false} HeadersAreHeaders(lines: seq<string>)
    ensures forall k :: 0 <= k < |Headers(lines)| ==> IsHeader(Headers(lines)[k]) && Headers(lines)[k] in lines
  {
    if lines != [] {
      var init := lines[..|lines| - 1];
      HeadersAreHeaders(init);
      forall k | 0 <= k < |Headers(init)| ensures Headers(init)[k] in lines {
        assert Headers(init)[k] in init;
      }
    }
  }

  /** The parser's variables: the finished sections, the title of the open
      section (`nil` before the first header) and the body buffer. */
  datatype ParseState = ParseState(done: seq<Section>, current: Option<string>, body: string)

  /** Finishing the open section, if there is one. */
  function Close(st: ParseState): seq<Section> {
    if st.current.Some? then st.done + [Section(st.current.value, CleanedBody(st.body))] else st.done
  }

  function ParseStep(st: ParseState, line: string): ParseState {
    if IsHeader(line) then ParseState(Close(st), Some(TitleOf(line)), "")
    else st.(body := st.body + line + "\n")
  }

  function ParseLines(lines: seq<string>): ParseState {
    if lines == [] then ParseState([], None, "")
    else ParseStep(ParseLines(lines[..|lines| - 1]), lines[|lines| - 1])
  }

  /** The sections of a sequence of trimmed lines. */
  function SectionsOf(lines: seq<string>): seq<Section> {
    Close(ParseLines(lines))
  }

  /** The scanner's lines of a comment block, each trimmed. */
  function TrimmedLines(commentBlock: string): (r: seq<string>)
    ensures |r| == |ScanLines(commentBlock)|
    ensures forall k :: 0 <= k < |r| ==>
      r[k] == TrimSpace(ScanLines(commentBlock)[k]) && Trimmed(r[k]) && '\n' !in r[k]
  {
    var raw := ScanLines(commentBlock);
    seq(|raw|, k requires 0 <= k < |raw| => TrimSpace(raw[k]))
  }

  /** `parseSections`. */
  method ParseSections(commentBlock: string) returns (sections: seq<Section>)
    ensures sections == SectionsOf(TrimmedLines(commentBlock))
  {
    var raw := ScanLines(commentBlock);
    ghost var lines := TrimmedLines(commentBlock);
    sections := [];
    var current: Option<string> := None;
    var body := "";
    for k := 0 to |raw|
      invariant ParseLines(lines[..k]) == ParseState(sections, current, body)
    {
      assert lines[..k + 1][..k] == lines[..k];
      var line := TrimSpace(raw[k]);
      var lower := ToLower(line);
      if HasPrefix(lower, "openapi") && HasSuffix(lower, ":") {
        if current.Some? {
          var finished := CleanupSection(Section(current.value, body));
          sections := sections + [finished];
        }
        current := Some(TrimSuffix(line, ":"));
        body := "";
      } else {
        body := body + line + "\n";
      }
    }
    assert lines[..|raw|] == lines;
    if current.Some? {
      var finished := CleanupSection(Section(current.value, body));
      sections := sections + [finished];
    }
  }

  /** Closing the open section at a header keeps the finished sections titled
      by the headers before it. */
  lemma CloseTitles(st: ParseState, hs: seq<string>, last: string)
    requires st.current.Some? <==> |hs| > 0
    requires |st.done| == if |hs| > 0 then |hs| - 1 else 0
    requires forall k :: 0 <= k < |st.done| ==> st.done[k].title == TitleOf(hs[k])
    requires |hs| > 0 ==> st.current.value == TitleOf(hs[|hs| - 1])
    ensures |Close(st)| == |hs|
    ensures forall k :: 0 <= k < |Close(st)| ==> Close(st)[k].title == TitleOf((hs + [last])[k])
  {
    var done := Close(st);
    forall k | 0 <= k < |done| ensures done[k].title == TitleOf((hs + [last])[k]) {
      if k < |st.done| {
        assert done[k] == st.done[k];
      }
    }
  }

  /** The parser's state after `lines`: a section is open iff some line was a
      header, it is titled by the last header, and the finished ones by the earlier headers. */
  lemma {:induction false} ParseShape(lines: seq<string>)
    ensures ParseLines(lines).current.Some? <==> |Headers(lines)| > 0
    ensures |ParseLines(lines).done| == if |Headers(lines)| > 0 then |Headers(lines)| - 1 else 0
    ensures forall k :: 0 <= k < |ParseLines(lines).done| ==>
      ParseLines(lines).done[k].title == TitleOf(Headers(lines)[k])
    ensures |Headers(lines)| > 0 ==>
      ParseLines(lines).current.value == TitleOf(Headers(lines)[|Headers(lines)| - 1])
  {
    if lines != [] {
      var init, last := lines[..|lines| - 1], lines[|lines| - 1];
      ParseShape(init);
      var st := ParseLines(init);
      assert ParseLines(lines) == ParseStep(st, last);
      if IsHeader(last) {
        assert Headers(lines) == Headers(init) + [last];
        assert ParseLines(lines).done == Close(st);
        CloseTitles(st, Headers(init), last);
      } else {
        assert Headers(lines) == Headers(init);
      }
    }
  }

  /** One section per header line, titled by that header, in order. */
  lemma SectionTitles(lines: seq<string>)
    ensures |SectionsOf(lines)| == |Headers(lines)|
    ensures forall k :: 0 <= k < |SectionsOf(lines)| ==> SectionsOf(lines)[k].title == TitleOf(Headers(lines)[k])
  {
    ParseShape(lines);
  }

  predicate NoHeader(lines: seq<string>) {
    forall k :: 0 <= k < |lines| ==> !IsHeader(lines[k])
  }

  /** Two parser states that differ at most in a body no section owns. */
  predicate Agree(a: ParseState, b: ParseState) {
    a.done == b.done && a.current == b.current && (a.current.Some? ==> a.body == b.body)
  }

  lemma {:induction false} PreambleAgrees(pre: seq<string>, rest: seq<string>)
    requires NoHeader(pre)
    ensures Agree(ParseLines(pre + rest), ParseLines(rest))
    decreases |rest|
  {
    if rest == [] {
      assert pre + rest == pre;
      NonHeaderFree(pre);
      ParseShape(pre);
    } else {
      var init := rest[..|rest| - 1];
      assert (pre + rest)[..|pre + rest| - 1] == pre + init;
      assert (pre + rest)[|pre + rest| - 1] == rest[|rest| - 1];
      PreambleAgrees(pre, init);
    }
  }

  lemma {:induction false} NonHeaderFree(lines: seq<string>)
    requires NoHeader(lines)
    ensures Headers(lines) == []
  {
    if lines != [] {
      NonHeaderFree(lines[..|lines| - 1]);
    }
  }

  /** Lines before the first header belong to no section. */
  lemma PreambleDiscarded(pre: seq<string>, rest: seq<string>)
    requires NoHeader(pre)
    ensures SectionsOf(pre + rest) == SectionsOf(rest)
  {
    PreambleAgrees(pre, rest);
  }

  lemma {:induction false} BodyAfterHeader(pre: seq<string>, header: string, body: seq<string>)
    requires IsHeader(header) && NoHeader(body)
    ensures ParseLines(pre + [header] + body) == ParseState(SectionsOf(pre), Some(TitleOf(header)), Terminated(body))
    decreases |body|
  {
    if body == [] {
      assert pre + [header] + body == pre + [header];
      assert (pre + [header])[..|pre|] == pre;
    } else {
      var init := body[..|body| - 1];
      var all := pre + [header] + body;
      assert all[..|all| - 1] == pre + [header] + init;
      assert all[|all| - 1] == body[|body| - 1];
      BodyAfterHeader(pre, header, init);
      TerminatedSnoc(init, body[|body| - 1]);
      assert init + [body[|body| - 1]] == body;
    }
  }

  /** A header followed by non-header lines adds one section whose body is those
      lines, each ended by a newline; with `PreambleDiscarded` this fixes the
      sections of every sequence of trimmed lines. */
  lemma AppendSection(pre: seq<string>, header: string, body: seq<string>)
    requires IsHeader(header) && NoHeader(body)
    requires forall k :: 0 <= k < |body| ==> Trimmed(body[k]) && '\n' !in body[k]
    ensures SectionsOf(pre + [header] + body) == SectionsOf(pre) + [Section(TitleOf(header), Terminated(body))]
  {
    BodyAfterHeader(pre, header, body);
    ParsedBodyOf(body);
    CleanupKeepsParsedBody(Terminated(body));
  }

  /** The lines of a parsed section are the non-blank lines written into its body. */
  lemma ParsedSectionLines(pre: seq<string>, header: string, body: seq<string>)
    requires IsHeader(header) && NoHeader(body)
    requires forall k :: 0 <= k < |body| ==> Trimmed(body[k]) && '\n' !in body[k]
    ensures |SectionsOf(pre + [header] + body)| == |SectionsOf(pre)| + 1
    ensures var s := SectionsOf(pre + [header] + body)[|SectionsOf(pre)|];
            s.title == TitleOf(header) && BodyLines(s.body) == NonBlank(body)
  {
    AppendSection(pre, header, body);
    BodyLinesOfTerminated(body);
  }

  /** A small comment block: the preamble is dropped and the indented body kept
      as its trimmed lines. */
  lemma ParseExample()
    ensures SectionsOf(["intro", "OpenAPI Path:", "/pets"]) == [Section("OpenAPI Path", "/pets\n")]
  {
    var header := "OpenAPI Path:";
    assert IsHeader(header) by {
      assert ToLower(header)[..7] == "openapi";
      assert ToLower(header)[|header| - 1..] == ":";
    }
    assert !IsHeader("intro") by {
      assert ToLower("intro")[0] == 'i';
    }
    assert !IsHeader("/pets") by {
      assert ToLower("/pets")[0] == '/';
    }
    assert TitleOf(header) == "OpenAPI Path" by {
      assert HasSuffix(header, ":");
      assert header[..|header| - 1] == "OpenAPI Path";
    }
    assert Trimmed("/pets");
    assert ["intro", "OpenAPI Path:", "/pets"] == ["intro"] + [header] + ["/pets"];
    AppendSection(["intro"], header, ["/pets"]);
    PreambleDiscarded(["intro"], []);
    assert ["intro"] + [] == ["intro"];
    assert SectionsOf([]) == [];
    assert Terminated(["/pets"]) == "/pets\n";
  }
}

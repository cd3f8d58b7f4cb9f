/** ASCII versions of the Go `strings` functions the scanner uses, Go's
    `strings.Split`/`strings.Join` on a one-character separator, and the line
    splitting of `bufio.ScanLines` together with the text `fmt.Fprintln` writes. */
module Strings {

  /** `unicode.IsSpace`, restricted to ASCII. */
  predicate IsSpace(c: char) {
    c == ' ' || c == '\t' || c == '\n' || c == '\r' || c == '\U{B}' || c == '\U{C}'
  }

  /** `unicode.ToLower`, restricted to ASCII. */
  function LowerChar(c: char): char {
    if 'A' <= c <= 'Z' then (c as int + 32) as char else c
  }

  function ToLower(s: string): (r: string)
    ensures |r| == |s|
    ensures forall i :: 0 <= i < |s| ==> r[i] == LowerChar(s[i])
  {
    seq(|s|, i requires 0 <= i < |s| => LowerChar(s[i]))
  }

  lemma ToLowerIdempotent(s: string)
    ensures ToLower(ToLower(s)) == ToLower(s)
  {
  }

  function HasPrefix(s: string, p: string): bool {
    |p| <= |s| && s[..|p|] == p
  }

  function HasSuffix(s: string, p: string): bool {
    |p| <= |s| && s[|s| - |p|..] == p
  }

  function TrimPrefix(s: string, p: string): (r: string)
    ensures HasPrefix(s, p) ==> s == p + r
    ensures !HasPrefix(s, p) ==> r == s
  {
    if HasPrefix(s, p) then s[|p|..] else s
  }

  function TrimSuffix(s: string, p: string): (r: string)
    ensures HasSuffix(s, p) ==> s == r + p
    ensures !HasSuffix(s, p) ==> r == s
  {
    if HasSuffix(s, p) then s[..|s| - |p|] else s
  }

  /** `strings.Contains`. */
  predicate Contains(s: string, sub: string) {
    exists i | 0 <= i <= |s| - |sub| :: HasPrefix(s[i..], sub)
  }

  function TrimRight(s: string): (r: string)
    ensures |r| <= |s| && r == s[..|r|]
    ensures r != [] ==> !IsSpace(r[|r| - 1])
  {
    if |s| > 0 && IsSpace(s[|s| - 1]) then TrimRight(s[..|s| - 1]) else s
  }

  /** A string with no white space at either end. */
  predicate Trimmed(s: string) {
    s == [] || (!IsSpace(s[0]) && !IsSpace(s[|s| - 1]))
  }

  /** `strings.TrimSpace`: leading white space is skipped, then trailing white space cut off. */
  function TrimSpace(s: string): (r: string)
    ensures Trimmed(r)
    ensures |r| <= |s|
    ensures Trimmed(s) ==> r == s
    ensures '\n' !in s ==> '\n' !in r
    decreases |s|
  {
    if |s| > 0 && IsSpace(s[0]) then TrimSpace(s[1..])
    else
      var r := TrimRight(s);
      assert forall k :: 0 <= k < |r| ==> r[k] == s[k];
      r
  }

  /** What `TrimRight` cuts off is white space. */
  lemma {:induction false} TrimRightCutsSpace(s: string)
    ensures forall k :: |TrimRight(s)| <= k < |s| ==> IsSpace(s[k])
    decreases |s|
  {
    if |s| > 0 && IsSpace(s[|s| - 1]) {
      TrimRightCutsSpace(s[..|s| - 1]);
    }
  }

  /** The number of white-space characters `s` starts with. */
  function LeadingSpace(s: string): (n: nat)
    ensures n <= |s|
  {
    if |s| > 0 && IsSpace(s[0]) then 1 + LeadingSpace(s[1..]) else 0
  }

  /** `TrimSpace` keeps the slice after the leading white space, and what it
      cuts off behind that slice is white space too. */
  lemma {:induction false} TrimSpaceAt(s: string)
    ensures LeadingSpace(s) + |TrimSpace(s)| <= |s|
    ensures TrimSpace(s) == s[LeadingSpace(s)..LeadingSpace(s) + |TrimSpace(s)|]
    ensures forall k :: 0 <= k < LeadingSpace(s) ==> IsSpace(s[k])
    ensures forall k :: LeadingSpace(s) + |TrimSpace(s)| <= k < |s| ==> IsSpace(s[k])
    decreases |s|
  {
    if |s| > 0 && IsSpace(s[0]) {
      var t := s[1..];
      TrimSpaceAt(t);
      assert forall k :: 1 <= k < |s| ==> s[k] == t[k - 1];
    } else {
      TrimRightCutsSpace(s);
    }
  }

  /** `TrimSpace` keeps one slice of its input and cuts off only white space
      on either side of it. */
  lemma TrimSpaceSlice(s: string)
    ensures exists i, j ::
              0 <= i <= j <= |s| && TrimSpace(s) == s[i..j] &&
              (forall k :: 0 <= k < i ==> IsSpace(s[k])) && (forall k :: j <= k < |s| ==> IsSpace(s[k]))
  {
    TrimSpaceAt(s);
    var i := LeadingSpace(s);
    var j := i + |TrimSpace(s)|;
    assert TrimSpace(s) == s[i..j];
  }

  lemma TrimSpaceIdempotent(s: string)
    ensures TrimSpace(TrimSpace(s)) == TrimSpace(s)
  {
  }

  /** Trimming adds no character. */
  lemma {:induction false} TrimSpaceKeepsOut(s: string, c: char)
    requires c !in s
    ensures c !in TrimSpace(s)
    decreases |s|
  {
    if |s| > 0 && IsSpace(s[0]) {
      TrimSpaceKeepsOut(s[1..], c);
    } else {
      var r := TrimRight(s);
      assert forall k :: 0 <= k < |r| ==> r[k] == s[k];
    }
  }

  /** Index of the first `c` in `s`, or `|s|` when there is none. */
  function IndexOf(s: string, c: char): (r: nat)
    ensures r <= |s|
    ensures r < |s| ==> s[r] == c
    ensures forall i :: 0 <= i < r ==> s[i] != c
    ensures r == |s| <==> c !in s
  {
    if |s| == 0 || s[0] == c then 0 else 1 + IndexOf(s[1..], c)
  }

  /** `strings.Split(s, string(c))`: never empty, and no piece holds `c`. */
  function Split(s: string, c: char): (r: seq<string>)
    ensures |r| >= 1
    ensures forall k :: 0 <= k < |r| ==> c !in r[k]
    decreases |s|
  {
    var i := IndexOf(s, c);
    if i == |s| then [s] else [s[..i]] + Split(s[i + 1..], c)
  }

  /** `strings.Join(parts, string(c))`. */
  function Join(parts: seq<string>, c: char): string {
    if |parts| == 0 then ""
    else if |parts| == 1 then parts[0]
    else parts[0] + [c] + Join(parts[1..], c)
  }

  lemma {:induction false} JoinSplit(s: string, c: char)
    ensures Join(Split(s, c), c) == s
    decreases |s|
  {
    var i := IndexOf(s, c);
    if i < |s| {
      var rest := Split(s[i + 1..], c);
      var parts := [s[..i]] + rest;
      assert Split(s, c) == parts;
      assert parts[1..] == rest;
      assert Join(parts, c) == s[..i] + [c] + Join(rest, c);
      JoinSplit(s[i + 1..], c);
      assert s == s[..i] + [c] + s[i + 1..];
    }
  }

  /** The first piece of a split is the text before the first separator. */
  lemma SplitHead(s: string, c: char)
    ensures Split(s, c)[0] == s[..IndexOf(s, c)]
  {
  }

  /** Splitting `a + [c] + b` where `a` holds no `c`. */
  lemma SplitCons(a: string, c: char, b: string)
    requires c !in a
    ensures Split(a + [c] + b, c) == [a] + Split(b, c)
  {
    var s := a + [c] + b;
    assert s[|a|] == c;
    assert IndexOf(s, c) == |a|;
    assert s[..|a|] == a && s[|a| + 1..] == b;
  }

  /** The pieces after the first one, joined again, are the text after the first separator. */
  lemma {:induction false} JoinSplitTail(s: string, c: char)
    requires c in s
    ensures |Split(s, c)| > 1
    ensures Join(Split(s, c)[1..], c) == s[IndexOf(s, c) + 1..]
  {
    var i := IndexOf(s, c);
    JoinSplit(s[i + 1..], c);
  }

  /** Splitting pieces that hold no separator after joining them gives them back. */
  lemma {:induction false} SplitJoin(parts: seq<string>, c: char)
    requires |parts| >= 1
    requires forall k :: 0 <= k < |parts| ==> c !in parts[k]
    ensures Split(Join(parts, c), c) == parts
    decreases |parts|
  {
    if |parts| > 1 {
      SplitCons(parts[0], c, Join(parts[1..], c));
      SplitJoin(parts[1..], c);
      assert [parts[0]] + parts[1..] == parts;
    }
  }

  // ---- bufio.ScanLines and fmt.Fprintln ----

  predicate EndsWithCR(l: string) {
    |l| > 0 && l[|l| - 1] == '\r'
  }

  /** bufio's `dropCR`: one trailing carriage return is removed. */
  function DropCR(l: string): (r: string)
    ensures '\n' !in l ==> '\n' !in r
    ensures !EndsWithCR(l) ==> r == l
    ensures |r| <= |l|
  {
    if EndsWithCR(l) then l[..|l| - 1] else l
  }

  /** The tokens `bufio.Scanner` yields with `bufio.ScanLines`: pieces between
      newlines, without a trailing `\r`; a final newline does not open an empty line. */
  function ScanLines(s: string): (r: seq<string>)
    ensures forall k :: 0 <= k < |r| ==> '\n' !in r[k]
    decreases |s|
  {
    if |s| == 0 then []
    else
      var i := IndexOf(s, '\n');
      if i == |s| then [DropCR(s)] else [DropCR(s[..i])] + ScanLines(s[i + 1..])
  }

  lemma ScanCons(a: string, rest: string)
    requires '\n' !in a
    ensures ScanLines(a + "\n" + rest) == [DropCR(a)] + ScanLines(rest)
  {
    var s := a + "\n" + rest;
    assert s[|a|] == '\n';
    assert IndexOf(s, '\n') == |a|;
    assert s[..|a|] == a && s[|a| + 1..] == rest;
  }

  lemma ScanLast(b: string)
    requires b != "" && '\n' !in b
    ensures ScanLines(b) == [DropCR(b)]
  {
  }

  /** What a sequence of `fmt.Fprintln(buffer, line)` calls writes. */
  function Terminated(lines: seq<string>): string {
    if lines == [] then "" else lines[0] + "\n" + Terminated(lines[1..])
  }

  lemma {:induction false} TerminatedSnoc(lines: seq<string>, l: string)
    ensures Terminated(lines + [l]) == Terminated(lines) + l + "\n"
  {
    if lines != [] {
      assert (lines + [l])[1..] == lines[1..] + [l];
      TerminatedSnoc(lines[1..], l);
    } else {
      assert lines + [l] == [l];
    }
  }

  lemma {:induction false} TerminatedAppend(a: seq<string>, b: seq<string>)
    ensures Terminated(a + b) == Terminated(a) + Terminated(b)
    decreases |a|
  {
    if a != [] {
      assert (a + b)[1..] == a[1..] + b;
      TerminatedAppend(a[1..], b);
    } else {
      assert a + b == b;
    }
  }

  predicate PlainLine(l: string) {
    '\n' !in l && !EndsWithCR(l)
  }

  /** Scanning what Fprintln wrote gives back the lines that were written. */
  lemma {:induction false} ScanTerminated(lines: seq<string>)
    requires forall k :: 0 <= k < |lines| ==> PlainLine(lines[k])
    ensures ScanLines(Terminated(lines)) == lines
  {
    if lines != [] {
      var s := Terminated(lines);
      var rest := Terminated(lines[1..]);
      assert s == lines[0] + "\n" + rest;
      assert s[|lines[0]|] == '\n';
      assert IndexOf(s, '\n') == |lines[0]|;
      assert s[..|lines[0]|] == lines[0];
      assert s[|lines[0]| + 1..] == rest;
      ScanTerminated(lines[1..]);
    }
  }

  /** A trimmed line is never broken up by the scanner. */
  lemma TrimmedIsPlain(l: string)
    requires '\n' !in l && Trimmed(l)
    ensures PlainLine(l)
  {
  }

  /** Splitting a text of terminated, newline-free lines on newlines. */
  lemma {:induction false} SplitTerminated(lines: seq<string>)
    requires forall k :: 0 <= k < |lines| ==> '\n' !in lines[k]
    ensures Split(Terminated(lines), '\n') == lines + [""]
    decreases |lines|
  {
    if lines == [] {
      assert Split("", '\n') == [""];
    } else {
      var more := Terminated(lines[1..]);
      SplitCons(lines[0], '\n', more);
      SplitTerminated(lines[1..]);
      assert [lines[0]] + (lines[1..] + [""]) == lines + [""];
    }
  }

  // ---- decimal rendering, as `%d` prints an int ----

  function DigitChar(d: nat): char
    requires d < 10
  {
    "0123456789"[d]
  }

  function NatToString(n: nat): (r: string)
    ensures |r| >= 1
    ensures forall k :: 0 <= k < |r| ==> '0' <= r[k] <= '9'
  {
    if n < 10 then [DigitChar(n)] else NatToString(n / 10) + [DigitChar(n % 10)]
  }

  function IntToString(n: int): (r: string)
    ensures '\n' !in r
  {
    if n < 0 then "-" + NatToString(-n) else NatToString(n)
  }
}

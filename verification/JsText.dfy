/** The string operations the text algorithms share: white space, lines and joining. */
module JsText {

  /** ECMAScript white space and line terminators: what `\s` matches and `trim` removes. */
  predicate IsSpace(c: char) {
    c == ' ' || c == '\t' || c == '\n' || c == '\r' || c == '\U{0B}' || c == '\U{0C}' || c == '\U{A0}' || c == '\U{FEFF}'
    || c == '\U{1680}' || '\U{2000}' <= c <= '\U{200A}' || c == '\U{2028}' || c == '\U{2029}'
    || c == '\U{202F}' || c == '\U{205F}' || c == '\U{3000}'
  }

  function TrimStart(s: string): (t: string)
    ensures |t| <= |s| && t == s[|s| - |t|..]
  {
    if s != "" && IsSpace(s[0]) then TrimStart(s[1..]) else s
  }

  predicate StartsWith(s: string, prefix: string) {
    |prefix| <= |s| && s[..|prefix|] == prefix
  }

  /** `" ".repeat(n)` */
  function Blanks(n: nat): string {
    seq(n, i => ' ')
  }

  /** `text.split("\n")` */
  function Lines(text: string): (lines: seq<string>)
    ensures |lines| >= 1
  {
    if text == "" then [""]
    else
      var rest := Lines(text[1..]);
      if text[0] == '\n' then [""] + rest else [[text[0]] + rest[0]] + rest[1..]
  }

  /** `lines.join("\n")` */
  function Join(lines: seq<string>): string
    requires |lines| >= 1
  {
    if |lines| == 1 then lines[0] else lines[0] + "\n" + Join(lines[1..])
  }

  predicate OneLine(s: string) {
    forall i :: 0 <= i < |s| ==> s[i] != '\n'
  }

  ghost predicate AllOneLine(lines: seq<string>) {
    forall k :: 0 <= k < |lines| ==> OneLine(lines[k])
  }

  lemma JoinPrepends(rest: seq<string>)
    requires |rest| >= 1
    ensures Join([""] + rest) == "\n" + Join(rest)
  {
    var lines := [""] + rest;
    assert lines[1..] == rest && lines[0] == "";
    assert lines[0] + "\n" + Join(rest) == "\n" + Join(rest);
  }

  lemma Regroup(a: string, b: string, c: string, d: string)
    ensures a + b + c + d == a + (b + c + d)
  {
  }

  lemma JoinLengthens(c: char, rest: seq<string>)
    requires |rest| >= 1
    ensures Join([[c] + rest[0]] + rest[1..]) == [c] + Join(rest)
  {
    var first := [c] + rest[0];
    var lines := [first] + rest[1..];
    assert |lines| == |rest| && lines[0] == first && lines[1..] == rest[1..];
    if |rest| > 1 {
      var more := Join(rest[1..]);
      assert Join(lines) == first + "\n" + more && Join(rest) == rest[0] + "\n" + more;
      Regroup([c], rest[0], "\n", more);
    }
  }

  lemma OneLineLengthens(c: char, s: string)
    requires OneLine(s) && c != '\n'
    ensures OneLine([c] + s)
  {
  }

  lemma AllOneLineFrom(first: string, rest: seq<string>)
    requires OneLine(first) && AllOneLine(rest)
    ensures AllOneLine([first] + rest)
  {
    hide OneLine;
  }

  lemma {:induction false} LinesAreLines(text: string)
    ensures AllOneLine(Lines(text)) && Join(Lines(text)) == text
  {
    if text != "" {
      LinesAreLines(text[1..]);
      var rest, lines := Lines(text[1..]), Lines(text);
      assert text == [text[0]] + text[1..];
      assert OneLine("");
      hide Join, OneLine;
      if text[0] == '\n' {
        AllOneLineFrom("", rest);
        JoinPrepends(rest);
      } else {
        OneLineLengthens(text[0], rest[0]);
        AllOneLineFrom([text[0]] + rest[0], rest[1..]);
        JoinLengthens(text[0], rest);
      }
    }
  }

  lemma {:induction false} LinesOfOneLine(line: string)
    requires OneLine(line)
    ensures Lines(line) == [line]
  {
    if line != "" {
      LinesOfOneLine(line[1..]);
      assert line == [line[0]] + line[1..];
    }
  }

  lemma {:induction false} LinesOfBreak(line: string, rest: string)
    requires OneLine(line)
    ensures Lines(line + "\n" + rest) == [line] + Lines(rest)
  {
    var text := line + "\n" + rest;
    if line == "" {
      assert text[1..] == rest;
    } else {
      LinesOfBreak(line[1..], rest);
      assert text[1..] == line[1..] + "\n" + rest;
      assert line == [line[0]] + line[1..];
    }
  }

  /** Splitting undoes joining when no line contains a break. */
  lemma {:induction false} LinesOfJoin(lines: seq<string>)
    requires |lines| >= 1 && AllOneLine(lines)
    ensures Lines(Join(lines)) == lines
  {
    if |lines| == 1 {
      LinesOfOneLine(lines[0]);
    } else {
      LinesOfJoin(lines[1..]);
      LinesOfBreak(lines[0], Join(lines[1..]));
    }
  }

  /** How many line breaks stand before a position. */
  function LineOf(text: string, i: nat): nat
    requires i <= |text|
    decreases i
  {
    if i == 0 then 0 else (if text[0] == '\n' then 1 else 0) + LineOf(text[1..], i - 1)
  }

  /** How many characters stand between a position and the last line break before it. */
  function ColumnOf(text: string, i: nat): nat
    requires i <= |text|
    decreases i
  {
    if LineOf(text, i) == 0 then i else ColumnOf(text[1..], i - 1)
  }

  /** Every character that is no line break stands in its line at its column. */
  lemma {:induction false} LineAndColumn(text: string, i: nat)
    requires i < |text| && text[i] != '\n'
    ensures var lines, k, col := Lines(text), LineOf(text, i), ColumnOf(text, i);
      k < |lines| && col < |lines[k]| && lines[k][col] == text[i]
    decreases i
  {
    if i > 0 { LineAndColumn(text[1..], i - 1); }
    assert i > 0 && LineOf(text, i) == 0 ==> ColumnOf(text[1..], i - 1) == i - 1;
  }

  lemma {:induction false} SameBreaksSamePlace(a: string, b: string, i: nat)
    requires |a| == |b| && i <= |a| && forall j :: 0 <= j < |a| ==> (a[j] == '\n' <==> b[j] == '\n')
    ensures LineOf(a, i) == LineOf(b, i) && ColumnOf(a, i) == ColumnOf(b, i)
    decreases i
  {
    if i > 0 { SameBreaksSamePlace(a[1..], b[1..], i - 1); }
  }

  ghost predicate SameLengths(a: seq<string>, b: seq<string>) {
    |a| == |b| && forall k :: 0 <= k < |a| ==> |a[k]| == |b[k]|
  }

  /** Line lists of one shape join to texts of one length with their breaks in the same places. */
  lemma {:induction false} JoinKeepsLayout(a: seq<string>, b: seq<string>)
    requires |a| >= 1 && SameLengths(a, b) && AllOneLine(a) && AllOneLine(b)
    ensures |Join(a)| == |Join(b)|
    ensures forall i :: 0 <= i < |Join(a)| ==> (Join(a)[i] == '\n' <==> Join(b)[i] == '\n')
  {
    if |a| > 1 {
      JoinKeepsLayout(a[1..], b[1..]);
      var n := |a[0]|;
      forall i | 0 <= i < |Join(a)| ensures Join(a)[i] == '\n' <==> Join(b)[i] == '\n' {
        if i < n {
          assert Join(a)[i] == a[0][i] && Join(b)[i] == b[0][i];
        } else if i > n {
          assert Join(a)[i] == Join(a[1..])[i - n - 1] && Join(b)[i] == Join(b[1..])[i - n - 1];
        }
      }
    }
  }
}

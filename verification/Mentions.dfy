/**
 Mentions in a message (src/protocol/mentions.ts): code is blanked out, then a global regular
 expression scans what is left, `(^|[^\w-])@([a-z0-9-]+)`, consuming each match.
 */
module Mentions {
  import opened Collections
  import opened JsText
  import opened Slugs

  // ---- masking ----

  predicate IsFence(line: string) {
    StartsWith(TrimStart(line), "```")
  }

  function Fences(lines: seq<string>): nat {
    if lines == [] then 0
    else Fences(lines[..|lines| - 1]) + (if IsFence(lines[|lines| - 1]) then 1 else 0)
  }

  function Ticks(s: string): nat {
    if s == "" then 0
    else Ticks(s[..|s| - 1]) + (if s[|s| - 1] == '`' then 1 else 0)
  }

  /** A column of a line is code when it is a backtick or an odd number of them precede it. */
  predicate InlineCode(line: string, col: nat)
    requires col < |line|
  {
    line[col] == '`' || Ticks(line[..col]) % 2 == 1
  }

  /** A line is fenced when it is a fence or an odd number of them precede it. */
  predicate Fenced(lines: seq<string>, k: nat)
    requires k < |lines|
  {
    IsFence(lines[k]) || Fences(lines[..k]) % 2 == 1
  }

  function MaskedInline(line: string): string {
    seq(|line|, col requires 0 <= col < |line| => if InlineCode(line, col) then ' ' else line[col])
  }

  function MaskedLine(lines: seq<string>, k: nat): string
    requires k < |lines|
  {
    if Fenced(lines, k) then Blanks(|lines[k]|) else MaskedInline(lines[k])
  }

  function MaskedLines(lines: seq<string>): seq<string> {
    seq(|lines|, k requires 0 <= k < |lines| => MaskedLine(lines, k))
  }

  function Masked(text: string): string {
    Join(MaskedLines(Lines(text)))
  }

  method MaskInlineCode(line: string) returns (result: string)
    ensures result == MaskedInline(line)
  {
    result := "";
    var inInline := false;
    for index := 0 to |line|
      invariant |result| == index
      invariant inInline <==> Ticks(line[..index]) % 2 == 1
      invariant forall col :: 0 <= col < index ==> result[col] == MaskedInline(line)[col]
    {
      assert line[..index + 1][..index] == line[..index];
      if line[index] == '`' {
        inInline := !inInline;
        result := result + " ";
      } else {
        result := result + [if inInline then ' ' else line[index]];
      }
    }
  }

  method MaskCode(text: string) returns (masked: string)
    ensures masked == Masked(text)
  {
    hide IsFence, MaskedInline, Lines, Join, Blanks;
    var lines, maskedLines, inFence := Lines(text), [], false;
    for k := 0 to |lines|
      invariant |maskedLines| == k
      invariant inFence <==> Fences(lines[..k]) % 2 == 1
      invariant forall j :: 0 <= j < k ==> maskedLines[j] == MaskedLine(lines, j)
    {
      assert lines[..k + 1][..k] == lines[..k];
      if IsFence(lines[k]) {
        maskedLines := maskedLines + [Blanks(|lines[k]|)];
        inFence := !inFence;
      } else if inFence {
        maskedLines := maskedLines + [Blanks(|lines[k]|)];
      } else {
        var inline := MaskInlineCode(lines[k]);
        maskedLines := maskedLines + [inline];
      }
    }
    assert maskedLines == MaskedLines(lines);
    masked := Join(maskedLines);
  }

  lemma MaskedLinesAreLines(lines: seq<string>)
    requires AllOneLine(lines)
    ensures AllOneLine(MaskedLines(lines)) && SameLengths(MaskedLines(lines), lines)
  {
    hide IsFence;
  }

  /** Masking keeps the length and every line break. */
  lemma MaskingKeepsLayout(text: string)
    ensures |Masked(text)| == |text|
    ensures forall i :: 0 <= i < |text| ==> (Masked(text)[i] == '\n' <==> text[i] == '\n')
  {
    hide Join, Lines, OneLine;
    LinesAreLines(text);
    MaskedLinesAreLines(Lines(text));
    JoinKeepsLayout(MaskedLines(Lines(text)), Lines(text));
  }

  /** The masked text's lines are the text's lines with exactly the fenced lines and the inline code blanked. */
  lemma MaskingMeaning(text: string, k: nat, col: nat)
    requires k < |Lines(text)| && col < |Lines(text)[k]|
    ensures var masked, lines := Lines(Masked(text)), Lines(text);
      && |masked| == |lines| && |masked[k]| == |lines[k]|
      && masked[k][col] == if Fenced(lines, k) || InlineCode(lines[k], col) then ' ' else lines[k][col]
  {
    hide Fenced, InlineCode, Join, Lines, OneLine;
    LinesAreLines(text);
    MaskedLinesAreLines(Lines(text));
    LinesOfJoin(MaskedLines(Lines(text)));
  }

  /** A character of the text itself, no line break, that stands in no fenced line and no inline code. */
  predicate Plain(text: string, i: nat) {
    && i < |text| && text[i] != '\n'
    && var k, col := LineOf(text, i), ColumnOf(text, i);
       k < |Lines(text)| && col < |Lines(text)[k]| && !Fenced(Lines(text), k) && !InlineCode(Lines(text)[k], col)
  }

  /** Position by position: line breaks and plain characters stay, everything else becomes a blank. */
  lemma MaskedAt(text: string, i: nat)
    requires i < |text|
    ensures |Masked(text)| == |text|
    ensures Masked(text)[i] == if text[i] == '\n' || Plain(text, i) then text[i] else ' '
  {
    MaskingKeepsLayout(text);
    hide Masked, Lines, LineOf, ColumnOf, Fenced, InlineCode;
    if text[i] != '\n' {
      LineAndColumn(text, i);
      LineAndColumn(Masked(text), i);
      SameBreaksSamePlace(text, Masked(text), i);
      MaskingMeaning(text, LineOf(text, i), ColumnOf(text, i));
    }
  }

  predicate NoTicks(s: string) {
    forall i :: 0 <= i < |s| ==> s[i] != '`'
  }

  lemma FenceHoldsATick(s: string)
    requires IsFence(s)
    ensures !NoTicks(s)
  {
    var rest := TrimStart(s);
    assert rest[0] == rest[..3][0];
    assert s[|s| - |rest|] == '`';
  }

  lemma {:induction false} NoTicksCountsNone(s: string)
    requires NoTicks(s)
    ensures Ticks(s) == 0 && !IsFence(s) && MaskedInline(s) == s
    decreases |s|
  {
    if s != "" { NoTicksCountsNone(s[..|s| - 1]); }
    forall col | 0 <= col < |s| ensures !InlineCode(s, col) {
      NoTicksCountsNone(s[..col]);
    }
    if IsFence(s) { FenceHoldsATick(s); }
  }

  lemma {:induction false} NoFencesCountNone(lines: seq<string>)
    requires forall line :: line in lines ==> !IsFence(line)
    ensures Fences(lines) == 0
  {
    if lines != [] {
      assert lines[|lines| - 1] in lines;
      NoFencesCountNone(lines[..|lines| - 1]);
    }
  }

  /** A masked text holds no backtick, so masking it again changes nothing. */
  lemma MaskingIsIdempotent(text: string)
    ensures Masked(Masked(text)) == Masked(text)
  {
    hide Join, Lines, IsFence;
    LinesAreLines(text);
    var once := MaskedLines(Lines(text));
    MaskedLinesAreLines(Lines(text));
    LinesOfJoin(once);
    forall k | 0 <= k < |once| ensures MaskedLine(once, k) == once[k] {
      forall line | line in once[..k + 1] ensures !IsFence(line) {
        assert NoTicks(line);
        NoTicksCountsNone(line);
      }
      assert once[k] in once[..k + 1] && forall line :: line in once[..k] ==> line in once[..k + 1];
      NoTicksCountsNone(once[k]);
      NoFencesCountNone(once[..k]);
    }
    assert MaskedLines(once) == once;
  }

  // ---- what a mention is ----

  /** `\w` */
  predicate WordChar(c: char) {
    'a' <= c <= 'z' || 'A' <= c <= 'Z' || '0' <= c <= '9' || c == '_'
  }

  predicate Boundary(t: string, at: nat)
    requires at <= |t|
  {
    at == 0 || (!WordChar(t[at - 1]) && t[at - 1] != '-')
  }

  /** An `@` at a word boundary with a slug character behind it. */
  predicate MentionAt(t: string, at: nat) {
    at + 1 < |t| && t[at] == '@' && Boundary(t, at) && SlugChar(t[at + 1])
  }

  /** Where the maximal slug run from `from` ends. */
  function RunEnd(t: string, from: nat): (end: nat)
    requires from <= |t|
    ensures from <= end <= |t|
    ensures forall i :: from <= i < end ==> SlugChar(t[i])
    ensures end < |t| ==> !SlugChar(t[end])
    decreases |t| - from
  {
    if from < |t| && SlugChar(t[from]) then RunEnd(t, from + 1) else from
  }

  function AliasAt(t: string, at: nat): string
    requires MentionAt(t, at)
  {
    t[at + 1..RunEnd(t, at + 1)]
  }

  /** The aliases mentioned at positions below `n`, in text order. */
  function AliasesBefore(t: string, n: nat): seq<string>
    decreases n
  {
    if n == 0 then []
    else AliasesBefore(t, n - 1) + (if MentionAt(t, n - 1) then [AliasAt(t, n - 1)] else [])
  }

  function Only(s: seq<string>, roster: set<string>, inside: bool): seq<string> {
    if s == [] then []
    else
      var front, last := Only(s[..|s| - 1], roster, inside), s[|s| - 1];
      if (last in roster) == inside then front + [last] else front
  }

  function FirstAppearances(s: seq<string>): seq<string> {
    if s == [] then []
    else
      var front, last := s[..|s| - 1], s[|s| - 1];
      if last in front then FirstAppearances(front) else FirstAppearances(front) + [last]
  }

  function Roster(aliases: seq<string>): set<string> {
    set i | 0 <= i < |aliases| && IsSafeSlug(aliases[i]) :: aliases[i]
  }

  datatype MentionAnalysis = MentionAnalysis(mentions: seq<string>, unknown: seq<string>)

  function Analysis(text: string, aliases: seq<string>): MentionAnalysis {
    var found := AliasesBefore(Masked(text), |text|);
    MentionAnalysis(FirstAppearances(Only(found, Roster(aliases), true)), FirstAppearances(Only(found, Roster(aliases), false)))
  }

  // ---- the regular expression ----

  /** A match of the expression: the captured alias is `[start, end)`, and `end` is the next `lastIndex`. */
  datatype Match = Match(start: nat, end: nat)

  function MatchAlias(t: string, at: nat): Option<Match> {
    if at + 1 < |t| && t[at] == '@' && SlugChar(t[at + 1]) then Some(Match(at + 1, RunEnd(t, at + 1))) else None
  }

  /** The match starting at `p`: the `^` alternative first, then the boundary character. */
  function MatchAt(t: string, p: nat): Option<Match> {
    if p == 0 && MatchAlias(t, 0).Some? then MatchAlias(t, 0)
    else if p < |t| && !WordChar(t[p]) && t[p] != '-' then MatchAlias(t, p + 1)
    else None
  }

  lemma MatchesAreMentions(t: string, p: nat)
    ensures p == 0 && MentionAt(t, 0) ==> MatchAt(t, 0) == MatchAlias(t, 0)
    ensures !(p == 0 && MentionAt(t, 0)) ==> MatchAt(t, p) == if MentionAt(t, p + 1) then MatchAlias(t, p + 1) else None
  {
  }

  lemma {:induction false} NoAliases(t: string, from: nat, until: nat)
    requires from <= until && forall at :: from <= at < until ==> !MentionAt(t, at)
    ensures AliasesBefore(t, until) == AliasesBefore(t, from)
    decreases until
  {
    if from < until { NoAliases(t, from, until - 1); }
  }

  /** Consuming a run skips no mention: none starts inside it or right behind it. */
  lemma RunHidesNoMention(t: string, at: nat)
    requires MentionAt(t, at)
    ensures var end := RunEnd(t, at + 1);
      && AliasesBefore(t, end) == AliasesBefore(t, at) + [t[at + 1..end]] && !MentionAt(t, end)
      && MatchAlias(t, at) == Some(Match(at + 1, end)) && at + 1 < end <= |t|
  {
    var end := RunEnd(t, at + 1);
    assert SlugChar(t[end - 1]);
    NoAliases(t, at + 1, end);
    assert AliasesBefore(t, at + 1) == AliasesBefore(t, at) + [AliasAt(t, at)];
  }

  /** `matcher.exec`: the leftmost match at or after `lastIndex`, of which no mention in between was skipped. */
  method Exec(t: string, lastIndex: nat) returns (m: Option<Match>, ghost at: nat)
    requires lastIndex <= |t| && (lastIndex > 0 ==> !MentionAt(t, lastIndex))
    ensures m.None? ==> AliasesBefore(t, |t|) == AliasesBefore(t, lastIndex)
    ensures m.Some? ==> lastIndex <= at && MentionAt(t, at) && m == MatchAlias(t, at) && AliasesBefore(t, at) == AliasesBefore(t, lastIndex)
  {
    at := lastIndex;
    for p := lastIndex to |t|
      invariant forall i :: lastIndex <= i <= p ==> (p > 0 ==> !MentionAt(t, i))
    {
      MatchesAreMentions(t, p);
      m := MatchAt(t, p);
      if m.Some? {
        at := if p == 0 && MentionAt(t, 0) then 0 else p + 1;
        NoAliases(t, lastIndex, at);
        return;
      }
    }
    m := None;
    NoAliases(t, lastIndex, |t|);
  }

  lemma SnocFirstAppearances(found: seq<string>, alias: string)
    ensures FirstAppearances(found + [alias])
         == if alias in found then FirstAppearances(found) else FirstAppearances(found) + [alias]
  {
    assert (found + [alias])[..|found|] == found;
  }

  /** One more alias found grows one of the two lists, and its first appearances only if it is new there. */
  lemma OneMore(found: seq<string>, alias: string, roster: set<string>, inside: bool)
    requires inside == (alias in roster)
    ensures var was := Only(found, roster, inside);
      && Only(found + [alias], roster, inside) == was + [alias]
      && FirstAppearances(was + [alias]) == (if alias in was then FirstAppearances(was) else FirstAppearances(was) + [alias])
      && Only(found + [alias], roster, !inside) == Only(found, roster, !inside)
  {
    assert (found + [alias])[..|found|] == found;
    SnocFirstAppearances(Only(found, roster, inside), alias);
  }

  lemma NothingFound(t: string, roster: set<string>)
    ensures AliasesBefore(t, 0) == [] && FirstAppearances([]) == []
    ensures Only([], roster, true) == [] && Only([], roster, false) == []
  {
  }

  method AnalyzeMentions(text: string, aliases: seq<string>) returns (r: MentionAnalysis)
    ensures r == Analysis(text, aliases)
  {
    hide FirstAppearances, Only, AliasesBefore, MentionAt, MatchAlias, Masked, Lines, IsSafeSlug, RunEnd;
    var roster := set i | 0 <= i < |aliases| && IsSafeSlug(aliases[i]) :: aliases[i];
    var t := MaskCode(text);
    MaskingKeepsLayout(text);
    var mentions, unknown := [], [];
    var seenMention, seenUnknown := {}, {};
    var lastIndex := 0;
    ghost var found := [];
    NothingFound(t, roster);
    while true
      invariant lastIndex <= |t| && (lastIndex > 0 ==> !MentionAt(t, lastIndex))
      invariant found == AliasesBefore(t, lastIndex)
      invariant mentions == FirstAppearances(Only(found, roster, true))
      invariant unknown == FirstAppearances(Only(found, roster, false))
      invariant forall x :: x in seenMention <==> x in Only(found, roster, true)
      invariant forall x :: x in seenUnknown <==> x in Only(found, roster, false)
      decreases |t| - lastIndex
    {
      ghost var at;
      var m: Option<Match>;
      m, at := Exec(t, lastIndex);
      if m.None? { break; }
      RunHidesNoMention(t, at);
      var alias := t[m.value.start..m.value.end];
      OneMore(found, alias, roster, alias in roster);
      found := found + [alias];
      lastIndex := m.value.end;
      if alias in roster {
        if alias !in seenMention {
          seenMention := seenMention + {alias};
          mentions := mentions + [alias];
        }
      } else if alias !in seenUnknown {
        seenUnknown := seenUnknown + {alias};
        unknown := unknown + [alias];
      }
    }
    r := MentionAnalysis(mentions, unknown);
  }

  // ---- what the analysis means ----

  lemma {:induction false} AliasesBeforeAre(t: string, n: nat, alias: string)
    ensures alias in AliasesBefore(t, n) <==> exists at :: 0 <= at < n && MentionAt(t, at) && AliasAt(t, at) == alias
    decreases n
  {
    if n > 0 { AliasesBeforeAre(t, n - 1, alias); }
  }

  lemma {:induction false} OnlyAre(s: seq<string>, roster: set<string>, inside: bool)
    ensures forall x :: x in Only(s, roster, inside) <==> x in s && (x in roster) == inside
  {
    if s != [] {
      OnlyAre(s[..|s| - 1], roster, inside);
      assert s == s[..|s| - 1] + [s[|s| - 1]];
    }
  }

  lemma {:induction false} FirstAppearancesAre(s: seq<string>)
    ensures NoDuplicates(FirstAppearances(s)) && forall x :: x in FirstAppearances(s) <==> x in s
  {
    if s != [] {
      FirstAppearancesAre(s[..|s| - 1]);
      assert s == s[..|s| - 1] + [s[|s| - 1]];
    }
  }

  /** The result's order is the order of first appearance. */
  lemma {:induction false} FirstAppearancesAreOrdered(s: seq<string>, i: nat, j: nat)
    requires i < j < |FirstAppearances(s)|
    ensures FirstAppearances(s)[i] in s && FirstAppearances(s)[j] in s
    ensures IndexOf(s, FirstAppearances(s)[i]) < IndexOf(s, FirstAppearances(s)[j])
  {
    var front, last := s[..|s| - 1], s[|s| - 1];
    var r, q := FirstAppearances(s), FirstAppearances(front);
    FirstAppearancesAre(front);
    FirstAppearancesAre(s);
    assert s == front + [last];
    IndexOfSnoc(front, last, r[i]);
    IndexOfSnoc(front, last, r[j]);
    if j < |q| {
      FirstAppearancesAreOrdered(front, i, j);
    } else {
      assert r[j] == last && r[i] == q[i] && q[i] in front;
    }
  }

  lemma IndexOfSnoc(front: seq<string>, last: string, x: string)
    ensures IndexOf(front + [last], x) == if x in front then IndexOf(front, x) else if x == last then |front| else -1
  {
    var s := front + [last];
    if x in front {
      var i := IndexOf(front, x);
      assert s[..i] == front[..i];
      FirstOccurrence(s, x, i);
    } else if x == last {
      assert s[..|front|] == front;
      FirstOccurrence(s, x, |front|);
    } else {
      assert x !in s;
    }
  }

  /**
   In the text as written, `alias` stands at `at` behind an at sign, outside code: the at
   sign at a word boundary, and the alias a run of slug characters that code or a line
   break may end but nothing else continues.
   */
  predicate Addresses(text: string, at: nat, alias: string) {
    var end := at + 1 + |alias|;
    && alias != "" && end <= |text| && text[at + 1..end] == alias
    && text[at] == '@' && Plain(text, at)
    && (at > 0 && Plain(text, at - 1) ==> !WordChar(text[at - 1]) && text[at - 1] != '-')
    && (forall i :: at < i < end ==> Plain(text, i) && SlugChar(text[i]))
    && (end < |text| && Plain(text, end) ==> !SlugChar(text[end]))
  }

  lemma MaskedAll(text: string)
    ensures |Masked(text)| == |text|
    ensures forall i :: 0 <= i < |text| ==> Masked(text)[i] == if text[i] == '\n' || Plain(text, i) then text[i] else ' '
  {
    hide Masked, Plain;
    MaskingKeepsLayout(text);
    forall i | 0 <= i < |text| ensures Masked(text)[i] == if text[i] == '\n' || Plain(text, i) then text[i] else ' ' {
      MaskedAt(text, i);
    }
  }

  lemma {:induction false} RunEndIs(t: string, from: nat, end: nat)
    requires from <= end <= |t| && (forall i :: from <= i < end ==> SlugChar(t[i])) && (end < |t| ==> !SlugChar(t[end]))
    ensures RunEnd(t, from) == end
    decreases end - from
  {
    if from < end { RunEndIs(t, from + 1, end); }
  }

  /** Inside a stretch that masks to slug characters the text is plain, and reads the same. */
  lemma PlainStretch(text: string, from: nat, until: nat)
    requires from <= until <= |text| == |Masked(text)| && forall i :: from <= i < until ==> SlugChar(Masked(text)[i])
    ensures Masked(text)[from..until] == text[from..until] && forall i :: from <= i < until ==> Plain(text, i)
  {
    hide Masked, Plain;
    MaskedAll(text);
  }

  lemma MentionIsAddress(text: string, at: nat, alias: string)
    requires at < |text| && MentionAt(Masked(text), at) && AliasAt(Masked(text), at) == alias
    ensures Addresses(text, at, alias)
  {
    hide Masked, Plain;
    MaskedAll(text);
    var t := Masked(text);
    var end := RunEnd(t, at + 1);
    hide RunEnd;
    assert SlugChar(t[at + 1]) && end > at + 1;
    assert end == at + 1 + |alias|;
    PlainStretch(text, at + 1, end);
  }

  lemma AddressIsMention(text: string, at: nat, alias: string)
    requires at < |text| && Addresses(text, at, alias)
    ensures MentionAt(Masked(text), at) && AliasAt(Masked(text), at) == alias
  {
    hide Masked, Plain;
    MaskedAll(text);
    var t, end := Masked(text), at + 1 + |alias|;
    hide RunEnd;
    assert forall i :: at <= i < end ==> t[i] == text[i];
    RunEndIs(t, at + 1, end);
    assert t[at + 1..end] == text[at + 1..end];
  }

  /** A mention of the masked text is an address in the text as written. */
  lemma MentionsAreAddresses(text: string, at: nat, alias: string)
    requires at < |text|
    ensures MentionAt(Masked(text), at) && AliasAt(Masked(text), at) == alias <==> Addresses(text, at, alias)
  {
    hide Masked, MentionAt, AliasAt, Addresses;
    if MentionAt(Masked(text), at) && AliasAt(Masked(text), at) == alias { MentionIsAddress(text, at, alias); }
    if Addresses(text, at, alias) { AddressIsMention(text, at, alias); }
  }

  /**
   An alias is reported exactly when the text as written addresses it outside code: under
   `mentions` when the roster has it, under `unknown` when not.
   */
  lemma AnalysisMeaning(text: string, aliases: seq<string>, alias: string)
    ensures var r := Analysis(text, aliases);
      && var present := exists at :: 0 <= at < |text| && Addresses(text, at, alias);
      && (alias in r.mentions <==> present && alias in aliases && IsSafeSlug(alias))
      && (alias in r.unknown <==> present && !(alias in aliases && IsSafeSlug(alias)))
      && NoDuplicates(r.mentions) && NoDuplicates(r.unknown)
  {
    hide Masked, AliasAt, MentionAt, IsSafeSlug, Addresses;
    var t := Masked(text);
    var found, roster := AliasesBefore(t, |text|), Roster(aliases);
    AliasesBeforeAre(t, |text|, alias);
    forall at | 0 <= at < |text| ensures MentionAt(t, at) && AliasAt(t, at) == alias <==> Addresses(text, at, alias) {
      MentionsAreAddresses(text, at, alias);
    }
    OnlyAre(found, roster, true);
    OnlyAre(found, roster, false);
    FirstAppearancesAre(Only(found, roster, true));
    FirstAppearancesAre(Only(found, roster, false));
    RosterIs(aliases, alias);
  }

  lemma RosterIs(aliases: seq<string>, alias: string)
    ensures alias in Roster(aliases) <==> alias in aliases && IsSafeSlug(alias)
  {
  }
}

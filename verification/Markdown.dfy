/**
 The block loop of the Markdown renderer (src/browser/markdown.js): which lines end up in which
 block, whether the loop ends, and which numbers an ordered list shows. Inline markup and the
 DOM are left out; a block keeps its source lines and the span it was read from.
 */
module Markdown {
  import opened Collections
  import opened JsText

  // ---- lines ----

  predicate IsBlank(line: string) {
    forall i :: 0 <= i < |line| ==> IsSpace(line[i])
  }

  /** `.` matches anything but a line terminator. */
  predicate Dot(c: char) {
    c != '\n' && c != '\r' && c != '\U{2028}' && c != '\U{2029}'
  }

  predicate FenceLine(line: string) {
    StartsWith(line, "```")
  }

  predicate Mark(c: char) {
    c == '-' || c == '*' || c == '_'
  }

  function Marks(line: string): nat {
    if line == "" then 0 else (if Mark(line[0]) then 1 else 0) + Marks(line[1..])
  }

  /** `^\s*([-*_]\s*){3,}$` */
  predicate RuleLine(line: string) {
    (forall i :: 0 <= i < |line| ==> IsSpace(line[i]) || Mark(line[i])) && Marks(line) >= 3
  }

  predicate QuoteLine(line: string) {
    line != "" && line[0] == '>'
  }

  function Unquoted(line: string): string
    requires QuoteLine(line)
  {
    if |line| > 1 && IsSpace(line[1]) then line[2..] else line[1..]
  }

  predicate Digit(c: char) {
    '0' <= c <= '9'
  }

  /** Length of the run of characters satisfying `p` a line starts with. */
  function RunOf(line: string, p: char -> bool): (n: nat)
    ensures n <= |line| && forall i :: 0 <= i < n ==> p(line[i])
    ensures n < |line| ==> !p(line[n])
  {
    if line != "" && p(line[0]) then 1 + RunOf(line[1..], p) else 0
  }

  /** Behind the marker: `\s+(.+)$` splits `t` at `w`. */
  predicate SplitsText(t: string, w: nat) {
    1 <= w < |t| && (forall i :: 0 <= i < w ==> IsSpace(t[i])) && (forall i :: w <= i < |t| ==> Dot(t[i]))
  }

  function LastSplit(t: string, w: nat): Option<nat> {
    if w == 0 then None else if SplitsText(t, w) then Some(w) else LastSplit(t, w - 1)
  }

  /** The captured text: the greedy `\s+` takes as much as it can. */
  function CapturedText(t: string): Option<string> {
    var w := LastSplit(t, |t|);
    if w.Some? && w.value <= |t| then Some(t[w.value..]) else None
  }

  datatype HeadingMatch = HeadingMatch(level: nat, text: string)

  function Heading(line: string): Option<HeadingMatch> {
    var n := RunOf(line, c => c == '#');
    if !(1 <= n <= 3) then None
    else
      var text := CapturedText(line[n..]);
      if text.Some? then Some(HeadingMatch(n, text.value)) else None
  }

  predicate HeadingStart(line: string) {
    var n := RunOf(line, c => c == '#');
    1 <= n <= 3 && n < |line| && IsSpace(line[n])
  }

  predicate BulletStart(line: string) {
    |line| > 1 && (line[0] == '-' || line[0] == '*') && IsSpace(line[1])
  }

  function Bullet(line: string): Option<string> {
    if line != "" && (line[0] == '-' || line[0] == '*') then CapturedText(line[1..]) else None
  }

  predicate NumberStart(line: string) {
    var n := RunOf(line, Digit);
    n >= 1 && n + 1 < |line| && line[n] == '.' && IsSpace(line[n + 1])
  }

  function DigitsValue(digits: string): nat {
    if digits == "" then 0
    else DigitsValue(digits[..|digits| - 1]) * 10 + (var d := digits[|digits| - 1]; if Digit(d) then d as nat - '0' as nat else 0)
  }

  datatype Item = Item(ordinal: nat, text: string)

  function Numbered(line: string): Option<Item> {
    var n := RunOf(line, Digit);
    if n == 0 || n == |line| || line[n] != '.' then None
    else
      var text := CapturedText(line[n + 1..]);
      if text.Some? then Some(Item(DigitsValue(line[..n]), text.value)) else None
  }

  /** `isMarkdownBlockStart` */
  predicate IsBlockStart(line: string) {
    FenceLine(line) || HeadingStart(line) || RuleLine(line) || QuoteLine(line) || BulletStart(line) || NumberStart(line)
  }

  /** Some branch of the block loop other than the paragraph takes the line. */
  predicate BranchAccepts(line: string) {
    FenceLine(line) || Heading(line).Some? || RuleLine(line) || QuoteLine(line) || Bullet(line).Some? || Numbered(line).Some?
  }

  /** A line that ends paragraphs as a block start but that no block branch takes, such as `- ` or `# `. */
  predicate Unclaimed(line: string) {
    !IsBlank(line) && IsBlockStart(line) && !BranchAccepts(line)
  }

  // ---- blocks ----

  /** A list item element: its `value`, if the renderer set one, and its text. */
  datatype Entry = Entry(value: Option<int>, text: string)

  datatype Block =
    | Code(opening: string, code: seq<string>)
    | HeadingBlock(level: nat, text: string)
    | Rule
    | Quote(quoted: seq<string>)
    | Bullets(texts: seq<string>)
    | Numbers(start: int, entries: seq<Entry>)
    | Paragraph(body: seq<string>)

  datatype Placed = Placed(block: Block, from: nat, until: nat)

  /** First index from `c` on whose line does not satisfy `p`. */
  function EndOf(lines: seq<string>, c: nat, p: string -> bool): (end: nat)
    requires c <= |lines|
    ensures c <= end <= |lines|
    ensures forall i :: c <= i < end ==> p(lines[i])
    ensures end < |lines| ==> !p(lines[end])
    decreases |lines| - c
  {
    if c < |lines| && p(lines[c]) then EndOf(lines, c + 1, p) else c
  }

  predicate InParagraph(line: string) {
    !IsBlank(line) && !IsBlockStart(line)
  }

  function Unquotes(lines: seq<string>): seq<string> {
    seq(|lines|, i requires 0 <= i < |lines| => if QuoteLine(lines[i]) then Unquoted(lines[i]) else lines[i])
  }

  function BulletTexts(lines: seq<string>): seq<string> {
    seq(|lines|, i requires 0 <= i < |lines| => var b := Bullet(lines[i]); if b.Some? then b.value else "")
  }

  /** Where an ordered list that is open at `c` ends: blank lines count only if another item follows them. */
  function NumbersEnd(lines: seq<string>, c: nat): (end: nat)
    requires c <= |lines|
    ensures c <= end <= |lines|
    decreases |lines| - c
  {
    if c == |lines| then c
    else if Numbered(lines[c]).Some? then NumbersEnd(lines, c + 1)
    else
      var ahead := EndOf(lines, c, IsBlank);
      if c < ahead < |lines| && Numbered(lines[ahead]).Some? then NumbersEnd(lines, ahead) else c
  }

  /** The items authored on the lines from `c` up to `end`. */
  function ItemsOf(lines: seq<string>): seq<Item> {
    if lines == [] then []
    else
      var last := Numbered(lines[|lines| - 1]);
      ItemsOf(lines[..|lines| - 1]) + (if last.Some? then [last.value] else [])
  }

  /** Assigning a number to a `long` attribute, as Web IDL converts it. */
  function ToInt32(n: int): int {
    (n + 0x8000_0000) % 0x1_0000_0000 - 0x8000_0000
  }

  /** The ordinal an item carries as an attribute: the first through `start`, later ones when they break the run. */
  predicate Carries(items: seq<Item>, i: nat)
    requires i < |items|
  {
    i == 0 || items[i].ordinal != items[i - 1].ordinal + 1
  }

  function Entries(items: seq<Item>): (entries: seq<Entry>)
    ensures |entries| == |items|
  {
    seq(|items|, i requires 0 <= i < |items| =>
      Entry(if i > 0 && Carries(items, i) then Some(ToInt32(items[i].ordinal)) else None, items[i].text))
  }

  /** One iteration of the loop, from a cursor inside the input: the block read, or none, and the new cursor. */
  datatype Step = Step(block: Option<Block>, next: nat)

  function CodeAt(lines: seq<string>, c: nat): Step
    requires c < |lines|
  {
    var end := EndOf(lines, c + 1, line => !FenceLine(line));
    Step(Some(Code(lines[c], lines[c + 1..end])), if end < |lines| then end + 1 else end)
  }

  function Iteration(lines: seq<string>, c: nat): (s: Step)
    requires c < |lines|
    ensures c <= s.next <= |lines|
  {
    var line := lines[c];
    if IsBlank(line) then Step(None, c + 1)
    else if FenceLine(line) then CodeAt(lines, c)
    else if Heading(line).Some? then Step(Some(HeadingBlock(Heading(line).value.level, Heading(line).value.text)), c + 1)
    else if RuleLine(line) then Step(Some(Rule), c + 1)
    else if QuoteLine(line) then
      var end := EndOf(lines, c, QuoteLine);
      Step(Some(Quote(Unquotes(lines[c..end]))), end)
    else if Numbered(line).Some? then
      var end := NumbersEnd(lines, c);
      var items := ItemsOf(lines[c..end]);
      Step(Some(Numbers(if items == [] then 1 else ToInt32(items[0].ordinal), Entries(items))), end)
    else if Bullet(line).Some? then
      var end := EndOf(lines, c, IsBullet);
      Step(Some(Bullets(BulletTexts(lines[c..end]))), end)
    else
      var end := EndOf(lines, c, InParagraph);
      Step(Some(Paragraph(lines[c..end])), end)
  }

  /** The loop's cursor is all that changes between iterations, so one that stays put repeats for ever. */
  datatype Outcome = Rendered(blocks: seq<Placed>) | NeverEnds(at: nat)

  function RenderFrom(lines: seq<string>, c: nat): Outcome
    requires c <= |lines|
    decreases |lines| - c
  {
    if c == |lines| then Rendered([])
    else
      var s := Iteration(lines, c);
      if s.next == c then NeverEnds(c)
      else
        var rest := RenderFrom(lines, s.next);
        if rest.NeverEnds? || s.block.None? then rest
        else Rendered([Placed(s.block.value, c, s.next)] + rest.blocks)
  }

  // ---- an iteration stays put exactly on an unclaimed line ----

  lemma CapturedNeedsSpace(t: string, w: nat)
    requires w <= |t| && LastSplit(t, w).Some?
    ensures |t| > 1 && IsSpace(t[0])
    ensures 1 <= LastSplit(t, w).value < |t|
  {
  }

  /** What a block branch takes always starts a block. */
  lemma AcceptedIsStart(line: string)
    requires BranchAccepts(line)
    ensures IsBlockStart(line)
  {
    if Heading(line).Some? {
      var t := line[RunOf(line, c => c == '#')..];
      CapturedNeedsSpace(t, |t|);
    }
    if Bullet(line).Some? {
      CapturedNeedsSpace(line[1..], |line| - 1);
    }
    if Numbered(line).Some? {
      var t := line[RunOf(line, Digit) + 1..];
      CapturedNeedsSpace(t, |t|);
    }
  }

  lemma StaysPutExactly(lines: seq<string>, c: nat)
    requires c < |lines|
    ensures Iteration(lines, c).next == c <==> Unclaimed(lines[c])
  {
    hide Heading, RuleLine, QuoteLine, Bullet, Numbered, FenceLine, HeadingStart, BulletStart, NumberStart, IsBlank;
    var line := lines[c];
    NumbersAdvance(lines, c);
  }

  lemma NumbersAdvance(lines: seq<string>, c: nat)
    requires c < |lines|
    ensures Numbered(lines[c]).Some? ==> NumbersEnd(lines, c) > c
  {
  }

  // ---- exactly which inputs make the loop run for ever ----

  function FencesIn(lines: seq<string>): nat {
    if lines == [] then 0 else FencesIn(lines[..|lines| - 1]) + (if FenceLine(lines[|lines| - 1]) then 1 else 0)
  }

  /** Line `k` lies outside every fence: an even number of fence lines precede it. */
  predicate Outside(lines: seq<string>, k: nat)
    requires k <= |lines|
  {
    FencesIn(lines[..k]) % 2 == 0
  }

  lemma NextFences(lines: seq<string>, k: nat)
    requires k < |lines|
    ensures FencesIn(lines[..k + 1]) == FencesIn(lines[..k]) + (if FenceLine(lines[k]) then 1 else 0)
  {
    assert lines[..k + 1][..k] == lines[..k];
  }

  lemma {:induction false} SameSide(lines: seq<string>, c: nat, k: nat)
    requires c <= k <= |lines| && forall i :: c <= i < k ==> !FenceLine(lines[i])
    ensures FencesIn(lines[..k]) == FencesIn(lines[..c])
    decreases k
  {
    if c < k {
      SameSide(lines, c, k - 1);
      NextFences(lines, k - 1);
    }
  }

  predicate IsNumber(line: string) {
    Numbered(line).Some?
  }

  predicate IsBullet(line: string) {
    Bullet(line).Some?
  }

  /** Lines that are blank or one list's items, as an ordered list may hold. */
  lemma {:induction false} NumbersHold(lines: seq<string>, c: nat)
    requires c <= |lines|
    ensures forall i :: c <= i < NumbersEnd(lines, c) ==> IsNumber(lines[i]) || IsBlank(lines[i])
    decreases |lines| - c
  {
    hide IsBlank, Numbered;
    if c < |lines| {
      if Numbered(lines[c]).Some? {
        NumbersHold(lines, c + 1);
      } else {
        var ahead := EndOf(lines, c, IsBlank);
        if c < ahead < |lines| && Numbered(lines[ahead]).Some? { NumbersHold(lines, ahead); }
      }
    }
  }

  lemma PlainLines(line: string)
    ensures IsBlank(line) || QuoteLine(line) || IsNumber(line) || IsBullet(line) ==> !FenceLine(line) && !Unclaimed(line)
    ensures InParagraph(line) || RuleLine(line) || Heading(line).Some? ==> !FenceLine(line) && !Unclaimed(line)
    ensures FenceLine(line) ==> !Unclaimed(line) && !IsBlank(line)
  {
    if FenceLine(line) { FirstTick(line); }
    if Numbered(line).Some? {
      assert RunOf(line, Digit) > 0;
    }
    if Heading(line).Some? {
      assert RunOf(line, c => c == '#') > 0;
    }
  }

  lemma FirstTick(line: string)
    requires FenceLine(line)
    ensures line[0] == '`'
  {
    assert line[..3][0] == '`';
  }

  /** An iteration that moves, taken outside every fence, passes no unclaimed line outside a fence and ends outside. */
  lemma IterationPasses(lines: seq<string>, c: nat)
    requires c < |lines| && Outside(lines, c) && Iteration(lines, c).next > c
    ensures var next := Iteration(lines, c).next;
      && (forall k :: c <= k < next ==> !(Unclaimed(lines[k]) && Outside(lines, k)))
      && (next < |lines| ==> Outside(lines, next))
  {
    hide Heading, RuleLine, QuoteLine, Bullet, Numbered, FenceLine, IsBlank, Unclaimed, NumbersEnd, InParagraph;
    var line, next := lines[c], Iteration(lines, c).next;
    if FenceLine(line) && !IsBlank(line) {
      CodePasses(lines, c);
    } else {
      NumbersHold(lines, c);
      forall k | c <= k < next ensures !FenceLine(lines[k]) && !Unclaimed(lines[k]) {
        PlainLines(lines[k]);
      }
      SameSide(lines, c, next);
    }
  }

  lemma CodePasses(lines: seq<string>, c: nat)
    requires c < |lines| && Outside(lines, c) && FenceLine(lines[c])
    ensures var next := CodeAt(lines, c).next;
      && (forall k :: c <= k < next ==> !(Unclaimed(lines[k]) && Outside(lines, k)))
      && (next < |lines| ==> Outside(lines, next))
  {
    hide FenceLine, Unclaimed;
    var end := EndOf(lines, c + 1, line => !FenceLine(line));
    NextFences(lines, c);
    PlainLines(lines[c]);
    forall k | c < k <= end ensures FencesIn(lines[..k]) == FencesIn(lines[..c]) + 1 {
      SameSide(lines, c + 1, k);
    }
    if end < |lines| {
      NextFences(lines, end);
      PlainLines(lines[end]);
    }
  }

  lemma {:induction false} HangsFromExactly(lines: seq<string>, c: nat)
    requires c <= |lines| && (c < |lines| ==> Outside(lines, c))
    ensures RenderFrom(lines, c).NeverEnds? <==> exists k :: c <= k < |lines| && Unclaimed(lines[k]) && Outside(lines, k)
    decreases |lines| - c
  {
    hide Unclaimed, Iteration, Outside;
    if c < |lines| {
      StaysPutExactly(lines, c);
      var next := Iteration(lines, c).next;
      if next == c {
        assert Unclaimed(lines[c]) && Outside(lines, c);
      } else {
        IterationPasses(lines, c);
        HangsFromExactly(lines, next);
      }
    }
  }

  /**
   The loop runs for ever exactly when some line that starts a block no branch takes has an even
   number of fence lines before it; inside a fence such a line does no harm.
   */
  lemma HangsExactly(lines: seq<string>)
    ensures RenderFrom(lines, 0).NeverEnds? <==> exists k :: 0 <= k < |lines| && Unclaimed(lines[k]) && Outside(lines, k)
  {
    assert Outside(lines, 0);
    HangsFromExactly(lines, 0);
  }

  // ---- the blocks hold the input ----

  ghost predicate BlankBetween(lines: seq<string>, from: nat, until: nat)
    requires until <= |lines|
  {
    forall i :: from <= i < until ==> IsBlank(lines[i])
  }

  ghost predicate Covers(lines: seq<string>, c: nat, placed: seq<Placed>)
    requires c <= |lines|
    decreases |placed|
  {
    if placed == [] then BlankBetween(lines, c, |lines|)
    else
      var p := placed[0];
      c <= p.from < p.until <= |lines| && BlankBetween(lines, c, p.from) && !IsBlank(lines[p.from]) && Covers(lines, p.until, placed[1..])
  }

  lemma {:induction false} BlankLinePrepends(lines: seq<string>, c: nat, placed: seq<Placed>)
    requires c < |lines| && IsBlank(lines[c]) && Covers(lines, c + 1, placed)
    ensures Covers(lines, c, placed)
  {
  }

  lemma {:induction false} RenderCovers(lines: seq<string>, c: nat)
    requires c <= |lines| && RenderFrom(lines, c).Rendered?
    ensures Covers(lines, c, RenderFrom(lines, c).blocks)
    decreases |lines| - c
  {
    if c < |lines| {
      NoBlockIsBlank(lines, c);
      hide IsBlank, Iteration;
      var s := Iteration(lines, c);
      RenderCovers(lines, s.next);
      if s.block.None? { BlankLinePrepends(lines, c, RenderFrom(lines, s.next).blocks); }
      assert s.block.Some? ==> RenderFrom(lines, c).blocks[1..] == RenderFrom(lines, s.next).blocks;
    }
  }

  lemma NoBlockIsBlank(lines: seq<string>, c: nat)
    requires c < |lines|
    ensures Iteration(lines, c).block.None? <==> IsBlank(lines[c])
    ensures IsBlank(lines[c]) ==> Iteration(lines, c).next == c + 1
  {
  }

  lemma {:induction false} CoveredOnce(lines: seq<string>, c: nat, placed: seq<Placed>)
    requires c <= |lines| && Covers(lines, c, placed)
    ensures forall i, j :: 0 <= i < j < |placed| ==> placed[i].until <= placed[j].from
    ensures forall i :: 0 <= i < |placed| ==> c <= placed[i].from < placed[i].until <= |lines|
    ensures forall k :: c <= k < |lines| && !IsBlank(lines[k]) ==> exists i :: 0 <= i < |placed| && placed[i].from <= k < placed[i].until
    decreases |placed|
  {
    hide IsBlank;
    if placed != [] {
      CoveredOnce(lines, placed[0].until, placed[1..]);
      assert forall i :: 1 <= i < |placed| ==> placed[i] == placed[1..][i - 1];
      forall k | c <= k < |lines| && !IsBlank(lines[k]) ensures exists i :: 0 <= i < |placed| && placed[i].from <= k < placed[i].until {
        if k >= placed[0].until {
          var i :| 0 <= i < |placed[1..]| && placed[1..][i].from <= k < placed[1..][i].until;
          assert placed[i + 1].from <= k < placed[i + 1].until;
        } else {
          assert placed[0].from <= k < placed[0].until;
        }
      }
    }
  }

  /** When the loop ends, its blocks' spans are disjoint, in order, and every non-blank line lies in one of them. */
  lemma EveryLineOnce(lines: seq<string>)
    requires RenderFrom(lines, 0).Rendered?
    ensures var placed := RenderFrom(lines, 0).blocks;
      && (forall i, j :: 0 <= i < j < |placed| ==> placed[i].until <= placed[j].from)
      && (forall i :: 0 <= i < |placed| ==> placed[i].from < placed[i].until <= |lines|)
      && (forall k :: 0 <= k < |lines| && !IsBlank(lines[k]) ==> exists i :: 0 <= i < |placed| && placed[i].from <= k < placed[i].until)
  {
    hide RenderFrom, IsBlank, Covers;
    RenderCovers(lines, 0);
    CoveredOnce(lines, 0, RenderFrom(lines, 0).blocks);
  }

  /** A block is its span's lines, read as its kind reads them, and stops where the kind says. */
  ghost predicate Holds(lines: seq<string>, p: Placed)
    requires p.from < p.until <= |lines|
  {
    var span := lines[p.from..p.until];
    match p.block
    case Code(opening, code) =>
      && opening == span[0] && FenceLine(opening)
      && (forall line :: line in code ==> !FenceLine(line))
      && ((span == [opening] + code && p.until == |lines|)
          || exists closing :: FenceLine(closing) && span == [opening] + code + [closing])
    case HeadingBlock(level, text) => |span| == 1 && Heading(span[0]) == Some(HeadingMatch(level, text))
    case Rule => |span| == 1 && RuleLine(span[0])
    case Quote(quoted) =>
      && |quoted| == |span|
      && (forall i :: 0 <= i < |span| ==> QuoteLine(span[i]) && quoted[i] == Unquoted(span[i]))
      && (p.until < |lines| ==> !QuoteLine(lines[p.until]))
    case Bullets(texts) =>
      && |texts| == |span|
      && (forall i :: 0 <= i < |span| ==> Bullet(span[i]) == Some(texts[i]))
      && (p.until < |lines| ==> !IsBullet(lines[p.until]))
    case Numbers(start, entries) =>
      && (forall i :: 0 <= i < |span| ==> IsBlank(span[i]) || IsNumber(span[i]))
      && IsNumber(span[0]) && IsNumber(span[|span| - 1])
      && (var ahead := EndOf(lines, p.until, IsBlank); ahead < |lines| ==> !IsNumber(lines[ahead]))
      && start == ToInt32(ItemsOf(span)[0].ordinal) && entries == Entries(ItemsOf(span))
    case Paragraph(body) =>
      && body == span
      && (forall line :: line in span ==> InParagraph(line))
      && (p.until < |lines| ==> !InParagraph(lines[p.until]))
  }

  lemma {:induction false} ItemsNonEmpty(lines: seq<string>)
    requires lines != [] && IsNumber(lines[|lines| - 1])
    ensures ItemsOf(lines) != []
  {
  }

  lemma {:induction false} NumbersEndOnItem(lines: seq<string>, c: nat)
    requires c < |lines|
    ensures NumbersEnd(lines, c) > c ==> IsNumber(lines[NumbersEnd(lines, c) - 1])
    decreases |lines| - c
  {
    hide IsBlank, Numbered;
    if Numbered(lines[c]).Some? {
      if c + 1 < |lines| { NumbersEndOnItem(lines, c + 1); }
    } else {
      var ahead := EndOf(lines, c, IsBlank);
      if c < ahead < |lines| && Numbered(lines[ahead]).Some? { NumbersEndOnItem(lines, ahead); NumbersAdvance(lines, ahead); }
    }
  }

  /** A list ends only where no further item follows, blank lines or not. */
  lemma {:induction false} NumbersEndIsFinal(lines: seq<string>, c: nat)
    requires c <= |lines|
    ensures var ahead := EndOf(lines, NumbersEnd(lines, c), IsBlank); ahead < |lines| ==> !IsNumber(lines[ahead])
    decreases |lines| - c
  {
    hide Numbered;
    if c < |lines| {
      if Numbered(lines[c]).Some? {
        NumbersEndIsFinal(lines, c + 1);
      } else {
        var ahead := EndOf(lines, c, IsBlank);
        if c < ahead < |lines| && Numbered(lines[ahead]).Some? { NumbersEndIsFinal(lines, ahead); }
      }
    }
  }

  lemma CodeHolds(lines: seq<string>, c: nat)
    requires c < |lines| && FenceLine(lines[c])
    ensures var s := CodeAt(lines, c);
      s.next > c && Holds(lines, Placed(s.block.value, c, s.next))
  {
    hide FenceLine;
    var end := EndOf(lines, c + 1, line => !FenceLine(line));
    var s := CodeAt(lines, c);
    var span, code := lines[c..s.next], lines[c + 1..end];
    if end < |lines| {
      assert span == [lines[c]] + code + [lines[end]];
    } else {
      assert span == [lines[c]] + code;
    }
  }

  lemma NumbersSpanHolds(lines: seq<string>, c: nat, end: nat, items: seq<Item>)
    requires c < end <= |lines| && items == ItemsOf(lines[c..end]) && items != []
    requires forall i :: c <= i < end ==> IsNumber(lines[i]) || IsBlank(lines[i])
    requires IsNumber(lines[c]) && IsNumber(lines[end - 1])
    requires var ahead := EndOf(lines, end, IsBlank); ahead < |lines| ==> !IsNumber(lines[ahead])
    ensures Holds(lines, Placed(Numbers(ToInt32(items[0].ordinal), Entries(items)), c, end))
  {
    hide IsNumber, IsBlank, ToInt32, Entries, ItemsOf, EndOf;
  }

  lemma NumbersSpan(lines: seq<string>, c: nat) returns (end: nat)
    requires c < |lines| && IsNumber(lines[c])
    ensures end == NumbersEnd(lines, c) && c < end <= |lines| && IsNumber(lines[end - 1])
    ensures forall i :: c <= i < end ==> IsNumber(lines[i]) || IsBlank(lines[i])
    ensures var ahead := EndOf(lines, end, IsBlank); ahead < |lines| ==> !IsNumber(lines[ahead])
  {
    NumbersAdvance(lines, c);
    hide IsNumber, IsBlank, NumbersEnd, EndOf;
    end := NumbersEnd(lines, c);
    NumbersEndOnItem(lines, c);
    NumbersEndIsFinal(lines, c);
    NumbersHold(lines, c);
  }

  lemma NumbersBlockHolds(lines: seq<string>, c: nat)
    requires c < |lines| && IsNumber(lines[c])
    ensures var end := NumbersEnd(lines, c); var items := ItemsOf(lines[c..end]);
      end > c && items != [] && Holds(lines, Placed(Numbers(ToInt32(items[0].ordinal), Entries(items)), c, end))
  {
    hide IsNumber, IsBlank, ToInt32, Entries, ItemsOf, NumbersEnd, EndOf, Holds;
    var end := NumbersSpan(lines, c);
    var span := lines[c..end];
    assert span != [] && span[|span| - 1] == lines[end - 1];
    ItemsNonEmpty(span);
    NumbersSpanHolds(lines, c, end, ItemsOf(span));
  }

  lemma QuoteHolds(lines: seq<string>, c: nat)
    requires c < |lines| && QuoteLine(lines[c])
    ensures var end := EndOf(lines, c, QuoteLine); end > c && Holds(lines, Placed(Quote(Unquotes(lines[c..end])), c, end))
  {
    hide QuoteLine, Unquoted;
  }

  lemma BulletsHold(lines: seq<string>, c: nat)
    requires c < |lines| && Bullet(lines[c]).Some?
    ensures var end := EndOf(lines, c, IsBullet); end > c && Holds(lines, Placed(Bullets(BulletTexts(lines[c..end])), c, end))
  {
    hide Bullet;
  }

  lemma ParagraphHolds(lines: seq<string>, c: nat)
    requires c < |lines| && c < EndOf(lines, c, InParagraph)
    ensures var end := EndOf(lines, c, InParagraph); Holds(lines, Placed(Paragraph(lines[c..end]), c, end))
  {
    hide InParagraph;
  }

  lemma OneLineHolds(lines: seq<string>, c: nat)
    requires c < |lines|
    ensures Heading(lines[c]).Some? ==>
      Holds(lines, Placed(HeadingBlock(Heading(lines[c]).value.level, Heading(lines[c]).value.text), c, c + 1))
    ensures RuleLine(lines[c]) ==> Holds(lines, Placed(Rule, c, c + 1))
  {
    hide Heading, RuleLine;
  }

  lemma IterationHolds(lines: seq<string>, c: nat)
    requires c < |lines| && Iteration(lines, c).next > c && Iteration(lines, c).block.Some?
    ensures Holds(lines, Placed(Iteration(lines, c).block.value, c, Iteration(lines, c).next))
  {
    hide Heading, RuleLine, QuoteLine, Bullet, Numbered, FenceLine, IsBlank, NumbersEnd, InParagraph, ItemsOf, Entries, ToInt32,
         Unquoted, Holds, EndOf;
    var line := lines[c];
    OneLineHolds(lines, c);
    if FenceLine(line) { CodeHolds(lines, c); }
    else if QuoteLine(line) { QuoteHolds(lines, c); }
    else if IsNumber(line) { NumbersBlockHolds(lines, c); }
    else if Bullet(line).Some? { BulletsHold(lines, c); }
    else if c < EndOf(lines, c, InParagraph) { ParagraphHolds(lines, c); }
  }

  lemma {:induction false} BlocksHoldFrom(lines: seq<string>, c: nat)
    requires c <= |lines| && RenderFrom(lines, c).Rendered?
    ensures forall p :: p in RenderFrom(lines, c).blocks ==> p.from < p.until <= |lines| && Holds(lines, p)
    decreases |lines| - c
  {
    hide Holds, Iteration;
    if c < |lines| {
      var s := Iteration(lines, c);
      BlocksHoldFrom(lines, s.next);
      if s.block.Some? { IterationHolds(lines, c); }
    }
  }

  // ---- the numbers a browser shows ----

  /** Ordinal values of an `ol`'s items (sections 4.4.5 and 4.4.8 of the HTML Standard). */
  function Shown(start: int, entries: seq<Entry>): (shown: seq<int>)
    ensures |shown| == |entries|
  {
    if entries == [] then []
    else
      var front, last := Shown(start, entries[..|entries| - 1]), entries[|entries| - 1];
      front + [if last.value.Some? then last.value.value else if front == [] then start else front[|front| - 1] + 1]
  }

  function Authored(items: seq<Item>): seq<int> {
    seq(|items|, i requires 0 <= i < |items| => items[i].ordinal)
  }

  lemma ToInt32Keeps(n: nat)
    ensures ToInt32(n) == n <==> n < 0x8000_0000
  {
  }

  lemma LastShown(items: seq<Item>)
    requires items != []
    ensures var n, start := |items| - 1, ToInt32(items[0].ordinal);
      Shown(start, Entries(items)) == Shown(start, Entries(items[..n])) +
        [if Carries(items, n) then ToInt32(items[n].ordinal) else Shown(start, Entries(items[..n]))[n - 1] + 1]
  {
    var n := |items| - 1;
    assert Entries(items)[..n] == Entries(items[..n]) by {
      assert forall i :: 0 <= i < n ==> Carries(items, i) == Carries(items[..n], i);
    }
  }

  /** Whether the ordinals a list carries are small enough for a `long`. */
  ghost predicate CarriedFit(items: seq<Item>) {
    forall i :: 0 <= i < |items| && Carries(items, i) ==> items[i].ordinal < 0x8000_0000
  }

  lemma CarriedFitSnoc(items: seq<Item>)
    requires items != []
    ensures var n := |items| - 1;
      CarriedFit(items) <==> CarriedFit(items[..n]) && (Carries(items, n) ==> items[n].ordinal < 0x8000_0000)
  {
    var n := |items| - 1;
    var front := items[..n];
    assert forall i :: 0 <= i < n ==> Carries(front, i) == Carries(items, i) && front[i] == items[i];
    hide Carries;
  }

  lemma AuthoredSnoc(items: seq<Item>)
    requires items != []
    ensures |Authored(items)| == |items|
    ensures Authored(items) == Authored(items[..|items| - 1]) + [items[|items| - 1].ordinal]
  {
  }

  lemma SnocsEqual(a: seq<int>, b: seq<int>, last: int, shown: int)
    requires |a| == |b|
    ensures a + [shown] == b + [last] <==> a == b && shown == last
  {
    var x, y := a + [shown], b + [last];
    assert x[..|a|] == a && y[..|b|] == b && x[|a|] == shown && y[|b|] == last;
  }

  lemma OneItem(items: seq<Item>)
    requires |items| == 1
    ensures Shown(ToInt32(items[0].ordinal), Entries(items)) == Authored(items) <==> CarriedFit(items)
  {
    var start := ToInt32(items[0].ordinal);
    LastShown(items);
    NoEntries(start);
    ToInt32Keeps(items[0].ordinal);
    assert Entries(items[..0]) == [] && items[..0] == [];
    assert Carries(items, 0);
    hide ToInt32, Entries, Shown;
    assert Shown(start, Entries(items)) == [start];
    assert Authored(items) == [items[0].ordinal];
    assert [start][0] == start && [items[0].ordinal][0] == items[0].ordinal;
    assert CarriedFit(items) <==> items[0].ordinal < 0x8000_0000;
  }

  /** With all before it as authored, the last item is as authored exactly when its carried ordinal fits. */
  lemma LastAsAuthored(items: seq<Item>)
    requires |items| > 1
    requires var n := |items| - 1; Shown(ToInt32(items[0].ordinal), Entries(items[..n])) == Authored(items[..n])
    ensures var n := |items| - 1;
      (if Carries(items, n) then ToInt32(items[n].ordinal) else Shown(ToInt32(items[0].ordinal), Entries(items[..n]))[n - 1] + 1)
        == items[n].ordinal
      <==> (Carries(items, n) ==> items[n].ordinal < 0x8000_0000)
  {
    var n := |items| - 1;
    ToInt32Keeps(items[n].ordinal);
    hide ToInt32, Entries, Shown;
    assert Authored(items[..n])[n - 1] == items[n - 1].ordinal;
  }

  lemma {:induction false} ShownIsAuthoredExactly(items: seq<Item>)
    requires items != []
    ensures Shown(ToInt32(items[0].ordinal), Entries(items)) == Authored(items) <==> CarriedFit(items)
    decreases |items|
  {
    hide ToInt32, Entries, Shown, Carries, CarriedFit, Authored;
    if |items| == 1 {
      OneItem(items);
    } else {
      var n, start := |items| - 1, ToInt32(items[0].ordinal);
      var front := items[..n];
      LastShown(items);
      AuthoredSnoc(items);
      AuthoredSnoc(front);
      CarriedFitSnoc(items);
      ShownIsAuthoredExactly(front);
      if Shown(start, Entries(front)) == Authored(front) { LastAsAuthored(items); }
      SnocsEqual(Shown(start, Entries(front)), Authored(front), items[n].ordinal,
                 if Carries(items, n) then ToInt32(items[n].ordinal) else Shown(start, Entries(front))[n - 1] + 1);
    }
  }

  lemma NoEntries(start: int)
    ensures Entries([]) == [] && Shown(start, []) == []
  {
  }

  /** In a rendered input every ordered list shows its authored ordinals, unless a carried one is too large for a `long`. */
  lemma ListsShowAuthoredNumbers(lines: seq<string>, p: Placed)
    requires RenderFrom(lines, 0).Rendered? && p in RenderFrom(lines, 0).blocks && p.block.Numbers?
    ensures p.from < p.until <= |lines|
    ensures var items := ItemsOf(lines[p.from..p.until]);
      Shown(p.block.start, p.block.entries) == Authored(items) <==> CarriedFit(items)
  {
    hide RenderFrom, ItemsOf, Shown, Entries, CarriedFit, Authored, ToInt32, Iteration;
    BlocksHoldFrom(lines, 0);
    var span := lines[p.from..p.until];
    ItemsNonEmpty(span);
    ShownIsAuthoredExactly(ItemsOf(span));
  }

  // ---- the loop ----

  /** The cursor scan every branch shares: on to the first line that `p` rejects. */
  method ScanWhile(lines: seq<string>, c: nat, p: string -> bool) returns (end: nat)
    requires c <= |lines|
    ensures end == EndOf(lines, c, p)
  {
    end := c;
    while end < |lines| && p(lines[end])
      invariant c <= end <= |lines| && EndOf(lines, c, p) == EndOf(lines, end, p)
    {
      end := end + 1;
    }
  }

  method ReadCode(lines: seq<string>, c: nat) returns (block: Block, cursor: nat)
    requires c < |lines|
    ensures Step(Some(block), cursor) == CodeAt(lines, c)
  {
    cursor := c + 1;
    var code := [];
    ghost var outside := (line: string) => !FenceLine(line);
    while cursor < |lines| && !FenceLine(lines[cursor])
      invariant c < cursor <= |lines| && code == lines[c + 1..cursor]
      invariant EndOf(lines, c + 1, outside) == EndOf(lines, cursor, outside)
    {
      code := code + [lines[cursor]];
      cursor := cursor + 1;
    }
    if cursor < |lines| { cursor := cursor + 1; }
    block := Code(lines[c], code);
    assert Step(Some(block), cursor) == CodeAt(lines, c) by { CodeEndsAt(lines, c, c + 1 + |code|); }
  }

  lemma CodeEndsAt(lines: seq<string>, c: nat, end: nat)
    requires c < end <= |lines| && (forall i :: c < i < end ==> !FenceLine(lines[i])) && (end < |lines| ==> FenceLine(lines[end]))
    ensures CodeAt(lines, c) == Step(Some(Code(lines[c], lines[c + 1..end])), if end < |lines| then end + 1 else end)
  {
  }

  method ReadQuote(lines: seq<string>, c: nat) returns (quoted: seq<string>, cursor: nat)
    requires c < |lines|
    ensures cursor == EndOf(lines, c, QuoteLine) && quoted == Unquotes(lines[c..cursor])
  {
    cursor, quoted := c, [];
    while cursor < |lines| && QuoteLine(lines[cursor])
      invariant c <= cursor <= |lines| && quoted == Unquotes(lines[c..cursor])
      invariant EndOf(lines, c, QuoteLine) == EndOf(lines, cursor, QuoteLine)
    {
      quoted := quoted + [Unquoted(lines[cursor])];
      cursor := cursor + 1;
    }
  }

  method ReadBullets(lines: seq<string>, c: nat) returns (texts: seq<string>, cursor: nat)
    requires c < |lines|
    ensures cursor == EndOf(lines, c, IsBullet) && texts == BulletTexts(lines[c..cursor])
  {
    hide Bullet;
    cursor, texts := c, [];
    while cursor < |lines|
      invariant c <= cursor <= |lines| && texts == BulletTexts(lines[c..cursor])
      invariant EndOf(lines, c, IsBullet) == EndOf(lines, cursor, IsBullet)
    {
      var text := Bullet(lines[cursor]);
      if text.None? { break; }
      texts := texts + [text.value];
      cursor := cursor + 1;
    }
  }

  method ReadNumbers(lines: seq<string>, c: nat) returns (start: int, entries: seq<Entry>, cursor: nat)
    requires c < |lines| && IsNumber(lines[c])
    ensures cursor == NumbersEnd(lines, c)
    ensures var items := ItemsOf(lines[c..cursor]);
            items != [] && start == ToInt32(items[0].ordinal) && entries == Entries(items)
  {
    hide Numbered, ToInt32, IsBlank, NumbersEnd, ItemsOf, Entries, EndOf, Carries;
    ghost var items: seq<Item> := [];
    var expected: Option<nat> := None;
    start, entries, cursor := 1, [], c;
    assert lines[c..c] == [];
    NoItems();
    NumbersEndSteps(lines, |lines|);
    while cursor < |lines|
      invariant c <= cursor <= |lines| && NumbersEnd(lines, c) == NumbersEnd(lines, cursor)
      invariant items == ItemsOf(lines[c..cursor]) && entries == Entries(items)
      invariant cursor > c ==> items != []
      invariant expected == if items == [] then None else Some(items[|items| - 1].ordinal + 1)
      invariant items != [] ==> start == ToInt32(items[0].ordinal)
      decreases |lines| - cursor
    {
      NumbersEndSteps(lines, cursor);
      var m := Numbered(lines[cursor]);
      if m.None? {
        if !IsBlank(lines[cursor]) { break; }
        var lookahead := ScanWhile(lines, cursor, IsBlank);
        if lookahead >= |lines| || Numbered(lines[lookahead]).None? { break; }
        BlanksHoldNoItems(lines, c, cursor, lookahead);
        cursor := lookahead;
        continue;
      }
      var ordinal := m.value.ordinal;
      var value: Option<int> := None;
      if expected.None? { start := ToInt32(ordinal); } else if ordinal != expected.value { value := Some(ToInt32(ordinal)); }
      expected := Some(ordinal + 1);
      OneMoreItem(lines, c, cursor, items);
      CarriesLast(items, m.value);
      items := items + [m.value];
      entries := entries + [Entry(value, m.value.text)];
      cursor := cursor + 1;
    }
  }

  lemma NoItems()
    ensures ItemsOf([]) == [] && Entries([]) == []
  {
  }

  lemma CarriesLast(items: seq<Item>, item: Item)
    ensures items != [] ==> (Carries(items + [item], |items|) <==> item.ordinal != items[|items| - 1].ordinal + 1)
  {
  }

  /** One step of the list's end: over an item, over blank lines to another item, or none. */
  lemma NumbersEndSteps(lines: seq<string>, c: nat)
    requires c <= |lines|
    ensures c == |lines| ==> NumbersEnd(lines, c) == c
    ensures c < |lines| && IsNumber(lines[c]) ==> NumbersEnd(lines, c) == NumbersEnd(lines, c + 1)
    ensures c < |lines| && !IsNumber(lines[c]) ==>
      var ahead := EndOf(lines, c, IsBlank);
      && (IsBlank(lines[c]) ==> c < ahead)
      && NumbersEnd(lines, c) == if IsBlank(lines[c]) && ahead < |lines| && IsNumber(lines[ahead]) then NumbersEnd(lines, ahead) else c
  {
    hide Numbered, IsBlank;
  }

  lemma OneMoreItem(lines: seq<string>, c: nat, cursor: nat, items: seq<Item>)
    requires c <= cursor < |lines| && IsNumber(lines[cursor]) && items == ItemsOf(lines[c..cursor])
    ensures var item := Numbered(lines[cursor]).value; var all := items + [item];
      && ItemsOf(lines[c..cursor + 1]) == all
      && Entries(all) == Entries(items) + [Entry(if items != [] && Carries(all, |items|) then Some(ToInt32(item.ordinal)) else None, item.text)]
  {
    hide Numbered, ToInt32;
    SliceSnoc(lines, c, cursor);
    var all := items + [Numbered(lines[cursor]).value];
    assert forall i :: 0 <= i < |items| ==> Carries(all, i) == Carries(items, i);
  }

  lemma SliceSnoc<T>(s: seq<T>, c: nat, k: nat)
    requires c <= k < |s|
    ensures s[c..k + 1] == s[c..k] + [s[k]] && s[c..k + 1][..k - c] == s[c..k] && s[c..k + 1][k - c] == s[k]
  {
  }

  lemma NoItemSnoc(span: seq<string>, line: string)
    requires !IsNumber(line)
    ensures ItemsOf(span + [line]) == ItemsOf(span)
  {
    hide Numbered;
    var all := span + [line];
    assert all[|span|] == line && all[..|span|] == span;
  }

  lemma {:induction false} BlanksHoldNoItems(lines: seq<string>, c: nat, from: nat, until: nat)
    requires c <= from <= until <= |lines| && forall i :: from <= i < until ==> IsBlank(lines[i])
    ensures ItemsOf(lines[c..until]) == ItemsOf(lines[c..from])
    decreases until
  {
    hide IsBlank, IsNumber, ItemsOf;
    if from < until {
      BlanksHoldNoItems(lines, c, from, until - 1);
      SliceSnoc(lines, c, until - 1);
      BlankIsNoItem(lines[until - 1]);
      NoItemSnoc(lines[c..until - 1], lines[until - 1]);
    }
  }

  lemma BlankIsNoItem(line: string)
    requires IsBlank(line)
    ensures !IsNumber(line)
  {
    assert RunOf(line, Digit) > 0 ==> Digit(line[0]);
  }

  /** The block loop: `at` tells where it would stay for ever. */
  method RenderBlocks(lines: seq<string>) returns (outcome: Outcome)
    ensures outcome == RenderFrom(lines, 0)
  {
    hide Heading, RuleLine, QuoteLine, Bullet, Numbered, FenceLine, IsBlank;
    var cursor, blocks := 0, [];
    while cursor < |lines|
      invariant cursor <= |lines|
      invariant RenderFrom(lines, 0) == Prepended(blocks, RenderFrom(lines, cursor))
      decreases |lines| - cursor
    {
      var line, from := lines[cursor], cursor;
      var block: Option<Block>;
      block, cursor := ReadBlock(lines, from);
      if cursor == from { return NeverEnds(from); }
      MoreBlocks(lines, blocks, from);
      if block.Some? { blocks := blocks + [Placed(block.value, from, cursor)]; }
    }
    outcome := Rendered(blocks);
  }

  function Prepended(blocks: seq<Placed>, rest: Outcome): Outcome {
    if rest.NeverEnds? then rest else Rendered(blocks + rest.blocks)
  }

  lemma MoreBlocks(lines: seq<string>, blocks: seq<Placed>, c: nat)
    requires c < |lines| && Iteration(lines, c).next > c
    ensures var s := Iteration(lines, c);
      Prepended(blocks, RenderFrom(lines, c))
      == Prepended(if s.block.Some? then blocks + [Placed(s.block.value, c, s.next)] else blocks, RenderFrom(lines, s.next))
  {
    hide Iteration;
  }

  /** One iteration of the loop's body. */
  method ReadBlock(lines: seq<string>, c: nat) returns (block: Option<Block>, cursor: nat)
    requires c < |lines|
    ensures Step(block, cursor) == Iteration(lines, c)
  {
    hide RuleLine, FenceLine, IsBlank, CodeAt, ItemsOf, Entries, ToInt32, Unquotes, BulletTexts, NumbersEnd, Heading, Bullet, Numbered, QuoteLine;
    var line := lines[c];
    cursor := c;
    if IsBlank(line) {
      return None, c + 1;
    }
    if FenceLine(line) {
      var code;
      code, cursor := ReadCode(lines, c);
      return Some(code), cursor;
    }
    var heading := Heading(line);
    if heading.Some? {
      return Some(HeadingBlock(heading.value.level, heading.value.text)), c + 1;
    }
    if RuleLine(line) {
      return Some(Rule), c + 1;
    }
    if QuoteLine(line) {
      var quoted;
      quoted, cursor := ReadQuote(lines, c);
      return Some(Quote(quoted)), cursor;
    }
    if Numbered(line).Some? {
      var start, entries;
      start, entries, cursor := ReadNumbers(lines, c);
      return Some(Numbers(start, entries)), cursor;
    }
    if Bullet(line).Some? {
      var texts;
      texts, cursor := ReadBullets(lines, c);
      return Some(Bullets(texts)), cursor;
    }
    cursor := ScanWhile(lines, c, InParagraph);
    return Some(Paragraph(lines[c..cursor])), cursor;
  }

  /** `replace(/\r\n?/g, "\n")` */
  function Normalized(text: string): string {
    if text == "" then ""
    else if text[0] == '\r' then "\n" + Normalized(if |text| > 1 && text[1] == '\n' then text[2..] else text[1..])
    else [text[0]] + Normalized(text[1..])
  }

  method RenderSafeMarkdown(markdown: string) returns (outcome: Outcome)
    ensures outcome == RenderFrom(Lines(Normalized(markdown)), 0)
  {
    outcome := RenderBlocks(Lines(Normalized(markdown)));
  }
}

/**
 The redaction every stored string goes through (`redactSnapshotText` of
 src/storage/joined-history-store.ts): four global replacements, one after another, and a
 cut at 4,000 code units.

 A pass scans from the left; where its expression matches, the longest match gives way to
 a mark, and the scan goes on behind it. No expression looks at what precedes a match, so
 a match is a property of the rest of the text. Case is folded for ASCII letters only, as
 `/i` without `/u` folds the letters these expressions name.
 */
module SnapshotRedaction {
  import opened JsonSize

  const SNAPSHOT_MAX_TEXT_CHARS := 4_000

  function Lower(u: CodeUnit): CodeUnit {
    if 65 <= u <= 90 then u + 32 else u
  }

  /** `\s` */
  predicate IsSpace(u: CodeUnit) {
    9 <= u <= 13 || u == 32 || u == 0xA0 || u == 0x1680 || 0x2000 <= u <= 0x200A
    || u == 0x2028 || u == 0x2029 || u == 0x202F || u == 0x205F || u == 0x3000 || u == 0xFEFF
  }

  /** The text begins with the word, upper or lower case. */
  predicate Begins(t: Text, word: string) {
    |word| <= |t| && forall i :: 0 <= i < |word| ==> Lower(t[i]) == word[i] as int
  }

  /** `\S+`, or nothing. */
  function WordRun(t: Text): (n: nat)
    ensures n <= |t|
    ensures n < |t| ==> IsSpace(t[n])
    ensures forall i :: 0 <= i < n ==> !IsSpace(t[i])
  {
    if t != [] && !IsSpace(t[0]) then 1 + WordRun(t[1..]) else 0
  }

  /** `\s*` */
  function SpaceRun(t: Text): (n: nat)
    ensures n <= |t|
    ensures n < |t| ==> !IsSpace(t[n])
  {
    if t != [] && IsSpace(t[0]) then 1 + SpaceRun(t[1..]) else 0
  }

  // ---- the four expressions ----

  datatype Pass = Urls | Bearers | Params | Tokens

  const BRACKET: CodeUnit := 91

  predicate TriggerAt(t: Text) {
    Begins(t, "token=") || Begins(t, "snapshot=") || Begins(t, "tgl_") || Begins(t, "/card")
  }

  /** `(?=\S*(?:token=|snapshot=|tgl_|\/card))` */
  predicate Triggered(t: Text) {
    t != [] && !IsSpace(t[0]) && (TriggerAt(t) || Triggered(t[1..]))
  }

  function SchemeLen(t: Text): (n: nat)
    ensures n <= |t|
  {
    if Begins(t, "http://") then 7 else if Begins(t, "https://") then 8 else 0
  }

  /** `(?:token|snapshot)=` */
  function NameLen(t: Text): (n: nat)
    ensures n <= |t|
  {
    if Begins(t, "token=") then 6 else if Begins(t, "snapshot=") then 9 else 0
  }

  /** `[#?&]` */
  predicate IsSeparator(u: CodeUnit) { u == 35 || u == 63 || u == 38 }

  /** `[#?&]?(?:token|snapshot)=` */
  function HeadLen(t: Text): (n: nat)
    ensures n <= |t|
  {
    if t != [] && IsSeparator(t[0]) && NameLen(t[1..]) > 0 then 1 + NameLen(t[1..]) else NameLen(t)
  }

  /** `[^\s&#"']` */
  predicate IsValueUnit(u: CodeUnit) {
    !IsSpace(u) && u != 38 && u != 35 && u != 34 && u != 39
  }

  function ValueRun(t: Text): (n: nat)
    ensures n <= |t|
    ensures n > 0 <==> t != [] && IsValueUnit(t[0])
    ensures n < |t| ==> !IsValueUnit(t[n])
    ensures forall i :: 0 <= i < n ==> IsValueUnit(t[i])
  {
    if t != [] && IsValueUnit(t[0]) then 1 + ValueRun(t[1..]) else 0
  }

  /** `[A-Za-z0-9_-]` */
  predicate IsTokenUnit(u: CodeUnit) {
    65 <= u <= 90 || 97 <= u <= 122 || 48 <= u <= 57 || u == 95 || u == 45
  }

  function TokenRun(t: Text): (n: nat)
    ensures n <= |t|
    ensures n > 0 <==> t != [] && IsTokenUnit(t[0])
    ensures n < |t| ==> !IsTokenUnit(t[n])
    ensures forall i :: 0 <= i < n ==> IsTokenUnit(t[i])
  {
    if t != [] && IsTokenUnit(t[0]) then 1 + TokenRun(t[1..]) else 0
  }

  /** `tgl_`, in lower case only. */
  predicate BeginsTgl(t: Text) {
    |t| >= 4 && t[0] == 116 && t[1] == 103 && t[2] == 108 && t[3] == 95
  }

  /** How much of the text the pass's expression matches from its first unit on; 0 if it does not match there. */
  function MatchLen(p: Pass, t: Text): (n: nat)
    ensures n <= |t|
    ensures t == [] ==> n == 0
  {
    match p
    case Urls =>
      var h := SchemeLen(t);
      if h > 0 && Triggered(t[h..]) then h + WordRun(t[h..]) else 0
    case Bearers =>
      if Begins(t, "bearer") && SpaceRun(t[6..]) > 0 && 6 + SpaceRun(t[6..]) < |t|
      then 6 + SpaceRun(t[6..]) + WordRun(t[6 + SpaceRun(t[6..])..]) else 0
    case Params =>
      var h := HeadLen(t);
      if h > 0 && ValueRun(t[h..]) > 0 then h + ValueRun(t[h..]) else 0
    case Tokens =>
      if BeginsTgl(t) && TokenRun(t[4..]) > 0 then 4 + TokenRun(t[4..]) else 0
  }

  function Units(s: string): (t: Text)
    requires forall i :: 0 <= i < |s| ==> s[i] as int < 0x80
    ensures |t| == |s| && forall i :: 0 <= i < |s| ==> t[i] == s[i] as int
  {
    seq(|s|, i requires 0 <= i < |s| => s[i] as int)
  }

  function MarkOf(p: Pass): Text {
    match p
    case Urls => Units("[redacted-url]")
    case Bearers => Units("[redacted-credential]")
    case Params => Units("[redacted-token]")
    case Tokens => Units("[redacted-token]")
  }

  /** `replace` with the pass's global expression. */
  function Replaced(p: Pass, t: Text): Text {
    if t == [] then []
    else if MatchLen(p, t) > 0 then MarkOf(p) + Replaced(p, t[MatchLen(p, t)..])
    else [t[0]] + Replaced(p, t[1..])
  }

  function Cut(t: Text): Text {
    if |t| > SNAPSHOT_MAX_TEXT_CHARS then t[..SNAPSHOT_MAX_TEXT_CHARS] else t
  }

  /** `redactSnapshotText` */
  function Redact(t: Text): (r: Text)
    ensures |r| <= SNAPSHOT_MAX_TEXT_CHARS
  {
    Cut(Replaced(Tokens, Replaced(Params, Replaced(Bearers, Replaced(Urls, t)))))
  }

  /** The pass matches nowhere in the text. */
  ghost predicate Clean(p: Pass, t: Text) {
    forall i :: 0 <= i < |t| ==> MatchLen(p, t[i..]) == 0
  }

  // ---- what marks hold ----

  /** No expression, and no trigger of the first, starts with this unit of a mark. */
  predicate Inert(t: Text) {
    && t != [] && !IsSpace(t[0]) && !IsSeparator(t[0])
    && Lower(t[0]) !in {98, 104, 115, 47}                // b h s /
    && (Lower(t[0]) == 116 ==> |t| > 1 && Lower(t[1]) != 103 && (Lower(t[1]) == 111 ==> |t| > 5 && t[5] != 61))
  }

  lemma BeginsWith(t: Text, word: string, i: nat)
    requires Begins(t, word) && i < |word|
    ensures i < |t| && Lower(t[i]) == word[i] as int
  {
  }

  lemma BeginsNot(t: Text, word: string, i: nat)
    requires i < |t| && i < |word| && Lower(t[i]) != word[i] as int
    ensures !Begins(t, word)
  {
  }

  /** The first unit of a match: a letter of one of the names, or a separator. */
  predicate Opens(u: CodeUnit) {
    Lower(u) in {98, 104, 115, 116} || IsSeparator(u)     // b h s t
  }

  lemma MatchOpens(p: Pass, t: Text)
    requires MatchLen(p, t) > 0
    ensures Opens(t[0]) && !IsSpace(t[0]) && t[0] != BRACKET
  {
    hide Begins, ValueRun, TokenRun, WordRun, SpaceRun, Triggered;
    match p
    case Urls => if Begins(t, "http://") { BeginsWith(t, "http://", 0); } else { BeginsWith(t, "https://", 0); }
    case Bearers => BeginsWith(t, "bearer", 0);
    case Params =>
      if !IsSeparator(t[0]) {
        if Begins(t, "token=") { BeginsWith(t, "token=", 0); } else { BeginsWith(t, "snapshot=", 0); }
      }
    case Tokens =>
  }

  lemma InertNamesNothing(t: Text)
    requires Inert(t)
    ensures !TriggerAt(t) && NameLen(t) == 0 && HeadLen(t) == 0
  {
    BeginsNot(t, "token=", if Lower(t[0]) != 116 then 0 else if Lower(t[1]) != 111 then 1 else 5);
    BeginsNot(t, "snapshot=", 0);
    BeginsNot(t, "tgl_", if Lower(t[0]) != 116 then 0 else 1);
    BeginsNot(t, "/card", 0);
    hide Begins;
  }

  lemma InertMatchesNothing(t: Text, p: Pass)
    requires Inert(t)
    ensures MatchLen(p, t) == 0 && !TriggerAt(t) && NameLen(t) == 0
  {
    InertNamesNothing(t);
    BeginsNot(t, "http://", 0);
    BeginsNot(t, "https://", 0);
    BeginsNot(t, "bearer", 0);
    hide Begins, TriggerAt, NameLen, HeadLen;
  }

  /** The letters of a mark at which a match might be thought to start are followed by others than it needs. */
  predicate InertWord(m: string) {
    forall j :: 0 <= j < |m| ==>
      && m[j] as int < 0x80 && m[j] as int !in {32, 35, 63, 38, 61, 98, 104, 115, 47} && 33 <= m[j] as int && !('A' <= m[j] <= 'Z')
      && (m[j] == 't' ==> j + 1 < |m| && m[j + 1] != 'g' && (m[j + 1] == 'o' ==> j + 5 < |m|))
  }

  lemma WordIsInert(m: string, y: Text, j: nat)
    requires InertWord(m) && j < |m|
    ensures Inert((Units(m) + y)[j..])
  {
    var t := (Units(m) + y)[j..];
    assert t[0] == m[j] as int;
    assert j + 1 < |m| ==> t[1] == m[j + 1] as int;
    assert j + 5 < |m| ==> t[5] == m[j + 5] as int;
  }

  lemma UrlMark()
    ensures InertWord("[redacted-url]")
  {
  }

  lemma CredentialMark()
    ensures InertWord("[redacted-credential]")
  {
  }

  lemma TokenMark()
    ensures InertWord("[redacted-token]")
  {
  }

  lemma MarksAreInert(p: Pass, y: Text, j: nat)
    requires j < |MarkOf(p)|
    ensures Inert((MarkOf(p) + y)[j..])
  {
    hide InertWord, Inert, Units;
    match p
    case Urls => UrlMark(); WordIsInert("[redacted-url]", y, j);
    case Bearers => CredentialMark(); WordIsInert("[redacted-credential]", y, j);
    case Params => TokenMark(); WordIsInert("[redacted-token]", y, j);
    case Tokens => TokenMark(); WordIsInert("[redacted-token]", y, j);
  }

  lemma MarkBegins(p: Pass)
    ensures |MarkOf(p)| >= 14 && MarkOf(p)[0] == BRACKET && MarkOf(p)[0] != 61
    ensures forall j :: 0 <= j < |MarkOf(p)| ==> MarkOf(p)[j] != 61 && !IsSpace(MarkOf(p)[j])
  {
  }

  // ---- what a pass leaves of the text ----

  /** Units that are no bracket were there before: a pass copied them, and matched at none of them. */
  lemma {:induction false} CopiedPrefix(p: Pass, t: Text, n: nat)
    requires n <= |Replaced(p, t)| && forall i :: 0 <= i < n ==> Replaced(p, t)[i] != BRACKET
    ensures n <= |t| && t[..n] == Replaced(p, t)[..n] && Replaced(p, t)[n..] == Replaced(p, t[n..])
    ensures forall i :: 0 <= i < n ==> MatchLen(p, t[i..]) == 0
  {
    FirstUnit(p, t);
    hide MatchLen, Replaced;
    var out := Replaced(p, t);
    if n == 0 {
      assert t[0..] == t && out[0..] == out;
    } else {
      var rest := Replaced(p, t[1..]);
      assert forall i :: 0 <= i < n - 1 ==> rest[i] == out[i + 1];
      CopiedPrefix(p, t[1..], n - 1);
      assert t[1..][n - 1..] == t[n..] && rest[n - 1..] == out[n..];
      assert t[..n] == [t[0]] + t[1..][..n - 1];
      forall i | 0 <= i < n ensures MatchLen(p, t[i..]) == 0 {
        if i > 0 { assert t[i..] == t[1..][i - 1..]; } else { assert t[0..] == t; }
      }
    }
  }

  /** What the output begins with, the text began with. */
  lemma BeginsBack(p: Pass, t: Text, word: string, n: nat)
    requires 0 < n == |word| && Begins(Replaced(p, t), word) && forall i :: 0 <= i < n ==> word[i] != '['
    ensures n <= |t| && Begins(t, word) && t[..n] == Replaced(p, t)[..n] && Replaced(p, t)[n..] == Replaced(p, t[n..])
    ensures MatchLen(p, t) == 0
  {
    hide MatchLen, Replaced;
    var out := Replaced(p, t);
    forall i | 0 <= i < n ensures out[i] != BRACKET {
      assert Lower(out[i]) == word[i] as int;
    }
    CopiedPrefix(p, t, n);
    assert forall i :: 0 <= i < n ==> t[i] == t[..n][i];
    assert t[0..] == t;
  }

  lemma FirstUnit(p: Pass, t: Text)
    ensures Replaced(p, t) == [] <==> t == []
    ensures t != [] ==>
      if MatchLen(p, t) > 0 then Replaced(p, t) == MarkOf(p) + Replaced(p, t[MatchLen(p, t)..]) && Replaced(p, t)[0] == BRACKET
      else Replaced(p, t) == [t[0]] + Replaced(p, t[1..])
    ensures t != [] && (IsSpace(t[0]) || t[0] == BRACKET) ==> MatchLen(p, t) == 0
  {
    MarkBegins(p);
    hide MatchLen;
    if MatchLen(p, t) > 0 { MatchOpens(p, t); }
  }

  lemma {:induction false} TriggeredAfter(run: Text, y: Text)
    requires forall i :: 0 <= i < |run| ==> !IsSpace(run[i])
    ensures Triggered(y) ==> Triggered(run + y)
    decreases |run|
  {
    if run == [] {
      assert run + y == y;
    } else {
      TriggeredAfter(run[1..], y);
      assert (run + y)[1..] == run[1..] + y;
    }
  }

  lemma {:induction false} MarkTriggersNothing(p: Pass, y: Text, j: nat)
    requires j <= |MarkOf(p)| && Triggered((MarkOf(p) + y)[j..])
    ensures Triggered(y)
    decreases |MarkOf(p)| - j
  {
    var t := (MarkOf(p) + y)[j..];
    if j < |MarkOf(p)| {
      MarksAreInert(p, y, j);
      InertMatchesNothing(t, p);
      assert t[1..] == (MarkOf(p) + y)[j + 1..];
      MarkTriggersNothing(p, y, j + 1);
    } else {
      assert t == y;
    }
  }

  lemma TriggerBack(p: Pass, t: Text)
    requires TriggerAt(Replaced(p, t))
    ensures TriggerAt(t)
  {
    hide MatchLen, Replaced;
    var out := Replaced(p, t);
    if Begins(out, "token=") { BeginsBack(p, t, "token=", 6); }
    else if Begins(out, "snapshot=") { BeginsBack(p, t, "snapshot=", 9); }
    else if Begins(out, "tgl_") { BeginsBack(p, t, "tgl_", 4); }
    else { BeginsBack(p, t, "/card", 5); }
  }

  lemma UrlEnds(t: Text)
    requires MatchLen(Urls, t) > 0
    ensures MatchLen(Urls, t) < |t| ==> IsSpace(t[MatchLen(Urls, t)])
  {
    hide SchemeLen, Triggered;
    var h := SchemeLen(t);
    assert t[h..][WordRun(t[h..])..] == t[MatchLen(Urls, t)..];
  }

  lemma BearerEnds(t: Text)
    requires MatchLen(Bearers, t) > 0
    ensures MatchLen(Bearers, t) < |t| ==> IsSpace(t[MatchLen(Bearers, t)])
  {
    hide Begins;
  }

  lemma NameIsNoSpace(t: Text, word: string)
    requires Begins(t, word) && forall i :: 0 <= i < |word| ==> 33 <= word[i] as int < 0x80
    ensures forall i :: 0 <= i < |word| ==> !IsSpace(t[i])
  {
    forall i | 0 <= i < |word| ensures !IsSpace(t[i]) { BeginsWith(t, word, i); }
  }

  lemma ParamIsNoSpace(t: Text)
    requires MatchLen(Params, t) > 0
    ensures forall i :: 0 <= i < MatchLen(Params, t) ==> !IsSpace(t[i])
  {
    var h := HeadLen(t);
    hide Begins, ValueRun;
    var d := if h == NameLen(t) then 0 else 1;
    var name := t[d..];
    if Begins(name, "token=") { NameIsNoSpace(name, "token="); } else { NameIsNoSpace(name, "snapshot="); }
    forall i | 0 <= i < MatchLen(Params, t) ensures !IsSpace(t[i]) {
      if i >= h { assert t[i] == t[h..][i - h]; } else if i >= d { assert t[i] == name[i - d]; }
    }
  }

  lemma TokenIsNoSpace(t: Text)
    requires MatchLen(Tokens, t) > 0
    ensures forall i :: 0 <= i < MatchLen(Tokens, t) ==> !IsSpace(t[i])
  {
    forall i | 4 <= i < MatchLen(Tokens, t) ensures !IsSpace(t[i]) { assert t[i] == t[4..][i - 4]; }
  }

  /** What a match of the first two passes leaves behind it is nothing, or white space; the other two take none. */
  lemma MatchEnds(p: Pass, t: Text)
    requires MatchLen(p, t) > 0
    ensures (p == Urls || p == Bearers) && MatchLen(p, t) < |t| ==> IsSpace(t[MatchLen(p, t)])
    ensures p == Params || p == Tokens ==> forall i :: 0 <= i < MatchLen(p, t) ==> !IsSpace(t[i])
  {
    hide MatchLen;
    match p
    case Urls => UrlEnds(t);
    case Bearers => BearerEnds(t);
    case Params => ParamIsNoSpace(t);
    case Tokens => TokenIsNoSpace(t);
  }

  lemma {:induction false} TriggeredBack(p: Pass, t: Text)
    requires Triggered(Replaced(p, t))
    ensures Triggered(t)
  {
    var n := MatchLen(p, t);
    FirstUnit(p, t);
    hide MatchLen, TriggerAt, Replaced;
    if n > 0 {
      var rest := t[n..];
      MarkTriggersNothing(p, Replaced(p, rest), 0);
      assert (MarkOf(p) + Replaced(p, rest))[0..] == MarkOf(p) + Replaced(p, rest);
      MatchEnds(p, t);
      FirstUnit(p, rest);
      TriggeredBack(p, rest);
      TriggeredAfter(t[..n], rest);
      assert t == t[..n] + rest;
    } else if TriggerAt(Replaced(p, t)) {
      TriggerBack(p, t);
    } else {
      TriggeredBack(p, t[1..]);
    }
  }

  predicate AllSpace(t: Text) {
    forall i :: 0 <= i < |t| ==> IsSpace(t[i])
  }

  lemma {:induction false} SpaceIsCopied(p: Pass, t: Text)
    requires AllSpace(t)
    ensures Replaced(p, t) == t
  {
    if t != [] {
      FirstUnit(p, t);
      hide MatchLen, Replaced;
      assert t == [t[0]] + t[1..];
      SpaceIsCopied(p, t[1..]);
    }
  }

  lemma SpaceRunIsAll(t: Text)
    ensures SpaceRun(t) == |t| <==> AllSpace(t)
    ensures SpaceRun(t) > 0 <==> t != [] && IsSpace(t[0])
  {
    if SpaceRun(t) == |t| { SpacesOfRun(t); }
  }

  lemma {:induction false} SpacesOfRun(t: Text)
    ensures forall i :: 0 <= i < SpaceRun(t) ==> IsSpace(t[i])
  {
    if t != [] && IsSpace(t[0]) { SpacesOfRun(t[1..]); }
  }

  // ---- no pass makes room for another match ----

  /** A parameter whose value is not the mark of an earlier replacement. */
  predicate LiveParam(t: Text) {
    MatchLen(Params, t) > 0 && t[HeadLen(t)] != BRACKET
  }

  ghost predicate NoLiveParam(t: Text) {
    forall i :: 0 <= i < |t| ==> !LiveParam(t[i..])
  }

  lemma UrlBack(p: Pass, t: Text)
    ensures MatchLen(Urls, Replaced(p, t)) > 0 ==> MatchLen(Urls, t) > 0 && MatchLen(p, t) == 0
  {
    var out := Replaced(p, t);
    hide Replaced, Triggered;
    if MatchLen(Urls, out) == 0 {
    } else if Begins(out, "http://") {
      BeginsBack(p, t, "http://", 7);
      TriggeredBack(p, t[7..]);
    } else {
      BeginsBack(p, t, "https://", 8);
      TriggeredBack(p, t[8..]);
      BeginsWith(t, "https://", 4);
      BeginsNot(t, "http://", 4);
    }
  }

  lemma BearerMatches(t: Text)
    ensures MatchLen(Bearers, t) > 0 <==> Begins(t, "bearer") && |t| > 6 && IsSpace(t[6]) && !AllSpace(t[6..])
  {
    hide Begins;
    if |t| >= 6 { SpaceRunIsAll(t[6..]); }
  }

  lemma BearerBack(p: Pass, t: Text)
    ensures MatchLen(Bearers, Replaced(p, t)) > 0 ==> MatchLen(Bearers, t) > 0 && MatchLen(p, t) == 0
  {
    var out := Replaced(p, t);
    BearerMatches(out);
    BearerMatches(t);
    hide Replaced, MatchLen, Begins, AllSpace;
    if MatchLen(Bearers, out) > 0 {
      BeginsBack(p, t, "bearer", 6);
      FirstUnit(p, t[6..]);
      assert out[6..][0] == out[6];
      if AllSpace(t[6..]) { SpaceIsCopied(p, t[6..]); }
    }
  }

  lemma TokenBack(p: Pass, t: Text)
    requires MatchLen(Tokens, Replaced(p, t)) > 0
    ensures MatchLen(Tokens, t) > 0 && MatchLen(p, t) == 0
  {
    var out := Replaced(p, t);
    hide Replaced;
    assert out[4..][0] == out[4];
    CopiedPrefix(p, t, 5);
    assert forall i :: 0 <= i < 5 ==> t[i] == t[..5][i] == out[..5][i];
    assert t[4..][0] == t[4] && t[0..] == t;
  }

  lemma LiveExactly(t: Text)
    ensures LiveParam(t) <==>
      var h := HeadLen(t); h > 0 && h < |t| && IsValueUnit(t[h]) && t[h] != BRACKET
  {
    var h := HeadLen(t);
    if h < |t| { assert t[h..][0] == t[h]; }
    hide HeadLen;
  }

  lemma LiveBack(p: Pass, t: Text)
    requires LiveParam(Replaced(p, t))
    ensures LiveParam(t) && MatchLen(p, t) == 0
  {
    var out := Replaced(p, t);
    var h := HeadLen(out);
    LiveExactly(out);
    LiveExactly(t);
    HeadHasNoBracket(out);
    hide Replaced, LiveParam, HeadLen, MatchLen;
    CopiedPrefix(p, t, h + 1);
    SameHead(out, t, h + 1);
    assert t[0..] == t && t[h] == t[..h + 1][h] == out[..h + 1][h] == out[h];
  }

  lemma NameHasNoBracket(t: Text)
    ensures forall i :: 0 <= i < NameLen(t) ==> t[i] != BRACKET
  {
    if Begins(t, "token=") {
      forall i | 0 <= i < 6 ensures t[i] != BRACKET { BeginsWith(t, "token=", i); }
    } else if Begins(t, "snapshot=") {
      forall i | 0 <= i < 9 ensures t[i] != BRACKET { BeginsWith(t, "snapshot=", i); }
    }
  }

  lemma HeadHasNoBracket(t: Text)
    ensures forall i :: 0 <= i < HeadLen(t) ==> t[i] != BRACKET
  {
    NameHasNoBracket(t);
    if t != [] && IsSeparator(t[0]) && NameLen(t[1..]) > 0 {
      NameHasNoBracket(t[1..]);
      assert forall i :: 1 <= i < HeadLen(t) ==> t[i] == t[1..][i - 1];
    }
  }

  lemma SameBegins(a: Text, b: Text, word: string)
    requires |word| <= |a| && |word| <= |b| && a[..|word|] == b[..|word|]
    ensures Begins(a, word) <==> Begins(b, word)
  {
    assert forall i :: 0 <= i < |word| ==> a[i] == a[..|word|][i] && b[i] == b[..|word|][i];
  }

  lemma SameName(a: Text, b: Text, n: nat)
    requires NameLen(a) > 0 && NameLen(a) <= n && n <= |a| && n <= |b| && a[..n] == b[..n]
    ensures NameLen(b) == NameLen(a)
  {
    assert a[..6] == a[..n][..6] && b[..6] == b[..n][..6];
    SameBegins(a, b, "token=");
    if !Begins(a, "token=") {
      assert a[..9] == a[..n][..9] && b[..9] == b[..n][..9];
      SameBegins(a, b, "snapshot=");
    }
  }

  lemma SameHead(a: Text, b: Text, n: nat)
    requires HeadLen(a) > 0 && HeadLen(a) <= n && n <= |a| && n <= |b| && a[..n] == b[..n]
    ensures HeadLen(b) == HeadLen(a)
  {
    assert a[0] == a[..n][0] == b[..n][0] == b[0];
    if IsSeparator(a[0]) && NameLen(a[1..]) > 0 {
      assert a[1..][..n - 1] == a[..n][1..] == b[..n][1..] == b[1..][..n - 1];
      SameName(a[1..], b[1..], n - 1);
    } else {
      NamesAreLetters(a);
      SameName(a, b, n);
      assert !IsSeparator(b[0]);
    }
  }

  lemma NamesAreLetters(t: Text)
    ensures NameLen(t) > 0 ==> Lower(t[0]) in {115, 116} && !IsSeparator(t[0])
  {
    hide Begins;
    if Begins(t, "token=") { BeginsWith(t, "token=", 0); }
    else if Begins(t, "snapshot=") { BeginsWith(t, "snapshot=", 0); }
  }

  /** A match the output of a pass begins with stood in the text already, and the pass let it be. */
  lemma MatchBack(k: Pass, p: Pass, t: Text)
    requires k != Params && MatchLen(k, Replaced(p, t)) > 0
    ensures MatchLen(k, t) > 0 && MatchLen(p, t) == 0
  {
    hide MatchLen, Replaced;
    match k
    case Urls => UrlBack(p, t);
    case Bearers => BearerBack(p, t);
    case Tokens => TokenBack(p, t);
  }

  lemma CleanTail(k: Pass, t: Text, n: nat)
    requires Clean(k, t) && n <= |t|
    ensures Clean(k, t[n..])
  {
    hide MatchLen;
    forall i | 0 <= i < |t[n..]| ensures MatchLen(k, t[n..][i..]) == 0 { assert t[n..][i..] == t[n + i..]; }
  }

  lemma NoLiveTail(t: Text, n: nat)
    requires NoLiveParam(t) && n <= |t|
    ensures NoLiveParam(t[n..])
  {
    hide LiveParam;
    forall i | 0 <= i < |t[n..]| ensures !LiveParam(t[n..][i..]) { assert t[n..][i..] == t[n + i..]; }
  }

  /** A pass leaves no match of its own, and makes none of another. */
  lemma {:induction false} CleanAfter(k: Pass, p: Pass, t: Text)
    requires k != Params && (k == p || Clean(k, t))
    ensures Clean(k, Replaced(p, t))
    decreases |t|
  {
    FirstUnit(p, t);
    MarkBegins(p);
    var out, n := Replaced(p, t), MatchLen(p, t);
    hide MatchLen, Replaced;
    if t != [] {
      var d, rest := if n > 0 then |MarkOf(p)| else 1, t[if n > 0 then n else 1..];
      if k != p { CleanTail(k, t, if n > 0 then n else 1); }
      CleanAfter(k, p, rest);
      forall i | 0 <= i < |out| ensures MatchLen(k, out[i..]) == 0 {
        if i >= d {
          assert out[i..] == Replaced(p, rest)[i - d..];
        } else if n > 0 {
          MarksAreInert(p, Replaced(p, rest), i);
          InertMatchesNothing(out[i..], k);
        } else {
          assert out[0..] == out && t[0..] == t;
          if MatchLen(k, out) > 0 { MatchBack(k, p, t); }
        }
      }
    }
  }

  lemma {:induction false} NoLiveAfter(p: Pass, t: Text)
    requires p == Params || NoLiveParam(t)
    ensures NoLiveParam(Replaced(p, t))
    decreases |t|
  {
    FirstUnit(p, t);
    MarkBegins(p);
    LiveIsMatch(t);
    var out, n := Replaced(p, t), MatchLen(p, t);
    hide MatchLen, Replaced, LiveParam;
    if t != [] {
      var d, rest := if n > 0 then |MarkOf(p)| else 1, t[if n > 0 then n else 1..];
      if p != Params { NoLiveTail(t, if n > 0 then n else 1); }
      NoLiveAfter(p, rest);
      forall i | 0 <= i < |out| ensures !LiveParam(out[i..]) {
        if i >= d {
          assert out[i..] == Replaced(p, rest)[i - d..];
        } else if n > 0 {
          MarksAreInert(p, Replaced(p, rest), i);
          InertMatchesNothing(out[i..], Params);
          LiveIsMatch(out[i..]);
        } else {
          assert out[0..] == out && t[0..] == t;
          if LiveParam(out) { LiveBack(p, t); }
        }
      }
    }
  }

  lemma LiveIsMatch(t: Text)
    ensures LiveParam(t) ==> MatchLen(Params, t) > 0
  {
  }

  // ---- the cut ----

  lemma BeginsOfPrefix(t: Text, n: nat, word: string)
    requires n <= |t|
    ensures Begins(t[..n], word) ==> Begins(t, word)
    ensures Begins(t, word) && |word| <= n ==> Begins(t[..n], word)
  {
    assert forall i :: 0 <= i < n ==> t[..n][i] == t[i];
  }

  lemma {:induction false} TriggeredOfPrefix(t: Text, n: nat)
    requires n <= |t| && Triggered(t[..n])
    ensures Triggered(t)
  {
    assert t[..n][0] == t[0];
    BeginsOfPrefix(t, n, "token=");
    BeginsOfPrefix(t, n, "snapshot=");
    BeginsOfPrefix(t, n, "tgl_");
    BeginsOfPrefix(t, n, "/card");
    if !TriggerAt(t[..n]) {
      assert t[..n][1..] == t[1..][..n - 1];
      TriggeredOfPrefix(t[1..], n - 1);
    }
  }

  lemma UrlOfPrefix(t: Text, n: nat)
    requires n <= |t| && MatchLen(Urls, t[..n]) > 0
    ensures MatchLen(Urls, t) > 0
  {
    var h := SchemeLen(t[..n]);
    BeginsOfPrefix(t, n, "http://");
    BeginsOfPrefix(t, n, "https://");
    hide Triggered;
    if Begins(t[..n], "https://") {
      BeginsWith(t, "https://", 4);
      BeginsNot(t, "http://", 4);
    }
    hide Begins, SchemeLen;
    assert t[..n][h..] == t[h..][..n - h];
    TriggeredOfPrefix(t[h..], n - h);
  }

  lemma BearerOfPrefix(t: Text, n: nat)
    requires n <= |t| && MatchLen(Bearers, t[..n]) > 0
    ensures MatchLen(Bearers, t) > 0
  {
    BearerMatches(t);
    BearerMatches(t[..n]);
    BeginsOfPrefix(t, n, "bearer");
    hide MatchLen, Begins;
    assert t[..n][6] == t[6] && t[..n][6..] == t[6..][..n - 6];
    assert forall i :: 0 <= i < n - 6 ==> t[6..][..n - 6][i] == t[6..][i];
  }

  lemma TokenOfPrefix(t: Text, n: nat)
    requires n <= |t| && MatchLen(Tokens, t[..n]) > 0
    ensures MatchLen(Tokens, t) > 0
  {
    assert forall i :: 0 <= i < n ==> t[..n][i] == t[i];
    assert t[..n][4..][0] == t[..n][4] == t[4] == t[4..][0];
  }

  lemma LiveOfPrefix(t: Text, n: nat)
    requires n <= |t| && LiveParam(t[..n])
    ensures LiveParam(t)
  {
    var x := t[..n];
    var h := HeadLen(x);
    LiveExactly(x);
    LiveExactly(t);
    hide HeadLen, LiveParam;
    assert x[..h] == t[..n][..h] == t[..h];
    assert x[h] == t[h];
    SameHead(x, t, h);
  }

  lemma CleanPrefix(k: Pass, t: Text, n: nat)
    requires k != Params && n <= |t| && Clean(k, t)
    ensures Clean(k, t[..n])
  {
    hide MatchLen;
    forall i | 0 <= i < n ensures MatchLen(k, t[..n][i..]) == 0 {
      assert t[..n][i..] == t[i..][..n - i];
      if MatchLen(k, t[i..][..n - i]) > 0 {
        match k
        case Urls => UrlOfPrefix(t[i..], n - i);
        case Bearers => BearerOfPrefix(t[i..], n - i);
        case Tokens => TokenOfPrefix(t[i..], n - i);
      }
    }
  }

  lemma NoLivePrefix(t: Text, n: nat)
    requires n <= |t| && NoLiveParam(t)
    ensures NoLiveParam(t[..n])
  {
    hide LiveParam;
    forall i | 0 <= i < n ensures !LiveParam(t[..n][i..]) {
      assert t[..n][i..] == t[i..][..n - i];
      if LiveParam(t[i..][..n - i]) { LiveOfPrefix(t[i..], n - i); }
    }
  }

  // ---- what redaction guarantees ----

  /** The text between the passes: after the first two, after the third, after the fourth. */
  function Opened(t: Text): Text { Replaced(Bearers, Replaced(Urls, t)) }

  function Marked(t: Text): Text { Replaced(Params, Opened(t)) }

  function Uncut(t: Text): Text { Replaced(Tokens, Marked(t)) }

  lemma UncutIsClean(t: Text)
    ensures Clean(Urls, Uncut(t)) && Clean(Bearers, Uncut(t)) && Clean(Tokens, Uncut(t)) && NoLiveParam(Uncut(t))
  {
    hide Replaced, Clean, NoLiveParam;
    CleanAfter(Urls, Urls, t);
    CleanAfter(Urls, Bearers, Replaced(Urls, t));
    CleanAfter(Urls, Params, Opened(t));
    CleanAfter(Urls, Tokens, Marked(t));
    CleanAfter(Bearers, Bearers, Replaced(Urls, t));
    CleanAfter(Bearers, Params, Opened(t));
    CleanAfter(Bearers, Tokens, Marked(t));
    CleanAfter(Tokens, Tokens, Marked(t));
    NoLiveAfter(Params, Opened(t));
    NoLiveAfter(Tokens, Marked(t));
  }

  /**
   Whatever the text, what is stored of it holds no address with a credential behind it, no
   bearer credential and no `tgl_` token, and the value of a `token=` or `snapshot=` left in it
   is the mark of an earlier replacement.
   */
  lemma NothingIsLeft(t: Text)
    ensures Clean(Urls, Redact(t)) && Clean(Bearers, Redact(t)) && Clean(Tokens, Redact(t)) && NoLiveParam(Redact(t))
  {
    UncutIsClean(t);
    hide Clean, NoLiveParam, Replaced;
    var u := Uncut(t);
    if |u| > SNAPSHOT_MAX_TEXT_CHARS {
      CleanPrefix(Urls, u, SNAPSHOT_MAX_TEXT_CHARS);
      CleanPrefix(Bearers, u, SNAPSHOT_MAX_TEXT_CHARS);
      CleanPrefix(Tokens, u, SNAPSHOT_MAX_TEXT_CHARS);
      NoLivePrefix(u, SNAPSHOT_MAX_TEXT_CHARS);
    }
  }

  lemma {:induction false} CleanIsKept(p: Pass, t: Text)
    requires Clean(p, t)
    ensures Replaced(p, t) == t
  {
    FirstUnit(p, t);
    if t != [] {
      assert t[0..] == t && t == [t[0]] + t[1..];
      CleanTail(p, t, 1);
      hide MatchLen, Replaced;
      CleanIsKept(p, t[1..]);
    }
  }

  /** Where a pass matches first it changes the text. */
  lemma {:induction false} FirstChange(p: Pass, t: Text) returns (j: nat)
    requires !Clean(p, t)
    ensures j < |t| && j < |Replaced(p, t)| && Replaced(p, t)[j] != t[j]
  {
    FirstUnit(p, t);
    hide MatchLen, Replaced;
    if MatchLen(p, t) > 0 {
      MatchOpens(p, t);
      j := 0;
    } else {
      var i :| 0 <= i < |t| && MatchLen(p, t[i..]) != 0;
      assert t[0..] == t;
      assert t[i..] == t[1..][i - 1..];
      j := FirstChange(p, t[1..]);
      j := j + 1;
    }
  }

  /** A second redaction runs only its third pass. */
  lemma AgainIsOnePass(t: Text)
    ensures Redact(Redact(t)) == Cut(Replaced(Params, Redact(t)))
  {
    var o := Redact(t);
    NothingIsLeft(t);
    hide Clean, NoLiveParam, Replaced, Cut;
    CleanIsKept(Urls, o);
    CleanIsKept(Bearers, o);
    CleanAfter(Tokens, Params, o);
    CleanIsKept(Tokens, Replaced(Params, o));
  }

  ghost predicate Settled(t: Text) {
    Redact(Redact(t)) == Redact(t)
  }

  lemma SettledWhenClean(t: Text)
    ensures Settled(t) <==> Clean(Params, Redact(t))
  {
    var o := Redact(t);
    AgainIsOnePass(t);
    hide Redact, Clean, Replaced;
    if Clean(Params, o) {
      CleanIsKept(Params, o);
      assert |o| <= SNAPSHOT_MAX_TEXT_CHARS;
    } else {
      var j := FirstChange(Params, o);
      assert Cut(Replaced(Params, o))[j] == Replaced(Params, o)[j];
    }
  }

  // ---- when a second redaction changes nothing ----

  /** How far one step of the scan goes, and what it puts out. */
  function StepLen(p: Pass, t: Text): (n: nat)
    requires t != []
    ensures 0 < n <= |t|
  {
    if MatchLen(p, t) > 0 then MatchLen(p, t) else 1
  }

  function Emitted(p: Pass, t: Text): Text
    requires t != []
  {
    if MatchLen(p, t) > 0 then MarkOf(p) else [t[0]]
  }

  /** The pass's scan comes to position `i`: no match it takes reaches over it. */
  predicate Scans(p: Pass, t: Text, i: nat)
    decreases i
  {
    i == 0 || (t != [] && StepLen(p, t) <= i && Scans(p, t[StepLen(p, t)..], i - StepLen(p, t)))
  }

  /** `token=` or `snapshot=` without a value, and right behind it a parameter with one. */
  predicate EmptyParam(t: Text) {
    NameLen(t) > 0 && MatchLen(Params, t) == 0 && MatchLen(Params, t[NameLen(t)..]) > 0
  }

  /**
   In the text left by the first two passes an empty parameter stands directly before another
   one, inside no other parameter's value and no `tgl_` token, and early enough for the other's
   mark to be stored.
   */
  predicate LooseAt(u: Text, i: nat) {
    && i < |u| && EmptyParam(u[i..]) && Scans(Params, u, i)
    && var before := Replaced(Params, u[..i]);
       && Scans(Tokens, Replaced(Params, u), |before|)
       && |Replaced(Tokens, before)| + NameLen(u[i..]) < SNAPSHOT_MAX_TEXT_CHARS
  }

  lemma HeadOfPrefix(t: Text, n: nat)
    requires n <= |t|
    ensures HeadLen(t[..n]) > 0 ==> HeadLen(t[..n]) == HeadLen(t)
    ensures 0 < HeadLen(t) <= n ==> HeadLen(t[..n]) == HeadLen(t)
  {
    var x := t[..n];
    var h, g := HeadLen(t), HeadLen(x);
    hide HeadLen;
    if g > 0 { assert x[..g] == t[..g]; SameHead(x, t, g); }
    if 0 < h <= n { assert t[..h] == x[..h]; SameHead(t, x, h); }
  }

  lemma ParamLen(t: Text)
    ensures var h := HeadLen(t);
      MatchLen(Params, t) == if h > 0 && ValueRun(t[h..]) > 0 then h + ValueRun(t[h..]) else 0
  {
    hide HeadLen, ValueRun;
  }

  lemma ValueBehindHead(t: Text, h: nat, n: nat)
    requires h <= n <= |t|
    ensures ValueRun(t[..n][h..]) == if ValueRun(t[h..]) <= n - h then ValueRun(t[h..]) else n - h
  {
    hide ValueRun;
    assert t[..n][h..] == t[h..][..n - h];
    ValueOfPrefix(t[h..], n - h);
  }

  lemma ParamOfPrefix(t: Text, n: nat)
    requires n <= |t|
    ensures MatchLen(Params, t) == 0 ==> MatchLen(Params, t[..n]) == 0
    ensures 0 < MatchLen(Params, t) <= n ==> MatchLen(Params, t[..n]) == MatchLen(Params, t)
  {
    hide HeadLen, MatchLen, ValueRun;
    HeadOfPrefix(t, n);
    ParamLen(t);
    ParamLen(t[..n]);
    if 0 < HeadLen(t) <= n { ValueBehindHead(t, HeadLen(t), n); }
  }

  lemma {:induction false} ValueOfPrefix(t: Text, n: nat)
    requires n <= |t|
    ensures ValueRun(t[..n]) == if ValueRun(t) <= n then ValueRun(t) else n
  {
    if n > 0 {
      assert t[..n][1..] == t[1..][..n - 1];
      ValueOfPrefix(t[1..], n - 1);
    }
  }

  lemma {:induction false} TokenRunOfPrefix(t: Text, n: nat)
    requires n <= |t|
    ensures TokenRun(t[..n]) == if TokenRun(t) <= n then TokenRun(t) else n
  {
    if n > 0 {
      assert t[..n][1..] == t[1..][..n - 1];
      TokenRunOfPrefix(t[1..], n - 1);
    }
  }

  lemma TokenLenOfPrefix(t: Text, n: nat)
    requires n <= |t|
    ensures MatchLen(Tokens, t) == 0 ==> MatchLen(Tokens, t[..n]) == 0
    ensures 0 < MatchLen(Tokens, t) <= n ==> MatchLen(Tokens, t[..n]) == MatchLen(Tokens, t)
  {
    if n >= 4 {
      assert t[..n][4..] == t[4..][..n - 4];
      TokenRunOfPrefix(t[4..], n - 4);
    }
  }

  lemma OneStep(p: Pass, t: Text)
    requires t != []
    ensures Replaced(p, t) == Emitted(p, t) + Replaced(p, t[StepLen(p, t)..])
  {
    FirstUnit(p, t);
    hide MatchLen, Replaced;
  }

  lemma StepOfPrefix(p: Pass, t: Text, i: nat)
    requires (p == Params || p == Tokens) && t != [] && StepLen(p, t) <= i <= |t|
    ensures StepLen(p, t[..i]) == StepLen(p, t) && Emitted(p, t[..i]) == Emitted(p, t)
  {
    if p == Params { ParamOfPrefix(t, i); } else { TokenLenOfPrefix(t, i); }
    assert t[..i][0] == t[0];
    hide MatchLen;
  }

  lemma NothingOfNothing(p: Pass)
    ensures Replaced(p, []) == []
  {
  }

  /** At a position the scan comes to, the output splits. */
  lemma {:induction false} SplitsAt(p: Pass, t: Text, i: nat)
    requires (p == Params || p == Tokens) && i <= |t| && Scans(p, t, i)
    ensures Replaced(p, t) == Replaced(p, t[..i]) + Replaced(p, t[i..])
    decreases i
  {
    NothingOfNothing(p);
    hide Replaced, StepLen, Emitted;
    if i == 0 {
      assert t[..0] == [] && t[0..] == t;
    } else {
      var n := StepLen(p, t);
      var front, rest := t[..i], t[n..];
      OneStep(p, t);
      StepOfPrefix(p, t, i);
      OneStep(p, front);
      SplitsAt(p, rest, i - n);
      assert front[n..] == rest[..i - n] && rest[i - n..] == t[i..];
    }
  }

  /** Where the output shows a parameter's name the scan came to it, and copied it. */
  lemma {:induction false} NameIsScanned(p: Pass, t: Text, x: nat) returns (i: nat)
    requires (p == Params || p == Tokens) && x <= |Replaced(p, t)| && NameLen(Replaced(p, t)[x..]) > 0
    ensures i <= |t| && Scans(p, t, i) && |Replaced(p, t[..i])| == x && Replaced(p, t[i..]) == Replaced(p, t)[x..]
    decreases |t|
  {
    i := NameScanned(p, t, x);
    SplitsAt(p, t, i);
  }

  lemma NoNameInEmitted(p: Pass, t: Text, x: nat)
    requires t != [] && 0 < x < |Emitted(p, t)|
    ensures NameLen((Emitted(p, t) + Replaced(p, t[StepLen(p, t)..]))[x..]) == 0
  {
    var rest := Replaced(p, t[StepLen(p, t)..]);
    hide MatchLen, Replaced;
    MarksAreInert(p, rest, x);
    InertMatchesNothing((MarkOf(p) + rest)[x..], p);
  }

  lemma {:induction false} NameScanned(p: Pass, t: Text, x: nat) returns (i: nat)
    requires (p == Params || p == Tokens) && x <= |Replaced(p, t)| && NameLen(Replaced(p, t)[x..]) > 0
    ensures i <= |t| && Scans(p, t, i) && |Replaced(p, t[..i])| == x
    decreases |t|
  {
    NothingOfNothing(p);
    hide Replaced, StepLen, Emitted, NameLen;
    if x == 0 {
      assert t[..0] == [];
      i := 0;
    } else {
      var n, d := StepLen(p, t), |Emitted(p, t)|;
      OneStep(p, t);
      if x < d { NoNameInEmitted(p, t, x); }
      var rest := t[n..];
      assert Replaced(p, t)[x..] == Replaced(p, rest)[x - d..];
      var k := NameScanned(p, rest, x - d);
      i := k + n;
      StepOfPrefix(p, t, i);
      OneStep(p, t[..i]);
      assert t[..i][n..] == rest[..k];
    }
  }

  lemma NameOnly(t: Text)
    requires NameLen(t) > 0
    ensures forall j :: 0 < j < NameLen(t) ==> MatchLen(Params, t[j..]) == 0
    ensures forall j :: 0 <= j < NameLen(t) ==> MatchLen(Tokens, t[j..]) == 0
  {
    hide Begins;
    forall j | 0 <= j < NameLen(t)
      ensures j > 0 ==> MatchLen(Params, t[j..]) == 0
      ensures MatchLen(Tokens, t[j..]) == 0
    {
      if Begins(t, "token=") { LettersOfToken(t, j); } else { LettersOfSnapshot(t, j); }
    }
  }

  /** Neither a name, with or without separator, nor `tgl_`: two letters tell. */
  lemma NoParamHere(t: Text)
    requires t != [] && !IsSeparator(t[0])
    requires Lower(t[0]) == 116 ==> |t| > 1 && Lower(t[1]) != 111
    requires Lower(t[0]) == 115 ==> |t| > 1 && Lower(t[1]) != 110
    ensures MatchLen(Params, t) == 0
  {
    BeginsNot(t, "token=", if Lower(t[0]) != 116 then 0 else 1);
    BeginsNot(t, "snapshot=", if Lower(t[0]) != 115 then 0 else 1);
    hide Begins;
  }

  lemma NoTokenHere(t: Text)
    requires t != [] && (Lower(t[0]) == 116 ==> |t| > 1 && Lower(t[1]) != 103)
    ensures MatchLen(Tokens, t) == 0
  {
  }

  lemma LettersOfToken(t: Text, j: nat)
    requires Begins(t, "token=") && j < 6
    ensures j > 0 ==> MatchLen(Params, t[j..]) == 0
    ensures MatchLen(Tokens, t[j..]) == 0
  {
    BeginsWith(t, "token=", j);
    if j < 5 { BeginsWith(t, "token=", j + 1); }
    hide Begins, MatchLen;
    NoTokenHere(t[j..]);
    if j > 0 { NoParamHere(t[j..]); }
  }

  lemma LettersOfSnapshot(t: Text, j: nat)
    requires Begins(t, "snapshot=") && j < 9
    ensures j > 0 ==> MatchLen(Params, t[j..]) == 0
    ensures MatchLen(Tokens, t[j..]) == 0
  {
    BeginsWith(t, "snapshot=", j);
    if j < 8 { BeginsWith(t, "snapshot=", j + 1); }
    hide Begins, MatchLen;
    NoTokenHere(t[j..]);
    if j > 0 { NoParamHere(t[j..]); }
  }

  lemma {:induction false} CopiedWhole(p: Pass, t: Text, n: nat)
    requires n <= |t| && forall j :: 0 <= j < n ==> MatchLen(p, t[j..]) == 0
    ensures Replaced(p, t) == t[..n] + Replaced(p, t[n..])
  {
    FirstUnit(p, t);
    hide MatchLen, Replaced;
    if n == 0 {
      assert t[0..] == t;
    } else {
      assert t[0..] == t;
      var rest := t[1..];
      forall j | 0 <= j < n - 1 ensures MatchLen(p, rest[j..]) == 0 { assert rest[j..] == t[j + 1..]; }
      CopiedWhole(p, rest, n - 1);
      assert t[..n] == [t[0]] + rest[..n - 1] && rest[n - 1..] == t[n..];
    }
  }

  /** The name is followed at once by a mark. */
  predicate NamesMark(t: Text) {
    var n := NameLen(t);
    0 < n < |t| && t[n] == BRACKET
  }

  lemma MarkedIsParam(t: Text)
    requires NamesMark(t)
    ensures MatchLen(Params, t) > 0
  {
    assert t[NameLen(t)..][0] == BRACKET;
    NamesAreLetters(t);
  }

  lemma NoLiveAt(o: Text, i: nat)
    requires NoLiveParam(o) && i < |o|
    ensures !LiveParam(o[i..])
  {
    hide LiveParam;
  }

  /** What the third pass still finds in a redacted text is a name before a mark. */
  lemma LeftoverNamesMark(o: Text, i: nat) returns (j: nat)
    requires i < |o| && MatchLen(Params, o[i..]) > 0 && !LiveParam(o[i..])
    ensures j < |o| && NamesMark(o[j..])
  {
    var t := o[i..];
    var d := if IsSeparator(t[0]) && NameLen(t[1..]) > 0 then 1 else 0;
    j := i + d;
    hide NameLen;
    assert t[d..] == o[j..];
    assert t[HeadLen(t)] == t[d..][NameLen(t[d..])];
  }

  lemma NameOfPrefix(t: Text, n: nat)
    requires n <= |t|
    ensures NameLen(t[..n]) > 0 ==> NameLen(t[..n]) == NameLen(t)
    ensures 0 < NameLen(t) <= n ==> NameLen(t[..n]) == NameLen(t)
  {
    var x := t[..n];
    if NameLen(x) > 0 { assert x[..n] == t[..n]; SameName(x, t, n); }
    if 0 < NameLen(t) <= n { assert x[..n] == t[..n]; SameName(t, x, n); }
  }

  /** A name before a mark in the uncut result goes back to an empty parameter before another one. */
  lemma MarkedComesFromEmpty(u: Text, x: nat) returns (i: nat)
    requires var q := Replaced(Tokens, Replaced(Params, u)); x <= |q| && NamesMark(q[x..])
    ensures i < |u| && EmptyParam(u[i..]) && Scans(Params, u, i)
    ensures var before := Replaced(Params, u[..i]);
      && Scans(Tokens, Replaced(Params, u), |before|) && |Replaced(Tokens, before)| == x
      && NameLen(u[i..]) == NameLen(Replaced(Tokens, Replaced(Params, u))[x..])
  {
    var r := Replaced(Params, u);
    var q := Replaced(Tokens, r);
    var k := NameIsScanned(Tokens, r, x);
    assert |q| > x;
    var n := NameLen(q[x..]);
    NameIsCopied(Tokens, r[k..]);
    i := NameIsScanned(Params, u, k);
    NameIsCopied(Params, u[i..]);
    SplitsAt(Params, u, i);
    assert r[..k] == Replaced(Params, u[..i]);
    assert r[k..][n..] == Replaced(Params, u[i..][n..]);
    assert q[x..][n..] == Replaced(Tokens, r[k..][n..]);
    assert q[x..][n..][0] == BRACKET;
    BracketComesFromParam(u[i..][n..]);
    EmptyBefore(u[i..]);
  }

  lemma NameIsCopied(p: Pass, t: Text)
    requires NameLen(Replaced(p, t)) > 0
    ensures NameLen(t) == NameLen(Replaced(p, t)) && MatchLen(p, t) == 0
    ensures Replaced(p, t)[NameLen(t)..] == Replaced(p, t[NameLen(t)..])
  {
    var out := Replaced(p, t);
    var n := NameLen(out);
    NameHasNoBracket(out);
    hide Replaced, MatchLen, NameLen;
    CopiedPrefix(p, t, n);
    SameName(out, t, n);
    assert t[0..] == t;
  }

  /** A bracket the last two passes show first is the mark of a parameter, or was there, or marks a token. */
  lemma BracketComesFromParam(v: Text)
    requires Replaced(Tokens, Replaced(Params, v)) != [] && Replaced(Tokens, Replaced(Params, v))[0] == BRACKET
    ensures v != [] && (MatchLen(Params, v) > 0 || v[0] == BRACKET || v[0] == 116)
  {
    FirstUnit(Params, v);
    FirstUnit(Tokens, Replaced(Params, v));
    hide Replaced;
  }

  lemma EmptyBefore(t: Text)
    requires NameLen(t) > 0 && MatchLen(Params, t) == 0
    requires var v := t[NameLen(t)..]; v != [] && (MatchLen(Params, v) > 0 || v[0] == BRACKET || v[0] == 116)
    ensures EmptyParam(t)
  {
    NamesAreLetters(t);
    hide NameLen;
  }

  lemma NamesMarkOfCut(q: Text, x: nat)
    requires x <= |Cut(q)|
    ensures NamesMark(Cut(q)[x..]) <==> NamesMark(q[x..]) && x + NameLen(q[x..]) < SNAPSHOT_MAX_TEXT_CHARS
    ensures NamesMark(Cut(q)[x..]) ==> NameLen(Cut(q)[x..]) == NameLen(q[x..])
  {
    var o := Cut(q);
    assert o[x..] == q[x..][..|o| - x];
    NameOfPrefix(q[x..], |o| - x);
    hide NameLen;
  }

  /** Behind an empty parameter the two last passes show its name and a mark. */
  lemma EmptyShowsMark(v: Text)
    requires EmptyParam(v)
    ensures var w := Replaced(Params, v); NameLen(w) == NameLen(v) && NamesMark(w) && NamesMark(Replaced(Tokens, w))
    ensures NameLen(Replaced(Tokens, Replaced(Params, v))) == NameLen(v)
  {
    var n, w := NameLen(v), Replaced(Params, v);
    NameOnly(v);
    hide Replaced, MatchLen;
    assert v[0..] == v;
    CopiedWhole(Params, v, n);
    FirstUnit(Params, v[n..]);
    KeepsName(v, w, n);
    NameOnly(w);
    CopiedWhole(Tokens, w, n);
    FirstUnit(Tokens, w[n..]);
    KeepsName(w, Replaced(Tokens, w), n);
  }

  lemma KeepsName(a: Text, b: Text, n: nat)
    requires 0 < n == NameLen(a) && n < |b| && b[..n] == a[..n] && b[n] == BRACKET
    ensures NameLen(b) == n && NamesMark(b)
  {
    SameName(a, b, n);
  }

  lemma LooseLeavesParam(t: Text, i: nat)
    ensures LooseAt(Opened(t), i) ==> !Clean(Params, Redact(t))
  {
    var u := Opened(t);
    UncutIsRedacted(t);
    hide EmptyParam, Replaced, MatchLen, NamesMark, NameLen, Scans, Cut, Redact, Opened, Uncut;
    if LooseAt(u, i) {
      var v, r := u[i..], Replaced(Params, u);
      var before := Replaced(Params, u[..i]);
      var x := |Replaced(Tokens, before)|;
      EmptyShowsMark(v);
      SplitsAt(Params, u, i);
      assert r[..|before|] == before && r[|before|..] == Replaced(Params, v);
      SplitsAt(Tokens, r, |before|);
      var q := Replaced(Tokens, r);
      assert q[x..] == Replaced(Tokens, Replaced(Params, v));
      LooseFits(q, x);
      assert Redact(t) == Cut(q);
      MarkedIsParam(Cut(q)[x..]);
    }
  }

  lemma LooseFits(q: Text, x: nat)
    requires x <= |q| && NamesMark(q[x..]) && x + NameLen(q[x..]) < SNAPSHOT_MAX_TEXT_CHARS
    ensures x < |Cut(q)| && NamesMark(Cut(q)[x..])
  {
    hide NameLen;
    assert x + NameLen(q[x..]) < |q|;
    NamesMarkOfCut(q, x);
  }

  lemma ParamLeftIsLoose(t: Text) returns (i: nat)
    requires !Clean(Params, Redact(t))
    ensures LooseAt(Opened(t), i)
  {
    var u, o, q := Opened(t), Redact(t), Uncut(t);
    NothingIsLeft(t);
    hide Replaced, MatchLen, NamesMark, NameLen, Scans, Cut, Redact, NoLiveParam, EmptyParam;
    assert o == Cut(q) by { assert Redact(t) == Cut(Uncut(t)) by { UncutIsRedacted(t); } }
    var k :| 0 <= k < |o| && MatchLen(Params, o[k..]) != 0;
    assert !LiveParam(o[k..]) by { NoLiveAt(o, k); }
    var j := LeftoverNamesMark(o, k);
    NamesMarkOfCut(q, j);
    CutIsShorter(q);
    i := MarkedComesFromEmpty(u, j);
  }

  lemma UncutIsRedacted(t: Text)
    ensures Redact(t) == Cut(Uncut(t)) && Uncut(t) == Replaced(Tokens, Replaced(Params, Opened(t)))
  {
    hide Cut, Replaced;
  }

  lemma CutIsShorter(q: Text)
    ensures |Cut(q)| <= |q| && |Cut(q)| <= SNAPSHOT_MAX_TEXT_CHARS
  {
  }

  /**
   For every text: redacting what was redacted changes nothing exactly when no empty
   parameter stands directly before another parameter, where it can be seen.
   */
  lemma SettledExactly(t: Text)
    ensures Settled(t) <==> forall i: nat :: !LooseAt(Opened(t), i)
  {
    SettledWhenClean(t);
    hide Settled, Clean, Redact, LooseAt, Opened;
    if !Clean(Params, Redact(t)) {
      var i := ParamLeftIsLoose(t);
    }
    if i: nat :| LooseAt(Opened(t), i) {
      LooseLeavesParam(t, i);
    }
  }

  // ---- redacting over and over ----

  function Times(redact: Text -> Text, t: Text, n: nat): Text {
    if n == 0 then t else redact(Times(redact, t, n - 1))
  }

  /** How many equals signs stand in the text: no pass and no cut adds one. */
  function Equals(t: Text): nat {
    if t == [] then 0 else (if t[0] == 61 then 1 else 0) + Equals(t[1..])
  }

  lemma {:induction false} EqualsOfConcat(a: Text, b: Text)
    ensures Equals(a + b) == Equals(a) + Equals(b)
    decreases |a|
  {
    if a == [] {
      assert a + b == b;
    } else {
      assert (a + b)[1..] == a[1..] + b;
      EqualsOfConcat(a[1..], b);
    }
  }

  lemma EqualsOfSplit(t: Text, n: nat)
    requires n <= |t|
    ensures Equals(t) == Equals(t[..n]) + Equals(t[n..])
  {
    assert t == t[..n] + t[n..];
    EqualsOfConcat(t[..n], t[n..]);
  }

  lemma {:induction false} NoEquals(a: Text)
    requires forall j :: 0 <= j < |a| ==> a[j] != 61
    ensures Equals(a) == 0
  {
    if a != [] { NoEquals(a[1..]); }
  }

  lemma EqualsOfCut(t: Text)
    ensures Equals(Cut(t)) <= Equals(t)
  {
    if |t| > SNAPSHOT_MAX_TEXT_CHARS {
      assert t == t[..SNAPSHOT_MAX_TEXT_CHARS] + t[SNAPSHOT_MAX_TEXT_CHARS..];
      EqualsOfConcat(t[..SNAPSHOT_MAX_TEXT_CHARS], t[SNAPSHOT_MAX_TEXT_CHARS..]);
    }
  }

  lemma OneEquals(t: Text, k: nat)
    requires k < |t| && t[k] == 61
    ensures Equals(t) > 0
  {
    EqualsOfSplit(t, k);
    assert t[k..][0] == 61;
  }

  lemma MarkHasNoEquals(p: Pass)
    ensures Equals(MarkOf(p)) == 0
  {
    MarkBegins(p);
    NoEquals(MarkOf(p));
  }

  /** A step of the scan puts out no more equals signs than it takes in, and fewer at a parameter. */
  lemma EqualsOfStep(p: Pass, t: Text)
    requires t != []
    ensures Equals(Emitted(p, t)) <= Equals(t[..StepLen(p, t)])
    ensures p == Params && MatchLen(p, t) > 0 ==> Equals(Emitted(p, t)) < Equals(t[..StepLen(p, t)])
  {
    hide Equals, MatchLen, MarkOf;
    MarkHasNoEquals(p);
    if MatchLen(p, t) == 0 {
      assert t[..StepLen(p, t)] == [t[0]];
    } else if p == Params {
      var k := EqualsInHead(t);
      OneEquals(t[..StepLen(p, t)], k);
    }
  }

  lemma EqualsInHead(t: Text) returns (k: nat)
    requires MatchLen(Params, t) > 0
    ensures k < MatchLen(Params, t) && t[k] == 61
  {
    var d := if IsSeparator(t[0]) && NameLen(t[1..]) > 0 then 1 else 0;
    var name := t[d..];
    hide Begins, ValueRun;
    k := HeadLen(t) - 1;
    if Begins(name, "token=") { BeginsWith(name, "token=", 5); } else { BeginsWith(name, "snapshot=", 8); }
    assert t[k] == name[k - d];
  }

  lemma {:induction false} EqualsOfPass(p: Pass, t: Text)
    ensures Equals(Replaced(p, t)) <= Equals(t)
    ensures p == Params && !Clean(p, t) ==> Equals(Replaced(p, t)) < Equals(t)
    decreases |t|
  {
    NothingOfNothing(p);
    if t == [] {
      hide Replaced;
      assert Clean(p, t);
    } else {
      hide Equals, Replaced, Emitted, StepLen, MatchLen, Clean;
      var n := StepLen(p, t);
      var rest := t[n..];
      OneStep(p, t);
      EqualsOfStep(p, t);
      CleanFrom(p, t);
      EqualsOfPass(p, rest);
      EqualsOfConcat(Emitted(p, t), Replaced(p, rest));
      EqualsOfSplit(t, n);
    }
  }

  lemma CleanFrom(p: Pass, t: Text)
    requires t != []
    ensures MatchLen(p, t) == 0 ==> StepLen(p, t) == 1 && (Clean(p, t[1..]) ==> Clean(p, t))
  {
    hide MatchLen;
    if MatchLen(p, t) == 0 && Clean(p, t[1..]) {
      forall i | 0 <= i < |t| ensures MatchLen(p, t[i..]) == 0 {
        if i > 0 { assert t[i..] == t[1..][i - 1..]; } else { assert t[0..] == t; }
      }
    }
  }

  lemma EqualsOfRedact(t: Text)
    ensures Equals(Redact(t)) <= Equals(t)
  {
    hide Replaced, Equals, Cut;
    EqualsOfPass(Urls, t);
    EqualsOfPass(Bearers, Replaced(Urls, t));
    EqualsOfPass(Params, Opened(t));
    EqualsOfPass(Tokens, Marked(t));
    EqualsOfCut(Uncut(t));
    UncutIsRedacted(t);
  }

  lemma {:induction false} EqualsOverTimes(t: Text, m: nat, n: nat)
    requires m <= n
    ensures Equals(Times(Redact, t, n)) <= Equals(Times(Redact, t, m))
    decreases n
  {
    hide Redact, Equals;
    if m < n {
      EqualsOverTimes(t, m, n - 1);
      EqualsOfRedact(Times(Redact, t, n - 1));
    }
  }

  lemma UnsettledLosesEquals(t: Text)
    ensures !Settled(t) ==> Equals(Redact(Redact(t))) < Equals(Redact(t))
  {
    var o := Redact(t);
    SettledWhenClean(t);
    AgainIsOnePass(t);
    hide Redact, Replaced, Clean, Equals, Cut;
    EqualsOfPass(Params, o);
    EqualsOfCut(Replaced(Params, o));
  }

  lemma TwiceIsAgain(t: Text)
    ensures Times(Redact, t, 1) == Redact(t) && Times(Redact, t, 2) == Redact(Redact(t))
  {
    hide Redact;
    assert Times(Redact, t, 0) == t;
    assert Times(Redact, t, 1) == Redact(Times(Redact, t, 0));
    assert Times(Redact, t, 2) == Redact(Times(Redact, t, 1));
  }

  /** A text that a second redaction changes never comes back, however often it is redacted; any other is final. */
  lemma {:induction false} ComesBackExactly(t: Text, n: nat)
    requires n >= 2
    ensures Times(Redact, t, n) == Redact(t) <==> Settled(t)
    decreases n
  {
    hide Redact, Equals;
    TwiceIsAgain(t);
    UnsettledLosesEquals(t);
    if Settled(t) {
      if n > 2 { ComesBackExactly(t, n - 1); }
    } else {
      EqualsOverTimes(t, 2, n);
    }
  }

  // ---- a condition on the author's text, and a text that fails it ----

  /** `token=` or `snapshot=` directly before `&` or `#`. */
  predicate EmptyName(t: Text) {
    var n := NameLen(t);
    0 < n < |t| && t[n] in {35, 38}
  }

  ghost predicate NoEmptyName(t: Text) {
    forall i :: 0 <= i < |t| ==> !EmptyName(t[i..])
  }

  lemma EmptyNameBack(p: Pass, t: Text)
    requires EmptyName(Replaced(p, t))
    ensures EmptyName(t)
  {
    var out := Replaced(p, t);
    var n := NameLen(out);
    NameHasNoBracket(out);
    hide Replaced, MatchLen, NameLen;
    CopiedPrefix(p, t, n + 1);
    SameName(out, t, n + 1);
    assert t[n] == t[..n + 1][n] == out[..n + 1][n] == out[n];
  }

  lemma {:induction false} NoEmptyNameAfter(p: Pass, t: Text)
    requires NoEmptyName(t)
    ensures NoEmptyName(Replaced(p, t))
    decreases |t|
  {
    NothingOfNothing(p);
    hide Replaced, EmptyName, StepLen, Emitted;
    if t != [] {
      var out, n, d := Replaced(p, t), StepLen(p, t), |Emitted(p, t)|;
      OneStep(p, t);
      forall i | 0 <= i < |t[n..]| ensures !EmptyName(t[n..][i..]) { assert t[n..][i..] == t[n + i..]; }
      NoEmptyNameAfter(p, t[n..]);
      forall i | 0 <= i < |out| ensures !EmptyName(out[i..]) {
        if i >= d {
          assert out[i..] == Replaced(p, t[n..])[i - d..];
        } else if i > 0 {
          NoNameInEmitted(p, t, i);
          NoNameNotEmpty(out[i..]);
        } else {
          assert out[0..] == out && t[0..] == t;
          if EmptyName(out) { EmptyNameBack(p, t); }
        }
      }
    }
  }

  lemma NoNameNotEmpty(t: Text)
    ensures NameLen(t) == 0 ==> !EmptyName(t)
  {
    hide NameLen;
  }

  lemma EmptyParamHasEmptyName(t: Text)
    requires EmptyParam(t)
    ensures EmptyName(t)
  {
    var n := NameLen(t);
    var v := t[n..];
    NamesAreLetters(t);
    assert v == [] || v[0] == t[n];
    MatchOpens(Params, v);
    ParamLen(t);
    hide MatchLen, NameLen;
  }

  /** A text in which no `token=` or `snapshot=` stands directly before `&` or `#` is redacted once and for all. */
  lemma NoEmptyNameSettles(t: Text)
    requires NoEmptyName(t)
    ensures Settled(t)
  {
    hide Replaced, EmptyName, Settled, EmptyParam, Scans;
    NoEmptyNameAfter(Urls, t);
    NoEmptyNameAfter(Bearers, Replaced(Urls, t));
    SettledExactly(t);
    var u := Opened(t);
    forall i: nat ensures !LooseAt(u, i) {
      if LooseAt(u, i) { EmptyParamHasEmptyName(u[i..]); }
    }
  }

  lemma NothingToOpen(p: Pass, t: Text)
    requires p == Urls || p == Bearers
    requires forall i :: 0 <= i < |t| && Lower(t[i]) in {98, 104} ==> |t| - i < 6
    ensures Replaced(p, t) == t
  {
    forall i | 0 <= i < |t| ensures MatchLen(p, t[i..]) == 0 {
      var x := t[i..];
      if |x| >= 6 {
        assert Lower(x[0]) !in {98, 104};
        BeginsNot(x, "http://", 0);
        BeginsNot(x, "https://", 0);
        BeginsNot(x, "bearer", 0);
      }
      hide Triggered;
    }
    CleanIsKept(p, t);
  }

  lemma NothingToMark(t: Text)
    requires forall i :: 0 <= i < |t| && t[i] == 116 ==> i + 1 < |t| && t[i + 1] != 103
    ensures Replaced(Tokens, t) == t
  {
    forall i | 0 <= i < |t| ensures MatchLen(Tokens, t[i..]) == 0 {
      assert t[i..][0] == t[i] && (i + 1 < |t| ==> t[i..][1] == t[i + 1]);
    }
    CleanIsKept(Tokens, t);
  }

  lemma {:induction false} AllValue(t: Text)
    requires forall i :: 0 <= i < |t| ==> IsValueUnit(t[i])
    ensures ValueRun(t) == |t|
  {
    if t != [] { AllValue(t[1..]); }
  }

  /** A parameter with nothing behind its value is one match. */
  lemma OneParam(t: Text, h: nat)
    requires 0 < h == HeadLen(t) < |t| && ValueRun(t[h..]) == |t| - h
    ensures MatchLen(Params, t) == |t| && Replaced(Params, t) == MarkOf(Params)
  {
    hide MatchLen, Replaced, HeadLen, ValueRun, MarkOf;
    ParamLen(t);
    FirstUnit(Params, t);
    NothingOfNothing(Params);
    assert t[|t|..] == [];
  }

  const NAME: Text := Units("token=")

  const VALUE: Text := Units("abc")

  lemma NameBegins(rest: Text)
    ensures NameLen(NAME + rest) == 6 && HeadLen(NAME + rest) == 6
  {
    assert forall i :: 0 <= i < 6 ==> (NAME + rest)[i] == NAME[i];
  }

  lemma SeparatorBegins(rest: Text)
    ensures HeadLen([38] + (NAME + rest)) == 7
  {
    NameBegins(rest);
    assert ([38] + (NAME + rest))[1..] == NAME + rest;
    hide NameLen;
  }

  predicate ValueWord(m: string) {
    forall i :: 0 <= i < |m| ==> 33 <= m[i] as int < 0x80 && m[i] as int !in {34, 35, 38, 39}
  }

  lemma WordIsValue(m: string)
    requires ValueWord(m)
    ensures ValueRun(Units(m)) == |m|
  {
    AllValue(Units(m));
  }

  lemma TheseAreValueWords()
    ensures ValueWord("abc") && ValueWord("[redacted-token]")
  {
  }

  lemma ValuesAreValues()
    ensures ValueRun(VALUE) == |VALUE| && ValueRun(MarkOf(Params)) == |MarkOf(Params)| == 16
  {
    TheseAreValueWords();
    WordIsValue("abc");
    WordIsValue("[redacted-token]");
    hide ValueRun, Units, ValueWord;
  }

  /** The third pass takes the separator of the second parameter, and leaves the first name standing before its mark. */
  lemma EmptyBeforeParam()
    ensures Replaced(Params, NAME + ([38] + (NAME + VALUE))) == NAME + MarkOf(Params)
  {
    var v := [38] + (NAME + VALUE);
    var t := NAME + v;
    NameBegins(v);
    SeparatorBegins(VALUE);
    hide Replaced, HeadLen, NameLen, MarkOf;
    assert v[7..] == VALUE;
    ValuesAreValues();
    OneParam(v, 7);
    assert t[6..] == v && v[0] == 38 && t[..6] == NAME;
    ParamLen(t);
    NameOnly(t);
    hide MatchLen, ValueRun;
    assert !IsValueUnit(38);
    assert t[0..] == t;
    CopiedWhole(Params, t, 6);
  }

  /** No letter t of the text has a g behind it. */
  lemma NothingToMarkInStored()
    ensures var o := NAME + MarkOf(Params);
      forall i :: 0 <= i < |o| && o[i] == 116 ==> i + 1 < |o| && o[i + 1] != 103
  {
    var m := MarkOf(Params);
    assert forall i :: 0 <= i < 6 && NAME[i] == 116 ==> i == 0 && NAME[1] == 111;
    TokenMark();
    forall i | 0 <= i < 6 + |m| && (NAME + m)[i] == 116 ensures i + 1 < 6 + |m| && (NAME + m)[i + 1] != 103 {
      if i >= 6 { assert (NAME + m)[i] == m[i - 6] == "[redacted-token]"[i - 6] as int; }
    }
  }

  lemma StoredText()
    ensures Replaced(Params, NAME + MarkOf(Params)) == MarkOf(Params)
    ensures Replaced(Tokens, NAME + MarkOf(Params)) == NAME + MarkOf(Params)
  {
    var m := MarkOf(Params);
    hide Replaced, HeadLen, NameLen, ValueRun, MarkOf;
    ValuesAreValues();
    NameBegins(m);
    assert (NAME + m)[6..] == m;
    OneParam(NAME + m, 6);
    NothingToMarkInStored();
    NothingToMark(NAME + m);
  }

  /** Redacting `token=&token=abc` leaves a name before a mark, and redacting that takes the name as well. */
  lemma NotSettled()
    ensures var t := NAME + ([38] + (NAME + VALUE));
      && Redact(t) == NAME + MarkOf(Params) && Redact(Redact(t)) == MarkOf(Params)
      && !Settled(t)
  {
    var t := NAME + ([38] + (NAME + VALUE));
    NothingToOpen(Urls, t);
    NothingToOpen(Bearers, t);
    hide Replaced;
    EmptyBeforeParam();
    StoredText();
    AgainIsOnePass(t);
    assert |NAME + MarkOf(Params)| == 22;
  }
}

/**
 The generated runtime commands (src/server/runtime.ts) and what a POSIX shell makes of them:
 token recognition, quote removal and simple commands as IEEE Std 1003.1 describes them (Shell
 Command Language, sections 2.2.1, 2.2.2, 2.3, 2.7, 2.9.1 and 2.10.1).
 */
module ShellQuoting {
  import opened Collections

  // ---- quoting ----

  /** `value.replace(/'/g, "'\\''")` */
  function Escaped(value: string): string {
    if value == "" then ""
    else (if value[0] == '\'' then "'\\''" else [value[0]]) + Escaped(value[1..])
  }

  function ShellSingleQuote(value: string): string {
    "'" + Escaped(value) + "'"
  }

  // ---- the shell ----

  /** A word after quote removal; its first `bare` characters were written without any quoting. */
  datatype Token = Word(text: string, bare: nat) | IoNumber(digits: string) | Operator(op: string)

  predicate Blank(c: char) {
    c == ' ' || c == '\t'
  }

  predicate Digit(c: char) {
    '0' <= c <= '9'
  }

  /** Characters that stand for themselves wherever they appear in a word. */
  predicate PlainChar(c: char) {
    'a' <= c <= 'z' || 'A' <= c <= 'Z' || Digit(c) || c in "-_=./:,+@%"
  }

  predicate OperatorChar(c: char) {
    c in "<>&|;"
  }

  /** Operators are recognised longest first. */
  predicate TwoCharOperator(op: string) {
    op in [">>", ">&", ">|", "<<", "<&", "<>", "&&", "||", ";;"]
  }

  /** The word being read, if one is open. */
  datatype Reading = NoWord | Reading(text: string, bare: nat)

  function Bare(r: Reading, c: char): Reading {
    match r
    case NoWord => Reading([c], 1)
    case Reading(text, bare) => Reading(text + [c], if bare == |text| then bare + 1 else bare)
  }

  function Quoted(r: Reading, s: string): Reading {
    match r
    case NoWord => Reading(s, 0)
    case Reading(text, bare) => Reading(text + s, bare)
  }

  function Finished(r: Reading): seq<Token> {
    if r.NoWord? then [] else [Word(r.text, r.bare)]
  }

  /** A word of bare digits right before a redirection names the descriptor. */
  function FinishedBefore(r: Reading, c: char): seq<Token> {
    if r.Reading? && (c == '>' || c == '<') && r.bare == |r.text| && r.text != "" && (forall i :: 0 <= i < |r.text| ==> Digit(r.text[i]))
    then [IoNumber(r.text)] else Finished(r)
  }

  function Before(tokens: seq<Token>, rest: Option<seq<Token>>): Option<seq<Token>> {
    if rest.None? then None else Some(tokens + rest.value)
  }

  /** Token recognition outside quotes; text this model does not interpret (expansions, patterns, comments) reads as None. */
  function Outside(s: string, r: Reading): Option<seq<Token>>
    decreases |s|
  {
    if s == "" then Some(Finished(r))
    else
      var c, rest := s[0], s[1..];
      if Blank(c) then Before(Finished(r), Outside(rest, NoWord))
      else if c == '\'' then Inside(rest, Quoted(r, ""))
      else if c == '\\' then (if rest == "" then None else if rest[0] == '\n' then Outside(rest[1..], r) else Outside(rest[1..], Quoted(r, [rest[0]])))
      else if OperatorChar(c) then
        if rest != "" && TwoCharOperator([c, rest[0]])
        then Before(FinishedBefore(r, c) + [Operator([c, rest[0]])], Outside(rest[1..], NoWord))
        else Before(FinishedBefore(r, c) + [Operator([c])], Outside(rest, NoWord))
      else if PlainChar(c) then Outside(rest, Bare(r, c))
      else None
  }

  /** Inside single quotes every character is literal up to the closing quote. */
  function Inside(s: string, r: Reading): Option<seq<Token>>
    decreases |s|
  {
    if s == "" then None
    else if s[0] == '\'' then Outside(s[1..], r)
    else Inside(s[1..], Quoted(r, [s[0]]))
  }

  function Tokens(s: string): Option<seq<Token>> {
    Outside(s, NoWord)
  }

  // ---- one quoted string is one word ----

  lemma QuotedTwice(r: Reading, a: string, b: string)
    ensures Quoted(Quoted(r, a), b) == Quoted(r, a + b)
  {
    if r.Reading? { assert (r.text + a) + b == r.text + (a + b); }
  }

  /** Closing, an escaped quote and reopening: three steps that add one quote to the word. */
  lemma EscapedQuoteReads(tail: string, r: Reading)
    ensures Inside("'\\''" + tail, r) == Inside(tail, Quoted(Quoted(r, "'"), ""))
  {
    var s3 := "'" + tail;
    var s2 := "\\'" + s3;
    var s1 := "'" + s2;
    assert "'\\''" + tail == s1;
    assert s1[1..] == s2 && Inside(s1, r) == Outside(s2, r);
    assert s2[1..][1..] == s3 && s2[1..][0] == '\'' && Outside(s2, r) == Outside(s3, Quoted(r, "'"));
    assert s3[1..] == tail;
  }

  lemma {:induction false} EscapedReadsOn(value: string, rest: string, r: Reading, done: string)
    ensures Inside(Escaped(value) + "'" + rest, Quoted(r, done)) == Outside(rest, Quoted(r, done + value))
    decreases |value|
  {
    var s := Escaped(value) + "'" + rest;
    if value == "" {
      assert s[1..] == rest && done + value == done;
    } else {
      var tail := Escaped(value[1..]) + "'" + rest;
      var c := value[0];
      EscapedReadsOn(value[1..], rest, r, done + [c]);
      QuotedTwice(r, done, [c]);
      assert done + [c] + value[1..] == done + value by { assert value == [c] + value[1..]; }
      if c == '\'' {
        assert s == "'\\''" + tail;
        EscapedQuoteReads(tail, Quoted(r, done));
        QuotedTwice(r, done + [c], "");
        assert done + [c] + "" == done + [c];
      } else {
        assert s == [c] + tail && s[1..] == tail;
      }
    }
  }

  /** Reading a quoted string extends the open word by exactly its characters. */
  lemma QuoteReads(value: string, rest: string, r: Reading)
    ensures Outside(ShellSingleQuote(value) + rest, r) == Outside(rest, Quoted(r, value))
  {
    var s := ShellSingleQuote(value) + rest;
    assert s[1..] == Escaped(value) + "'" + rest;
    EscapedReadsOn(value, rest, r, "");
    assert "" + value == value;
  }

  /** The shell reads a quoted string, whatever it holds, as one word with that value. */
  lemma QuoteRoundTrip(value: string)
    ensures Tokens(ShellSingleQuote(value)) == Some([Word(value, 0)])
  {
    QuoteReads(value, "", NoWord);
    assert ShellSingleQuote(value) + "" == ShellSingleQuote(value);
  }

  // ---- simple commands ----

  datatype Redirection = Redirection(descriptor: string, op: string, target: string)

  datatype Command = Command(assignments: seq<(string, string)>, argv: seq<string>, redirections: seq<Redirection>)

  predicate NameChar(c: char) {
    'a' <= c <= 'z' || 'A' <= c <= 'Z' || Digit(c) || c == '_'
  }

  /** Length of the variable name, if the word starts with an unquoted `name=`. */
  function AssignedName(text: string, bare: nat): Option<nat> {
    var n := IndexOf(text, '=');
    if 0 < n < bare && !Digit(text[0]) && (forall i :: 0 <= i < n ==> NameChar(text[i])) then Some(n) else None
  }

  predicate RedirectionOperator(op: string) {
    op in [">>", ">", ">&", ">|", "<", "<&", "<>"]
  }

  /** Assignments, then words, with redirections anywhere; other operators do not make a simple command. */
  function Interpret(tokens: seq<Token>, cmd: Command): Option<Command>
    decreases |tokens|
  {
    if tokens == [] then Some(cmd)
    else
      match tokens[0]
      case Word(text, bare) =>
        var n := AssignedName(text, bare);
        if cmd.argv == [] && n.Some? && n.value < |text|
        then Interpret(tokens[1..], cmd.(assignments := cmd.assignments + [(text[..n.value], text[n.value + 1..])]))
        else Interpret(tokens[1..], cmd.(argv := cmd.argv + [text]))
      case IoNumber(digits) =>
        if |tokens| >= 3 && tokens[1].Operator? && RedirectionOperator(tokens[1].op) && tokens[2].Word?
        then Interpret(tokens[3..], cmd.(redirections := cmd.redirections + [Redirection(digits, tokens[1].op, tokens[2].text)]))
        else None
      case Operator(op) =>
        if |tokens| >= 2 && RedirectionOperator(op) && tokens[1].Word?
        then Interpret(tokens[2..], cmd.(redirections := cmd.redirections + [Redirection(if op[0] == '<' then "0" else "1", op, tokens[1].text)]))
        else None
  }

  function ParseCommand(s: string): Option<Command> {
    var tokens := Tokens(s);
    if tokens.None? then None else Interpret(tokens.value, Command([], [], []))
  }

  // ---- the launch plan ----

  function Decimal(n: nat): (digits: string)
    ensures digits != "" && forall i :: 0 <= i < |digits| ==> Digit(digits[i])
  {
    var last := [('0' as int + n % 10) as char];
    if n < 10 then last else Decimal(n / 10) + last
  }

  /** How generated commands invoke the CLI: the host's own entry point, or the name it is installed under. */
  datatype CliSource = HostCli(execPath: string, entry: string) | Fallback

  function CliInvocation(cli: CliSource): string {
    match cli
    case HostCli(execPath, entry) => ShellSingleQuote(execPath) + " " + ShellSingleQuote(entry)
    case Fallback => "agentgather"
  }

  function CliArguments(cli: CliSource): seq<string> {
    match cli
    case HostCli(execPath, entry) => [execPath, entry]
    case Fallback => ["agentgather"]
  }

  datatype LaunchInput = LaunchInput(port: int, home: string, publicUrl: string, sessionName: string, logPath: string, cli: CliSource, tmuxAvailable: bool)

  datatype LaunchPlan = InvalidPort | LaunchPlan(serveCommand: string, detachedCommand: Option<string>, stopCommand: string)

  function ServeCommand(home: string, cli: CliSource, port: nat, url: string): string {
    "AGENTGATHER_HOME=" + ShellSingleQuote(home) + " " + CliInvocation(cli) + " room serve"
    + " --port " + Decimal(port) + " --url " + ShellSingleQuote(url)
  }

  /** What the detached session's shell is given to run. */
  function SessionCommand(serve: string, logPath: string): string {
    serve + " >> " + ShellSingleQuote(logPath) + " 2>&1"
  }

  function BuildRuntimeLaunchPlan(input: LaunchInput, sanitize: string -> string): LaunchPlan {
    if !(1 <= input.port <= 65_535) then InvalidPort
    else
      var serve := ServeCommand(input.home, input.cli, input.port, sanitize(input.publicUrl));
      if input.tmuxAvailable then
        LaunchPlan(serve,
          Some("tmux new-session -d -s " + ShellSingleQuote(input.sessionName) + " " + ShellSingleQuote(SessionCommand(serve, input.logPath))),
          "tmux kill-session -t " + ShellSingleQuote(input.sessionName))
      else LaunchPlan(serve, None, "Press Ctrl-C in the operator terminal running `room serve`.")
  }

  // ---- reading a line of words ----

  /** A word as it is written: plain characters, then perhaps a quoted string. */
  datatype Spelled = Spelled(plain: string, quoted: Option<string>)

  predicate AllPlain(s: string) {
    forall i :: 0 <= i < |s| ==> PlainChar(s[i])
  }

  predicate Readable(w: Spelled) {
    AllPlain(w.plain) && (w.quoted.None? ==> w.plain != "")
  }

  function Written(w: Spelled): string {
    w.plain + (if w.quoted.Some? then ShellSingleQuote(w.quoted.value) else "")
  }

  function Read(w: Spelled): Token {
    Word(w.plain + (if w.quoted.Some? then w.quoted.value else ""), |w.plain|)
  }

  function ReadAll(ws: seq<Spelled>): seq<Token> {
    seq(|ws|, i requires 0 <= i < |ws| => Read(ws[i]))
  }

  /** The words, each followed by a blank, and then the rest of the line. */
  function Line(ws: seq<Spelled>, tail: string): string {
    if ws == [] then tail else Written(ws[0]) + " " + Line(ws[1..], tail)
  }

  lemma PlainStep(line: string, r: Reading)
    requires line != "" && PlainChar(line[0])
    ensures Outside(line, r) == Outside(line[1..], Bare(r, line[0]))
  {
  }

  function BareAll(r: Reading, s: string): Reading
    decreases |s|
  {
    if s == "" then r else BareAll(Bare(r, s[0]), s[1..])
  }

  lemma {:induction false} PlainReads(s: string, r: Reading, rest: string)
    requires AllPlain(s)
    ensures Outside(s + rest, r) == Outside(rest, BareAll(r, s))
    decreases |s|
  {
    hide Outside, PlainChar, Bare;
    if s == "" {
      assert s + rest == rest;
    } else {
      var line := s + rest;
      assert line[0] == s[0] && line[1..] == s[1..] + rest;
      PlainStep(line, r);
      PlainReads(s[1..], Bare(r, s[0]), rest);
    }
  }

  lemma {:induction false} BareAllIs(s: string, done: string)
    ensures BareAll(Reading(done, |done|), s) == Reading(done + s, |done + s|)
    decreases |s|
  {
    if s == "" {
      assert done + s == done;
    } else {
      BareAllIs(s[1..], done + [s[0]]);
      assert done + [s[0]] + s[1..] == done + s by { assert s == [s[0]] + s[1..]; }
    }
  }

  lemma BareWord(s: string)
    ensures BareAll(NoWord, s) == if s == "" then NoWord else Reading(s, |s|)
  {
    if s != "" {
      BareAllIs(s[1..], [s[0]]);
      assert s == [s[0]] + s[1..];
    }
  }

  /** A written word, wherever it ends, is read as its value. */
  lemma WordReads(w: Spelled, rest: string)
    requires Readable(w)
    ensures Outside(Written(w) + rest, NoWord) == Outside(rest, Reading(Read(w).text, |w.plain|))
  {
    hide Outside;
    var tail := if w.quoted.Some? then ShellSingleQuote(w.quoted.value) + rest else rest;
    assert Written(w) + rest == w.plain + tail;
    PlainReads(w.plain, NoWord, tail);
    BareWord(w.plain);
    if w.quoted.Some? {
      QuoteReads(w.quoted.value, rest, if w.plain == "" then NoWord else Reading(w.plain, |w.plain|));
      assert "" + w.quoted.value == w.quoted.value;
    } else {
      assert w.plain + "" == w.plain;
    }
  }

  lemma BlankEnds(rest: string, r: Reading)
    ensures Outside(" " + rest, r) == Before(Finished(r), Outside(rest, NoWord))
  {
    assert (" " + rest)[1..] == rest;
  }

  lemma {:induction false} LineReads(ws: seq<Spelled>, tail: string)
    requires forall w :: w in ws ==> Readable(w)
    ensures Outside(Line(ws, tail), NoWord) == Before(ReadAll(ws), Outside(tail, NoWord))
    decreases |ws|
  {
    hide Outside, Written, Readable;
    if ws == [] {
      NothingBefore(Outside(tail, NoWord));
    } else {
      var rest := Line(ws[1..], tail);
      LineReads(ws[1..], tail);
      WordReads(ws[0], " " + rest);
      BlankEnds(rest, Reading(Read(ws[0]).text, |ws[0].plain|));
      assert Written(ws[0]) + " " + rest == Written(ws[0]) + (" " + rest);
      assert ReadAll(ws) == [Read(ws[0])] + ReadAll(ws[1..]);
      BeforeTwice([Read(ws[0])], ReadAll(ws[1..]), Outside(tail, NoWord));
    }
  }

  lemma NothingBefore(rest: Option<seq<Token>>)
    ensures Before([], rest) == rest
  {
    if rest.Some? { assert [] + rest.value == rest.value; }
  }

  lemma BeforeTwice(a: seq<Token>, b: seq<Token>, rest: Option<seq<Token>>)
    ensures Before(a, Before(b, rest)) == Before(a + b, rest)
  {
    if rest.Some? { assert a + (b + rest.value) == (a + b) + rest.value; }
  }

  lemma {:induction false} LineAppends(a: seq<Spelled>, b: seq<Spelled>, tail: string)
    ensures Line(a + b, tail) == Line(a, Line(b, tail))
    decreases |a|
  {
    if a == [] {
      assert a + b == b;
    } else {
      assert (a + b)[1..] == a[1..] + b;
      LineAppends(a[1..], b, tail);
    }
  }

  function Plain(s: string): Spelled {
    Spelled(s, None)
  }

  function InQuotes(s: string): Spelled {
    Spelled("", Some(s))
  }

  // ---- the serve command ----

  function CliWords(cli: CliSource): seq<Spelled> {
    match cli
    case HostCli(execPath, entry) => [InQuotes(execPath), InQuotes(entry)]
    case Fallback => [Plain("agentgather")]
  }

  function HomeWord(home: string): Spelled {
    Spelled("AGENTGATHER_HOME=", Some(home))
  }

  function ServeWords(port: nat): seq<Spelled> {
    [Plain("room"), Plain("serve"), Plain("--port"), Plain(Decimal(port)), Plain("--url")]
  }

  function LeadingWords(home: string, cli: CliSource, port: nat): seq<Spelled> {
    [HomeWord(home)] + CliWords(cli) + ServeWords(port)
  }

  lemma ServeWordsReadable(port: nat)
    ensures forall w :: w in ServeWords(port) ==> Readable(w)
  {
    hide Decimal;
    assert AllPlain(Decimal(port));
    assert AllPlain("room") && AllPlain("serve");
    assert AllPlain("--port") && AllPlain("--url");
    hide AllPlain;
  }

  lemma LeadingWordsReadable(home: string, cli: CliSource, port: nat)
    ensures forall w :: w in LeadingWords(home, cli, port) ==> Readable(w)
  {
    assert Readable(HomeWord(home));
    assert forall w :: w in CliWords(cli) ==> Readable(w);
    ServeWordsReadable(port);
    hide Readable, ServeWords, CliWords, HomeWord;
  }

  lemma LineCons(word: string, more: seq<Spelled>, tail: string)
    ensures Line([Plain(word)] + more, tail) == word + " " + Line(more, tail)
  {
    assert ([Plain(word)] + more)[1..] == more;
    assert Written(Plain(word)) == word + "" == word;
  }

  lemma FourWordsLine(a: string, b: string, c: string, d: string, tail: string)
    ensures Line([Plain(a), Plain(b), Plain(c), Plain(d)], tail) == a + " " + (b + " " + (c + " " + (d + " " + tail)))
  {
    assert Line([], tail) == tail;
    hide Line, Plain;
    LineCons(d, [], tail);
    LineCons(c, [Plain(d)] + [], tail);
    LineCons(b, [Plain(c)] + ([Plain(d)] + []), tail);
    LineCons(a, [Plain(b)] + ([Plain(c)] + ([Plain(d)] + [])), tail);
    assert [Plain(a), Plain(b), Plain(c), Plain(d)] == [Plain(a)] + ([Plain(b)] + ([Plain(c)] + ([Plain(d)] + [])));
  }

  lemma ServeText(rest: string)
    ensures "room" + " " + ("serve" + " " + ("--port" + " " + rest)) == "room serve" + " --port " + rest
  {
  }

  lemma ServeTextEnds(digits: string, tail: string)
    ensures "room serve" + " --port " + (digits + (" --url " + tail)) == "room serve" + " --port " + digits + " --url " + tail
  {
  }

  lemma UrlText(digits: string, tail: string)
    ensures digits + " " + ("--url" + " " + tail) == digits + (" --url " + tail)
  {
  }

  lemma ServeWordsLine(port: nat, tail: string)
    ensures Line(ServeWords(port), tail) == "room serve" + " --port " + Decimal(port) + " --url " + tail
  {
    hide Decimal, Line, Plain;
    var digits := Decimal(port);
    var more := [Plain("serve"), Plain("--port"), Plain(digits), Plain("--url")];
    assert ServeWords(port) == [Plain("room")] + more;
    LineCons("room", more, tail);
    FourWordsLine("serve", "--port", digits, "--url", tail);
    UrlText(digits, tail);
    ServeText(digits + (" --url " + tail));
    ServeTextEnds(digits, tail);
  }

  lemma CliWordsLine(cli: CliSource, tail: string)
    ensures Line(CliWords(cli), tail) == CliInvocation(cli) + " " + tail
  {
    hide ShellSingleQuote;
    match cli
    case HostCli(execPath, entry) =>
      var ws := CliWords(cli);
      assert ws[1..] == [InQuotes(entry)];
      assert Line(ws[1..], tail) == Written(InQuotes(entry)) + " " + tail;
      assert Written(InQuotes(entry)) == ShellSingleQuote(entry) && Written(InQuotes(execPath)) == ShellSingleQuote(execPath);
      assert ShellSingleQuote(execPath) + " " + (ShellSingleQuote(entry) + " " + tail) == CliInvocation(cli) + " " + tail;
    case Fallback =>
      assert Line(CliWords(cli), tail) == Written(Plain("agentgather")) + " " + tail;
  }

  /** The template's text is its words, one blank after each, then the quoted URL and whatever follows it. */
  lemma ServeCommandIsALine(home: string, cli: CliSource, port: nat, url: string, more: string)
    ensures ServeCommand(home, cli, port, url) + more == Line(LeadingWords(home, cli, port), ShellSingleQuote(url) + more)
  {
    hide ShellSingleQuote, Decimal, CliInvocation, Line;
    var tail := ShellSingleQuote(url) + more;
    LineAppends([HomeWord(home)] + CliWords(cli), ServeWords(port), tail);
    LineAppends([HomeWord(home)], CliWords(cli), Line(ServeWords(port), tail));
    ServeWordsLine(port, tail);
    CliWordsLine(cli, Line(ServeWords(port), tail));
    HomeWordLine(home, Line(CliWords(cli), Line(ServeWords(port), tail)));
    var serve := "room serve" + " --port " + Decimal(port) + " --url " + tail;
    assert "AGENTGATHER_HOME=" + ShellSingleQuote(home) + " " + (CliInvocation(cli) + " " + serve)
        == ServeCommand(home, cli, port, url) + more;
  }

  lemma HomeWordLine(home: string, tail: string)
    ensures Line([HomeWord(home)], tail) == "AGENTGATHER_HOME=" + ShellSingleQuote(home) + " " + tail
  {
    hide ShellSingleQuote;
    assert [HomeWord(home)][1..] == [];
  }

  /** Once a command has its first word, later words are arguments whatever they look like. */
  lemma {:induction false} WordsAreArguments(tokens: seq<Token>, rest: seq<Token>, cmd: Command, args: seq<string>)
    requires |tokens| == |args| && forall i :: 0 <= i < |args| ==> tokens[i].Word? && tokens[i].text == args[i]
    requires cmd.argv != [] || args == []
    ensures Interpret(tokens + rest, cmd) == Interpret(rest, cmd.(argv := cmd.argv + args))
    decreases |tokens|
  {
    if tokens == [] {
      assert tokens + rest == rest && cmd.argv + args == cmd.argv;
    } else {
      assert (tokens + rest)[1..] == tokens[1..] + rest;
      WordsAreArguments(tokens[1..], rest, cmd.(argv := cmd.argv + [args[0]]), args[1..]);
      assert cmd.argv + [args[0]] + args[1..] == cmd.argv + args;
    }
  }

  function ServeArguments(cli: CliSource, port: nat): seq<string> {
    CliArguments(cli) + ["room", "serve", "--port", Decimal(port), "--url"]
  }

  const HOME_VARIABLE := "AGENTGATHER_HOME"

  /** An unquoted name and `=` in front of any value make an assignment of exactly that value. */
  lemma AssignmentReads(name: string, value: string)
    requires name != "" && !Digit(name[0]) && forall i :: 0 <= i < |name| ==> NameChar(name[i])
    ensures var text := name + "=" + value;
      AssignedName(text, |name| + 1) == Some(|name|) && text[..|name|] == name && text[|name| + 1..] == value
  {
    var text := name + "=" + value;
    assert text[..|name|] == name && text[|name|] == '=';
    assert '=' !in name;
    FirstOccurrence(text, '=', |name|);
  }

  lemma HomeIsAssigned(home: string)
    ensures var w := Read(HomeWord(home));
      AssignedName(w.text, w.bare) == Some(|HOME_VARIABLE|)
      && w.text[..|HOME_VARIABLE|] == HOME_VARIABLE && w.text[|HOME_VARIABLE| + 1..] == home
  {
    hide AssignedName;
    AssignmentReads(HOME_VARIABLE, home);
    assert HomeWord(home).plain == HOME_VARIABLE + "=";
  }

  lemma FirstCliWord(cli: CliSource)
    ensures var w := Read(CliWords(cli)[0]); AssignedName(w.text, w.bare).None? && w.text == CliArguments(cli)[0]
  {
  }

  lemma LeadingTokens(home: string, cli: CliSource, port: nat, rest: seq<Token>)
    ensures Interpret(ReadAll(LeadingWords(home, cli, port)) + rest, Command([], [], []))
         == Interpret(rest, Command([(HOME_VARIABLE, home)], ServeArguments(cli, port), []))
  {
    hide AssignedName, Decimal, Read;
    var ws := LeadingWords(home, cli, port);
    var tokens, args := ReadAll(ws), ServeArguments(cli, port);
    HomeIsAssigned(home);
    FirstCliWord(cli);
    assert tokens[0] == Read(HomeWord(home)) && tokens[1] == Read(CliWords(cli)[0]);
    var all := tokens + rest;
    assert all[1..] == tokens[1..] + rest && all[1..][0] == tokens[1] && all[1..][1..] == tokens[2..] + rest;
    ArgumentTexts(home, cli, port);
    var named := Command([(HOME_VARIABLE, home)], [], []);
    var first := Command([(HOME_VARIABLE, home)], [args[0]], []);
    NameHome(tokens[0], home, all[1..]);
    assert all == [tokens[0]] + all[1..];
    FirstArgument(tokens[1], tokens[2..] + rest, named);
    assert all[1..] == [tokens[1]] + (tokens[2..] + rest);
    forall i | 0 <= i < |args[1..]| ensures tokens[2..][i].Word? && tokens[2..][i].text == args[1..][i] {
      assert tokens[2..][i] == tokens[i + 2];
    }
    WordsAreArguments(tokens[2..], rest, first, args[1..]);
    assert [args[0]] + args[1..] == args;
  }

  lemma NameHome(token: Token, home: string, rest: seq<Token>)
    requires token == Read(HomeWord(home))
    ensures Interpret([token] + rest, Command([], [], [])) == Interpret(rest, Command([(HOME_VARIABLE, home)], [], []))
  {
    HomeIsAssigned(home);
    var none: seq<(string, string)> := [];
    assert none + [(HOME_VARIABLE, home)] == [(HOME_VARIABLE, home)];
    assert ([token] + rest)[1..] == rest;
  }

  lemma FirstArgument(token: Token, rest: seq<Token>, cmd: Command)
    requires token.Word? && AssignedName(token.text, token.bare).None? && cmd.argv == []
    ensures Interpret([token] + rest, cmd) == Interpret(rest, cmd.(argv := [token.text]))
  {
    assert cmd.argv + [token.text] == [token.text];
    assert ([token] + rest)[1..] == rest;
  }

  lemma ArgumentTexts(home: string, cli: CliSource, port: nat)
    ensures var tokens, args := ReadAll(LeadingWords(home, cli, port)), ServeArguments(cli, port);
      |tokens| == |args| + 1 && forall i :: 1 <= i < |tokens| ==> tokens[i].Word? && tokens[i].text == args[i - 1]
  {
    hide Decimal;
  }

  /** Where the session's output goes: the log, with standard error behind it. */
  function LogTail(logPath: string): string {
    " >> " + ShellSingleQuote(logPath) + " 2>&1"
  }

  function LogTokens(logPath: string): seq<Token> {
    [Operator(">>"), Word(logPath, 0), IoNumber("2"), Operator(">&"), Word("1", 1)]
  }

  lemma LastWordReads()
    ensures Outside("1", NoWord) == Some([Word("1", 1)])
  {
    assert "1"[1..] == "" && Outside("", Reading("1", 1)) == Some([Word("1", 1)]);
  }

  /** A two-character operator ends the word before it, which names the descriptor if it is a bare number. */
  lemma OperatorReads(op: string, rest: string, r: Reading)
    requires |op| == 2 && TwoCharOperator(op) && OperatorChar(op[0])
    ensures Outside(op + rest, r) == Before(FinishedBefore(r, op[0]) + [Operator(op)], Outside(rest, NoWord))
  {
    var s := op + rest;
    assert s[1..][1..] == rest && [s[0], s[1..][0]] == op;
  }

  lemma DuplicationReads()
    ensures Outside("2>&1", NoWord) == Some([IoNumber("2"), Operator(">&"), Word("1", 1)])
  {
    var whole, dup := "2>&1", ">&1";
    PlainStep(whole, NoWord);
    assert whole[1..] == dup == ">&" + "1";
    OperatorReads(">&", "1", Reading("2", 1));
    LastWordReads();
    hide Outside;
    assert Bare(NoWord, '2') == Reading("2", 1);
    assert FinishedBefore(Reading("2", 1), '>') == [IoNumber("2")];
    assert [IoNumber("2")] + [Operator(">&")] + [Word("1", 1)] == [IoNumber("2"), Operator(">&"), Word("1", 1)];
  }

  /** The log's path as one word, and behind it the duplication. */
  lemma LogWordReads(logPath: string)
    ensures Outside(ShellSingleQuote(logPath) + (" " + "2>&1"), NoWord)
         == Some([Word(logPath, 0)] + [IoNumber("2"), Operator(">&"), Word("1", 1)])
  {
    hide Outside, ShellSingleQuote;
    QuoteReads(logPath, " " + "2>&1", NoWord);
    BlankEnds("2>&1", Reading(logPath, 0));
    DuplicationReads();
  }

  lemma AppendReads(log: string, r: Reading)
    ensures Outside(" " + (">>" + (" " + log)), r) == Before(Finished(r), Before([Operator(">>")], Outside(log, NoWord)))
  {
    hide Outside;
    BlankEnds(">>" + (" " + log), r);
    OperatorReads(">>", " " + log, NoWord);
    assert [] + [Operator(">>")] == [Operator(">>")];
    BlankEnds(log, NoWord);
    NothingBefore(Outside(log, NoWord));
  }

  lemma LogTailText(quoted: string)
    ensures " >> " + quoted + " 2>&1" == " " + (">>" + (" " + (quoted + (" " + "2>&1"))))
  {
  }

  lemma LogTailReads(logPath: string, r: Reading)
    ensures Outside(LogTail(logPath), r) == Some(Finished(r) + LogTokens(logPath))
  {
    hide Outside, ShellSingleQuote, Finished;
    LogTailText(ShellSingleQuote(logPath));
    AppendReads(ShellSingleQuote(logPath) + (" " + "2>&1"), r);
    LogWordReads(logPath);
    assert [Operator(">>")] + ([Word(logPath, 0)] + [IoNumber("2"), Operator(">&"), Word("1", 1)]) == LogTokens(logPath);
  }

  lemma ServeTokens(home: string, cli: CliSource, port: nat, url: string, more: string)
    ensures Tokens(ServeCommand(home, cli, port, url) + more)
         == Before(ReadAll(LeadingWords(home, cli, port)), Outside(more, Reading(url, 0)))
  {
    hide Outside, ShellSingleQuote, ServeCommand, LeadingWords, Line;
    ServeCommandIsALine(home, cli, port, url, more);
    LeadingWordsReadable(home, cli, port);
    LineReads(LeadingWords(home, cli, port), ShellSingleQuote(url) + more);
    QuoteReads(url, more, NoWord);
  }

  /** The serve command, on its own, runs the host's CLI in the given home on the given port and URL. */
  lemma ServeCommandParses(home: string, cli: CliSource, port: nat, url: string)
    ensures ParseCommand(ServeCommand(home, cli, port, url))
         == Some(Command([(HOME_VARIABLE, home)], ServeArguments(cli, port) + [url], []))
  {
    hide ReadAll, LeadingWords, ServeArguments, ServeCommand, AssignedName;
    var serve := ServeCommand(home, cli, port, url);
    assert serve + "" == serve;
    ServeTokens(home, cli, port, url, "");
    LeadingTokens(home, cli, port, [Word(url, 0)]);
    LastArgument(Command([(HOME_VARIABLE, home)], ServeArguments(cli, port), []), url, []);
    assert [Word(url, 0)] + [] == [Word(url, 0)];
  }

  lemma LastArgument(cmd: Command, url: string, rest: seq<Token>)
    ensures Interpret([Word(url, 0)] + rest, cmd) == Interpret(rest, cmd.(argv := cmd.argv + [url]))
  {
    assert ([Word(url, 0)] + rest)[1..] == rest;
    assert AssignedName(url, 0).None?;
  }

  lemma LogTokensRedirect(cmd: Command, logPath: string)
    requires cmd.redirections == []
    ensures Interpret(LogTokens(logPath), cmd)
         == Some(cmd.(redirections := [Redirection("1", ">>", logPath), Redirection("2", ">&", "1")]))
  {
    var tokens := LogTokens(logPath);
    assert tokens[2..] == [IoNumber("2"), Operator(">&"), Word("1", 1)] && tokens[2..][3..] == [];
    var none: seq<Redirection> := [];
    assert none + [Redirection("1", ">>", logPath)] + [Redirection("2", ">&", "1")]
        == [Redirection("1", ">>", logPath), Redirection("2", ">&", "1")];
    var one := cmd.(redirections := cmd.redirections + [Redirection("1", ">>", logPath)]);
    assert Interpret(tokens, cmd) == Interpret(tokens[2..], one);
    assert Interpret(tokens[2..], one) == Interpret([], one.(redirections := one.redirections + [Redirection("2", ">&", "1")]));
  }

  lemma SessionCommandParses(home: string, cli: CliSource, port: nat, url: string, logPath: string)
    ensures ParseCommand(SessionCommand(ServeCommand(home, cli, port, url), logPath))
         == Some(Command([(HOME_VARIABLE, home)], ServeArguments(cli, port) + [url],
                         [Redirection("1", ">>", logPath), Redirection("2", ">&", "1")]))
  {
    hide ReadAll, LeadingWords, ServeArguments, ServeCommand, AssignedName, LogTokens, Outside, Interpret, ShellSingleQuote;
    var serve := ServeCommand(home, cli, port, url);
    assert SessionCommand(serve, logPath) == serve + LogTail(logPath);
    ServeTokens(home, cli, port, url, LogTail(logPath));
    LogTailReads(logPath, Reading(url, 0));
    var rest := [Word(url, 0)] + LogTokens(logPath);
    LeadingTokens(home, cli, port, rest);
    var cmd := Command([(HOME_VARIABLE, home)], ServeArguments(cli, port), []);
    LastArgument(cmd, url, LogTokens(logPath));
    LogTokensRedirect(cmd.(argv := cmd.argv + [url]), logPath);
  }

  // ---- the detached command ----

  const TMUX_WORDS := [Plain("tmux"), Plain("new-session"), Plain("-d"), Plain("-s")]

  lemma TmuxText(tail: string)
    ensures "tmux" + " " + ("new-session" + " " + ("-d" + " " + ("-s" + " " + tail))) == "tmux new-session -d -s " + tail
  {
  }

  lemma TmuxLine(tail: string)
    ensures Line(TMUX_WORDS, tail) == "tmux new-session -d -s " + tail
    ensures forall w :: w in TMUX_WORDS ==> Readable(w)
  {
    FourWordsLine("tmux", "new-session", "-d", "-s", tail);
    TmuxText(tail);
    hide Line;
  }

  /** tmux is handed the session name and the session's command line as one argument each. */
  lemma DetachedCommandParses(sessionName: string, inner: string)
    ensures ParseCommand("tmux new-session -d -s " + ShellSingleQuote(sessionName) + " " + ShellSingleQuote(inner))
         == Some(Command([], ["tmux", "new-session", "-d", "-s", sessionName, inner], []))
  {
    hide Outside, ShellSingleQuote, Interpret, AssignedName;
    var detached := "tmux new-session -d -s " + ShellSingleQuote(sessionName) + " " + ShellSingleQuote(inner);
    var last := ShellSingleQuote(inner);
    var tail := ShellSingleQuote(sessionName) + " " + last;
    assert detached == "tmux new-session -d -s " + tail;
    TmuxLine(tail);
    LineReads(TMUX_WORDS, tail);
    assert tail == ShellSingleQuote(sessionName) + (" " + last);
    QuoteReads(sessionName, " " + last, NoWord);
    BlankEnds(last, Reading(sessionName, 0));
    QuoteRoundTrip(inner);
    var tokens := [Word(sessionName, 0), Word(inner, 0)];
    assert Outside(tail, NoWord) == Before([Word(sessionName, 0)], Outside(last, NoWord));
    assert [Word(sessionName, 0)] + [Word(inner, 0)] == tokens;
    var all := ReadAll(TMUX_WORDS) + tokens;
    assert Tokens(detached) == Some(all);
    TmuxArguments(sessionName, inner, all);
  }

  lemma TmuxTexts(sessionName: string, inner: string, all: seq<Token>, args: seq<string>)
    requires all == ReadAll(TMUX_WORDS) + [Word(sessionName, 0), Word(inner, 0)]
    requires args == ["tmux", "new-session", "-d", "-s", sessionName, inner]
    ensures |all| == |args| && forall i :: 0 <= i < |args| ==> all[i].Word? && all[i].text == args[i]
    ensures AssignedName(all[0].text, all[0].bare).None?
  {
    assert '=' !in "tmux";
  }

  lemma TmuxArguments(sessionName: string, inner: string, all: seq<Token>)
    requires all == ReadAll(TMUX_WORDS) + [Word(sessionName, 0), Word(inner, 0)]
    ensures Interpret(all, Command([], [], [])) == Some(Command([], ["tmux", "new-session", "-d", "-s", sessionName, inner], []))
  {
    var args := ["tmux", "new-session", "-d", "-s", sessionName, inner];
    hide Interpret, AssignedName, ReadAll;
    TmuxTexts(sessionName, inner, all, args);
    var first, rest := all[0], all[1..];
    assert all == [first] + rest && rest == rest + [];
    FirstArgument(first, rest, Command([], [], []));
    WordsAreArguments(rest, [], Command([], ["tmux"], []), args[1..]);
    assert ["tmux"] + args[1..] == args;
    NoMoreTokens(Command([], args, []));
  }

  lemma NoMoreTokens(cmd: Command)
    ensures Interpret([], cmd) == Some(cmd)
  {
  }

  /**
   Two rounds of shell parsing give back what the plan was made from: the first hands tmux one
   command line, and the shell tmux starts reads from it the home, the CLI, the port, the URL
   and the log path, whatever characters they hold.
   */
  lemma NestedQuotingRoundTrip(input: LaunchInput, sanitize: string -> string)
    requires 1 <= input.port <= 65_535 && input.tmuxAvailable
    ensures var plan, url := BuildRuntimeLaunchPlan(input, sanitize), sanitize(input.publicUrl);
      && plan.LaunchPlan? && plan.detachedCommand.Some?
      && var outer := ParseCommand(plan.detachedCommand.value);
      && outer.Some? && outer.value.assignments == [] && outer.value.redirections == []
      && |outer.value.argv| == 6 && outer.value.argv[..5] == ["tmux", "new-session", "-d", "-s", input.sessionName]
      && ParseCommand(outer.value.argv[5])
         == Some(Command([(HOME_VARIABLE, input.home)], ServeArguments(input.cli, input.port) + [url],
                         [Redirection("1", ">>", input.logPath), Redirection("2", ">&", "1")]))
  {
    hide ParseCommand, ServeCommand, SessionCommand, ShellSingleQuote, ServeArguments;
    var url := sanitize(input.publicUrl);
    var inner := SessionCommand(ServeCommand(input.home, input.cli, input.port, url), input.logPath);
    DetachedCommandParses(input.sessionName, inner);
    SessionCommandParses(input.home, input.cli, input.port, url, input.logPath);
  }
}

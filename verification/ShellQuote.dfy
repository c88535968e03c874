/**
 The deploy command builders of the terminal UI (src/main.cpp) and a shell tokenizer to read them back:
 token recognition with the quoting of sections 2.2.1 (backslash) and 2.2.2 (single quotes) of the Shell
 Command Language, POSIX.1-2017.  A string is a sequence of bytes.
*/
module ShellQuote {
  import opened Messages

  // ---------------------------------------------------------------- the builders

  function EscapedChar(c: char): string { if c == '\'' then "'\\''" else [c] }

  /** Every single quote becomes close-quote, escaped quote, reopen-quote. */
  function Escaped(s: string): string {
    if s == "" then "" else EscapedChar(s[0]) + Escaped(s[1..])
  }

  lemma Glued(a: string, b: string, c: string)
    ensures a + (b + c) == (a + b) + c
  {
  }

  method ShellSquote(s: string) returns (out: string)
    ensures out == Escaped(s)
  {
    out := "";
    for i := 0 to |s|
      invariant out + Escaped(s[i..]) == Escaped(s)
    {
      var c := s[i];
      assert s[i..][0] == c && s[i..][1..] == s[i + 1..];
      Glued(out, EscapedChar(c), Escaped(s[i + 1..]));
      if c == '\'' {
        out := out + "'\\''";
      } else {
        out := out + [c];
      }
    }
  }

  const TUI_LOG_PATH := "/tmp/lexaire-tui.log"
  const PI_SETUP_DIR := "/workspace/pi-setup"

  /** `words`, each followed by a blank, then `rest`. */
  function Line(words: seq<string>, rest: string): string {
    if words == [] then rest else words[0] + (" " + Line(words[1..], rest))
  }

  const SSH_ARGS := ["ssh", "-o", "BatchMode=yes", "-o", "StrictHostKeyChecking=accept-new"]
  const COMPOSE_ARGS := ["docker", "compose", "-f", "relay/docker-compose.yaml", "up", "-d", "--build"]

  function PublisherDeployCmd(host: string, repo: string): string {
    Line(SSH_ARGS, "'" + (Escaped(host) + ("'" +
    (" 'bash -s -- " + (Escaped(repo) + ("'" +
    (" < " + (PI_SETUP_DIR + ("/deploy-publisher.sh" +
    (" >>" + (TUI_LOG_PATH + " 2>&1")))))))))))
  }

  function Digits(n: nat): string {
    if n < 10 then ["0123456789"[n]] else Digits(n / 10) + ["0123456789"[n % 10]]
  }

  /** The number a string of decimal digits denotes. */
  ghost function NumberOf(digits: string): nat {
    if digits == "" then 0
    else
      var c := digits[|digits| - 1];
      NumberOf(digits[..|digits| - 1]) * 10 + (if '0' <= c <= '9' then c as int - '0' as int else 0)
  }

  predicate Numeral(digits: string) {
    && digits != "" && (forall i :: 0 <= i < |digits| ==> '0' <= digits[i] <= '9')
    && (|digits| > 1 ==> digits[0] != '0')
  }

  /** The text is the number's numeral: digits without leading zeros, behind a minus sign if it is negative. */
  ghost predicate Denotes(text: string, n: int) {
    if n < 0 then text != "" && text[0] == '-' && Numeral(text[1..]) && NumberOf(text[1..]) == -n
    else Numeral(text) && NumberOf(text) == n
  }

  lemma {:induction false} DigitsDenote(n: nat)
    ensures Numeral(Digits(n)) && NumberOf(Digits(n)) == n && (n > 0 ==> Digits(n)[0] != '0')
  {
    DigitIs(n % 10);
    if n >= 10 {
      DigitsDenote(n / 10);
      var front, last := Digits(n / 10), ["0123456789"[n % 10]];
      assert (front + last)[..|front + last| - 1] == front;
    } else {
      assert n % 10 == n;
      assert Digits(n)[..0] == "" && NumberOf("") == 0;
    }
  }

  lemma DigitIs(d: nat)
    requires d < 10
    ensures var c := "0123456789"[d]; '0' <= c <= '9' && c as int - '0' as int == d
  {
  }

  lemma DecimalDenotes(n: int)
    ensures Denotes(Decimal(n), n)
  {
    DigitsDenote(if n < 0 then -n else n);
    if n < 0 {
      assert ("-" + Digits(-n))[1..] == Digits(-n);
    }
  }

  /** std::to_string */
  function Decimal(n: int): string {
    if n < 0 then "-" + Digits(-n) else Digits(n)
  }

  function RelayDeployCmd(host: string, device: string, baud: int): string {
    "DOCKER_HOST='ssh://" + (Escaped(host) + ("'" +
    (" SERIAL_DEVICE='" + (Escaped(device) + ("'" +
    (" SERIAL_BAUD=" + (Decimal(baud) +
    (" " + Line(COMPOSE_ARGS, ">>" + (TUI_LOG_PATH + " 2>&1"))))))))))
  }

  /** What a program receives of a byte string handed over as a C string: everything before the first NUL. */
  function CString(s: string): string {
    if s == "" || s[0] == '\0' then "" else [s[0]] + CString(s[1..])
  }

  // ---------------------------------------------------------------- the tokenizer

  datatype Token = Word(text: string) | IoNumber(text: string) | Operator(text: string)

  /** The word being read: its bytes after quote removal, and whether any of it was quoted. */
  datatype Partial = NoWord | Reading(text: string, quoted: bool)

  predicate Blank(c: char) { c == ' ' || c == '\t' }

  predicate OperatorStart(c: char) {
    c == '<' || c == '>' || c == '&' || c == ';' || c == '|' || c == '(' || c == ')' || c == '\n'
  }

  /** Bytes that start an expansion or another kind of quoting, which sections 2.2.1 and 2.2.2 do not cover. */
  predicate NotCovered(c: char) { c == '"' || c == '$' || c == '`' || c == '\0' }

  /** Bytes that stand for themselves wherever they occur; all the fixed words of the commands consist of these. */
  predicate Plain(c: char) {
    'a' <= c <= 'z' || 'A' <= c <= 'Z' || '0' <= c <= '9' || c == '-' || c == '=' || c == '.' || c == '/' || c == '_'
  }

  predicate AllPlain(s: string) { forall i :: 0 <= i < |s| ==> Plain(s[i]) }

  predicate AllDigits(s: string) { s == "" || ('0' <= s[0] <= '9' && AllDigits(s[1..])) }

  /** The two-byte operators `&&`, `||`, `;;`, `<<`, `>>`, `<&`, `<>`, `>&`, `>|`. */
  predicate OperatorPair(a: char, b: char) {
    || (a == b && (a == '&' || a == '|' || a == ';' || a == '<' || a == '>'))
    || (a == '<' && (b == '&' || b == '>'))
    || (a == '>' && (b == '&' || b == '|'))
  }

  /** The longest operator at the head of `s`. */
  function OperatorLength(s: string): (n: nat)
    requires s != "" && OperatorStart(s[0])
    ensures 0 < n <= |s|
  {
    if |s| >= 3 && s[0] == '<' && s[1] == '<' && s[2] == '-' then 3
    else if |s| >= 2 && OperatorPair(s[0], s[1]) then 2
    else 1
  }

  function Extend(w: Partial, s: string, quoted: bool): Partial {
    match w
    case NoWord => Reading(s, quoted)
    case Reading(text, q) => Reading(text + s, q || quoted)
  }

  /** The token a delimiter ends, if a word was being read. */
  function Ended(w: Partial, delimiter: char): seq<Token> {
    match w
    case NoWord => []
    case Reading(text, quoted) =>
      if !quoted && text != "" && AllDigits(text) && (delimiter == '<' || delimiter == '>')
      then [IoNumber(text)] else [Word(text)]
  }

  function Before(tokens: seq<Token>, rest: Option<seq<Token>>): Option<seq<Token>> {
    match rest
    case None => None
    case Some(later) => Some(tokens + later)
  }

  /** Outside quotes.  None: an unterminated quote, or an expansion or comment, which these sections do not cover. */
  function Lex(s: string, w: Partial): Option<seq<Token>>
    decreases |s|
  {
    if s == "" then Some(Ended(w, ' '))
    else if Blank(s[0]) then Before(Ended(w, ' '), Lex(s[1..], NoWord))
    else if OperatorStart(s[0]) then
      var n := OperatorLength(s);
      Before(Ended(w, s[0]) + [Operator(s[..n])], Lex(s[n..], NoWord))
    else if s[0] == '\'' then LexQuoted(s[1..], Extend(w, "", true))
    else if s[0] == '\\' then
      if |s| == 1 then Some(Ended(Extend(w, "\\", true), ' '))
      else if s[1] == '\n' then Lex(s[2..], w)
      else Lex(s[2..], Extend(w, [s[1]], true))
    else if NotCovered(s[0]) || (s[0] == '#' && w == NoWord) then None
    else Lex(s[1..], Extend(w, [s[0]], false))
  }

  /** Inside single quotes: every byte up to the next single quote is literal. */
  function LexQuoted(s: string, w: Partial): Option<seq<Token>>
    decreases |s|
  {
    if s == "" then None
    else if s[0] == '\'' then Lex(s[1..], w)
    else LexQuoted(s[1..], Extend(w, [s[0]], true))
  }

  function Tokens(command: string): Option<seq<Token>> { Lex(command, NoWord) }

  // ---------------------------------------------------------------- quoting

  /** The escaped form of one quote closes the quotes, adds a quote and opens them again. */
  lemma QuoteIsLiteral(tail: string, w: Partial)
    requires w.Reading? && w.quoted
    ensures LexQuoted("'\\''" + tail, w) == LexQuoted(tail, Reading(w.text + "'", true))
  {
    var s := "'\\''" + tail;
    assert s[1..] == "\\''" + tail;
    assert s[1..][2..] == "'" + tail;
    assert ("'" + tail)[1..] == tail;
    var next := Reading(w.text + "'", true);
    assert LexQuoted(s, w) == Lex(s[1..], w);
    assert Lex(s[1..], w) == Lex("'" + tail, next);
    assert next.text + "" == next.text;
    assert Lex("'" + tail, next) == LexQuoted(tail, next);
  }

  /**
   Inside single quotes, the escaped form of any byte string followed by the closing quote adds exactly that
   string to the word and leaves the quotes.
  */
  lemma {:induction false} EscapedIsLiteral(v: string, rest: string, w: Partial)
    requires w.Reading? && w.quoted
    ensures LexQuoted(Escaped(v) + ("'" + rest), w) == Lex(rest, Reading(w.text + v, true))
  {
    if v == "" {
      assert Escaped(v) + ("'" + rest) == "'" + rest;
      assert w.text + v == w.text;
    } else {
      var tail := Escaped(v[1..]) + ("'" + rest);
      EscapedIsLiteral(v[1..], rest, Reading(w.text + [v[0]], true));
      HeadTail(v);
      Glued(w.text, [v[0]], v[1..]);
      Glued(EscapedChar(v[0]), Escaped(v[1..]), "'" + rest);
      CharIsLiteral(v[0], tail, w);
    }
  }

  lemma HeadTail(v: string)
    requires v != ""
    ensures v == [v[0]] + v[1..]
  {
  }

  lemma CharIsLiteral(c: char, tail: string, w: Partial)
    requires w.Reading? && w.quoted
    ensures LexQuoted(EscapedChar(c) + tail, w) == LexQuoted(tail, Reading(w.text + [c], true))
  {
    if c == '\'' {
      QuoteIsLiteral(tail, w);
    } else {
      assert ([c] + tail)[1..] == tail;
    }
  }

  predicate NoQuote(s: string) { forall i :: 0 <= i < |s| ==> s[i] != '\'' }

  lemma {:induction false} LiteralInQuotes(p: string, rest: string, w: Partial)
    requires w.Reading? && w.quoted && NoQuote(p)
    ensures LexQuoted(p + rest, w) == LexQuoted(rest, Reading(w.text + p, true))
  {
    if p == "" {
      assert p + rest == rest && w.text + p == w.text;
    } else {
      assert (p + rest)[1..] == p[1..] + rest;
      LiteralInQuotes(p[1..], rest, Reading(w.text + [p[0]], true));
      assert w.text + [p[0]] + p[1..] == w.text + p;
    }
  }

  lemma PlainChar(c: char, rest: string, w: Partial)
    requires Plain(c)
    ensures Lex([c] + rest, w) == Lex(rest, Extend(w, [c], false))
  {
    assert ([c] + rest)[1..] == rest;
  }

  lemma ExtendTwice(w: Partial, c: char, tail: string)
    ensures Extend(Extend(w, [c], false), tail, false) == Extend(w, [c] + tail, false)
  {
    if w.Reading? {
      assert w.text + [c] + tail == w.text + ([c] + tail);
    }
  }

  lemma {:induction false} PlainWord(p: string, rest: string, w: Partial)
    requires AllPlain(p) && p != ""
    ensures Lex(p + rest, w) == Lex(rest, Extend(w, p, false))
  {
    var tail := p[1..];
    assert p == [p[0]] + tail;
    assert p + rest == [p[0]] + (tail + rest);
    PlainChar(p[0], tail + rest, w);
    if tail == "" {
      assert tail + rest == rest && p == [p[0]];
    } else {
      PlainWord(tail, rest, Extend(w, [p[0]], false));
      ExtendTwice(w, p[0], tail);
    }
  }

  lemma BeforeBefore(a: seq<Token>, b: seq<Token>, rest: Option<seq<Token>>)
    ensures Before(a, Before(b, rest)) == Before(a + b, rest)
    ensures Before([], rest) == rest
  {
    if rest.Some? {
      assert a + (b + rest.value) == (a + b) + rest.value;
      assert [] + rest.value == rest.value;
    }
  }

  /** A blank ends the word being read. */
  lemma AfterBlank(rest: string, w: Partial)
    ensures Lex(" " + rest, w) == Before(Ended(w, ' '), Tokens(rest))
  {
    assert (" " + rest)[1..] == rest;
  }

  /** A plain word and a blank in front of anything. */
  lemma WordFirst(p: string, rest: string)
    requires AllPlain(p) && p != ""
    ensures Tokens(p + (" " + rest)) == Before([Word(p)], Tokens(rest))
  {
    PlainWord(p, " " + rest, NoWord);
    AfterBlank(rest, Reading(p, false));
  }

  lemma QuoteOpens(body: string, w: Partial)
    ensures Lex("'" + body, w) == LexQuoted(body, Reading(if w.Reading? then w.text else "", true))
  {
    var text := if w.Reading? then w.text else "";
    assert ("'" + body)[1..] == body;
    assert text + "" == text;
    assert Extend(w, "", true) == Reading(text, true);
  }

  /** A single-quoted argument in front of anything: the word is extended by exactly the value. */
  lemma QuotedValue(prefix: string, v: string, rest: string, w: Partial)
    requires NoQuote(prefix)
    ensures Lex("'" + (prefix + (Escaped(v) + ("'" + rest))), w) ==
            Lex(rest, Reading((if w.Reading? then w.text else "") + (prefix + v), true))
  {
    var text := if w.Reading? then w.text else "";
    QuoteOpens(prefix + (Escaped(v) + ("'" + rest)), w);
    LiteralInQuotes(prefix, Escaped(v) + ("'" + rest), Reading(text, true));
    EscapedIsLiteral(v, rest, Reading(text + prefix, true));
    Glued(text, prefix, v);
  }

  // ---------------------------------------------------------------- the two commands

  /** An operator in front of anything that cannot lengthen it. */
  lemma OperatorFirst(op: string, rest: string, w: Partial)
    requires op != "" && OperatorStart(op[0]) && OperatorLength(op + rest) == |op|
    ensures Lex(op + rest, w) == Before(Ended(w, op[0]) + [Operator(op)], Tokens(rest))
  {
    assert (op + rest)[..|op|] == op && (op + rest)[|op|..] == rest;
  }

  lemma OneCharWord(c: char)
    requires Plain(c)
    ensures Tokens([c]) == Some([Word([c])])
  {
    assert [c][1..] == "";
    assert Lex([c], NoWord) == Lex([], Reading([c], false));
  }

  /** Reading resumes after a word: a blank and then anything. */
  lemma NextWord(rest: string, text: string, quoted: bool)
    ensures Lex(" " + rest, Reading(text, quoted)) == Before([Word(text)], Tokens(rest))
  {
    AfterBlank(rest, Reading(text, quoted));
  }

  // What the shell is meant to see of the fixed parts of the commands.

  const SSH_WORDS := [Word("ssh"), Word("-o"), Word("BatchMode=yes"), Word("-o"),
    Word("StrictHostKeyChecking=accept-new")]

  const COMPOSE_WORDS := [Word("docker"), Word("compose"), Word("-f"), Word("relay/docker-compose.yaml"), Word("up"),
    Word("-d"), Word("--build")]

  const LOG_TOKENS := [Operator(">>"), Word("/tmp/lexaire-tui.log"), IoNumber("2"), Operator(">&"), Word("1")]

  const DEPLOY_TOKENS := [Operator("<"), Word("/workspace/pi-setup/deploy-publisher.sh")] + LOG_TOKENS


  lemma RedirectTokens()
    ensures Tokens("2" + (">&" + "1")) == Some([IoNumber("2"), Operator(">&"), Word("1")])
  {
    assert "2"[1..] == "" && "1" == ['1'];
    assert Ended(Reading("2", false), '>') == [IoNumber("2")];
    PlainWord("2", ">&" + "1", NoWord);
    OperatorFirst(">&", "1", Reading("2", false));
    OneCharWord('1');
    assert [IoNumber("2")] + [Operator(">&")] + [Word("1")] == [IoNumber("2"), Operator(">&"), Word("1")];
  }

  /** The redirections at the end of both commands. */
  lemma LogTokens()
    ensures Tokens(">>" + (TUI_LOG_PATH + " 2>&1")) == Some(LOG_TOKENS)
  {
    var redirect := "2" + (">&" + "1");
    assert " 2>&1" == " " + redirect;
    OperatorFirst(">>", TUI_LOG_PATH + (" " + redirect), NoWord);
    WordFirst(TUI_LOG_PATH, redirect);
    RedirectTokens();
    assert [] + [Operator(">>")] + ([Word(TUI_LOG_PATH)] + [IoNumber("2"), Operator(">&"), Word("1")]) == LOG_TOKENS;
  }

  function AsWords(words: seq<string>): seq<Token> {
    if words == [] then [] else [Word(words[0])] + AsWords(words[1..])
  }

  lemma SshWords()
    ensures AsWords(SSH_ARGS) == SSH_WORDS
  {
    FiveWords("ssh", "-o", "BatchMode=yes", "-o", "StrictHostKeyChecking=accept-new");
  }

  lemma FiveWords(a: string, b: string, c: string, d: string, e: string)
    ensures AsWords([a, b, c, d, e]) == [Word(a), Word(b), Word(c), Word(d), Word(e)]
  {
    assert [a, b, c, d, e][1..] == [b, c, d, e];
    assert [b, c, d, e][1..] == [c, d, e];
    assert [c, d, e][1..] == [d, e];
    assert [d, e][1..] == [e] && [e][1..] == [];
    assert AsWords([]) == [];
    assert AsWords([e]) == [Word(e)];
    assert AsWords([d, e]) == [Word(d), Word(e)];
    assert AsWords([c, d, e]) == [Word(c), Word(d), Word(e)];
    assert AsWords([b, c, d, e]) == [Word(b), Word(c), Word(d), Word(e)];
  }

  lemma ComposeWords()
    ensures AsWords(COMPOSE_ARGS) == COMPOSE_WORDS
  {
    SevenWords("docker", "compose", "-f", "relay/docker-compose.yaml", "up", "-d", "--build");
  }

  lemma SevenWords(a: string, b: string, c: string, d: string, e: string, f: string, g: string)
    ensures AsWords([a, b, c, d, e, f, g]) == [Word(a), Word(b), Word(c), Word(d), Word(e), Word(f), Word(g)]
  {
    assert [a, b, c, d, e, f, g][1..] == [b, c, d, e, f, g];
    assert [b, c, d, e, f, g][1..] == [c, d, e, f, g];
    FiveWords(c, d, e, f, g);
    assert AsWords([b, c, d, e, f, g]) == [Word(b)] + AsWords([c, d, e, f, g]);
  }

  lemma {:induction false} LineTokens(words: seq<string>, rest: string)
    requires forall i :: 0 <= i < |words| ==> words[i] != "" && AllPlain(words[i])
    ensures Tokens(Line(words, rest)) == Before(AsWords(words), Tokens(rest))
  {
    if words == [] {
      BeforeBefore([], [], Tokens(rest));
    } else {
      LineTokens(words[1..], rest);
      WordFirst(words[0], Line(words[1..], rest));
      BeforeBefore([Word(words[0])], AsWords(words[1..]), Tokens(rest));
    }
  }

  lemma SshArgsPlain()
    ensures forall i :: 0 <= i < |SSH_ARGS| ==> SSH_ARGS[i] != "" && AllPlain(SSH_ARGS[i])
  {
    assert AllPlain("ssh") && AllPlain("-o");
    assert AllPlain("BatchMode=yes");
    assert AllPlain("StrictHostKeyChecking=accept-new");
  }

  lemma ComposeArgsPlain()
    ensures forall i :: 0 <= i < |COMPOSE_ARGS| ==> COMPOSE_ARGS[i] != "" && AllPlain(COMPOSE_ARGS[i])
  {
    assert AllPlain("docker") && AllPlain("compose") && AllPlain("-f") && AllPlain("up") && AllPlain("-d");
    assert AllPlain("relay/docker-compose.yaml");
    assert AllPlain("--build");
  }

  const SCRIPT := PI_SETUP_DIR + "/deploy-publisher.sh"

  lemma ScriptIs()
    ensures SCRIPT == "/workspace/pi-setup/deploy-publisher.sh"
  {
  }

  lemma ScriptPlain()
    ensures AllPlain(SCRIPT) && SCRIPT != ""
  {
    assert AllPlain(PI_SETUP_DIR) && AllPlain("/deploy-publisher.sh");
  }

  lemma Cut(text: string, a: string, b: string, rest: string)
    requires text == a + b
    ensures text + rest == a + (b + rest)
  {
  }

  lemma DeployText(end: string)
    ensures " < " + (PI_SETUP_DIR + ("/deploy-publisher.sh" + (" >>" + end)))
            == " " + ("<" + (" " + (SCRIPT + (" " + (">>" + end)))))
  {
    Cut(" >>", " ", ">>", end);
    Cut(SCRIPT, PI_SETUP_DIR, "/deploy-publisher.sh", " " + (">>" + end));
    Cut(" < ", " ", "< ", SCRIPT + (" " + (">>" + end)));
    Cut("< ", "<", " ", SCRIPT + (" " + (">>" + end)));
  }

  /** The fixed end of the publisher command, read after a word. */
  lemma DeployTokens(text: string, quoted: bool)
    ensures Lex(" < " + (PI_SETUP_DIR + ("/deploy-publisher.sh" + (" >>" + (TUI_LOG_PATH + " 2>&1")))),
        Reading(text, quoted))
            == Some([Word(text)] + DEPLOY_TOKENS)
  {
    var log := ">>" + (TUI_LOG_PATH + " 2>&1");
    var tail := SCRIPT + (" " + log);
    DeployText(TUI_LOG_PATH + " 2>&1");
    NextWord("<" + (" " + tail), text, quoted);
    OperatorFirst("<", " " + tail, NoWord);
    AfterBlank(tail, NoWord);
    ScriptPlain();
    WordFirst(SCRIPT, log);
    LogTokens();
    BeforeBefore([], [], Tokens(tail));
    ScriptIs();
    assert [] + [Operator("<")] + ([Word(SCRIPT)] + LOG_TOKENS) == DEPLOY_TOKENS;
  }

  /**
   The publisher command, whatever bytes the configured host and repository contain: the shell's words are
   the intended ones, each configured value intact.
  */
  lemma PublisherWords(host: string, repo: string)
    ensures Tokens(PublisherDeployCmd(host, repo)) ==
            Some(SSH_WORDS + ([Word(host), Word("bash -s -- " + repo)] + DEPLOY_TOKENS))
  {
    PublisherText(host, repo);
    SshArgsPlain();
    SshWords();
    DeployTokens("bash -s -- " + repo, true);
    TwoQuoted(SSH_ARGS, host, repo,
      " < " + (PI_SETUP_DIR + ("/deploy-publisher.sh" + (" >>" + (TUI_LOG_PATH + " 2>&1")))), DEPLOY_TOKENS);
  }

  /** Plain words, the quoted host, the quoted remote command, and whatever ends the line. */
  lemma TwoQuoted(args: seq<string>, host: string, repo: string, tail: string, end: seq<Token>)
    requires forall i :: 0 <= i < |args| ==> AllPlain(args[i]) && args[i] != ""
    requires Lex(tail, Reading("bash -s -- " + repo, true)) == Some([Word("bash -s -- " + repo)] + end)
    ensures Tokens(Line(args,
        "'" + ("" + (Escaped(host) + ("'" + (" " + ("'" + ("bash -s -- " + (Escaped(repo) + ("'" + tail)))))))))) ==
            Some(AsWords(args) + ([Word(host), Word("bash -s -- " + repo)] + end))
  {
    var second := "'" + ("bash -s -- " + (Escaped(repo) + ("'" + tail)));
    LineTokens(args, "'" + ("" + (Escaped(host) + ("'" + (" " + second)))));
    HostWord(host, second);
    RepoWord(repo, tail);
    TwoThen(Word(host), Word("bash -s -- " + repo), end);
  }

  lemma TwoThen(a: Token, b: Token, end: seq<Token>)
    ensures [a] + ([b] + end) == [a, b] + end
  {
  }

  /** The quoted host and the blank behind it. */
  lemma HostWord(host: string, second: string)
    ensures Tokens("'" + ("" + (Escaped(host) + ("'" + (" " + second))))) == Before([Word(host)], Tokens(second))
  {
    QuotedValue("", host, " " + second, NoWord);
    assert "" + ("" + host) == host;
    NextWord(second, host, true);
  }

  /** The quoted remote command. */
  lemma RepoWord(repo: string, tail: string)
    ensures Tokens("'" + ("bash -s -- " + (Escaped(repo) + ("'" + tail)))) ==
        Lex(tail, Reading("bash -s -- " + repo, true))
  {
    QuotedValue("bash -s -- ", repo, tail, NoWord);
    assert "" + ("bash -s -- " + repo) == "bash -s -- " + repo;
  }

  lemma {:induction false} DigitsPlain(n: nat)
    ensures AllPlain(Digits(n)) && Digits(n) != ""
  {
    if n >= 10 {
      DigitsPlain(n / 10);
    }
  }

  /** The relay command: two assignments carrying the configured values, the baud rate, and the compose words. */
  lemma RelayWords(host: string, device: string, baud: int)
    ensures Tokens(RelayDeployCmd(host, device, baud)) ==
            Some([Word("DOCKER_HOST=" + ("ssh://" + host)), Word("SERIAL_DEVICE=" + device),
              Word("SERIAL_BAUD=" + Decimal(baud))]
                 + (COMPOSE_WORDS + LOG_TOKENS))
    ensures Denotes(Decimal(baud), baud)
  {
    ComposeWords();
    DecimalDenotes(baud);
    var compose := Line(COMPOSE_ARGS, ">>" + (TUI_LOG_PATH + " 2>&1"));
    var third := "SERIAL_BAUD=" + (Decimal(baud) + (" " + compose));
    var second := "SERIAL_DEVICE=" + ("'" + ("" + (Escaped(device) + ("'" + (" " + third)))));
    var first := "DOCKER_HOST=" + ("'" + ("ssh://" + (Escaped(host) + ("'" + (" " + second)))));
    RelayText(host, device, baud);
    ThirdWord(baud, compose);
    SecondWord(device, " " + third);
    FirstWord(host, " " + second);
    NextWord(second, "DOCKER_HOST=" + ("ssh://" + host), true);
    NextWord(third, "SERIAL_DEVICE=" + device, true);
    NextWord(compose, "SERIAL_BAUD=" + Decimal(baud), false);
    ComposeArgsPlain();
    LineTokens(COMPOSE_ARGS, ">>" + (TUI_LOG_PATH + " 2>&1"));
    LogTokens();
    ThreeThen("DOCKER_HOST=" + ("ssh://" + host), "SERIAL_DEVICE=" + device, "SERIAL_BAUD=" + Decimal(baud),
      Tokens(compose));
  }

  lemma ThreeThen(a: string, b: string, c: string, rest: Option<seq<Token>>)
    ensures Before([Word(a)], Before([Word(b)], Before([Word(c)], rest))) == Before([Word(a), Word(b), Word(c)], rest)
  {
    BeforeBefore([Word(b)], [Word(c)], rest);
    BeforeBefore([Word(a)], [Word(b)] + [Word(c)], rest);
    assert [Word(a)] + ([Word(b)] + [Word(c)]) == [Word(a), Word(b), Word(c)];
  }

  lemma RelayText(host: string, device: string, baud: int)
    ensures RelayDeployCmd(host, device, baud) ==
      "DOCKER_HOST=" + ("'" + ("ssh://" + (Escaped(host) + ("'" + (" " +
      ("SERIAL_DEVICE=" + ("'" + ("" + (Escaped(device) + ("'" + (" " +
      ("SERIAL_BAUD=" + (Decimal(baud) + (" " + Line(COMPOSE_ARGS, ">>" + (TUI_LOG_PATH + " 2>&1"))))))))))))))))
  {
    var compose := Line(COMPOSE_ARGS, ">>" + (TUI_LOG_PATH + " 2>&1"));
    var c := Decimal(baud) + (" " + compose);
    var b := Escaped(device) + ("'" + (" SERIAL_BAUD=" + c));
    var a := Escaped(host) + ("'" + (" SERIAL_DEVICE='" + b));
    RelayNames();
    Cut(" SERIAL_BAUD=", " ", "SERIAL_BAUD=", c);
    Cut(" SERIAL_DEVICE='", " ", "SERIAL_DEVICE='", b);
    Cut("SERIAL_DEVICE='", "SERIAL_DEVICE=", "'", b);
    assert "" + b == b;
    Cut("DOCKER_HOST='ssh://", "DOCKER_HOST=", "'ssh://", a);
    Cut("'ssh://", "'", "ssh://", a);
  }

  lemma RelayNames()
    ensures " SERIAL_BAUD=" == " " + "SERIAL_BAUD=" && " SERIAL_DEVICE='" == " " + "SERIAL_DEVICE='"
    ensures "SERIAL_DEVICE='" == "SERIAL_DEVICE=" + "'"
    ensures "DOCKER_HOST='ssh://" == "DOCKER_HOST=" + "'ssh://" && "'ssh://" == "'" + "ssh://"
  {
  }

  lemma FirstWord(host: string, rest: string)
    ensures Tokens("DOCKER_HOST=" + ("'" + ("ssh://" + (Escaped(host) + ("'" + rest)))))
            == Lex(rest, Reading("DOCKER_HOST=" + ("ssh://" + host), true))
  {
    PlainWord("DOCKER_HOST=", "'" + ("ssh://" + (Escaped(host) + ("'" + rest))), NoWord);
    QuotedValue("ssh://", host, rest, Reading("DOCKER_HOST=", false));
  }

  lemma SecondWord(device: string, rest: string)
    ensures Tokens("SERIAL_DEVICE=" + ("'" + ("" + (Escaped(device) + ("'" + rest)))))
            == Lex(rest, Reading("SERIAL_DEVICE=" + device, true))
  {
    PlainWord("SERIAL_DEVICE=", "'" + ("" + (Escaped(device) + ("'" + rest))), NoWord);
    QuotedValue("", device, rest, Reading("SERIAL_DEVICE=", false));
    assert "" + device == device;
  }

  lemma ThirdWord(baud: int, rest: string)
    ensures Tokens("SERIAL_BAUD=" + (Decimal(baud) + (" " + rest)))
            == Lex(" " + rest, Reading("SERIAL_BAUD=" + Decimal(baud), false))
  {
    DigitsPlain(if baud < 0 then -baud else baud);
    assert AllPlain(Decimal(baud)) && Decimal(baud) != "";
    PlainWord("SERIAL_BAUD=", Decimal(baud) + (" " + rest), NoWord);
    PlainWord(Decimal(baud), " " + rest, Reading("SERIAL_BAUD=", false));
  }

  // ---------------------------------------------------------------- NUL bytes

  predicate NulFree(s: string) { forall i :: 0 <= i < |s| ==> s[i] != '\0' }

  lemma {:induction false} CStringSkips(p: string, q: string)
    requires NulFree(p)
    ensures CString(p + q) == p + CString(q)
  {
    if p == "" {
      assert p + q == q && p + CString(q) == CString(q);
    } else {
      assert (p + q)[1..] == p[1..] + q;
      CStringSkips(p[1..], q);
      assert p == [p[0]] + p[1..];
      assert [p[0]] + (p[1..] + CString(q)) == p + CString(q);
    }
  }

  lemma {:induction false} CStringOfEscaped(v: string, rest: string)
    ensures NulFree(v) ==> NulFree(Escaped(v))
    ensures !NulFree(v) ==> CString(Escaped(v) + rest) == Escaped(CString(v))
  {
    if v != "" {
      var head := if v[0] == '\'' then "'\\''" else [v[0]];
      CStringOfEscaped(v[1..], rest);
      assert Escaped(v) + rest == head + (Escaped(v[1..]) + rest);
      assert v == [v[0]] + v[1..];
      if v[0] != '\0' {
        assert NulFree(head);
        CStringSkips(head, Escaped(v[1..]) + rest);
        if !NulFree(v) {
          assert !NulFree(v[1..]);
          assert CString(v)[1..] == CString(v[1..]);
        }
      } else {
        assert (Escaped(v) + rest)[0] == '\0';
        assert CString(v) == "";
      }
    }
  }

  lemma {:induction false} CStringOfLine(words: seq<string>, rest: string)
    requires forall i :: 0 <= i < |words| ==> AllPlain(words[i])
    ensures CString(Line(words, rest)) == Line(words, CString(rest))
  {
    if words != [] {
      CStringOfLine(words[1..], rest);
      CStringSkips(words[0], " " + Line(words[1..], rest));
      CStringSkips(" ", Line(words[1..], rest));
    }
  }

  /** An escaped value without the closing quote leaves the quote open. */
  lemma {:induction false} QuoteStaysOpen(v: string, w: Partial)
    requires w.Reading? && w.quoted
    ensures LexQuoted(Escaped(v), w) == None
  {
    if v != "" {
      var tail := Escaped(v[1..]);
      QuoteStaysOpen(v[1..], Reading(w.text + [v[0]], true));
      if v[0] == '\'' {
        assert Escaped(v) == "'\\''" + tail;
        QuoteIsLiteral(tail, w);
      } else {
        assert Escaped(v)[1..] == tail;
      }
    }
  }

  /** A single-quoted argument cut off inside its value. */
  lemma CutInQuotes(prefix: string, v: string, rest: string, w: Partial)
    requires NoQuote(prefix) && NulFree(prefix) && !NulFree(v)
    ensures Lex(CString("'" + (prefix + (Escaped(v) + rest))), w) == None
  {
    var body := prefix + (Escaped(v) + rest);
    CStringSkips("'", body);
    CStringSkips(prefix, Escaped(v) + rest);
    CStringOfEscaped(v, rest);
    var cut := Escaped(CString(v));
    assert ("'" + (prefix + cut))[1..] == prefix + cut;
    var text := if w.Reading? then w.text else "";
    assert text + "" == text;
    LiteralInQuotes(prefix, cut, Reading(text, true));
    QuoteStaysOpen(CString(v), Reading(text + prefix, true));
  }

  /** A single-quoted argument without a NUL survives the C string; what follows may be cut. */
  lemma PastQuotes(prefix: string, v: string, rest: string, w: Partial)
    requires NoQuote(prefix) && NulFree(prefix) && NulFree(v)
    ensures Lex(CString("'" + (prefix + (Escaped(v) + ("'" + rest)))), w) ==
            Lex(CString(rest), Reading((if w.Reading? then w.text else "") + (prefix + v), true))
  {
    CStringSkips("'", prefix + (Escaped(v) + ("'" + rest)));
    CStringSkips(prefix, Escaped(v) + ("'" + rest));
    CStringOfEscaped(v, "'" + rest);
    CStringSkips(Escaped(v), "'" + rest);
    CStringSkips("'", rest);
    QuotedValue(prefix, v, CString(rest), w);
  }

  /**
   What the shell receives is a C string.  The publisher command gives it the intended words exactly when
   neither configured value contains a NUL byte.
  */
  lemma PublisherIntact(host: string, repo: string)
    ensures Tokens(CString(PublisherDeployCmd(host, repo))) ==
            Some(SSH_WORDS + ([Word(host), Word("bash -s -- " + repo)] + DEPLOY_TOKENS))
            <==> NulFree(host) && NulFree(repo)
  {
    var tail := " < " + (PI_SETUP_DIR + ("/deploy-publisher.sh" + (" >>" + (TUI_LOG_PATH + " 2>&1"))));
    var second := "'" + ("bash -s -- " + (Escaped(repo) + ("'" + tail)));
    var first := "'" + ("" + (Escaped(host) + ("'" + (" " + second))));
    PublisherText(host, repo);
    SshArgsPlain();
    if NulFree(host) && NulFree(repo) {
      PublisherWords(host, repo);
      PublisherNulFree(host, repo);
    } else {
      CStringOfLine(SSH_ARGS, first);
      LineTokens(SSH_ARGS, CString(first));
      QuotedCut(host, repo, tail);
    }
  }

  /** A NUL in either value leaves a quote open. */
  lemma QuotedCut(host: string, repo: string, tail: string)
    requires !NulFree(host) || !NulFree(repo)
    ensures Tokens(CString("'" +
        ("" + (Escaped(host) + ("'" + (" " + ("'" + ("bash -s -- " + (Escaped(repo) + ("'" + tail)))))))))) == None
  {
    var second := "'" + ("bash -s -- " + (Escaped(repo) + ("'" + tail)));
    if !NulFree(host) {
      CutInQuotes("", host, "'" + (" " + second), NoWord);
    } else {
      PastQuotes("", host, " " + second, NoWord);
      CStringSkips(" ", second);
      NextWord(CString(second), "" + ("" + host), true);
      CutInQuotes("bash -s -- ", repo, "'" + tail, NoWord);
    }
  }

  lemma PublisherText(host: string, repo: string)
    ensures PublisherDeployCmd(host, repo) ==
      Line(SSH_ARGS, "'" + ("" + (Escaped(host) + ("'" + (" " + ("'" + ("bash -s -- " + (Escaped(repo) + ("'" +
      (" < " + (PI_SETUP_DIR + ("/deploy-publisher.sh" + (" >>" + (TUI_LOG_PATH + " 2>&1"))))))))))))))
  {
    var tail := " < " + (PI_SETUP_DIR + ("/deploy-publisher.sh" + (" >>" + (TUI_LOG_PATH + " 2>&1"))));
    var r := Escaped(repo) + ("'" + tail);
    Cut(" 'bash -s -- ", " ", "'bash -s -- ", r);
    Cut("'bash -s -- ", "'", "bash -s -- ", r);
    var h := Escaped(host) + ("'" + (" 'bash -s -- " + r));
    assert "" + h == h;
  }

  lemma PathsNulFree()
    ensures NulFree(PI_SETUP_DIR) && NulFree(TUI_LOG_PATH) && NulFree("/deploy-publisher.sh")
  {
    assert AllPlain(PI_SETUP_DIR) && AllPlain("/deploy-publisher.sh") && AllPlain(TUI_LOG_PATH);
  }

  lemma RedirectionsNulFree()
    ensures NulFree(" < ") && NulFree(" >>") && NulFree(" 2>&1") && NulFree(">>")
  {
  }

  lemma ThreeNulFree(a: string, b: string, c: string)
    requires NulFree(a) && NulFree(b) && NulFree(c)
    ensures NulFree(a + (b + c))
  {
  }

  lemma CStringWhole(s: string)
    requires NulFree(s)
    ensures CString(s) == s
  {
    CStringSkips(s, "");
    assert s + "" == s;
  }

  lemma LogNulFree()
    ensures NulFree(">>" + (TUI_LOG_PATH + " 2>&1")) && NulFree(" >>" + (TUI_LOG_PATH + " 2>&1"))
  {
    PathsNulFree();
    RedirectionsNulFree();
    ThreeNulFree(">>", TUI_LOG_PATH, " 2>&1");
    ThreeNulFree(" >>", TUI_LOG_PATH, " 2>&1");
  }

  lemma TailNulFree()
    ensures NulFree(" < " + (PI_SETUP_DIR + ("/deploy-publisher.sh" + (" >>" + (TUI_LOG_PATH + " 2>&1")))))
  {
    PathsNulFree();
    RedirectionsNulFree();
    LogNulFree();
    var log := " >>" + (TUI_LOG_PATH + " 2>&1");
    ThreeNulFree(PI_SETUP_DIR, "/deploy-publisher.sh", log);
    ThreeNulFree("", " < ", PI_SETUP_DIR + ("/deploy-publisher.sh" + log));
  }

  lemma QuotesNulFree()
    ensures NulFree(" 'bash -s -- ") && NulFree("'")
  {
  }

  lemma PublisherNulFree(host: string, repo: string)
    requires NulFree(host) && NulFree(repo)
    ensures CString(PublisherDeployCmd(host, repo)) == PublisherDeployCmd(host, repo)
  {
    var tail := " < " + (PI_SETUP_DIR + ("/deploy-publisher.sh" + (" >>" + (TUI_LOG_PATH + " 2>&1"))));
    var second := " 'bash -s -- " + (Escaped(repo) + ("'" + tail));
    TailNulFree();
    CStringWhole(tail);
    QuotesNulFree();
    QuotedNulFree(" 'bash -s -- ", repo, tail);
    QuotedNulFree("'", host, second);
    SshArgsPlain();
    CStringOfLine(SSH_ARGS, "'" + (Escaped(host) + ("'" + second)));
  }

  /** One assignment word `name='value'` of what the shell receives. */
  lemma AssignmentReceived(name: string, prefix: string, v: string, rest: string)
    requires AllPlain(name) && name != "" && NoQuote(prefix) && NulFree(prefix)
    ensures Tokens(CString(name + ("'" + (prefix + (Escaped(v) + ("'" + (" " + rest))))))) ==
            if NulFree(v) then Before([Word(name + (prefix + v))], Tokens(CString(rest))) else None
  {
    var quoted := "'" + (prefix + (Escaped(v) + ("'" + (" " + rest))));
    CStringSkips(name, quoted);
    PlainWord(name, CString(quoted), NoWord);
    if !NulFree(v) {
      CutInQuotes(prefix, v, "'" + (" " + rest), Reading(name, false));
    } else {
      PastQuotes(prefix, v, " " + rest, Reading(name, false));
      CStringSkips(" ", rest);
      NextWord(CString(rest), name + (prefix + v), true);
    }
  }

  /** Likewise for the relay command: intact exactly when host and device are free of NUL bytes. */
  lemma RelayIntact(host: string, device: string, baud: int)
    ensures Tokens(CString(RelayDeployCmd(host, device, baud))) ==
            Some([Word("DOCKER_HOST=" + ("ssh://" + host)), Word("SERIAL_DEVICE=" + device),
              Word("SERIAL_BAUD=" + Decimal(baud))]
                 + (COMPOSE_WORDS + LOG_TOKENS))
            <==> NulFree(host) && NulFree(device)
  {
    if NulFree(host) && NulFree(device) {
      RelayWords(host, device, baud);
      RelayNulFree(host, device, baud);
    } else {
      var third := "SERIAL_BAUD=" + (Decimal(baud) + (" " + Line(COMPOSE_ARGS, ">>" + (TUI_LOG_PATH + " 2>&1"))));
      var second := "SERIAL_DEVICE=" + ("'" + ("" + (Escaped(device) + ("'" + (" " + third)))));
      RelayText(host, device, baud);
      NamesPlain();
      AssignmentReceived("DOCKER_HOST=", "ssh://", host, second);
      AssignmentReceived("SERIAL_DEVICE=", "", device, third);
    }
  }

  lemma NamesPlain()
    ensures AllPlain("DOCKER_HOST=") && AllPlain("SERIAL_DEVICE=")
  {
  }

  lemma QuotedNulFree(p: string, v: string, rest: string)
    requires NulFree(p) && NulFree(v) && CString(rest) == rest
    ensures CString(p + (Escaped(v) + ("'" + rest))) == p + (Escaped(v) + ("'" + rest))
  {
    CStringOfEscaped(v, "");
    CStringSkips("'", rest);
    CStringSkips(Escaped(v), "'" + rest);
    CStringSkips(p, Escaped(v) + ("'" + rest));
  }

  lemma AssignedNulFree(name: string, value: string, words: seq<string>, last: string)
    requires NulFree(name) && NulFree(value) && NulFree(last)
    requires forall i :: 0 <= i < |words| ==> AllPlain(words[i])
    ensures CString(name + (value + (" " + Line(words, last)))) == name + (value + (" " + Line(words, last)))
  {
    CStringWhole(last);
    CStringOfLine(words, last);
    CStringSkips(" ", Line(words, last));
    CStringSkips(value, " " + Line(words, last));
    CStringSkips(name, value + (" " + Line(words, last)));
  }

  lemma DecimalNulFree(n: int)
    ensures NulFree(Decimal(n))
  {
    DigitsPlain(if n < 0 then -n else n);
  }

  lemma SerialBaudNulFree()
    ensures NulFree(" SERIAL_BAUD=")
  {
  }

  lemma ComposeNulFree(baud: int)
    ensures var end := " SERIAL_BAUD=" + (Decimal(baud) + (" " + Line(COMPOSE_ARGS, ">>" + (TUI_LOG_PATH + " 2>&1"))));
      CString(end) == end
  {
    LogNulFree();
    ComposeArgsPlain();
    DecimalNulFree(baud);
    SerialBaudNulFree();
    AssignedNulFree(" SERIAL_BAUD=", Decimal(baud), COMPOSE_ARGS, ">>" + (TUI_LOG_PATH + " 2>&1"));
  }

  lemma RelayNulFree(host: string, device: string, baud: int)
    requires NulFree(host) && NulFree(device)
    ensures CString(RelayDeployCmd(host, device, baud)) == RelayDeployCmd(host, device, baud)
  {
    var end := " SERIAL_BAUD=" + (Decimal(baud) + (" " + Line(COMPOSE_ARGS, ">>" + (TUI_LOG_PATH + " 2>&1"))));
    ComposeNulFree(baud);
    QuotedNulFree(" SERIAL_DEVICE='", device, end);
    QuotedNulFree("DOCKER_HOST='ssh://", host, " SERIAL_DEVICE='" + (Escaped(device) + ("'" + end)));
  }
}

/** Commands for the remote shell (internal/remote/remote.go): the quoting of sudoCmd, the
    command and the standard input of WriteFile, read back by a POSIX shell's rules. */
module Sudo {
  import opened Text
  import opened Decimal

  // ----- the shell

  datatype Token = Word(text: string) | Operator(text: string)

  /** Characters that mean something to the shell when they are not quoted. */
  predicate Special(c: char) {
    c in {'|', '&', ';', '<', '>', '(', ')', '$', '`', '"', '*', '?', '[', ']', '#', '~', '{', '}', '!', '\n', '\r'}
  }

  function Prepend(t: Token, rest: Option<seq<Token>>): Option<seq<Token>> {
    match rest case None => None case Some(ts) => Some([t] + ts)
  }

  function Flush(word: Option<string>, rest: Option<seq<Token>>): Option<seq<Token>> {
    match word case None => rest case Some(w) => Prepend(Word(w), rest)
  }

  function Extend(word: Option<string>, more: string): Option<string> {
    match word case None => Some(more) case Some(w) => Some(w + more)
  }

  /** The tokens of a command line for the part of the grammar that the commands use: words with
      backslashes (section 2.2.1 of the Shell Command Language, POSIX.1-2017) and single quotes
      (section 2.2.2), && and >. None for an open quote and for everything else. `word` is the
      word read so far. */
  function Lex(s: string, word: Option<string>): Option<seq<Token>>
    decreases |s|
  {
    if s == "" then Flush(word, Some([]))
    else if s[0] == ' ' || s[0] == '\t' then Flush(word, Lex(s[1..], None))
    else if s[0] == '\'' then
      var n := IndexOf(s[1..], '\'');
      if n == |s| - 1 then None else Lex(s[1..][n + 1..], Extend(word, s[1..][..n]))
    else if s[0] == '\\' then
      if |s| == 1 then None
      else if s[1] == '\n' then Lex(s[2..], word)
      else Lex(s[2..], Extend(word, [s[1]]))
    else if s[0] == '&' && |s| > 1 && s[1] == '&' then Flush(word, Prepend(Operator("&&"), Lex(s[2..], None)))
    else if s[0] == '>' && |s| > 1 && s[1] == ' ' && word == None then Prepend(Operator(">"), Lex(s[1..], None))
    else if Special(s[0]) then None
    else Lex(s[1..], Extend(word, [s[0]]))
  }

  function Tokens(s: string): Option<seq<Token>> {
    Lex(s, None)
  }

  // ----- the program

  /** strings.ReplaceAll(cmd, "'", `'\''`). */
  function Escape(cmd: string): string
    decreases |cmd|
  {
    var n := IndexOf(cmd, '\'');
    if n == |cmd| then cmd else cmd[..n] + "'\\''" + Escape(cmd[n + 1..])
  }

  function Quoted(cmd: string): string {
    "'" + Escape(cmd) + "'"
  }

  function Shell(cmd: string): string {
    "sh" + " " + ("-c" + " " + Quoted(cmd))
  }

  function Flags(password: bool): string {
    if password then "-S" + " " + ("-p" + " " + ("'" + "" + "'")) else "-n"
  }

  class Client {
    var sudo: bool
    var sudoPassword: string

    constructor (useSudo: bool)
      ensures sudo == useSudo && sudoPassword == ""
    {
      sudo, sudoPassword := useSudo, "";
    }

    method SetSudoPassword(pw: string)
      modifies this
      ensures sudoPassword == pw && sudo == old(sudo)
    {
      sudoPassword := pw;
    }

    function SudoCmd(cmd: string): string
      reads this
    {
      if !sudo then cmd
      else "sudo" + " " + (Flags(sudoPassword != "") + " " + Shell(cmd))
    }

    function InteractiveSudoCmd(cmd: string): string
      reads this
    {
      if !sudo then cmd else "sudo" + " " + Shell(cmd)
    }

    /** sudoStdin; None is a process without standard input. */
    function SudoStdin(base: Option<string>): Option<string>
      reads this
    {
      if !sudo || sudoPassword == "" then base
      else
        match base
        case None => Some(sudoPassword + "\n")
        case Some(content) => Some(sudoPassword + "\n" + content)
    }
  }

  function OctalText(mode: nat): (s: string)
    ensures s != "" && AllDigits(s)
  {
    if mode < 8 then [DigitChar(mode)] else OctalText(mode / 8) + [DigitChar(mode % 8)]
  }

  function SingleQuoted(path: string): string {
    "'" + path + "'"
  }

  /** The command of WriteFile for a path and the directory it is in. */
  function WriteFileCmd(dir: string, path: string, mode: nat): string {
    "mkdir" + " " + ("-p" + " " + (SingleQuoted(dir) + " && "
    + ("cat" + " " + (">" + " " + (SingleQuoted(path) + " && "
    + ("chmod" + " " + (OctalText(mode) + " " + SingleQuoted(path))))))))
  }

  // ----- quoting

  /** Up to the first quote of the text. */
  lemma QuotedStep(a: string, b: string, rest: string, word: Option<string>)
    requires Lacks(a, '\'')
    ensures Lex("'" + (a + "'\\''" + Escape(b)) + "'" + rest, word)
            == Lex(Quoted(b) + rest, Extend(Extend(word, a), "'"))
  {
    var tail := Quoted(b) + rest;
    QuotedSplit("'", a, "\\'", Escape(b), rest);
    assert "'" + "\\'" + "'" == "'\\''";
    LexQuote(a, "\\'" + tail, word);
    LexBackslash(tail, Extend(word, a));
  }

  lemma SplitAt(s: string, n: nat, mark: string)
    requires n < |s| && mark == [s[n]]
    ensures s == s[..n] + mark + s[n + 1..]
  {
  }

  /** A quoted text adds itself to the word that is being read, whatever it holds. */
  lemma {:induction false} QuotedIsOneWord(cmd: string, rest: string, word: Option<string>)
    ensures Lex(Quoted(cmd) + rest, word) == Lex(rest, Extend(word, cmd))
    decreases |cmd|
  {
    var n := IndexOf(cmd, '\'');
    if n == |cmd| {
      LexQuote(cmd, rest, word);
    } else {
      var a, b := cmd[..n], cmd[n + 1..];
      SplitAt(cmd, n, "'");
      QuotedStep(a, b, rest, word);
      QuotedIsOneWord(b, rest, Extend(Extend(word, a), "'"));
      ExtendAll(word, a, b);
    }
  }

  lemma QuotedSplit(q: string, a: string, mark: string, e: string, rest: string)
    ensures q + (a + (q + mark + q) + e) + q + rest == q + a + q + (mark + (q + e + q + rest))
  {
  }

  lemma ExtendAll(word: Option<string>, a: string, b: string)
    ensures Extend(Extend(Extend(word, a), "'"), b) == Extend(word, a + "'" + b)
  {
    match word
    case None =>
    case Some(w) => assert w + a + "'" + b == w + (a + "'" + b);
  }

  lemma LexQuote(a: string, rest: string, word: Option<string>)
    requires Lacks(a, '\'')
    ensures Lex("'" + a + "'" + rest, word) == Lex(rest, Extend(word, a))
  {
    var s := "'" + a + "'" + rest;
    assert s[1..] == a + ['\''] + rest;
    IndexOfAt(a, '\'', rest);
    assert s[1..][..|a|] == a;
    assert s[1..][|a| + 1..] == rest;
  }

  lemma LexBackslash(rest: string, word: Option<string>)
    ensures Lex("\\'" + rest, word) == Lex(rest, Extend(word, "'"))
  {
    var s := "\\'" + rest;
    assert s[0] == '\\' && s[1] == '\'' && s[2..] == rest;
    assert [s[1]] == "'";
  }

  predicate Ordinary(w: string) {
    forall i :: 0 <= i < |w| ==> !Special(w[i]) && w[i] != ' ' && w[i] != '\t' && w[i] != '\'' && w[i] != '\\'
  }

  lemma {:induction false} LexOrdinary(w: string, rest: string, word: Option<string>)
    requires Ordinary(w) && w != ""
    ensures Lex(w + rest, word) == Lex(rest, Extend(word, w))
    decreases |w|
  {
    var s := w + rest;
    assert s[0] == w[0] && s[1..] == w[1..] + rest;
    if |w| == 1 {
      assert w[1..] + rest == rest;
      assert [w[0]] == w;
    } else {
      LexOrdinary(w[1..], rest, Extend(word, [w[0]]));
      assert w == [w[0]] + w[1..];
      match word
      case None =>
      case Some(v) => assert v + [w[0]] + w[1..] == v + w;
    }
  }

  /** An ordinary word with a blank behind it. */
  lemma LexWord(w: string, rest: string)
    requires Ordinary(w) && w != ""
    ensures Lex(w + " " + rest, None) == Prepend(Word(w), Lex(rest, None))
  {
    assert w + " " + rest == w + (" " + rest);
    LexOrdinary(w, " " + rest, None);
    assert (" " + rest)[1..] == rest;
  }

  lemma RowOne(a: Token)
    ensures Prepend(a, Some([])) == Some([a])
  {
    assert [a] + [] == [a];
  }

  lemma RowThree(a: Token, b: Token, c: Token)
    ensures Prepend(a, Prepend(b, Prepend(c, Some([])))) == Some([a, b, c])
  {
    RowOne(c);
    assert [b] + [c] == [b, c];
    assert [a] + [b, c] == [a, b, c];
  }

  lemma RowFour(a: Token, b: Token, c: Token, d: Token, ts: seq<Token>)
    ensures Prepend(a, Prepend(b, Prepend(c, Prepend(d, Some(ts))))) == Some([a, b, c, d] + ts)
  {
    assert [a] + ([b] + ([c] + ([d] + ts))) == [a, b, c, d] + ts;
  }

  /** "sh -c" and a quoted command. */
  lemma ShellTokens(cmd: string)
    ensures Lex(Shell(cmd), None) == Prepend(Word("sh"), Prepend(Word("-c"), Prepend(Word(cmd), Some([]))))
  {
    var q := Quoted(cmd);
    QuotedIsOneWord(cmd, "", None);
    assert q + "" == q;
    LexWord("-c", q);
    LexWord("sh", "-c" + " " + q);
  }

  lemma FlagTokens(password: bool, rest: string)
    ensures Lex(Flags(password) + " " + rest, None)
            == if password then Prepend(Word("-S"), Prepend(Word("-p"), Prepend(Word(""), Lex(rest, None))))
               else Prepend(Word("-n"), Lex(rest, None))
  {
    if password {
      EmptyWord(rest);
      var r1 := "'" + "" + "'" + (" " + rest);
      LexWord("-p", r1);
      var r2 := "-p" + " " + r1;
      LexWord("-S", r2);
      FlagsApart("-S" + " ", "-p" + " ", "'" + "" + "'", " ", rest);
    } else {
      LexWord("-n", rest);
    }
  }

  lemma EmptyWord(rest: string)
    ensures Lex("'" + "" + "'" + (" " + rest), None) == Prepend(Word(""), Lex(rest, None))
  {
    LexQuote("", " " + rest, None);
    assert (" " + rest)[1..] == rest;
  }

  lemma FlagsApart(a: string, b: string, c: string, d: string, e: string)
    ensures a + (b + c) + d + e == a + (b + (c + (d + e)))
  {
  }

  /** For every command: the shell that ssh starts sees sudo, its flags, sh, -c and exactly the
      command as one word. Without sudo it gets the command itself. */
  lemma SudoCmdTokens(c: Client, cmd: string)
    ensures !c.sudo ==> c.SudoCmd(cmd) == cmd && c.InteractiveSudoCmd(cmd) == cmd
    ensures c.sudo ==> Tokens(c.SudoCmd(cmd)) == Some(
      if c.sudoPassword != "" then
        [Word("sudo"), Word("-S"), Word("-p"), Word("")] + [Word("sh"), Word("-c"), Word(cmd)]
      else [Word("sudo"), Word("-n")] + [Word("sh"), Word("-c"), Word(cmd)])
    ensures c.sudo ==> Tokens(c.InteractiveSudoCmd(cmd)) == Some([Word("sudo")] + [Word("sh"), Word("-c"), Word(cmd)])
  {
    ShellTokens(cmd);
    RowThree(Word("sh"), Word("-c"), Word(cmd));
    LexWord("sudo", Shell(cmd));
    FlagTokens(c.sudoPassword != "", Shell(cmd));
    LexWord("sudo", Flags(c.sudoPassword != "") + " " + Shell(cmd));
    var tail := [Word("sh"), Word("-c"), Word(cmd)];
    if c.sudoPassword != "" {
      RowFour(Word("sudo"), Word("-S"), Word("-p"), Word(""), tail);
    } else {
      assert [Word("sudo")] + ([Word("-n")] + tail) == [Word("sudo"), Word("-n")] + tail;
    }
  }

  // ----- WriteFile

  // Octal numbers.

  function OctalValue(s: string): nat
    requires AllDigits(s)
  {
    if s == "" then 0 else OctalValue(s[..|s| - 1]) * 8 + DigitValue(s[|s| - 1])
  }

  /** The mode is written in octal. */
  lemma {:induction false} OctalReads(mode: nat)
    ensures OctalValue(OctalText(mode)) == mode && forall i :: 0 <= i < |OctalText(mode)| ==> OctalText(mode)[i] <= '7'
  {
    var s := OctalText(mode);
    if mode < 8 {
      assert s[..|s| - 1] == "";
    } else {
      assert s[..|s| - 1] == OctalText(mode / 8);
      OctalReads(mode / 8);
    }
  }

  lemma LexSpace(rest: string, word: Option<string>)
    ensures Lex(" " + rest, word) == Flush(word, Lex(rest, None))
  {
    assert (" " + rest)[1..] == rest;
  }

  lemma LexAnd(rest: string)
    ensures Lex("&&" + rest, None) == Prepend(Operator("&&"), Lex(rest, None))
  {
    assert ("&&" + rest)[2..] == rest;
  }

  lemma AndThen(w: string, rest: string)
    ensures Lex(" && " + rest, Some(w)) == Prepend(Word(w), Prepend(Operator("&&"), Lex(rest, None)))
  {
    LexSpace(rest, None);
    LexAnd(" " + rest);
    LexSpace("&&" + (" " + rest), Some(w));
    assert " " + ("&&" + (" " + rest)) == " && " + rest;
  }

  lemma QuotedThen(path: string, rest: string)
    requires Lacks(path, '\'')
    ensures Lex(SingleQuoted(path) + " && " + rest, None)
            == Prepend(Word(path), Prepend(Operator("&&"), Lex(rest, None)))
  {
    LexQuote(path, " && " + rest, None);
    AndThen(path, rest);
    ConcatAssoc(SingleQuoted(path), " && ", rest);
  }

  lemma RedirectTo(rest: string)
    ensures Lex(">" + " " + rest, None) == Prepend(Operator(">"), Lex(rest, None))
  {
    var s := ">" + " " + rest;
    assert s[1..] == " " + rest;
    assert (" " + rest)[1..] == rest;
  }

  lemma OctalOrdinary(mode: nat)
    ensures Ordinary(OctalText(mode))
  {
    var s := OctalText(mode);
    forall i | 0 <= i < |s| ensures !Special(s[i]) && s[i] != ' ' && s[i] != '\t' && s[i] != '\'' && s[i] != '\\' {
      assert IsDigit(s[i]);
    }
  }

  lemma QuotedLast(path: string)
    requires Lacks(path, '\'')
    ensures Lex(SingleQuoted(path), None) == Prepend(Word(path), Some([]))
  {
    LexQuote(path, "", None);
    assert SingleQuoted(path) + "" == SingleQuoted(path);
    assert Lex("", Some(path)) == Prepend(Word(path), Some([]));
  }

  lemma ChmodPart(path: string, mode: nat)
    requires Lacks(path, '\'')
    ensures Lex("chmod" + " " + (OctalText(mode) + " " + SingleQuoted(path)), None)
            == Some([Word("chmod"), Word(OctalText(mode)), Word(path)])
  {
    var q := SingleQuoted(path);
    QuotedLast(path);
    OctalOrdinary(mode);
    LexWord(OctalText(mode), q);
    LexWord("chmod", OctalText(mode) + " " + q);
    RowThree(Word("chmod"), Word(OctalText(mode)), Word(path));
  }

  lemma CatPart(path: string, rest: string, tail: seq<Token>)
    requires Lacks(path, '\'') && Lex(rest, None) == Some(tail)
    ensures Lex("cat" + " " + (">" + " " + (SingleQuoted(path) + " && " + rest)), None)
            == Some([Word("cat"), Operator(">"), Word(path), Operator("&&")] + tail)
  {
    var r1 := SingleQuoted(path) + " && " + rest;
    QuotedThen(path, rest);
    RedirectTo(r1);
    LexWord("cat", ">" + " " + r1);
    RowFour(Word("cat"), Operator(">"), Word(path), Operator("&&"), tail);
  }

  lemma MkdirPart(dir: string, rest: string, tail: seq<Token>)
    requires Lacks(dir, '\'') && Lex(rest, None) == Some(tail)
    ensures Lex("mkdir" + " " + ("-p" + " " + (SingleQuoted(dir) + " && " + rest)), None)
            == Some([Word("mkdir"), Word("-p"), Word(dir), Operator("&&")] + tail)
  {
    var r1 := SingleQuoted(dir) + " && " + rest;
    QuotedThen(dir, rest);
    LexWord("-p", r1);
    LexWord("mkdir", "-p" + " " + r1);
    RowFour(Word("mkdir"), Word("-p"), Word(dir), Operator("&&"), tail);
  }

  /** With paths free of single quotes, which the callers promise, the shell reads the command of
      WriteFile as written: make the directory, write the file, set its mode. */
  lemma WriteFileCmdTokens(dir: string, path: string, mode: nat)
    requires Lacks(dir, '\'') && Lacks(path, '\'')
    ensures Tokens(WriteFileCmd(dir, path, mode)) == Some(
      [Word("mkdir"), Word("-p"), Word(dir), Operator("&&")]
      + ([Word("cat"), Operator(">"), Word(path), Operator("&&")]
         + [Word("chmod"), Word(OctalText(mode)), Word(path)]))
  {
    var chmod := "chmod" + " " + (OctalText(mode) + " " + SingleQuoted(path));
    ChmodPart(path, mode);
    var tail := [Word("chmod"), Word(OctalText(mode)), Word(path)];
    CatPart(path, chmod, tail);
    MkdirPart(dir, "cat" + " " + (">" + " " + (SingleQuoted(path) + " && " + chmod)),
              [Word("cat"), Operator(">"), Word(path), Operator("&&")] + tail);
  }

  /** Through sudo the inner shell gets the command of WriteFile unchanged. */
  lemma SudoWriteFile(c: Client, dir: string, path: string, mode: nat)
    requires c.sudo && Lacks(dir, '\'') && Lacks(path, '\'')
    ensures var outer := Tokens(c.SudoCmd(WriteFileCmd(dir, path, mode)));
            outer.Some? && |outer.value| > 0
            && var last := outer.value[|outer.value| - 1];
               last.Word? && Tokens(last.text) == Some(
                 [Word("mkdir"), Word("-p"), Word(dir), Operator("&&")]
                 + ([Word("cat"), Operator(">"), Word(path), Operator("&&")]
                    + [Word("chmod"), Word(OctalText(mode)), Word(path)]))
  {
    SudoCmdTokens(c, WriteFileCmd(dir, path, mode));
    WriteFileCmdTokens(dir, path, mode);
  }

  // ----- the password on standard input

  /** sudo -S takes the first line; the command gets the rest. */
  function FirstLine(stdin: string): (string, string) {
    var n := IndexOf(stdin, '\n');
    if n == |stdin| then (stdin, "") else (stdin[..n], stdin[n + 1..])
  }

  /** The password and the content arrive where they belong exactly when the password is on one
      line; without content the command gets nothing. */
  lemma StdinSplits(c: Client, content: string)
    ensures var with, without := c.SudoStdin(Some(content)), c.SudoStdin(None);
            if c.sudo && c.sudoPassword != "" then
              with.Some? && without == c.SudoStdin(Some(""))
              && (FirstLine(with.value) == (c.sudoPassword, content) <==> NewlineFree(c.sudoPassword))
            else with == Some(content) && without == None
  {
    if c.sudo && c.sudoPassword != "" {
      PasswordFirst(c, content);
    }
  }

  lemma PasswordFirst(c: Client, content: string)
    requires c.sudo && c.sudoPassword != ""
    ensures c.SudoStdin(Some(content)).Some?
    ensures FirstLine(c.SudoStdin(Some(content)).value) == (c.sudoPassword, content) <==> NewlineFree(c.sudoPassword)
    ensures c.SudoStdin(None) == c.SudoStdin(Some(""))
  {
    var pw := c.sudoPassword;
    var s := pw + ['\n'] + content;
    assert c.SudoStdin(Some(content)).value == s;
    assert pw + "\n" + "" == pw + "\n";
    if NewlineFree(pw) {
      IndexOfAt(pw, '\n', content);
      assert s[..|pw|] == pw && s[|pw| + 1..] == content;
    } else {
      var i :| 0 <= i < |pw| && pw[i] == '\n';
      assert s[i] == '\n';
      assert IndexOf(s, '\n') <= i;
    }
  }
}

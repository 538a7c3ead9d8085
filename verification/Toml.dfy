/** The TOML subset of internal/config/toml.go: reading lines into assignments,
    overlaying them onto a configuration record, and printing the record. */
module Toml {
  import opened Text
  import opened Decimal
  import opened ConfigModel

  datatype ParseError =
    | MalformedHeader | ExpectedKeyValue | InvalidKey
    | MissingValue | InvalidValue | UnterminatedString | InvalidEscape | TrailingText
    | UnknownSection | UnknownKey | WrongType

  // ----- quoted strings

  function Escape(s: string): string {
    if s == "" then ""
    else if s[0] == '\\' || s[0] == '"' then ['\\', s[0]] + Escape(s[1..])
    else [s[0]] + Escape(s[1..])
  }

  /** quote: double quotes around the text, backslashes and double quotes escaped. */
  function Quote(s: string): string {
    "\"" + Escape(s) + "\""
  }

  /** unescape: the character that the escape at the start of s (a backslash) stands for. */
  function Unescape(s: string): Result<char, ParseError>
    requires s != ""
  {
    if |s| == 1 then Err(UnterminatedString)
    else if s[1] == '"' || s[1] == '\\' then Ok(s[1])
    else Err(InvalidEscape)
  }

  datatype Quoted = Quoted(text: string, rest: string)

  /** What a literal means once its opening quote is read: the decoded text and what
      follows the closing quote. */
  function DecodeBody(s: string): Result<Quoted, ParseError> {
    if s == "" then Err(UnterminatedString)
    else if s[0] == '"' then Ok(Quoted("", s[1..]))
    else if s[0] == '\\' then
      match Unescape(s)
      case Err(e) => Err(e)
      case Ok(c) => Prefixed(c, DecodeBody(s[2..]))
    else Prefixed(s[0], DecodeBody(s[1..]))
  }

  function Prefixed(c: char, r: Result<Quoted, ParseError>): Result<Quoted, ParseError> {
    if r.Ok? then Ok(Quoted([c] + r.value.text, r.value.rest)) else r
  }

  /** The same with a text already decoded in front. */
  function After(done: string, r: Result<Quoted, ParseError>): Result<Quoted, ParseError> {
    if r.Ok? then Ok(Quoted(done + r.value.text, r.value.rest)) else r
  }

  lemma AfterPrefixed(done: string, c: char, r: Result<Quoted, ParseError>)
    ensures After(done, Prefixed(c, r)) == After(done + [c], r)
  {
    if r.Ok? {
      assert done + ([c] + r.value.text) == done + [c] + r.value.text;
    }
  }

  /** parseQuoted: the scan over an index and a builder finds exactly what the literal means. */
  method ParseQuoted(s: string) returns (r: Result<Quoted, ParseError>)
    requires s != "" && s[0] == '"'
    ensures r == DecodeBody(s[1..])
  {
    var b := "";
    var i := 1;
    assert DecodeBody(s[1..]) == After("", DecodeBody(s[1..])) by {
      var d := DecodeBody(s[1..]);
      if d.Ok? { assert "" + d.value.text == d.value.text; }
    }
    while i < |s|
      invariant 1 <= i <= |s|
      invariant DecodeBody(s[1..]) == After(b, DecodeBody(s[i..]))
    {
      ghost var t := s[i..];
      if s[i] == '\\' {
        var decoded := Unescape(s[i..]);
        if decoded.Err? {
          return Err(decoded.error);
        }
        assert t[2..] == s[i + 2..];
        AfterPrefixed(b, decoded.value, DecodeBody(s[i + 2..]));
        b := b + [decoded.value];
        i := i + 2;
      } else if s[i] == '"' {
        assert t[1..] == s[i + 1..];
        assert b + "" == b;
        return Ok(Quoted(b, s[i + 1..]));
      } else {
        assert t[1..] == s[i + 1..];
        AfterPrefixed(b, s[i], DecodeBody(s[i + 1..]));
        b := b + [s[i]];
        i := i + 1;
      }
    }
    return Err(UnterminatedString);
  }

  /** Reading a quoted text gives the text back, whatever follows the literal. */
  lemma {:induction false} DecodeQuote(s: string, rest: string)
    ensures Quote(s)[0] == '"'
    ensures DecodeBody((Quote(s) + rest)[1..]) == Ok(Quoted(s, rest))
  {
    DecodeEscape(s, rest);
    assert (Quote(s) + rest)[1..] == Escape(s) + "\"" + rest;
  }

  lemma {:induction false} DecodeEscape(s: string, rest: string)
    ensures DecodeBody(Escape(s) + "\"" + rest) == Ok(Quoted(s, rest))
  {
    var t := Escape(s) + "\"" + rest;
    if s == "" {
      assert t[1..] == rest;
    } else {
      DecodeEscape(s[1..], rest);
      var u := Escape(s[1..]) + "\"" + rest;
      if s[0] == '\\' || s[0] == '"' {
        assert t[0] == '\\' && t[1] == s[0];
        assert t[2..] == u;
      } else {
        assert t[0] == s[0];
        assert t[1..] == u;
      }
      assert s == [s[0]] + s[1..];
    }
  }

  /** The other way round: a literal that is accepted is, letter for letter, the quoted form
      of what it decodes to. */
  lemma {:induction false} DecodedIsQuoted(s: string, q: Quoted)
    requires s != "" && s[0] == '"'
    requires DecodeBody(s[1..]) == Ok(q)
    ensures s == Quote(q.text) + q.rest
  {
    DecodedIsEscaped(s[1..], q);
    assert s == "\"" + s[1..];
  }

  lemma {:induction false} DecodedIsEscaped(s: string, q: Quoted)
    requires DecodeBody(s) == Ok(q)
    ensures s == Escape(q.text) + "\"" + q.rest
  {
    if s[0] == '"' {
      assert s == "\"" + s[1..];
    } else {
      var n := if s[0] == '\\' then 2 else 1;
      var tail := DecodeBody(s[n..]).value;
      DecodedIsEscaped(s[n..], tail);
      assert q.text[1..] == tail.text;
      assert s == s[..n] + s[n..];
    }
  }

  // ----- values

  /** ensureCommentOnly: nothing, or a comment, may follow a string value. */
  function EnsureCommentOnly(rest: string): Result<(), ParseError> {
    var t := Trim(rest);
    if t == "" || t[0] == '#' then Ok(()) else Err(TrailingText)
  }

  function ParseStringValue(s: string): Result<Scalar, ParseError>
    requires s != "" && s[0] == '"'
  {
    match DecodeBody(s[1..])
    case Err(e) => Err(e)
    case Ok(q) =>
      match EnsureCommentOnly(q.rest)
      case Err(e) => Err(e)
      case Ok(_) => Ok(Str(q.text))
  }

  /** The bare token in front of a comment. */
  function BareToken(s: string): string {
    Trim(s[..IndexOf(s, '#')])
  }

  function ParseBoolValue(s: string): Result<Scalar, ParseError> {
    if BareToken(s) == "true" then Ok(Bool(true))
    else if BareToken(s) == "false" then Ok(Bool(false))
    else Err(InvalidValue)
  }

  function ParseIntValue(s: string): Result<Scalar, ParseError> {
    if BareToken(s) == "" then Err(MissingValue)
    else
      match Atoi(BareToken(s))
      case None => Err(InvalidValue)
      case Some(n) => Ok(Int(n))
  }

  function ParseValue(s: string): Result<Scalar, ParseError> {
    if s == "" then Err(MissingValue)
    else if s[0] == '"' then ParseStringValue(s)
    else if s[0] == 't' || s[0] == 'f' then ParseBoolValue(s)
    else ParseIntValue(s)
  }

  // ----- lines

  /** What a trimmed line says, before the schema is consulted. */
  datatype Item = Skip | Header(name: string) | Entry(key: string, val: Scalar)

  function ParseSectionHeader(line: string): Result<string, ParseError>
    requires line != "" && line[0] == '['
  {
    if line[|line| - 1] != ']' then Err(MalformedHeader)
    else
      var name := Trim(line[1..|line| - 1]);
      if name == "" || !Lacks(name, '[') || !Lacks(name, ']') then Err(MalformedHeader) else Ok(name)
  }

  predicate ValidKey(key: string) {
    && key != ""
    && Lacks(key, ' ') && Lacks(key, '\t') && Lacks(key, '"')
    && Lacks(key, '[') && Lacks(key, ']') && Lacks(key, '#')
  }

  /** A key and the text behind its equals sign. */
  function MakeEntry(left: string, right: string): Result<Item, ParseError> {
    if !ValidKey(Trim(left)) then Err(InvalidKey)
    else
      match ParseValue(Trim(right))
      case Err(e) => Err(e)
      case Ok(v) => Ok(Entry(Trim(left), v))
  }

  function ParseKeyValue(line: string): Result<Item, ParseError> {
    var eq := IndexOf(line, '=');
    if eq == |line| then Err(ExpectedKeyValue) else MakeEntry(line[..eq], line[eq + 1..])
  }

  function ReadLine(line: string): Result<Item, ParseError> {
    if line == "" || line[0] == '#' then Ok(Skip)
    else if line[0] == '[' then
      match ParseSectionHeader(line)
      case Err(e) => Err(e)
      case Ok(name) => Ok(Header(name))
    else ParseKeyValue(line)
  }

  // ----- the schema

  /** The table of sections and their keys. */
  function Schema(section: string, key: string): Result<Field, ParseError> {
    if section == "" then
      if key == "host" then Ok(Host) else Err(UnknownKey)
    else if section == "ssh" then
      if key == "user" then Ok(SshUser)
      else if key == "port" then Ok(SshPort)
      else if key == "key" then Ok(SshKey)
      else if key == "sudo" then Ok(SshSudo)
      else if key == "proxy_jump" then Ok(SshProxyJump)
      else Err(UnknownKey)
    else if section == "wireguard" then
      if key == "port" then Ok(WgPort)
      else if key == "server_ip" then Ok(WgServerIp)
      else if key == "client_ip" then Ok(WgClientIp)
      else Err(UnknownKey)
    else if section == "dropbear" then
      if key == "port" then Ok(DropbearPort) else Err(UnknownKey)
    else if section == "output" then
      if key == "dir" then Ok(OutputDir) else Err(UnknownKey)
    else if section == "network" then
      if key == "interface" then Ok(NetInterface)
      else if key == "ip" then Ok(NetIp)
      else Err(UnknownKey)
    else if section == "luks" then
      if key == "device" then Ok(LuksDevice) else Err(UnknownKey)
    else Err(UnknownSection)
  }

  /** assign without its effect: the field that a value may be stored in. */
  function Target(section: string, key: string, v: Scalar): Result<Field, ParseError> {
    match Schema(section, key)
    case Err(e) => Err(e)
    case Ok(f) => if Fits(f, v) then Ok(f) else Err(WrongType)
  }

  // ----- the line loop

  datatype State = State(section: string, settings: Settings)

  /** The effect of one line. */
  function Step(st: State, line: string): Result<State, ParseError> {
    match ReadLine(line)
    case Err(e) => Err(e)
    case Ok(Skip) => Ok(st)
    case Ok(Header(name)) => Ok(st.(section := name))
    case Ok(Entry(key, v)) =>
      match Target(st.section, key, v)
      case Err(e) => Err(e)
      case Ok(f) => Ok(st.(settings := Put(st.settings, f, v)))
  }

  /** A parse either takes every line, or stops at the first bad one with the fields
      assigned so far. */
  datatype Outcome =
    | Accepted(state: State)
    | Rejected(line: nat, error: ParseError, state: State)

  function Run(lines: seq<string>, n: nat, st: State): Outcome {
    if lines == [] then Accepted(st)
    else
      match Step(st, Trim(lines[0]))
      case Err(e) => Rejected(n + 1, e, st)
      case Ok(next) => Run(lines[1..], n + 1, next)
  }

  function Parse(src: string, c: Settings): Outcome {
    Run(Split(src, '\n'), 0, State("", c))
  }

  /** The section name the line loop carries along. */
  class Section {
    var name: string

    constructor ()
      ensures name == ""
    {
      name := "";
    }
  }

  method Assign(cfg: Config, section: string, key: string, v: Scalar) returns (r: Result<(), ParseError>)
    modifies cfg
    ensures match Target(section, key, v)
            case Err(e) => r == Err(e) && cfg.Value() == old(cfg.Value())
            case Ok(f) => r == Ok(()) && cfg.Value() == Put(old(cfg.Value()), f, v)
  {
    var f := Schema(section, key);
    if f.Err? {
      return Err(f.error);
    }
    if !Fits(f.value, v) {
      return Err(WrongType);
    }
    cfg.Store(f.value, v);
    return Ok(());
  }

  method ParseLine(line: string, cfg: Config, section: Section) returns (r: Result<(), ParseError>)
    modifies cfg, section
    ensures match Step(old(State(section.name, cfg.Value())), line)
            case Err(e) => r == Err(e) && section.name == old(section.name) && cfg.Value() == old(cfg.Value())
            case Ok(next) => r == Ok(()) && State(section.name, cfg.Value()) == next
  {
    if line == "" || line[0] == '#' {
      return Ok(());
    }
    if line[0] == '[' {
      var name := ParseSectionHeader(line);
      if name.Err? {
        return Err(name.error);
      }
      section.name := name.value;
      return Ok(());
    }
    var entry := ParseKeyValue(line);
    if entry.Err? {
      return Err(entry.error);
    }
    r := Assign(cfg, section.name, entry.value.key, entry.value.val);
  }

  /** parseTOML: the loop that updates the record in place refines the pure overlay. */
  method ParseToml(src: string, cfg: Config) returns (r: Result<(), (nat, ParseError)>)
    modifies cfg
    ensures cfg.Value() == Parse(src, old(cfg.Value())).state.settings
    ensures match Parse(src, old(cfg.Value()))
            case Accepted(_) => r == Ok(())
            case Rejected(n, e, _) => r == Err((n, e))
  {
    var section := new Section();
    var lines := Split(src, '\n');
    var i := 0;
    while i < |lines|
      invariant 0 <= i <= |lines|
      invariant fresh(section)
      invariant Parse(src, old(cfg.Value())) == Run(lines[i..], i, State(section.name, cfg.Value()))
    {
      var line := ParseLine(Trim(lines[i]), cfg, section);
      if line.Err? {
        return Err((i + 1, line.error));
      }
      assert lines[i..][1..] == lines[i + 1..];
      i := i + 1;
    }
    return Ok(());
  }

  // ----- printing

  function KeyOf(f: Field): string {
    match f
    case Host => "host"
    case SshUser => "user"
    case SshPort => "port"
    case SshKey => "key"
    case SshSudo => "sudo"
    case SshProxyJump => "proxy_jump"
    case WgPort => "port"
    case WgServerIp => "server_ip"
    case WgClientIp => "client_ip"
    case DropbearPort => "port"
    case OutputDir => "dir"
    case NetInterface => "interface"
    case NetIp => "ip"
    case LuksDevice => "device"
  }

  function SectionOf(f: Field): string {
    match f
    case Host => ""
    case SshUser | SshPort | SshKey | SshSudo | SshProxyJump => "ssh"
    case WgPort | WgServerIp | WgClientIp => "wireguard"
    case DropbearPort => "dropbear"
    case OutputDir => "output"
    case NetInterface | NetIp => "network"
    case LuksDevice => "luks"
  }

  /** The schema has exactly one place for each field. */
  lemma SchemaPlaces(section: string, key: string, f: Field)
    ensures Schema(section, key) == Ok(f) <==> section == SectionOf(f) && key == KeyOf(f)
  {
  }

  function BoolText(b: bool): string {
    if b then "true" else "false"
  }

  function PrintScalar(v: Scalar): string {
    match v
    case Str(s) => Quote(s)
    case Int(i) => Itoa(i)
    case Bool(b) => BoolText(b)
  }

  function HeaderLine(name: string): string {
    "[" + name + "]"
  }

  /** The printed line of one field. */
  function FieldLine(c: Settings, f: Field): string {
    KeyLine(KeyOf(f), PrintScalar(Get(c, f)))
  }

  function FieldLines(c: Settings, fields: seq<Field>): (lines: seq<string>)
    ensures |lines| == |fields|
  {
    if fields == [] then [] else [FieldLine(c, fields[0])] + FieldLines(c, fields[1..])
  }

  /** A block of a printed file: an empty line, a section header and the section's fields. */
  function Block(c: Settings, name: string, fields: seq<Field>): seq<string> {
    ["", HeaderLine(name)] + FieldLines(c, fields)
  }

  /** A section of the printed file and its fields in order. */
  datatype Row = Row(name: string, fields: seq<Field>)

  const SSH := Row("ssh", [SshUser, SshPort, SshKey, SshSudo, SshProxyJump])
  const WIREGUARD := Row("wireguard", [WgPort, WgServerIp, WgClientIp])
  const DROPBEAR := Row("dropbear", [DropbearPort])
  const OUTPUT := Row("output", [OutputDir])
  const NETWORK := Row("network", [NetInterface, NetIp])
  const LUKS := Row("luks", [LuksDevice])

  const SECTIONS := [SSH, WIREGUARD, DROPBEAR, OUTPUT, NETWORK, LUKS]

  function Blocks(c: Settings, rows: seq<Row>): seq<string> {
    if rows == [] then []
    else
      var last := rows[|rows| - 1];
      Blocks(c, rows[..|rows| - 1]) + Block(c, last.name, last.fields)
  }

  /** All the lines of a printed file. */
  function PrintLines(c: Settings): seq<string> {
    FieldLines(c, [Host]) + Blocks(c, SECTIONS)
  }

  /** One more section behind the lines so far. */
  lemma OneMore(c: Settings, rows: seq<Row>, row: Row) returns (more: seq<Row>)
    ensures more == rows + [row]
    ensures FieldLines(c, [Host]) + Blocks(c, more)
            == FieldLines(c, [Host]) + Blocks(c, rows) + Block(c, row.name, row.fields)
  {
    MoreBlocks(c, rows, row);
    more := rows + [row];
  }

  lemma MoreBlocks(c: Settings, rows: seq<Row>, row: Row)
    ensures FieldLines(c, [Host]) + Blocks(c, rows + [row])
            == FieldLines(c, [Host]) + Blocks(c, rows) + Block(c, row.name, row.fields)
  {
    assert (rows + [row])[..|rows|] == rows;
    ConcatAssoc(FieldLines(c, [Host]), Blocks(c, rows), Block(c, row.name, row.fields));
  }

  function PrintSettings(c: Settings): string {
    Terminated(PrintLines(c), '\n')
  }

  lemma FieldLinesOne(c: Settings, f: Field)
    ensures FieldLines(c, [f]) == [FieldLine(c, f)]
  {
  }

  lemma FieldLinesTwo(c: Settings, f: Field, g: Field)
    ensures FieldLines(c, [f, g]) == [FieldLine(c, f), FieldLine(c, g)]
  {
    assert [f, g][1..] == [g];
    FieldLinesOne(c, g);
  }

  lemma FieldLinesThree(c: Settings, f: Field, g: Field, h: Field)
    ensures FieldLines(c, [f, g, h]) == [FieldLine(c, f), FieldLine(c, g), FieldLine(c, h)]
  {
    assert [f, g, h][1..] == [g, h];
    FieldLinesTwo(c, g, h);
  }

  lemma FieldLinesMore(c: Settings, f: Field, rest: seq<Field>, all: seq<Field>)
    requires all == [f] + rest
    ensures FieldLines(c, all) == [FieldLine(c, f)] + FieldLines(c, rest)
  {
    assert all[1..] == rest;
  }

  lemma FieldLinesFive(c: Settings, e: Field, d: Field, f: Field, g: Field, h: Field)
    ensures FieldLines(c, [e, d, f, g, h])
            == [FieldLine(c, e), FieldLine(c, d), FieldLine(c, f), FieldLine(c, g), FieldLine(c, h)]
  {
    FieldLinesThree(c, f, g, h);
    FieldLinesMore(c, d, [f, g, h], [d, f, g, h]);
    FieldLinesMore(c, e, [d, f, g, h], [e, d, f, g, h]);
  }

  // What the printer appends to its builder, block by block.

  method AppendHost(cfg: Config) returns (b: string)
    ensures b == Terminated(FieldLines(cfg.Value(), [Host]), '\n')
  {
    ghost var c := cfg.Value();
    b := "" + KeyLine("host", Quote(cfg.host)) + "\n";
    FieldLinesOne(c, Host);
    TerminatedSnoc([], FieldLine(c, Host), '\n');
    assert [] + [FieldLine(c, Host)] == [FieldLine(c, Host)];
  }

  method AppendSsh(b0: string, ghost lines: seq<string>, cfg: Config) returns (b: string)
    requires b0 == Terminated(lines, '\n')
    ensures b == Terminated(lines + Block(cfg.Value(), SSH.name, SSH.fields), '\n')
  {
    ghost var c := cfg.Value();
    b := b0 + "" + "\n" + HeaderLine("ssh") + "\n";
    TerminatedTwo(lines, "", HeaderLine("ssh"), '\n');
    b := b + KeyLine("user", Quote(cfg.sshUser)) + "\n";
    b := b + KeyLine("port", Itoa(cfg.sshPort)) + "\n";
    b := b + KeyLine("key", Quote(cfg.sshKey)) + "\n";
    b := b + KeyLine("sudo", BoolText(cfg.sshSudo)) + "\n";
    b := b + KeyLine("proxy_jump", Quote(cfg.sshProxyJump)) + "\n";
    FieldLinesFive(c, SshUser, SshPort, SshKey, SshSudo, SshProxyJump);
    TerminatedFive(lines + ["", HeaderLine("ssh")],
      FieldLine(c, SshUser), FieldLine(c, SshPort), FieldLine(c, SshKey), FieldLine(c, SshSudo),
          FieldLine(c, SshProxyJump), '\n');
    ConcatAssoc(lines, ["", HeaderLine("ssh")],
      [FieldLine(c, SshUser), FieldLine(c, SshPort), FieldLine(c, SshKey), FieldLine(c, SshSudo),
          FieldLine(c, SshProxyJump)]);
  }

  method AppendWireGuard(b0: string, ghost lines: seq<string>, cfg: Config) returns (b: string)
    requires b0 == Terminated(lines, '\n')
    ensures b == Terminated(lines + Block(cfg.Value(), WIREGUARD.name, WIREGUARD.fields), '\n')
  {
    ghost var c := cfg.Value();
    b := b0 + "" + "\n" + HeaderLine("wireguard") + "\n";
    TerminatedTwo(lines, "", HeaderLine("wireguard"), '\n');
    b := b + KeyLine("port", Itoa(cfg.wgPort)) + "\n";
    b := b + KeyLine("server_ip", Quote(cfg.wgServerIp)) + "\n";
    b := b + KeyLine("client_ip", Quote(cfg.wgClientIp)) + "\n";
    FieldLinesThree(c, WgPort, WgServerIp, WgClientIp);
    TerminatedThree(lines + ["", HeaderLine("wireguard")],
      FieldLine(c, WgPort), FieldLine(c, WgServerIp), FieldLine(c, WgClientIp), '\n');
    ConcatAssoc(lines, ["", HeaderLine("wireguard")],
      [FieldLine(c, WgPort), FieldLine(c, WgServerIp), FieldLine(c, WgClientIp)]);
  }

  method AppendDropbear(b0: string, ghost lines: seq<string>, cfg: Config) returns (b: string)
    requires b0 == Terminated(lines, '\n')
    ensures b == Terminated(lines + Block(cfg.Value(), DROPBEAR.name, DROPBEAR.fields), '\n')
  {
    ghost var c := cfg.Value();
    b := b0 + "" + "\n" + HeaderLine("dropbear") + "\n";
    TerminatedTwo(lines, "", HeaderLine("dropbear"), '\n');
    b := b + KeyLine("port", Itoa(cfg.dropbearPort)) + "\n";
    FieldLinesOne(c, DropbearPort);
    TerminatedSnoc(lines + ["", HeaderLine("dropbear")],
      FieldLine(c, DropbearPort), '\n');
    ConcatAssoc(lines, ["", HeaderLine("dropbear")],
      [FieldLine(c, DropbearPort)]);
  }

  method AppendOutput(b0: string, ghost lines: seq<string>, cfg: Config) returns (b: string)
    requires b0 == Terminated(lines, '\n')
    ensures b == Terminated(lines + Block(cfg.Value(), OUTPUT.name, OUTPUT.fields), '\n')
  {
    ghost var c := cfg.Value();
    b := b0 + "" + "\n" + HeaderLine("output") + "\n";
    TerminatedTwo(lines, "", HeaderLine("output"), '\n');
    b := b + KeyLine("dir", Quote(cfg.outputDir)) + "\n";
    FieldLinesOne(c, OutputDir);
    TerminatedSnoc(lines + ["", HeaderLine("output")],
      FieldLine(c, OutputDir), '\n');
    ConcatAssoc(lines, ["", HeaderLine("output")],
      [FieldLine(c, OutputDir)]);
  }

  method AppendNetwork(b0: string, ghost lines: seq<string>, cfg: Config) returns (b: string)
    requires b0 == Terminated(lines, '\n')
    ensures b == Terminated(lines + Block(cfg.Value(), NETWORK.name, NETWORK.fields), '\n')
  {
    ghost var c := cfg.Value();
    b := b0 + "" + "\n" + HeaderLine("network") + "\n";
    TerminatedTwo(lines, "", HeaderLine("network"), '\n');
    b := b + KeyLine("interface", Quote(cfg.netInterface)) + "\n";
    b := b + KeyLine("ip", Quote(cfg.netIp)) + "\n";
    FieldLinesTwo(c, NetInterface, NetIp);
    TerminatedTwo(lines + ["", HeaderLine("network")],
      FieldLine(c, NetInterface), FieldLine(c, NetIp), '\n');
    ConcatAssoc(lines, ["", HeaderLine("network")],
      [FieldLine(c, NetInterface), FieldLine(c, NetIp)]);
  }

  method AppendLuks(b0: string, ghost lines: seq<string>, cfg: Config) returns (b: string)
    requires b0 == Terminated(lines, '\n')
    ensures b == Terminated(lines + Block(cfg.Value(), LUKS.name, LUKS.fields), '\n')
  {
    ghost var c := cfg.Value();
    b := b0 + "" + "\n" + HeaderLine("luks") + "\n";
    TerminatedTwo(lines, "", HeaderLine("luks"), '\n');
    b := b + KeyLine("device", Quote(cfg.luksDevice)) + "\n";
    FieldLinesOne(c, LuksDevice);
    TerminatedSnoc(lines + ["", HeaderLine("luks")],
      FieldLine(c, LuksDevice), '\n');
    ConcatAssoc(lines, ["", HeaderLine("luks")],
      [FieldLine(c, LuksDevice)]);
  }

  /** Marshal: the builder ends up holding the printed lines. */
  method Marshal(cfg: Config) returns (b: string)
    ensures b == PrintSettings(cfg.Value())
  {
    ghost var c := cfg.Value();
    ghost var host := FieldLines(c, [Host]);
    b := AppendHost(cfg);
    assert host + Blocks(c, []) == host;
    ghost var done: seq<Row> := [];
    b := AppendSsh(b, host + Blocks(c, done), cfg);
    done := OneMore(c, done, SSH);
    b := AppendWireGuard(b, host + Blocks(c, done), cfg);
    done := OneMore(c, done, WIREGUARD);
    b := AppendDropbear(b, host + Blocks(c, done), cfg);
    done := OneMore(c, done, DROPBEAR);
    b := AppendOutput(b, host + Blocks(c, done), cfg);
    done := OneMore(c, done, OUTPUT);
    b := AppendNetwork(b, host + Blocks(c, done), cfg);
    done := OneMore(c, done, NETWORK);
    b := AppendLuks(b, host + Blocks(c, done), cfg);
    done := OneMore(c, done, LUKS);
    assert done == SECTIONS;
  }
}

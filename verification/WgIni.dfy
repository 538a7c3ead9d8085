/** The WireGuard client file: rendered by internal/templates/templates.go, read back by
    contrib/rootless/parse.go. */
module WgIni {
  import opened Text

  // ----- rendering

  datatype IniField = PrivateKey | Address | PublicKey | Endpoint | AllowedIps

  /** The five fields of the client file. */
  datatype WgClient = WgClient(
    privateKey: string, address: string, publicKey: string, endpoint: string, allowedIps: string)

  const EMPTY := WgClient("", "", "", "", "")

  function GetField(c: WgClient, f: IniField): string {
    match f
    case PrivateKey => c.privateKey
    case Address => c.address
    case PublicKey => c.publicKey
    case Endpoint => c.endpoint
    case AllowedIps => c.allowedIps
  }

  function PutField(c: WgClient, f: IniField, v: string): WgClient {
    match f
    case PrivateKey => c.(privateKey := v)
    case Address => c.(address := v)
    case PublicKey => c.(publicKey := v)
    case Endpoint => c.(endpoint := v)
    case AllowedIps => c.(allowedIps := v)
  }

  /** The key of a field in the file. */
  function KeyOf(f: IniField): string {
    match f
    case PrivateKey => "PrivateKey"
    case Address => "Address"
    case PublicKey => "PublicKey"
    case Endpoint => "Endpoint"
    case AllowedIps => "AllowedIPs"
  }

  function FieldLine(c: WgClient, f: IniField): string {
    KeyLine(KeyOf(f), GetField(c, f))
  }

  /** The first field that is empty, in the order both the renderer and the reader check. */
  function FirstMissing(c: WgClient): Option<IniField> {
    if c.privateKey == "" then Some(PrivateKey)
    else if c.address == "" then Some(Address)
    else if c.publicKey == "" then Some(PublicKey)
    else if c.endpoint == "" then Some(Endpoint)
    else if c.allowedIps == "" then Some(AllowedIps)
    else None
  }

  function InterfaceLines(c: WgClient): seq<string> {
    ["[Interface]", KeyLine("PrivateKey", c.privateKey), KeyLine("Address", c.address)]
  }

  function PeerLines(c: WgClient): seq<string> {
    ["", "[Peer]"] + [KeyLine("PublicKey", c.publicKey), KeyLine("Endpoint", c.endpoint),
        KeyLine("AllowedIPs", c.allowedIps)]
  }

  function IniLines(c: WgClient): seq<string> {
    InterfaceLines(c) + PeerLines(c) + [KeyLine("PersistentKeepalive", "25")]
  }

  function IniText(c: WgClient): string {
    Terminated(IniLines(c), '\n')
  }

  /** MarshalINI: checks the fields, then appends to a builder. */
  method MarshalIni(c: WgClient) returns (r: Result<string, IniField>)
    ensures r == match FirstMissing(c) case Some(f) => Err(f) case None => Ok(IniText(c))
  {
    if c.privateKey == "" { return Err(PrivateKey); }
    if c.address == "" { return Err(Address); }
    if c.publicKey == "" { return Err(PublicKey); }
    if c.endpoint == "" { return Err(Endpoint); }
    if c.allowedIps == "" { return Err(AllowedIps); }
    var b := AppendInterface(c);
    b := AppendPeer(b, InterfaceLines(c), c);
    b := b + KeyLine("PersistentKeepalive", "25") + "\n";
    TerminatedSnoc(InterfaceLines(c) + PeerLines(c), KeyLine("PersistentKeepalive", "25"), '\n');
    return Ok(b);
  }

  method AppendInterface(c: WgClient) returns (b: string)
    ensures b == Terminated(InterfaceLines(c), '\n')
  {
    b := "" + "[Interface]" + "\n";
    b := b + KeyLine("PrivateKey", c.privateKey) + "\n";
    b := b + KeyLine("Address", c.address) + "\n";
    TerminatedThree([], "[Interface]", KeyLine("PrivateKey", c.privateKey), KeyLine("Address", c.address), '\n');
    assert [] + InterfaceLines(c) == InterfaceLines(c);
  }

  method AppendPeer(b0: string, ghost lines: seq<string>, c: WgClient) returns (b: string)
    requires b0 == Terminated(lines, '\n')
    ensures b == Terminated(lines + PeerLines(c), '\n')
  {
    b := b0 + "" + "\n" + "[Peer]" + "\n";
    TerminatedTwo(lines, "", "[Peer]", '\n');
    b := b + KeyLine("PublicKey", c.publicKey) + "\n";
    b := b + KeyLine("Endpoint", c.endpoint) + "\n";
    b := b + KeyLine("AllowedIPs", c.allowedIps) + "\n";
    TerminatedThree(lines + ["", "[Peer]"],
      KeyLine("PublicKey", c.publicKey), KeyLine("Endpoint", c.endpoint), KeyLine("AllowedIPs", c.allowedIps), '\n');
    ConcatAssoc(lines, ["", "[Peer]"],
      [KeyLine("PublicKey", c.publicKey), KeyLine("Endpoint", c.endpoint), KeyLine("AllowedIPs", c.allowedIps)]);
  }

  // ----- reading

  /** bufio.Scanner refuses lines of 64 KiB and more. */
  const MAX_TOKEN := 65536

  function Utf8Length(s: string): nat {
    if s == "" then 0
    else
      (if s[0] as int < 0x80 then 1 else if s[0] as int < 0x800 then 2 else if s[0] as int < 0x1_0000 then 3 else 4)
      + Utf8Length(s[1..])
  }

  /** bufio.ScanLines: the lines of a text, the part behind the last line break only if there is one. */
  function ScanLines(text: string): seq<string> {
    var parts := Split(text, '\n');
    if parts[|parts| - 1] == "" then parts[..|parts| - 1] else parts
  }

  function DropCr(line: string): string {
    if line != "" && line[|line| - 1] == '\r' then line[..|line| - 1] else line
  }

  /** strings.ToLower, exact on every text that could equal an ASCII one: besides the letters
      A to Z only the Kelvin sign and the dotted capital I become ASCII letters. */
  function LowerChar(c: char): char {
    if 'A' <= c <= 'Z' then (c as int + 32) as char
    else if c == '\U{212A}' then 'k'
    else if c == '\U{0130}' then 'i'
    else c
  }

  function Lower(s: string): (r: string)
    ensures |r| == |s| && forall i :: 0 <= i < |s| ==> r[i] == LowerChar(s[i])
  {
    if s == "" then "" else [LowerChar(s[0])] + Lower(s[1..])
  }

  /** The table of field setters. */
  function SetterFor(key: string): Option<IniField> {
    if key == "privatekey" then Some(PrivateKey)
    else if key == "address" then Some(Address)
    else if key == "publickey" then Some(PublicKey)
    else if key == "endpoint" then Some(Endpoint)
    else if key == "allowedips" then Some(AllowedIps)
    else None
  }

  /** What one trimmed line sets, if anything. */
  function LineSets(line: string): Option<(IniField, string)> {
    if line == "" || line[0] == '#' || line[0] == '[' then None
    else
      var eq := IndexOf(line, '=');
      if eq == |line| then None
      else
        match SetterFor(Trim(Lower(line[..eq])))
        case None => None
        case Some(f) => Some((f, Trim(line[eq + 1..])))
  }

  function ApplyLine(c: WgClient, line: string): WgClient {
    match LineSets(line)
    case None => c
    case Some((f, v)) => PutField(c, f, v)
  }

  function ApplyLines(c: WgClient, lines: seq<string>): WgClient
    decreases lines
  {
    if lines == [] then c else ApplyLines(ApplyLine(c, Trim(DropCr(lines[0]))), lines[1..])
  }

  datatype WgError = LineTooLong | Missing(field: IniField)

  predicate TooLong(line: string) {
    Utf8Length(line) >= MAX_TOKEN
  }

  function ParseWg(text: string): Result<WgClient, WgError> {
    var lines := ScanLines(text);
    if exists i :: 0 <= i < |lines| && TooLong(lines[i]) then Err(LineTooLong)
    else
      var c := ApplyLines(EMPTY, lines);
      match FirstMissing(c)
      case Some(f) => Err(Missing(f))
      case None => Ok(c)
  }

  /** The record the setters of the reader assign to. */
  class WgClientConfig {
    var privateKey: string
    var address: string
    var publicKey: string
    var endpoint: string
    var allowedIps: string

    constructor ()
      ensures Value() == EMPTY
    {
      privateKey, address, publicKey, endpoint, allowedIps := "", "", "", "", "";
    }

    function Value(): WgClient
      reads this
    {
      WgClient(privateKey, address, publicKey, endpoint, allowedIps)
    }

    method ApplyWgLine(line: string)
      modifies this
      ensures Value() == ApplyLine(old(Value()), line)
    {
      if line == "" || line[0] == '#' || line[0] == '[' {
        return;
      }
      var eq := IndexOf(line, '=');
      if eq == |line| {
        return;
      }
      var v := Trim(line[eq + 1..]);
      match SetterFor(Trim(Lower(line[..eq])))
      case None =>
      case Some(PrivateKey) => privateKey := v;
      case Some(Address) => address := v;
      case Some(PublicKey) => publicKey := v;
      case Some(Endpoint) => endpoint := v;
      case Some(AllowedIps) => allowedIps := v;
    }
  }

  /** parseWGConfig: scan, apply every line, then look for a missing field. */
  method ParseWgConfig(text: string) returns (r: Result<WgClient, WgError>)
    ensures r == ParseWg(text)
  {
    var cfg := new WgClientConfig();
    var lines := ScanLines(text);
    var i := 0;
    while i < |lines|
      invariant 0 <= i <= |lines|
      invariant fresh(cfg)
      invariant forall j :: 0 <= j < i ==> !TooLong(lines[j])
      invariant ApplyLines(cfg.Value(), lines[i..]) == ApplyLines(EMPTY, lines)
    {
      if TooLong(lines[i]) {
        return Err(LineTooLong);
      }
      assert lines[i..][1..] == lines[i + 1..];
      cfg.ApplyWgLine(Trim(DropCr(lines[i])));
      i := i + 1;
    }
    var c := cfg.Value();
    match FirstMissing(c)
    case Some(f) => return Err(Missing(f));
    case None => return Ok(c);
  }

  // ----- reading what was rendered

  /** A value that survives the file: something visible at both ends and no line break. */
  predicate Plain(v: string) {
    v != "" && Trimmed(v) && NewlineFree(v)
  }

  predicate AllPlain(c: WgClient) {
    Plain(c.privateKey) && Plain(c.address) && Plain(c.publicKey) && Plain(c.endpoint) && Plain(c.allowedIps)
  }

  predicate IniKey(key: string) {
    key != "" && Trimmed(key) && Lacks(key, '=') && key[0] != '#' && key[0] != '['
  }

  lemma IniKeyReads(key: string)
    requires IniKey(key)
    ensures Trim(Lower(key + " ")) == Lower(key)
  {
    var l := Lower(key);
    assert Lower(key + " ") == "" + l + " ";
    assert Trimmed(l);
    TrimUnique("", l, " ");
  }

  lemma TrimDropCr(s: string)
    ensures Trim(DropCr(s)) == Trim(s)
  {
    if DropCr(s) != s {
      var t := DropCr(s);
      assert s == t + "\r";
      TrimTail(t, "\r");
    }
  }

  /** Blank text behind makes no difference to the trimmed core. */
  lemma TrimTail(s: string, blank: string)
    requires Blank(blank)
    ensures Trim(s + blank) == Trim(s)
  {
    var head, tail := TrimSplit(s);
    TrimUnique(head, Trim(s), tail + blank);
    assert s + blank == head + Trim(s) + (tail + blank);
  }

  /** A line sets the field of its key to what stands behind the equals sign. */
  lemma KeySets(key: string, w: string, c: WgClient)
    requires IniKey(key)
    ensures ApplyLine(c, Trim(DropCr(key + " =" + w))) ==
            match SetterFor(Lower(key)) case None => c case Some(f) => PutField(c, f, Trim(w))
  {
    var line := key + " =" + w;
    TrimDropCr(line);
    assert line[0] == key[0] && line[|key| + 1] == '=';
    assert TrimLeft(line) == line;
    var k := TrimRightCut(line);
    assert k > |key| + 1;
    var u := w[..k - |key| - 2];
    assert w == u + line[k..];
    assert line[..k] == (key + " ") + ['='] + u;
    TrimTail(u, line[k..]);
    LineOfParts(key, u, c);
  }

  lemma LineOfParts(key: string, u: string, c: WgClient)
    requires IniKey(key)
    ensures ApplyLine(c, (key + " ") + ['='] + u) ==
            match SetterFor(Lower(key)) case None => c case Some(f) => PutField(c, f, Trim(u))
  {
    var line := (key + " ") + ['='] + u;
    assert line[0] == key[0];
    IndexOfAt(key + " ", '=', u);
    assert line[..|key| + 1] == key + " ";
    assert line[|key| + 2..] == u;
    IniKeyReads(key);
  }

  /** A line without an equals sign sets nothing. */
  lemma NoKeySets(line: string, c: WgClient)
    requires Lacks(line, '=')
    ensures ApplyLine(c, Trim(DropCr(line))) == c
  {
    TrimDropCr(line);
    TrimLacks(line, '=');
    IndexOfLacks(Trim(line), '=');
  }

  /** A rendered line sets the field of its key to its value, whatever '=' the value holds. */
  lemma KeyLineSets(key: string, v: string, c: WgClient)
    requires IniKey(key) && Trimmed(v)
    ensures ApplyLine(c, Trim(DropCr(KeyLine(key, v)))) ==
            match SetterFor(Lower(key)) case None => c case Some(f) => PutField(c, f, v)
  {
    assert KeyLine(key, v) == key + " =" + (" " + v);
    KeySets(key, " " + v, c);
    TrimUnique(" ", v, "");
    assert " " + v + "" == " " + v;
  }

  /** Blank lines and section lines, whole or in part, set nothing. */
  lemma OtherLineSets(line: string, c: WgClient)
    requires line != "" ==> line[0] == '['
    ensures ApplyLine(c, Trim(DropCr(line))) == c
  {
    TrimDropCr(line);
    TrimStart(line);
  }

  lemma {:induction false} ApplyConcat(a: seq<string>, b: seq<string>, c: WgClient)
    ensures ApplyLines(c, a + b) == ApplyLines(ApplyLines(c, a), b)
  {
    if a == [] {
      assert a + b == b;
    } else {
      assert (a + b)[1..] == a[1..] + b;
      ApplyConcat(a[1..], b, ApplyLine(c, Trim(DropCr(a[0]))));
    }
  }

  lemma ApplyOne(x: string, c: WgClient)
    ensures ApplyLines(c, [x]) == ApplyLine(c, Trim(DropCr(x)))
  {
    assert [x][1..] == [];
  }

  lemma ApplyThree(x: string, y: string, z: string, c: WgClient)
    ensures ApplyLines(c, [x, y, z]) ==
            ApplyLine(ApplyLine(ApplyLine(c, Trim(DropCr(x))), Trim(DropCr(y))), Trim(DropCr(z)))
  {
    var c1 := ApplyLine(c, Trim(DropCr(x)));
    ApplyOne(x, c);
    ApplyOne(y, c1);
    ApplyOne(z, ApplyLine(c1, Trim(DropCr(y))));
    ApplyConcat([x], [y], c);
    ApplyConcat([x] + [y], [z], c);
    assert [x] + [y] + [z] == [x, y, z];
  }

  /** Two keys of the same length whose letters agree up to case. */
  lemma LowerIs(s: string, t: string)
    requires |s| == |t| && forall i :: 0 <= i < |s| ==> LowerChar(s[i]) == t[i]
    ensures Lower(s) == t
  {
  }

  lemma PrivateKeySetter()
    ensures IniKey("PrivateKey") && SetterFor(Lower("PrivateKey")) == Some(PrivateKey)
  {
    LowerIs("PrivateKey", "privatekey");
  }

  lemma AddressSetter()
    ensures IniKey("Address") && SetterFor(Lower("Address")) == Some(Address)
  {
    LowerIs("Address", "address");
  }

  lemma PublicKeySetter()
    ensures IniKey("PublicKey") && SetterFor(Lower("PublicKey")) == Some(PublicKey)
  {
    LowerIs("PublicKey", "publickey");
  }

  lemma EndpointSetter()
    ensures IniKey("Endpoint") && SetterFor(Lower("Endpoint")) == Some(Endpoint)
  {
    LowerIs("Endpoint", "endpoint");
  }

  lemma AllowedIpsSetter()
    ensures IniKey("AllowedIPs") && SetterFor(Lower("AllowedIPs")) == Some(AllowedIps)
  {
    LowerIs("AllowedIPs", "allowedips");
  }

  /** Each of the five keys has its own setter. */
  lemma KeyHasSetter(f: IniField)
    ensures IniKey(KeyOf(f)) && SetterFor(Lower(KeyOf(f))) == Some(f)
  {
    match f
    case PrivateKey => PrivateKeySetter();
    case Address => AddressSetter();
    case PublicKey => PublicKeySetter();
    case Endpoint => EndpointSetter();
    case AllowedIps => AllowedIpsSetter();
  }

  lemma FieldSets(f: IniField, v: string, c: WgClient)
    requires Plain(v)
    ensures ApplyLine(c, Trim(DropCr(KeyLine(KeyOf(f), v)))) == PutField(c, f, v)
  {
    KeyHasSetter(f);
    KeyLineSets(KeyOf(f), v, c);
  }

  /** A key that is none of the five is ignored. */
  lemma KeepaliveSetter()
    ensures SetterFor(Lower("PersistentKeepalive")) == None
  {
    UnknownByLength(Lower("PersistentKeepalive"));
  }

  lemma UnknownByLength(key: string)
    requires |key| == 19
    ensures SetterFor(key) == None
  {
  }

  lemma KeepalivePlain()
    ensures IniKey("PersistentKeepalive") && Plain("25")
  {
    var key := "PersistentKeepalive";
    assert |key| == 19 && key[0] == 'P' && key[18] == 'e';
    assert Trimmed(key);
    var v := "25";
    assert v[0] == '2' && v[1] == '5';
  }

  lemma KeepaliveSets(c: WgClient)
    ensures ApplyLine(c, Trim(DropCr(KeyLine("PersistentKeepalive", "25")))) == c
  {
    KeepaliveSetter();
    KeepalivePlain();
    KeyLineSets("PersistentKeepalive", "25", c);
  }

  lemma ReadInterface(c: WgClient, from: WgClient)
    requires AllPlain(c)
    ensures ApplyLines(from, InterfaceLines(c)) == from.(privateKey := c.privateKey, address := c.address)
  {
    ApplyThree("[Interface]", KeyLine("PrivateKey", c.privateKey), KeyLine("Address", c.address), from);
    OtherLineSets("[Interface]", from);
    FieldSets(PrivateKey, c.privateKey, from);
    FieldSets(Address, c.address, PutField(from, PrivateKey, c.privateKey));
  }

  lemma ReadPeer(c: WgClient, from: WgClient)
    requires AllPlain(c)
    ensures ApplyLines(from, PeerLines(c))
            == from.(publicKey := c.publicKey, endpoint := c.endpoint, allowedIps := c.allowedIps)
  {
    var values := [KeyLine("PublicKey", c.publicKey), KeyLine("Endpoint", c.endpoint),
        KeyLine("AllowedIPs", c.allowedIps)];
    OtherLineSets("", from);
    OtherLineSets("[Peer]", from);
    ApplyOne("", from);
    ApplyOne("[Peer]", from);
    ApplyConcat([""], ["[Peer]"], from);
    ApplyConcat(["", "[Peer]"], values, from);
    assert [""] + ["[Peer]"] == ["", "[Peer]"];
    ApplyThree(values[0], values[1], values[2], from);
    FieldSets(PublicKey, c.publicKey, from);
    var withKey := PutField(from, PublicKey, c.publicKey);
    FieldSets(Endpoint, c.endpoint, withKey);
    FieldSets(AllowedIps, c.allowedIps, PutField(withKey, Endpoint, c.endpoint));
  }

  /** Reading the rendered lines gives the rendered fields. */
  lemma ReadIniLines(c: WgClient)
    requires AllPlain(c)
    ensures ApplyLines(EMPTY, IniLines(c)) == c
  {
    var keepalive := [KeyLine("PersistentKeepalive", "25")];
    var c1 := EMPTY.(privateKey := c.privateKey, address := c.address);
    ReadInterface(c, EMPTY);
    ReadPeer(c, c1);
    ApplyConcat(InterfaceLines(c), PeerLines(c), EMPTY);
    ApplyConcat(InterfaceLines(c) + PeerLines(c), keepalive, EMPTY);
    ApplyOne(keepalive[0], c);
    KeepaliveSets(c);
  }

  lemma KeyLineNewlineFree(key: string, v: string)
    requires NewlineFree(key) && NewlineFree(v)
    ensures NewlineFree(KeyLine(key, v))
  {
  }

  lemma IniLinesNewlineFree(c: WgClient)
    requires AllPlain(c)
    ensures forall i :: 0 <= i < |IniLines(c)| ==> NewlineFree(IniLines(c)[i])
  {
    KeyLineNewlineFree("PrivateKey", c.privateKey);
    KeyLineNewlineFree("Address", c.address);
    KeyLineNewlineFree("PublicKey", c.publicKey);
    KeyLineNewlineFree("Endpoint", c.endpoint);
    KeyLineNewlineFree("AllowedIPs", c.allowedIps);
    KeyLineNewlineFree("PersistentKeepalive", "25");
  }

  /** The lines that depend on the configuration all stay under the scanner's limit. */
  predicate Short(c: WgClient) {
    !TooLong(KeyLine("PrivateKey", c.privateKey)) && !TooLong(KeyLine("Address", c.address))
    && !TooLong(KeyLine("PublicKey", c.publicKey)) && !TooLong(KeyLine("Endpoint", c.endpoint))
    && !TooLong(KeyLine("AllowedIPs", c.allowedIps))
  }

  lemma {:induction false} LengthBound(s: string)
    ensures |s| <= Utf8Length(s) <= 4 * |s|
  {
    if s != "" {
      LengthBound(s[1..]);
    }
  }

  lemma FixedLinesShort()
    ensures !TooLong("[Interface]") && !TooLong("") && !TooLong("[Peer]")
            && !TooLong(KeyLine("PersistentKeepalive", "25"))
  {
    LengthBound("[Interface]");
    LengthBound("");
    LengthBound("[Peer]");
    LengthBound(KeyLine("PersistentKeepalive", "25"));
  }

  predicate NoneLong(lines: seq<string>) {
    forall i :: 0 <= i < |lines| ==> !TooLong(lines[i])
  }

  lemma NoneLongConcat(a: seq<string>, b: seq<string>)
    ensures NoneLong(a + b) <==> NoneLong(a) && NoneLong(b)
  {
    var l := a + b;
    assert forall i :: 0 <= i < |a| ==> l[i] == a[i];
    assert forall i :: 0 <= i < |b| ==> l[|a| + i] == b[i];
    assert forall i :: |a| <= i < |l| ==> l[i] == b[i - |a|];
  }

  lemma NoneLongThree(x: string, y: string, z: string)
    ensures NoneLong([x, y, z]) <==> !TooLong(x) && !TooLong(y) && !TooLong(z)
  {
    var l := [x, y, z];
    assert l[0] == x && l[1] == y && l[2] == z;
  }

  lemma NoneLongOne(x: string)
    ensures NoneLong([x]) <==> !TooLong(x)
  {
    assert [x][0] == x;
  }

  lemma NoneLongTwo(x: string, y: string)
    ensures NoneLong([x, y]) <==> !TooLong(x) && !TooLong(y)
  {
    var l := [x, y];
    assert l[0] == x && l[1] == y;
  }

  lemma ShortIniLines(c: WgClient)
    ensures (exists i :: 0 <= i < |IniLines(c)| && TooLong(IniLines(c)[i])) <==> !Short(c)
  {
    FixedLinesShort();
    NoneLongThree("[Interface]", KeyLine("PrivateKey", c.privateKey), KeyLine("Address", c.address));
    NoneLongTwo("", "[Peer]");
    NoneLongThree(KeyLine("PublicKey", c.publicKey), KeyLine("Endpoint", c.endpoint),
        KeyLine("AllowedIPs", c.allowedIps));
    NoneLongOne(KeyLine("PersistentKeepalive", "25"));
    NoneLongConcat(["", "[Peer]"],
      [KeyLine("PublicKey", c.publicKey), KeyLine("Endpoint", c.endpoint), KeyLine("AllowedIPs", c.allowedIps)]);
    NoneLongConcat(InterfaceLines(c), PeerLines(c));
    NoneLongConcat(InterfaceLines(c) + PeerLines(c), [KeyLine("PersistentKeepalive", "25")]);
    assert NoneLong(IniLines(c)) <==> Short(c);
  }

  lemma ScanIniText(c: WgClient)
    requires AllPlain(c)
    ensures ScanLines(IniText(c)) == IniLines(c)
  {
    IniLinesNewlineFree(c);
    var lines := IniLines(c);
    SplitTerminated(lines, '\n');
    assert (lines + [""])[..|lines|] == lines;
  }

  /** The reader undoes the renderer for all values that are visible at both ends and on one
      line, '=' included, exactly as long as no line reaches the scanner's 64 KiB. */
  lemma ReadRendered(c: WgClient)
    requires AllPlain(c)
    ensures FirstMissing(c) == None
    ensures ParseWg(IniText(c)) == if Short(c) then Ok(c) else Err(LineTooLong)
  {
    ScanIniText(c);
    ShortIniLines(c);
    ReadIniLines(c);
  }
}

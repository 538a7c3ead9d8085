/** Detecting the network of the running host (internal/setup/setup.go): a record filled in place
    from the answers of the commands run there. */
module NetDetect {
  import opened Text
  import opened Decimal
  import opened Ipv4

  /** What the commands on the host answer; None is a command that fails. The regular
      expressions over their output are taken as answered: `inet` gives the d.d.d.d/d texts, and
      `vlan` the parent behind '@' (empty when there is none) and the VLAN id (0 when none). */
  datatype Host = Host(
    route: Option<string>,
    inet: string -> Option<seq<string>>,
    hostname: string,
    vlan: string -> Option<(string, nat)>,
    slaves: string -> Option<string>,
    mode: string -> Option<string>,
    ports: string -> Option<string>)

  datatype Shape = Shape(vlanPhysdev: string, vlanId: nat, bondSlaves: seq<string>, bondMode: string,
      bridgePorts: seq<string>)

  datatype Net = Net(iface: string, ip: string, prefix: nat, gateway: string, hostname: string, shape: Shape)

  datatype DetectError = BadConfigIp | RouteFailed | NoInterface | BadInterface | NoAddress | NoGateway

  // ----- the specification

  function Or(a: string, b: string): string {
    if a != "" then a else b
  }

  /** The word behind the first keyword that has one on its line; empty when there is none. */
  function Successor(words: seq<string>, keyword: string): string {
    if |words| < 2 then "" else if words[0] == keyword then words[1] else Successor(words[1..], keyword)
  }

  function FirstSuccessor(lines: seq<seq<string>>, keyword: string): string {
    if lines == [] then "" else Or(Successor(lines[0], keyword), FirstSuccessor(lines[1..], keyword))
  }

  function RouteWords(text: string): seq<seq<string>> {
    var lines := Split(text, '\n');
    seq(|lines|, i requires 0 <= i < |lines| => Fields(lines[i]))
  }

  predicate InterfaceChar(c: char) {
    'a' <= c <= 'z' || 'A' <= c <= 'Z' || '0' <= c <= '9' || c == '-' || c == '_' || c == '.'
  }

  predicate ValidInterfaceName(name: string) {
    name != "" && |name| <= 15 && forall i :: 0 <= i < |name| ==> InterfaceChar(name[i])
  }

  /** The address of the first match, when it is readable. */
  function FirstInet(matches: seq<string>): Option<Cidr> {
    if matches == [] then None else ParseCidr(matches[0])
  }

  /** The prefix of the first match that carries the address; 0 when none does. */
  function PrefixForIp(matches: seq<string>, ip: string): (p: nat)
    ensures p <= 32
  {
    if matches == [] then 0
    else
      match ParseCidr(matches[0])
      case Some(b) => if FormatIp(b.ip) == ip then b.prefix else PrefixForIp(matches[1..], ip)
      case None => PrefixForIp(matches[1..], ip)
  }

  /** The address and prefix before detectPrefix; 0 stands for a prefix not yet known. */
  function FoundAddress(cfgIp: string, words: seq<seq<string>>, inet: Option<seq<string>>): (r: (string, nat))
    requires cfgIp == "" || ParseCidr(cfgIp).Some?
    ensures r.1 <= 32
  {
    if cfgIp != "" then (FormatIp(ParseCidr(cfgIp).value.ip), ParseCidr(cfgIp).value.prefix)
    else
      var src := FirstSuccessor(words, "src");
      if src != "" then (src, 0)
      else
        match (if inet.Some? then FirstInet(inet.value) else None)
        case Some(b) => (FormatIp(b.ip), b.prefix)
        case None => ("", 0)
  }

  function FoundPrefix(ip: string, prefix: nat, inet: Option<seq<string>>): (p: nat) {
    if prefix != 0 || ip == "" then prefix
    else
      var p := if inet.Some? then PrefixForIp(inet.value, ip) else 0;
      if p == 0 then 24 else p
  }

  function WordsOf(answer: Option<string>): seq<string> {
    if answer.Some? then Fields(answer.value) else []
  }

  function FirstWord(answer: Option<string>): string {
    if WordsOf(answer) == [] then "" else WordsOf(answer)[0]
  }

  function VlanOf(h: Host, iface: string): (string, nat) {
    match h.vlan(iface)
    case Some(v) => if v.0 != "" && v.1 > 0 then v else ("", 0)
    case None => ("", 0)
  }

  /** The slaves and the mode of a device, both empty when it is no bond. */
  function BondOf(h: Host, iface: string): (seq<string>, string) {
    var slaves := WordsOf(h.slaves(iface));
    (slaves, if slaves == [] then "" else FirstWord(h.mode(iface)))
  }

  function ShapeOf(h: Host, iface: string): Shape {
    var vlan := VlanOf(h, iface);
    var below := if vlan.0 == "" then ([], "") else BondOf(h, vlan.0);
    var bond := if below.0 == [] then BondOf(h, iface) else below;
    Shape(vlan.0, vlan.1, bond.0, bond.1, WordsOf(h.ports(iface)))
  }

  function Detect(cfgIface: string, cfgIp: string, h: Host): Result<Net, DetectError> {
    if cfgIp != "" && ParseCidr(cfgIp) == None then Err(BadConfigIp)
    else if h.route == None then Err(RouteFailed)
    else
      var words := RouteWords(h.route.value);
      var iface := Or(cfgIface, FirstSuccessor(words, "dev"));
      var gateway := FirstSuccessor(words, "via");
      if iface == "" then Err(NoInterface)
      else if !ValidInterfaceName(iface) then Err(BadInterface)
      else
        var (ip, prefix) := FoundAddress(cfgIp, words, h.inet(iface));
        if ip == "" then Err(NoAddress)
        else if gateway == "" then Err(NoGateway)
        else
          var hostname := Or(Trim(h.hostname), "server");
          Ok(Net(iface, ip, FoundPrefix(ip, prefix, h.inet(iface)), gateway, hostname, ShapeOf(h, iface)))
  }

  // ----- the record and the methods that fill it

  class NetworkInfo {
    var iface: string
    var ip: string
    var prefix: nat
    var gateway: string
    var hostname: string
    var vlanPhysdev: string
    var vlanId: nat
    var bondSlaves: seq<string>
    var bondMode: string
    var bridgePorts: seq<string>

    constructor (name: string)
      ensures Value() == Net(name, "", 0, "", "", Shape("", 0, [], "", []))
    {
      iface, ip, prefix, gateway, hostname := name, "", 0, "", "";
      vlanPhysdev, vlanId, bondSlaves, bondMode, bridgePorts := "", 0, [], "", [];
    }

    function Value(): Net
      reads this
    {
      Net(iface, ip, prefix, gateway, hostname, Shape(vlanPhysdev, vlanId, bondSlaves, bondMode, bridgePorts))
    }

    method ApplyConfigIp(cfgIp: string) returns (ok: bool)
      modifies this
      ensures ok <==> cfgIp == "" || ParseCidr(cfgIp).Some?
      ensures ok && cfgIp != "" ==>
                var b := ParseCidr(cfgIp).value;
                Value() == old(Value()).(ip := FormatIp(b.ip), prefix := b.prefix)
      ensures !ok || cfgIp == "" ==> Value() == old(Value())
    {
      if cfgIp == "" {
        return true;
      }
      var b := ParseCidr(cfgIp);
      if b == None {
        return false;
      }
      ip := FormatIp(b.value.ip);
      prefix := b.value.prefix;
      return true;
    }

    /** A route keyword fills its field when that is still empty and a word follows. */
    method ApplyRouteToken(parts: seq<string>, i: nat)
      requires i < |parts|
      modifies this
      ensures Value() == old(Value()).(
              gateway := Or(old(gateway), if i + 1 < |parts| && parts[i] == "via" then parts[i + 1] else ""),
              iface := Or(old(iface), if i + 1 < |parts| && parts[i] == "dev" then parts[i + 1] else ""),
              ip := Or(old(ip), if i + 1 < |parts| && parts[i] == "src" then parts[i + 1] else ""))
    {
      if i + 1 >= |parts| {
        return;
      }
      if parts[i] == "via" {
        if gateway == "" { gateway := parts[i + 1]; }
      } else if parts[i] == "dev" {
        if iface == "" { iface := parts[i + 1]; }
      } else if parts[i] == "src" {
        if ip == "" { ip := parts[i + 1]; }
      }
    }

    /** The nested scan over the words of every line. */
    method ParseDefaultRoute(h: Host) returns (ok: bool)
      modifies this
      ensures ok == h.route.Some?
      ensures ok ==> var words := RouteWords(h.route.value);
                     Value() == old(Value()).(
                     gateway := Or(old(gateway), FirstSuccessor(words, "via")),
                     iface := Or(old(iface), FirstSuccessor(words, "dev")),
                     ip := Or(old(ip), FirstSuccessor(words, "src")))
      ensures !ok ==> Value() == old(Value())
    {
      if h.route == None {
        return false;
      }
      var lines := Split(h.route.value, '\n');
      ghost var words := RouteWords(h.route.value);
      for l := 0 to |lines|
        invariant Or(gateway, FirstSuccessor(words[l..], "via")) == Or(old(gateway), FirstSuccessor(words, "via"))
        invariant Or(iface, FirstSuccessor(words[l..], "dev")) == Or(old(iface), FirstSuccessor(words, "dev"))
        invariant Or(ip, FirstSuccessor(words[l..], "src")) == Or(old(ip), FirstSuccessor(words, "src"))
        invariant Value() == old(Value()).(gateway := gateway, iface := iface, ip := ip)
      {
        var parts := Fields(lines[l]);
        FieldsWords(lines[l]);
        assert words[l..][0] == parts && words[l..][1..] == words[l + 1..];
        ghost var before := Value();
        for i := 0 to |parts|
          invariant Or(gateway, Successor(parts[i..], "via")) == Or(before.gateway, Successor(parts, "via"))
          invariant Or(iface, Successor(parts[i..], "dev")) == Or(before.iface, Successor(parts, "dev"))
          invariant Or(ip, Successor(parts[i..], "src")) == Or(before.ip, Successor(parts, "src"))
          invariant Value() == before.(gateway := gateway, iface := iface, ip := ip)
        {
          assert parts[i..][1..] == parts[i + 1..];
          ApplyRouteToken(parts, i);
        }
      }
      return true;
    }

    method ValidateInterface() returns (e: Option<DetectError>)
      ensures e == if iface == "" then Some(NoInterface)
                   else if !ValidInterfaceName(iface) then Some(BadInterface) else None
    {
      if iface == "" { return Some(NoInterface); }
      if !ValidInterfaceName(iface) { return Some(BadInterface); }
      return None;
    }

    method FillIpFromAddr(h: Host)
      modifies this
      ensures Value() == match (if iface != "" && h.inet(iface).Some? then FirstInet(h.inet(iface).value) else None)
                         case Some(b) => old(Value()).(ip := FormatIp(b.ip), prefix := b.prefix)
                         case None => old(Value())
    {
      if iface == "" {
        return;
      }
      var out := h.inet(iface);
      if out == None {
        return;
      }
      var b := FirstInet(out.value);
      if b.Some? {
        ip := FormatIp(b.value.ip);
        prefix := b.value.prefix;
      }
    }

    method DetectPrefix(h: Host)
      modifies this
      ensures Value() == old(Value()).(prefix := FoundPrefix(old(ip), old(prefix), h.inet(iface)))
    {
      if prefix != 0 || ip == "" {
        return;
      }
      var out := h.inet(iface);
      if out.Some? {
        prefix := ScanPrefix(out.value, ip);
      }
      if prefix == 0 {
        prefix := 24;
      }
    }

    method DetectHostname(h: Host)
      modifies this
      ensures Value() == old(Value()).(hostname := Or(Trim(h.hostname), "server"))
    {
      hostname := Trim(h.hostname);
      if hostname == "" {
        hostname := "server";
      }
    }

    method DetectVlan(h: Host)
      requires vlanPhysdev == "" && vlanId == 0
      modifies this
      ensures Value() == old(Value()).(shape := old(Value()).shape.(
                         vlanPhysdev := VlanOf(h, iface).0, vlanId := VlanOf(h, iface).1))
    {
      var out := h.vlan(iface);
      if out == None {
        return;
      }
      var (physdev, id) := out.value;
      if physdev != "" && id > 0 {
        vlanPhysdev := physdev;
        vlanId := id;
      }
    }

    method DetectBond(h: Host)
      requires bondSlaves == []
      modifies this
      ensures Value() == old(Value()).(shape := old(Value()).shape.(bondSlaves := WordsOf(h.slaves(iface))))
    {
      var out := h.slaves(iface);
      if out == None {
        return;
      }
      FieldsTrim(out.value);
      var slaves := Fields(Trim(out.value));
      if |slaves| > 0 {
        bondSlaves := slaves;
      }
    }

    method DetectBondMode(h: Host)
      requires bondMode == ""
      modifies this
      ensures Value() == old(Value()).(shape := old(Value()).shape.(
                         bondMode := if old(bondSlaves) == [] then "" else FirstWord(h.mode(iface))))
    {
      if |bondSlaves| == 0 {
        return;
      }
      var out := h.mode(iface);
      if out == None {
        return;
      }
      FieldsTrim(out.value);
      var f := Fields(Trim(out.value));
      if |f| > 0 {
        bondMode := f[0];
      }
    }

    /** A VLAN on a bond takes the slaves and the mode of the bond below it. */
    method DetectVlanBond(h: Host)
      modifies this
      ensures var below := BondOf(h, vlanPhysdev);
              Value() == if vlanPhysdev == "" || below.0 == [] then old(Value())
                         else old(Value()).(shape := old(Value()).shape.(bondSlaves := below.0, bondMode := below.1))
    {
      if vlanPhysdev == "" {
        return;
      }
      var phys := new NetworkInfo(vlanPhysdev);
      phys.DetectBond(h);
      phys.DetectBondMode(h);
      if |phys.bondSlaves| > 0 {
        bondSlaves := phys.bondSlaves;
        bondMode := phys.bondMode;
      }
    }

    method DetectBridge(h: Host)
      requires bridgePorts == []
      modifies this
      ensures Value() == old(Value()).(shape := old(Value()).shape.(bridgePorts := WordsOf(h.ports(iface))))
    {
      var out := h.ports(iface);
      if out == None {
        return;
      }
      FieldsTrim(out.value);
      var ports := Fields(Trim(out.value));
      if |ports| > 0 {
        bridgePorts := ports;
      }
    }

    method DetectInterfaceTopology(h: Host)
      requires Value().shape == Shape("", 0, [], "", [])
      modifies this
      ensures Value() == old(Value()).(shape := ShapeOf(h, iface))
    {
      DetectVlan(h);
      DetectBond(h);
      DetectBondMode(h);
      DetectVlanBond(h);
      DetectBridge(h);
    }
  }

  /** prefixForIP: the scan over the matches. */
  method ScanPrefix(matches: seq<string>, ip: string) returns (p: nat)
    ensures p == PrefixForIp(matches, ip)
  {
    for i := 0 to |matches|
      invariant PrefixForIp(matches[i..], ip) == PrefixForIp(matches, ip)
    {
      assert matches[i..][1..] == matches[i + 1..];
      var b := ParseCidr(matches[i]);
      if b.Some? && FormatIp(b.value.ip) == ip {
        return b.value.prefix;
      }
    }
    return 0;
  }

  /** detectNetwork: the configured values first, the host's answers for the rest. */
  method DetectNetwork(cfgIface: string, cfgIp: string, h: Host) returns (r: Result<Net, DetectError>)
    ensures r == Detect(cfgIface, cfgIp, h)
  {
    var info := new NetworkInfo(cfgIface);
    var ok := info.ApplyConfigIp(cfgIp);
    if !ok {
      return Err(BadConfigIp);
    }
    if cfgIp != "" {
      FormatIpNonEmpty(ParseCidr(cfgIp).value.ip);
    }
    ok := info.ParseDefaultRoute(h);
    if !ok {
      return Err(RouteFailed);
    }
    var e := info.ValidateInterface();
    if e.Some? {
      return Err(e.value);
    }
    if info.ip == "" {
      info.FillIpFromAddr(h);
    }
    info.DetectPrefix(h);
    info.DetectHostname(h);
    info.DetectInterfaceTopology(h);
    if info.ip == "" {
      return Err(NoAddress);
    }
    if info.gateway == "" {
      return Err(NoGateway);
    }
    return Ok(info.Value());
  }

  lemma FormatIpNonEmpty(ip: Ip)
    ensures FormatIp(ip) != ""
  {
    assert NatText(ip.b0) != "";
  }

  // ----- what the scan finds

  /** Word i of line l is the keyword, and a word follows on the line. */
  ghost predicate Follows(lines: seq<seq<string>>, keyword: string, l: int, i: int) {
    0 <= l < |lines| && 0 <= i < |lines[l]| - 1 && lines[l][i] == keyword
  }

  ghost predicate Earlier(l: int, i: int, m: int, j: int) {
    l < m || (l == m && i < j)
  }

  ghost predicate FirstAt(lines: seq<seq<string>>, keyword: string, l: int, i: int) {
    Follows(lines, keyword, l, i)
    && forall m, j :: Follows(lines, keyword, m, j) ==> !Earlier(m, j, l, i)
  }

  lemma {:induction false} SuccessorFirst(words: seq<string>, keyword: string) returns (i: int)
    requires forall k :: 0 <= k < |words| ==> words[k] != ""
    ensures Successor(words, keyword) == "" ==> forall k :: 0 <= k < |words| - 1 ==> words[k] != keyword
    ensures Successor(words, keyword) != "" ==>
              0 <= i < |words| - 1 && words[i] == keyword && words[i + 1] == Successor(words, keyword)
              && forall k :: 0 <= k < i ==> words[k] != keyword
  {
    i := 0;
    if |words| >= 2 && words[0] != keyword {
      var j := SuccessorFirst(words[1..], keyword);
      i := j + 1;
      forall k | 0 <= k < |words| - 1 && (k < i || Successor(words, keyword) == "") ensures words[k] != keyword {
        if k > 0 {
          assert words[k] == words[1..][k - 1];
        }
      }
    }
  }

  /** The value taken is the word behind the first keyword that has a successor, over all lines
      in order, and it is empty exactly when there is no such keyword. */
  lemma {:induction false} FirstSuccessorFirst(lines: seq<seq<string>>, keyword: string) returns (l: int, i: int)
    requires forall m, k :: 0 <= m < |lines| && 0 <= k < |lines[m]| ==> lines[m][k] != ""
    ensures FirstSuccessor(lines, keyword) == "" ==> forall m, k :: !Follows(lines, keyword, m, k)
    ensures FirstSuccessor(lines, keyword) != "" ==>
              FirstAt(lines, keyword, l, i) && FirstSuccessor(lines, keyword) == lines[l][i + 1]
  {
    l, i := 0, 0;
    if lines != [] {
      i := SuccessorFirst(lines[0], keyword);
      if Successor(lines[0], keyword) == "" {
        var rest := lines[1..];
        assert forall m, k :: 0 <= m < |rest| && 0 <= k < |rest[m]| ==> rest[m][k] == lines[m + 1][k];
        l, i := FirstSuccessorFirst(rest, keyword);
        l := l + 1;
        forall m, k | Follows(lines, keyword, m, k)
          ensures FirstSuccessor(lines, keyword) != "" && !Earlier(m, k, l, i)
        {
          assert m > 0;
          assert Follows(rest, keyword, m - 1, k);
        }
      }
    }
  }

  /** A field of the route scan: the configured value when there is one, and otherwise the first
      word of the route text that follows the field's keyword. */
  ghost predicate FirstWins(text: string, keyword: string, configured: string, value: string) {
    var lines := RouteWords(text);
    if configured != "" then value == configured
    else if value == "" then forall l, i :: !Follows(lines, keyword, l, i)
    else exists l, i :: FirstAt(lines, keyword, l, i) && value == lines[l][i + 1]
  }

  lemma ScannedField(text: string, keyword: string, configured: string)
    ensures FirstWins(text, keyword, configured, Or(configured, FirstSuccessor(RouteWords(text), keyword)))
  {
    var raw := Split(text, '\n');
    var lines := RouteWords(text);
    forall m, k | 0 <= m < |lines| && 0 <= k < |lines[m]| ensures lines[m][k] != "" {
      FieldsWords(raw[m]);
    }
    var l, i := FirstSuccessorFirst(lines, keyword);
  }

  /** Only one value is the first. */
  lemma FirstWinsOnce(text: string, keyword: string, configured: string, value: string)
    requires FirstWins(text, keyword, configured, value)
    ensures value == Or(configured, FirstSuccessor(RouteWords(text), keyword))
  {
    var lines := RouteWords(text);
    var found := FirstSuccessor(lines, keyword);
    ScannedField(text, keyword, "");
    if configured == "" {
      if value != "" {
        var l, i :| FirstAt(lines, keyword, l, i) && value == lines[l][i + 1];
        if found != "" {
          var m, j :| FirstAt(lines, keyword, m, j) && found == lines[m][j + 1];
          assert Follows(lines, keyword, l, i) && Follows(lines, keyword, m, j);
        }
      }
    }
  }

  // ----- the prefix

  /** A text that reads as a block whose address prints as ip. */
  ghost predicate Carries(text: string, ip: string) {
    ParseCidr(text).Some? && FormatIp(ParseCidr(text).value.ip) == ip
  }

  ghost predicate FirstCarrier(matches: seq<string>, ip: string, i: nat) {
    i < |matches| && Carries(matches[i], ip) && forall j: nat :: j < i ==> !Carries(matches[j], ip)
  }

  /** The prefix of the first text that carries the address; 24 when there is none or it is 0. */
  ghost predicate LookedUp(matches: seq<string>, ip: string, prefix: nat) {
    || (exists i: nat ::
          FirstCarrier(matches, ip, i)
          && prefix == if ParseCidr(matches[i]).value.prefix != 0 then ParseCidr(matches[i]).value.prefix else 24)
    || ((forall i: nat :: i < |matches| ==> !Carries(matches[i], ip)) && prefix == 24)
  }

  lemma {:induction false} PrefixOfCarrier(matches: seq<string>, ip: string) returns (i: nat)
    ensures FirstCarrier(matches, ip, i) ==> PrefixForIp(matches, ip) == ParseCidr(matches[i]).value.prefix
    ensures FirstCarrier(matches, ip, i)
            || ((forall j: nat :: j < |matches| ==> !Carries(matches[j], ip)) && PrefixForIp(matches, ip) == 0)
  {
    i := 0;
    if matches != [] && !Carries(matches[0], ip) {
      var k := PrefixOfCarrier(matches[1..], ip);
      i := k + 1;
      assert forall j: nat :: 0 < j < |matches| ==> matches[j] == matches[1..][j - 1];
      assert FirstCarrier(matches[1..], ip, k) ==> FirstCarrier(matches, ip, i);
    }
  }

  lemma LookedUpOnce(matches: seq<string>, ip: string, prefix: nat)
    ensures LookedUp(matches, ip, prefix) <==>
            prefix == if PrefixForIp(matches, ip) == 0 then 24 else PrefixForIp(matches, ip)
  {
    var i := PrefixOfCarrier(matches, ip);
    if FirstCarrier(matches, ip, i) {
      assert Carries(matches[i], ip);
      assert forall j: nat :: FirstCarrier(matches, ip, j) ==> j == i;
    }
  }

  function InetOf(h: Host, iface: string): seq<string> {
    if h.inet(iface).Some? then h.inet(iface).value else []
  }

  /** Address and prefix of a block; a prefix of 0 is looked up. */
  ghost predicate FromBlock(b: Cidr, matches: seq<string>, ip: string, prefix: nat) {
    ip == FormatIp(b.ip) && if b.prefix != 0 then prefix == b.prefix else LookedUp(matches, ip, prefix)
  }

  /** Address and prefix: the configured block; without one the source address of the default
      route with a prefix that is looked up; without that the first block of the interface. */
  ghost predicate AddressFound(cfgIp: string, route: string, matches: seq<string>, ip: string, prefix: nat) {
    if cfgIp != "" then ParseCidr(cfgIp).Some? && FromBlock(ParseCidr(cfgIp).value, matches, ip, prefix)
    else if !FirstWins(route, "src", "", "") then FirstWins(route, "src", "", ip) && LookedUp(matches, ip, prefix)
    else matches != [] && ParseCidr(matches[0]).Some? && FromBlock(ParseCidr(matches[0]).value, matches, ip, prefix)
  }

  /** What detection finds, told by the texts: every field of the route is the configured value or
      the first word behind its keyword. */
  ghost predicate Found(cfgIface: string, cfgIp: string, h: Host, n: Net) {
    && h.route.Some?
    && FirstWins(h.route.value, "via", "", n.gateway) && n.gateway != ""
    && FirstWins(h.route.value, "dev", cfgIface, n.iface)
    && 1 <= |n.iface| <= 15 && (forall i :: 0 <= i < |n.iface| ==> InterfaceChar(n.iface[i]))
    && AddressFound(cfgIp, h.route.value, InetOf(h, n.iface), n.ip, n.prefix)
    && n.hostname == (if Trim(h.hostname) == "" then "server" else Trim(h.hostname))
    && n.shape == ShapeOf(h, n.iface)
  }

  lemma BlockFound(b: Cidr, inet: Option<seq<string>>, ip: string, prefix: nat)
    ensures FromBlock(b, if inet.Some? then inet.value else [], ip, prefix) <==>
            ip == FormatIp(b.ip) && prefix == FoundPrefix(ip, b.prefix, inet)
  {
    LookedUpOnce(if inet.Some? then inet.value else [], ip, prefix);
    FormatIpNonEmpty(b.ip);
  }

  lemma SourceFound(route: string, inet: Option<seq<string>>, ip: string, prefix: nat)
    requires FirstSuccessor(RouteWords(route), "src") != ""
    ensures FirstWins(route, "src", "", ip) && LookedUp(if inet.Some? then inet.value else [], ip, prefix) <==>
            ip == FirstSuccessor(RouteWords(route), "src") && prefix == FoundPrefix(ip, 0, inet)
  {
    LookedUpOnce(if inet.Some? then inet.value else [], ip, prefix);
    ScannedField(route, "src", "");
    if FirstWins(route, "src", "", ip) {
      FirstWinsOnce(route, "src", "", ip);
    }
  }

  lemma AddressFoundIs(cfgIp: string, route: string, inet: Option<seq<string>>, ip: string, prefix: nat)
    requires cfgIp == "" || ParseCidr(cfgIp).Some?
    ensures var found := FoundAddress(cfgIp, RouteWords(route), inet);
            AddressFound(cfgIp, route, if inet.Some? then inet.value else [], ip, prefix) <==>
            found.0 != "" && ip == found.0 && prefix == FoundPrefix(ip, found.1, inet)
  {
    var matches := if inet.Some? then inet.value else [];
    var src := FirstSuccessor(RouteWords(route), "src");
    if cfgIp != "" {
      BlockFound(ParseCidr(cfgIp).value, inet, ip, prefix);
      FormatIpNonEmpty(ParseCidr(cfgIp).value.ip);
    } else {
      ScannedField(route, "src", "");
      if src != "" {
        SourceFound(route, inet, ip, prefix);
        if FirstWins(route, "src", "", "") {
          FirstWinsOnce(route, "src", "", "");
        }
      } else if matches != [] && ParseCidr(matches[0]).Some? {
        BlockFound(ParseCidr(matches[0]).value, inet, ip, prefix);
        FormatIpNonEmpty(ParseCidr(matches[0]).value.ip);
      }
    }
  }

  lemma FieldFound(text: string, keyword: string, configured: string, value: string)
    ensures FirstWins(text, keyword, configured, value) <==>
            value == Or(configured, FirstSuccessor(RouteWords(text), keyword))
  {
    ScannedField(text, keyword, configured);
    if FirstWins(text, keyword, configured, value) {
      FirstWinsOnce(text, keyword, configured, value);
    }
  }

  /** Detection returns exactly what is found in the configuration and in the host's answers, and
      an error when nothing is. */
  lemma DetectedFields(cfgIface: string, cfgIp: string, h: Host, n: Net)
    ensures Detect(cfgIface, cfgIp, h) == Ok(n) <==> Found(cfgIface, cfgIp, h, n)
    ensures Found(cfgIface, cfgIp, h, n) ==> 1 <= n.prefix <= 32
  {
    if h.route.Some? && (cfgIp == "" || ParseCidr(cfgIp).Some?) {
      var route := h.route.value;
      FieldFound(route, "via", "", n.gateway);
      FieldFound(route, "dev", cfgIface, n.iface);
      AddressFoundIs(cfgIp, route, h.inet(n.iface), n.ip, n.prefix);
    }
  }

  lemma DetectedShape(cfgIface: string, cfgIp: string, h: Host)
    requires Detect(cfgIface, cfgIp, h).Ok?
    ensures var n := Detect(cfgIface, cfgIp, h).value; n.shape == ShapeOf(h, n.iface)
  {
  }
}

/** Network devices of the host and the lowering of what was detected to the interfaces that
    exist early at boot (internal/setup/setup.go, buildSetupScriptData). */
module Topology {
  import opened Text
  import opened Decimal
  import opened Bits
  import opened Ipv4
  import opened ConfigModel
  import opened Tunnel
  import opened NetDetect
  import K = KeyFiles

  // ----- the devices of the host

  datatype Device =
    | Nic(name: string)
    | Bond(name: string, slaves: seq<Device>, mode: string)
    | Bridge(name: string, ports: seq<Device>)
    | Vlan(name: string, parent: Device, id: nat)

  function Names(ds: seq<Device>): seq<string> {
    seq(|ds|, i requires 0 <= i < |ds| => ds[i].name)
  }

  /** x is the device d or one below it. */
  ghost predicate Within(x: Device, d: Device) {
    x == d
    || match d
       case Nic(_) => false
       case Bond(_, slaves, _) => exists i :: 0 <= i < |slaves| && Within(x, slaves[i])
       case Bridge(_, ports) => exists i :: 0 <= i < |ports| && Within(x, ports[i])
       case Vlan(_, parent, _) => Within(x, parent)
  }

  /** A device reaches the wire through a NIC, with the VLAN tags it puts on its frames. */
  ghost predicate Reaches(d: Device, nic: string, tags: seq<nat>) {
    match d
    case Nic(name) => nic == name && tags == []
    case Bond(_, slaves, _) => exists i :: 0 <= i < |slaves| && Reaches(slaves[i], nic, tags)
    case Bridge(_, ports) => exists i :: 0 <= i < |ports| && Reaches(ports[i], nic, tags)
    case Vlan(_, parent, id) => tags != [] && tags[|tags| - 1] == id && Reaches(parent, nic, tags[..|tags| - 1])
  }

  predicate KernelNameChar(c: char) {
    '!' <= c <= '~' && c != '/' && c != ':'
  }

  /** The names the kernel gives to devices (ASCII only). */
  predicate KernelName(n: string) {
    n != "" && |n| <= 15 && n != "." && n != ".." && forall i :: 0 <= i < |n| ==> KernelNameChar(n[i])
  }

  /** Different devices have different names, all of them are possible, and so are VLAN ids and
      bonding modes. */
  ghost predicate WellFormed(d: Device) {
    (forall x, y :: Within(x, d) && Within(y, d) && x.name == y.name ==> x == y)
    && (forall x :: Within(x, d) ==>
          KernelName(x.name) && (x.Vlan? ==> x.id <= 4094) && (x.Bond? ==> SpaceFree(x.mode)))
  }

  /** The host's answers about one device are those Linux gives for it. */
  ghost predicate Describes1(h: Host, d: Device) {
    && VlanOf(h, d.name) == (if d.Vlan? && d.id > 0 then (d.parent.name, d.id) else ("", 0))
    && WordsOf(h.slaves(d.name)) == (if d.Bond? then Names(d.slaves) else [])
    && (d.Bond? ==> FirstWord(h.mode(d.name)) == d.mode)
    && WordsOf(h.ports(d.name)) == (if d.Bridge? then Names(d.ports) else [])
  }

  ghost predicate Describes(h: Host, d: Device) {
    forall x :: Within(x, d) ==> Describes1(h, x)
  }

  // ----- lowering

  /** What is used at boot: the interface of the boot script, the VLAN parent it creates the
      interface on (empty when it is used as it is), the NIC of the kernel's ip= parameter, and
      the interface whose drivers are looked up now. */
  datatype Lowered = Lowered(iface: string, vlanPhysdev: string, grubIface: string, netIface: string)

  function Lower(iface: string, s: Shape): Lowered {
    if s.bondSlaves != [] then
      var slave := s.bondSlaves[0];
      if s.vlanPhysdev != "" then Lowered(slave + "." + NatText(s.vlanId), slave, slave, iface)
      else Lowered(slave, "", slave, slave)
    else
      var base := if s.bridgePorts != [] then s.bridgePorts[0] else iface;
      Lowered(base, s.vlanPhysdev, if s.vlanPhysdev != "" then s.vlanPhysdev else base, base)
  }

  /** The values the boot script is rendered from. */
  datatype ScriptData = ScriptData(
    serverIp: string, staticIp: string, gatewayIp: string, iface: string,
    vlanPhysdev: string, vlanId: nat, bondSlaves: string, bondMode: string)

  datatype ServerConf = ServerConf(address: string, privateKey: string, listenPort: int, peerPublicKey: string,
      peerAllowedIps: string)

  datatype SetupData = SetupData(
    wg: ServerConf, script: ScriptData, dropbearIp: string, dropbearPort: int,
    netIp: string, netGateway: string, netMask: string, netHostname: string,
    netInterface: string, grubInterface: string)

  datatype SetupError =
    | WgFieldMissing
    | BadServerIp | BadStaticIp | BadScriptGateway | NoScriptInterface
    | NoDropbearIp | NoDropbearPort
    | BadGrubIp | BadGrubGateway | BadGrubHostname

  function ServerConfOf(c: Settings, keys: K.Keys): ServerConf {
    ServerConf(c.wgServerIp, keys.serverPrivate, c.wgPort, keys.clientPublic, PeerAllowedIps(c.wgClientIp))
  }

  predicate WgComplete(w: ServerConf) {
    w.address != "" && w.privateKey != "" && w.listenPort != 0 && w.peerPublicKey != "" && w.peerAllowedIps != ""
  }

  /** validateInitramfsScriptData. */
  function ScriptProblem(d: ScriptData): Option<SetupError> {
    if ParseCidr(d.serverIp) == None then Some(BadServerIp)
    else if ParseCidr(d.staticIp) == None then Some(BadStaticIp)
    else if ParseIp(d.gatewayIp) == None then Some(BadScriptGateway)
    else if d.iface == "" then Some(NoScriptInterface)
    else None
  }

  predicate HostnameChar(c: char) {
    'a' <= c <= 'z' || 'A' <= c <= 'Z' || '0' <= c <= '9' || c == '-' || c == '.'
  }

  predicate ValidHostname(name: string) {
    name != "" && |name| <= 63 && forall i :: 0 <= i < |name| ==> HostnameChar(name[i])
  }

  /** strings.Join with a blank. */
  function Join(words: seq<string>): string {
    if words == [] then "" else if |words| == 1 then words[0] else words[0] + " " + Join(words[1..])
  }

  function StaticIp(n: Net): string {
    n.ip + "/" + NatText(n.prefix)
  }

  /** The values the boot script of a network is rendered from. */
  function ScriptOf(c: Settings, n: Net): ScriptData {
    var low := Lower(n.iface, n.shape);
    ScriptData(c.wgServerIp, StaticIp(n), n.gateway, low.iface, low.vlanPhysdev, n.shape.vlanId, "", n.shape.bondMode)
  }

  /** A static address that reads as a CIDR block is the address and the prefix it was made of. */
  lemma StaticIpParts(n: Net)
    requires ParseCidr(StaticIp(n)).Some?
    ensures ParseIp(n.ip).Some? && n.prefix <= 32 && ParseCidr(StaticIp(n)).value == Cidr(ParseIp(n.ip).value, n.prefix)
  {
    var s := n.ip + ['/'] + NatText(n.prefix);
    assert s == StaticIp(n);
    NatTextValue(n.prefix);
    var slash := IndexOf(s, '/');
    assert s[|n.ip|] == '/';
    var tail := s[slash + 1..];
    assert AllDigits(tail);
    assert forall k :: slash < k < |s| ==> s[k] == tail[k - slash - 1] && IsDigit(tail[k - slash - 1]);
    assert slash == |n.ip|;
    assert s[..slash] == n.ip;
    assert tail == NatText(n.prefix);
  }

  // How the texts of the result read.

  /** The text is the block of this address with this prefix. */
  ghost predicate IsBlock(text: string, ip: string, prefix: nat) {
    ParseIp(ip).Some? && ParseCidr(text) == Some(Cidr(ParseIp(ip).value, prefix))
  }

  ghost predicate IsMask(text: string, prefix: nat)
    requires prefix <= 32
  {
    ParseIp(text).Some? && Number(ParseIp(text).value) == 0x1_0000_0000 - Pow2(32 - prefix)
  }

  ghost predicate IsAddressOf(text: string, cidr: string) {
    ParseCidr(cidr).Some? && ParseIp(text) == Some(ParseCidr(cidr).value.ip)
  }

  ghost predicate AllowsOnly(text: string, cidr: string) {
    ParseCidr(cidr).Some? ==> OnlyAddress(text, ParseCidr(cidr).value.ip)
  }

  lemma StaticIsBlock(n: Net)
    requires ParseCidr(StaticIp(n)).Some?
    ensures IsBlock(StaticIp(n), n.ip, n.prefix)
  {
    StaticIpParts(n);
  }

  lemma NetmaskIsMask(prefix: nat)
    requires prefix <= 32
    ensures IsMask(PrefixToNetmask(prefix), prefix)
  {
    NetmaskNumber(prefix);
  }

  lemma TunnelIpReads(cidr: string)
    requires ParseCidr(cidr).Some?
    ensures TunnelIp(cidr) != "" && IsAddressOf(TunnelIp(cidr), cidr)
  {
    ParseFormatIp(ParseCidr(cidr).value.ip);
    FormatIpNonEmpty(ParseCidr(cidr).value.ip);
  }

  lemma ClientAllowed(cidr: string)
    ensures AllowsOnly(PeerAllowedIps(cidr), cidr)
  {
    if ParseCidr(cidr).Some? {
      PeerAllowsOnly(cidr);
    }
  }

  /** buildSetupScriptData: locals reassigned branch by branch, then the checks in their order. */
  method BuildSetupScriptData(c: Settings, keys: K.Keys, n: Net) returns (r: Result<SetupData, SetupError>)
    ensures r.Ok? ==>
              var low, script := Lower(n.iface, n.shape), r.value.script;
              script == ScriptOf(c, n) && ScriptProblem(script) == None && script.serverIp == c.wgServerIp
              && IsBlock(script.staticIp, n.ip, n.prefix) && script.gatewayIp == n.gateway
              && script.iface == low.iface && script.vlanPhysdev == low.vlanPhysdev
              && script.vlanId == n.shape.vlanId && script.bondSlaves == ""
              && r.value.grubInterface == low.grubIface && r.value.netInterface == low.netIface
    ensures r.Ok? ==>
              r.value.wg.address == c.wgServerIp && r.value.wg.privateKey == keys.serverPrivate
              && r.value.wg.listenPort == c.wgPort && r.value.wg.peerPublicKey == keys.clientPublic
              && AllowsOnly(r.value.wg.peerAllowedIps, c.wgClientIp)
    ensures r.Ok? ==>
              r.value.netIp == n.ip && r.value.netGateway == n.gateway && r.value.netHostname == n.hostname
              && n.prefix <= 32 && IsMask(r.value.netMask, n.prefix)
              && IsAddressOf(r.value.dropbearIp, c.wgServerIp) && r.value.dropbearPort == c.dropbearPort
    ensures r.Ok? <==>
            && keys.serverPrivate != "" && c.wgPort != 0 && keys.clientPublic != "" && ParseCidr(c.wgServerIp).Some?
            && ParseIp(n.ip).Some? && n.prefix <= 32 && ParseIp(n.gateway).Some?
            && Lower(n.iface, n.shape).iface != "" && c.dropbearPort != 0 && ValidHostname(n.hostname)
  {
    var wg := ServerConfOf(c, keys);
    if !WgComplete(wg) {
      return Err(WgFieldMissing);
    }
    var s := n.shape;
    var initramfsIface := n.iface;
    if |s.bridgePorts| > 0 {
      initramfsIface := s.bridgePorts[0];
    }
    var grubIface := initramfsIface;
    if |s.bondSlaves| > 0 {
      grubIface := s.bondSlaves[0];
    } else if s.vlanPhysdev != "" {
      grubIface := s.vlanPhysdev;
    }
    var scriptIface := initramfsIface;
    var scriptPhysdev := s.vlanPhysdev;
    var scriptSlaves := Join(s.bondSlaves);
    if |s.bondSlaves| > 0 {
      var slave := s.bondSlaves[0];
      if s.vlanPhysdev != "" {
        scriptIface := slave + "." + NatText(s.vlanId);
        scriptPhysdev := slave;
        scriptSlaves := "";
      } else {
        scriptIface := slave;
        scriptSlaves := "";
      }
    }
    var d := ScriptData(c.wgServerIp, StaticIp(n), n.gateway, scriptIface,
                        scriptPhysdev, s.vlanId, scriptSlaves, s.bondMode);
    var problem := ScriptProblem(d);
    StaticIpReads(n);
    if problem.Some? {
      return Err(problem.value);
    }
    TunnelIpReads(c.wgServerIp);
    if TunnelIp(c.wgServerIp) == "" {
      return Err(NoDropbearIp);
    }
    if c.dropbearPort == 0 {
      return Err(NoDropbearPort);
    }
    if ParseIp(n.ip) == None {
      return Err(BadGrubIp);
    }
    if ParseIp(n.gateway) == None {
      return Err(BadGrubGateway);
    }
    if !ValidHostname(n.hostname) {
      return Err(BadGrubHostname);
    }
    StaticIsBlock(n);
    NetmaskIsMask(n.prefix);
    ClientAllowed(c.wgClientIp);
    var netInterface := scriptIface;
    if |s.bondSlaves| > 0 && s.vlanPhysdev != "" {
      netInterface := n.iface;
    }
    return Ok(SetupData(wg, d, TunnelIp(c.wgServerIp), c.dropbearPort,
                        n.ip, n.gateway, PrefixToNetmask(n.prefix), n.hostname, netInterface, grubIface));
  }

  /** The static address reads as a CIDR block exactly when the address is one and the prefix fits. */
  lemma StaticIpReads(n: Net)
    ensures ParseCidr(StaticIp(n)).Some? <==> ParseIp(n.ip).Some? && n.prefix <= 32
  {
    if ParseCidr(StaticIp(n)).Some? {
      StaticIpParts(n);
    }
    if ParseIp(n.ip).Some? && n.prefix <= 32 {
      IpChars(n.ip);
      NatTextValue(n.prefix);
      CidrOfParts(n.ip, NatText(n.prefix));
    }
  }

  // ----- which devices lower to a NIC

  predicate FirstIsNic(ds: seq<Device>) {
    ds != [] && ds[0].Nic?
  }

  /** A NIC, a bridge or a bond whose first member is a NIC, or a VLAN on a NIC or on such a bond. */
  predicate Supported(d: Device) {
    match d
    case Nic(_) => true
    case Bond(_, slaves, _) => FirstIsNic(slaves)
    case Bridge(_, ports) => FirstIsNic(ports)
    case Vlan(_, parent, id) => id > 0 && (parent.Nic? || (parent.Bond? && FirstIsNic(parent.slaves)))
  }

  /** The device whose name becomes the NIC of the ip= parameter. */
  function GrubDevice(d: Device): Device {
    match d
    case Nic(_) => d
    case Bond(_, slaves, _) => if slaves == [] then d else slaves[0]
    case Bridge(_, ports) => if ports == [] then d else ports[0]
    case Vlan(_, parent, id) =>
      if id == 0 then d else if parent.Bond? && parent.slaves != [] then parent.slaves[0] else parent
  }

  lemma GrubDeviceWithin(d: Device)
    ensures Within(GrubDevice(d), d)
  {
    var g := GrubDevice(d);
    match d
    case Nic(_) =>
    case Bond(_, slaves, _) => if slaves != [] { assert Within(g, slaves[0]); }
    case Bridge(_, ports) => if ports != [] { assert Within(g, ports[0]); }
    case Vlan(_, parent, id) =>
      if id > 0 && parent.Bond? && parent.slaves != [] {
        assert Within(g, parent.slaves[0]);
        assert Within(g, parent);
      }
  }

  lemma ParentWithin(d: Device)
    requires d.Vlan?
    ensures Within(d.parent, d)
  {
  }

  /** What is detected of a described device. */
  lemma ShapeOfDevice(h: Host, d: Device)
    requires Describes(h, d) && WellFormed(d)
    ensures ShapeOf(h, d.name) ==
            match d
            case Nic(_) => Shape("", 0, [], "", [])
            case Bond(_, slaves, mode) => Shape("", 0, Names(slaves), if slaves == [] then "" else mode, [])
            case Bridge(_, ports) => Shape("", 0, [], "", Names(ports))
            case Vlan(_, parent, id) =>
              if id == 0 then Shape("", 0, [], "", [])
              else if parent.Bond? && parent.slaves != [] then
                Shape(parent.name, id, Names(parent.slaves), parent.mode, [])
              else Shape(parent.name, id, [], "", [])
  {
    assert Describes1(h, d);
    if d.Vlan? {
      ParentWithin(d);
      assert Describes1(h, d.parent);
    }
  }

  lemma LowersToGrubDevice(h: Host, d: Device)
    requires Describes(h, d) && WellFormed(d)
    ensures Lower(d.name, ShapeOf(h, d.name)).grubIface == GrubDevice(d).name
  {
    ShapeOfDevice(h, d);
  }

  /** The NIC of the ip= parameter is a NIC the device is built from exactly when the device is
      one of the supported kinds; nested topologies are not. */
  lemma GrubInterfaceIsNic(h: Host, d: Device)
    requires Describes(h, d) && WellFormed(d)
    ensures (exists x :: Within(x, d) && x.Nic? && x.name == Lower(d.name, ShapeOf(h, d.name)).grubIface)
            <==> Supported(d)
  {
    LowersToGrubDevice(h, d);
    GrubDeviceWithin(d);
    if x :| Within(x, d) && x.Nic? && x.name == GrubDevice(d).name {
      assert x == GrubDevice(d);
    }
  }

  /** The tags a supported device puts on its frames, one at most. */
  function Tags(d: Device): seq<nat> {
    if d.Vlan? then [d.id] else []
  }

  /** A supported device reaches the wire through the NIC it lowers to, with its own tag. */
  lemma SupportedReaches(d: Device)
    requires Supported(d)
    ensures Reaches(d, GrubDevice(d).name, Tags(d))
  {
    var nic := GrubDevice(d).name;
    match d
    case Nic(_) =>
    case Bond(_, slaves, _) => assert Reaches(slaves[0], nic, []);
    case Bridge(_, ports) => assert Reaches(ports[0], nic, []);
    case Vlan(_, parent, id) =>
      assert [id][..0] == [];
      if parent.Bond? {
        assert Reaches(parent.slaves[0], nic, []);
      }
      assert Reaches(parent, nic, []);
  }

  /** The interface the boot script uses: the NIC itself, or a VLAN with the original id on it. */
  lemma LowersToNicOrVlan(h: Host, d: Device)
    requires Describes(h, d) && WellFormed(d) && Supported(d)
    ensures var low := Lower(d.name, ShapeOf(h, d.name));
            var nic := GrubDevice(d).name;
            nic != ""
            && (if d.Vlan? then
                  low.vlanPhysdev == nic && low.iface != "" && ShapeOf(h, d.name).vlanId == d.id
                  && low.iface == (if d.parent.Bond? then nic + "." + NatText(d.id) else d.name)
                else low.vlanPhysdev == "" && low.iface == nic)
  {
    ShapeOfDevice(h, d);
    GrubDeviceWithin(d);
  }
}

/** The premises of Reconnect.RebuildsConnectivity can be met: for every supported device, address
    and gateway there are a host, a configuration and a boot world that meet all of them. */
module Premises {
  import opened Text
  import opened Decimal
  import opened Bits
  import opened Ipv4
  import opened ConfigModel
  import opened NetDetect
  import opened Topology
  import opened BootScript
  import opened Reconnect

  // ----- words and lines

  ghost predicate AllWords(ws: seq<string>) {
    forall i :: 0 <= i < |ws| ==> ws[i] != "" && SpaceFree(ws[i])
  }

  /** Joined words are split into the same words. */
  lemma {:induction false} FieldsOfJoin(ws: seq<string>)
    requires AllWords(ws)
    ensures Fields(Join(ws)) == ws
  {
    if ws == [] {
    } else if |ws| == 1 {
      FieldsWord(ws[0]);
      assert ws == [ws[0]];
    } else {
      FieldsOfJoin(ws[1..]);
      var rest := Join(ws[1..]);
      assert Join(ws) == ws[0] + (" " + rest);
      FieldsCons(ws[0], " " + rest);
      assert (" " + rest)[1..] == rest;
      assert ws == [ws[0]] + ws[1..];
    }
  }

  lemma {:induction false} JoinOnOneLine(ws: seq<string>)
    requires AllWords(ws)
    ensures NewlineFree(Join(ws))
  {
    assert IsSpace('\n');
    if |ws| > 1 {
      JoinOnOneLine(ws[1..]);
    }
  }

  /** A line of words, read as route text. */
  lemma RouteOfWords(ws: seq<string>)
    requires AllWords(ws)
    ensures RouteWords(Join(ws)) == [ws]
  {
    FieldsOfJoin(ws);
    JoinOnOneLine(ws);
    SplitLast(Join(ws), '\n');
  }

  // ----- a host for every device

  ghost function Find(d: Device, name: string): (r: Option<Device>)
    ensures r.Some? ==> Within(r.value, d) && r.value.name == name
    ensures r.None? ==> forall x :: Within(x, d) ==> x.name != name
  {
    if x :| Within(x, d) && x.name == name then Some(x) else None
  }

  ghost function HostOf(d: Device, route: string, inet: string): Host {
    Host.Host(Some(route), _ => Some([inet]), "host",
         n => match Find(d, n) case Some(Vlan(_, p, id)) => Some((p.name, id)) case _ => None,
         n => match Find(d, n) case Some(Bond(_, slaves, _)) => Some(Join(Names(slaves))) case _ => None,
         n => match Find(d, n) case Some(Bond(_, _, mode)) => Some(mode) case _ => None,
         n => match Find(d, n) case Some(Bridge(_, ports)) => Some(Join(Names(ports))) case _ => None)
  }

  lemma NameIsWord(n: string)
    requires KernelName(n)
    ensures n != "" && SpaceFree(n)
  {
    assert forall c :: KernelNameChar(c) ==> !IsSpace(c);
  }

  lemma MembersWithin(d: Device, x: Device, members: seq<Device>)
    requires Within(x, d)
    requires x == Bond(x.name, members, if x.Bond? then x.mode else "") || x == Bridge(x.name, members)
    ensures forall i :: 0 <= i < |members| ==> Within(members[i], d)
  {
    forall i | 0 <= i < |members| ensures Within(members[i], d) {
      assert Within(members[i], members[i]);
      assert Within(members[i], x);
      WithinTransitive(members[i], x, d);
    }
  }

  lemma {:induction false} WithinTransitive(x: Device, y: Device, d: Device)
    requires Within(x, y) && Within(y, d)
    ensures Within(x, d)
    decreases d
  {
    if y != d {
      match d
      case Bond(_, slaves, _) =>
        var i :| 0 <= i < |slaves| && Within(y, slaves[i]);
        WithinTransitive(x, y, slaves[i]);
      case Bridge(_, ports) =>
        var i :| 0 <= i < |ports| && Within(y, ports[i]);
        WithinTransitive(x, y, ports[i]);
      case Vlan(_, parent, _) =>
        WithinTransitive(x, y, parent);
    }
  }

  lemma MemberWords(d: Device, x: Device, members: seq<Device>)
    requires WellFormed(d) && Within(x, d)
    requires x == Bond(x.name, members, if x.Bond? then x.mode else "") || x == Bridge(x.name, members)
    ensures Fields(Join(Names(members))) == Names(members)
  {
    MembersWithin(d, x, members);
    forall i | 0 <= i < |members| ensures Names(members)[i] != "" && SpaceFree(Names(members)[i]) {
      NameIsWord(members[i].name);
    }
    FieldsOfJoin(Names(members));
  }

  lemma ModeWord(mode: string)
    requires SpaceFree(mode)
    ensures FirstWord(Some(mode)) == mode
  {
    if mode != "" {
      FieldsWord(mode);
    }
  }

  /** For every well-formed device there is a host whose answers describe it. */
  lemma HostDescribes(d: Device, route: string, inet: string)
    requires WellFormed(d)
    ensures Describes(HostOf(d, route, inet), d)
  {
    var h := HostOf(d, route, inet);
    forall x | Within(x, d) ensures Describes1(h, x) {
      assert Find(d, x.name) == Some(x);
      match x
      case Nic(_) =>
      case Bond(_, slaves, mode) =>
        MemberWords(d, x, slaves);
        ModeWord(mode);
      case Bridge(_, ports) =>
        MemberWords(d, x, ports);
      case Vlan(_, parent, id) =>
        assert Within(parent, x);
        WithinTransitive(parent, x, d);
    }
  }

  // ----- detection on such a host

  lemma AddressIsWord(ip: Ip)
    ensures FormatIp(ip) != "" && SpaceFree(FormatIp(ip)) && FormatIp(ip) != "dev"
  {
    ParseFormatIp(ip);
    IpChars(FormatIp(ip));
    assert forall c :: IsDigit(c) || c == '.' ==> !IsSpace(c);
    assert !IsDigit("dev"[0]);
  }

  /** "default via <gateway> dev <name>". */
  function RouteLine(gateway: string, name: string): seq<string> {
    ["default", "via", gateway, "dev", name]
  }

  lemma RouteLineScan(gateway: string, name: string)
    requires gateway != "dev" && gateway != "src" && gateway != ""
    requires name != ""
    ensures Successor(RouteLine(gateway, name), "via") == gateway
    ensures Successor(RouteLine(gateway, name), "dev") == name
    ensures Successor(RouteLine(gateway, name), "src") == ""
  {
    var w := RouteLine(gateway, name);
    var d, v, e := "default", "via", "dev";
    assert |d| == 7 && |v| == 3 && v[0] == 'v' && e[0] == 'd' && "src"[0] == 's';
    var w1, w2, w3, w4 := [v, gateway, e, name], [gateway, e, name], [e, name], [name];
    assert w[1..] == w1 && w1[1..] == w2 && w2[1..] == w3 && w3[1..] == w4;
    assert Successor(w4, "src") == "";
    assert Successor(w3, "src") == "" && Successor(w3, "dev") == name;
    assert Successor(w2, "src") == "" && Successor(w2, "dev") == name;
  }

  lemma NotSrc(ip: Ip)
    ensures FormatIp(ip) != "src"
  {
    ParseFormatIp(ip);
    IpChars(FormatIp(ip));
    assert !IsDigit("src"[0]);
  }

  lemma LiteralWords()
    ensures SpaceFree("default") && SpaceFree("via") && SpaceFree("dev")
  {
  }

  /** What is detected on the host, without any configured value. */
  lemma DetectedOn(d: Device, gw: Ip, own: Ip, p: nat)
    requires WellFormed(d) && ValidInterfaceName(d.name) && 1 <= p <= 32
    ensures var h := HostOf(d, Join(RouteLine(FormatIp(gw), d.name)), FormatIp(own) + "/" + NatText(p));
            Detect("", "", h)
            == Ok(Net(d.name, FormatIp(own), p, FormatIp(gw), Or(Trim("host"), "server"), ShapeOf(h, d.name)))
  {
    AddressIsWord(gw);
    AddressIsWord(own);
    NotSrc(gw);
    NameIsWord(d.name);
    RouteScanned(FormatIp(gw), d.name);
    ParseFormatCidr(own, p);
  }

  lemma RouteScanned(gateway: string, name: string)
    requires gateway != "dev" && gateway != "src" && gateway != "" && name != ""
    requires SpaceFree(gateway) && SpaceFree(name)
    ensures var words := RouteWords(Join(RouteLine(gateway, name)));
            FirstSuccessor(words, "via") == gateway && FirstSuccessor(words, "dev") == name
            && FirstSuccessor(words, "src") == ""
  {
    LiteralWords();
    var w := RouteLine(gateway, name);
    RouteOfWords(w);
    RouteLineScan(gateway, name);
    OneLine(w, "via");
    OneLine(w, "dev");
    OneLine(w, "src");
  }

  lemma OneLine(w: seq<string>, keyword: string)
    ensures FirstSuccessor([w], keyword) == Successor(w, keyword)
  {
    assert [w][1..] == [];
  }

  // ----- the boot world

  /** One NIC with nothing configured on it, under Linux. */
  function WorldOf(nic: string, lowestIsHost: bool): Kernel {
    Kernel(map[nic := Link(Ethernet, false)], [nic], {}, [], {}, {"8021q", "wireguard"}, {}, true, {}, false,
           lowestIsHost)
  }

  lemma BootNameFree(h: Host, d: Device)
    requires Describes(h, d) && WellFormed(d) && Supported(d) && d.Vlan?
    ensures Lower(d.name, ShapeOf(h, d.name)).iface != GrubDevice(d).name
  {
    LowersToNicOrVlan(h, d);
    GrubDeviceWithin(d);
    assert d != GrubDevice(d);
    if d.parent.Bond? {
      assert |GrubDevice(d).name + "." + NatText(d.id)| > |GrubDevice(d).name|;
    }
  }

  /** The gateway is another host of the block with the given address and prefix. */
  predicate InBlock(own: Ip, p: nat, gw: Ip, lowestIsHost: bool)
    requires p <= 32
  {
    var first, x := Number(Masked(own, p)), Number(gw);
    var last := first + Pow2(32 - p) - 1;
    gw != own && if p >= 31 then first <= x <= last else (if lowestIsHost then first <= x else first < x) && x < last
  }

  /** What the theorem asks of host, configuration and boot world. */
  ghost predicate Premised(h: Host, d: Device, c: Settings, n: Net, k: Kernel) {
    && Describes(h, d) && WellFormed(d) && Supported(d)
    && Detect("", "", h) == Ok(n) && n.iface == d.name
    && Readable(c, n) && NicsOnly(k)
  }

  /** The texts of such a network are readable. */
  lemma TextsReadable(c: Settings, n: Net, gw: Ip, own: Ip, p: nat, server: Ip)
    requires n.ip == FormatIp(own) && n.prefix == p && n.gateway == FormatIp(gw) && p <= 32
    requires c.wgServerIp == FormatIp(server) + "/" + NatText(24)
    ensures Readable(c, n) && Wanted(c, n) == Goal(Cidr(server, 24), Cidr(own, p), gw)
  {
    ParseFormatCidr(server, 24);
    ParseFormatIp(own);
    ParseFormatIp(gw);
  }

  lemma MeetPremises(d: Device, gw: Ip, own: Ip, p: nat, server: Ip, k: Kernel)
    returns (h: Host, c: Settings, n: Net)
    requires WellFormed(d) && Supported(d) && ValidInterfaceName(d.name) && 1 <= p <= 32
    requires NicsOnly(k)
    ensures Premised(h, d, c, n, k) && n.ip == FormatIp(own) && n.prefix == p && n.gateway == FormatIp(gw)
    ensures n.shape == ShapeOf(h, d.name)
    ensures Wanted(c, n) == Goal(Cidr(server, 24), Cidr(own, p), gw)
  {
    var route, inet := Join(RouteLine(FormatIp(gw), d.name)), FormatIp(own) + "/" + NatText(p);
    h := HostOf(d, route, inet);
    HostDescribes(d, route, inet);
    DetectedOn(d, gw, own, p);
    n := Detect("", "", h).value;
    c := DEFAULTS.(wgServerIp := FormatIp(server) + "/" + NatText(24));
    TextsReadable(c, n, gw, own, p, server);
  }

  lemma FitsInWorld(g: Goal, iface: string, nic: string, lowestIsHost: bool)
    requires g.own.prefix <= 32
    ensures GatewayFits(WorldOf(nic, lowestIsHost), g, iface) <==> InBlock(g.own.ip, g.own.prefix, g.gw, lowestIsHost)
  {
    GatewayFitsBlock(WorldOf(nic, lowestIsHost), g, iface);
  }

  /** What such a world offers a device. */
  lemma WorldOffers(h: Host, d: Device, low: Lowered, k: Kernel, lowestIsHost: bool)
    requires Describes(h, d) && WellFormed(d) && Supported(d)
    requires low == Lower(d.name, ShapeOf(h, d.name)) && k == WorldOf(GrubDevice(d).name, lowestIsHost)
    ensures IsEthernet(k, low.grubIface) && (d.Vlan? ==> low.iface !in k.links)
    ensures BootIface(d, low, k) == low.iface && BootDevice(d, low, k) == low.grubIface && AtAddressing(k, d, low) == k
    ensures Offers(k, d, low) <==> NameFits(d) && (d.Vlan? ==> low.iface != "wg0")
  {
    LowersToNicOrVlan(h, d);
    LowersToGrubDevice(h, d);
    if d.Vlan? {
      BootNameFree(h, d);
    }
  }

  /** For every supported device, every address, prefix and gateway there are a host, a
      configuration and a boot world that meet the premises of the theorem. There the device comes
      back online exactly when the gateway is another host of the static block and the name of the
      boot interface fits. */
  lemma EverySupportedDevice(d: Device, gw: Ip, own: Ip, p: nat, server: Ip, lowestIsHost: bool)
    returns (h: Host, c: Settings, n: Net, k: Kernel)
    requires WellFormed(d) && Supported(d) && ValidInterfaceName(d.name) && 1 <= p <= 32
    requires GrubDevice(d).name != "wg0"
    ensures Premised(h, d, c, n, k) && n.ip == FormatIp(own) && n.prefix == p && n.gateway == FormatIp(gw)
    ensures var low := Lower(n.iface, n.shape);
            var r := Exec(Program(ScriptOf(c, n)), Start(Real(k)));
            && IsEthernet(k, low.grubIface) && (d.Vlan? ==> low.iface !in k.links)
            && (Online(r, Goal(Cidr(server, 24), Cidr(own, p), gw), low.iface, low.grubIface, Tags(d)) <==>
                  NameFits(d) && InBlock(own, p, gw, lowestIsHost) && (d.Vlan? ==> low.iface != "wg0"))
  {
    k := WorldOf(GrubDevice(d).name, lowestIsHost);
    h, c, n := MeetPremises(d, gw, own, p, server, k);
    var low := Lower(n.iface, n.shape);
    WorldOffers(h, d, low, k, lowestIsHost);
    FitsInWorld(Wanted(c, n), low.iface, GrubDevice(d).name, lowestIsHost);
    RebuildsConnectivity(h, d, "", "", c, n, k);
  }
}

/** The boot script in a world that has only NICs rebuilds the connectivity of the running host. */
module Reconnect {
  import opened Text
  import opened Decimal
  import opened Bits
  import opened Ipv4
  import opened ConfigModel
  import opened NetDetect
  import opened Topology
  import opened BootScript

  // ----- what is there at boot, and what is to be there at the end

  /** The name of the tunnel is free, or a tunnel of that name is left over. */
  predicate StaleAtMost(k: Kernel) {
    "wg0" in k.links ==> k.links["wg0"].kind.WireGuard?
  }

  /** Early at boot: NICs, the loopback and at most a tunnel of an earlier run, at most the default
      route of the kernel's ip= parameter, a kernel that has WireGuard and takes its configuration. */
  ghost predicate NicsOnly(k: Kernel) {
    && (forall n :: n in k.links && n != "wg0" ==> k.links[n].kind.Ethernet? || k.links[n].kind.Loopback?)
    && (forall a :: a in k.addrs ==> a.dev in k.links)
    && StaleAtMost(k) && |k.defaults| <= 1 && Available(k, "wireguard") && k.wgConfValid
  }

  /** Frames of the interface leave through the NIC, with these tags. */
  ghost predicate OnWire(k: Kernel, iface: string, nic: string, tags: seq<nat>) {
    IsUp(k, iface) && IsUp(k, nic) && IsEthernet(k, nic)
    && match k.links[iface].kind
       case Ethernet => iface == nic && tags == []
       case VlanOn(parent, id) => parent == nic && tags == [id]
       case _ => false
  }

  /** What the network is to be: the block of wg0, the block of the interface, and the gateway. */
  datatype Goal = Goal(tunnel: Cidr, own: Cidr, gw: Ip)

  /** The addresses that a script was rendered with. */
  function GoalOf(d: ScriptData): Goal
    requires ScriptProblem(d) == None
  {
    Goal(ParseCidr(d.serverIp).value, ParseCidr(d.staticIp).value, ParseIp(d.gatewayIp).value)
  }

  ghost predicate TunnelReady(k: Kernel, tunnel: Cidr) {
    IsUp(k, "wg0") && k.links["wg0"].kind == WireGuard && Addr("wg0", tunnel) in k.addrs && "wg0" in k.wgConfigured
  }

  /** The script has reached its end with IFACE on the wire and addressed, and wg0 ready. */
  ghost predicate Booted(sh: Shell, g: Goal, iface: string, nic: string, tags: seq<nat>) {
    sh.m.Real? && !sh.halted && sh.iface == iface && OnWire(sh.m.k, iface, nic, tags)
    && Addr(iface, g.own) in sh.m.k.addrs && TunnelReady(sh.m.k, g.tunnel)
  }

  /** And traffic goes to the gateway over IFACE. */
  ghost predicate Online(sh: Shell, g: Goal, iface: string, nic: string, tags: seq<nat>) {
    Booted(sh, g, iface, nic, tags) && sh.m.k.defaults == [Route(g.gw, iface)]
  }

  /** A default route via the gateway can be set: the gateway is another host and a neighbour on
      the device, or the kernel lets the script make it one. */
  ghost predicate Routable(k: Kernel, gw: Ip, dev: string) {
    !HasAddr(k, gw)
    && (Neighbour(k, gw, dev)
        || (k.bareOnLink && (forall r :: r in k.onLink ==> r.ip != gw) && !BroadcastOn(k, gw, dev)))
  }

  function WithStatic(k: Kernel, own: Cidr, iface: string): Kernel {
    k.(addrs := k.addrs + {Addr(iface, own)})
  }

  /** What can be said before the script runs: with the static address on the device, the
      default route can be set. */
  ghost predicate GatewayFits(k: Kernel, g: Goal, iface: string) {
    Routable(WithStatic(k, g.own, iface), g.gw, iface)
  }

  /** On a device with one block and no host routes only this block counts. */
  lemma OneBlock(k: Kernel, own: Cidr, gw: Ip, dev: string)
    requires !k.bareOnLink && Addr(dev, own) in k.addrs && own.prefix <= 32
    requires forall a :: a in k.addrs && a.dev == dev ==> a == Addr(dev, own)
    requires forall r :: r in k.onLink ==> r.dev != dev
    ensures Routable(k, gw, dev) <==> !HasAddr(k, gw) && Contains(own.ip, own.prefix, gw) && !Broadcast(k, own, gw)
  {
    assert Addr(dev, own).block == own;
    assert Connected(k, gw, dev) <==> Contains(own.ip, own.prefix, gw);
    assert BroadcastOn(k, gw, dev) <==> Broadcast(k, own, gw);
  }

  /** The hosts of a block as numbers. */
  lemma HostsOfBlock(k: Kernel, own: Cidr, ip: Ip)
    requires own.prefix <= 32
    ensures var first, x := Number(Masked(own.ip, own.prefix)), Number(ip);
            var last := first + Pow2(32 - own.prefix) - 1;
            Contains(own.ip, own.prefix, ip) && !Broadcast(k, own, ip) <==>
              if own.prefix >= 31 then first <= x <= last
              else (if k.lowestIsHost then first <= x else first < x) && x < last
  {
    MaskedTwice(own.ip, own.prefix);
    ContainsInterval(own.ip, own.prefix, ip);
  }

  lemma OwnAddress(k: Kernel, k1: Kernel, own: Addr, gw: Ip)
    requires k1.addrs == k.addrs + {own}
    ensures HasAddr(k1, gw) <==> HasAddr(k, gw) || own.block.ip == gw
  {
    assert own in k1.addrs;
    assert forall a :: a in k.addrs ==> a in k1.addrs;
  }

  /** On Linux and on a device that has no addresses or host routes yet, the gateway fits
      exactly when it lies in the static block, is not its broadcast address, and is the
      address of another host. */
  lemma GatewayFitsBlock(k: Kernel, g: Goal, iface: string)
    requires g.own.prefix <= 32 && !k.bareOnLink
    requires (forall a :: a in k.addrs ==> a.dev != iface) && (forall r :: r in k.onLink ==> r.dev != iface)
    ensures var first := Number(Masked(g.own.ip, g.own.prefix));
            var last := first + Pow2(32 - g.own.prefix) - 1;
            GatewayFits(k, g, iface) <==>
              g.gw != g.own.ip && !HasAddr(k, g.gw)
              && if g.own.prefix >= 31 then first <= Number(g.gw) <= last
                 else (if k.lowestIsHost then first <= Number(g.gw) else first < Number(g.gw)) && Number(g.gw) < last
  {
    var own, gw := g.own, g.gw;
    var k1 := WithStatic(k, own, iface);
    OneBlock(k1, own, gw, iface);
    OwnAddress(k, k1, Addr(iface, own), gw);
    assert GatewayFits(k, g, iface) <==>
      gw != own.ip && !HasAddr(k, gw) && Contains(own.ip, own.prefix, gw) && !Broadcast(k1, own, gw);
    HostsOfBlock(k1, own, gw);
  }

  // ----- the parts of the script

  /** The interface a script without VLAN or bond settles on. */
  function BootNic(k: Kernel, name: string): string {
    if name in k.links then name else Picked(Real(k), name)
  }

  /** The loop over /sys/class/net picks the first Ethernet interface, when there is one. */
  lemma {:induction false} FirstEthernetIs(k: Kernel, names: seq<string>)
    requires forall n :: n in k.links ==> k.links[n].kind.Ethernet? || k.links[n].kind.Loopback?
    ensures match FirstEthernet(k, names)
            case None => forall i :: 0 <= i < |names| ==> names[i] == "lo" || !IsEthernet(k, names[i])
            case Some(n) => n != "lo" && IsEthernet(k, n)
                            && exists i :: 0 <= i < |names| && names[i] == n
                                           && forall j :: 0 <= j < i ==> names[j] == "lo" || !IsEthernet(k, names[j])
  {
    if names != [] {
      FirstEthernetIs(k, names[1..]);
      if FirstEthernet(k, names) == Some(names[0]) {
        assert names[0] == FirstEthernet(k, names).value;
      } else {
        assert names[0] == "lo" || !IsEthernet(k, names[0]);
        assert forall j :: 0 < j < |names| ==> names[j] == names[1..][j - 1];
        if FirstEthernet(k, names).Some? {
          var i :| 0 <= i < |names[1..]| && names[1..][i] == FirstEthernet(k, names).value
                   && forall j :: 0 <= j < i ==> names[1..][j] == "lo" || !IsEthernet(k, names[1..][j]);
          assert names[i + 1] == FirstEthernet(k, names).value;
        }
      }
    }
  }

  lemma PlainInterface(d: ScriptData, k: Kernel)
    requires d.vlanPhysdev == "" && d.bondSlaves == ""
    ensures Exec(InterfacePart(d), Start(Real(k))) == Shell(Real(k), BootNic(k, d.iface), false)
  {
    var s := Start(Real(k));
    ExecTwo(SetIface(d.iface), IfFails(ShowLink(IfaceVar), [PickEthernet]), s);
    var s1 := Then(s, SetIface(d.iface));
    ExecSnoc([], PickEthernet, s1);
    assert [] + [PickEthernet] == [PickEthernet];
  }

  /** The kernel once the addresses of a NIC are flushed. */
  function Flushed(k: Kernel, nic: string): Kernel {
    if exists a :: a in k.addrs && a.dev == nic then DropAddrs(k, nic) else k
  }

  /** The kernel once a module has been asked for. */
  function Probed(k: Kernel, m: string): Kernel {
    if Available(k, m) then k.(loaded := k.loaded + {m}) else k
  }

  /** The kernel behind the VLAN branch. */
  function VlanMade(k: Kernel, nic: string, name: string, id: nat): Kernel
    requires nic in k.links
  {
    var links := k.links[nic := Link(Ethernet, true)];
    Flushed(k, nic).(
      loaded := Probed(k, "8021q").loaded,
      links := if KernelName(name) && Available(k, "8021q") then links[name := Link(VlanOn(nic, id), false)] else links)
  }

  /** The parent is brought up and loses its addresses. */
  lemma ParentReady(k: Kernel, nic: string)
    requires nic in k.links && k.links[nic].kind.Ethernet?
    ensures Then(Then(Then(Start(Real(k)), OrTrue(Modprobe("8021q"))), Must(SetUp(Named(nic)))),
                 OrTrue(FlushAddr(Named(nic))))
            == Start(Real(Flushed(k, nic).(loaded := Probed(k, "8021q").loaded,
                                           links := k.links[nic := Link(Ethernet, true)])))
  {
    var s := Start(Real(k));
    var k0 := Probed(k, "8021q");
    assert Then(s, OrTrue(Modprobe("8021q"))) == s.(m := Real(k0));
    var k1 := k0.(links := k.links[nic := Link(Ethernet, true)]);
    assert Then(s.(m := Real(k0)), Must(SetUp(Named(nic)))) == s.(m := Real(k1));
    assert Flushed(k1, nic) == Flushed(k, nic).(loaded := k0.loaded, links := k1.links);
  }

  lemma VlanInterface(d: ScriptData, k: Kernel)
    requires NicsOnly(k) && d.vlanPhysdev != "" && d.bondSlaves == "" && d.vlanId <= 4094
    requires IsEthernet(k, d.vlanPhysdev) && d.iface !in k.links
    ensures Exec(InterfacePart(d), Start(Real(k)))
            == Shell(Real(VlanMade(k, d.vlanPhysdev, d.iface, d.vlanId)), d.iface, false)
  {
    var nic := d.vlanPhysdev;
    var s := Start(Real(k));
    var up, flush, add := SetUp(Named(nic)), FlushAddr(Named(nic)), AddVlan(nic, d.iface, d.vlanId);
    ExecFive(OrTrue(Modprobe("8021q")), Must(up), OrTrue(flush), OrTrue(add), SetIface(d.iface), s);
    ParentReady(k, nic);
    var k2 := Flushed(k, nic).(loaded := Probed(k, "8021q").loaded, links := k.links[nic := Link(Ethernet, true)]);
    assert CanCarryVlan(k2, nic, d.vlanId);
    var k3 := VlanMade(k, nic, d.iface, d.vlanId);
    assert Then(Shell(Real(k2), "", false), OrTrue(add)) == Shell(Real(k3), "", false);
  }

  /** A VLAN parent that is not there ends the script at once. */
  lemma NoParentHalts(d: ScriptData, k: Kernel)
    requires d.vlanPhysdev != "" && d.bondSlaves == "" && d.vlanPhysdev !in k.links
    ensures Exec(InterfacePart(d), Start(Real(k))) == Shell(Real(Probed(k, "8021q")), "", true)
  {
    var nic := d.vlanPhysdev;
    ExecFive(OrTrue(Modprobe("8021q")), Must(SetUp(Named(nic))), OrTrue(FlushAddr(Named(nic))),
             OrTrue(AddVlan(nic, d.iface, d.vlanId)), SetIface(d.iface), Start(Real(k)));
  }

  lemma {:induction false} OthersShorter(routes: seq<Route>, dev: string)
    ensures |Others(routes, dev)| <= |routes|
  {
    if routes != [] {
      OthersShorter(routes[1..], dev);
    }
  }

  /** An interface that is not there ends the script. */
  lemma NoInterfaceHalts(d: ScriptData, sh: Shell)
    requires sh.m.Real? && !sh.halted && sh.iface !in sh.m.k.links
    ensures Exec(AddressPart(d), sh) == sh.(halted := true)
  {
    ExecFour(Must(SetUp(IfaceVar)), OrTrue(AddAddr(d.staticIp, IfaceVar)), OrTrue(DelDefault),
             IfFails(AddDefault(d.gatewayIp, IfaceVar), RouteBody(d)), sh);
  }

  /** The host route that the script asks for when the default route has failed. */
  lemma HostRoute(d: ScriptData, sh: Shell, gw: Ip) returns (k1: Kernel)
    requires sh.m.Real? && !sh.halted && ParseIp(d.gatewayIp) == Some(gw) && IsUp(sh.m.k, sh.iface)
    ensures Then(sh, OrTrue(AddOnLink(d.gatewayIp, IfaceVar))) == sh.(m := Real(k1))
    ensures var asked := sh.m.k.bareOnLink && forall r :: r in sh.m.k.onLink ==> r.ip != gw;
            k1 == if asked then sh.m.k.(onLink := sh.m.k.onLink + {Route(gw, sh.iface)}) else sh.m.k
  {
    k1 := if sh.m.k.bareOnLink && forall r :: r in sh.m.k.onLink ==> r.ip != gw
      then sh.m.k.(onLink := sh.m.k.onLink + {Route(gw, sh.iface)}) else sh.m.k;
  }

  lemma SecondTry(d: ScriptData, sh: Shell, gw: Ip) returns (onLink: set<Route>)
    requires sh.m.Real? && !sh.halted && ParseIp(d.gatewayIp) == Some(gw)
    requires IsUp(sh.m.k, sh.iface) && sh.m.k.defaults == []
    requires HasAddr(sh.m.k, gw) || !Neighbour(sh.m.k, gw, sh.iface)
    ensures var r := Exec(RouteBody(d), sh);
            r.m.Real? && !r.halted && r.iface == sh.iface
            && r.m.k == sh.m.k.(onLink := onLink,
                                defaults := if Routable(sh.m.k, gw, sh.iface) then [Route(gw, sh.iface)] else [])
  {
    var k := sh.m.k;
    ExecTwo(OrTrue(AddOnLink(d.gatewayIp, IfaceVar)), OrTrue(AddDefault(d.gatewayIp, IfaceVar)), sh);
    var k1 := HostRoute(d, sh, gw);
    onLink := k1.onLink;
    assert BroadcastOn(k1, gw, sh.iface) <==> BroadcastOn(k, gw, sh.iface);
    assert Connected(k1, gw, sh.iface) <==> Connected(k, gw, sh.iface);
    assert HasAddr(k1, gw) <==> HasAddr(k, gw);
  }

  /** The default route is set exactly when the gateway can be a next hop. When it is no
      neighbour, all hangs on the host route that the script then asks for. */
  lemma DefaultRouteSet(d: ScriptData, sh: Shell, gw: Ip) returns (onLink: set<Route>)
    requires sh.m.Real? && !sh.halted && ParseIp(d.gatewayIp) == Some(gw)
    requires IsUp(sh.m.k, sh.iface) && sh.m.k.defaults == []
    ensures var r := Then(sh, IfFails(AddDefault(d.gatewayIp, IfaceVar), RouteBody(d)));
            r.m.Real? && !r.halted && r.iface == sh.iface
            && r.m.k == sh.m.k.(onLink := onLink,
                                defaults := if Routable(sh.m.k, gw, sh.iface) then [Route(gw, sh.iface)] else [])
  {
    if HasAddr(sh.m.k, gw) || !Neighbour(sh.m.k, gw, sh.iface) {
      onLink := SecondTry(d, sh, gw);
    } else {
      onLink := sh.m.k.onLink;
    }
  }

  /** Up, addressed, and the stale default route gone. */
  lemma Addressed(d: ScriptData, sh: Shell, own: Cidr) returns (k: Kernel)
    requires sh.m.Real? && !sh.halted && ParseCidr(d.staticIp) == Some(own)
    requires CanGoUp(sh.m.k, sh.iface) && |sh.m.k.defaults| <= 1
    ensures Then(Then(Then(sh, Must(SetUp(IfaceVar))), OrTrue(AddAddr(d.staticIp, IfaceVar))), OrTrue(DelDefault))
            == sh.(m := Real(k))
    ensures k == sh.m.k.(links := sh.m.k.links[sh.iface := sh.m.k.links[sh.iface].(up := true)],
                         addrs := sh.m.k.addrs + {Addr(sh.iface, own)}, defaults := [])
  {
    var k0 := sh.m.k;
    var k1 := k0.(links := k0.links[sh.iface := k0.links[sh.iface].(up := true)]);
    assert Then(sh, Must(SetUp(IfaceVar))) == sh.(m := Real(k1));
    var k2 := k1.(addrs := k1.addrs + {Addr(sh.iface, own)});
    if Addr(sh.iface, own) in k1.addrs {
      assert k1.addrs + {Addr(sh.iface, own)} == k1.addrs;
    }
    assert Then(sh.(m := Real(k1)), OrTrue(AddAddr(d.staticIp, IfaceVar))) == sh.(m := Real(k2));
    k := k2.(defaults := []);
    if k2.defaults != [] {
      assert k2.defaults[1..] == [];
    }
  }

  lemma AddressesAndRoutes(d: ScriptData, sh: Shell) returns (onLink: set<Route>)
    requires sh.m.Real? && !sh.halted && ScriptProblem(d) == None
    requires CanGoUp(sh.m.k, sh.iface) && |sh.m.k.defaults| <= 1
    ensures var r, gw := Exec(AddressPart(d), sh), ParseIp(d.gatewayIp).value;
            r.m.Real? && !r.halted && r.iface == sh.iface
            && r.m.k == WithStatic(sh.m.k, GoalOf(d).own, sh.iface).(
                          links := sh.m.k.links[sh.iface := sh.m.k.links[sh.iface].(up := true)],
                          defaults := if GatewayFits(sh.m.k, GoalOf(d), sh.iface) then [Route(gw, sh.iface)] else [],
                          onLink := onLink)
  {
    var own, gw := ParseCidr(d.staticIp).value, ParseIp(d.gatewayIp).value;
    ExecFour(Must(SetUp(IfaceVar)), OrTrue(AddAddr(d.staticIp, IfaceVar)), OrTrue(DelDefault),
             IfFails(AddDefault(d.gatewayIp, IfaceVar), RouteBody(d)), sh);
    var k := Addressed(d, sh, own);
    SameAddresses(k, WithStatic(sh.m.k, GoalOf(d).own, sh.iface), gw, sh.iface);
    onLink := DefaultRouteSet(d, sh.(m := Real(k)), gw);
  }

  /** Whether the gateway fits depends on addresses and host routes only. */
  lemma SameAddresses(k: Kernel, l: Kernel, gw: Ip, dev: string)
    requires k.addrs == l.addrs && k.onLink == l.onLink
    requires k.bareOnLink == l.bareOnLink && k.lowestIsHost == l.lowestIsHost
    ensures Routable(k, gw, dev) <==> Routable(l, gw, dev)
  {
    assert BroadcastOn(k, gw, dev) <==> BroadcastOn(l, gw, dev);
    assert Connected(k, gw, dev) <==> Connected(l, gw, dev);
    assert HasAddr(k, gw) <==> HasAddr(l, gw);
  }

  /** The kernel when a left-over tunnel is gone. */
  function WithoutTunnel(k: Kernel, wg: string): Kernel {
    if wg in k.links then DropAddrs(k.(links := k.links - {wg}, wgConfigured := k.wgConfigured - {wg}), wg) else k
  }

  /** What was there before in place of the tunnel goes, and the tunnel device is made next to
      everything else. */
  lemma TunnelMade(d: ScriptData, sh: Shell)
    requires sh.m.Real? && !sh.halted && ScriptProblem(d) == None
    requires StaleAtMost(sh.m.k) && Available(sh.m.k, "wireguard") && sh.m.k.wgConfValid
    requires forall a :: a in sh.m.k.addrs ==> a.dev in sh.m.k.links
    ensures var r, k := Exec(TunnelPart(d), sh), WithoutTunnel(sh.m.k, "wg0");
            r.m.Real? && !r.halted && r.iface == sh.iface
            && r.m.k == k.(loaded := sh.m.k.loaded + {"wireguard"},
                           links := k.links["wg0" := Link(WireGuard, true)],
                           addrs := k.addrs + {Addr("wg0", ParseCidr(d.serverIp).value)},
                           wgConfigured := k.wgConfigured + {"wg0"})
  {
    var wg := "wg0";
    assert KernelName(wg) by {
      assert wg[0] == 'w' && wg[1] == 'g' && wg[2] == '0';
    }
    ExecSix(OrTrue(Modprobe("wireguard")), OrTrue(DelLink(wg)), Must(AddWireGuard(wg)),
            Must(AddAddr(d.serverIp, Named(wg))), Must(SetConf(wg)), Must(SetUp(Named(wg))), sh);
    FourCommands(d, sh, wg);
  }

  /** The module is loaded and a left-over tunnel deleted. */
  lemma PlaceMade(sh: Shell, wg: string) returns (k: Kernel)
    requires sh.m.Real? && !sh.halted && Available(sh.m.k, "wireguard")
    requires wg in sh.m.k.links ==> sh.m.k.links[wg].kind.WireGuard?
    ensures k == WithoutTunnel(sh.m.k, wg).(loaded := sh.m.k.loaded + {"wireguard"})
    ensures Then(Then(sh, OrTrue(Modprobe("wireguard"))), OrTrue(DelLink(wg))) == sh.(m := Real(k))
    ensures wg !in k.links && "wireguard" in k.loaded
  {
    var k1 := sh.m.k.(loaded := sh.m.k.loaded + {"wireguard"});
    assert Then(sh, OrTrue(Modprobe("wireguard"))) == sh.(m := Real(k1));
    k := WithoutTunnel(k1, wg);
  }

  lemma LinkAndAddress(d: ScriptData, sh: Shell, wg: string)
    requires sh.m.Real? && !sh.halted && ScriptProblem(d) == None && KernelName(wg)
    requires wg !in sh.m.k.links && "wireguard" in sh.m.k.loaded
    requires forall a :: a in sh.m.k.addrs ==> a.dev in sh.m.k.links
    ensures Then(Then(sh, Must(AddWireGuard(wg))), Must(AddAddr(d.serverIp, Named(wg))))
            == sh.(m := Real(AddLink(sh.m.k, wg, WireGuard).(
                               addrs := sh.m.k.addrs + {Addr(wg, ParseCidr(d.serverIp).value)})))
  {
    var k1 := AddLink(sh.m.k, wg, WireGuard);
    assert Then(sh, Must(AddWireGuard(wg))) == sh.(m := Real(k1));
    assert Addr(wg, ParseCidr(d.serverIp).value) !in k1.addrs;
  }

  lemma ConfiguredAndUp(sh: Shell, wg: string)
    requires sh.m.Real? && !sh.halted && sh.m.k.wgConfValid
    requires wg in sh.m.k.links && sh.m.k.links[wg].kind == WireGuard
    ensures Then(Then(sh, Must(SetConf(wg))), Must(SetUp(Named(wg))))
            == sh.(m := Real(sh.m.k.(links := sh.m.k.links[wg := Link(WireGuard, true)],
                                     wgConfigured := sh.m.k.wgConfigured + {wg})))
  {
    var k1 := sh.m.k.(wgConfigured := sh.m.k.wgConfigured + {wg});
    assert Then(sh, Must(SetConf(wg))) == sh.(m := Real(k1));
  }

  lemma FourCommands(d: ScriptData, sh: Shell, wg: string)
    requires sh.m.Real? && !sh.halted && ScriptProblem(d) == None && KernelName(wg)
    requires wg in sh.m.k.links ==> sh.m.k.links[wg].kind.WireGuard?
    requires Available(sh.m.k, "wireguard") && sh.m.k.wgConfValid
    requires forall a :: a in sh.m.k.addrs ==> a.dev in sh.m.k.links
    ensures var k := WithoutTunnel(sh.m.k, wg);
            var s2 := Then(Then(sh, OrTrue(Modprobe("wireguard"))), OrTrue(DelLink(wg)));
            Then(Then(Then(Then(s2, Must(AddWireGuard(wg))), Must(AddAddr(d.serverIp, Named(wg)))), Must(SetConf(wg))),
                 Must(SetUp(Named(wg))))
            == sh.(m := Real(k.(loaded := sh.m.k.loaded + {"wireguard"},
                                links := k.links[wg := Link(WireGuard, true)],
                                addrs := k.addrs + {Addr(wg, ParseCidr(d.serverIp).value)},
                                wgConfigured := k.wgConfigured + {wg})))
  {
    var k := PlaceMade(sh, wg);
    LinkAndAddress(d, sh.(m := Real(k)), wg);
    var k2 := AddLink(k, wg, WireGuard).(addrs := k.addrs + {Addr(wg, ParseCidr(d.serverIp).value)});
    ConfiguredAndUp(sh.(m := Real(k2)), wg);
    assert k2.links[wg := Link(WireGuard, true)] == k.links[wg := Link(WireGuard, true)];
  }

  // ----- what is there stays what it is

  /** The NICs and the loopback are still there, as such, and no NIC appears. */
  ghost predicate Keeps(k: Kernel, after: Machine) {
    after.Real?
    && (forall n :: n in k.links && (k.links[n].kind.Ethernet? || k.links[n].kind.Loopback?) ==>
          n in after.k.links && after.k.links[n].kind == k.links[n].kind)
    && forall n :: IsEthernet(after.k, n) ==> IsEthernet(k, n)
  }

  lemma DoKeepsOld(k: Kernel, m: Machine, c: Command, iface: string, n: string)
    requires Keeps(k, m) && n in k.links && (k.links[n].kind.Ethernet? || k.links[n].kind.Loopback?)
    ensures var after := Do(m, c, iface).m;
            after.Real? && n in after.k.links && after.k.links[n].kind == k.links[n].kind
  {
  }

  lemma DoMakesNone(k: Kernel, m: Machine, c: Command, iface: string, n: string)
    requires Keeps(k, m) && !IsEthernet(k, n)
    ensures var after := Do(m, c, iface).m; after.Real? && !IsEthernet(after.k, n)
  {
  }

  lemma DoKeeps(k: Kernel, m: Machine, c: Command, iface: string)
    requires Keeps(k, m)
    ensures Keeps(k, Do(m, c, iface).m)
  {
    var after := Do(m, c, iface).m;
    forall n | n in k.links && (k.links[n].kind.Ethernet? || k.links[n].kind.Loopback?)
      ensures n in after.k.links && after.k.links[n].kind == k.links[n].kind
    {
      DoKeepsOld(k, m, c, iface, n);
    }
    forall n | IsEthernet(after.k, n) ensures IsEthernet(k, n) {
      if !IsEthernet(k, n) {
        DoMakesNone(k, m, c, iface, n);
      }
    }
  }

  lemma {:induction false} OneKeeps(k: Kernel, s: Stmt, sh: Shell)
    requires Keeps(k, sh.m)
    ensures Keeps(k, ExecOne(s, sh).m)
    decreases s
  {
    match s
    case Must(c) => DoKeeps(k, sh.m, c, sh.iface);
    case OrTrue(c) => DoKeeps(k, sh.m, c, sh.iface);
    case IfFails(c, body) =>
      DoKeeps(k, sh.m, c, sh.iface);
      ExecKeeps(k, body, sh.(m := Do(sh.m, c, sh.iface).m));
    case SetIface(_) =>
    case PickEthernet =>
  }

  lemma {:induction false} ExecKeeps(k: Kernel, stmts: seq<Stmt>, sh: Shell)
    requires Keeps(k, sh.m)
    ensures Keeps(k, Exec(stmts, sh).m)
    decreases stmts
  {
    if stmts != [] && !sh.halted {
      OneKeeps(k, stmts[0], sh);
      ExecKeeps(k, stmts[1..], ExecOne(stmts[0], sh));
    }
  }

  // ----- the whole script

  /** Making the tunnel leaves the interface on the wire. */
  lemma StillOnWire(k: Kernel, after: Kernel, iface: string, nic: string, tags: seq<nat>)
    requires OnWire(k, iface, nic, tags) && iface != "wg0" && nic != "wg0"
    requires after.links == WithoutTunnel(k, "wg0").links["wg0" := Link(WireGuard, true)]
    ensures OnWire(after, iface, nic, tags) && IsUp(after, "wg0") && after.links["wg0"].kind == WireGuard
  {
    OthersStay(k, "wg0", iface);
    OthersStay(k, "wg0", nic);
  }

  /** The device has no address. */
  ghost predicate Bare(k: Kernel, dev: string) {
    forall a :: a in k.addrs ==> a.dev != dev
  }

  /** From the point where the interface is chosen and can go up. */
  lemma FromInterface(d: ScriptData, sh: Shell, nic: string, tags: seq<nat>)
    requires sh.m.Real? && !sh.halted && ScriptProblem(d) == None
    requires CanGoUp(sh.m.k, sh.iface) && |sh.m.k.defaults| <= 1
    requires StaleAtMost(sh.m.k) && Available(sh.m.k, "wireguard") && sh.m.k.wgConfValid
    requires forall a :: a in sh.m.k.addrs ==> a.dev in sh.m.k.links
    requires OnWire(sh.m.k.(links := sh.m.k.links[sh.iface := sh.m.k.links[sh.iface].(up := true)]),
                    sh.iface, nic, tags)
    ensures var r, gw := Exec(TunnelPart(d), Exec(AddressPart(d), sh)), ParseIp(d.gatewayIp).value;
            Booted(r, GoalOf(d), sh.iface, nic, tags)
            && r.m.k.defaults == if GatewayFits(sh.m.k, GoalOf(d), sh.iface) then [Route(gw, sh.iface)] else []
  {
    var onLink := AddressesAndRoutes(d, sh);
    var s := Exec(AddressPart(d), sh);
    TunnelMade(d, s);
    var r := Exec(TunnelPart(d), s);
    OthersStay(s.m.k, "wg0", sh.iface);
    StillOnWire(s.m.k, r.m.k, sh.iface, nic, tags);
    assert Addr(sh.iface, ParseCidr(d.staticIp).value) in s.m.k.addrs;
  }

  /** Deleting a tunnel takes nothing from other devices. */
  lemma OthersStay(k: Kernel, wg: string, dev: string)
    requires dev != wg
    ensures var after := WithoutTunnel(k, wg);
            && (dev in k.links <==> dev in after.links) && (dev in k.links ==> after.links[dev] == k.links[dev])
            && after.addrs <= k.addrs && (forall a :: a in k.addrs && a.dev == dev ==> a in after.addrs)
            && (|k.defaults| == 0 || (|k.defaults| == 1 && k.defaults[0].dev == dev) ==> after.defaults == k.defaults)
  {
    if wg in k.links {
      OthersOf(k.defaults, wg, dev);
    }
  }

  lemma OthersOf(routes: seq<Route>, wg: string, dev: string)
    requires dev != wg
    ensures |routes| == 0 || (|routes| == 1 && routes[0].dev == dev) ==> Others(routes, wg) == routes
  {
    if |routes| == 1 {
      assert routes[1..] == [] && routes == [routes[0]];
    }
  }

  /** Beside IFACE and wg0 no device gets an address. */
  lemma StaysBare(d: ScriptData, sh: Shell, dev: string)
    requires sh.m.Real? && !sh.halted && ScriptProblem(d) == None
    requires CanGoUp(sh.m.k, sh.iface) && |sh.m.k.defaults| <= 1 && sh.iface != "wg0"
    requires StaleAtMost(sh.m.k) && Available(sh.m.k, "wireguard") && sh.m.k.wgConfValid
    requires forall a :: a in sh.m.k.addrs ==> a.dev in sh.m.k.links
    requires Bare(sh.m.k, dev) && dev != sh.iface && dev != "wg0"
    ensures var r := Exec(TunnelPart(d), Exec(AddressPart(d), sh)); r.m.Real? && Bare(r.m.k, dev)
  {
    var onLink := AddressesAndRoutes(d, sh);
    var s := Exec(AddressPart(d), sh);
    TunnelMade(d, s);
    OthersStay(s.m.k, "wg0", dev);
    var own, tunnel := Addr(sh.iface, GoalOf(d).own), Addr("wg0", GoalOf(d).tunnel);
    BareAfter(sh.m.k, s.m.k, Exec(TunnelPart(d), s).m.k, own, tunnel, dev);
  }

  lemma BareAfter(before: Kernel, mid: Kernel, after: Kernel, own: Addr, tunnel: Addr, dev: string)
    requires mid.addrs == before.addrs + {own} && after.addrs <= mid.addrs + {tunnel}
    requires Bare(before, dev) && own.dev != dev && tunnel.dev != dev
    ensures Bare(after, dev)
  {
  }

  /** A script for a NIC, a bond or a bridge settles on the named NIC, or on the first Ethernet
      interface when udev has not given that name. It brings that NIC online exactly when it is
      one and the gateway fits; when only the gateway does not fit, the tunnel is there but no
      default route. */
  lemma PlainOnline(d: ScriptData, k: Kernel)
    requires NicsOnly(k) && ScriptProblem(d) == None && d.vlanPhysdev == "" && d.bondSlaves == ""
    ensures var r, nic := Exec(Program(d), Start(Real(k))), BootNic(k, d.iface);
            && (Online(r, GoalOf(d), nic, nic, []) <==> IsEthernet(k, nic) && GatewayFits(k, GoalOf(d), nic))
            && (IsEthernet(k, nic) && !GatewayFits(k, GoalOf(d), nic) ==>
                  Booted(r, GoalOf(d), nic, nic, []) && r.m.k.defaults == [])
  {
    var s, nic := Start(Real(k)), BootNic(k, d.iface);
    ExecProgram(d, s);
    PlainInterface(d, k);
    var s1 := Exec(InterfacePart(d), s);
    if IsEthernet(k, nic) {
      FromInterface(d, s1, nic, []);
    } else if nic in k.links {
      ExecKeeps(k, Program(d), s);
    } else {
      NoInterfaceHalts(d, s1);
    }
  }

  /** What the VLAN branch has made can go up, and is then on the wire. */
  lemma VlanKernel(k: Kernel, nic: string, name: string, id: nat)
    requires NicsOnly(k) && IsEthernet(k, nic) && KernelName(name) && name !in k.links && name != "wg0"
    requires Available(k, "8021q")
    ensures var m := VlanMade(k, nic, name, id);
            && CanGoUp(m, name) && |m.defaults| <= 1 && StaleAtMost(m) && Available(m, "wireguard") && m.wgConfValid
            && m.addrs <= k.addrs && (forall a :: a in m.addrs ==> a.dev in m.links)
            && OnWire(m.(links := m.links[name := m.links[name].(up := true)]), name, nic, [id])
  {
    OthersShorter(k.defaults, nic);
  }

  /** The flushed parent keeps no address. */
  lemma NoneOnParent(k: Kernel, nic: string, name: string, id: nat)
    requires nic in k.links
    ensures Bare(VlanMade(k, nic, name, id), nic)
  {
  }

  lemma FitsWhenMade(k: Kernel, g: Goal, nic: string, name: string, id: nat)
    requires nic in k.links
    ensures GatewayFits(VlanMade(k, nic, name, id), g, name) <==> GatewayFits(Flushed(k, nic), g, name)
  {
    var made := VlanMade(k, nic, name, id);
    SameAddresses(WithStatic(made, g.own, name), WithStatic(Flushed(k, nic), g.own, name), g.gw, name);
  }

  lemma FromVlan(d: ScriptData, k: Kernel)
    requires NicsOnly(k) && ScriptProblem(d) == None
    requires VlanOffered(k, d)
    ensures var s := Shell(Real(VlanMade(k, d.vlanPhysdev, d.iface, d.vlanId)), d.iface, false);
            var r, gw := Exec(TunnelPart(d), Exec(AddressPart(d), s)), ParseIp(d.gatewayIp).value;
            Booted(r, GoalOf(d), d.iface, d.vlanPhysdev, [d.vlanId])
            && Bare(r.m.k, d.vlanPhysdev)
            && r.m.k.defaults ==
               if GatewayFits(Flushed(k, d.vlanPhysdev), GoalOf(d), d.iface) then [Route(gw, d.iface)] else []
  {
    var nic := d.vlanPhysdev;
    var made := VlanMade(k, nic, d.iface, d.vlanId);
    VlanKernel(k, nic, d.iface, d.vlanId);
    NoneOnParent(k, nic, d.iface, d.vlanId);
    FitsWhenMade(k, GoalOf(d), nic, d.iface, d.vlanId);
    var s := Shell(Real(made), d.iface, false);
    FromInterface(d, s, nic, [d.vlanId]);
    StaysBare(d, s, nic);
  }

  /** The NIC of a VLAN is there under its name, the name of the VLAN is possible and free, and the
      module for VLANs can be loaded. */
  predicate VlanOffered(k: Kernel, d: ScriptData) {
    IsEthernet(k, d.vlanPhysdev) && KernelName(d.iface) && d.iface !in k.links && d.iface != "wg0"
    && Available(k, "8021q")
  }

  /** There is nothing to make the VLAN on, or it cannot be made. */
  predicate VlanImpossible(k: Kernel, d: ScriptData) {
    d.vlanPhysdev !in k.links
    || (IsEthernet(k, d.vlanPhysdev) && d.iface !in k.links && !(KernelName(d.iface) && Available(k, "8021q")))
  }

  lemma VlanNotOffered(d: ScriptData, k: Kernel)
    requires NicsOnly(k) && ScriptProblem(d) == None && d.bondSlaves == "" && d.vlanId <= 4094 && d.vlanPhysdev != ""
    requires !VlanOffered(k, d)
    ensures var r, nic := Exec(Program(d), Start(Real(k))), d.vlanPhysdev;
            && !Online(r, GoalOf(d), d.iface, nic, [d.vlanId])
            && (VlanImpossible(k, d) ==>
                  r.halted && r.m.Real?
                  && r.m.k == if nic in k.links then VlanMade(k, nic, d.iface, d.vlanId) else Probed(k, "8021q"))
  {
    var s, nic := Start(Real(k)), d.vlanPhysdev;
    ExecProgram(d, s);
    ExecKeeps(k, Program(d), s);
    if nic !in k.links {
      NoParentHalts(d, k);
    } else if VlanImpossible(k, d) {
      VlanInterface(d, k);
      NoInterfaceHalts(d, Exec(InterfacePart(d), s));
    }
  }

  /** A script for a VLAN brings it online exactly when the VLAN is offered and the gateway fits.
      Without the NIC or the module, or with an impossible name, it ends in front of the tunnel;
      when only the gateway does not fit, the tunnel is there but no default route. */
  lemma VlanOnline(d: ScriptData, k: Kernel)
    requires NicsOnly(k) && ScriptProblem(d) == None && d.bondSlaves == "" && d.vlanId <= 4094 && d.vlanPhysdev != ""
    ensures var r, nic := Exec(Program(d), Start(Real(k))), d.vlanPhysdev;
            var fits := GatewayFits(Flushed(k, nic), GoalOf(d), d.iface);
            && (Online(r, GoalOf(d), d.iface, nic, [d.vlanId]) <==> VlanOffered(k, d) && fits)
            && (VlanOffered(k, d) && !fits ==> Booted(r, GoalOf(d), d.iface, nic, [d.vlanId]) && r.m.k.defaults == [])
            && (VlanOffered(k, d) ==> r.m.Real? && Bare(r.m.k, nic))
            && (VlanImpossible(k, d) ==> r.halted && r.m.Real? && ("wg0" in r.m.k.links <==> "wg0" in k.links))
  {
    if VlanOffered(k, d) {
      ExecProgram(d, Start(Real(k)));
      VlanInterface(d, k);
      FromVlan(d, k);
    } else {
      VlanNotOffered(d, k);
    }
  }

  // ----- from the running host to the boot

  /** The name made of a NIC's name and a VLAN id is possible exactly when it is short enough. */
  lemma DerivedName(nic: string, id: nat)
    requires KernelName(nic)
    ensures KernelName(nic + "." + NatText(id)) <==> |nic| + |NatText(id)| <= 14
  {
    var digits := NatText(id);
    var name := nic + "." + digits;
    assert |name| == |nic| + 1 + |digits|;
    assert name[|name| - 1] == digits[|digits| - 1];
    forall i | 0 <= i < |name| ensures KernelNameChar(name[i]) {
      if i < |nic| {
        assert name[i] == nic[i];
      } else if i > |nic| {
        assert IsDigit(digits[i - |nic| - 1]);
      }
    }
  }

  /** The name of the boot interface is not too long; only a VLAN on a bond gets a new one. */
  predicate NameFits(d: Device) {
    d.Vlan? && d.parent.Bond? ==> |GrubDevice(d).name| + |NatText(d.id)| <= 14
  }

  lemma BootNameFits(h: Host, d: Device)
    requires Describes(h, d) && WellFormed(d) && Supported(d)
    ensures KernelName(Lower(d.name, ShapeOf(h, d.name)).iface) <==> NameFits(d)
  {
    LowersToNicOrVlan(h, d);
    GrubDeviceWithin(d);
    if d.Vlan? && d.parent.Bond? {
      DerivedName(GrubDevice(d).name, d.id);
    }
  }

  /** What the script of a supported device is about. */
  lemma LoweredScript(h: Host, d: Device, c: Settings, n: Net)
    requires Describes(h, d) && WellFormed(d) && Supported(d) && n.iface == d.name && n.shape == ShapeOf(h, d.name)
    ensures var script, nic := ScriptOf(c, n), Lower(n.iface, n.shape).grubIface;
            && Reaches(d, nic, Tags(d))
            && (KernelName(script.iface) <==> NameFits(d))
            && (if d.Vlan? then script.vlanPhysdev == nic && nic != "" && script.vlanId == d.id && d.id <= 4094
                else script.vlanPhysdev == "" && script.iface == nic)
  {
    LowersToNicOrVlan(h, d);
    LowersToGrubDevice(h, d);
    SupportedReaches(d);
    BootNameFits(h, d);
    assert Within(d, d);
  }

  /** The interface the script of a device comes to use, and the NIC it uses it on. */
  function BootIface(d: Device, low: Lowered, k: Kernel): string {
    if d.Vlan? then low.iface else BootNic(k, low.iface)
  }

  function BootDevice(d: Device, low: Lowered, k: Kernel): string {
    if d.Vlan? then low.grubIface else BootNic(k, low.iface)
  }

  /** The boot world offers the interface: the NIC is there and, for a VLAN, the module for VLANs
      is, and the name that it gets is possible and free. */
  ghost predicate Offers(k: Kernel, d: Device, low: Lowered) {
    IsEthernet(k, BootDevice(d, low, k))
    && (d.Vlan? ==> NameFits(d) && low.iface !in k.links && low.iface != "wg0" && Available(k, "8021q"))
  }

  /** The kernel when the static address is set. */
  function AtAddressing(k: Kernel, d: Device, low: Lowered): Kernel {
    if d.Vlan? then Flushed(k, low.grubIface) else k
  }

  /** What was detected and configured, readable. */
  predicate Readable(c: Settings, n: Net) {
    ParseCidr(c.wgServerIp).Some? && ParseIp(n.ip).Some? && n.prefix <= 32 && ParseIp(n.gateway).Some?
  }

  /** The network as it was detected and configured. */
  function Wanted(c: Settings, n: Net): Goal
    requires Readable(c, n)
  {
    Goal(ParseCidr(c.wgServerIp).value, Cidr(ParseIp(n.ip).value, n.prefix), ParseIp(n.gateway).value)
  }

  /** The script carries these addresses. */
  lemma ScriptCarries(c: Settings, n: Net)
    requires Readable(c, n) && Lower(n.iface, n.shape).iface != ""
    ensures ScriptProblem(ScriptOf(c, n)) == None && GoalOf(ScriptOf(c, n)) == Wanted(c, n)
  {
    StaticIpReads(n);
    StaticIpParts(n);
  }

  /** Detected, lowered and run where only NICs exist: a supported device ends with the boot
      interface up on the NIC that the ip= parameter names, with the device's own VLAN id, the
      static address, the default route via the gateway and the tunnel ready, exactly when the
      world offers the interface and the gateway fits. When only the gateway does not fit, all
      is there but the default route. */
  lemma RebuildsConnectivity(h: Host, d: Device, cfgIface: string, cfgIp: string, c: Settings, n: Net, k: Kernel)
    requires Describes(h, d) && WellFormed(d) && Supported(d)
    requires Detect(cfgIface, cfgIp, h) == Ok(n) && n.iface == d.name && Readable(c, n)
    requires NicsOnly(k)
    ensures var low := Lower(n.iface, n.shape);
            var r := Exec(Program(ScriptOf(c, n)), Start(Real(k)));
            var iface, nic := BootIface(d, low, k), BootDevice(d, low, k);
            var fits := GatewayFits(AtAddressing(k, d, low), Wanted(c, n), iface);
            && Reaches(d, low.grubIface, Tags(d)) && (low.grubIface in k.links ==> nic == low.grubIface)
            && (Online(r, Wanted(c, n), iface, nic, Tags(d)) <==> Offers(k, d, low) && fits)
            && (Offers(k, d, low) && !fits ==> Booted(r, Wanted(c, n), iface, nic, Tags(d)) && r.m.k.defaults == [])
            && (Offers(k, d, low) && d.Vlan? ==> r.m.Real? && Bare(r.m.k, nic))
  {
    assert n.shape == ShapeOf(h, n.iface) by { DetectedShape(cfgIface, cfgIp, h); }
    LoweredScript(h, d, c, n);
    LowersToNicOrVlan(h, d);
    ScriptCarries(c, n);
    var script := ScriptOf(c, n);
    if d.Vlan? {
      VlanOnline(script, k);
    } else {
      PlainOnline(script, k);
    }
  }

  /** A gateway outside the static network is lost on Linux, although the script tries to make
      it a neighbour: 10.0.0.2/32 with the gateway 10.0.0.1. */
  lemma GatewayOutsideLost(d: ScriptData, k: Kernel)
    requires NicsOnly(k) && ScriptProblem(d) == None && d.vlanPhysdev == "" && d.bondSlaves == ""
    requires d.staticIp == FormatIp(Ip(10, 0, 0, 2)) + "/" + NatText(32) && d.gatewayIp == FormatIp(Ip(10, 0, 0, 1))
    requires IsEthernet(k, d.iface) && k.addrs == {} && k.onLink == {} && !k.bareOnLink
    ensures var r := Exec(Program(d), Start(Real(k)));
            Booted(r, GoalOf(d), d.iface, d.iface, []) && r.m.k.defaults == []
  {
    var own, gw := Ip(10, 0, 0, 2), Ip(10, 0, 0, 1);
    ParseFormatCidr(own, 32);
    ParseFormatIp(gw);
    PowersOf256();
    GatewayFitsBlock(k, GoalOf(d), d.iface);
    MaskedNumber(own, 32);
    PlainOnline(d, k);
  }
}

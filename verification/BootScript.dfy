/** The init-premount script as a program (internal/templates/templates.go, InitramfsScriptTmpl):
    its commands, what `set -e` makes of them, and the kernel state they act on. */
module BootScript {
  import opened Text
  import opened Bits
  import opened Ipv4
  import opened Topology

  // ----- the program

  /** A device argument: a name written into the script, or "$IFACE". */
  datatype Dev = Named(name: string) | IfaceVar

  datatype Command =
    | Modprobe(mod: string)
    | ShowLink(dev: Dev)
    | SetUp(dev: Dev)
    | SetDown(dev: Dev)
    | AddBond(name: string)
    | SetBondMode(name: string, mode: string)
    | Enslave(dev: Dev, master: string)
    | AddVlan(parent: string, name: string, id: nat)
    | AddWireGuard(name: string)
    | DelLink(name: string)
    | AddAddr(cidr: string, dev: Dev)
    | FlushAddr(dev: Dev)
    | DelDefault
    | AddDefault(via: string, dev: Dev)
    | AddOnLink(ip: string, dev: Dev)
    | SetConf(name: string)

  datatype Stmt =
    | Must(c: Command)                       // c
    | OrTrue(c: Command)                     // c || true
    | IfFails(c: Command, body: seq<Stmt>)   // if ! c; then body; fi
    | SetIface(name: string)                 // IFACE="name"
    | PickEthernet                           // the loop over /sys/class/net/*

  function EnslaveAll(slaves: seq<string>, master: string): seq<Stmt> {
    if slaves == [] then []
    else
      [OrTrue(SetDown(Named(slaves[0]))), OrTrue(Enslave(Named(slaves[0]), master))] + EnslaveAll(slaves[1..], master)
  }

  function BondMode(name: string, mode: string): seq<Stmt> {
    if mode == "" then [] else [OrTrue(SetBondMode(name, mode))]
  }

  /** The part of the script that the topology selects. */
  function InterfacePart(d: ScriptData): seq<Stmt> {
    if d.vlanPhysdev != "" && d.bondSlaves != "" then
      [OrTrue(Modprobe("bonding")), OrTrue(Modprobe("8021q")), OrTrue(AddBond(d.vlanPhysdev))]
      + BondMode(d.vlanPhysdev, d.bondMode) + EnslaveAll(Fields(d.bondSlaves), d.vlanPhysdev)
      + [Must(SetUp(Named(d.vlanPhysdev))), OrTrue(AddVlan(d.vlanPhysdev, d.iface, d.vlanId)), SetIface(d.iface)]
    else if d.vlanPhysdev != "" then
      [OrTrue(Modprobe("8021q")), Must(SetUp(Named(d.vlanPhysdev))), OrTrue(FlushAddr(Named(d.vlanPhysdev))),
       OrTrue(AddVlan(d.vlanPhysdev, d.iface, d.vlanId)), SetIface(d.iface)]
    else if d.bondSlaves != "" then
      [OrTrue(Modprobe("bonding")), OrTrue(AddBond(d.iface))]
      + BondMode(d.iface, d.bondMode) + EnslaveAll(Fields(d.bondSlaves), d.iface) + [SetIface(d.iface)]
    else
      [SetIface(d.iface), IfFails(ShowLink(IfaceVar), [PickEthernet])]
  }

  /** What is tried when the gateway is not a neighbour: first a host route to it. */
  function RouteBody(d: ScriptData): seq<Stmt> {
    [OrTrue(AddOnLink(d.gatewayIp, IfaceVar)), OrTrue(AddDefault(d.gatewayIp, IfaceVar))]
  }

  function AddressPart(d: ScriptData): seq<Stmt> {
    [Must(SetUp(IfaceVar)), OrTrue(AddAddr(d.staticIp, IfaceVar)), OrTrue(DelDefault),
     IfFails(AddDefault(d.gatewayIp, IfaceVar), RouteBody(d))]
  }

  function TunnelPart(d: ScriptData): seq<Stmt> {
    [OrTrue(Modprobe("wireguard")), OrTrue(DelLink("wg0")), Must(AddWireGuard("wg0")),
     Must(AddAddr(d.serverIp, Named("wg0"))), Must(SetConf("wg0")), Must(SetUp(Named("wg0")))]
  }

  function Program(d: ScriptData): seq<Stmt> {
    InterfacePart(d) + AddressPart(d) + TunnelPart(d)
  }

  // ----- the kernel

  datatype Kind = Loopback | Ethernet | VlanOn(parent: string, id: nat) | BondDev | WireGuard

  datatype Link = Link(kind: Kind, up: bool)

  datatype Addr = Addr(dev: string, block: Cidr)

  datatype Route = Route(ip: Ip, dev: string)

  /** Links, addresses, default routes in the order they are removed, on-link host routes, and
      what `wg setconf` was done to. Connected routes are implied by the addresses. */
  datatype Kernel = Kernel(
    links: map<string, Link>,
    netClass: seq<string>,      // /sys/class/net/* in the order the shell lists it
    addrs: set<Addr>,
    defaults: seq<Route>,
    onLink: set<Route>,
    image: set<string>,         // the modules that modprobe finds
    loaded: set<string>,        // the modules that are loaded or built in
    wgConfValid: bool,          // the configuration file in the image is accepted
    wgConfigured: set<string>,
    bareOnLink: bool,           // an on-link route without a next hop is accepted; Linux refuses it
    lowestIsHost: bool)         // the lowest address of a block is a host's, as in Linux since 5.14

  predicate IsUp(k: Kernel, name: string) {
    name in k.links && k.links[name].up
  }

  predicate IsEthernet(k: Kernel, name: string) {
    name in k.links && k.links[name].kind.Ethernet?
  }

  /** A VLAN goes up only on a parent that is up. */
  predicate CanGoUp(k: Kernel, name: string) {
    name in k.links && (k.links[name].kind.VlanOn? ==> IsUp(k, k.links[name].kind.parent))
  }

  predicate CanCarryVlan(k: Kernel, parent: string, id: nat) {
    parent in k.links && !k.links[parent].kind.Loopback? && !k.links[parent].kind.WireGuard?
    && forall n :: n in k.links ==> k.links[n].kind != VlanOn(parent, id)
  }

  predicate HasAddr(k: Kernel, ip: Ip) {
    exists a :: a in k.addrs && a.block.ip == ip
  }

  /** The address of a block that stands for all of its hosts. */
  predicate Broadcast(k: Kernel, b: Cidr, ip: Ip) {
    b.prefix <= 30
    && var first := Number(Masked(b.ip, b.prefix));
       Number(ip) == first + Pow2(32 - b.prefix) - 1 || (!k.lowestIsHost && Number(ip) == first)
  }

  predicate BroadcastOn(k: Kernel, ip: Ip, dev: string) {
    exists a :: a in k.addrs && a.dev == dev && Broadcast(k, a.block, ip)
  }

  predicate Connected(k: Kernel, ip: Ip, dev: string) {
    exists a :: a in k.addrs && a.dev == dev && a.block.prefix <= 32 && Contains(a.block.ip, a.block.prefix, ip)
  }

  /** The kernel sends to the host ip directly over the device: a connected network or a host
      route, and no broadcast. */
  predicate Neighbour(k: Kernel, ip: Ip, dev: string) {
    (Connected(k, ip, dev) || Route(ip, dev) in k.onLink) && !BroadcastOn(k, ip, dev)
  }

  /** Loaded, or there to be loaded. */
  predicate Available(k: Kernel, m: string) {
    m in k.image || m in k.loaded
  }

  function AddLink(k: Kernel, name: string, kind: Kind): Kernel {
    k.(links := k.links[name := Link(kind, false)])
  }

  /** The device no longer carries routes. */
  function DropRoutes(k: Kernel, dev: string): Kernel {
    k.(defaults := Others(k.defaults, dev), onLink := set r | r in k.onLink && r.dev != dev)
  }

  function Others(routes: seq<Route>, dev: string): seq<Route> {
    if routes == [] then []
    else (if routes[0].dev == dev then [] else [routes[0]]) + Others(routes[1..], dev)
  }

  function DropAddrs(k: Kernel, dev: string): Kernel {
    DropRoutes(k.(addrs := set a | a in k.addrs && a.dev != dev), dev)
  }

  function NameOf(d: Dev, iface: string): string {
    match d case Named(n) => n case IfaceVar => iface
  }

  /** One command on the kernel: the new state, or None when it fails and changes nothing. */
  function Apply(k: Kernel, c: Command, iface: string): Option<Kernel> {
    match c
    case Modprobe(m) => if Available(k, m) then Some(k.(loaded := k.loaded + {m})) else None
    case ShowLink(d) => if NameOf(d, iface) in k.links then Some(k) else None
    case SetUp(d) =>
      var n := NameOf(d, iface);
      if CanGoUp(k, n) then Some(k.(links := k.links[n := k.links[n].(up := true)])) else None
    case SetDown(d) =>
      var n := NameOf(d, iface);
      if n in k.links then Some(DropRoutes(k.(links := Lowered(k.links, n)), n)) else None
    case AddBond(name) =>
      if KernelName(name) && name !in k.links && "bonding" in k.loaded then Some(AddLink(k, name, BondDev)) else None
    case SetBondMode(name, _) => if name in k.links && k.links[name] == Link(BondDev, false) then Some(k) else None
    case Enslave(d, master) =>
      var n := NameOf(d, iface);
      if n in k.links && !k.links[n].up && master in k.links && k.links[master].kind.BondDev? then Some(k) else None
    case AddVlan(parent, name, id) =>
      if KernelName(name) && name !in k.links && id <= 4094 && CanCarryVlan(k, parent, id) && "8021q" in k.loaded
      then Some(AddLink(k, name, VlanOn(parent, id))) else None
    case AddWireGuard(name) =>
      if KernelName(name) && name !in k.links && "wireguard" in k.loaded
      then Some(AddLink(k, name, WireGuard)) else None
    case DelLink(name) =>
      if name in k.links && !k.links[name].kind.Ethernet? && !k.links[name].kind.Loopback?
      then Some(DropAddrs(k.(links := k.links - {name}, wgConfigured := k.wgConfigured - {name}), name)) else None
    case AddAddr(cidr, d) =>
      var n, b := NameOf(d, iface), ParseCidr(cidr);
      if n in k.links && b.Some? && Addr(n, b.value) !in k.addrs
      then Some(k.(addrs := k.addrs + {Addr(n, b.value)})) else None
    case FlushAddr(d) =>
      var n := NameOf(d, iface);
      if n !in k.links then None
      else if exists a :: a in k.addrs && a.dev == n then Some(DropAddrs(k, n)) else Some(k)
    case DelDefault => if k.defaults != [] then Some(k.(defaults := k.defaults[1..])) else None
    case AddDefault(via, d) =>
      var n, gw := NameOf(d, iface), ParseIp(via);
      if gw.Some? && k.defaults == [] && IsUp(k, n) && !HasAddr(k, gw.value) && Neighbour(k, gw.value, n)
      then Some(k.(defaults := [Route(gw.value, n)])) else None
    case AddOnLink(ip, d) =>
      var n, a := NameOf(d, iface), ParseIp(ip);
      if k.bareOnLink && a.Some? && IsUp(k, n) && (forall r :: r in k.onLink ==> r.ip != a.value)
      then Some(k.(onLink := k.onLink + {Route(a.value, n)})) else None
    case SetConf(name) =>
      if name in k.links && k.links[name].kind.WireGuard? && k.wgConfValid
      then Some(k.(wgConfigured := k.wgConfigured + {name})) else None
  }

  /** A device goes down and takes the VLANs on it down. */
  function Lowered(links: map<string, Link>, name: string): map<string, Link> {
    map n | n in links ::
      if n == name || (links[n].kind.VlanOn? && links[n].kind.parent == name) then links[n].(up := false) else links[n]
  }

  // ----- running it

  datatype Event = Event(c: Command, ok: bool)

  /** What a script runs against: a kernel, or outcomes that are arbitrary, with the commands so
      far and the Ethernet names the loop would find. */
  datatype Machine =
    | Real(k: Kernel)
    | Free(outcomes: nat -> bool, ethernets: seq<string>, log: seq<Event>)

  datatype Shell = Shell(m: Machine, iface: string, halted: bool)

  datatype Done = Done(m: Machine, ok: bool)

  function Do(m: Machine, c: Command, iface: string): Done {
    match m
    case Real(k) => (match Apply(k, c, iface) case Some(k') => Done(Real(k'), true) case None => Done(m, false))
    case Free(outcomes, _, log) => Done(m.(log := log + [Event(c, outcomes(|log|))]), outcomes(|log|))
  }

  /** The first name other than lo whose type is Ethernet. */
  function FirstEthernet(k: Kernel, names: seq<string>): Option<string> {
    if names == [] then None
    else if names[0] != "lo" && names[0] in k.links
            && (var kind := k.links[names[0]].kind; kind.Ethernet? || kind.VlanOn? || kind.BondDev?) then Some(names[0])
    else FirstEthernet(k, names[1..])
  }

  function Picked(m: Machine, iface: string): string {
    match m
    case Real(k) => (match FirstEthernet(k, k.netClass) case Some(n) => n case None => iface)
    case Free(_, ethernets, _) => if ethernets == [] then iface else ethernets[0]
  }

  function ExecOne(s: Stmt, sh: Shell): Shell
    decreases s
  {
    match s
    case Must(c) => var r := Do(sh.m, c, sh.iface); sh.(m := r.m, halted := !r.ok)
    case OrTrue(c) => sh.(m := Do(sh.m, c, sh.iface).m)
    case IfFails(c, body) =>
      var r := Do(sh.m, c, sh.iface);
      if r.ok then sh.(m := r.m) else Exec(body, sh.(m := r.m))
    case SetIface(name) => sh.(iface := name)
    case PickEthernet => sh.(iface := Picked(sh.m, sh.iface))
  }

  /** `set -e`: the first unguarded command that fails ends the script. */
  function Exec(stmts: seq<Stmt>, sh: Shell): Shell
    decreases stmts
  {
    if stmts == [] || sh.halted then sh else Exec(stmts[1..], ExecOne(stmts[0], sh))
  }

  function Start(m: Machine): Shell {
    Shell(m, "", false)
  }

  lemma {:induction false} ExecConcat(a: seq<Stmt>, b: seq<Stmt>, sh: Shell)
    ensures Exec(a + b, sh) == Exec(b, Exec(a, sh))
    decreases |a|
  {
    if a == [] {
      assert a + b == b;
    } else if !sh.halted {
      assert (a + b)[1..] == a[1..] + b;
      ExecConcat(a[1..], b, ExecOne(a[0], sh));
    }
  }

  lemma ExecProgram(d: ScriptData, sh: Shell)
    ensures Exec(Program(d), sh) == Exec(TunnelPart(d), Exec(AddressPart(d), Exec(InterfacePart(d), sh)))
  {
    ExecConcat(InterfacePart(d) + AddressPart(d), TunnelPart(d), sh);
    ExecConcat(InterfacePart(d), AddressPart(d), sh);
  }

  /** One more statement, unless the script has ended. */
  function Then(sh: Shell, s: Stmt): Shell {
    if sh.halted then sh else ExecOne(s, sh)
  }

  lemma ExecSnoc(stmts: seq<Stmt>, s: Stmt, sh: Shell)
    ensures Exec(stmts + [s], sh) == Then(Exec(stmts, sh), s)
  {
    ExecConcat(stmts, [s], sh);
    assert [s][1..] == [];
  }

  lemma ExecTwo(a: Stmt, b: Stmt, sh: Shell)
    ensures Exec([a, b], sh) == Then(Then(sh, a), b)
  {
    ExecSnoc([], a, sh);
    ExecSnoc([a], b, sh);
    assert [] + [a] == [a] && [a] + [b] == [a, b];
  }

  lemma ExecFour(a: Stmt, b: Stmt, c: Stmt, d: Stmt, sh: Shell)
    ensures Exec([a, b, c, d], sh) == Then(Then(Then(Then(sh, a), b), c), d)
  {
    ExecTwo(a, b, sh);
    ExecTwo(c, d, Exec([a, b], sh));
    ExecConcat([a, b], [c, d], sh);
    assert [a, b] + [c, d] == [a, b, c, d];
  }

  lemma ExecFive(a: Stmt, b: Stmt, c: Stmt, d: Stmt, e: Stmt, sh: Shell)
    ensures Exec([a, b, c, d, e], sh) == Then(Then(Then(Then(Then(sh, a), b), c), d), e)
  {
    ExecFour(a, b, c, d, sh);
    ExecSnoc([a, b, c, d], e, sh);
    assert [a, b, c, d] + [e] == [a, b, c, d, e];
  }

  lemma ExecSix(a: Stmt, b: Stmt, c: Stmt, d: Stmt, e: Stmt, f: Stmt, sh: Shell)
    ensures Exec([a, b, c, d, e, f], sh) == Then(Then(Then(Then(Then(Then(sh, a), b), c), d), e), f)
  {
    ExecFive(a, b, c, d, e, sh);
    ExecSnoc([a, b, c, d, e], f, sh);
    assert [a, b, c, d, e] + [f] == [a, b, c, d, e, f];
  }
}

/** Validating a configuration, and the tunnel addresses taken from a valid one. */
module Tunnel {
  import opened Text
  import opened Decimal
  import opened Bits
  import opened Ipv4
  import opened ConfigModel

  datatype ConfigError =
    | HostRequired | UserRequired | BadSshPort
    | BadWireGuardPort | BadServerCidr | BadClientCidr | SameAddress | ClientOutsideTunnel
    | BadDropbearPort | BadLuksDevice

  function ValidatePort(port: int, e: ConfigError): Result<(), ConfigError> {
    if port <= 0 || port > 65535 then Err(e) else Ok(())
  }

  function ValidateHost(c: Settings): Result<(), ConfigError> {
    if c.host == "" then Err(HostRequired) else Ok(())
  }

  function ValidateSsh(c: Settings): Result<(), ConfigError> {
    if c.sshUser == "" then Err(UserRequired) else ValidatePort(c.sshPort, BadSshPort)
  }

  function ValidateTunnelTopology(c: Settings): Result<(), ConfigError> {
    match ParseCidr(c.wgServerIp)
    case None => Err(BadServerCidr)
    case Some(server) =>
      match ParseCidr(c.wgClientIp)
      case None => Err(BadClientCidr)
      case Some(client) =>
        if server.ip == client.ip then Err(SameAddress)
        else if !Contains(Masked(server.ip, server.prefix), server.prefix, client.ip) then Err(ClientOutsideTunnel)
        else Ok(())
  }

  function ValidateWireGuard(c: Settings): Result<(), ConfigError> {
    if ValidatePort(c.wgPort, BadWireGuardPort).Err? then Err(BadWireGuardPort)
    else if ParseCidr(c.wgServerIp) == None then Err(BadServerCidr)
    else if ParseCidr(c.wgClientIp) == None then Err(BadClientCidr)
    else ValidateTunnelTopology(c)
  }

  function ValidateDropbear(c: Settings): Result<(), ConfigError> {
    ValidatePort(c.dropbearPort, BadDropbearPort)
  }

  predicate DeviceChar(c: char) {
    'A' <= c <= 'Z' || 'a' <= c <= 'z' || '0' <= c <= '9'
    || c == '/' || c == '_' || c == '.' || c == ':' || c == '=' || c == '-'
  }

  function ValidateLuks(c: Settings): Result<(), ConfigError> {
    var d := c.luksDevice;
    if d == "" || (|d| > 5 && d[..5] == "/dev/" && forall i :: 5 <= i < |d| ==> DeviceChar(d[i])) then Ok(())
    else Err(BadLuksDevice)
  }

  /** The checks in the order Validate runs them. */
  function Checks(c: Settings): seq<Result<(), ConfigError>> {
    [ValidateHost(c), ValidateSsh(c), ValidateWireGuard(c), ValidateDropbear(c), ValidateLuks(c)]
  }

  // ----- what is asked of a configuration

  predicate IsPort(port: int) {
    1 <= port <= 65535
  }

  /** Nothing, or "/dev/" and a name of letters, digits and /_.:=- behind it. */
  ghost predicate DevicePath(d: string) {
    d == ""
    || exists name :: d == "/dev/" + name && name != "" && forall i :: 0 <= i < |name| ==> DeviceChar(name[i])
  }

  /** The client lies among the 2^(32-p) addresses of the server's network. */
  ghost predicate Inside(server: Cidr, client: Cidr)
    requires server.prefix <= 32
  {
    var first := Number(server.ip) - Number(server.ip) % Pow2(32 - server.prefix);
    first <= Number(client.ip) < first + Pow2(32 - server.prefix)
  }

  /** The first demand on the tunnel that is not met. */
  ghost function UnmetByTunnel(c: Settings): Result<(), ConfigError> {
    var server, client := ParseCidr(c.wgServerIp), ParseCidr(c.wgClientIp);
    if !IsPort(c.wgPort) then Err(BadWireGuardPort)
    else if server == None then Err(BadServerCidr)
    else if client == None then Err(BadClientCidr)
    else if server.value.ip == client.value.ip then Err(SameAddress)
    else if !Inside(server.value, client.value) then Err(ClientOutsideTunnel)
    else Ok(())
  }

  /** The first demand that is not met, in the order of the checks. */
  ghost function FirstUnmet(c: Settings): Result<(), ConfigError> {
    if c.host == "" then Err(HostRequired)
    else if c.sshUser == "" then Err(UserRequired)
    else if !IsPort(c.sshPort) then Err(BadSshPort)
    else if UnmetByTunnel(c).Err? then UnmetByTunnel(c)
    else if !IsPort(c.dropbearPort) then Err(BadDropbearPort)
    else if !DevicePath(c.luksDevice) then Err(BadLuksDevice)
    else Ok(())
  }

  /** All demands are met. */
  ghost predicate Valid(c: Settings) {
    FirstUnmet(c).Ok?
  }

  function FirstError(rs: seq<Result<(), ConfigError>>): Result<(), ConfigError> {
    if rs == [] then Ok(()) else if rs[0].Err? then rs[0] else FirstError(rs[1..])
  }

  lemma FirstErrorCons(r: Result<(), ConfigError>, rest: seq<Result<(), ConfigError>>)
    ensures FirstError([r] + rest) == if r.Err? then r else FirstError(rest)
  {
    assert ([r] + rest)[1..] == rest;
  }

  lemma LuksDevicePath(c: Settings)
    ensures ValidateLuks(c) == if DevicePath(c.luksDevice) then Ok(()) else Err(BadLuksDevice)
  {
    var d, dev := c.luksDevice, "/dev/";
    assert |dev| == 5;
    if ValidateLuks(c).Ok? && d != "" {
      assert d == dev + d[5..];
    }
    if name :| d == dev + name && name != "" && forall i :: 0 <= i < |name| ==> DeviceChar(name[i]) {
      assert d[..5] == dev && d[5..] == name;
      assert forall i :: 5 <= i < |d| ==> d[i] == name[i - 5];
    }
  }

  /** The topology check on two readable addresses. */
  lemma TopologyOf(c: Settings, server: Cidr, client: Cidr)
    requires ParseCidr(c.wgServerIp) == Some(server) && ParseCidr(c.wgClientIp) == Some(client) && server.prefix <= 32
    ensures ValidateTunnelTopology(c) ==
            if server.ip == client.ip then Err(SameAddress)
            else if !Inside(server, client) then Err(ClientOutsideTunnel) else Ok(())
  {
    InTunnel(server, client);
  }

  lemma WireGuardDemands(c: Settings)
    ensures ValidateWireGuard(c) == UnmetByTunnel(c)
  {
    if ParseCidr(c.wgServerIp).Some? && ParseCidr(c.wgClientIp).Some? {
      TopologyOf(c, ParseCidr(c.wgServerIp).value, ParseCidr(c.wgClientIp).value);
    }
  }

  lemma FirstOfFive(a: Result<(), ConfigError>, b: Result<(), ConfigError>, c: Result<(), ConfigError>,
                    d: Result<(), ConfigError>, e: Result<(), ConfigError>)
    ensures FirstError([a, b, c, d, e]) ==
            if a.Err? then a else if b.Err? then b else if c.Err? then c else if d.Err? then d
            else if e.Err? then e else Ok(())
  {
    FirstErrorCons(e, []);
    FirstErrorCons(d, [e]);
    FirstErrorCons(c, [d, e]);
    FirstErrorCons(b, [c, d, e]);
    FirstErrorCons(a, [b, c, d, e]);
    assert [a] + [b, c, d, e] == [a, b, c, d, e] && [b] + [c, d, e] == [b, c, d, e];
    assert [c] + [d, e] == [c, d, e] && [d] + [e] == [d, e] && [e] + [] == [e];
  }

  /** The checks find the first demand that is not met. */
  lemma ChecksDemand(c: Settings)
    ensures FirstError(Checks(c)) == FirstUnmet(c)
  {
    WireGuardDemands(c);
    LuksDevicePath(c);
    FirstOfFive(ValidateHost(c), ValidateSsh(c), ValidateWireGuard(c), ValidateDropbear(c), ValidateLuks(c));
  }


  /** The defaults are a valid configuration but for the host. */
  lemma DefaultsLackHost(host: string)
    ensures FirstUnmet(DEFAULTS.(host := host)) == if host == "" then Err(HostRequired) else Ok(())
  {
    var c := DEFAULTS.(host := host);
    DefaultTexts();
    TunnelMet(c, Cidr(Ip(10, 42, 0, 1), 24), Cidr(Ip(10, 42, 0, 2), 32));
    DefaultsInside();
  }

  lemma DefaultsInside()
    ensures Inside(Cidr(Ip(10, 42, 0, 1), 24), Cidr(Ip(10, 42, 0, 2), 32))
  {
    PowersOf256();
    assert Number(Ip(10, 42, 0, 1)) == 0xA2A00 * 256 + 1 && Number(Ip(10, 42, 0, 2)) == 0xA2A00 * 256 + 2;
  }

  lemma TunnelMet(c: Settings, server: Cidr, client: Cidr)
    requires server.prefix <= 32 && client.prefix <= 32 && IsPort(c.wgPort) && server.ip != client.ip
    requires c.wgServerIp == FormatIp(server.ip) + "/" + NatText(server.prefix)
    requires c.wgClientIp == FormatIp(client.ip) + "/" + NatText(client.prefix)
    ensures UnmetByTunnel(c) == if Inside(server, client) then Ok(()) else Err(ClientOutsideTunnel)
  {
    ParseFormatCidr(server.ip, server.prefix);
    ParseFormatCidr(client.ip, client.prefix);
  }

  lemma DefaultTexts()
    ensures DEFAULTS.wgServerIp == FormatIp(Ip(10, 42, 0, 1)) + "/" + NatText(24)
    ensures DEFAULTS.wgClientIp == FormatIp(Ip(10, 42, 0, 2)) + "/" + NatText(32)
  {
    ThirtyTwo();
    assert NatText(10) == NatText(1) + "0" && NatText(1) == "1" && NatText(0) == "0" && NatText(2) == "2";
    assert NatText(42) == NatText(4) + "2" && NatText(4) == "4";
    assert NatText(24) == NatText(2) + "4";
  }

  /** Validate: the loop over the checks reports the first demand that is not met. */
  method Validate(c: Settings) returns (r: Result<(), ConfigError>)
    ensures r == FirstUnmet(c)
  {
    ChecksDemand(c);
    var checks := Checks(c);
    var i := 0;
    while i < |checks|
      invariant 0 <= i <= |checks|
      invariant FirstError(checks[i..]) == FirstError(checks)
    {
      assert checks[i..][1..] == checks[i + 1..];
      if checks[i].Err? {
        return checks[i];
      }
      i := i + 1;
    }
    return Ok(());
  }

  /** The address part of wireguard.server_ip and wireguard.client_ip, empty when unreadable. */
  function TunnelIp(cidr: string): string {
    match ParseCidr(cidr)
    case None => ""
    case Some(b) => FormatIp(b.ip)
  }

  /** What each side allows its peer: the other side's address with a /32 behind it. */
  function PeerAllowedIps(cidr: string): string {
    TunnelIp(cidr) + "/32"
  }

  /** The tunnel checks pass exactly when the two addresses are readable, differ, and the
      client lies among the 2^(32-p) addresses of the server's network. */
  lemma TunnelAccepted(c: Settings)
    ensures ValidateTunnelTopology(c).Ok? <==>
              (match (ParseCidr(c.wgServerIp), ParseCidr(c.wgClientIp))
               case (Some(server), Some(client)) => server.ip != client.ip && Inside(server, client)
               case _ => false)
  {
    if ParseCidr(c.wgServerIp).Some? && ParseCidr(c.wgClientIp).Some? {
      TopologyOf(c, ParseCidr(c.wgServerIp).value, ParseCidr(c.wgClientIp).value);
    }
  }

  lemma InTunnel(server: Cidr, client: Cidr)
    requires server.prefix <= 32
    ensures Contains(Masked(server.ip, server.prefix), server.prefix, client.ip) <==> Inside(server, client)
  {
    ContainsInterval(server.ip, server.prefix, client.ip);
    MaskedNumber(server.ip, server.prefix);
  }

  /** The text is a block that holds this one address and no other. */
  ghost predicate OnlyAddress(cidr: string, ip: Ip) {
    var b := ParseCidr(cidr);
    b.Some? && forall x :: Contains(Masked(b.value.ip, b.value.prefix), b.value.prefix, x) <==> x == ip
  }

  lemma PeerAllowsOnly(cidr: string)
    requires ParseCidr(cidr).Some?
    ensures OnlyAddress(PeerAllowedIps(cidr), ParseCidr(cidr).value.ip)
  {
    var ip := ParseCidr(cidr).value.ip;
    ThirtyTwo();
    ParseFormatCidr(ip, 32);
    assert FormatIp(ip) + "/" + "32" == FormatIp(ip) + "/32";
    forall x ensures Contains(Masked(ip, 32), 32, x) <==> x == ip {
      SingleAddress(ip, x);
    }
  }

  lemma ThirtyTwo()
    ensures NatText(32) == "32"
  {
    assert NatText(3) == "3";
  }

  /** In a configuration that validates, each side lets through exactly the other side's
      address, and the two addresses differ. */
  lemma PeersAllowEachOther(c: Settings)
    requires Valid(c)
    ensures var server, client := ParseCidr(c.wgServerIp), ParseCidr(c.wgClientIp);
            server.Some? && client.Some? && server.value.ip != client.value.ip
            && OnlyAddress(PeerAllowedIps(c.wgClientIp), client.value.ip)
            && OnlyAddress(PeerAllowedIps(c.wgServerIp), server.value.ip)
  {
    assert UnmetByTunnel(c).Ok?;
    PeerAllowsOnly(c.wgServerIp);
    PeerAllowsOnly(c.wgClientIp);
  }
}

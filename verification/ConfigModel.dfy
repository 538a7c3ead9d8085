/** The ubo.toml configuration: its value, its fields seen one by one, and the
    record the program updates in place. */
module ConfigModel {
  import opened Text
  import opened Decimal

  /** A decoded scalar: a string, an integer or a boolean. */
  datatype Scalar = Str(s: string) | Int(i: Int64) | Bool(b: bool)

  datatype Settings = Settings(
    host: string,
    sshUser: string, sshPort: Int64, sshKey: string, sshSudo: bool, sshProxyJump: string,
    wgPort: Int64, wgServerIp: string, wgClientIp: string,
    dropbearPort: Int64,
    outputDir: string,
    netInterface: string, netIp: string,
    luksDevice: string)

  const DEFAULTS := Settings(
    "", "root", 22, "", false, "", 51820, "10.42.0.1/24", "10.42.0.2/32", 22, "", "", "", "")

  /** One name for each of the fourteen fields. */
  datatype Field =
    | Host
    | SshUser | SshPort | SshKey | SshSudo | SshProxyJump
    | WgPort | WgServerIp | WgClientIp
    | DropbearPort
    | OutputDir
    | NetInterface | NetIp
    | LuksDevice

  function Get(c: Settings, f: Field): Scalar {
    match f
    case Host => Str(c.host)
    case SshUser => Str(c.sshUser)
    case SshPort => Int(c.sshPort)
    case SshKey => Str(c.sshKey)
    case SshSudo => Bool(c.sshSudo)
    case SshProxyJump => Str(c.sshProxyJump)
    case WgPort => Int(c.wgPort)
    case WgServerIp => Str(c.wgServerIp)
    case WgClientIp => Str(c.wgClientIp)
    case DropbearPort => Int(c.dropbearPort)
    case OutputDir => Str(c.outputDir)
    case NetInterface => Str(c.netInterface)
    case NetIp => Str(c.netIp)
    case LuksDevice => Str(c.luksDevice)
  }

  /** The setters of the schema check the kind of the value. */
  predicate Fits(f: Field, v: Scalar) {
    match f
    case SshPort | WgPort | DropbearPort => v.Int?
    case SshSudo => v.Bool?
    case _ => v.Str?
  }

  function Put(c: Settings, f: Field, v: Scalar): Settings
    requires Fits(f, v)
  {
    match f
    case Host => c.(host := v.s)
    case SshUser => c.(sshUser := v.s)
    case SshPort => c.(sshPort := v.i)
    case SshKey => c.(sshKey := v.s)
    case SshSudo => c.(sshSudo := v.b)
    case SshProxyJump => c.(sshProxyJump := v.s)
    case WgPort => c.(wgPort := v.i)
    case WgServerIp => c.(wgServerIp := v.s)
    case WgClientIp => c.(wgClientIp := v.s)
    case DropbearPort => c.(dropbearPort := v.i)
    case OutputDir => c.(outputDir := v.s)
    case NetInterface => c.(netInterface := v.s)
    case NetIp => c.(netIp := v.s)
    case LuksDevice => c.(luksDevice := v.s)
  }

  /** A write changes its own field and no other. */
  lemma GetPut(c: Settings, f: Field, v: Scalar, g: Field)
    requires Fits(f, v)
    ensures Get(Put(c, f, v), g) == if g == f then v else Get(c, g)
  {
  }

  lemma GetFits(c: Settings, f: Field)
    ensures Fits(f, Get(c, f))
  {
  }

  /** Settings that agree on every field are the same settings. */
  lemma SettingsExtensional(a: Settings, b: Settings)
    requires forall f :: Get(a, f) == Get(b, f)
    ensures a == b
  {
    assert Get(a, Host) == Get(b, Host);
    assert Get(a, SshUser) == Get(b, SshUser) && Get(a, SshPort) == Get(b, SshPort);
    assert Get(a, SshKey) == Get(b, SshKey) && Get(a, SshSudo) == Get(b, SshSudo);
    assert Get(a, SshProxyJump) == Get(b, SshProxyJump);
    assert Get(a, WgPort) == Get(b, WgPort) && Get(a, WgServerIp) == Get(b, WgServerIp);
    assert Get(a, WgClientIp) == Get(b, WgClientIp);
    assert Get(a, DropbearPort) == Get(b, DropbearPort) && Get(a, OutputDir) == Get(b, OutputDir);
    assert Get(a, NetInterface) == Get(b, NetInterface) && Get(a, NetIp) == Get(b, NetIp);
    assert Get(a, LuksDevice) == Get(b, LuksDevice);
  }

  predicate ScalarNewlineFree(v: Scalar) {
    v.Str? ==> NewlineFree(v.s)
  }

  /** No string field holds a line break: what the printer needs. */
  ghost predicate Printable(c: Settings) {
    forall f :: ScalarNewlineFree(Get(c, f))
  }

  /** The configuration record, updated in place. */
  class Config {
    var host: string
    var sshUser: string
    var sshPort: Int64
    var sshKey: string
    var sshSudo: bool
    var sshProxyJump: string
    var wgPort: Int64
    var wgServerIp: string
    var wgClientIp: string
    var dropbearPort: Int64
    var outputDir: string
    var netInterface: string
    var netIp: string
    var luksDevice: string

    function Value(): Settings
      reads this
    {
      Settings(
        host, sshUser, sshPort, sshKey, sshSudo, sshProxyJump, wgPort, wgServerIp, wgClientIp,
        dropbearPort, outputDir, netInterface, netIp, luksDevice)
    }

    constructor Default()
      ensures Value() == DEFAULTS
      ensures sshUser == "root" && sshPort == 22 && wgPort == 51820 && dropbearPort == 22
      ensures wgServerIp == "10.42.0.1/24" && wgClientIp == "10.42.0.2/32" && !sshSudo
    {
      host := "";
      sshUser, sshPort, sshKey, sshSudo, sshProxyJump := "root", 22, "", false, "";
      wgPort, wgServerIp, wgClientIp := 51820, "10.42.0.1/24", "10.42.0.2/32";
      dropbearPort := 22;
      outputDir, netInterface, netIp, luksDevice := "", "", "", "";
    }

    /** Stores a value of the right kind through the field's setter. */
    method Store(f: Field, v: Scalar)
      requires Fits(f, v)
      modifies this
      ensures Value() == Put(old(Value()), f, v)
    {
      match f
      case Host => host := v.s;
      case SshUser => sshUser := v.s;
      case SshPort => sshPort := v.i;
      case SshKey => sshKey := v.s;
      case SshSudo => sshSudo := v.b;
      case SshProxyJump => sshProxyJump := v.s;
      case WgPort => wgPort := v.i;
      case WgServerIp => wgServerIp := v.s;
      case WgClientIp => wgClientIp := v.s;
      case DropbearPort => dropbearPort := v.i;
      case OutputDir => outputDir := v.s;
      case NetInterface => netInterface := v.s;
      case NetIp => netIp := v.s;
      case LuksDevice => luksDevice := v.s;
    }
  }
}

/** From generated keys to the configured device: the client file that `ubo run` writes, read
    back by `ubo unlock` and turned into the device's configuration text. */
module KeyPipeline {
  import opened Text
  import opened Decimal
  import opened Bits
  import opened Clamp
  import opened Base64
  import opened WgIni
  import opened Ipv4
  import opened ConfigModel
  import opened Tunnel
  import K = KeyFiles

  function WgEndpoint(host: string, port: int): string {
    if Lacks(host, ':') then host + ":" + Itoa(port) else "[" + host + "]:" + Itoa(port)
  }

  /** The fields of the client file that writeRunArtifacts takes from the keys and the configuration. */
  function ClientFields(c: Settings, keys: K.Keys): WgClient {
    WgClient(keys.clientPrivate, c.wgClientIp, keys.serverPublic, WgEndpoint(c.host, c.wgPort),
        PeerAllowedIps(c.wgServerIp))
  }

  datatype ArtifactError = RenderFailed(field: IniField) | ClientWriteFailed | ReadmeWriteFailed

  /** A file after a write; None is a file that is not there. */
  function AfterWrite(file: Option<string>, content: string, w: K.WriteOutcome): Option<string> {
    match w
    case Written => Some(content)
    case Refused => file
    case Torn(left) => Some(left)
  }

  /** The two files of the output directory. */
  class OutputDir {
    var client: Option<string>
    var readme: Option<string>
  }

  /** writeRunArtifacts: render, write the client file, write the read-me, stop at the first error.
      A write that fails may be refused or leave part of the file behind. */
  method WriteRunArtifacts(out: OutputDir, c: Settings, keys: K.Keys, readme: string,
                           clientWrite: K.WriteOutcome, readmeWrite: K.WriteOutcome)
    returns (r: Result<(), ArtifactError>)
    modifies out
    ensures var fields := ClientFields(c, keys);
            match FirstMissing(fields)
            case Some(f) => r == Err(RenderFailed(f)) && out.client == old(out.client) && out.readme == old(out.readme)
            case None =>
              out.client == AfterWrite(old(out.client), IniText(fields), clientWrite)
              && if !clientWrite.Written? then r == Err(ClientWriteFailed) && out.readme == old(out.readme)
                 else out.readme == AfterWrite(old(out.readme), readme, readmeWrite)
                      && r == if readmeWrite.Written? then Ok(()) else Err(ReadmeWriteFailed)
    ensures r.Ok? ==> out.client == Some(IniText(ClientFields(c, keys))) && out.readme == Some(readme)
  {
    var ini := MarshalIni(ClientFields(c, keys));
    if ini.Err? {
      return Err(RenderFailed(ini.error));
    }
    out.client := AfterWrite(out.client, ini.value, clientWrite);
    if !clientWrite.Written? {
      return Err(ClientWriteFailed);
    }
    out.readme := AfterWrite(out.readme, readme, readmeWrite);
    if !readmeWrite.Written? {
      return Err(ReadmeWriteFailed);
    }
    return Ok(());
  }

  datatype IpcError = BadPrivateKey(e: KeyError) | BadPeerKey(e: KeyError)

  function Line(key: string, v: string): string {
    key + v + "\n"
  }

  function IpcText(privHex: string, pubHex: string, endpoint: string, allowedIps: string): string {
    Line("private_key=", privHex) + Line("public_key=", pubHex) + Line("endpoint=", endpoint)
    + Line("allowed_ip=", allowedIps) + Line("persistent_keepalive_interval=", "25")
  }

  /** buildIPC. */
  function BuildIpc(w: WgClient): Result<string, IpcError> {
    match B64ToHex(w.privateKey)
    case Err(e) => Err(BadPrivateKey(e))
    case Ok(privHex) =>
      match B64ToHex(w.publicKey)
      case Err(e) => Err(BadPeerKey(e))
      case Ok(pubHex) => Ok(IpcText(privHex, pubHex, w.endpoint, w.allowedIps))
  }

  // ----- addresses are plain text

  lemma IpSpaceFree(s: string)
    requires ParseIp(s).Some?
    ensures s != "" && SpaceFree(s)
  {
    IpChars(s);
    assert forall c :: IsDigit(c) ==> !IsSpace(c);
  }

  /** An address that reads as a CIDR block survives the client file. */
  lemma CidrPlain(s: string)
    requires ParseCidr(s).Some?
    ensures Plain(s)
  {
    var slash := IndexOf(s, '/');
    IpSpaceFree(s[..slash]);
    var prefix := s[slash + 1..];
    forall i | 0 <= i < |s| ensures !IsSpace(s[i]) {
      if i < slash {
        assert s[i] == s[..slash][i];
      } else if i > slash {
        assert s[i] == prefix[i - slash - 1];
        assert IsDigit(prefix[i - slash - 1]);
      }
    }
    assert IsSpace('\n');
    assert forall i :: 0 <= i < |s| ==> s[i] != '\n';
  }

  lemma AllowedIpsPlain(s: string)
    requires ParseCidr(s).Some?
    ensures Plain(PeerAllowedIps(s))
  {
    PeerAllowsOnly(s);
    CidrPlain(PeerAllowedIps(s));
  }

  lemma EncodedKeyPlain(k: seq<Byte>)
    requires k != []
    ensures Plain(Encode(k))
  {
    EncodeChars(k);
    assert IsSpace('\n');
  }

  // ----- the pipeline

  /** The device's text, line by line. */
  ghost predicate Configures(text: string, priv: seq<Byte>, pub: seq<Byte>, endpoint: string, allowedIp: string) {
    Split(text, '\n') == ["private_key=" + HexEncode(priv), "public_key=" + HexEncode(pub), "endpoint=" + endpoint,
                          "allowed_ip=" + allowedIp, "persistent_keepalive_interval=" + "25", ""]
  }

  lemma FiveLines(lines: seq<string>)
    requires |lines| == 5 && forall i :: 0 <= i < 5 ==> NewlineFree(lines[i])
    ensures Split(lines[0] + "\n" + (lines[1] + "\n") + (lines[2] + "\n") + (lines[3] + "\n") + (lines[4] + "\n"), '\n')
            == lines + [""]
  {
    SplitTerminated(lines, '\n');
    assert lines == [] + [lines[0], lines[1], lines[2], lines[3], lines[4]];
    TerminatedFive([], lines[0], lines[1], lines[2], lines[3], lines[4], '\n');
    NothingInFront(lines[0], lines[1], lines[2], lines[3], lines[4]);
  }

  lemma NothingInFront(a: string, b: string, c: string, d: string, e: string)
    ensures "" + a + "\n" + b + "\n" + c + "\n" + d + "\n" + e + "\n"
            == a + "\n" + (b + "\n") + (c + "\n") + (d + "\n") + (e + "\n")
  {
    assert "" + a == a;
  }

  lemma WithKey(key: string, v: string)
    requires NewlineFree(key) && NewlineFree(v)
    ensures NewlineFree(key + v)
  {
  }

  lemma KeysFree()
    ensures NewlineFree("private_key=") && NewlineFree("public_key=") && NewlineFree("endpoint=")
    ensures NewlineFree("allowed_ip=") && NewlineFree("persistent_keepalive_interval=") && NewlineFree("25")
  {
  }

  /** Five lines of a key and a value. */
  lemma KeyedLines(a: string, p: string, b: string, q: string, c: string, r: string, d: string, s: string,
                   e: string, t: string)
    requires NewlineFree(a) && NewlineFree(b) && NewlineFree(c) && NewlineFree(d) && NewlineFree(e)
    requires NewlineFree(p) && NewlineFree(q) && NewlineFree(r) && NewlineFree(s) && NewlineFree(t)
    ensures Split(Line(a, p) + Line(b, q) + Line(c, r) + Line(d, s) + Line(e, t), '\n')
            == [a + p, b + q, c + r, d + s, e + t, ""]
  {
    WithKey(a, p);
    WithKey(b, q);
    WithKey(c, r);
    WithKey(d, s);
    WithKey(e, t);
    var lines := [a + p, b + q, c + r, d + s, e + t];
    FiveLines(lines);
    assert lines + [""] == [a + p, b + q, c + r, d + s, e + t, ""];
  }

  lemma IpcLines(privHex: string, pubHex: string, endpoint: string, allowedIp: string)
    requires NewlineFree(privHex) && NewlineFree(pubHex) && NewlineFree(endpoint) && NewlineFree(allowedIp)
    ensures Split(IpcText(privHex, pubHex, endpoint, allowedIp), '\n')
            == ["private_key=" + privHex, "public_key=" + pubHex, "endpoint=" + endpoint,
                "allowed_ip=" + allowedIp, "persistent_keepalive_interval=" + "25", ""]
  {
    KeysFree();
    KeyedLines("private_key=", privHex, "public_key=", pubHex, "endpoint=", endpoint, "allowed_ip=", allowedIp,
               "persistent_keepalive_interval=", "25");
  }

  /** net.JoinHostPort, for a host without brackets. */
  function HostPort(host: string, port: int): string {
    (if exists i :: 0 <= i < |host| && host[i] == ':' then "[" + host + "]" else host) + ":" + Itoa(port)
  }

  lemma EndpointIsHostPort(host: string, port: int)
    ensures WgEndpoint(host, port) == HostPort(host, port)
  {
  }

  /** The client file of two 32-byte keys, read back and turned into the device's text, carries
      exactly the hexadecimal forms of these keys, the endpoint and the server's address. */
  lemma KeysReachDevice(c: Settings, keys: K.Keys, priv: seq<Byte>, pub: seq<Byte>)
    requires |priv| == 32 && |pub| == 32 && keys.clientPrivate == Encode(priv) && keys.serverPublic == Encode(pub)
    requires ParseCidr(c.wgClientIp).Some? && ParseCidr(c.wgServerIp).Some?
    requires Plain(HostPort(c.host, c.wgPort)) && Short(ClientFields(c, keys))
    ensures var endpoint, allowed := HostPort(c.host, c.wgPort), FormatIp(ParseCidr(c.wgServerIp).value.ip) + "/32";
            var w := WgClient(keys.clientPrivate, c.wgClientIp, keys.serverPublic, endpoint, allowed);
            && ParseWg(IniText(ClientFields(c, keys))) == Ok(w)
            && BuildIpc(w).Ok? && Configures(BuildIpc(w).value, priv, pub, endpoint, allowed)
  {
    var fields := ClientFields(c, keys);
    EndpointIsHostPort(c.host, c.wgPort);
    EncodedKeyPlain(priv);
    EncodedKeyPlain(pub);
    CidrPlain(c.wgClientIp);
    AllowedIpsPlain(c.wgServerIp);
    ReadRendered(fields);
    B64ToHexOfKey(priv);
    B64ToHexOfKey(pub);
    HexNewlineFree(priv);
    HexNewlineFree(pub);
    IpcLines(HexEncode(priv), HexEncode(pub), fields.endpoint, fields.allowedIps);
  }

  /** What a fresh run of the key generation returns, in terms of its random bytes. */
  lemma FreshKeys(cr: K.Crypto, files: K.Files, a: K.Answers)
    requires K.Possible(a) && K.Load(files).None? && K.RunOnce(cr, files, a).made.Some?
    ensures var keys := K.RunOnce(cr, files, a).made.value;
            && cr.derive(Clamped(a.server.random)).Some? && cr.derive(Clamped(a.client.random)).Some?
            && keys.serverPrivate == Encode(Clamped(a.server.random))
            && keys.serverPublic == Encode(cr.derive(Clamped(a.server.random)).value)
            && keys.clientPrivate == Encode(Clamped(a.client.random))
            && keys.clientPublic == Encode(cr.derive(Clamped(a.client.random)).value)
  {
    var s := K.MakeWgPair(cr, files, K.ServerPrivate, K.ServerPublic, a.server);
    K.MadeTexts(cr, files, K.ServerPrivate, K.ServerPublic, a.server);
    K.MadeTexts(cr, s.files, K.ClientPrivate, K.ClientPublic, a.client);
    K.RunReturns(cr, files, a);
  }

  /** From random bytes to the device: generate, store, load in any later run, render, read back,
      convert. The device gets the client's clamped random bytes as its private key and the
      public key of the server's clamped random bytes as its peer. */
  lemma GeneratedKeysReachDevice(cr: K.Crypto, files: K.Files, a: K.Answers, later: seq<K.Answers>,
      last: K.Answers, c: Settings)
    requires K.Possible(a) && K.Possible(last) && forall i :: 0 <= i < |later| ==> K.Possible(later[i])
    requires K.Load(files).None? && K.RunOnce(cr, files, a).made.Some?
    requires forall k :: cr.derive(k).Some? ==> |cr.derive(k).value| == 32
    requires ParseCidr(c.wgClientIp).Some? && ParseCidr(c.wgServerIp).Some? && Plain(HostPort(c.host, c.wgPort))
    requires Short(ClientFields(c, K.RunOnce(cr, files, a).made.value))
    ensures var reused := K.RunOnce(cr, K.RunMany(cr, K.RunOnce(cr, files, a).files, later), last).made;
            reused.Some? && cr.derive(Clamped(a.server.random)).Some?
            && var text := IniText(ClientFields(c, reused.value));
               ParseWg(text).Ok? && ParseWg(text).value.address == c.wgClientIp
               && var ipc := BuildIpc(ParseWg(text).value);
                  ipc.Ok?
                  && Configures(ipc.value, Clamped(a.client.random), cr.derive(Clamped(a.server.random)).value,
                                HostPort(c.host, c.wgPort), FormatIp(ParseCidr(c.wgServerIp).value.ip) + "/32")
  {
    K.LaterRunsReuse(cr, files, a, later, last);
    FreshKeys(cr, files, a);
    KeysReachDevice(c, K.RunOnce(cr, files, a).made.value, Clamped(a.client.random),
        cr.derive(Clamped(a.server.random)).value);
  }
}

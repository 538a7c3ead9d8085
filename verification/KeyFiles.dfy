/** The key files of a deployment (internal/keygen/keygen.go) as a state machine: every run
    either reuses the files or writes new pairs step by step, and any step may fail. */
module KeyFiles {
  import opened Text
  import opened Bits
  import opened Clamp
  import opened Base64

  datatype KeyFile = ServerPrivate | ServerPublic | ClientPrivate | ClientPublic | SshKey | SshPub

  type Files = map<KeyFile, string>

  /** The parts of the cryptographic libraries the runs depend on. */
  datatype Crypto = Crypto(
    derive: seq<Byte> -> Option<seq<Byte>>,  // X25519 with the base point
    pem: seq<Byte> -> Option<string>,        // the OpenSSH private key file of a seed
    blob: seq<Byte> -> Option<seq<Byte>>)    // the public key of a seed on the wire

  datatype Keys = Keys(serverPrivate: string, serverPublic: string, clientPrivate: string, clientPublic: string,
      sshPub: string)

  // ----- writing one file

  /** What becomes of a write: it is done, it is refused and the file stays as it was, or it
      fails and leaves something else behind. */
  datatype WriteOutcome = Written | Refused | Torn(left: string)

  function WriteTo(files: Files, f: KeyFile, content: string, w: WriteOutcome): Files {
    match w
    case Written => files[f := content]
    case Refused => files
    case Torn(left) => files[f := left]
  }

  class KeyDir {
    var files: Files
    ghost var writes: nat

    constructor (start: Files)
      ensures files == start && writes == 0
    {
      files := start;
      writes := 0;
    }

    method WriteFile(f: KeyFile, content: string, w: WriteOutcome) returns (ok: bool)
      modifies this
      ensures files == WriteTo(old(files), f, content, w) && ok == w.Written? && writes == old(writes) + 1
    {
      files := WriteTo(files, f, content, w);
      writes := writes + 1;
      return w.Written?;
    }

    method Remove(f: KeyFile)
      modifies this
      ensures files == old(files) - {f} && writes == old(writes)
    {
      files := files - {f};
    }
  }

  // ----- one WireGuard pair

  datatype WgAnswers = WgAnswers(randomFails: bool, random: seq<Byte>, privateWrite: WriteOutcome,
      publicWrite: WriteOutcome)

  predicate WgPossible(a: WgAnswers) {
    |a.random| == 32
  }

  function PrivateText(random: seq<Byte>): string
    requires |random| == 32
  {
    Encode(Clamped(random))
  }

  /** deriveWGPublicKey. */
  function PublicText(cr: Crypto, privateText: string): Option<string> {
    match Decode(privateText)
    case None => None
    case Some(k) => match cr.derive(k) case None => None case Some(p) => Some(Encode(p))
  }

  /** The files a generation step leaves, and what it returns. */
  datatype Step<T> = Step(files: Files, made: Option<T>)

  function MakeWgPair(cr: Crypto, files: Files, priv: KeyFile, pub: KeyFile, a: WgAnswers): Step<(string, string)>
    requires WgPossible(a)
  {
    if a.randomFails then Step(files, None)
    else
      var text := PrivateText(a.random);
      var f1 := WriteTo(files, priv, text + "\n", a.privateWrite);
      if !a.privateWrite.Written? then Step(f1, None)
      else
        match PublicText(cr, text)
        case None => Step(f1 - {priv}, None)
        case Some(p) =>
          var f2 := WriteTo(f1, pub, p + "\n", a.publicWrite);
          if !a.publicWrite.Written? then Step(f2 - {priv}, None) else Step(f2, Some((text, p)))
  }

  method GenerateWireGuardKeypair(dir: KeyDir, cr: Crypto, priv: KeyFile, pub: KeyFile, a: WgAnswers)
    returns (r: Option<(string, string)>)
    requires WgPossible(a)
    modifies dir
    ensures Step(dir.files, r) == MakeWgPair(cr, old(dir.files), priv, pub, a)
  {
    if a.randomFails {
      return None;
    }
    var key := new Byte[32](i requires 0 <= i < 32 => a.random[i]);
    assert key[..] == a.random;
    ClampKey(key);
    var text := Encode(key[..]);
    var ok := dir.WriteFile(priv, text + "\n", a.privateWrite);
    if !ok {
      return None;
    }
    var p := PublicText(cr, text);
    if p == None {
      dir.Remove(priv);
      return None;
    }
    ok := dir.WriteFile(pub, p.value + "\n", a.publicWrite);
    if !ok {
      dir.Remove(priv);
      return None;
    }
    return Some((text, p.value));
  }

  // ----- the SSH pair

  datatype SshAnswers = SshAnswers(randomFails: bool, seed: seq<Byte>, keyWrite: WriteOutcome, pubWrite: WriteOutcome)

  /** The authorized_keys line with its comment. */
  function PubLine(blob: seq<Byte>): string {
    "ssh-ed25519 " + Encode(blob) + " ubo-client"
  }

  function MakeSshPair(cr: Crypto, files: Files, a: SshAnswers): Step<string> {
    if a.randomFails || cr.pem(a.seed) == None then Step(files, None)
    else
      var f1 := WriteTo(files, SshKey, cr.pem(a.seed).value, a.keyWrite);
      if !a.keyWrite.Written? then Step(f1, None)
      else
        match cr.blob(a.seed)
        case None => Step(f1 - {SshKey}, None)
        case Some(blob) =>
          var f2 := WriteTo(f1, SshPub, PubLine(blob) + "\n", a.pubWrite);
          if !a.pubWrite.Written? then Step(f2 - {SshKey}, None) else Step(f2, Some(PubLine(blob)))
  }

  method GenerateSshKeypair(dir: KeyDir, cr: Crypto, a: SshAnswers) returns (r: Option<string>)
    modifies dir
    ensures Step(dir.files, r) == MakeSshPair(cr, old(dir.files), a)
  {
    if a.randomFails {
      return None;
    }
    var pem := cr.pem(a.seed);
    if pem == None {
      return None;
    }
    var ok := dir.WriteFile(SshKey, pem.value, a.keyWrite);
    if !ok {
      return None;
    }
    var blob := cr.blob(a.seed);
    if blob == None {
      dir.Remove(SshKey);
      return None;
    }
    var line := PubLine(blob.value);
    ok := dir.WriteFile(SshPub, line + "\n", a.pubWrite);
    if !ok {
      dir.Remove(SshKey);
      return None;
    }
    return Some(line);
  }

  // ----- a whole run

  const READ_FILES: seq<KeyFile> := [ServerPrivate, ServerPublic, ClientPrivate, ClientPublic, SshPub]

  predicate AllPresent(files: Files) {
    ServerPrivate in files && ServerPublic in files && ClientPrivate in files && ClientPublic in files
    && SshPub in files && SshKey in files
  }

  /** loadExisting: five files are read and trimmed, the sixth only has to exist. */
  function Load(files: Files): Option<Keys> {
    if !AllPresent(files) then None
    else
      Some(Keys(Trim(files[ServerPrivate]), Trim(files[ServerPublic]),
                Trim(files[ClientPrivate]), Trim(files[ClientPublic]), Trim(files[SshPub])))
  }

  /** readTrimmedFiles: the trimmed contents in the given order, unless one is missing. */
  method ReadTrimmedFiles(dir: KeyDir, names: seq<KeyFile>) returns (vals: Option<seq<string>>)
    ensures vals.None? <==> exists i :: 0 <= i < |names| && names[i] !in dir.files
    ensures vals.Some? ==>
              |vals.value| == |names|
              && forall i :: 0 <= i < |names| ==> names[i] in dir.files && vals.value[i] == Trim(dir.files[names[i]])
  {
    var read: seq<string> := [];
    for i := 0 to |names|
      invariant |read| == i
      invariant forall j :: 0 <= j < i ==> names[j] in dir.files && read[j] == Trim(dir.files[names[j]])
    {
      if names[i] !in dir.files {
        return None;
      }
      read := read + [Trim(dir.files[names[i]])];
    }
    return Some(read);
  }

  method LoadExisting(dir: KeyDir) returns (keys: Option<Keys>)
    ensures keys == Load(dir.files)
    ensures keys.Some? <==>
            ServerPrivate in dir.files && ServerPublic in dir.files && ClientPrivate in dir.files
            && ClientPublic in dir.files && SshKey in dir.files && SshPub in dir.files
    ensures keys.Some? ==>
              var k := keys.value;
              k.serverPrivate == Trim(dir.files[ServerPrivate]) && k.serverPublic == Trim(dir.files[ServerPublic])
              && k.clientPrivate == Trim(dir.files[ClientPrivate]) && k.clientPublic == Trim(dir.files[ClientPublic])
              && k.sshPub == Trim(dir.files[SshPub])
  {
    var vals := ReadTrimmedFiles(dir, READ_FILES);
    assert READ_FILES[0] == ServerPrivate && READ_FILES[1] == ServerPublic && READ_FILES[2] == ClientPrivate;
    assert READ_FILES[3] == ClientPublic && READ_FILES[4] == SshPub;
    if vals == None {
      return None;
    }
    if SshKey !in dir.files {
      return None;
    }
    var v := vals.value;
    return Some(Keys(v[0], v[1], v[2], v[3], v[4]));
  }

  datatype Answers = Answers(server: WgAnswers, client: WgAnswers, ssh: SshAnswers)

  predicate Possible(a: Answers) {
    WgPossible(a.server) && WgPossible(a.client)
  }

  function RunOnce(cr: Crypto, files: Files, a: Answers): Step<Keys>
    requires Possible(a)
  {
    match Load(files)
    case Some(keys) => Step(files, Some(keys))
    case None =>
      var s := MakeWgPair(cr, files, ServerPrivate, ServerPublic, a.server);
      if s.made == None then Step(s.files, None)
      else
        var c := MakeWgPair(cr, s.files, ClientPrivate, ClientPublic, a.client);
        if c.made == None then Step(c.files, None)
        else
          var h := MakeSshPair(cr, c.files, a.ssh);
          if h.made == None then Step(h.files, None)
          else Step(h.files, Some(Keys(s.made.value.0, s.made.value.1, c.made.value.0, c.made.value.1, h.made.value)))
  }

  method GenerateAll(dir: KeyDir, cr: Crypto, a: Answers) returns (keys: Option<Keys>)
    requires Possible(a)
    modifies dir
    ensures Step(dir.files, keys) == RunOnce(cr, old(dir.files), a)
    ensures Load(old(dir.files)).Some? ==> dir.writes == old(dir.writes)
  {
    keys := LoadExisting(dir);
    if keys.Some? {
      return;
    }
    var server := GenerateWireGuardKeypair(dir, cr, ServerPrivate, ServerPublic, a.server);
    if server == None {
      return None;
    }
    var client := GenerateWireGuardKeypair(dir, cr, ClientPrivate, ClientPublic, a.client);
    if client == None {
      return None;
    }
    var ssh := GenerateSshKeypair(dir, cr, a.ssh);
    if ssh == None {
      return None;
    }
    return Some(Keys(server.value.0, server.value.1, client.value.0, client.value.1, ssh.value));
  }

  /** The files after a row of runs. */
  function RunMany(cr: Crypto, files: Files, runs: seq<Answers>): Files
    requires forall i :: 0 <= i < |runs| ==> Possible(runs[i])
    decreases |runs|
  {
    if runs == [] then files else RunMany(cr, RunOnce(cr, files, runs[0]).files, runs[1..])
  }

  // ----- keys that match

  ghost predicate WgMatch(cr: Crypto, priv: string, pub: string) {
    PublicText(cr, priv) == Some(pub)
  }

  /** An authorized_keys line of three words: the type, the encoded key and the comment. */
  predicate PublicLine(line: string, blob: seq<Byte>) {
    line == "ssh-ed25519" + " " + Encode(blob) + " " + "ubo-client"
    && (blob != [] ==> Fields(line) == ["ssh-ed25519", Encode(blob), "ubo-client"])
  }

  lemma PubLineIs(blob: seq<Byte>)
    ensures PublicLine(PubLine(blob), blob)
  {
    var a, b, c := "ssh-ed25519", Encode(blob), "ubo-client";
    assert "ssh-ed25519 " == a + " " && " ubo-client" == " " + c;
    assert PubLine(blob) == a + " " + b + " " + c;
    if blob != [] {
      EncodeChars(blob);
      LiteralWords();
      ThreeWords(a, b, c);
    }
  }

  lemma LiteralWords()
    ensures SpaceFree("ssh-ed25519") && SpaceFree("ubo-client")
  {
  }

  lemma ThreeWords(a: string, b: string, c: string)
    requires a != "" && b != "" && c != "" && SpaceFree(a) && SpaceFree(b) && SpaceFree(c)
    ensures Fields(a + " " + b + " " + c) == [a, b, c]
  {
    FieldsAcrossSpace(a + " " + b, ' ', c);
    FieldsAcrossSpace(a, ' ', b);
    FieldsWord(a);
    FieldsWord(b);
    FieldsWord(c);
    assert a + [' '] + b == a + " " + b;
    assert [a] + [b] + [c] == [a, b, c];
  }

  ghost predicate SshMatch(cr: Crypto, key: string, pub: string) {
    exists seed :: cr.pem(seed) == Some(key) && cr.blob(seed).Some? && PublicLine(pub, cr.blob(seed).value)
  }

  /** Every pair that is complete on disk matches. */
  ghost predicate PairsMatch(cr: Crypto, files: Files) {
    && (ServerPrivate in files && ServerPublic in files ==>
          WgMatch(cr, Trim(files[ServerPrivate]), Trim(files[ServerPublic])))
    && (ClientPrivate in files && ClientPublic in files ==>
          WgMatch(cr, Trim(files[ClientPrivate]), Trim(files[ClientPublic])))
    && (SshKey in files && SshPub in files ==> SshMatch(cr, files[SshKey], Trim(files[SshPub])))
  }

  lemma LineTrims(s: string)
    requires s != "" && !IsSpace(s[0]) && !IsSpace(s[|s| - 1])
    ensures Trim(s + "\n") == s
  {
    TrimUnique("", s, "\n");
    assert "" + s + "\n" == s + "\n";
  }

  lemma EncodedTrims(b: seq<Byte>)
    ensures Trim(Encode(b) + "\n") == Encode(b)
  {
    EncodeChars(b);
    if b == [] {
      TrimUnique("\n", "", "");
      assert Encode(b) + "\n" == "\n" + "" + "";
    } else {
      LineTrims(Encode(b));
    }
  }

  lemma PubLineTrims(blob: seq<Byte>)
    ensures Trim(PubLine(blob) + "\n") == PubLine(blob)
  {
    var s := PubLine(blob);
    assert s[0] == 's' && s[|s| - 1] == 't';
    LineTrims(s);
  }

  /** Apart from its own files a step changes nothing. */
  ghost predicate SameElsewhere(before: Files, after: Files, f: KeyFile, g: KeyFile) {
    forall h :: h != f && h != g ==> (h in after <==> h in before) && (h in before ==> after[h] == before[h])
  }

  lemma PairTexts(cr: Crypto, random: seq<Byte>)
    requires |random| == 32
    ensures var text := PrivateText(random);
            Trim(text + "\n") == text
            && (PublicText(cr, text).Some? ==> Trim(PublicText(cr, text).value + "\n") == PublicText(cr, text).value)
  {
    var k := Clamped(random);
    EncodedTrims(k);
    DecodeEncode(k);
    if cr.derive(k).Some? {
      EncodedTrims(cr.derive(k).value);
    }
  }

  lemma WgPairFrame(cr: Crypto, files: Files, priv: KeyFile, pub: KeyFile, a: WgAnswers)
    requires WgPossible(a) && priv != pub
    ensures SameElsewhere(files, MakeWgPair(cr, files, priv, pub, a).files, priv, pub)
  {
    var text := PrivateText(a.random);
    WriteFrame(files, priv, text + "\n", a.privateWrite, priv, pub);
    var f1 := WriteTo(files, priv, text + "\n", a.privateWrite);
    var p := PublicText(cr, text);
    if p.Some? {
      WriteFrame(f1, pub, p.value + "\n", a.publicWrite, priv, pub);
    }
  }

  lemma WriteFrame(files: Files, f: KeyFile, content: string, w: WriteOutcome, g: KeyFile, h: KeyFile)
    requires f == g || f == h
    ensures SameElsewhere(files, WriteTo(files, f, content, w), g, h)
  {
  }

  lemma WgPairMade(cr: Crypto, files: Files, priv: KeyFile, pub: KeyFile, a: WgAnswers)
    requires WgPossible(a) && priv != pub && MakeWgPair(cr, files, priv, pub, a).made.Some?
    ensures var s := MakeWgPair(cr, files, priv, pub, a);
            priv in s.files && pub in s.files
            && Trim(s.files[priv]) == s.made.value.0 && Trim(s.files[pub]) == s.made.value.1
            && WgMatch(cr, s.made.value.0, s.made.value.1)
  {
    PairTexts(cr, a.random);
  }

  /** A WireGuard step: success leaves a matching pair that reads back as what is returned;
      failure leaves the files as they were or no private key, unless a write was torn. */
  lemma WgPairStep(cr: Crypto, files: Files, priv: KeyFile, pub: KeyFile, a: WgAnswers)
    requires WgPossible(a) && priv != pub
    ensures var s := MakeWgPair(cr, files, priv, pub, a);
            && SameElsewhere(files, s.files, priv, pub)
            && (s.made.Some? ==>
                  priv in s.files && pub in s.files
                  && Trim(s.files[priv]) == s.made.value.0 && Trim(s.files[pub]) == s.made.value.1
                  && WgMatch(cr, s.made.value.0, s.made.value.1))
            && (s.made.None? && !a.privateWrite.Torn? ==> s.files == files || priv !in s.files)
  {
    WgPairFrame(cr, files, priv, pub, a);
    if MakeWgPair(cr, files, priv, pub, a).made.Some? {
      WgPairMade(cr, files, priv, pub, a);
    }
  }

  lemma SshPairStep(cr: Crypto, files: Files, a: SshAnswers)
    ensures var s := MakeSshPair(cr, files, a);
            && SameElsewhere(files, s.files, SshKey, SshPub)
            && (s.made.Some? ==>
                  SshKey in s.files && SshPub in s.files
                  && Trim(s.files[SshPub]) == s.made.value && SshMatch(cr, s.files[SshKey], s.made.value))
            && (s.made.None? && !a.keyWrite.Torn? ==> s.files == files || SshKey !in s.files)
            && (s.made.None? && !a.pubWrite.Torn? && SshPub !in files ==> SshPub !in s.files)
  {
    if cr.blob(a.seed).Some? {
      PubLineTrims(cr.blob(a.seed).value);
      PubLineIs(cr.blob(a.seed).value);
    }
  }

  /** A made pair is the encoded clamped key and the encoded key derived from it. */
  lemma MadeTexts(cr: Crypto, files: Files, priv: KeyFile, pub: KeyFile, a: WgAnswers)
    requires WgPossible(a) && MakeWgPair(cr, files, priv, pub, a).made.Some?
    ensures var made := MakeWgPair(cr, files, priv, pub, a).made.value;
            made.0 == Encode(Clamped(a.random)) && cr.derive(Clamped(a.random)).Some?
            && made.1 == Encode(cr.derive(Clamped(a.random)).value)
  {
    DecodeEncode(Clamped(a.random));
  }

  /** A generating run that succeeds returns what its steps made. */
  lemma RunReturns(cr: Crypto, files: Files, a: Answers)
    requires Possible(a) && Load(files).None? && RunOnce(cr, files, a).made.Some?
    ensures var s := MakeWgPair(cr, files, ServerPrivate, ServerPublic, a.server);
            var c := MakeWgPair(cr, s.files, ClientPrivate, ClientPublic, a.client);
            var keys := RunOnce(cr, files, a).made.value;
            s.made.Some? && c.made.Some?
            && (keys.serverPrivate, keys.serverPublic) == s.made.value
            && (keys.clientPrivate, keys.clientPublic) == c.made.value
  {
  }

  /** What both WireGuard pairs have left in front of the SSH step. */
  lemma BothPairsMade(cr: Crypto, files: Files, a: Answers, mid: Step<(string, string)>, c: Step<(string, string)>)
    requires Possible(a) && mid == MakeWgPair(cr, files, ServerPrivate, ServerPublic, a.server) && mid.made.Some?
    requires c == MakeWgPair(cr, mid.files, ClientPrivate, ClientPublic, a.client) && c.made.Some?
    ensures ServerPrivate in c.files && Trim(c.files[ServerPrivate]) == mid.made.value.0
    ensures ServerPublic in c.files && Trim(c.files[ServerPublic]) == mid.made.value.1
    ensures ClientPrivate in c.files && Trim(c.files[ClientPrivate]) == c.made.value.0
    ensures ClientPublic in c.files && Trim(c.files[ClientPublic]) == c.made.value.1
    ensures WgMatch(cr, mid.made.value.0, mid.made.value.1) && WgMatch(cr, c.made.value.0, c.made.value.1)
  {
    WgPairStep(cr, files, ServerPrivate, ServerPublic, a.server);
    WgPairStep(cr, mid.files, ClientPrivate, ClientPublic, a.client);
  }

  /** A run that returns keys leaves them on disk, complete and matching. */
  lemma SuccessLoads(cr: Crypto, files: Files, a: Answers)
    requires Possible(a) && RunOnce(cr, files, a).made.Some?
    ensures Load(RunOnce(cr, files, a).files) == RunOnce(cr, files, a).made
    ensures Load(files).None? ==> PairsMatch(cr, RunOnce(cr, files, a).files)
  {
    if Load(files).None? {
      var s := MakeWgPair(cr, files, ServerPrivate, ServerPublic, a.server);
      var c := MakeWgPair(cr, s.files, ClientPrivate, ClientPublic, a.client);
      BothPairsMade(cr, files, a, s, c);
      SshPairStep(cr, c.files, a.ssh);
    }
  }

  /** Once a run has returned keys, every later run returns the same keys and changes nothing. */
  lemma {:induction false} LaterRunsReuse(cr: Crypto, files: Files, a: Answers, later: seq<Answers>, last: Answers)
    requires Possible(a) && Possible(last) && forall i :: 0 <= i < |later| ==> Possible(later[i])
    requires RunOnce(cr, files, a).made.Some?
    ensures var after := RunOnce(cr, files, a);
            RunMany(cr, after.files, later) == after.files
            && RunOnce(cr, RunMany(cr, after.files, later), last) == Step(after.files, after.made)
    decreases |later|
  {
    SuccessLoads(cr, files, a);
    if later != [] {
      LaterRunsReuse(cr, files, a, later[1..], last);
    }
  }

  // ----- any directory, writes that fail cleanly

  predicate Clean(a: Answers) {
    && !a.server.privateWrite.Torn? && !a.server.publicWrite.Torn?
    && !a.client.privateWrite.Torn? && !a.client.publicWrite.Torn?
    && !a.ssh.keyWrite.Torn? && !a.ssh.pubWrite.Torn?
  }

  lemma CleanWgStepKeepsPairs(cr: Crypto, files: Files, priv: KeyFile, pub: KeyFile, a: WgAnswers)
    requires WgPossible(a) && !a.privateWrite.Torn? && PairsMatch(cr, files)
    requires (priv == ServerPrivate && pub == ServerPublic) || (priv == ClientPrivate && pub == ClientPublic)
    ensures PairsMatch(cr, MakeWgPair(cr, files, priv, pub, a).files)
  {
    WgPairStep(cr, files, priv, pub, a);
  }

  lemma CleanSshStepKeepsPairs(cr: Crypto, files: Files, a: SshAnswers)
    requires !a.keyWrite.Torn? && PairsMatch(cr, files)
    ensures PairsMatch(cr, MakeSshPair(cr, files, a).files)
  {
    SshPairStep(cr, files, a);
  }

  /** A run that has to generate leaves the files of its first, second or third step. */
  lemma RunLeaves(cr: Crypto, files: Files, a: Answers) returns (f: seq<Files>)
    requires Possible(a) && Load(files).None?
    ensures |f| == 3
    ensures f[0] == MakeWgPair(cr, files, ServerPrivate, ServerPublic, a.server).files
    ensures f[1] == MakeWgPair(cr, f[0], ClientPrivate, ClientPublic, a.client).files
    ensures f[2] == MakeSshPair(cr, f[1], a.ssh).files
    ensures RunOnce(cr, files, a).files in f
  {
    var f0 := MakeWgPair(cr, files, ServerPrivate, ServerPublic, a.server).files;
    var f1 := MakeWgPair(cr, f0, ClientPrivate, ClientPublic, a.client).files;
    f := [f0, f1, MakeSshPair(cr, f1, a.ssh).files];
    assert f[0] in f && f[1] in f && f[2] in f;
  }

  lemma CleanRunKeepsPairs(cr: Crypto, files: Files, a: Answers)
    requires Possible(a) && Clean(a) && PairsMatch(cr, files)
    ensures PairsMatch(cr, RunOnce(cr, files, a).files)
  {
    if Load(files).None? {
      var f := RunLeaves(cr, files, a);
      CleanWgStepKeepsPairs(cr, files, ServerPrivate, ServerPublic, a.server);
      CleanWgStepKeepsPairs(cr, f[0], ClientPrivate, ClientPublic, a.client);
      CleanSshStepKeepsPairs(cr, f[1], a.ssh);
    }
  }

  /** From any directory whose complete pairs match, over any runs whose failing writes leave
      the file as it was, whatever loads is made of matching pairs. */
  lemma {:induction false} CleanRunsLoadMatching(cr: Crypto, files: Files, runs: seq<Answers>)
    requires forall i :: 0 <= i < |runs| ==> Possible(runs[i]) && Clean(runs[i])
    requires PairsMatch(cr, files)
    ensures PairsMatch(cr, RunMany(cr, files, runs))
    decreases |runs|
  {
    if runs != [] {
      CleanRunKeepsPairs(cr, files, runs[0]);
      CleanRunsLoadMatching(cr, RunOnce(cr, files, runs[0]).files, runs[1..]);
    }
  }

  // ----- a fresh directory, writes that may leave anything behind

  /** Which of the two SSH writes may be torn. */
  datatype Damage = Damage(key: bool, pub: bool)

  predicate Allowed(a: Answers, d: Damage) {
    Possible(a) && (a.ssh.keyWrite.Torn? ==> d.key) && (a.ssh.pubWrite.Torn? ==> d.pub)
  }

  predicate AllAllowed(runs: seq<Answers>, d: Damage) {
    forall i :: 0 <= i < |runs| ==> Allowed(runs[i], d)
  }

  /** Whatever loads, loads matching pairs. */
  ghost predicate LoadsMatching(cr: Crypto, files: Files) {
    Load(files).Some? ==> PairsMatch(cr, files)
  }

  /** The file whose write is never torn appears only when everything is in place. */
  ghost predicate Sealed(cr: Crypto, files: Files, seal: KeyFile) {
    seal in files ==> AllPresent(files) && PairsMatch(cr, files)
  }

  /** A run that fails does not bring the seal about. */
  lemma SealAbsent(cr: Crypto, files: Files, a: Answers, d: Damage, seal: KeyFile)
    requires Allowed(a, d) && Load(files).None? && RunOnce(cr, files, a).made.None? && seal !in files
    requires (seal == SshPub && !d.pub) || (seal == SshKey && !d.key)
    ensures seal !in RunOnce(cr, files, a).files
  {
    var s := MakeWgPair(cr, files, ServerPrivate, ServerPublic, a.server);
    WgPairStep(cr, files, ServerPrivate, ServerPublic, a.server);
    if s.made.Some? {
      var c := MakeWgPair(cr, s.files, ClientPrivate, ClientPublic, a.client);
      WgPairStep(cr, s.files, ClientPrivate, ClientPublic, a.client);
      if c.made.Some? {
        SshPairStep(cr, c.files, a.ssh);
      }
    }
  }

  lemma SealKept(cr: Crypto, files: Files, a: Answers, d: Damage, seal: KeyFile)
    requires Allowed(a, d) && Sealed(cr, files, seal)
    requires (seal == SshPub && !d.pub) || (seal == SshKey && !d.key)
    ensures Sealed(cr, RunOnce(cr, files, a).files, seal)
  {
    if Load(files).None? {
      if RunOnce(cr, files, a).made.Some? {
        SuccessLoads(cr, files, a);
      } else {
        SealAbsent(cr, files, a, d, seal);
      }
    }
  }

  lemma {:induction false} SealKeptOverRuns(cr: Crypto, files: Files, runs: seq<Answers>, d: Damage, seal: KeyFile)
    requires AllAllowed(runs, d) && Sealed(cr, files, seal)
    requires (seal == SshPub && !d.pub) || (seal == SshKey && !d.key)
    ensures Sealed(cr, RunMany(cr, files, runs), seal)
    decreases |runs|
  {
    if runs != [] {
      SealKept(cr, files, runs[0], d, seal);
      SealKeptOverRuns(cr, RunOnce(cr, files, runs[0]).files, runs[1..], d, seal);
    }
  }

  /** Random bytes for which every library call succeeds. */
  ghost predicate Works(cr: Crypto, random: seq<Byte>, seed: seq<Byte>) {
    |random| == 32 && cr.derive(Clamped(random)).Some? && cr.pem(seed).Some? && cr.blob(seed).Some?
  }

  /** The answers of a run in which every WireGuard step succeeds. */
  function WgSuccess(random: seq<Byte>): WgAnswers {
    WgAnswers(false, random, Written, Written)
  }

  lemma WgSucceeds(cr: Crypto, files: Files, priv: KeyFile, pub: KeyFile, random: seq<Byte>)
    requires |random| == 32 && cr.derive(Clamped(random)).Some? && priv != pub
    ensures var s := MakeWgPair(cr, files, priv, pub, WgSuccess(random));
            s.made.Some? && priv in s.files && pub in s.files && SameElsewhere(files, s.files, priv, pub)
  {
    WgPairStep(cr, files, priv, pub, WgSuccess(random));
    DecodeEncode(Clamped(random));
  }

  /** Nothing fails: no random source, no library call, no write. */
  ghost predicate WgFlawless(cr: Crypto, a: WgAnswers)
    requires WgPossible(a)
  {
    !a.randomFails && a.privateWrite.Written? && a.publicWrite.Written? && cr.derive(Clamped(a.random)).Some?
  }

  ghost predicate SshFlawless(cr: Crypto, a: SshAnswers) {
    !a.randomFails && a.keyWrite.Written? && a.pubWrite.Written? && cr.pem(a.seed).Some? && cr.blob(a.seed).Some?
  }

  lemma WgSucceedsExactly(cr: Crypto, files: Files, priv: KeyFile, pub: KeyFile, a: WgAnswers)
    requires WgPossible(a)
    ensures MakeWgPair(cr, files, priv, pub, a).made.Some? <==> WgFlawless(cr, a)
  {
    DecodeEncode(Clamped(a.random));
  }

  lemma SshSucceedsExactly(cr: Crypto, files: Files, a: SshAnswers)
    ensures MakeSshPair(cr, files, a).made.Some? <==> SshFlawless(cr, a)
  {
  }

  /** A run returns keys exactly when it finds all files or nothing fails. */
  lemma RunSucceeds(cr: Crypto, files: Files, a: Answers)
    requires Possible(a)
    ensures RunOnce(cr, files, a).made.Some? <==>
            AllPresent(files) || (WgFlawless(cr, a.server) && WgFlawless(cr, a.client) && SshFlawless(cr, a.ssh))
  {
    if Load(files).None? {
      var s := MakeWgPair(cr, files, ServerPrivate, ServerPublic, a.server);
      var c := MakeWgPair(cr, s.files, ClientPrivate, ClientPublic, a.client);
      WgSucceedsExactly(cr, files, ServerPrivate, ServerPublic, a.server);
      WgSucceedsExactly(cr, s.files, ClientPrivate, ClientPublic, a.client);
      SshSucceedsExactly(cr, c.files, a.ssh);
      if s.made.Some? && c.made.Some? {
        ReachesSsh(cr, files, a, s.files);
      }
    }
  }

  /** When both WireGuard pairs are made, the SSH step decides what the run leaves and whether it succeeds. */
  lemma ReachesSsh(cr: Crypto, files: Files, a: Answers, mid: Files)
    requires Possible(a) && Load(files).None?
    requires MakeWgPair(cr, files, ServerPrivate, ServerPublic, a.server).made.Some?
    requires mid == MakeWgPair(cr, files, ServerPrivate, ServerPublic, a.server).files
    requires MakeWgPair(cr, mid, ClientPrivate, ClientPublic, a.client).made.Some?
    ensures var h := MakeSshPair(cr, MakeWgPair(cr, mid, ClientPrivate, ClientPublic, a.client).files, a.ssh);
            var run := RunOnce(cr, files, a);
            run.files == h.files && (run.made.Some? <==> h.made.Some?)
  {
  }

  /** The files in front of the SSH step of a run whose WireGuard steps succeed. */
  lemma BeforeSsh(cr: Crypto, files: Files, random: seq<Byte>, ssh: SshAnswers) returns (f: Files)
    requires |random| == 32 && cr.derive(Clamped(random)).Some? && Load(files).None?
    ensures ServerPrivate in f && ServerPublic in f && ClientPrivate in f && ClientPublic in f
    ensures (SshPub in f <==> SshPub in files) && (SshPub in f ==> f[SshPub] == files[SshPub])
    ensures SshKey in f <==> SshKey in files
    ensures RunOnce(cr, files, Answers(WgSuccess(random), WgSuccess(random), ssh)).files
            == MakeSshPair(cr, f, ssh).files
  {
    var s := MakeWgPair(cr, files, ServerPrivate, ServerPublic, WgSuccess(random));
    WgSucceeds(cr, files, ServerPrivate, ServerPublic, random);
    WgSucceeds(cr, s.files, ClientPrivate, ClientPublic, random);
    ReachesSsh(cr, files, Answers(WgSuccess(random), WgSuccess(random), ssh), s.files);
    f := MakeWgPair(cr, s.files, ClientPrivate, ClientPublic, WgSuccess(random)).files;
  }

  lemma EmptyNeverMatches(cr: Crypto, key: string)
    ensures !SshMatch(cr, key, "")
  {
    forall blob: seq<Byte> ensures !PublicLine("", blob) {
      assert |"ssh-ed25519" + " " + Encode(blob) + " " + "ubo-client"| >= 12;
    }
  }

  lemma RunCons(cr: Crypto, files: Files, runs: seq<Answers>, a: Answers, rest: seq<Answers>)
    requires |runs| > 0 && runs[0] == a && runs[1..] == rest && forall i :: 0 <= i < |runs| ==> Possible(runs[i])
    ensures RunMany(cr, files, runs) == RunMany(cr, RunOnce(cr, files, a).files, rest)
  {
  }

  lemma TwoRuns(cr: Crypto, files: Files, first: Answers, second: Answers, mid: Files, end: Files)
    requires Possible(first) && Possible(second)
    requires mid == RunOnce(cr, files, first).files && end == RunOnce(cr, mid, second).files
    ensures RunMany(cr, files, [first, second]) == end
  {
    RunCons(cr, files, [first, second], first, [second]);
    RunCons(cr, mid, [second], second, []);
  }

  /** A torn public key behind a complete key: the key is removed, the torn file stays. */
  lemma TornPubLeft(cr: Crypto, files: Files, seed: seq<Byte>)
    requires cr.pem(seed).Some? && cr.blob(seed).Some?
    ensures MakeSshPair(cr, files, SshAnswers(false, seed, Written, Torn(""))).files == files[SshPub := ""] - {SshKey}
  {
    assert files[SshKey := cr.pem(seed).value][SshPub := ""] - {SshKey} == files[SshPub := ""] - {SshKey};
  }

  lemma TornKeyLeft(cr: Crypto, files: Files, seed: seq<Byte>)
    requires cr.pem(seed).Some?
    ensures MakeSshPair(cr, files, SshAnswers(false, seed, Torn(""), Refused)).files == files[SshKey := ""]
  {
  }

  /** Two runs that leave a torn key beside a torn public key: the next load takes them. */
  lemma TornPairLoads(cr: Crypto, random: seq<Byte>, seed: seq<Byte>) returns (runs: seq<Answers>)
    requires Works(cr, random, seed)
    ensures AllAllowed(runs, Damage(true, true)) && !LoadsMatching(cr, RunMany(cr, map[], runs))
  {
    var tornPub := SshAnswers(false, seed, Written, Torn(""));
    var tornKey := SshAnswers(false, seed, Torn(""), Refused);
    var first := Answers(WgSuccess(random), WgSuccess(random), tornPub);
    var second := Answers(WgSuccess(random), WgSuccess(random), tornKey);
    runs := [first, second];
    var g1 := BeforeSsh(cr, map[], random, tornPub);
    var f1 := MakeSshPair(cr, g1, tornPub).files;
    TornPubLeft(cr, g1, seed);
    var g2 := BeforeSsh(cr, f1, random, tornKey);
    TornKeyLeft(cr, g2, seed);
    var f2 := MakeSshPair(cr, g2, tornKey).files;
    TwoRuns(cr, map[], first, second, f1, f2);
    EmptyNeverMatches(cr, f2[SshKey]);
    assert Trim(f2[SshPub]) == "";
  }

  /** Starting from an empty directory, with every other write free to be torn, what loads is
      made of matching pairs exactly when the SSH key and its public key cannot both be torn. */
  lemma FreshRunsLoadMatching(cr: Crypto, d: Damage, random: seq<Byte>, seed: seq<Byte>)
    requires Works(cr, random, seed)
    ensures (forall runs :: AllAllowed(runs, d) ==> LoadsMatching(cr, RunMany(cr, map[], runs))) <==> !(d.key && d.pub)
  {
    if d.key && d.pub {
      var runs := TornPairLoads(cr, random, seed);
      assert AllAllowed(runs, d) && !LoadsMatching(cr, RunMany(cr, map[], runs));
    } else {
      var seal := if d.pub then SshKey else SshPub;
      forall runs | AllAllowed(runs, d) ensures LoadsMatching(cr, RunMany(cr, map[], runs)) {
        SealKeptOverRuns(cr, map[], runs, d, seal);
      }
    }
  }
}

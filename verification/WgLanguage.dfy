/** What the client file may look like (contrib/rootless/parse.go), told by the characters of its
    lines, and the lines that are rendered (internal/templates/templates.go). */
module WgLanguage {
  import opened Text
  import opened WgIni

  // ----- the rendered lines

  /** The file as it is rendered, line by line. */
  lemma RenderedLines(c: WgClient)
    requires AllPlain(c)
    ensures Split(IniText(c), '\n') ==
            ["[Interface]", "PrivateKey" + " = " + c.privateKey, "Address" + " = " + c.address,
             "", "[Peer]", "PublicKey" + " = " + c.publicKey, "Endpoint" + " = " + c.endpoint,
             "AllowedIPs" + " = " + c.allowedIps, "PersistentKeepalive" + " = " + "25", ""]
  {
    IniLinesNewlineFree(c);
    SplitTerminated(IniLines(c), '\n');
  }

  // ----- what a line sets

  predicate NameIs(f: IniField, name: string) {
    match f
    case PrivateKey => name == "privatekey"
    case Address => name == "address"
    case PublicKey => name == "publickey"
    case Endpoint => name == "endpoint"
    case AllowedIps => name == "allowedips"
  }

  ghost predicate SetsParts(line: string, f: IniField, v: string, key: string, rest: string) {
    var t := Trim(line);
    && t == key + "=" + rest && Lacks(key, '=') && t[0] != '#' && t[0] != '['
    && NameIs(f, Trim(Lower(key))) && v == Trim(rest)
  }

  /** A line that is neither a comment nor a section: a key, in capitals or not, up to the first
      equals sign, and the value behind it. */
  ghost predicate Sets(line: string, f: IniField, v: string) {
    exists key, rest :: SetsParts(line, f, v, key, rest)
  }

  lemma SetterNames(key: string, f: IniField)
    ensures SetterFor(key) == Some(f) <==> NameIs(f, key)
  {
    match f
    case PrivateKey =>
    case Address =>
    case PublicKey =>
    case Endpoint =>
    case AllowedIps =>
  }

  lemma LineLanguage(line: string, f: IniField, v: string)
    ensures LineSets(Trim(DropCr(line))) == Some((f, v)) <==> Sets(line, f, v)
  {
    var t := Trim(line);
    TrimDropCr(line);
    if LineSets(t) == Some((f, v)) {
      var eq := IndexOf(t, '=');
      SetterNames(Trim(Lower(t[..eq])), f);
      assert t == t[..eq] + "=" + t[eq + 1..];
      assert SetsParts(line, f, v, t[..eq], t[eq + 1..]);
    }
    if key, rest :| SetsParts(line, f, v, key, rest) {
      IndexOfAt(key, '=', rest);
      assert t[..|key|] == key && t[|key| + 1..] == rest;
      SetterNames(Trim(Lower(key)), f);
    }
  }

  // ----- what a file says

  /** The value is that of the last line that sets the field; empty when none does. */
  ghost predicate LastSet(lines: seq<string>, f: IniField, v: string) {
    || (exists i: nat ::
          i < |lines| && Sets(lines[i], f, v) && forall j, w :: i < j < |lines| ==> !Sets(lines[j], f, w))
    || (v == "" && forall j, w :: 0 <= j < |lines| ==> !Sets(lines[j], f, w))
  }

  lemma ApplySets(line: string, c: WgClient, f: IniField)
    ensures var after := GetField(ApplyLine(c, Trim(DropCr(line))), f);
            Sets(line, f, after) || (after == GetField(c, f) && forall w :: !Sets(line, f, w))
  {
    var sets := LineSets(Trim(DropCr(line)));
    if sets.Some? && sets.value.0 == f {
      LineLanguage(line, f, sets.value.1);
    } else {
      forall w ensures !Sets(line, f, w) {
        LineLanguage(line, f, w);
      }
    }
  }

  lemma LastSetSnoc(lines: seq<string>, line: string, f: IniField, before: string, after: string)
    requires LastSet(lines, f, before)
    requires Sets(line, f, after) || (after == before && forall w :: !Sets(line, f, w))
    ensures LastSet(lines + [line], f, after)
  {
    var all := lines + [line];
    assert all[|lines|] == line;
    if Sets(line, f, after) {
      assert Sets(all[|lines|], f, after);
    } else if i: nat :| i < |lines| && Sets(lines[i], f, before)
                        && forall j, w :: i < j < |lines| ==> !Sets(lines[j], f, w) {
      assert Sets(all[i], f, after);
      forall j, w | i < j < |all| ensures !Sets(all[j], f, w) {
        assert j < |lines| ==> all[j] == lines[j];
      }
    } else {
      forall j, w | 0 <= j < |all| ensures !Sets(all[j], f, w) {
        assert j < |lines| ==> all[j] == lines[j];
      }
    }
  }

  lemma {:induction false} LinesSet(lines: seq<string>, f: IniField)
    ensures LastSet(lines, f, GetField(ApplyLines(EMPTY, lines), f))
    decreases |lines|
  {
    if lines != [] {
      var init, line := lines[..|lines| - 1], lines[|lines| - 1];
      assert lines == init + [line];
      LinesSet(init, f);
      var c := ApplyLines(EMPTY, init);
      ApplyConcat(init, [line], EMPTY);
      ApplyOne(line, c);
      ApplySets(line, c, f);
      LastSetSnoc(init, line, f, GetField(c, f), GetField(ApplyLines(EMPTY, lines), f));
    }
  }

  /** Every text: refused for a line of 64 KiB; or else every field is what the last line that
      sets it says, and the text is refused for a field that is empty. */
  lemma FileLanguage(text: string)
    ensures var lines := ScanLines(text);
            match ParseWg(text)
            case Ok(c) => NoneLong(lines) && forall f :: GetField(c, f) != "" && LastSet(lines, f, GetField(c, f))
            case Err(LineTooLong) => !NoneLong(lines)
            case Err(Missing(f)) => NoneLong(lines) && LastSet(lines, f, "")
  {
    var lines := ScanLines(text);
    var c := ApplyLines(EMPTY, lines);
    forall f ensures LastSet(lines, f, GetField(c, f)) {
      LinesSet(lines, f);
    }
    if FirstMissing(c) == None {
      forall f ensures GetField(c, f) != "" {
        match f
        case PrivateKey =>
        case Address =>
        case PublicKey =>
        case Endpoint =>
        case AllowedIps =>
      }
    } else {
      var f := FirstMissing(c).value;
      assert GetField(c, f) == "";
    }
  }
}

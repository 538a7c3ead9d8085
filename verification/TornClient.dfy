/** A client file that was cut off while it was written, read back (main.go, contrib/rootless/parse.go). */
module TornClient {
  import opened Text
  import opened WgIni

  // ----- reading a cut text

  /** A cut through lines leaves whole lines and the beginning of the next one. */
  lemma {:induction false} CutLines(lines: seq<string>, m: nat) returns (j: nat, r: nat)
    requires m < |Terminated(lines, '\n')|
    ensures j < |lines| && r <= |lines[j]| && m == |Terminated(lines[..j], '\n')| + r
    ensures Terminated(lines, '\n')[..m] == Terminated(lines[..j], '\n') + lines[j][..r]
    decreases |lines|
  {
    var first := lines[0] + ['\n'];
    var rest := Terminated(lines[1..], '\n');
    assert Terminated(lines, '\n') == first + rest;
    if m < |first| {
      j, r := 0, m;
      assert lines[..0] == [];
      assert (first + rest)[..m] == lines[0][..m];
    } else {
      j, r := CutLines(lines[1..], m - |first|);
      assert lines[..j + 1] == [lines[0]] + lines[1..][..j];
      assert lines[..j + 1][1..] == lines[1..][..j];
      assert (first + rest)[..m] == first + rest[..m - |first|];
      ConcatAssoc(first, Terminated(lines[1..][..j], '\n'), lines[j + 1][..r]);
      j := j + 1;
    }
  }

  lemma {:induction false} SplitPartial(lines: seq<string>, p: string)
    requires (forall i :: 0 <= i < |lines| ==> NewlineFree(lines[i])) && NewlineFree(p)
    ensures Split(Terminated(lines, '\n') + p, '\n') == lines + [p]
    decreases |lines|
  {
    if lines == [] {
      assert "" + p == p;
      IndexOfLacks(p, '\n');
      assert lines + [p] == [p];
    } else {
      var rest := Terminated(lines[1..], '\n') + p;
      SplitPartial(lines[1..], p);
      SplitFirst(lines[0], '\n', rest);
      ConcatAssoc(lines[0] + ['\n'], Terminated(lines[1..], '\n'), p);
      ConcatAssoc([lines[0]], lines[1..], [p]);
      assert lines == [lines[0]] + lines[1..];
    }
  }

  /** What the reader makes of whole lines and the beginning of one more. */
  lemma ReadPartial(lines: seq<string>, p: string)
    requires (forall i :: 0 <= i < |lines| ==> NewlineFree(lines[i])) && NewlineFree(p)
    requires NoneLong(lines) && !TooLong(p)
    ensures ParseWg(Terminated(lines, '\n') + p) ==
            var c := ApplyLine(ApplyLines(EMPTY, lines), Trim(DropCr(p)));
            match FirstMissing(c) case Some(f) => Err(Missing(f)) case None => Ok(c)
  {
    SplitPartial(lines, p);
    var read := ScanLines(Terminated(lines, '\n') + p);
    if p == "" {
      assert (lines + [p])[..|lines|] == lines;
      OtherLineSets("", ApplyLines(EMPTY, lines));
    } else {
      assert read == lines + [p];
      NoneLongOne(p);
      NoneLongConcat(lines, [p]);
      ApplyConcat(lines, [p], EMPTY);
      ApplyOne(p, ApplyLines(EMPTY, lines));
    }
    assert NoneLong(read);
  }

  lemma {:induction false} BeginningShorter(s: string, r: nat)
    requires r <= |s|
    ensures Utf8Length(s[..r]) <= Utf8Length(s)
    decreases |s|
  {
    if r > 0 {
      assert s[..r][1..] == s[1..][..r - 1];
      BeginningShorter(s[1..], r - 1);
    }
  }

  // ----- beginnings of lines

  /** The beginning of a field's line sets the field to the part of the value that is there, once
      the equals sign is. */
  lemma FieldBeginning(f: IniField, v: string, r: nat, c: WgClient)
    requires r <= |KeyLine(KeyOf(f), v)|
    ensures var n := |KeyOf(f)| + 2;
            ApplyLine(c, Trim(DropCr(KeyLine(KeyOf(f), v)[..r]))) ==
            if r < n then c else PutField(c, f, Trim((" " + v)[..r - n]))
  {
    KeyHasSetter(f);
    var key := KeyOf(f);
    var line, n := KeyLine(key, v), |key| + 2;
    assert line == key + " =" + (" " + v);
    if r < n {
      assert line[..r] == (key + " ")[..r];
      NoKeySets(line[..r], c);
    } else {
      assert line[..r] == key + " =" + (" " + v)[..r - n];
      KeySets(key, (" " + v)[..r - n], c);
    }
  }

  /** No beginning of the line touches the last field. */
  ghost predicate Harmless(line: string) {
    forall r: nat, c :: r <= |line| ==> ApplyLine(c, Trim(DropCr(line[..r]))).allowedIps == c.allowedIps
  }

  lemma FieldHarmless(f: IniField, v: string)
    requires f != AllowedIps
    ensures Harmless(KeyLine(KeyOf(f), v))
  {
    forall r: nat, c | r <= |KeyLine(KeyOf(f), v)|
      ensures ApplyLine(c, Trim(DropCr(KeyLine(KeyOf(f), v)[..r]))).allowedIps == c.allowedIps
    {
      FieldBeginning(f, v, r, c);
    }
  }

  lemma SectionHarmless(line: string)
    requires line != "" ==> line[0] == '['
    ensures Harmless(line)
  {
    forall r: nat, c | r <= |line| ensures ApplyLine(c, Trim(DropCr(line[..r]))).allowedIps == c.allowedIps {
      OtherLineSets(line[..r], c);
    }
  }

  lemma {:induction false} HarmlessLines(lines: seq<string>, c: WgClient)
    requires forall i :: 0 <= i < |lines| ==> Harmless(lines[i])
    ensures ApplyLines(c, lines).allowedIps == c.allowedIps
    decreases |lines|
  {
    if lines != [] {
      assert lines[0][..|lines[0]|] == lines[0];
      HarmlessLines(lines[1..], ApplyLine(c, Trim(DropCr(lines[0]))));
    }
  }

  // ----- the client file

  /** The lines in front of the last field. */
  function HeadLines(c: WgClient): seq<string> {
    InterfaceLines(c) + ["", "[Peer]"] + [FieldLine(c, PublicKey), FieldLine(c, Endpoint)]
  }

  const KEEPALIVE := KeyLine("PersistentKeepalive", "25")

  lemma ThreeParts(c: WgClient)
    ensures IniLines(c) == HeadLines(c) + [FieldLine(c, AllowedIps)] + [KEEPALIVE]
  {
    PeerParts(InterfaceLines(c), ["", "[Peer]"], FieldLine(c, PublicKey), FieldLine(c, Endpoint),
        FieldLine(c, AllowedIps));
  }

  lemma PeerParts(a: seq<string>, b: seq<string>, x: string, y: string, z: string)
    ensures a + (b + [x, y, z]) == a + b + [x, y] + [z]
  {
  }

  lemma HeadHarmless(c: WgClient)
    ensures forall i :: 0 <= i < |HeadLines(c)| ==> Harmless(HeadLines(c)[i])
  {
    SectionHarmless("[Interface]");
    SectionHarmless("");
    SectionHarmless("[Peer]");
    FieldHarmless(PrivateKey, c.privateKey);
    FieldHarmless(Address, c.address);
    FieldHarmless(PublicKey, c.publicKey);
    FieldHarmless(Endpoint, c.endpoint);
    assert forall i :: 0 <= i < |InterfaceLines(c)| ==> Harmless(InterfaceLines(c)[i]);
  }

  /** The keep-alive line, whole or in part, sets nothing. */
  lemma KeepaliveBeginning(r: nat, c: WgClient)
    requires r <= |KEEPALIVE|
    ensures ApplyLine(c, Trim(DropCr(KEEPALIVE[..r]))) == c
  {
    KeepaliveSetter();
    KeepalivePlain();
    UnknownBeginning("PersistentKeepalive", "25", r, c);
  }

  lemma UnknownBeginning(key: string, v: string, r: nat, c: WgClient)
    requires IniKey(key) && SetterFor(Lower(key)) == None && r <= |KeyLine(key, v)|
    ensures ApplyLine(c, Trim(DropCr(KeyLine(key, v)[..r]))) == c
  {
    var line, n := KeyLine(key, v), |key| + 2;
    assert line == key + " =" + (" " + v);
    if r < n {
      assert line[..r] == (key + " ")[..r];
      NoKeySets(line[..r], c);
    } else {
      assert line[..r] == key + " =" + (" " + v)[..r - n];
      KeySets(key, (" " + v)[..r - n], c);
    }
  }

  /** The lines in front of the last field set all the others. */
  lemma HeadSets(c: WgClient)
    requires AllPlain(c)
    ensures ApplyLines(EMPTY, HeadLines(c)) == c.(allowedIps := "")
    ensures ApplyLines(EMPTY, HeadLines(c) + [FieldLine(c, AllowedIps)]) == c
  {
    var head, last := HeadLines(c), FieldLine(c, AllowedIps);
    HeadHarmless(c);
    HarmlessLines(head, EMPTY);
    ThreeParts(c);
    ReadIniLines(c);
    ApplyConcat(head + [last], [KEEPALIVE], EMPTY);
    ApplyOne(KEEPALIVE, ApplyLines(EMPTY, head + [last]));
    KeepaliveSets(ApplyLines(EMPTY, head + [last]));
    ApplyConcat(head, [last], EMPTY);
    ApplyOne(last, ApplyLines(EMPTY, head));
    FieldSets(AllowedIps, c.allowedIps, ApplyLines(EMPTY, head));
  }

  /** All the lines are short, on one line each, and so are their beginnings. */
  lemma LinesFit(c: WgClient)
    requires AllPlain(c) && Short(c)
    ensures forall i :: 0 <= i < |IniLines(c)| ==> NewlineFree(IniLines(c)[i])
    ensures NoneLong(IniLines(c))
  {
    IniLinesNewlineFree(c);
    ShortIniLines(c);
  }

  /** A cut within a line, behind whole lines. */
  lemma CutRead(lines: seq<string>, line: string, r: nat)
    requires (forall i :: 0 <= i < |lines| ==> NewlineFree(lines[i])) && NoneLong(lines)
    requires NewlineFree(line) && !TooLong(line) && r <= |line|
    ensures ParseWg(Terminated(lines, '\n') + line[..r]) ==
            var c := ApplyLine(ApplyLines(EMPTY, lines), Trim(DropCr(line[..r])));
            match FirstMissing(c) case Some(f) => Err(Missing(f)) case None => Ok(c)
  {
    BeginningShorter(line, r);
    ReadPartial(lines, line[..r]);
  }

  /** Where the value of the last field starts. */
  function ValueStart(c: WgClient): nat {
    |Terminated(HeadLines(c), '\n')| + |KeyOf(AllowedIps)| + 3
  }

  /** Without the last field the file is refused. */
  lemma CutHarmless(head: seq<string>, j: nat, r: nat)
    requires (forall i :: 0 <= i < |head| ==> NewlineFree(head[i]) && Harmless(head[i])) && NoneLong(head)
    requires j < |head| && r <= |head[j]|
    ensures var read := ParseWg(Terminated(head[..j], '\n') + head[j][..r]);
            read.Err? && read.error.Missing?
  {
    HarmlessLines(head[..j], EMPTY);
    CutRead(head[..j], head[j], r);
    assert Harmless(head[j]);
  }

  lemma HeadFits(c: WgClient)
    requires AllPlain(c) && Short(c)
    ensures (forall i :: 0 <= i < |HeadLines(c)| ==> NewlineFree(HeadLines(c)[i])) && NoneLong(HeadLines(c))
    ensures NewlineFree(FieldLine(c, AllowedIps)) && !TooLong(FieldLine(c, AllowedIps))
    ensures NewlineFree(KEEPALIVE) && !TooLong(KEEPALIVE)
  {
    LinesFit(c);
    ThreeParts(c);
    PartsFit(IniLines(c), HeadLines(c), FieldLine(c, AllowedIps), KEEPALIVE);
  }

  lemma PartsFit(all: seq<string>, head: seq<string>, x: string, y: string)
    requires all == head + [x] + [y]
    requires (forall i :: 0 <= i < |all| ==> NewlineFree(all[i])) && NoneLong(all)
    ensures (forall i :: 0 <= i < |head| ==> NewlineFree(head[i])) && NoneLong(head)
    ensures NewlineFree(x) && !TooLong(x) && NewlineFree(y) && !TooLong(y)
  {
    assert forall i :: 0 <= i < |head| ==> all[i] == head[i];
    assert all[|head|] == x && all[|head| + 1] == y;
  }

  lemma MissingLast(c: WgClient, v: string)
    requires AllPlain(c)
    ensures FirstMissing(c.(allowedIps := v)) == if v == "" then Some(AllowedIps) else None
  {
  }

  /** A value as it is read from the first r characters of a line whose equals sign is the n-th. */
  function ValueRead(v: string, n: nat, r: nat): string
    requires r <= n + 1 + |v|
  {
    if r < n then "" else Trim((" " + v)[..r - n])
  }

  lemma FieldLineLength(c: WgClient, f: IniField)
    ensures |FieldLine(c, f)| == |KeyOf(f)| + 3 + |GetField(c, f)|
  {
  }

  /** What the beginning of the last field's line makes of the fields in front of it. */
  lemma LastBeginning(c: WgClient, f: IniField, r: nat)
    requires f == AllowedIps && r <= |FieldLine(c, f)|
    ensures r <= |KeyOf(f)| + 3 + |GetField(c, f)|
    ensures ApplyLine(PutField(c, f, ""), Trim(DropCr(FieldLine(c, f)[..r])))
            == PutField(c, f, ValueRead(GetField(c, f), |KeyOf(f)| + 2, r))
  {
    FieldLineLength(c, f);
    FieldBeginning(f, GetField(c, f), r, PutField(c, f, ""));
  }

  lemma LastFrom(head: seq<string>, line: string, r: nat, c: WgClient, v: string)
    requires (forall i :: 0 <= i < |head| ==> NewlineFree(head[i])) && NoneLong(head)
    requires NewlineFree(line) && !TooLong(line) && r <= |line| && AllPlain(c)
    requires ApplyLine(ApplyLines(EMPTY, head), Trim(DropCr(line[..r]))) == c.(allowedIps := v)
    ensures ParseWg(Terminated(head, '\n') + line[..r]) ==
            if v == "" then Err(Missing(AllowedIps)) else Ok(c.(allowedIps := v))
  {
    CutRead(head, line, r);
    MissingLast(c, v);
  }

  /** Cut in the line of the last field, or right behind it. */
  lemma CutWithin(c: WgClient, head: seq<string>, line: string, r: nat, n: nat)
    requires AllPlain(c) && Short(c) && r <= |line|
    requires head == HeadLines(c) && line == FieldLine(c, AllowedIps) && n == |KeyOf(AllowedIps)| + 2
    ensures r <= n + 1 + |c.allowedIps|
    ensures var v := ValueRead(c.allowedIps, n, r);
            ParseWg(Terminated(head, '\n') + line[..r]) ==
            if v == "" then Err(Missing(AllowedIps)) else Ok(c.(allowedIps := v))
  {
    HeadFits(c);
    HeadSets(c);
    LastBeginning(c, AllowedIps, r);
    LastFrom(head, line, r, c, ValueRead(c.allowedIps, n, r));
  }

  lemma CutValue(v: string, k: int)
    requires Plain(v)
    ensures 0 <= k <= 1 ==> Trim((" " + v)[..k]) == ""
    ensures 1 < k <= |v| + 1 ==> Trim((" " + v)[..k]) == Trim(v[..k - 1]) && Trim(v[..k - 1]) != ""
  {
    if 0 <= k <= 1 {
      TrimUnique((" " + v)[..k], "", "");
      assert (" " + v)[..k] + "" + "" == (" " + v)[..k];
    } else if 1 < k <= |v| + 1 {
      assert (" " + v)[..k] == " " + v[..k - 1];
      var head, tail := TrimSplit(v[..k - 1]);
      TrimUnique(" " + head, Trim(v[..k - 1]), tail);
      assert " " + v[..k - 1] == " " + head + Trim(v[..k - 1]) + tail;
      TrimStart(v[..k - 1]);
      assert !IsSpace(v[..k - 1][0]);
    }
  }

  /** Cut in the keep-alive line: everything is read. */
  lemma CutBehind(c: WgClient, r: nat)
    requires AllPlain(c) && Short(c) && r <= |KEEPALIVE|
    ensures ParseWg(Terminated(HeadLines(c) + [FieldLine(c, AllowedIps)], '\n') + KEEPALIVE[..r]) == Ok(c)
  {
    HeadFits(c);
    NoneLongOne(FieldLine(c, AllowedIps));
    NoneLongConcat(HeadLines(c), [FieldLine(c, AllowedIps)]);
    CutRead(HeadLines(c) + [FieldLine(c, AllowedIps)], KEEPALIVE, r);
    HeadSets(c);
    KeepaliveBeginning(r, c);
  }

  /** What is left of a value in these terms. */
  lemma ValueLeft(v: string, n: nat, r: nat)
    requires Plain(v) && r <= n + 1 + |v|
    ensures r <= n + 1 ==> ValueRead(v, n, r) == ""
    ensures n + 1 < r ==> ValueRead(v, n, r) == Trim(v[..r - n - 1]) && ValueRead(v, n, r) != ""
    ensures n + 1 < r < n + 1 + |v| ==> ValueRead(v, n, r) != v
    ensures r == n + 1 + |v| ==> ValueRead(v, n, r) == v
  {
    CutValue(v, r - n);
    if n + 1 < r < n + 1 + |v| {
      var head, tail := TrimSplit(v[..r - n - 1]);
      assert |Trim(v[..r - n - 1])| <= r - n - 1;
    } else if r == n + 1 + |v| {
      assert v[..|v|] == v;
      TrimOfTrimmed(v);
    }
  }

  /** Where a cut falls in a text of four parts. */
  lemma CutParts(a: string, b: string, k: string, m: nat)
    requires m <= |a + b + "\n" + k + "\n"|
    ensures var t := a + b + "\n" + k + "\n";
            && (m < |a| ==> t[..m] == a[..m])
            && (|a| <= m <= |a| + |b| ==> t[..m] == a + b[..m - |a|])
            && (|a| + |b| < m < |t| ==> t[..m] == a + b + "\n" + k[..m - |a| - |b| - 1])
  {
  }

  lemma CutText(c: WgClient)
    ensures var head, last := HeadLines(c), FieldLine(c, AllowedIps);
            && IniText(c) == Terminated(head, '\n') + last + "\n" + KEEPALIVE + "\n"
            && Terminated(head + [last], '\n') == Terminated(head, '\n') + last + "\n"
            && |last| == |KeyOf(AllowedIps)| + 3 + |c.allowedIps|
  {
    ThreeParts(c);
    TerminatedSnoc(HeadLines(c), FieldLine(c, AllowedIps), '\n');
    TerminatedSnoc(HeadLines(c) + [FieldLine(c, AllowedIps)], KEEPALIVE, '\n');
  }

  /** How a file cut off after m characters is read, when the value of its last field starts
      behind `start` of them. In front of that value it is refused; within it, it is a different
      configuration, with what is left of the value; behind it, it is what was to be written. */
  ghost predicate ReadsCut(c: WgClient, start: nat, m: nat, read: Result<WgClient, WgError>) {
    var v := c.allowedIps;
    && (m <= start ==> read.Err? && read.error.Missing?)
    && (start < m < start + |v| ==> read == Ok(c.(allowedIps := Trim(v[..m - start]))) && read != Ok(c))
    && (m >= start + |v| ==> read == Ok(c))
  }

  lemma CutOffHead(c: WgClient, m: nat, start: nat)
    requires AllPlain(c) && Short(c) && m < |Terminated(HeadLines(c), '\n')| <= start && m <= |IniText(c)|
    ensures ReadsCut(c, start, m, ParseWg(IniText(c)[..m]))
  {
    CutText(c);
    CutParts(Terminated(HeadLines(c), '\n'), FieldLine(c, AllowedIps), KEEPALIVE, m);
    var j, r := CutLines(HeadLines(c), m);
    HeadFits(c);
    HeadHarmless(c);
    CutHarmless(HeadLines(c), j, r);
  }

  lemma LastReads(c: WgClient, start: nat, m: nat, n: nat, r: nat, read: Result<WgClient, WgError>)
    requires AllPlain(c) && m + n + 1 == start + r && r <= n + 1 + |c.allowedIps|
    requires var v := ValueRead(c.allowedIps, n, r);
             read == if v == "" then Err(Missing(AllowedIps)) else Ok(c.(allowedIps := v))
    ensures ReadsCut(c, start, m, read)
  {
    ValueLeft(c.allowedIps, n, r);
  }

  lemma CutOffLast(c: WgClient, head: seq<string>, line: string, r: nat, n: nat, start: nat, m: nat, text: string)
    requires AllPlain(c) && Short(c) && r <= |line| && text == Terminated(head, '\n') + line[..r]
    requires head == HeadLines(c) && line == FieldLine(c, AllowedIps) && n == |KeyOf(AllowedIps)| + 2
    requires m + n + 1 == start + r
    ensures ReadsCut(c, start, m, ParseWg(text))
  {
    CutWithin(c, head, line, r, n);
    LastReads(c, start, m, n, r, ParseWg(text));
  }

  lemma CutOffBehind(c: WgClient, m: nat, start: nat)
    requires AllPlain(c) && Short(c) && m <= |IniText(c)|
    requires |Terminated(HeadLines(c), '\n')| + |FieldLine(c, AllowedIps)| == start + |c.allowedIps| < m
    ensures ReadsCut(c, start, m, ParseWg(IniText(c)[..m]))
  {
    var a, last := Terminated(HeadLines(c), '\n'), FieldLine(c, AllowedIps);
    if m < |IniText(c)| {
      CutText(c);
      CutParts(a, last, KEEPALIVE, m);
      CutBehind(c, m - |a| - |last| - 1);
    } else {
      assert IniText(c)[..m] == IniText(c);
      ReadRendered(c);
    }
  }

  lemma TextAtLast(c: WgClient, head: seq<string>, line: string, m: nat, r: nat)
    requires head == HeadLines(c) && line == FieldLine(c, AllowedIps) && r <= |line|
    requires m == |Terminated(head, '\n')| + r
    ensures m <= |IniText(c)| && IniText(c)[..m] == Terminated(head, '\n') + line[..r]
  {
    CutText(c);
    CutParts(Terminated(head, '\n'), line, KEEPALIVE, m);
  }

  /** The three places for a cut. */
  lemma CutOffAt(c: WgClient, m: nat, head: seq<string>, line: string, a: nat, start: nat)
    requires AllPlain(c) && Short(c) && m <= |IniText(c)|
    requires head == HeadLines(c) && line == FieldLine(c, AllowedIps) && a == |Terminated(head, '\n')|
    requires start == a + |KeyOf(AllowedIps)| + 3 && |line| == |KeyOf(AllowedIps)| + 3 + |c.allowedIps|
    ensures ReadsCut(c, start, m, ParseWg(IniText(c)[..m]))
  {
    if m < a {
      CutOffHead(c, m, start);
    } else if m <= a + |line| {
      TextAtLast(c, head, line, m, m - a);
      CutOffLast(c, head, line, m - a, |KeyOf(AllowedIps)| + 2, start, m, IniText(c)[..m]);
    } else {
      CutOffBehind(c, m, start);
    }
  }

  /** A client file cut off at any place. */
  lemma CutOff(c: WgClient, m: nat)
    requires AllPlain(c) && Short(c) && m <= |IniText(c)|
    ensures ReadsCut(c, ValueStart(c), m, ParseWg(IniText(c)[..m]))
  {
    FieldLineLength(c, AllowedIps);
    CutOffAt(c, m, HeadLines(c), FieldLine(c, AllowedIps), |Terminated(HeadLines(c), '\n')|, ValueStart(c));
  }
}

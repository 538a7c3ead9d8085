/** The language that internal/config/toml.go accepts, told by the characters of the text: which
    values, headers and entries there are, and what a whole file of them means. */
module TomlLanguage {
  import opened Text
  import opened Decimal
  import opened ConfigModel
  import opened Toml
  import opened TomlOverlay

  // ----- values

  /** White space, and then nothing or a comment. */
  ghost predicate CommentTail(s: string) {
    exists k: nat :: k <= |s| && Blank(s[..k]) && (k == |s| || s[k] == '#')
  }

  /** A trimmed text that stands for a value: the value's own text, and what may follow it. */
  ghost predicate Reads(r: string, v: Scalar) {
    match v
    case Int(n) => exists d, tail :: r == d + tail && DecimalText(d, n) && CommentTail(tail)
    case Bool(b) => exists tail :: r == (if b then "true" else "false") + tail && CommentTail(tail)
    case Str(t) => exists tail :: r == Quote(t) + tail && CommentTail(tail)
  }

  lemma TailTrims(s: string)
    ensures CommentTail(s) <==> Trim(s) == "" || Trim(s)[0] == '#'
  {
    var k := TrimLeftCut(s);
    TrimStart(s);
    if Trim(s) == "" {
      assert s[..|s|] == s;
      assert Blank(s[..|s|]);
    } else {
      assert k < |s| && s[k] == Trim(s)[0];
      if j: nat :| j <= |s| && Blank(s[..j]) && (j == |s| || s[j] == '#') {
        assert forall i :: 0 <= i < j ==> s[..j][i] == s[i];
        assert j == k;
      }
    }
  }

  lemma InFrontOfComment(front: string, rest: string)
    requires Lacks(front, '#') && (rest == "" || rest[0] == '#')
    ensures var r := front + rest; r[..IndexOf(r, '#')] == front
  {
    var r := front + rest;
    if rest == "" {
      assert r == front;
      IndexOfLacks(r, '#');
    } else {
      assert r == front + ['#'] + rest[1..];
      IndexOfAt(front, '#', rest[1..]);
    }
  }

  lemma TailParts(tail: string) returns (blank: string, rest: string)
    requires CommentTail(tail)
    ensures tail == blank + rest && Blank(blank) && (rest == "" || rest[0] == '#')
  {
    var k: nat :| k <= |tail| && Blank(tail[..k]) && (k == |tail| || tail[k] == '#');
    blank, rest := tail[..k], tail[k..];
  }

  lemma BlankLacks(blank: string, c: char)
    requires Blank(blank) && !IsSpace(c)
    ensures Lacks(blank, c)
  {
  }

  lemma TrimmedFront(d: string, blank: string)
    requires Trimmed(d) && Blank(blank)
    ensures Trim(d + blank) == d
  {
    TrimUnique("", d, blank);
    assert "" + d + blank == d + blank;
  }

  lemma BareTokenOf(front: string, rest: string)
    requires Lacks(front, '#') && (rest == "" || rest[0] == '#')
    ensures BareToken(front + rest) == Trim(front)
  {
    InFrontOfComment(front, rest);
  }

  /** The bare token is what stands in front of the tail. */
  lemma BareTokenIs(d: string, tail: string)
    requires Trimmed(d) && Lacks(d, '#') && CommentTail(tail)
    ensures BareToken(d + tail) == d
  {
    var blank, rest := TailParts(tail);
    BlankLacks(blank, '#');
    BareTokenOf(d + blank, rest);
    TrimmedFront(d, blank);
    ConcatAssoc(d, blank, rest);
  }

  lemma BareTokenTail(r: string) returns (tail: string)
    requires Trimmed(r)
    ensures r == BareToken(r) + tail && CommentTail(tail) && Trimmed(BareToken(r))
  {
    var i := IndexOf(r, '#');
    var front, rest := r[..i], r[i..];
    var blank := TrimTailOnly(front);
    tail := blank + rest;
    TailOf(blank, rest);
    ConcatAssoc(Trim(front), blank, rest);
    assert r == front + rest;
  }

  lemma TailOf(blank: string, rest: string)
    requires Blank(blank) && (rest == "" || rest[0] == '#')
    ensures CommentTail(blank + rest)
  {
    var tail := blank + rest;
    assert tail[..|blank|] == blank;
    assert rest != "" ==> tail[|blank|] == '#';
  }

  lemma DecimalTrimmed(d: string, n: int)
    requires DecimalText(d, n)
    ensures d != "" && Trimmed(d) && Lacks(d, '#') && d[0] != '"' && d[0] != 't' && d[0] != 'f'
  {
    var sign, digits :| SignedDigits(d, sign, digits, n);
    forall i | 0 <= i < |d| ensures IsDigit(d[i]) || d[i] == '+' || d[i] == '-' {
      if i >= |sign| {
        assert d[i] == digits[i - |sign|];
      } else {
        assert d[i] == sign[i];
      }
    }
  }

  lemma IntRead(r: string, n: Int64)
    requires Trimmed(r) && ParseValue(r) == Ok(Int(n))
    ensures Reads(r, Int(n))
  {
    var d := BareToken(r);
    var tail := BareTokenTail(r);
    AtoiLanguage(d, n);
    assert r == d + tail && DecimalText(d, n) && CommentTail(tail);
  }

  lemma IntSaid(d: string, tail: string, n: Int64)
    requires DecimalText(d, n) && CommentTail(tail)
    ensures ParseValue(d + tail) == Ok(Int(n))
  {
    DecimalTrimmed(d, n);
    BareTokenIs(d, tail);
    AtoiLanguage(d, n);
    assert (d + tail)[0] == d[0];
  }

  lemma IntLanguage(r: string, n: Int64)
    requires Trimmed(r)
    ensures ParseValue(r) == Ok(Int(n)) <==> Reads(r, Int(n))
  {
    if ParseValue(r) == Ok(Int(n)) {
      IntRead(r, n);
    }
    if d, tail :| r == d + tail && DecimalText(d, n) && CommentTail(tail) {
      IntSaid(d, tail, n);
    }
  }

  lemma BoolLanguage(r: string, b: bool)
    requires Trimmed(r)
    ensures ParseValue(r) == Ok(Bool(b)) <==> Reads(r, Bool(b))
  {
    var word := if b then "true" else "false";
    assert word[0] == if b then 't' else 'f';
    assert Trimmed(word) && Lacks(word, '#');
    if ParseValue(r) == Ok(Bool(b)) {
      var tail := BareTokenTail(r);
      assert r == word + tail;
    }
    if tail :| r == word + tail && CommentTail(tail) {
      BareTokenIs(word, tail);
      assert r[0] == word[0];
    }
  }

  lemma StrLanguage(r: string, t: string)
    ensures ParseValue(r) == Ok(Str(t)) <==> Reads(r, Str(t))
  {
    if ParseValue(r) == Ok(Str(t)) {
      var q := DecodeBody(r[1..]).value;
      DecodedIsQuoted(r, q);
      TailTrims(q.rest);
    }
    if tail :| r == Quote(t) + tail && CommentTail(tail) {
      DecodeQuote(t, tail);
      TailTrims(tail);
    }
  }

  /** The values: which trimmed texts are read as which value. All others are errors. */
  lemma ValueLanguage(r: string, v: Scalar)
    requires Trimmed(r)
    ensures ParseValue(r) == Ok(v) <==> Reads(r, v)
  {
    match v
    case Int(n) => IntLanguage(r, n);
    case Bool(b) => BoolLanguage(r, b);
    case Str(t) => StrLanguage(r, t);
  }

  /** Quoting goes character by character, with a backslash in front of quotes and backslashes. */
  lemma {:induction false} EscapeSnoc(s: string, c: char)
    ensures Escape("") == ""
    ensures Escape(s + [c]) ==
            Escape(s) + if c == '"' then ['\\', '"'] else if c == '\\' then ['\\', '\\'] else [c]
  {
    var t := s + [c];
    if s == "" {
      assert t[1..] == "";
    } else {
      assert t[1..] == s[1..] + [c];
      EscapeSnoc(s[1..], c);
    }
  }

  // ----- lines

  ghost predicate HeaderParts(t: string, a: string, name: string, b: string) {
    && t == "[" + a + name + b + "]" && Blank(a) && Blank(b)
    && name != "" && Trimmed(name) && Lacks(name, '[') && Lacks(name, ']')
  }

  /** A section header. */
  ghost predicate SaysHeader(t: string, name: string) {
    exists a, b :: HeaderParts(t, a, name, b)
  }

  lemma HeaderTaken(t: string, name: string)
    requires ReadLine(t) == Ok(Header(name))
    ensures SaysHeader(t, name)
  {
    var inner := t[1..|t| - 1];
    var a, b := TrimSplit(inner);
    assert t == "[" + inner + "]";
    assert HeaderParts(t, a, name, b);
  }

  lemma HeaderSaid(t: string, a: string, name: string, b: string)
    requires HeaderParts(t, a, name, b)
    ensures ReadLine(t) == Ok(Header(name))
  {
    assert t[1..|t| - 1] == a + name + b;
    TrimUnique(a, name, b);
  }

  lemma HeaderLanguage(t: string, name: string)
    ensures ReadLine(t) == Ok(Header(name)) <==> SaysHeader(t, name)
  {
    if ReadLine(t) == Ok(Header(name)) {
      HeaderTaken(t, name);
    }
    if a, b :| HeaderParts(t, a, name, b) {
      HeaderSaid(t, a, name, b);
    }
  }

  predicate KeyChar(c: char) {
    c != ' ' && c != '\t' && c != '"' && c != '[' && c != ']' && c != '#' && c != '='
  }

  ghost predicate EntryParts(t: string, key: string, a: string, b: string, r: string) {
    && t == key + a + "=" + b + r && Blank(a) && Blank(b) && Trimmed(r)
    && key != "" && Trimmed(key) && forall i :: 0 <= i < |key| ==> KeyChar(key[i])
  }

  /** A key, an equals sign with white space around it, and a value. */
  ghost predicate SaysEntry(t: string, key: string, v: Scalar) {
    exists a, b, r :: EntryParts(t, key, a, b, r) && Reads(r, v)
  }

  lemma EntryRead(t: string, key: string, v: Scalar)
    requires Trimmed(t) && ReadLine(t) == Ok(Entry(key, v))
    ensures SaysEntry(t, key, v)
  {
    var eq := IndexOf(t, '=');
    var a, b := KeyAndValue(t, eq, key);
    ValueLanguage(Trim(t[eq + 1..]), v);
  }

  lemma KeyAndValue(t: string, eq: nat, key: string) returns (a: string, b: string)
    requires Trimmed(t) && eq == IndexOf(t, '=') < |t| && key == Trim(t[..eq]) && ValidKey(key)
    ensures EntryParts(t, key, a, b, Trim(t[eq + 1..]))
  {
    var left, right := t[..eq], t[eq + 1..];
    a := TrimTailOnly(left);
    b := TrimHeadOnly(right);
    assert Lacks(left, '=');
    TrimLacks(left, '=');
    Reassembled(t, eq, key, a, b, Trim(right));
  }

  lemma Reassembled(t: string, eq: nat, key: string, a: string, b: string, r: string)
    requires eq < |t| && t[eq] == '=' && t[..eq] == key + a && t[eq + 1..] == b + r
    ensures t == key + a + "=" + b + r
  {
    assert t == t[..eq] + "=" + t[eq + 1..];
  }

  lemma KeyValueParts(t: string, key: string, a: string, b: string, r: string)
    requires EntryParts(t, key, a, b, r)
    ensures ParseKeyValue(t) == MakeEntry(key + a, b + r)
  {
    BlankLacks(a, '=');
    ConcatAssoc(key + a + "=", b, r);
    EntryOfParts(key + a, b + r);
  }

  lemma KeyTextValid(key: string)
    requires key != "" && forall i :: 0 <= i < |key| ==> KeyChar(key[i])
    ensures ValidKey(key)
  {
  }

  lemma PartsTrimmed(key: string, a: string, b: string, r: string)
    requires Blank(a) && Blank(b) && Trimmed(r) && Trimmed(key)
    ensures Trim(key + a) == key && Trim(b + r) == r
  {
    TrimUnique("", key, a);
    TrimUnique(b, r, "");
    assert "" + key + a == key + a && b + r + "" == b + r;
  }

  lemma EntryMade(left: string, right: string, key: string, r: string, v: Scalar)
    requires Trim(left) == key && Trim(right) == r && ValidKey(key) && ParseValue(r) == Ok(v)
    ensures MakeEntry(left, right) == Ok(Entry(key, v))
  {
  }

  lemma EntrySaid(t: string, key: string, a: string, b: string, r: string, v: Scalar)
    requires EntryParts(t, key, a, b, r) && Reads(r, v)
    ensures ReadLine(t) == Ok(Entry(key, v))
  {
    KeyTextValid(key);
    KeyValueParts(t, key, a, b, r);
    PartsTrimmed(key, a, b, r);
    ValueLanguage(r, v);
    EntryMade(key + a, b + r, key, r, v);
    assert t[0] == key[0] && KeyChar(key[0]);
  }

  lemma EntryLanguage(t: string, key: string, v: Scalar)
    requires Trimmed(t)
    ensures ReadLine(t) == Ok(Entry(key, v)) <==> SaysEntry(t, key, v)
  {
    if ReadLine(t) == Ok(Entry(key, v)) {
      EntryRead(t, key, v);
    }
    if a, b, r :| EntryParts(t, key, a, b, r) && Reads(r, v) {
      EntrySaid(t, key, a, b, r, v);
    }
  }

  // ----- the schema

  /** Section, key and kind of value of every field. */
  predicate Takes(f: Field, section: string, key: string, v: Scalar) {
    match f
    case Host => section == "" && key == "host" && v.Str?
    case SshUser => section == "ssh" && key == "user" && v.Str?
    case SshPort => section == "ssh" && key == "port" && v.Int?
    case SshKey => section == "ssh" && key == "key" && v.Str?
    case SshSudo => section == "ssh" && key == "sudo" && v.Bool?
    case SshProxyJump => section == "ssh" && key == "proxy_jump" && v.Str?
    case WgPort => section == "wireguard" && key == "port" && v.Int?
    case WgServerIp => section == "wireguard" && key == "server_ip" && v.Str?
    case WgClientIp => section == "wireguard" && key == "client_ip" && v.Str?
    case DropbearPort => section == "dropbear" && key == "port" && v.Int?
    case OutputDir => section == "output" && key == "dir" && v.Str?
    case NetInterface => section == "network" && key == "interface" && v.Str?
    case NetIp => section == "network" && key == "ip" && v.Str?
    case LuksDevice => section == "luks" && key == "device" && v.Str?
  }

  lemma TargetTakes(section: string, key: string, v: Scalar, f: Field)
    ensures Target(section, key, v) == Ok(f) <==> Takes(f, section, key, v)
  {
    SchemaPlaces(section, key, f);
  }

  // ----- files

  ghost predicate HeaderAt(lines: seq<string>, j: nat, name: string) {
    j < |lines| && SaysHeader(Trim(lines[j]), name)
  }

  ghost predicate IsHeader(lines: seq<string>, j: nat) {
    exists name :: HeaderAt(lines, j, name)
  }

  ghost predicate NoHeader(lines: seq<string>, from: nat, to: nat) {
    forall k: nat :: from <= k < to ==> !IsHeader(lines, k)
  }

  /** Line j is the last header above line i. */
  ghost predicate LastHeader(lines: seq<string>, i: nat, j: nat, section: string) {
    j < i && HeaderAt(lines, j, section) && NoHeader(lines, j + 1, i)
  }

  /** The section of line i: that of the last header above it, or none. */
  ghost predicate InSection(lines: seq<string>, i: nat, section: string) {
    (exists j: nat :: LastHeader(lines, i, j, section)) || (section == "" && NoHeader(lines, 0, i))
  }

  lemma HeaderRead(lines: seq<string>, j: nat, name: string)
    requires j < |lines|
    ensures HeaderAt(lines, j, name) <==> ReadLine(Trim(lines[j])) == Ok(Header(name))
  {
    HeaderLanguage(Trim(lines[j]), name);
  }

  lemma IsHeaderRead(lines: seq<string>, j: nat)
    requires j < |lines|
    ensures var item := ReadLine(Trim(lines[j]));
            IsHeader(lines, j) <==> item.Ok? && item.value.Header?
  {
    var item := ReadLine(Trim(lines[j]));
    if item.Ok? && item.value.Header? {
      HeaderRead(lines, j, item.value.name);
    }
    if name :| HeaderAt(lines, j, name) {
      HeaderRead(lines, j, name);
    }
  }

  lemma SectionAtHeader(lines: seq<string>, i: nat, section: string)
    requires 0 < i <= |lines| && IsHeader(lines, i - 1)
    ensures InSection(lines, i, section) <==> HeaderAt(lines, i - 1, section)
  {
    if HeaderAt(lines, i - 1, section) {
      assert LastHeader(lines, i, i - 1, section);
    }
  }

  lemma SectionBehind(lines: seq<string>, i: nat)
    requires 0 < i <= |lines|
    ensures !IsHeader(lines, i - 1) ==> SectionAt(lines, i) == SectionAt(lines, i - 1)
    ensures IsHeader(lines, i - 1) ==> HeaderAt(lines, i - 1, SectionAt(lines, i))
  {
    IsHeaderRead(lines, i - 1);
    HeaderRead(lines, i - 1, SectionAt(lines, i));
  }

  lemma OneHeader(lines: seq<string>, j: nat, a: string, b: string)
    requires HeaderAt(lines, j, a) && HeaderAt(lines, j, b)
    ensures a == b
  {
    HeaderRead(lines, j, a);
    HeaderRead(lines, j, b);
  }

  lemma SectionAtStart(lines: seq<string>, section: string)
    ensures SectionAt(lines, 0) == section <==> InSection(lines, 0, section)
  {
    assert NoHeader(lines, 0, 0);
  }

  lemma SectionWithHeader(lines: seq<string>, i: nat, section: string)
    requires 0 < i <= |lines| && IsHeader(lines, i - 1)
    ensures SectionAt(lines, i) == section <==> InSection(lines, i, section)
  {
    SectionBehind(lines, i);
    SectionAtHeader(lines, i, section);
    if HeaderAt(lines, i - 1, section) {
      OneHeader(lines, i - 1, section, SectionAt(lines, i));
    }
  }

  lemma SectionWithout(lines: seq<string>, i: nat, section: string)
    requires 0 < i <= |lines| && !IsHeader(lines, i - 1)
    requires SectionAt(lines, i - 1) == section <==> InSection(lines, i - 1, section)
    ensures SectionAt(lines, i) == section <==> InSection(lines, i, section)
  {
    SectionBehind(lines, i);
    SectionPasses(lines, i, i - 1, section);
  }

  lemma {:induction false} SectionLanguage(lines: seq<string>, i: nat, section: string)
    requires i <= |lines|
    ensures SectionAt(lines, i) == section <==> InSection(lines, i, section)
  {
    if i == 0 {
      SectionAtStart(lines, section);
    } else if IsHeader(lines, i - 1) {
      SectionWithHeader(lines, i, section);
    } else {
      SectionLanguage(lines, i - 1, section);
      SectionWithout(lines, i, section);
    }
  }

  /** A line that is no header leaves the section. */
  lemma SectionPasses(lines: seq<string>, i: nat, before: nat, section: string)
    requires before + 1 == i <= |lines| && !IsHeader(lines, before)
    ensures InSection(lines, i, section) <==> InSection(lines, before, section)
  {
    if j: nat :| LastHeader(lines, i, j, section) {
      HeaderIsHeader(lines, j, section);
      assert LastHeader(lines, before, j, section);
    }
    if j: nat :| LastHeader(lines, before, j, section) {
      assert LastHeader(lines, i, j, section);
    }
  }

  lemma HeaderIsHeader(lines: seq<string>, j: nat, section: string)
    requires HeaderAt(lines, j, section)
    ensures IsHeader(lines, j)
  {
  }

  ghost predicate EntryAt(lines: seq<string>, i: nat, section: string, key: string, v: Scalar) {
    i < |lines| && InSection(lines, i, section) && SaysEntry(Trim(lines[i]), key, v)
  }

  /** Line i gives field f the value v. */
  ghost predicate Gives(lines: seq<string>, i: nat, f: Field, v: Scalar) {
    exists section, key :: EntryAt(lines, i, section, key, v) && Takes(f, section, key, v)
  }

  /** Line i is blank, a comment, a header, or gives a field a value. */
  ghost predicate Acceptable(lines: seq<string>, i: nat) {
    i < |lines|
    && (Trim(lines[i]) == "" || Trim(lines[i])[0] == '#' || IsHeader(lines, i)
        || (exists f, v :: Gives(lines, i, f, v)))
  }

  /** The value is what the last line that gives the field one says, or what it was. */
  ghost predicate LastGiven(lines: seq<string>, f: Field, start: Scalar, after: Scalar) {
    || (exists i: nat :: Gives(lines, i, f, after) && forall j: nat, v :: i < j ==> !Gives(lines, j, f, v))
    || ((forall i: nat, v :: !Gives(lines, i, f, v)) && after == start)
  }

  lemma TrimIsTrimmed(s: string)
    ensures Trimmed(Trim(s))
  {
    var head, tail := TrimSplit(s);
  }

  lemma EntryAtRead(lines: seq<string>, i: nat, section: string, key: string, v: Scalar)
    requires i < |lines|
    ensures EntryAt(lines, i, section, key, v) <==>
              SectionAt(lines, i) == section && ReadLine(Trim(lines[i])) == Ok(Entry(key, v))
  {
    TrimIsTrimmed(lines[i]);
    SectionLanguage(lines, i, section);
    EntryLanguage(Trim(lines[i]), key, v);
  }

  lemma AssignedIsGiven(lines: seq<string>, i: nat, f: Field)
    requires Assigns(lines, i, f)
    ensures Gives(lines, i, f, Assigned(lines, i, f))
  {
    var section, key := SectionAt(lines, i), ReadLine(Trim(lines[i])).value.key;
    var v := Assigned(lines, i, f);
    EntryAtRead(lines, i, section, key, v);
    TargetTakes(section, key, v, f);
    assert EntryAt(lines, i, section, key, v) && Takes(f, section, key, v);
  }

  lemma GivenIsAssigned(lines: seq<string>, i: nat, f: Field, v: Scalar, section: string, key: string)
    requires EntryAt(lines, i, section, key, v) && Takes(f, section, key, v)
    ensures Assigns(lines, i, f) && Assigned(lines, i, f) == v
  {
    EntryAtRead(lines, i, section, key, v);
    TargetTakes(section, key, v, f);
  }

  /** What a line gives, in terms of the reader. */
  lemma GivesWrites(lines: seq<string>, i: nat, f: Field, v: Scalar)
    ensures Gives(lines, i, f, v) <==> Assigns(lines, i, f) && Assigned(lines, i, f) == v
  {
    if Assigns(lines, i, f) {
      AssignedIsGiven(lines, i, f);
    }
    if section, key :| EntryAt(lines, i, section, key, v) && Takes(f, section, key, v) {
      GivenIsAssigned(lines, i, f, v, section, key);
    }
  }

  lemma AcceptableFits(lines: seq<string>, i: nat)
    requires i < |lines|
    ensures Acceptable(lines, i) <==> LineFits(SectionAt(lines, i), lines[i])
  {
    IsHeaderRead(lines, i);
    if LineFits(SectionAt(lines, i), lines[i]) && ReadLine(Trim(lines[i])).value.Entry? {
      var w := LineWrites(SectionAt(lines, i), lines[i]).value;
      GivesWrites(lines, i, w.field, w.val);
    }
    if f, v :| Gives(lines, i, f, v) {
      GivesWrites(lines, i, f, v);
    }
  }

  lemma {:induction false} AllFitAt(lines: seq<string>)
    ensures AllFit(lines) <==> forall i: nat :: i < |lines| ==> LineFits(SectionAt(lines, i), lines[i])
    decreases |lines|
  {
    if lines != [] {
      var n := |lines| - 1;
      var above := lines[..n];
      assert lines == above + [lines[n]];
      AllFitAt(above);
      forall i: nat | i <= n ensures SectionAt(lines, i) == SectionAt(above, i) {
        SectionAtPrefix(above, [lines[n]], i);
      }
    }
  }

  lemma AllAcceptable(lines: seq<string>)
    ensures AllFit(lines) <==> forall i: nat :: i < |lines| ==> Acceptable(lines, i)
  {
    AllFitAt(lines);
    forall i: nat | i < |lines| ensures Acceptable(lines, i) <==> LineFits(SectionAt(lines, i), lines[i]) {
      AcceptableFits(lines, i);
    }
  }

  lemma GivenByLines(lines: seq<string>, f: Field, start: Scalar, after: Scalar)
    requires LastAssignment(lines, f, start, after)
    ensures LastGiven(lines, f, start, after)
  {
    forall i: nat, v ensures Gives(lines, i, f, v) <==> Assigns(lines, i, f) && Assigned(lines, i, f) == v {
      GivesWrites(lines, i, f, v);
    }
    if i: nat :| Assigns(lines, i, f) && (forall j: nat :: i < j ==> !Assigns(lines, j, f))
                 && after == Assigned(lines, i, f) {
      assert Gives(lines, i, f, after);
    }
  }

  /** Run over lines that are all acceptable: every field is what the last line that gives it a
      value says. */
  lemma RunLanguage(lines: seq<string>, start: Settings)
    ensures var run := Run(lines, 0, State("", start));
            && (run.Accepted? <==> forall i: nat :: i < |lines| ==> Acceptable(lines, i))
            && (run.Accepted? ==> forall f :: LastGiven(lines, f, Get(start, f), Get(run.state.settings, f)))
  {
    AcceptedIffAllFit(lines, start);
    AllAcceptable(lines);
    var run := Run(lines, 0, State("", start));
    if run.Accepted? {
      forall f ensures LastGiven(lines, f, Get(start, f), Get(run.state.settings, f)) {
        FieldAfterRun(lines, start, f);
        AssignmentOfWrites(lines, f, Get(start, f), Get(run.state.settings, f));
        GivenByLines(lines, f, Get(start, f), Get(run.state.settings, f));
      }
    }
  }

  /** Where a rejected run stops: the lines in front are a run of their own. */
  lemma {:induction false} RejectedAfter(lines: seq<string>, n: nat, st: State)
    requires Run(lines, n, st).Rejected?
    ensures var r := Run(lines, n, st);
            n < r.line <= n + |lines| && Run(lines[..r.line - n - 1], n, st) == Accepted(r.state)
            && Step(r.state, Trim(lines[r.line - n - 1])).Err?
  {
    var step := Step(st, Trim(lines[0]));
    if step.Ok? {
      RejectedAfter(lines[1..], n + 1, step.value);
      var k := Run(lines, n, st).line - n - 1;
      assert lines[..k][1..] == lines[1..][..k - 1];
    } else {
      assert lines[..0] == [];
    }
  }

  lemma SectionOfPrefix(lines: seq<string>, k: nat, i: nat)
    requires i <= k <= |lines|
    ensures SectionAt(lines[..k], i) == SectionAt(lines, i)
  {
    assert lines == lines[..k] + lines[k..];
    SectionAtPrefix(lines[..k], lines[k..], i);
  }

  lemma AcceptableInPrefix(lines: seq<string>, k: nat, i: nat)
    requires i < k <= |lines|
    ensures Acceptable(lines[..k], i) <==> Acceptable(lines, i)
  {
    SectionOfPrefix(lines, k, i);
    AcceptableFits(lines[..k], i);
    AcceptableFits(lines, i);
  }

  lemma PrefixAcceptable(lines: seq<string>, k: nat)
    requires k < |lines| && forall i: nat :: i < k ==> Acceptable(lines[..k], i)
    requires !LineFits(SectionAt(lines[..k], k), lines[k])
    ensures !Acceptable(lines, k) && forall i: nat :: i < k ==> Acceptable(lines, i)
  {
    forall i: nat | i < k ensures Acceptable(lines, i) {
      AcceptableInPrefix(lines, k, i);
    }
    SectionOfPrefix(lines, k, k);
    AcceptableFits(lines, k);
  }

  lemma StopsAt(lines: seq<string>, start: Settings, r: Outcome)
    requires r == Run(lines, 0, State("", start)) && r.Rejected?
    ensures 1 <= r.line <= |lines| && Run(lines[..r.line - 1], 0, State("", start)) == Accepted(r.state)
    ensures !LineFits(SectionAt(lines[..r.line - 1], r.line - 1), lines[r.line - 1])
  {
    RejectedAfter(lines, 0, State("", start));
    AcceptedIffAllFit(lines[..r.line - 1], start);
    StepWrites(r.state, lines[r.line - 1]);
  }

  /** Every line is acceptable, and every field is what the last line that gives it a value says. */
  ghost predicate Means(lines: seq<string>, start: Settings, after: Settings) {
    && (forall i: nat :: i < |lines| ==> Acceptable(lines, i))
    && forall f :: LastGiven(lines, f, Get(start, f), Get(after, f))
  }

  /** Line n, counted from 1, is the first that is not acceptable; those in front have had their
      effect. */
  ghost predicate Breaks(lines: seq<string>, start: Settings, n: nat, after: Settings) {
    && 1 <= n <= |lines| && !Acceptable(lines, n - 1) && (forall i: nat :: i < n - 1 ==> Acceptable(lines, i))
    && forall f :: LastGiven(lines[..n - 1], f, Get(start, f), Get(after, f))
  }

  lemma AcceptedMeans(lines: seq<string>, start: Settings, r: Outcome)
    requires r == Run(lines, 0, State("", start)) && r.Accepted?
    ensures Means(lines, start, r.state.settings)
  {
    RunLanguage(lines, start);
  }

  lemma StopsAtFirst(lines: seq<string>, start: Settings, r: Outcome)
    requires r == Run(lines, 0, State("", start)) && r.Rejected?
    ensures Breaks(lines, start, r.line, r.state.settings)
  {
    StopsAt(lines, start, r);
    RunLanguage(lines[..r.line - 1], start);
    PrefixAcceptable(lines, r.line - 1);
  }

  /** What a whole text means, told by its characters. It is accepted exactly when every line is
      blank, a comment, a header, or gives a field of its section a value of the right kind; then
      each field is what the last such line says. Otherwise the error names the first line that is
      none of these, and the lines in front of it have had their effect. */
  lemma FileLanguage(src: string, start: Settings)
    ensures match Parse(src, start)
            case Accepted(st) => Means(Split(src, '\n'), start, st.settings)
            case Rejected(n, _, st) => Breaks(Split(src, '\n'), start, n, st.settings)
  {
    if Parse(src, start).Accepted? {
      AcceptedMeans(Split(src, '\n'), start, Parse(src, start));
    } else {
      StopsAtFirst(Split(src, '\n'), start, Parse(src, start));
    }
  }
}

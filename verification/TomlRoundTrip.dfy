/** Printing a configuration and parsing the text back: the parser undoes the printer. */
module TomlRoundTrip {
  import opened Text
  import opened Decimal
  import opened ConfigModel
  import opened Toml

  /** Parsing the lines of a then those of b is parsing a + b. */
  lemma {:induction false} RunConcat(a: seq<string>, b: seq<string>, n: nat, st: State)
    ensures Run(a + b, n, st) ==
            match Run(a, n, st)
            case Accepted(mid) => Run(b, n + |a|, mid)
            case Rejected(_, _, _) => Run(a, n, st)
  {
    if a == [] {
      assert a + b == b;
    } else {
      assert (a + b)[1..] == a[1..] + b;
      var step := Step(st, Trim(a[0]));
      if step.Ok? {
        RunConcat(a[1..], b, n + 1, step.value);
      }
    }
  }

  /** A key the printer may put in front of an equals sign. */
  predicate PlainKey(key: string) {
    ValidKey(key) && Lacks(key, '=') && SpaceFree(key)
  }

  lemma PrintScalarTrimmed(v: Scalar)
    ensures var p := PrintScalar(v); p != "" && Trimmed(p)
  {
    match v
    case Str(s) =>
      var p := Quote(s);
      assert p[|p| - 1] == '"';
    case Int(i) => ItoaChars(i);
    case Bool(b) =>
  }

  /** The value parser reads back every printed value. */
  lemma ParsePrintedValue(v: Scalar)
    ensures ParseValue(PrintScalar(v)) == Ok(v)
  {
    var p := PrintScalar(v);
    match v
    case Str(s) =>
      DecodeQuote(s, "");
      assert p + "" == p;
      TrimOfTrimmed("");
    case Int(i) =>
      ItoaChars(i);
      assert IntChar(p[0]);
      IndexOfLacks(p, '#');
      assert p[..|p|] == p;
      PrintScalarTrimmed(v);
      TrimOfTrimmed(p);
      AtoiItoa(i);
    case Bool(b) =>
      IndexOfLacks(p, '#');
      assert p[..|p|] == p;
      TrimOfTrimmed(p);
  }

  /** The trimmed form of a printed line, and where its parts are. */
  lemma KeyLineParts(key: string, p: string)
    requires PlainKey(key) && p != "" && Trimmed(p)
    ensures var line := KeyLine(key, p);
            && Trim(line) == line && IndexOf(line, '=') == |key| + 1 && line[0] == key[0]
            && Trim(line[..|key| + 1]) == key && Trim(line[|key| + 2..]) == p
  {
    var line := KeyLine(key, p);
    assert line[0] == key[0] && line[|line| - 1] == p[|p| - 1];
    TrimOfTrimmed(line);
    assert line == (key + " ") + ['='] + (" " + p);
    IndexOfAt(key + " ", '=', " " + p);
    assert line[..|key| + 1] == "" + key + " ";
    assert line[|key| + 2..] == " " + p + "";
    TrimUnique("", key, " ");
    TrimUnique(" ", p, "");
  }

  /** A printed "key = value" line reads back as that entry. */
  lemma KeyLineReads(key: string, v: Scalar)
    requires PlainKey(key)
    ensures ReadLine(Trim(KeyLine(key, PrintScalar(v)))) == Ok(Entry(key, v))
  {
    PrintScalarTrimmed(v);
    KeyLineParts(key, PrintScalar(v));
    ParsePrintedValue(v);
  }

  lemma KeyOfPlain(f: Field)
    ensures PlainKey(KeyOf(f))
  {
    if f.SshUser? || f.SshPort? || f.SshKey? || f.SshSudo? || f.SshProxyJump? {
      SshKeyPlain(f);
    } else if f.WgPort? || f.WgServerIp? || f.WgClientIp? {
      WireGuardKeyPlain(f);
    } else {
      OtherKeyPlain(f);
    }
  }

  lemma SshKeyPlain(f: Field)
    requires f.SshUser? || f.SshPort? || f.SshKey? || f.SshSudo? || f.SshProxyJump?
    ensures PlainKey(KeyOf(f))
  {
  }

  lemma WireGuardKeyPlain(f: Field)
    requires f.WgPort? || f.WgServerIp? || f.WgClientIp?
    ensures PlainKey(KeyOf(f))
  {
  }

  lemma OtherKeyPlain(f: Field)
    requires f.Host? || f.DropbearPort? || f.OutputDir? || f.NetInterface? || f.NetIp? || f.LuksDevice?
    ensures PlainKey(KeyOf(f))
  {
  }

  /** In its section, the printed line of a field stores that field and changes nothing else. */
  lemma FieldLineStores(c: Settings, f: Field, d: Settings)
    ensures Fits(f, Get(c, f))
    ensures Step(State(SectionOf(f), d), Trim(FieldLine(c, f)))
            == Ok(State(SectionOf(f), Put(d, f, Get(c, f))))
  {
    GetFits(c, f);
    KeyOfPlain(f);
    KeyLineReads(KeyOf(f), Get(c, f));
    SchemaPlaces(SectionOf(f), KeyOf(f), f);
  }

  predicate PlainName(name: string) {
    name != "" && SpaceFree(name) && Lacks(name, '[') && Lacks(name, ']')
  }

  lemma HeaderReads(name: string, st: State)
    requires PlainName(name)
    ensures Step(st, Trim(HeaderLine(name))) == Ok(st.(section := name))
  {
    var line := HeaderLine(name);
    assert line[0] == '[' && line[|line| - 1] == ']';
    TrimOfTrimmed(line);
    assert line[1..|line| - 1] == name;
    TrimOfTrimmed(name);
  }

  /** A blank line and a section header change the section and nothing else. */
  lemma RunBlankHeader(name: string, rest: seq<string>, n: nat, st: State)
    requires PlainName(name)
    ensures Run(["", HeaderLine(name)] + rest, n, st) == Run(rest, n + 2, st.(section := name))
  {
    var lines := ["", HeaderLine(name)] + rest;
    HeaderReads(name, st);
    assert lines[1..] == [HeaderLine(name)] + rest;
    assert lines[1..][1..] == rest;
  }

  /** A printed field line in its section stores the field. */
  lemma RunField(c: Settings, f: Field, rest: seq<string>, n: nat, d: Settings)
    ensures Fits(f, Get(c, f))
    ensures Run([FieldLine(c, f)] + rest, n, State(SectionOf(f), d))
            == Run(rest, n + 1, State(SectionOf(f), Put(d, f, Get(c, f))))
  {
    FieldLineStores(c, f, d);
    assert ([FieldLine(c, f)] + rest)[1..] == rest;
  }

  predicate InSection(fields: seq<Field>, section: string) {
    forall i :: 0 <= i < |fields| ==> SectionOf(fields[i]) == section
  }

  /** The settings d with the listed fields taken from c. */
  function Overlay(c: Settings, fields: seq<Field>, d: Settings): Settings {
    if fields == [] then d
    else
      GetFits(c, fields[0]);
      Overlay(c, fields[1..], Put(d, fields[0], Get(c, fields[0])))
  }

  lemma {:induction false} OverlayGet(c: Settings, fields: seq<Field>, d: Settings, g: Field)
    ensures Get(Overlay(c, fields, d), g) == if g in fields then Get(c, g) else Get(d, g)
  {
    if fields != [] {
      GetFits(c, fields[0]);
      OverlayGet(c, fields[1..], Put(d, fields[0], Get(c, fields[0])), g);
      GetPut(d, fields[0], Get(c, fields[0]), g);
    }
  }

  lemma {:induction false} RunFieldLines(c: Settings, fields: seq<Field>, section: string, n: nat, d: Settings)
    requires InSection(fields, section)
    ensures Run(FieldLines(c, fields), n, State(section, d)) == Accepted(State(section, Overlay(c, fields, d)))
  {
    if fields != [] {
      GetFits(c, fields[0]);
      RunField(c, fields[0], FieldLines(c, fields[1..]), n, d);
      RunFieldLines(c, fields[1..], section, n + 1, Put(d, fields[0], Get(c, fields[0])));
    }
  }

  /** A printed block installs its fields, whatever section and settings it starts from. */
  lemma RunBlock(c: Settings, name: string, fields: seq<Field>, n: nat, st: State)
    requires PlainName(name) && InSection(fields, name)
    ensures Run(Block(c, name, fields), n, st) == Accepted(State(name, Overlay(c, fields, st.settings)))
  {
    RunBlankHeader(name, FieldLines(c, fields), n, st);
    RunFieldLines(c, fields, name, n + 2, st.settings);
  }

  predicate AllNewlineFree(lines: seq<string>) {
    forall i :: 0 <= i < |lines| ==> NewlineFree(lines[i])
  }

  lemma {:induction false} EscapeNewlineFree(s: string)
    requires NewlineFree(s)
    ensures NewlineFree(Escape(s))
  {
    if s != "" {
      EscapeNewlineFree(s[1..]);
    }
  }

  lemma FieldLineNewlineFree(c: Settings, f: Field)
    requires ScalarNewlineFree(Get(c, f))
    ensures NewlineFree(FieldLine(c, f))
  {
    KeyOfPlain(f);
    var v := Get(c, f);
    match v
    case Str(s) => EscapeNewlineFree(s);
    case Int(i) => ItoaChars(i);
    case Bool(_) =>
  }

  lemma {:induction false} FieldLinesNewlineFree(c: Settings, fields: seq<Field>)
    requires Printable(c)
    ensures AllNewlineFree(FieldLines(c, fields))
  {
    if fields != [] {
      assert ScalarNewlineFree(Get(c, fields[0]));
      FieldLineNewlineFree(c, fields[0]);
      FieldLinesNewlineFree(c, fields[1..]);
    }
  }

  /** Whatever its place in the file and whatever came before, these lines lead from one
      state to the next. */
  ghost predicate Leads(lines: seq<string>, from: State, to: State) {
    forall n: nat :: Run(lines, n, from) == Accepted(to)
  }

  lemma LeadsThrough(a: seq<string>, b: seq<string>, from: State, mid: State, to: State)
    requires Leads(a, from, mid) && Leads(b, mid, to)
    ensures Leads(a + b, from, to)
  {
    forall n: nat ensures Run(a + b, n, from) == Accepted(to) {
      RunConcat(a, b, n, from);
    }
  }

  lemma BlockLeads(c: Settings, name: string, fields: seq<Field>, from: State)
    requires PlainName(name) && InSection(fields, name)
    ensures Leads(Block(c, name, fields), from, State(name, Overlay(c, fields, from.settings)))
  {
    forall n: nat
      ensures Run(Block(c, name, fields), n, from) == Accepted(State(name, Overlay(c, fields, from.settings)))
    {
      RunBlock(c, name, fields, n, from);
    }
  }

  // ----- the sections of the file

  /** A section whose header can be read back and whose fields belong to it. */
  ghost predicate GoodRow(row: Row) {
    PlainName(row.name) && InSection(row.fields, row.name) && NewlineFree(row.name)
  }

  ghost predicate GoodRows(rows: seq<Row>) {
    forall i :: 0 <= i < |rows| ==> GoodRow(rows[i])
  }

  lemma SshGood()
    ensures GoodRow(SSH)
  {
  }

  lemma WireGuardGood()
    ensures GoodRow(WIREGUARD)
  {
  }

  lemma DropbearGood()
    ensures GoodRow(DROPBEAR)
  {
  }

  lemma NetworkGood()
    ensures GoodRow(NETWORK)
  {
  }

  lemma OneFieldRowsGood()
    ensures GoodRow(OUTPUT) && GoodRow(LUKS)
  {
  }

  lemma SectionsGood()
    ensures GoodRows(SECTIONS)
  {
    SshGood();
    WireGuardGood();
    DropbearGood();
    NetworkGood();
    OneFieldRowsGood();
  }

  /** The settings d with all fields of the sections taken from c. */
  function OverlayRows(c: Settings, rows: seq<Row>, d: Settings): Settings {
    if rows == [] then d
    else Overlay(c, rows[|rows| - 1].fields, OverlayRows(c, rows[..|rows| - 1], d))
  }

  predicate InRows(rows: seq<Row>, f: Field) {
    exists i :: 0 <= i < |rows| && f in rows[i].fields
  }

  lemma {:induction false} OverlayRowsGet(c: Settings, rows: seq<Row>, d: Settings, f: Field)
    ensures Get(OverlayRows(c, rows, d), f) == if InRows(rows, f) then Get(c, f) else Get(d, f)
    decreases |rows|
  {
    if rows != [] {
      var init, last := rows[..|rows| - 1], rows[|rows| - 1];
      OverlayGet(c, last.fields, OverlayRows(c, init, d), f);
      OverlayRowsGet(c, init, d, f);
      assert forall i :: 0 <= i < |init| ==> rows[i] == init[i];
    }
  }

  /** Every field but the host has its section. */
  lemma AllInRows(f: Field)
    requires f != Host
    ensures InRows(SECTIONS, f)
  {
    var i := if f in SSH.fields then 0 else if f in WIREGUARD.fields then 1 else if f in DROPBEAR.fields then 2
      else if f in OUTPUT.fields then 3 else if f in NETWORK.fields then 4 else 5;
    assert f in SECTIONS[i].fields;
  }

  function LastName(rows: seq<Row>, name: string): string {
    if rows == [] then name else rows[|rows| - 1].name
  }

  /** The printed sections install their fields, one after the other. */
  lemma {:induction false} BlocksLead(c: Settings, rows: seq<Row>, from: State)
    requires GoodRows(rows)
    ensures Leads(Blocks(c, rows), from, State(LastName(rows, from.section), OverlayRows(c, rows, from.settings)))
    decreases |rows|
  {
    if rows != [] {
      var init, last := rows[..|rows| - 1], rows[|rows| - 1];
      BlocksLead(c, init, from);
      var mid := State(LastName(init, from.section), OverlayRows(c, init, from.settings));
      assert GoodRow(last);
      BlockLeads(c, last.name, last.fields, mid);
      LeadsThrough(Blocks(c, init), Block(c, last.name, last.fields), from, mid,
                   State(last.name, Overlay(c, last.fields, mid.settings)));
    }
  }

  lemma HostLeads(c: Settings, start: Settings) returns (to: State)
    ensures to == State("", Overlay(c, [Host], start))
    ensures Leads(FieldLines(c, [Host]), State("", start), to)
  {
    to := State("", Overlay(c, [Host], start));
    forall n: nat ensures Run(FieldLines(c, [Host]), n, State("", start)) == Accepted(to) {
      RunFieldLines(c, [Host], "", n, start);
    }
  }

  /** Installing host and sections leaves nothing of the starting settings. */
  lemma OverlayAll(c: Settings, d: Settings)
    ensures OverlayRows(c, SECTIONS, Overlay(c, [Host], d)) == c
  {
    var e := Overlay(c, [Host], d);
    forall f ensures Get(OverlayRows(c, SECTIONS, e), f) == Get(c, f) {
      OverlayRowsGet(c, SECTIONS, e, f);
      OverlayGet(c, [Host], d, f);
      if f != Host {
        AllInRows(f);
      }
    }
    SettingsExtensional(OverlayRows(c, SECTIONS, e), c);
  }

  /** The printed lines parse to exactly the printed settings, from any starting settings. */
  lemma PrintLinesLead(c: Settings, start: Settings)
    ensures Leads(PrintLines(c), State("", start), State("luks", c))
  {
    var s0 := HostLeads(c, start);
    SectionsGood();
    BlocksLead(c, SECTIONS, s0);
    OverlayAll(c, start);
    LeadsThrough(FieldLines(c, [Host]), Blocks(c, SECTIONS), State("", start), s0, State("luks", c));
  }

  lemma {:induction false} BlocksNewlineFree(c: Settings, rows: seq<Row>)
    requires Printable(c) && GoodRows(rows)
    ensures AllNewlineFree(Blocks(c, rows))
    decreases |rows|
  {
    if rows != [] {
      BlocksNewlineFree(c, rows[..|rows| - 1]);
      assert GoodRow(rows[|rows| - 1]);
      FieldLinesNewlineFree(c, rows[|rows| - 1].fields);
    }
  }

  /** A printable configuration prints one line per row: no line holds a line break. */
  lemma PrintLinesNewlineFree(c: Settings)
    requires Printable(c)
    ensures AllNewlineFree(PrintLines(c))
  {
    FieldLinesNewlineFree(c, [Host]);
    SectionsGood();
    BlocksNewlineFree(c, SECTIONS);
  }

  /** The printer and the parser are inverse: from any starting settings, the text of a
      printable configuration is accepted and leaves exactly that configuration. */
  lemma ParsePrinted(c: Settings, start: Settings)
    requires Printable(c)
    ensures Parse(PrintSettings(c), start) == Accepted(State("luks", c))
  {
    PrintLinesNewlineFree(c);
    SplitTerminated(PrintLines(c), '\n');
    PrintLinesLead(c, start);
    RunConcat(PrintLines(c), [""], 0, State("", start));
    RunEmptyLine(|PrintLines(c)|, State("luks", c));
  }

  lemma RunEmptyLine(n: nat, st: State)
    ensures Run([""], n, st) == Accepted(st)
  {
    assert [""][1..] == [];
  }
}

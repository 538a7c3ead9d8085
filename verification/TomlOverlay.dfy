/** What an accepted file means: every field takes its last assignment, and comments and
    empty lines mean nothing. */
module TomlOverlay {
  import opened Text
  import opened ConfigModel
  import opened Toml
  import opened TomlRoundTrip

  // ----- last write wins

  /** One assignment to a field. */
  datatype Write = Write(field: Field, val: Scalar)

  /** The section in force in front of line i: the last header above it. */
  function SectionAt(lines: seq<string>, i: nat): string
    requires i <= |lines|
  {
    if i == 0 then ""
    else
      match ReadLine(Trim(lines[i - 1]))
      case Ok(Header(name)) => name
      case _ => SectionAt(lines, i - 1)
  }

  /** A line that the file may hold in this section. */
  predicate LineFits(section: string, line: string) {
    match ReadLine(Trim(line))
    case Err(_) => false
    case Ok(Entry(key, v)) => Target(section, key, v).Ok?
    case Ok(_) => true
  }

  /** What a line assigns in this section, if anything. */
  function LineWrites(section: string, line: string): Option<Write> {
    match ReadLine(Trim(line))
    case Ok(Entry(key, v)) => (match Target(section, key, v) case Ok(f) => Some(Write(f, v)) case Err(_) => None)
    case _ => None
  }

  /** The assignments of a file, line by line. */
  function Writes(lines: seq<string>): (ws: seq<Option<Write>>)
    ensures |ws| == |lines|
  {
    if lines == [] then []
    else
      var above := lines[..|lines| - 1];
      Writes(above) + [LineWrites(SectionAt(above, |above|), lines[|lines| - 1])]
  }

  predicate WritesTo(ws: seq<Option<Write>>, i: nat, f: Field) {
    i < |ws| && ws[i].Some? && ws[i].value.field == f
  }

  predicate LastWrite(ws: seq<Option<Write>>, i: nat, f: Field) {
    WritesTo(ws, i, f) && forall j :: i < j < |ws| ==> !WritesTo(ws, j, f)
  }

  /** What field f is after the assignments: the last one made to it, or what it was. */
  ghost predicate FieldAfter(ws: seq<Option<Write>>, f: Field, start: Scalar, after: Scalar) {
    || (exists i: nat :: LastWrite(ws, i, f) && after == ws[i].value.val)
    || ((forall i :: 0 <= i < |ws| ==> !WritesTo(ws, i, f)) && after == start)
  }

  lemma WritesToSnoc(ws: seq<Option<Write>>, w: Option<Write>, f: Field)
    ensures forall i: nat :: i < |ws| ==> (WritesTo(ws + [w], i, f) <==> WritesTo(ws, i, f))
    ensures WritesTo(ws + [w], |ws|, f) <==> w.Some? && w.value.field == f
  {
    var all := ws + [w];
    assert all[|ws|] == w;
    assert forall i: nat :: i < |ws| ==> all[i] == ws[i];
  }

  lemma LastWriteSnoc(ws: seq<Option<Write>>, w: Option<Write>, f: Field, i: nat)
    requires LastWrite(ws, i, f) && !(w.Some? && w.value.field == f)
    ensures LastWrite(ws + [w], i, f) && (ws + [w])[i] == ws[i]
  {
    WritesToSnoc(ws, w, f);
    forall j | i < j < |ws + [w]| ensures !WritesTo(ws + [w], j, f) {
      if j < |ws| {
        assert !WritesTo(ws, j, f);
      }
    }
  }

  lemma FieldAfterSnoc(ws: seq<Option<Write>>, w: Option<Write>, f: Field, start: Scalar, mid: Scalar, next: Scalar)
    requires FieldAfter(ws, f, start, mid)
    requires next == if w.Some? && w.value.field == f then w.value.val else mid
    ensures FieldAfter(ws + [w], f, start, next)
  {
    WritesToSnoc(ws, w, f);
    if w.Some? && w.value.field == f {
      assert LastWrite(ws + [w], |ws|, f);
    } else if i: nat :| LastWrite(ws, i, f) && mid == ws[i].value.val {
      LastWriteSnoc(ws, w, f, i);
    }
  }

  lemma {:induction false} SectionAtPrefix(lines: seq<string>, more: seq<string>, i: nat)
    requires i <= |lines|
    ensures SectionAt(lines + more, i) == SectionAt(lines, i)
  {
    if i > 0 {
      SectionAtPrefix(lines, more, i - 1);
      assert (lines + more)[i - 1] == lines[i - 1];
    }
  }

  lemma {:induction false} WritesAt(lines: seq<string>, i: nat)
    requires i < |lines|
    ensures Writes(lines)[i] == LineWrites(SectionAt(lines, i), lines[i])
  {
    var above, last := lines[..|lines| - 1], lines[|lines| - 1];
    assert lines == above + [last];
    SectionAtPrefix(above, [last], i);
    if i < |above| {
      WritesAt(above, i);
    }
  }

  /** One more line: what the state was, followed by one step. */
  lemma RunSnoc(lines: seq<string>, line: string, st: State)
    ensures Run(lines + [line], 0, st) ==
            match Run(lines, 0, st)
            case Rejected(_, _, _) => Run(lines, 0, st)
            case Accepted(mid) =>
              match Step(mid, Trim(line))
              case Err(e) => Rejected(|lines| + 1, e, mid)
              case Ok(next) => Accepted(next)
  {
    RunConcat(lines, [line], 0, st);
    assert [line][1..] == [];
  }

  /** A line is taken when it fits, and changes a field only by assigning it. */
  lemma StepWrites(st: State, line: string)
    ensures Step(st, Trim(line)).Ok? <==> LineFits(st.section, line)
    ensures Step(st, Trim(line)).Ok? ==>
              var w := LineWrites(st.section, line);
              forall f :: Get(Step(st, Trim(line)).value.settings, f)
                          == if w.Some? && w.value.field == f then w.value.val else Get(st.settings, f)
  {
    var w := LineWrites(st.section, line);
    if w.Some? {
      forall f ensures Get(Put(st.settings, w.value.field, w.value.val), f)
                       == if w.value.field == f then w.value.val else Get(st.settings, f) {
        GetPut(st.settings, w.value.field, w.value.val, f);
      }
    }
  }

  /** Every line fits in the section that the lines above it leave. */
  predicate AllFit(lines: seq<string>) {
    lines == [] ||
    var above := lines[..|lines| - 1];
    AllFit(above) && LineFits(SectionAt(above, |above|), lines[|lines| - 1])
  }

  /** A file is accepted exactly when every line fits where it stands, and then the section is
      the last header's. */
  lemma {:induction false} AcceptedIffAllFit(lines: seq<string>, start: Settings)
    ensures var run := Run(lines, 0, State("", start));
            (run.Accepted? <==> AllFit(lines))
            && (run.Accepted? ==> run.state.section == SectionAt(lines, |lines|))
    decreases |lines|
  {
    if lines != [] {
      var n := |lines| - 1;
      var init, line := lines[..n], lines[n];
      assert lines == init + [line];
      AcceptedIffAllFit(init, start);
      RunSnoc(init, line, State("", start));
      assert AllFit(lines) <==> AllFit(init) && LineFits(SectionAt(init, n), line);
      SectionAtPrefix(init, [line], n);
      var before := Run(init, 0, State("", start));
      if before.Accepted? {
        StepWrites(before.state, line);
      }
    }
  }

  /** After an accepted file, a field is its last assignment, or what it was. */
  lemma {:induction false} FieldAfterRun(lines: seq<string>, start: Settings, f: Field)
    requires Run(lines, 0, State("", start)).Accepted?
    ensures FieldAfter(Writes(lines), f, Get(start, f), Get(Run(lines, 0, State("", start)).state.settings, f))
    decreases |lines|
  {
    if lines != [] {
      var n := |lines| - 1;
      var init, line := lines[..n], lines[n];
      assert lines == init + [line];
      RunSnoc(init, line, State("", start));
      AcceptedIffAllFit(init, start);
      FieldAfterRun(init, start, f);
      var before := Run(init, 0, State("", start)).state;
      var w := LineWrites(SectionAt(init, n), line);
      StepWrites(before, line);
      FieldAfterSnoc(Writes(init), w, f, Get(start, f), Get(before.settings, f),
        Get(Step(before, Trim(line)).value.settings, f));
    }
  }

  /** Line i assigns field f in the section it stands in. */
  predicate Assigns(lines: seq<string>, i: nat, f: Field) {
    i < |lines|
    && var w := LineWrites(SectionAt(lines, i), lines[i]);
       w.Some? && w.value.field == f
  }

  function Assigned(lines: seq<string>, i: nat, f: Field): Scalar
    requires Assigns(lines, i, f)
  {
    LineWrites(SectionAt(lines, i), lines[i]).value.val
  }

  /** The value is that of the last line that assigns the field, or what it was when none does. */
  ghost predicate LastAssignment(lines: seq<string>, f: Field, start: Scalar, after: Scalar) {
    || (exists i: nat ::
          Assigns(lines, i, f) && (forall j: nat :: i < j ==> !Assigns(lines, j, f)) && after == Assigned(lines, i, f))
    || ((forall i: nat :: !Assigns(lines, i, f)) && after == start)
  }

  lemma WritesAssign(lines: seq<string>, ws: seq<Option<Write>>, i: nat, f: Field)
    requires ws == Writes(lines)
    ensures WritesTo(ws, i, f) <==> Assigns(lines, i, f)
    ensures WritesTo(ws, i, f) ==> ws[i].value.val == Assigned(lines, i, f)
  {
    if i < |lines| {
      WritesAt(lines, i);
    }
  }

  lemma AssignmentOfWrites(lines: seq<string>, f: Field, start: Scalar, after: Scalar)
    requires FieldAfter(Writes(lines), f, start, after)
    ensures LastAssignment(lines, f, start, after)
  {
    var ws := Writes(lines);
    forall i: nat ensures WritesTo(ws, i, f) <==> Assigns(lines, i, f) {
      WritesAssign(lines, ws, i, f);
    }
    if i: nat :| LastWrite(ws, i, f) && after == ws[i].value.val {
      assert WritesTo(ws, i, f);
      WritesAssign(lines, ws, i, f);
    }
  }

  /** The line loop is a last-write-wins overlay of the lines of the file. */
  lemma LastWriteWins(src: string, start: Settings)
    ensures var lines := Split(src, '\n');
            var run := Parse(src, start);
            (run.Accepted? <==> AllFit(lines))
            && (run.Accepted? ==>
                  forall f :: LastAssignment(lines, f, Get(start, f), Get(run.state.settings, f)))
  {
    var lines := Split(src, '\n');
    AcceptedIffAllFit(lines, start);
    if Parse(src, start).Accepted? {
      forall f ensures LastAssignment(lines, f, Get(start, f), Get(Parse(src, start).state.settings, f)) {
        FieldAfterRun(lines, start, f);
        AssignmentOfWrites(lines, f, Get(start, f), Get(Parse(src, start).state.settings, f));
      }
    }
  }

  // ----- lines that mean nothing

  /** Files whose lines read alike do alike. */
  lemma {:induction false} RunReadsAlike(a: seq<string>, b: seq<string>, n: nat, st: State)
    requires |a| == |b|
    requires forall i :: 0 <= i < |a| ==> ReadLine(Trim(a[i])) == ReadLine(Trim(b[i]))
    ensures Run(a, n, st) == Run(b, n, st)
  {
    if a != [] {
      assert Step(st, Trim(a[0])) == Step(st, Trim(b[0]));
      var step := Step(st, Trim(a[0]));
      if step.Ok? {
        RunReadsAlike(a[1..], b[1..], n + 1, step.value);
      }
    }
  }

  /** A blank line or a comment line. */
  predicate Meaningless(line: string) {
    Trim(line) == "" || Trim(line)[0] == '#'
  }

  function Meaningful(lines: seq<string>): seq<string> {
    if lines == [] then []
    else if Meaningless(lines[0]) then Meaningful(lines[1..])
    else [lines[0]] + Meaningful(lines[1..])
  }

  /** Deleting every blank and comment line changes neither what the file is accepted as nor,
      when it is rejected, the error and the fields assigned so far. */
  lemma {:induction false} MeaninglessLinesIgnored(lines: seq<string>, n: nat, m: nat, st: State)
    ensures var whole, short := Run(lines, n, st), Run(Meaningful(lines), m, st);
            whole.state == short.state
            && (whole.Accepted? <==> short.Accepted?)
            && (whole.Rejected? ==> whole.error == short.error)
  {
    if lines != [] {
      if Meaningless(lines[0]) {
        MeaninglessLinesIgnored(lines[1..], n + 1, m, st);
      } else {
        var rest := Meaningful(lines[1..]);
        assert ([lines[0]] + rest)[1..] == rest;
        var step := Step(st, Trim(lines[0]));
        if step.Ok? {
          MeaninglessLinesIgnored(lines[1..], n + 1, m + 1, step.value);
        }
      }
    }
  }

  // ----- comments behind a line

  /** A text that starts with '#' and ends in something visible. */
  predicate CommentText(u: string) {
    u != "" && u[0] == '#' && Trimmed(u)
  }

  /** What is behind the closing quote may always be followed by a comment. */
  lemma CommentAfterString(rest: string, gap: string, u: string)
    requires EnsureCommentOnly(rest).Ok? && Blank(gap) && CommentText(u)
    ensures EnsureCommentOnly(rest + gap + u) == Ok(())
  {
    var all := rest + gap + u;
    assert all == rest + (gap + u);
    TrimStart(rest);
    TrimStart(all);
    TrimLeftExtends(rest, gap + u);
    TrimLeftExtends(gap, u);
    assert all[|rest| + |gap|] == '#';
  }

  lemma {:induction false} DecodeExtends(s: string, more: string)
    requires DecodeBody(s).Ok?
    ensures DecodeBody(s + more) == Ok(Quoted(DecodeBody(s).value.text, DecodeBody(s).value.rest + more))
  {
    var n := if s[0] == '\\' then 2 else 1;
    assert (s + more)[n..] == s[n..] + more;
    if s[0] != '"' {
      DecodeExtends(s[n..], more);
    }
  }

  lemma CommentAfterToken(r: string, gap: string, u: string)
    requires Trimmed(r) && Blank(gap) && CommentText(u)
    ensures BareToken(r + gap + u) == BareToken(r)
  {
    var all := r + gap + u;
    var i := IndexOf(r, '#');
    if i < |r| {
      assert all == r + (gap + u);
      IndexOfExtends(r, gap + u, '#');
      assert all[..i] == r[..i];
    } else {
      assert all == (r + gap) + ['#'] + u[1..];
      IndexOfAt(r + gap, '#', u[1..]);
      assert all[..|r + gap|] == r + gap;
      TrimUnique("", r, gap);
      assert "" + r + gap == r + gap;
      assert r[..i] == r;
      TrimOfTrimmed(r);
    }
  }

  /** A string literal is read the same with a comment behind it. */
  lemma CommentAfterLiteral(body: string, gap: string, u: string)
    requires DecodeBody(body).Ok? && EnsureCommentOnly(DecodeBody(body).value.rest).Ok? && Blank(gap) && CommentText(u)
    ensures var d := DecodeBody(body + (gap + u));
            d.Ok? && d.value.text == DecodeBody(body).value.text && EnsureCommentOnly(d.value.rest) == Ok(())
  {
    DecodeExtends(body, gap + u);
    var q := DecodeBody(body).value;
    CommentAfterString(q.rest, gap, u);
    ConcatAssoc(q.rest, gap, u);
  }

  /** A value that is accepted is accepted as the same value with a comment behind it. */
  lemma CommentAfterValue(r: string, gap: string, u: string)
    requires Trimmed(r) && ParseValue(r).Ok? && Blank(gap) && CommentText(u)
    ensures ParseValue(r + gap + u) == ParseValue(r)
  {
    var all := r + gap + u;
    assert all[0] == r[0];
    if r[0] == '"' {
      assert all[1..] == r[1..] + (gap + u);
      CommentAfterLiteral(r[1..], gap, u);
    } else {
      CommentAfterToken(r, gap, u);
    }
  }

  lemma Regroup(head: string, t: string, tail: string, gap: string, u: string, rest: string)
    ensures head + t + tail + gap + (u + rest) == head + (t + (tail + gap) + u) + rest
  {
  }

  /** Where a line with a comment behind it begins and ends once trimmed. */
  lemma TrimWithComment(raw: string, gap: string, text: string) returns (mid: string, u: string)
    requires Blank(gap)
    ensures Blank(mid) && CommentText(u) && Trimmed(Trim(raw))
    ensures Trim(raw + gap + "#" + text) == if Trim(raw) == "" then u else Trim(raw) + mid + u
  {
    var head, tail := TrimSplit(raw);
    var t := Trim(raw);
    var k := TrimRightCut("#" + text);
    var c := "#" + text;
    u := c[..k];
    assert c[0] == '#';
    mid := tail + gap;
    assert c == u + c[k..];
    assert raw + gap + "#" + text == raw + gap + c;
    var rest := c[k..];
    Regroup(head, t, tail, gap, u, rest);
    if t == "" {
      assert head + (t + mid + u) + rest == (head + mid) + u + rest;
      TrimUnique(head + mid, u, rest);
    } else {
      TrimUnique(head, t + mid + u, rest);
    }
  }

  lemma CommentAfterRight(left: string, right: string, gap: string, u: string)
    requires MakeEntry(left, right).Ok? && Blank(gap) && CommentText(u)
    ensures MakeEntry(left, right + gap + u) == MakeEntry(left, right)
  {
    assert right + gap + u == right + gap + "#" + u[1..];
    var mid, v := TrimWithComment(right, gap, u[1..]);
    CommentAfterValue(Trim(right), mid, v);
  }

  lemma EntryOfParts(left: string, right: string)
    requires Lacks(left, '=')
    ensures ParseKeyValue(left + ['='] + right) == MakeEntry(left, right)
  {
    IndexOfAt(left, '=', right);
    assert (left + ['='] + right)[..|left|] == left;
    assert (left + ['='] + right)[|left| + 1..] == right;
  }

  lemma CommentAfterEntry(t: string, gap: string, u: string)
    requires ParseKeyValue(t).Ok? && Blank(gap) && CommentText(u)
    ensures ParseKeyValue(t + gap + u) == ParseKeyValue(t)
  {
    var eq := IndexOf(t, '=');
    CommentAfterParts(t, t[..eq], t[eq + 1..], gap, u);
  }

  lemma CommentAfterParts(t: string, left: string, right: string, gap: string, u: string)
    requires t == left + ['='] + right && Lacks(left, '=')
    requires ParseKeyValue(t).Ok? && Blank(gap) && CommentText(u)
    ensures ParseKeyValue(t + gap + u) == ParseKeyValue(t)
  {
    EntryOfParts(left, right);
    EntryOfParts(left, right + gap + u);
    ConcatTail(left + ['='], right, gap, u);
    CommentAfterRight(left, right, gap, u);
  }

  /** A comment may be put behind every accepted line that is not a header, with or without
      white space in front of its '#', and the line still says the same. */
  lemma TrailingComment(raw: string, gap: string, text: string)
    requires Blank(gap)
    requires ReadLine(Trim(raw)).Ok? && !ReadLine(Trim(raw)).value.Header?
    ensures ReadLine(Trim(raw + gap + "#" + text)) == ReadLine(Trim(raw))
  {
    var mid, u := TrimWithComment(raw, gap, text);
    var t := Trim(raw);
    if t != "" && t[0] != '#' {
      CommentAfterEntry(t, mid, u);
    }
  }

  /** Behind a section header a comment is never accepted. */
  lemma HeaderComment(raw: string, gap: string, text: string)
    requires Blank(gap)
    requires ReadLine(Trim(raw)).Ok? && ReadLine(Trim(raw)).value.Header?
    ensures ReadLine(Trim(raw + gap + "#" + text)) == Err(MalformedHeader)
  {
    var mid, u := TrimWithComment(raw, gap, text);
    var t := Trim(raw);
    var line := t + mid + u;
    if line[|line| - 1] == ']' {
      var inner := line[1..|line| - 1];
      assert inner[|t| - 2] == t[|t| - 1] == ']';
      TrimKeeps(inner, ']');
    }
  }

  /** In a whole file: a comment behind a line that is not a header changes nothing. */
  lemma TrailingCommentIgnored(lines: seq<string>, i: nat, gap: string, text: string, n: nat, st: State)
    requires i < |lines| && Blank(gap)
    requires ReadLine(Trim(lines[i])).Ok? && !ReadLine(Trim(lines[i])).value.Header?
    ensures Run(lines[i := lines[i] + gap + "#" + text], n, st) == Run(lines, n, st)
  {
    TrailingComment(lines[i], gap, text);
    RunReadsAlike(lines[i := lines[i] + gap + "#" + text], lines, n, st);
  }

  // ----- accepted files can be printed

  lemma {:induction false} EscapeReflectsNewlines(s: string)
    requires NewlineFree(Escape(s))
    ensures NewlineFree(s)
  {
    if s != "" {
      var k := if s[0] == '\\' || s[0] == '"' then 2 else 1;
      var e := Escape(s);
      assert e[k - 1] == s[0];
      assert forall i :: 0 <= i < |Escape(s[1..])| ==> Escape(s[1..])[i] == e[i + k];
      EscapeReflectsNewlines(s[1..]);
      assert s == [s[0]] + s[1..];
    }
  }

  /** No line of text yields a string with a line break in it. */
  lemma EntryNewlineFree(line: string)
    requires NewlineFree(line) && ReadLine(line).Ok? && ReadLine(line).value.Entry?
    ensures ScalarNewlineFree(ReadLine(line).value.val)
  {
    var eq := IndexOf(line, '=');
    var r := Trim(line[eq + 1..]);
    TrimLacks(line[eq + 1..], '\n');
    if r[0] == '"' {
      var q := DecodeBody(r[1..]).value;
      DecodedIsQuoted(r, q);
      assert forall i :: 0 <= i < |Escape(q.text)| ==> Escape(q.text)[i] == r[i + 1];
      EscapeReflectsNewlines(q.text);
    }
  }

  lemma StepPrintable(st: State, line: string)
    requires NewlineFree(line) && Printable(st.settings) && Step(st, Trim(line)).Ok?
    ensures Printable(Step(st, Trim(line)).value.settings)
  {
    TrimLacks(line, '\n');
    StepWrites(st, line);
    var w := LineWrites(st.section, line);
    if w.Some? {
      EntryNewlineFree(Trim(line));
    }
    var next := Step(st, Trim(line)).value.settings;
    forall f ensures ScalarNewlineFree(Get(next, f)) {
      assert ScalarNewlineFree(Get(st.settings, f));
    }
  }

  lemma {:induction false} RunPrintable(lines: seq<string>, n: nat, st: State)
    requires AllNewlineFree(lines) && Printable(st.settings)
    ensures Printable(Run(lines, n, st).state.settings)
  {
    if lines != [] {
      var step := Step(st, Trim(lines[0]));
      if step.Ok? {
        StepPrintable(st, lines[0]);
        RunPrintable(lines[1..], n + 1, step.value);
      }
    }
  }

  /** Whatever the source text, parsing keeps the printer's precondition. */
  lemma ParsePrintable(src: string, c: Settings)
    requires Printable(c)
    ensures Printable(Parse(src, c).state.settings)
  {
    SplitPartsLack(src, '\n');
    RunPrintable(Split(src, '\n'), 0, State("", c));
  }

  lemma DefaultsPrintable()
    ensures Printable(DEFAULTS)
  {
  }

  /** Parse, print, parse is a fixed point for every source text that is accepted. */
  lemma PrintIsFixedPoint(src: string, c: Settings, start: Settings)
    requires Printable(c) && Parse(src, c).Accepted?
    ensures var once := Parse(src, c).state.settings;
            Parse(PrintSettings(once), start) == Accepted(State("luks", once))
  {
    ParsePrintable(src, c);
    ParsePrinted(Parse(src, c).state.settings, start);
  }

  /** A saved configuration loads back exactly when no string field holds a line break. */
  lemma LoadsBackExactly(c: Settings)
    ensures (Parse(PrintSettings(c), DEFAULTS).Accepted? && Parse(PrintSettings(c), DEFAULTS).state.settings == c)
            <==> Printable(c)
  {
    DefaultsPrintable();
    if Printable(c) {
      ParsePrinted(c, DEFAULTS);
    } else {
      ParsePrintable(PrintSettings(c), DEFAULTS);
    }
  }
}

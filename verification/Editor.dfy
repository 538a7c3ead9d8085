/** The interactive editor of internal/tui/tui.go: one prompt per field, answers read line by
    line, integer fields asked again until the answer is an integer. */
module Editor {
  import opened Text
  import opened Decimal
  import opened ConfigModel
  import opened Toml
  import opened TomlRoundTrip
  import opened TomlOverlay

  /** The fields in the order they are asked for; ssh.sudo is not among them. */
  const FIELDS: seq<Field> := [
    Host, SshUser, SshPort, SshKey, SshProxyJump, WgPort, WgServerIp, WgClientIp, DropbearPort,
    OutputDir, NetInterface, NetIp, LuksDevice]

  predicate Askable(fields: seq<Field>) {
    forall i :: 0 <= i < |fields| ==> fields[i] != SshSudo
  }

  predicate IsInt(f: Field) {
    f == SshPort || f == WgPort || f == DropbearPort
  }

  /** The value that an answer gives a field, if it is one the field can take. */
  function AnswerValue(f: Field, answer: string): (v: Option<Scalar>)
    requires f != SshSudo
    ensures v.Some? ==> Fits(f, v.value)
  {
    if IsInt(f) then
      match Atoi(answer)
      case None => None
      case Some(i) => Some(Int(i))
    else Some(Str(answer))
  }

  // ----- reading answers

  datatype ReadError = NoError | EndOfInput | ReadFailure

  datatype ReadLineResult = ReadLineResult(line: string, rest: string, error: ReadError)

  /** bufio.Reader.ReadString('\n') on the text that is left: a line with its line break, or
      whatever is left together with the error that ends the input. */
  function ReadString(input: string, broken: bool): (r: ReadLineResult)
    ensures r.error == NoError ==> |r.rest| < |input|
  {
    var i := IndexOf(input, '\n');
    if i < |input| then ReadLineResult(input[..i + 1], input[i + 1..], NoError)
    else ReadLineResult(input, "", if broken then ReadFailure else EndOfInput)
  }

  /** A reader over a text that ends in end-of-file or in a read error. */
  class LineReader {
    var rest: string
    const broken: bool

    constructor (input: string, broken: bool)
      ensures rest == input && this.broken == broken
    {
      rest := input;
      this.broken := broken;
    }

    method Next() returns (line: string, error: ReadError)
      modifies this
      ensures ReadLineResult(line, rest, error) == ReadString(old(rest), broken)
    {
      var r := ReadString(rest, broken);
      rest := r.rest;
      return r.line, r.error;
    }
  }

  // ----- what a dialogue does

  /** Where a dialogue stands: the configuration, the unread input, and whether reading came
      to the end of the input or failed. */
  datatype Dialogue = Dialogue(settings: Settings, rest: string, eof: bool, failed: bool)

  /** The dialogue for one field. */
  function EditOne(f: Field, input: string, broken: bool, c: Settings): Dialogue
    requires f != SshSudo
    decreases |input|
  {
    var r := ReadString(input, broken);
    var answer := Trim(r.line);
    var eof := r.error == EndOfInput;
    if r.error == ReadFailure then Dialogue(c, r.rest, false, true)
    else if answer == "" then Dialogue(c, r.rest, eof, false)
    else if AnswerValue(f, answer).Some? then Dialogue(Put(c, f, AnswerValue(f, answer).value), r.rest, eof, false)
    else if eof then Dialogue(c, r.rest, true, false)
    else EditOne(f, r.rest, broken, c)
  }

  /** The dialogue for a row of fields. */
  function EditAll(fields: seq<Field>, input: string, broken: bool, c: Settings): Dialogue
    requires Askable(fields)
  {
    if fields == [] then Dialogue(c, input, false, false)
    else
      var d := EditOne(fields[0], input, broken, c);
      if d.failed || d.eof then d else EditAll(fields[1..], d.rest, broken, d.settings)
  }

  /** The configuration that a whole dialogue leaves. */
  function Edited(input: string, broken: bool, c: Settings): Settings {
    EditAll(FIELDS, input, broken, c).settings
  }

  /** applyAnswer: whether the field must be asked for again. */
  method ApplyAnswer(cfg: Config, f: Field, answer: string, eof: bool) returns (retry: bool)
    requires f != SshSudo
    modifies cfg
    ensures retry == (AnswerValue(f, answer).None? && !eof)
    ensures cfg.Value() == match AnswerValue(f, answer)
                           case None => old(cfg.Value())
                           case Some(v) => Put(old(cfg.Value()), f, v)
  {
    var v := AnswerValue(f, answer);
    if IsInt(f) {
      if v == None {
        return !eof;
      }
    }
    cfg.Store(f, v.value);
    return false;
  }

  method EditField(r: LineReader, cfg: Config, f: Field) returns (eof: bool, failed: bool)
    requires f != SshSudo
    modifies r, cfg
    ensures Dialogue(cfg.Value(), r.rest, eof, failed) == EditOne(f, old(r.rest), r.broken, old(cfg.Value()))
  {
    while true
      invariant EditOne(f, r.rest, r.broken, cfg.Value()) == EditOne(f, old(r.rest), r.broken, old(cfg.Value()))
      decreases |r.rest|
    {
      var line, error := r.Next();
      eof := error == EndOfInput;
      if error != NoError && !eof {
        return false, true;
      }
      var answer := Trim(line);
      if answer == "" {
        return eof, false;
      }
      var retry := ApplyAnswer(cfg, f, answer, eof);
      if !retry {
        return eof, false;
      }
    }
  }

  /** One step of the dialogue for the fields from the k-th on. */
  lemma EditAllStep(fields: seq<Field>, k: nat, tail: seq<Field>, input: string, broken: bool, c: Settings)
    returns (after: seq<Field>)
    requires k < |fields| && tail == fields[k..] && Askable(tail)
    ensures after == fields[k + 1..] && Askable(after) && fields[k] != SshSudo
    ensures var d := EditOne(fields[k], input, broken, c);
            EditAll(tail, input, broken, c)
            == if d.failed || d.eof then d else EditAll(after, d.rest, broken, d.settings)
  {
    assert tail[0] == fields[k];
    after := tail[1..];
  }

  lemma NothingLeft(fields: seq<Field>, input: string, broken: bool, c: Settings)
    requires fields == []
    ensures EditAll(fields, input, broken, c) == Dialogue(c, input, false, false)
  {
  }

  /** edit: the loop over the fields, which stops when the input is used up. */
  method Edit(r: LineReader, cfg: Config, fields: seq<Field>) returns (ok: bool)
    requires Askable(fields)
    modifies r, cfg
    ensures var d := EditAll(fields, old(r.rest), r.broken, old(cfg.Value()));
            ok == !d.failed && cfg.Value() == d.settings && r.rest == d.rest
  {
    ghost var tail, whole := fields, EditAll(fields, r.rest, r.broken, cfg.Value());
    var k, eof, failed := 0, false, false;
    while k < |fields| && !eof
      invariant 0 <= k <= |fields| && tail == fields[k..] && Askable(tail)
      invariant whole == if eof then Dialogue(cfg.Value(), r.rest, eof, false)
                         else EditAll(tail, r.rest, r.broken, cfg.Value())
      decreases |fields| - k
    {
      tail := EditAllStep(fields, k, tail, r.rest, r.broken, cfg.Value());
      eof, failed := EditField(r, cfg, fields[k]);
      k := k + 1;
      if failed {
        return false;
      }
    }
    if !eof {
      NothingLeft(tail, r.rest, r.broken, cfg.Value());
    }
    return true;
  }

  // ----- what the editor can and cannot do

  /** A string that can be typed as an answer. */
  predicate Typable(s: string) {
    s != "" && Trimmed(s) && NewlineFree(s)
  }

  /** What the editor may make of one field: nothing, or an answer. */
  predicate MayBecome(f: Field, before: Scalar, after: Scalar) {
    before == after || (f != SshSudo && (after.Str? ==> Typable(after.s)))
  }

  ghost predicate Reachable(c: Settings, t: Settings) {
    forall f :: MayBecome(f, Get(c, f), Get(t, f))
  }

  /** An answer is typable. */
  lemma AnswerTypable(input: string, broken: bool)
    requires Trim(ReadString(input, broken).line) != ""
    ensures Typable(Trim(ReadString(input, broken).line))
  {
    var line := ReadString(input, broken).line;
    var head, tail := TrimSplit(line);
    var answer := Trim(line);
    var i := IndexOf(input, '\n');
    assert forall j :: 0 <= j < |line| - 1 ==> line[j] != '\n';
    forall j | 0 <= j < |answer| ensures answer[j] != '\n' {
      assert answer[j] == line[|head| + j];
      if |head| + j == |line| - 1 {
        assert j == |answer| - 1;
      }
    }
  }

  lemma {:induction false} EditOneReachable(f: Field, input: string, broken: bool, c: Settings)
    requires f != SshSudo
    ensures Reachable(c, EditOne(f, input, broken, c).settings)
    decreases |input|
  {
    var r := ReadString(input, broken);
    var answer := Trim(r.line);
    if r.error != ReadFailure && answer != "" {
      AnswerTypable(input, broken);
      var v := AnswerValue(f, answer);
      if v.Some? {
        forall g ensures MayBecome(g, Get(c, g), Get(Put(c, f, v.value), g)) {
          GetPut(c, f, v.value, g);
        }
      } else if r.error == NoError {
        EditOneReachable(f, r.rest, broken, c);
      }
    }
  }

  lemma ReachableThrough(a: Settings, b: Settings, c: Settings)
    requires Reachable(a, b) && Reachable(b, c)
    ensures Reachable(a, c)
  {
    forall f ensures MayBecome(f, Get(a, f), Get(c, f)) {
      assert MayBecome(f, Get(a, f), Get(b, f)) && MayBecome(f, Get(b, f), Get(c, f));
    }
  }

  lemma {:induction false} EditAllReachable(fields: seq<Field>, input: string, broken: bool, c: Settings)
    requires Askable(fields)
    ensures Reachable(c, EditAll(fields, input, broken, c).settings)
  {
    if fields != [] {
      EditOneReachable(fields[0], input, broken, c);
      var d := EditOne(fields[0], input, broken, c);
      if !d.failed && !d.eof {
        EditAllReachable(fields[1..], d.rest, broken, d.settings);
        ReachableThrough(c, d.settings, EditAll(fields[1..], d.rest, broken, d.settings).settings);
      }
    }
  }

  /** The answer that turns what a field is into what it should be. */
  function AnswerFor(before: Scalar, after: Scalar): string {
    if before == after then ""
    else
      match after
      case Str(s) => s
      case Int(i) => Itoa(i)
      case Bool(_) => ""
  }

  /** The answers, one line each, that turn c into t. */
  function Answers(fields: seq<Field>, c: Settings, t: Settings): string {
    if fields == [] then ""
    else
      GetFits(t, fields[0]);
      AnswerFor(Get(c, fields[0]), Get(t, fields[0])) + "\n"
      + Answers(fields[1..], Put(c, fields[0], Get(t, fields[0])), t)
  }

  lemma AnswerReads(answer: string, rest: string)
    requires NewlineFree(answer) && Trimmed(answer)
    ensures var r := ReadString(answer + "\n" + rest, false);
            r.rest == rest && r.error == NoError && Trim(r.line) == answer
  {
    var input := answer + ['\n'] + rest;
    IndexOfAt(answer, '\n', rest);
    assert input[..|answer| + 1] == "" + answer + "\n";
    assert input[|answer| + 1..] == rest;
    TrimUnique("", answer, "\n");
  }

  lemma AnswerForTypable(f: Field, before: Scalar, after: Scalar)
    requires f != SshSudo && Fits(f, after) && MayBecome(f, before, after)
    ensures var answer := AnswerFor(before, after);
            NewlineFree(answer) && Trimmed(answer)
            && (answer == "" <==> before == after)
            && (answer != "" ==> AnswerValue(f, answer) == Some(after))
  {
    if before != after && after.Int? {
      ItoaChars(after.i);
      AtoiItoa(after.i);
    }
  }

  lemma AnswerSets(f: Field, c: Settings, after: Scalar, rest: string)
    requires f != SshSudo && Fits(f, after) && MayBecome(f, Get(c, f), after)
    ensures EditOne(f, AnswerFor(Get(c, f), after) + "\n" + rest, false, c)
            == Dialogue(Put(c, f, after), rest, false, false)
  {
    var answer := AnswerFor(Get(c, f), after);
    AnswerForTypable(f, Get(c, f), after);
    AnswerReads(answer, rest);
    if answer == "" {
      PutSame(c, f);
    }
  }

  lemma PutSame(c: Settings, f: Field)
    ensures Fits(f, Get(c, f)) && Put(c, f, Get(c, f)) == c
  {
  }

  lemma {:induction false} AnswersReach(fields: seq<Field>, c: Settings, t: Settings)
    requires Askable(fields) && Reachable(c, t)
    ensures var d := EditAll(fields, Answers(fields, c, t), false, c);
            !d.failed && d.rest == ""
            && forall f :: Get(d.settings, f) == if f in fields then Get(t, f) else Get(c, f)
  {
    if fields != [] {
      var f, v := fields[0], Get(t, fields[0]);
      GetFits(t, f);
      var next := Put(c, f, v);
      assert MayBecome(f, Get(c, f), v);
      AnswerSets(f, c, v, Answers(fields[1..], next, t));
      forall g ensures MayBecome(g, Get(next, g), Get(t, g)) && Get(next, g) == if g == f then v else Get(c, g) {
        GetPut(c, f, v, g);
        assert MayBecome(g, Get(c, g), Get(t, g));
      }
      AnswersReach(fields[1..], next, t);
    }
  }

  lemma FieldsComplete(f: Field)
    ensures f in FIELDS <==> f != SshSudo
  {
    assert FIELDS[0] == Host && FIELDS[1] == SshUser && FIELDS[2] == SshPort && FIELDS[3] == SshKey;
    assert FIELDS[4] == SshProxyJump && FIELDS[5] == WgPort && FIELDS[6] == WgServerIp && FIELDS[7] == WgClientIp;
    assert FIELDS[8] == DropbearPort && FIELDS[9] == OutputDir && FIELDS[10] == NetInterface;
    assert FIELDS[11] == NetIp && FIELDS[12] == LuksDevice;
  }

  /** The configurations that some input makes of c are exactly those that differ from it only
      in typed answers: integers, and strings that are non-empty, trimmed and on one line. In
      particular ssh.sudo never changes and no string can be emptied. */
  lemma EditorReachesExactly(c: Settings, t: Settings)
    ensures (exists input, broken :: Edited(input, broken, c) == t) <==> Reachable(c, t)
  {
    if input, broken :| Edited(input, broken, c) == t {
      EditAllReachable(FIELDS, input, broken, c);
    }
    if Reachable(c, t) {
      AnswersReach(FIELDS, c, t);
      var d := Edited(Answers(FIELDS, c, t), false, c);
      forall f ensures Get(d, f) == Get(t, f) {
        FieldsComplete(f);
        assert MayBecome(f, Get(c, f), Get(t, f));
      }
      SettingsExtensional(d, t);
    }
  }

  /** An edited configuration, printed and parsed again, is the edited configuration. */
  lemma EditedReloads(input: string, broken: bool, c: Settings, start: Settings)
    requires Printable(c)
    ensures var t := Edited(input, broken, c);
            Printable(t) && Parse(PrintSettings(t), start) == Accepted(State("luks", t))
  {
    var t := Edited(input, broken, c);
    EditAllReachable(FIELDS, input, broken, c);
    forall f ensures ScalarNewlineFree(Get(t, f)) {
      assert MayBecome(f, Get(c, f), Get(t, f)) && ScalarNewlineFree(Get(c, f));
    }
    ParsePrinted(t, start);
  }
}

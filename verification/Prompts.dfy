/** The dialogue of internal/tui/tui.go told by the lines that are typed: which prompt a line
    answers, what it makes of the field, and when a prompt is repeated. */
module Prompts {
  import opened Text
  import opened Decimal
  import opened ConfigModel
  import opened Editor

  /** A typed text that a field takes, and as what. */
  ghost predicate Fitting(f: Field, answer: string, v: Scalar) {
    if f == SshPort || f == WgPort || f == DropbearPort then v.Int? && DecimalText(answer, v.i)
    else v == Str(answer)
  }

  lemma FittingAnswers(f: Field, answer: string, v: Scalar)
    requires f != SshSudo
    ensures AnswerValue(f, answer) == Some(v) <==> Fitting(f, answer, v)
  {
    if v.Int? {
      AtoiLanguage(answer, v.i);
    }
  }

  lemma NothingFits(f: Field, answer: string)
    requires f != SshSudo
    ensures AnswerValue(f, answer) == None <==> forall v :: !Fitting(f, answer, v)
  {
    if AnswerValue(f, answer).Some? {
      FittingAnswers(f, answer, AnswerValue(f, answer).value);
    }
    forall v | Fitting(f, answer, v) ensures AnswerValue(f, answer).Some? {
      FittingAnswers(f, answer, v);
    }
  }

  /** The lines typed at one prompt: some that do not fit, and one that ends it. */
  datatype Reply = Reply(refused: seq<string>, line: string)

  function Lines(r: Reply): seq<string> {
    r.refused + [r.line]
  }

  ghost predicate Refused(f: Field, line: string) {
    NewlineFree(line) && Trim(line) != "" && forall v :: !Fitting(f, Trim(line), v)
  }

  /** What one line makes of a field: nothing when it is blank, and otherwise what it says. */
  ghost predicate Becomes(f: Field, line: string, before: Scalar, after: Scalar) {
    if Trim(line) == "" then after == before else Fitting(f, Trim(line), after)
  }

  /** The field is asked for again as long as an answer does not fit. */
  ghost predicate Replied(f: Field, r: Reply, before: Scalar, after: Scalar) {
    (forall i :: 0 <= i < |r.refused| ==> Refused(f, r.refused[i]))
    && NewlineFree(r.line) && Becomes(f, r.line, before, after)
  }

  lemma LineRead(line: string, rest: string, broken: bool)
    requires NewlineFree(line)
    ensures var r := ReadString(line + "\n" + rest, broken);
            r.rest == rest && r.error == NoError && Trim(r.line) == Trim(line)
  {
    var input := line + ['\n'] + rest;
    IndexOfAt(line, '\n', rest);
    assert input[..|line| + 1] == line + "\n";
    assert input[|line| + 1..] == rest;
    var head, tail := TrimSplit(line);
    TrimUnique(head, Trim(line), tail + "\n");
    assert line + "\n" == head + Trim(line) + (tail + "\n");
  }

  lemma RefusedRepeats(f: Field, line: string, rest: string, broken: bool, c: Settings)
    requires f != SshSudo && Refused(f, line)
    ensures EditOne(f, line + "\n" + rest, broken, c) == EditOne(f, rest, broken, c)
  {
    LineRead(line, rest, broken);
    NothingFits(f, Trim(line));
  }

  lemma {:induction false} AllRefused(f: Field, refused: seq<string>, rest: string, broken: bool, c: Settings)
    requires f != SshSudo && forall i :: 0 <= i < |refused| ==> Refused(f, refused[i])
    ensures EditOne(f, Terminated(refused, '\n') + rest, broken, c) == EditOne(f, rest, broken, c)
  {
    if refused == [] {
      assert "" + rest == rest;
    } else {
      var more := Terminated(refused[1..], '\n');
      assert Terminated(refused, '\n') + rest == refused[0] + "\n" + (more + rest);
      RefusedRepeats(f, refused[0], more + rest, broken, c);
      AllRefused(f, refused[1..], rest, broken, c);
    }
  }

  lemma PutSameValue(c: Settings, f: Field, v: Scalar)
    requires v == Get(c, f)
    ensures Fits(f, v) && Put(c, f, v) == c
  {
  }

  lemma BecomesFits(f: Field, line: string, c: Settings, after: Scalar)
    requires f != SshSudo && Becomes(f, line, Get(c, f), after)
    ensures Fits(f, after)
  {
    if Trim(line) == "" {
      PutSameValue(c, f, after);
    }
  }

  /** The line that ends a prompt. */
  lemma LineAnswers(f: Field, line: string, rest: string, broken: bool, c: Settings, after: Scalar)
    requires f != SshSudo && NewlineFree(line) && Becomes(f, line, Get(c, f), after)
    ensures Fits(f, after)
    ensures EditOne(f, line + "\n" + rest, broken, c) == Dialogue(Put(c, f, after), rest, false, false)
  {
    BecomesFits(f, line, c, after);
    LineRead(line, rest, broken);
    if Trim(line) == "" {
      PutSameValue(c, f, after);
    } else {
      FittingAnswers(f, Trim(line), after);
    }
  }

  /** One prompt: the lines that do not fit are consumed, the one that ends it counts. */
  lemma OnePrompt(f: Field, r: Reply, rest: string, broken: bool, c: Settings, after: Scalar)
    requires f != SshSudo && Replied(f, r, Get(c, f), after)
    ensures Fits(f, after)
    ensures EditOne(f, Terminated(Lines(r), '\n') + rest, broken, c) == Dialogue(Put(c, f, after), rest, false, false)
  {
    TerminatedSnoc(r.refused, r.line, '\n');
    assert Terminated(Lines(r), '\n') + rest == Terminated(r.refused, '\n') + (r.line + "\n" + rest);
    AllRefused(f, r.refused, r.line + "\n" + rest, broken, c);
    LineAnswers(f, r.line, rest, broken, c, after);
  }

  function Transcript(replies: seq<Reply>): string {
    if replies == [] then "" else Terminated(Lines(replies[0]), '\n') + Transcript(replies[1..])
  }

  ghost predicate Distinct(fields: seq<Field>) {
    forall i, j :: 0 <= i < j < |fields| ==> fields[i] != fields[j]
  }

  /** The replies turn c into t, prompt by prompt; other fields stay. */
  ghost predicate AllReplied(fields: seq<Field>, replies: seq<Reply>, c: Settings, t: Settings) {
    && |replies| <= |fields|
    && (forall i :: 0 <= i < |replies| ==> Replied(fields[i], replies[i], Get(c, fields[i]), Get(t, fields[i])))
    && forall f :: (forall i :: 0 <= i < |replies| ==> fields[i] != f) ==> Get(t, f) == Get(c, f)
  }

  lemma RestReplied(fields: seq<Field>, replies: seq<Reply>, c: Settings, t: Settings, next: Settings)
    requires AllReplied(fields, replies, c, t) && replies != [] && Distinct(fields)
    requires forall g :: Get(next, g) == if g == fields[0] then Get(t, g) else Get(c, g)
    ensures AllReplied(fields[1..], replies[1..], next, t) && Distinct(fields[1..])
  {
    forall i | 0 <= i < |replies| - 1
      ensures Replied(fields[1..][i], replies[1..][i], Get(next, fields[1..][i]), Get(t, fields[1..][i]))
    {
      assert fields[1..][i] == fields[i + 1] && fields[i + 1] != fields[0] && replies[1..][i] == replies[i + 1];
    }
    forall f | forall i :: 0 <= i < |replies| - 1 ==> fields[1..][i] != f ensures Get(t, f) == Get(next, f) {
      if f != fields[0] {
        assert forall i :: 0 < i < |replies| ==> fields[i] == fields[1..][i - 1];
        assert Get(t, f) == Get(c, f);
      }
    }
  }

  /** The configuration behind the first prompt. */
  lemma NextReplied(fields: seq<Field>, replies: seq<Reply>, c: Settings, t: Settings) returns (next: Settings)
    requires Askable(fields) && Distinct(fields) && AllReplied(fields, replies, c, t) && replies != []
    ensures Fits(fields[0], Get(t, fields[0])) && next == Put(c, fields[0], Get(t, fields[0]))
    ensures AllReplied(fields[1..], replies[1..], next, t) && Distinct(fields[1..]) && Askable(fields[1..])
  {
    var f, v := fields[0], Get(t, fields[0]);
    GetFits(t, f);
    next := Put(c, f, v);
    forall g ensures Get(next, g) == if g == f then Get(t, g) else Get(c, g) {
      GetPut(c, f, v, g);
    }
    RestReplied(fields, replies, c, t, next);
  }

  lemma FirstAnswered(fields: seq<Field>, r: Reply, more: string, broken: bool, c: Settings, next: Settings, v: Scalar)
    requires Askable(fields) && fields != [] && Replied(fields[0], r, Get(c, fields[0]), v)
    requires Fits(fields[0], v) && next == Put(c, fields[0], v)
    ensures EditAll(fields, Terminated(Lines(r), '\n') + more, broken, c) == EditAll(fields[1..], more, broken, next)
  {
    OnePrompt(fields[0], r, more, broken, c, v);
  }

  lemma NoPrompt(fields: seq<Field>, rest: string, c: Settings, t: Settings)
    requires AllReplied(fields, [], c, t)
    ensures c == t && fields[0..] == fields && Transcript([]) + rest == rest
  {
    SettingsExtensional(c, t);
  }

  lemma FirstOfAll(fields: seq<Field>, replies: seq<Reply>, rest: string, broken: bool, c: Settings, t: Settings)
    returns (next: Settings)
    requires Askable(fields) && Distinct(fields) && AllReplied(fields, replies, c, t) && replies != []
    ensures AllReplied(fields[1..], replies[1..], next, t) && Distinct(fields[1..]) && Askable(fields[1..])
    ensures EditAll(fields, Transcript(replies) + rest, broken, c)
            == EditAll(fields[1..], Transcript(replies[1..]) + rest, broken, next)
  {
    var first, more := Terminated(Lines(replies[0]), '\n'), Transcript(replies[1..]);
    next := NextReplied(fields, replies, c, t);
    FirstAnswered(fields, replies[0], more + rest, broken, c, next, Get(t, fields[0]));
    ConcatAssoc(first, more, rest);
  }

  /** The prompts that are answered; the dialogue then goes on with the fields and the input left. */
  lemma {:induction false} PromptsAnswered(fields: seq<Field>, replies: seq<Reply>, rest: string, broken: bool,
                                           c: Settings, t: Settings)
    requires Askable(fields) && Distinct(fields) && AllReplied(fields, replies, c, t)
    ensures EditAll(fields, Transcript(replies) + rest, broken, c) == EditAll(fields[|replies|..], rest, broken, t)
    decreases |replies|
  {
    if replies == [] {
      NoPrompt(fields, rest, c, t);
    } else {
      var next := FirstOfAll(fields, replies, rest, broken, c, t);
      PromptsAnswered(fields[1..], replies[1..], rest, broken, next, t);
      assert fields[1..][|replies[1..]|..] == fields[|replies|..];
    }
  }

  /** The whole dialogue: thirteen prompts in this order. */
  lemma WholeDialogue(replies: seq<Reply>, rest: string, broken: bool, c: Settings, t: Settings)
    requires |replies| == 13 && t.sshSudo == c.sshSudo
    requires Replied(Host, replies[0], Str(c.host), Str(t.host))
    requires Replied(SshUser, replies[1], Str(c.sshUser), Str(t.sshUser))
    requires Replied(SshPort, replies[2], Int(c.sshPort), Int(t.sshPort))
    requires Replied(SshKey, replies[3], Str(c.sshKey), Str(t.sshKey))
    requires Replied(SshProxyJump, replies[4], Str(c.sshProxyJump), Str(t.sshProxyJump))
    requires Replied(WgPort, replies[5], Int(c.wgPort), Int(t.wgPort))
    requires Replied(WgServerIp, replies[6], Str(c.wgServerIp), Str(t.wgServerIp))
    requires Replied(WgClientIp, replies[7], Str(c.wgClientIp), Str(t.wgClientIp))
    requires Replied(DropbearPort, replies[8], Int(c.dropbearPort), Int(t.dropbearPort))
    requires Replied(OutputDir, replies[9], Str(c.outputDir), Str(t.outputDir))
    requires Replied(NetInterface, replies[10], Str(c.netInterface), Str(t.netInterface))
    requires Replied(NetIp, replies[11], Str(c.netIp), Str(t.netIp))
    requires Replied(LuksDevice, replies[12], Str(c.luksDevice), Str(t.luksDevice))
    ensures EditAll(FIELDS, Transcript(replies) + rest, broken, c) == Dialogue(t, rest, false, false)
  {
    FieldOrder();
    forall i | 0 <= i < 13 ensures Replied(FIELDS[i], replies[i], Get(c, FIELDS[i]), Get(t, FIELDS[i])) {
      if i < 7 {
        assert i == 0 || i == 1 || i == 2 || i == 3 || i == 4 || i == 5 || i == 6;
      } else {
        assert i == 7 || i == 8 || i == 9 || i == 10 || i == 11 || i == 12;
      }
    }
    AllPrompts(FIELDS, replies, rest, broken, c, t);
  }

  lemma AllPrompts(fields: seq<Field>, replies: seq<Reply>, rest: string, broken: bool, c: Settings, t: Settings)
    requires fields == FIELDS && |replies| == |fields| && Distinct(fields) && Askable(fields) && t.sshSudo == c.sshSudo
    requires forall i :: 0 <= i < |fields| ==> Replied(fields[i], replies[i], Get(c, fields[i]), Get(t, fields[i]))
    ensures EditAll(fields, Transcript(replies) + rest, broken, c) == Dialogue(t, rest, false, false)
  {
    forall f | forall i :: 0 <= i < |fields| ==> fields[i] != f ensures Get(t, f) == Get(c, f) {
      FieldsComplete(f);
    }
    PromptsAnswered(fields, replies, rest, broken, c, t);
    assert fields[|fields|..] == [];
  }

  lemma FieldOrder()
    ensures |FIELDS| == 13 && Distinct(FIELDS) && Askable(FIELDS)
    ensures FIELDS[0] == Host && FIELDS[1] == SshUser && FIELDS[2] == SshPort && FIELDS[3] == SshKey
    ensures FIELDS[4] == SshProxyJump && FIELDS[5] == WgPort && FIELDS[6] == WgServerIp && FIELDS[7] == WgClientIp
    ensures FIELDS[8] == DropbearPort && FIELDS[9] == OutputDir && FIELDS[10] == NetInterface
    ensures FIELDS[11] == NetIp && FIELDS[12] == LuksDevice
  {
  }

  /** The input ends within a prompt, behind lines that do not fit: a last line that fits still
      counts, everything else stays, and a read error fails the dialogue. */
  lemma InputEnds(fields: seq<Field>, replies: seq<Reply>, refused: seq<string>, last: string, broken: bool,
                  c: Settings, t: Settings)
    requires Askable(fields) && Distinct(fields) && |replies| < |fields| && AllReplied(fields, replies, c, t)
    requires (forall i :: 0 <= i < |refused| ==> Refused(fields[|replies|], refused[i])) && NewlineFree(last)
    ensures var f := fields[|replies|];
            var d := EditAll(fields, Transcript(replies) + (Terminated(refused, '\n') + last), broken, c);
            if broken then d == Dialogue(t, "", false, true)
            else
              d.eof && !d.failed && d.rest == ""
              && (Refused(f, last) ==> d.settings == t)
              && forall v :: Becomes(f, last, Get(t, f), v) ==> Fits(f, v) && d.settings == Put(t, f, v)
  {
    var f, input := fields[|replies|], Terminated(refused, '\n') + last;
    PromptsAnswered(fields, replies, input, broken, c, t);
    assert fields[|replies|..][0] == f;
    AllRefused(f, refused, last, broken, t);
    IndexOfLacks(last, '\n');
    NothingFits(f, Trim(last));
    forall v | Becomes(f, last, Get(t, f), v)
      ensures Fits(f, v) && EditOne(f, last, false, t).settings == Put(t, f, v)
    {
      LastLine(f, last, t, v);
    }
  }

  lemma LastLine(f: Field, last: string, t: Settings, v: Scalar)
    requires f != SshSudo && NewlineFree(last) && Becomes(f, last, Get(t, f), v)
    ensures Fits(f, v) && EditOne(f, last, false, t) == Dialogue(Put(t, f, v), "", true, false)
  {
    BecomesFits(f, last, t, v);
    IndexOfLacks(last, '\n');
    if Trim(last) == "" {
      PutSameValue(t, f, v);
    } else {
      FittingAnswers(f, Trim(last), v);
    }
  }
}

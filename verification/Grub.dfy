/** Rewriting GRUB_CMDLINE_LINUX (internal/setup/setup.go, updateGrubContent). */
module Grub {
  import opened Text
  import opened Ipv4
  import opened NetDetect
  import opened Topology

  const KEY := "GRUB_CMDLINE_LINUX=\""

  /** The text in pieces: a value, which stands for the key, the value and its closing quote, or
      a single character outside of all values. */
  datatype Piece = Ch(c: char) | Value(v: string)

  /** A value starts here: the key at the start of a line, and a quote somewhere behind it. */
  predicate Opens(s: string, bol: bool) {
    bol && KEY <= s
  }

  predicate ValueAt(s: string, bol: bool) {
    Opens(s, bol) && IndexOf(s[|KEY|..], '"') < |s| - |KEY|
  }

  /** The matches of the regular expression, leftmost first; a value may span lines. */
  function Scan(s: string, bol: bool): seq<Piece>
    decreases |s|
  {
    if s == "" then []
    else if ValueAt(s, bol) then
      var n := IndexOf(s[|KEY|..], '"');
      [Value(s[|KEY|..][..n])] + Scan(s[|KEY|..][n + 1..], false)
    else [Ch(s[0])] + Scan(s[1..], s[0] == '\n')
  }

  function Piece1(p: Piece): string {
    match p case Ch(c) => [c] case Value(v) => KEY + v + "\""
  }

  function Render(ps: seq<Piece>): string {
    if ps == [] then "" else Piece1(ps[0]) + Render(ps[1..])
  }

  predicate HasIp(cmdline: string) {
    exists i :: 0 <= i < |Fields(cmdline)| && "ip=" <= Fields(cmdline)[i]
  }

  predicate Plain(ps: seq<Piece>) {
    forall i :: 0 <= i < |ps| ==> ps[i].Ch?
  }

  predicate SomeIp(ps: seq<Piece>) {
    exists i :: 0 <= i < |ps| && ps[i].Value? && HasIp(ps[i].v)
  }

  /** The callback of the replacement: a value that has an ip= parameter stays. */
  function Replaced(p: Piece, param: string): Piece {
    if p.Ch? || HasIp(p.v) then p else Value(Trim(p.v + " " + param))
  }

  function ReplacedAll(ps: seq<Piece>, param: string): seq<Piece> {
    seq(|ps|, i requires 0 <= i < |ps| => Replaced(ps[i], param))
  }

  function Rewritten(s: string, bol: bool, param: string): string {
    Render(ReplacedAll(Scan(s, bol), param))
  }

  function AppendedLine(param: string): string {
    "\n" + (KEY + param + "\"" + "\n")
  }

  function Update(content: string, param: string): (string, bool) {
    var ps := Scan(content, true);
    if Plain(ps) then (content + AppendedLine(param), true)
    else if SomeIp(ps) then (content, false)
    else (Rewritten(content, true, param), true)
  }

  // ----- the program

  lemma RenderCons(p: Piece, ps: seq<Piece>)
    ensures Render([p] + ps) == Piece1(p) + Render(ps)
  {
    assert ([p] + ps)[1..] == ps;
  }

  lemma ReplacedCons(p: Piece, ps: seq<Piece>, param: string)
    ensures ReplacedAll([p] + ps, param) == [Replaced(p, param)] + ReplacedAll(ps, param)
    ensures Render(ReplacedAll([p] + ps, param)) == Piece1(Replaced(p, param)) + Render(ReplacedAll(ps, param))
  {
    assert ReplacedAll([p] + ps, param) == [Replaced(p, param)] + ReplacedAll(ps, param);
    RenderCons(Replaced(p, param), ReplacedAll(ps, param));
  }

  lemma SomeIpCons(p: Piece, ps: seq<Piece>)
    ensures SomeIp([p] + ps) <==> (p.Value? && HasIp(p.v)) || SomeIp(ps)
    ensures Plain([p] + ps) <==> p.Ch? && Plain(ps)
  {
    var all := [p] + ps;
    assert forall i :: 0 <= i < |ps| ==> all[i + 1] == ps[i];
    assert forall i :: 0 < i < |all| ==> all[i] == ps[i - 1];
    assert all[0] == p;
  }

  /** ReplaceAllStringFunc with the flag that the callback captures. */
  method ReplaceAll(content: string, param: string) returns (updated: string, alreadySet: bool)
    ensures updated == Rewritten(content, true, param)
    ensures alreadySet == SomeIp(Scan(content, true))
  {
    var rest, bol := content, true;
    updated, alreadySet := "", false;
    while rest != ""
      invariant updated + Rewritten(rest, bol, param) == Rewritten(content, true, param)
      invariant alreadySet || SomeIp(Scan(rest, bol)) <==> SomeIp(Scan(content, true))
      decreases |rest|
    {
      ghost var before, was := updated, rest;
      if ValueAt(rest, bol) {
        var tail := rest[|KEY|..];
        var n := IndexOf(tail, '"');
        var existing := tail[..n];
        ReplacedCons(Value(existing), Scan(tail[n + 1..], false), param);
        SomeIpCons(Value(existing), Scan(tail[n + 1..], false));
        if HasIp(existing) {
          alreadySet := true;
          updated := updated + (KEY + existing + "\"");
        } else {
          updated := updated + (KEY + Trim(existing + " " + param) + "\"");
        }
        rest, bol := tail[n + 1..], false;
        ConcatAssoc(before, Piece1(Replaced(Value(existing), param)), Rewritten(rest, bol, param));
      } else {
        ReplacedCons(Ch(rest[0]), Scan(rest[1..], rest[0] == '\n'), param);
        SomeIpCons(Ch(rest[0]), Scan(rest[1..], rest[0] == '\n'));
        updated := updated + [rest[0]];
        rest, bol := rest[1..], rest[0] == '\n';
        ConcatAssoc(before, [was[0]], Rewritten(rest, bol, param));
      }
    }
    assert updated + "" == updated;
  }

  method UpdateGrubContent(content: string, param: string) returns (updated: string, changed: bool)
    ensures (updated, changed) == Update(content, param)
  {
    if Plain(Scan(content, true)) {
      return content + AppendedLine(param), true;
    }
    var alreadySet;
    updated, alreadySet := ReplaceAll(content, param);
    if alreadySet {
      return content, false;
    }
    return updated, true;
  }

  // ----- what a change does

  lemma Reassemble(key: string, s: string, n: nat)
    requires key <= s && n < |s| - |key| && s[|key|..][n] == '"'
    ensures s == key + s[|key|..][..n] + "\"" + s[|key|..][n + 1..]
  {
    var tail := s[|key|..];
    assert tail == tail[..n] + "\"" + tail[n + 1..];
    assert s == key + tail;
  }

  /** The pieces are the whole text. */
  lemma {:induction false} RenderScan(s: string, bol: bool)
    ensures Render(Scan(s, bol)) == s
    decreases |s|
  {
    if s == "" {
    } else if ValueAt(s, bol) {
      var tail := s[|KEY|..];
      var n := IndexOf(tail, '"');
      RenderScan(tail[n + 1..], false);
      RenderCons(Value(tail[..n]), Scan(tail[n + 1..], false));
      Reassemble(KEY, s, n);
    } else {
      RenderScan(s[1..], s[0] == '\n');
      RenderCons(Ch(s[0]), Scan(s[1..], s[0] == '\n'));
    }
  }

  /** A parameter that is one word without quotes, as the caller builds it. */
  predicate Token(param: string) {
    "ip=" <= param && SpaceFree(param) && Lacks(param, '"')
  }

  /** The tokens of a rewritten value are the old ones and the parameter. */
  lemma RewrittenTokens(v: string, param: string)
    ensures Fields(Trim(v + " " + param)) == Fields(v) + Fields(param)
  {
    FieldsTrim(v + " " + param);
    FieldsAcrossSpace(v, ' ', param);
  }

  lemma LastHasIp(words: seq<string>, param: string, cmdline: string)
    requires "ip=" <= param && Fields(cmdline) == words + [param]
    ensures HasIp(cmdline)
  {
    assert Fields(cmdline)[|words|] == param;
  }

  lemma RewrittenHasIp(v: string, param: string)
    requires Token(param)
    ensures HasIp(Trim(v + " " + param))
  {
    RewrittenTokens(v, param);
    assert param != "";
    FieldsWord(param);
    LastHasIp(Fields(v), param, Trim(v + " " + param));
  }

  lemma RewrittenLacksQuote(v: string, param: string)
    requires Lacks(v, '"') && Lacks(param, '"')
    ensures Lacks(Trim(v + " " + param), '"')
  {
    TrimLacks(v + " " + param, '"');
  }

  lemma RewrittenStep(s: string, bol: bool, param: string)
    requires s != "" && !ValueAt(s, bol)
    ensures Rewritten(s, bol, param) == [s[0]] + Rewritten(s[1..], s[0] == '\n', param)
  {
    ReplacedCons(Ch(s[0]), Scan(s[1..], s[0] == '\n'), param);
  }

  lemma PrefixCons(p: string, s: string, t: string, u: string, v: string)
    requires p != "" && s != "" && t == [s[0]] + u && p <= t
    requires p[1..] <= u ==> p[1..] <= s[1..] && u == p[1..] + v
    ensures p[0] == s[0] && p[1..] <= u && p <= s && t == p + v
  {
    assert p[0] == t[0] == s[0];
    assert u == t[1..] && p[1..] <= u;
    assert p == [p[0]] + p[1..] && s == [s[0]] + s[1..];
    ConcatAssoc([p[0]], p[1..], v);
  }

  /** A newline-free text at the start of the rewritten text was there before, and no value
      starts within it. */
  lemma {:induction false} PrefixKept(s: string, param: string, p: string)
    requires NewlineFree(p) && p <= Rewritten(s, false, param)
    ensures p <= s && Rewritten(s, false, param) == p + Rewritten(s[|p|..], false, param)
    decreases |p|
  {
    if p == "" {
      assert s[|p|..] == s;
    } else {
      assert s != "";
      RewrittenStep(s, false, param);
      var u := Rewritten(s[1..], s[0] == '\n', param);
      if p[1..] <= u && s[0] != '\n' {
        PrefixKept(s[1..], param, p[1..]);
        assert s[1..][|p[1..]|..] == s[|p|..];
      }
      assert p[0] == s[0];
      PrefixCons(p, s, Rewritten(s, false, param), u, Rewritten(s[|p|..], false, param));
    }
  }

  lemma NeedsQuote(k: string, s: string)
    requires k != "" && k[|k| - 1] == '"' && Lacks(s, '"')
    ensures !(k <= s)
  {
    if |k| <= |s| {
      assert s[..|k|][|k| - 1] == s[|k| - 1];
    }
  }

  lemma NoQuoteNotOpen(s: string, bol: bool)
    requires Lacks(s, '"')
    ensures !ValueAt(s, bol)
  {
    KeyEnds();
    NeedsQuote(KEY, s);
  }

  lemma KeyEnds()
    ensures KEY != "" && KEY[|KEY| - 1] == '"'
  {
  }

  /** Without quotes there is no value. */
  lemma {:induction false} NoQuoteNoValue(s: string, bol: bool, param: string)
    requires Lacks(s, '"')
    ensures Plain(Scan(s, bol)) && Rewritten(s, bol, param) == s
    decreases |s|
  {
    if s != "" {
      NoQuoteNotOpen(s, bol);
      NoQuoteNoValue(s[1..], s[0] == '\n', param);
      RewrittenStep(s, bol, param);
      SomeIpCons(Ch(s[0]), Scan(s[1..], s[0] == '\n'));
      assert s == [s[0]] + s[1..];
    }
  }

  lemma KeyParts()
    ensures |KEY| == 20 && KEY[0] == 'G' && NewlineFree(KEY) && Lacks(KEY[1..|KEY| - 1], '"') && KEY[|KEY| - 1] == '"'
    ensures NewlineFree(KEY[1..])
  {
  }

  /** Rewriting does not make a new value out of text outside of the values. */
  lemma NoNewValue(s: string, bol: bool, param: string)
    requires s != "" && !ValueAt(s, bol)
    ensures !ValueAt(Rewritten(s, bol, param), bol)
  {
    var t := Rewritten(s, bol, param);
    RewrittenStep(s, bol, param);
    if Opens(t, bol) {
      KeyParts();
      assert s[0] == t[0] == KEY[0];
      assert t[1..] == Rewritten(s[1..], false, param);
      assert KEY[1..] <= t[1..];
      PrefixKept(s[1..], param, KEY[1..]);
      assert KEY == [KEY[0]] + KEY[1..];
      assert KEY <= s;
      var tail := s[|KEY|..];
      assert tail == s[1..][|KEY[1..]|..];
      NoQuoteNoValue(tail, false, param);
      assert t[|KEY|..] == t[1..][|KEY[1..]|..] == tail;
    }
  }

  lemma ScanValue(v: string, rest: string, bol: bool)
    requires Lacks(v, '"') && bol
    ensures Scan(Piece1(Value(v)) + rest, bol) == [Value(v)] + Scan(rest, false)
  {
    var t := Piece1(Value(v)) + rest;
    assert t[|KEY|..] == v + ['"'] + rest;
    IndexOfAt(v, '"', rest);
    assert t[|KEY|..][..|v|] == v;
    assert t[|KEY|..][|v| + 1..] == rest;
  }

  lemma RescanValue(s: string, bol: bool, param: string, v: string, rest: string)
    requires ValueAt(s, bol) && Lacks(param, '"') && Lacks(v, '"')
    requires Scan(s, bol) == [Value(v)] + Scan(rest, false)
    requires Scan(Rewritten(rest, false, param), false) == ReplacedAll(Scan(rest, false), param)
    ensures Scan(Rewritten(s, bol, param), bol) == ReplacedAll(Scan(s, bol), param)
  {
    var p := Replaced(Value(v), param);
    RewrittenLacksQuote(v, param);
    ReplacedCons(Value(v), Scan(rest, false), param);
    ScanValue(p.v, Rewritten(rest, false, param), bol);
  }

  lemma RescanChar(s: string, bol: bool, param: string)
    requires s != "" && !ValueAt(s, bol)
    requires var next := s[0] == '\n';
             Scan(Rewritten(s[1..], next, param), next) == ReplacedAll(Scan(s[1..], next), param)
    ensures Scan(Rewritten(s, bol, param), bol) == ReplacedAll(Scan(s, bol), param)
  {
    NoNewValue(s, bol, param);
    RewrittenStep(s, bol, param);
    ReplacedCons(Ch(s[0]), Scan(s[1..], s[0] == '\n'), param);
    var t := Rewritten(s, bol, param);
    assert t[0] == s[0] && t[1..] == Rewritten(s[1..], s[0] == '\n', param);
  }

  /** The rewritten text has the rewritten pieces. */
  lemma {:induction false} Rescan(s: string, bol: bool, param: string)
    requires Lacks(param, '"')
    ensures Scan(Rewritten(s, bol, param), bol) == ReplacedAll(Scan(s, bol), param)
    decreases |s|
  {
    if s == "" {
    } else if ValueAt(s, bol) {
      var tail := s[|KEY|..];
      var n := IndexOf(tail, '"');
      Rescan(tail[n + 1..], false, param);
      RescanValue(s, bol, param, tail[..n], tail[n + 1..]);
    } else {
      Rescan(s[1..], s[0] == '\n', param);
      RescanChar(s, bol, param);
    }
  }

  /** A first change of an existing line: the characters outside the values stay, in their
      places between the values, and the tokens of each value are the old ones and the
      parameter. */
  lemma FirstChange(content: string, param: string)
    requires Lacks(param, '"') && !Plain(Scan(content, true)) && Update(content, param).1
    ensures var was, now := Scan(content, true), Scan(Update(content, param).0, true);
            && |now| == |was|
            && forall i :: 0 <= i < |was| ==>
                 if was[i].Ch? then now[i] == was[i]
                 else now[i].Value? && Fields(now[i].v) == Fields(was[i].v) + Fields(param)
  {
    var was := Scan(content, true);
    Rescan(content, true, param);
    var now := Scan(Update(content, param).0, true);
    forall i | 0 <= i < |was| && was[i].Value?
      ensures now[i].Value? && Fields(now[i].v) == Fields(was[i].v) + Fields(param)
    {
      RewrittenTokens(was[i].v, param);
    }
  }

  // ----- the matches of the regular expression

  predicate LineStart(s: string, i: nat) {
    i == 0 || (i <= |s| && s[i - 1] == '\n')
  }

  /** The key stands at the start of a line, and a quote somewhere behind it. */
  predicate MatchAt(s: string, i: nat) {
    i <= |s| && LineStart(s, i) && "GRUB_CMDLINE_LINUX=\"" <= s[i..] && !Lacks(s[i + 20..], '"')
  }

  lemma MatchIsValue(s: string, i: nat)
    requires i <= |s|
    ensures MatchAt(s, i) <==> ValueAt(s[i..], LineStart(s, i))
  {
    KeyParts();
    if KEY <= s[i..] {
      assert s[i..][|KEY|..] == s[i + |KEY|..];
      QuoteFound(s[i + |KEY|..], '"');
    }
  }

  lemma QuoteFound(s: string, c: char)
    ensures IndexOf(s, c) < |s| <==> !Lacks(s, c)
  {
    if Lacks(s, c) {
      IndexOfLacks(s, c);
    }
  }

  function ValueText(s: string, i: nat): string
    requires MatchAt(s, i)
  {
    s[i + 20..][..IndexOf(s[i + 20..], '"')]
  }

  function MatchEnd(s: string, i: nat): (e: nat)
    requires MatchAt(s, i)
    ensures i < e <= |s|
  {
    QuoteFound(s[i + 20..], '"');
    i + 20 + |ValueText(s, i)| + 1
  }

  /** Leftmost matches that do not overlap: one that starts within an earlier one does not count. */
  ghost predicate Taken(s: string, i: nat)
    decreases i
  {
    MatchAt(s, i) && forall j: nat :: j < i && MatchAt(s, j) && Taken(s, j) ==> MatchEnd(s, j) <= i
  }

  /** No taken match reaches over this place. */
  ghost predicate Boundary(s: string, at: nat) {
    forall j: nat :: j < at && Taken(s, j) ==> MatchEnd(s, j) <= at
  }

  /** The pieces walk over the text from here to its end, with a value exactly where a match is
      taken and a character everywhere else. */
  ghost predicate Pieces(s: string, at: nat, ps: seq<Piece>)
    decreases |ps|
  {
    if ps == [] then at == |s|
    else
      match ps[0]
      case Ch(c) => at < |s| && s[at] == c && !Taken(s, at) && Pieces(s, at + 1, ps[1..])
      case Value(v) => Taken(s, at) && v == ValueText(s, at) && Pieces(s, MatchEnd(s, at), ps[1..])
  }

  lemma TakenHere(s: string, at: nat)
    requires at <= |s| && Boundary(s, at)
    ensures Taken(s, at) <==> MatchAt(s, at)
  {
  }

  lemma TakenApart(s: string, i: nat, j: nat)
    requires i < j && Taken(s, i) && Taken(s, j)
    ensures MatchEnd(s, i) <= j
  {
  }

  lemma BoundaryNext(s: string, at: nat)
    requires at < |s| && Boundary(s, at)
    ensures Taken(s, at) ==> Boundary(s, MatchEnd(s, at)) && !LineStart(s, MatchEnd(s, at))
    ensures !Taken(s, at) ==> Boundary(s, at + 1)
  {
    if Taken(s, at) {
      QuoteFound(s[at + 20..], '"');
      assert s[at + 20..][|ValueText(s, at)|] == s[MatchEnd(s, at) - 1];
      forall j: nat | at < j && Taken(s, j) ensures MatchEnd(s, at) <= j {
        TakenApart(s, at, j);
      }
    }
  }

  /** The scan finds every match that counts and nothing else. */
  lemma {:induction false} ScanPieces(s: string, at: nat)
    requires at <= |s| && Boundary(s, at)
    ensures Pieces(s, at, Scan(s[at..], LineStart(s, at)))
    decreases |s| - at
  {
    if at < |s| {
      TakenHere(s, at);
      MatchIsValue(s, at);
      BoundaryNext(s, at);
      KeyParts();
      if Taken(s, at) {
        var e := MatchEnd(s, at);
        assert s[at..][|KEY|..] == s[at + |KEY|..];
        assert s[at..][|KEY|..][|ValueText(s, at)| + 1..] == s[e..];
        ScanPieces(s, e);
      } else {
        assert s[at..][1..] == s[at + 1..];
        ScanPieces(s, at + 1);
      }
    }
  }

  /** A match whose value holds a whole word that starts with ip=. */
  ghost predicate TakenWithIp(s: string, i: nat) {
    Taken(s, i)
    && exists k :: 0 <= k < |Fields(ValueText(s, i))| && var w := Fields(ValueText(s, i))[k];
                   |w| >= 3 && w[0] == 'i' && w[1] == 'p' && w[2] == '='
  }

  lemma StartsWithIp(w: string)
    ensures "ip=" <= w <==> |w| >= 3 && w[0] == 'i' && w[1] == 'p' && w[2] == '='
  {
    if |w| >= 3 && w[0] == 'i' && w[1] == 'p' && w[2] == '=' {
      assert w[..3] == "ip=";
    }
  }

  lemma TakenHasIp(s: string, i: nat)
    ensures TakenWithIp(s, i) <==> Taken(s, i) && HasIp(ValueText(s, i))
  {
    if Taken(s, i) {
      var words := Fields(ValueText(s, i));
      forall k | 0 <= k < |words|
        ensures "ip=" <= words[k] <==>
                |words[k]| >= 3 && words[k][0] == 'i' && words[k][1] == 'p' && words[k][2] == '='
      {
        StartsWithIp(words[k]);
      }
    }
  }

  lemma NoneBehind(s: string)
    ensures forall i: nat :: |s| <= i ==> !Taken(s, i)
  {
    KeyEnds();
    assert s[|s|..] == "";
  }

  /** From one piece to the next no match is taken but the one that starts there. */
  lemma TakenFrom(s: string, at: nat, next: nat)
    requires at < |s| && next == if Taken(s, at) then MatchEnd(s, at) else at + 1
    ensures forall i: nat :: at < i < next ==> !Taken(s, i)
  {
    forall i: nat | at < i && Taken(s, at) && Taken(s, i) ensures next <= i {
      TakenApart(s, at, i);
    }
  }

  /** Values with an ip= word in the pieces are taken matches with one in the text. */
  lemma {:induction false} PiecesWithIp(s: string, at: nat, ps: seq<Piece>)
    requires at <= |s| && Pieces(s, at, ps)
    ensures SomeIp(ps) <==> exists i: nat :: at <= i && TakenWithIp(s, i)
    ensures Plain(ps) <==> forall i: nat :: at <= i ==> !Taken(s, i)
    decreases |ps|
  {
    if ps == [] {
      NoneBehind(s);
    } else {
      var next := if ps[0].Ch? then at + 1 else MatchEnd(s, at);
      PiecesWithIp(s, next, ps[1..]);
      TakenFrom(s, at, next);
      assert ps == [ps[0]] + ps[1..];
      SomeIpCons(ps[0], ps[1..]);
      TakenHasIp(s, at);
      assert ps[0].Value? && HasIp(ps[0].v) <==> TakenWithIp(s, at);
      assert forall i: nat :: at <= i ==> i == at || i >= next || !Taken(s, i);
    }
  }

  /** Nothing is changed exactly when the value of some match has an ip= parameter as a whole
      word, and the text is then returned as it was; a line is appended exactly when there is no
      match at all. */
  lemma UnchangedWhen(content: string, param: string)
    ensures !Update(content, param).1 <==> exists i: nat :: TakenWithIp(content, i)
    ensures !Update(content, param).1 ==> Update(content, param).0 == content
    ensures (forall i: nat :: !Taken(content, i)) ==>
              Update(content, param) == (content + ("\n" + ("GRUB_CMDLINE_LINUX=\"" + param + "\"" + "\n")), true)
  {
    ScanPieces(content, 0);
    assert content[0..] == content;
    PiecesWithIp(content, 0, Scan(content, true));
    assert Plain(Scan(content, true)) ==> !SomeIp(Scan(content, true));
  }

  // ----- idempotence

  /** What follows an opening key that no quote closes; there is at most one. */
  function Unclosed(s: string, bol: bool): Option<string>
    decreases |s|
  {
    if s == "" then None
    else if ValueAt(s, bol) then Unclosed(s[|KEY|..][IndexOf(s[|KEY|..], '"') + 1..], false)
    else if Opens(s, bol) then Some(s[|KEY|..])
    else Unclosed(s[1..], s[0] == '\n')
  }

  /** A text without line ends does not run over the end of a line. */
  lemma NotAcross(k: string, s: string, z: string)
    requires NewlineFree(k) && z != "" && z[0] == '\n'
    ensures k <= s + z <==> k <= s
  {
    var t := s + z;
    if |k| <= |s| {
      assert t[..|k|] == s[..|k|];
    } else if |k| <= |t| {
      assert t[..|k|][|s|] == '\n';
    }
  }

  lemma OpensExtends(s: string, z: string, bol: bool)
    requires z != "" && z[0] == '\n'
    ensures Opens(s + z, bol) <==> Opens(s, bol)
  {
    KeyParts();
    NotAcross(KEY, s, z);
  }

  /** A line put behind a text with neither values nor an open key is read on its own. */
  lemma {:induction false} ScanAppended(s: string, z: string, bol: bool)
    requires z != "" && z[0] == '\n' && Plain(Scan(s, bol)) && Unclosed(s, bol) == None
    ensures Scan(s + z, bol) == Scan(s, bol) + Scan(z, false)
    decreases |s|
  {
    KeyParts();
    if s == "" {
      assert s + z == z;
      assert !ValueAt(z, bol) && !ValueAt(z, false);
      assert [] + Scan(z, false) == Scan(z, false);
    } else {
      assert !ValueAt(s, bol) by {
        if ValueAt(s, bol) {
          assert Scan(s, bol)[0].Value?;
        }
      }
      OpensExtends(s, z, bol);
      var rest := Scan(s[1..], s[0] == '\n');
      SomeIpCons(Ch(s[0]), rest);
      ScanAppended(s[1..], z, s[0] == '\n');
      assert (s + z)[1..] == s[1..] + z;
      ConcatAssoc([Ch(s[0])], rest, Scan(z, false));
    }
  }

  /** An open key takes the text up to the first quote of what is put behind. */
  lemma ScanClosedHere(s: string, z: string, n: nat)
    requires KEY <= s && Lacks(s[|KEY|..], '"') && n == IndexOf(z, '"') < |z|
    ensures Scan(s + z, true) == [Value(s[|KEY|..] + z[..n])] + Scan(z[n + 1..], false)
  {
    var tail := s[|KEY|..];
    assert Lacks(tail + z[..n], '"');
    ScanValue(tail + z[..n], z[n + 1..], true);
    JoinKey(KEY, s, z, n);
  }

  lemma JoinKey(key: string, s: string, z: string, n: nat)
    requires key <= s && n < |z| && z[n] == '"'
    ensures s + z == key + (s[|key|..] + z[..n]) + "\"" + z[n + 1..]
  {
    assert s == key + s[|key|..];
    assert z == z[..n] + "\"" + z[n + 1..];
  }

  /** What the appended text z makes of the open key in s. */
  ghost predicate ClosedBy(s: string, z: string, bol: bool, n: nat, head: seq<Piece>)
    requires n < |z| && Unclosed(s, bol).Some?
  {
    Plain(head) && Scan(s + z, bol) == head + ([Value(Unclosed(s, bol).value + z[..n])] + Scan(z[n + 1..], false))
  }

  lemma {:induction false} ScanClosed(s: string, z: string, bol: bool, n: nat) returns (head: seq<Piece>)
    requires z != "" && z[0] == '\n' && n == IndexOf(z, '"') < |z| && Plain(Scan(s, bol)) && Unclosed(s, bol).Some?
    ensures ClosedBy(s, z, bol, n, head)
    decreases |s|
  {
    assert s != "";
    assert !ValueAt(s, bol) by {
      assert ValueAt(s, bol) ==> Scan(s, bol)[0].Value?;
    }
    if Opens(s, bol) {
      head := [];
      ScanClosedHere(s, z, n);
      EmptyHead(s + z, Scan(s + z, bol));
    } else {
      var c, next := s[0], s[0] == '\n';
      SomeIpCons(Ch(c), Scan(s[1..], next));
      var h := ScanClosed(s[1..], z, next, n);
      OpensExtends(s, z, bol);
      ScanStep(s, z, bol);
      head := [Ch(c)] + h;
      ConcatAssoc([Ch(c)], h, [Value(Unclosed(s, bol).value + z[..n])] + Scan(z[n + 1..], false));
      SomeIpCons(Ch(c), h);
    }
  }

  lemma EmptyHead(s: string, ps: seq<Piece>)
    ensures [] + ps == ps && Plain([])
  {
  }

  lemma ScanStep(s: string, z: string, bol: bool)
    requires s != "" && !Opens(s + z, bol)
    ensures Scan(s + z, bol) == [Ch(s[0])] + Scan(s[1..] + z, s[0] == '\n')
  {
    assert (s + z)[1..] == s[1..] + z;
  }

  /** The rest of a line holds no value. */
  lemma {:induction false} NoValueInLine(w: string)
    requires NewlineFree(w)
    ensures Plain(Scan(w + "\n", false))
    decreases |w|
  {
    var s := w + "\n";
    if w == "" {
      assert s[1..] == "";
      SomeIpCons(Ch(s[0]), Scan("", true));
    } else {
      assert s[1..] == w[1..] + "\n";
      assert s[0] == w[0];
      NoValueInLine(w[1..]);
      SomeIpCons(Ch(s[0]), Scan(s[1..], false));
    }
  }

  lemma ScanLineEnd()
    ensures Scan("\n", false) == [Ch('\n')]
  {
    assert "\n"[1..] == "";
  }

  /** The line that is appended, read on its own. */
  lemma ScanAppendedLine(param: string)
    requires Token(param)
    ensures Scan(AppendedLine(param), false) == [Ch('\n'), Value(param), Ch('\n')]
  {
    var z := AppendedLine(param);
    var line := Piece1(Value(param)) + "\n";
    ScanStep("\n", line, false);
    assert "\n"[1..] + line == line;
    ScanValue(param, "\n", true);
    ScanLineEnd();
    assert [Ch('\n')] + ([Value(param)] + [Ch('\n')]) == [Ch('\n'), Value(param), Ch('\n')];
  }

  lemma SomeIpMiddle(head: seq<Piece>, v: string, tail: seq<Piece>)
    requires Plain(head) && Plain(tail)
    ensures var ps := head + [Value(v)] + tail;
            !Plain(ps) && (SomeIp(ps) <==> HasIp(v))
  {
    var ps := head + [Value(v)] + tail;
    assert ps[|head|] == Value(v);
    assert forall i :: 0 <= i < |head| ==> ps[i] == head[i];
    assert forall i :: |head| < i < |ps| ==> ps[i] == tail[i - |head| - 1];
  }

  /** Where the quote of the appended line is. */
  lemma AppendedQuote(param: string)
    ensures var z := AppendedLine(param);
            z[0] == '\n' && IndexOf(z, '"') == |KEY| && z[..|KEY|] == "\n" + KEY[..|KEY| - 1]
            && z[|KEY| + 1..] == param + "\"" + "\n"
  {
    KeyParts();
    var z := AppendedLine(param);
    var name := "\n" + KEY[..|KEY| - 1];
    assert KEY == KEY[..|KEY| - 1] + ['"'];
    assert z == name + ['"'] + (param + "\"" + "\n");
    assert Lacks(KEY[..|KEY| - 1], '"') by {
      assert forall i :: 1 <= i < |KEY| - 1 ==> KEY[i] == KEY[1..|KEY| - 1][i - 1];
    }
    IndexOfAt(name, '"', param + "\"" + "\n");
    assert z[..|KEY|] == name;
  }

  lemma OtherWord(tail: string, name: string)
    requires name != "" && SpaceFree(name) && !("ip=" <= name)
    ensures HasIp(tail + ("\n" + name)) <==> HasIp(tail)
  {
    FieldsAcrossSpace(tail, '\n', name);
    assert tail + "\n" + name == tail + ("\n" + name);
    FieldsWord(name);
    var f, words := Fields(tail + ("\n" + name)), Fields(tail);
    assert f == words + [name];
    assert forall i :: 0 <= i < |words| ==> f[i] == words[i];
  }

  /** The value that an open key becomes has an ip= parameter exactly when its text had one. */
  lemma ClosedTokens(tail: string)
    ensures HasIp(tail + ("\n" + KEY[..|KEY| - 1])) <==> HasIp(tail)
  {
    NameIsWord();
    OtherWord(tail, KEY[..|KEY| - 1]);
  }

  lemma NameIsWord()
    ensures KEY[..|KEY| - 1] != "" && SpaceFree(KEY[..|KEY| - 1]) && !("ip=" <= KEY[..|KEY| - 1])
  {
    assert KEY[..|KEY| - 1][0] == 'G';
  }

  /** A second update changes nothing exactly when there was a value to begin with, or no key was
      left open, or the text behind the open key already had an ip= parameter. */
  lemma SecondUpdate(content: string, param: string)
    requires Token(param)
    ensures var once := Update(content, param).0;
            Update(once, param) == (once, false) <==>
              !Plain(Scan(content, true)) || Unclosed(content, true) == None || HasIp(Unclosed(content, true).value)
  {
    var ps := Scan(content, true);
    if !Plain(ps) {
      if !SomeIp(ps) {
        Rescan(content, true, param);
        var i :| 0 <= i < |ps| && ps[i].Value?;
        RewrittenHasIp(ps[i].v, param);
        var now := ReplacedAll(ps, param);
        assert now[i].Value? && HasIp(now[i].v);
      }
    } else {
      AfterAppending(content, param);
    }
  }

  lemma AfterAppendingApart(content: string, param: string)
    requires Token(param) && Plain(Scan(content, true)) && Unclosed(content, true) == None
    ensures var ps := Scan(content + AppendedLine(param), true); !Plain(ps) && SomeIp(ps)
  {
    var z := AppendedLine(param);
    AppendedQuote(param);
    ScanAppended(content, z, true);
    ScanAppendedLine(param);
    var head := Scan(content, true) + [Ch('\n')];
    Spread(Scan(content, true), Ch('\n'), Value(param), Ch('\n'));
    SomeIpMiddle(head, param, [Ch('\n')]);
    TokenHasIp(param);
  }

  lemma Spread(ps: seq<Piece>, a: Piece, b: Piece, c: Piece)
    ensures ps + [a, b, c] == ps + [a] + [b] + [c]
  {
  }

  lemma TokenHasIp(param: string)
    requires Token(param)
    ensures HasIp(param)
  {
    assert param != "";
    FieldsWord(param);
    LastHasIp([], param, param);
  }

  lemma AfterAppendingInside(content: string, param: string)
    requires Token(param) && Plain(Scan(content, true)) && Unclosed(content, true).Some?
    ensures var ps := Scan(content + AppendedLine(param), true);
            !Plain(ps) && (SomeIp(ps) <==> HasIp(Unclosed(content, true).value))
  {
    var z := AppendedLine(param);
    AppendedQuote(param);
    var open, n := Unclosed(content, true), IndexOf(z, '"');
    var head := ScanClosed(content, z, true, n);
    ConcatAssoc(head, [Value(open.value + z[..n])], Scan(z[n + 1..], false));
    assert IsSpace('\n');
    NoValueInLine(param + "\"");
    SomeIpMiddle(head, open.value + z[..n], Scan(z[n + 1..], false));
    ClosedTokens(open.value);
  }

  lemma AfterAppending(content: string, param: string)
    requires Token(param) && Plain(Scan(content, true))
    ensures var ps := Scan(content + AppendedLine(param), true);
            !Plain(ps) && (SomeIp(ps) <==> Unclosed(content, true) == None || HasIp(Unclosed(content, true).value))
  {
    if Unclosed(content, true) == None {
      AfterAppendingApart(content, param);
    } else {
      AfterAppendingInside(content, param);
    }
  }

  // ----- the parameter the program uses

  function IpParam(n: Net, netmask: string): string {
    "ip=" + (n.ip + ("::" + (n.gateway + (":" + (netmask + (":" + (n.hostname + (":" + (n.iface + ":none")))))))))
  }

  predicate ParamChar(c: char) {
    'a' <= c <= 'z' || 'A' <= c <= 'Z' || '0' <= c <= '9' || c == '.' || c == '-' || c == '_' || c == ':' || c == '='
  }

  predicate ParamChars(s: string) {
    forall i :: 0 <= i < |s| ==> ParamChar(s[i])
  }

  lemma IpParamChars(s: string)
    requires ParseIp(s).Some?
    ensures ParamChars(s)
  {
    IpChars(s);
  }

  lemma JoinChars(a: string, b: string, c: string)
    requires ParamChars(a) && ParamChars(b) && ParamChars(c)
    ensures ParamChars(a + (b + c))
  {
  }

  lemma ParamCharsToken(param: string)
    requires ParamChars(param) && "ip=" <= param
    ensures Token(param)
  {
    assert forall c :: ParamChar(c) ==> !IsSpace(c) && c != '"';
  }

  /** The parameter made of checked fields is one word without quotes. */
  lemma IpParamIsToken(n: Net)
    requires ParseIp(n.ip).Some? && ParseIp(n.gateway).Some? && n.prefix <= 32
    requires ValidHostname(n.hostname) && ValidInterfaceName(n.iface)
    ensures Token(IpParam(n, PrefixToNetmask(n.prefix)))
  {
    var netmask := PrefixToNetmask(n.prefix);
    IpParamChars(n.ip);
    IpParamChars(n.gateway);
    NetmaskNumber(n.prefix);
    IpParamChars(netmask);
    var s1 := n.iface + ":none";
    JoinChars(":", n.iface, ":none");
    JoinChars(":", n.hostname, ":" + s1);
    JoinChars(":", netmask, ":" + (n.hostname + (":" + s1)));
    JoinChars("::", n.gateway, ":" + (netmask + (":" + (n.hostname + (":" + s1)))));
    JoinChars("ip=", n.ip, "::" + (n.gateway + (":" + (netmask + (":" + (n.hostname + (":" + s1)))))));
    ParamCharsToken(IpParam(n, netmask));
  }

  lemma AddressColonFree(s: string)
    requires ParseIp(s).Some?
    ensures Lacks(s, ':')
  {
    IpChars(s);
  }

  lemma MaskColonFree(prefix: nat)
    requires prefix <= 32
    ensures Lacks(PrefixToNetmask(prefix), ':')
  {
    NetmaskNumber(prefix);
    AddressColonFree(PrefixToNetmask(prefix));
  }

  lemma NamesColonFree(hostname: string, iface: string)
    requires ValidHostname(hostname) && ValidInterfaceName(iface)
    ensures Lacks(hostname, ':') && Lacks(iface, ':')
  {
  }

  lemma TwoFields(a: string, b: string)
    requires Lacks(a, ':') && Lacks(b, ':')
    ensures Split(a + ":" + b, ':') == [a, b]
  {
    SplitLast(b, ':');
    SplitFirst(a, ':', b);
  }

  lemma OneMoreField(a: string, rest: string, parts: seq<string>, all: seq<string>)
    requires Lacks(a, ':') && Split(rest, ':') == parts && all == [a] + parts
    ensures Split(a + ":" + rest, ':') == all
  {
    SplitFirst(a, ':', rest);
  }

  lemma FourFields(a: string, b: string, c: string, d: string)
    requires Lacks(a, ':') && Lacks(b, ':') && Lacks(c, ':') && Lacks(d, ':')
    ensures Split(a + ":" + (b + ":" + (c + ":" + d)), ':') == [a, b, c, d]
  {
    var cd := c + ":" + d;
    TwoFields(c, d);
    OneMoreField(b, cd, [c, d], [b, c, d]);
    OneMoreField(a, b + ":" + cd, [b, c, d], [a, b, c, d]);
  }

  lemma ThreeMoreFields(a: string, b: string, c: string, rest: string, parts: seq<string>)
    requires Lacks(a, ':') && Lacks(b, ':') && Lacks(c, ':') && Split(rest, ':') == parts
    ensures Split(a + ":" + (b + ":" + (c + ":" + rest)), ':') == [a] + ([b] + ([c] + parts))
  {
    OneMoreField(c, rest, parts, [c] + parts);
    OneMoreField(b, c + ":" + rest, [c] + parts, [b] + ([c] + parts));
    OneMoreField(a, b + ":" + (c + ":" + rest), [b] + ([c] + parts), [a] + ([b] + ([c] + parts)));
  }

  lemma SevenFields(a: string, b: string, c: string, d: string, e: string, f: string)
    requires Lacks(a, ':') && Lacks(b, ':') && Lacks(c, ':') && Lacks(d, ':') && Lacks(e, ':') && Lacks(f, ':')
    ensures Split(a + ":" + ("" + ":" + (b + ":" + (c + ":" + (d + ":" + (e + ":" + f))))), ':')
            == [a, "", b, c, d, e, f]
  {
    FourFields(c, d, e, f);
    ThreeMoreFields(a, "", b, c + ":" + (d + ":" + (e + ":" + f)), [c, d, e, f]);
    assert [a] + ([""] + ([b] + [c, d, e, f])) == [a, "", b, c, d, e, f];
  }

  lemma Colons(a: string, b: string, c: string, d: string, e: string, f: string)
    ensures a + (":" + ":" + (b + (":" + (c + (":" + (d + (":" + (e + (":" + f)))))))))
            == a + ":" + ("" + ":" + (b + ":" + (c + ":" + (d + ":" + (e + ":" + f)))))
  {
  }

  /** The parameter as the kernel reads it: client, no server, gateway, netmask, host name,
      device, and no autoconfiguration. */
  lemma IpParamFields(n: Net)
    requires ParseIp(n.ip).Some? && ParseIp(n.gateway).Some? && n.prefix <= 32
    requires ValidHostname(n.hostname) && ValidInterfaceName(n.iface)
    ensures var param := IpParam(n, PrefixToNetmask(n.prefix));
            && "ip=" <= param
            && Split(param[3..], ':') ==
               [n.ip, "", n.gateway, PrefixToNetmask(n.prefix), n.hostname, n.iface, "none"]
  {
    var netmask := PrefixToNetmask(n.prefix);
    var param := IpParam(n, netmask);
    AddressColonFree(n.ip);
    AddressColonFree(n.gateway);
    MaskColonFree(n.prefix);
    NamesColonFree(n.hostname, n.iface);
    SevenFields(n.ip, n.gateway, netmask, n.hostname, n.iface, "none");
    Colons(n.ip, n.gateway, netmask, n.hostname, n.iface, "none");
    assert "::" == ":" + ":" && ":none" == ":" + "none";
    assert param[3..] ==
      n.ip + ("::" + (n.gateway + (":" + (netmask + (":" + (n.hostname + (":" + (n.iface + ":none"))))))));
  }
}

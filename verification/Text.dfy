/** Text handling shared by every component: the parts of Go's `strings` package
    the repository relies on, with the laws the other modules need.

    A text is a sequence of Unicode scalar values, that is, well-formed UTF-8. */
module Text {

  datatype Option<+T> = None | Some(value: T)

  datatype Result<+T, +E> = Ok(value: T) | Err(error: E)

  /** unicode.IsSpace, the white space that strings.TrimSpace and strings.Fields use. */
  predicate IsSpace(c: char) {
    || '\t' <= c <= '\r' || c == ' '
    || c == '\U{0085}' || c == '\U{00A0}' || c == '\U{1680}'
    || '\U{2000}' <= c <= '\U{200A}'
    || c == '\U{2028}' || c == '\U{2029}' || c == '\U{202F}' || c == '\U{205F}' || c == '\U{3000}'
  }

  predicate Blank(s: string) {
    forall i :: 0 <= i < |s| ==> IsSpace(s[i])
  }

  predicate SpaceFree(s: string) {
    forall i :: 0 <= i < |s| ==> !IsSpace(s[i])
  }

  predicate Trimmed(s: string) {
    s != "" ==> !IsSpace(s[0]) && !IsSpace(s[|s| - 1])
  }

  predicate Lacks(s: string, c: char) {
    forall i :: 0 <= i < |s| ==> s[i] != c
  }

  predicate NewlineFree(s: string) {
    Lacks(s, '\n')
  }

  /** A line of the form "key = value". */
  function KeyLine(key: string, value: string): string {
    key + " = " + value
  }

  // ----- strings.TrimSpace

  function TrimLeft(s: string): string {
    if s != "" && IsSpace(s[0]) then TrimLeft(s[1..]) else s
  }

  function TrimRight(s: string): string {
    if s != "" && IsSpace(s[|s| - 1]) then TrimRight(s[..|s| - 1]) else s
  }

  function Trim(s: string): string {
    TrimRight(TrimLeft(s))
  }

  /** Where the left trim cuts. */
  lemma {:induction false} TrimLeftCut(s: string) returns (k: nat)
    ensures k <= |s| && Blank(s[..k]) && TrimLeft(s) == s[k..]
    ensures forall i :: 0 <= i < k ==> IsSpace(s[i])
    ensures k < |s| ==> !IsSpace(s[k])
  {
    if s != "" && IsSpace(s[0]) {
      var j := TrimLeftCut(s[1..]);
      k := j + 1;
      assert s[..k] == [s[0]] + s[1..][..j];
    } else {
      k := 0;
    }
  }

  lemma {:induction false} TrimRightCut(s: string) returns (k: nat)
    ensures k <= |s| && Blank(s[k..]) && TrimRight(s) == s[..k]
    ensures forall i :: k <= i < |s| ==> IsSpace(s[i])
    ensures k > 0 ==> !IsSpace(s[k - 1])
  {
    if s != "" && IsSpace(s[|s| - 1]) {
      k := TrimRightCut(s[..|s| - 1]);
      assert s[k..] == s[..|s| - 1][k..] + [s[|s| - 1]];
      assert s[..|s| - 1][..k] == s[..k];
    } else {
      k := |s|;
      assert s[..k] == s;
    }
  }

  /** Trimming splits a text into a blank head, its trimmed core and a blank tail. */
  lemma TrimSplit(s: string) returns (head: string, tail: string)
    ensures s == head + Trim(s) + tail
    ensures Blank(head) && Blank(tail) && Trimmed(Trim(s))
  {
    var i := TrimLeftCut(s);
    var t := s[i..];
    var j := TrimRightCut(t);
    head, tail := s[..i], t[j..];
    assert t == t[..j] + tail;
    assert s == head + t;
    if t[..j] != "" {
      assert t[..j][0] == t[0] == s[i];
    }
  }

  lemma {:induction false} TrimLeftDrops(head: string, t: string)
    requires Blank(head)
    requires t != "" ==> !IsSpace(t[0])
    ensures TrimLeft(head + t) == t
  {
    if head == "" {
      assert head + t == t;
    } else {
      assert (head + t)[1..] == head[1..] + t;
      TrimLeftDrops(head[1..], t);
    }
  }

  lemma {:induction false} TrimRightDrops(t: string, tail: string)
    requires Blank(tail)
    requires t != "" ==> !IsSpace(t[|t| - 1])
    ensures TrimRight(t + tail) == t
  {
    if tail == "" {
      assert t + tail == t;
    } else {
      assert (t + tail)[..|t + tail| - 1] == t + tail[..|tail| - 1];
      TrimRightDrops(t, tail[..|tail| - 1]);
    }
  }

  /** The core of a text is the only trimmed text between two blank ends. */
  lemma TrimUnique(head: string, t: string, tail: string)
    requires Blank(head) && Blank(tail) && Trimmed(t)
    ensures Trim(head + t + tail) == t
  {
    if t == "" {
      assert head + t + tail == (head + tail) + "";
      TrimLeftDrops(head + tail, "");
    } else {
      assert head + t + tail == head + (t + tail);
      TrimLeftDrops(head, t + tail);
      TrimRightDrops(t, tail);
    }
  }

  lemma TrimOfTrimmed(t: string)
    requires Trimmed(t)
    ensures Trim(t) == t
  {
    TrimUnique("", t, "");
    assert "" + t + "" == t;
  }

  /** A text that starts with something visible loses white space behind only. */
  lemma TrimTailOnly(s: string) returns (tail: string)
    requires s == "" || !IsSpace(s[0])
    ensures s == Trim(s) + tail && Blank(tail) && Trimmed(Trim(s))
  {
    assert TrimLeft(s) == s;
    var k := TrimRightCut(s);
    tail := s[k..];
  }

  lemma TrimHeadOnly(s: string) returns (head: string)
    requires s == "" || !IsSpace(s[|s| - 1])
    ensures s == head + Trim(s) && Blank(head) && Trimmed(Trim(s))
  {
    var i := TrimLeftCut(s);
    head := s[..i];
    assert TrimRight(s[i..]) == s[i..];
  }

  /** Trimming keeps only characters of the text. */
  lemma TrimLacks(s: string, c: char)
    requires Lacks(s, c)
    ensures Lacks(Trim(s), c)
  {
    var head, tail := TrimSplit(s);
    forall i | 0 <= i < |Trim(s)| ensures Trim(s)[i] != c {
      assert s[|head| + i] == Trim(s)[i];
    }
  }

  /** A text that is not blank starts, once trimmed on the left, where it did before anything
      was put behind it. */
  lemma {:induction false} TrimLeftExtends(a: string, b: string)
    ensures TrimLeft(a + b) == if Blank(a) then TrimLeft(b) else TrimLeft(a) + b
  {
    if a == "" {
      assert a + b == b;
    } else if IsSpace(a[0]) {
      assert (a + b)[1..] == a[1..] + b;
      TrimLeftExtends(a[1..], b);
      assert Blank(a) <==> Blank(a[1..]);
    }
  }

  /** Trimming on both sides keeps the first character of the left-trimmed text. */
  lemma TrimStart(s: string)
    ensures Trim(s) == "" <==> Blank(s)
    ensures !Blank(s) ==> TrimLeft(s) != "" && Trim(s)[0] == TrimLeft(s)[0] && !IsSpace(Trim(s)[0])
  {
    var i := TrimLeftCut(s);
    var t := s[i..];
    var j := TrimRightCut(t);
    assert s == s[..i] + t && t == t[..j] + t[j..];
    if i < |s| {
      assert t[0] == s[i];
    }
  }

  /** Trimming never drops a character that is not white space. */
  lemma TrimKeeps(s: string, c: char)
    requires !IsSpace(c) && !Lacks(s, c)
    ensures !Lacks(Trim(s), c)
  {
    var head, tail := TrimSplit(s);
    var i :| 0 <= i < |s| && s[i] == c;
    assert forall k :: 0 <= k < |head| ==> s[k] == head[k];
    assert forall k :: |head| + |Trim(s)| <= k < |s| ==> s[k] == tail[k - |head| - |Trim(s)|];
    assert Trim(s)[i - |head|] == c;
  }

  // ----- strings.IndexByte

  /** The first position of c in s, or |s| when there is none. */
  function IndexOf(s: string, c: char): (i: nat)
    ensures i <= |s| && forall k :: 0 <= k < i ==> s[k] != c
    ensures i < |s| ==> s[i] == c
  {
    if s == "" || s[0] == c then 0 else IndexOf(s[1..], c) + 1
  }

  lemma IndexOfAt(a: string, c: char, b: string)
    requires Lacks(a, c)
    ensures IndexOf(a + [c] + b, c) == |a|
  {
    var s := a + [c] + b;
    var i := IndexOf(s, c);
    assert forall k :: 0 <= k < |a| ==> s[k] == a[k];
    assert s[|a|] == c;
  }

  /** The first occurrence stays the first when text is put behind. */
  lemma IndexOfExtends(a: string, b: string, c: char)
    requires IndexOf(a, c) < |a|
    ensures IndexOf(a + b, c) == IndexOf(a, c)
  {
    var i := IndexOf(a, c);
    IndexOfAt(a[..i], c, a[i + 1..] + b);
    assert a + b == a[..i] + [c] + (a[i + 1..] + b);
  }

  lemma IndexOfLacks(s: string, c: char)
    requires Lacks(s, c)
    ensures IndexOf(s, c) == |s|
  {
  }

  // ----- strings.Split on a one-character separator

  function Split(s: string, sep: char): (parts: seq<string>)
    ensures |parts| >= 1
    decreases |s|
  {
    var i := IndexOf(s, sep);
    if i == |s| then [s] else [s[..i]] + Split(s[i + 1..], sep)
  }

  lemma {:induction false} SplitPartsLack(s: string, sep: char)
    ensures forall i :: 0 <= i < |Split(s, sep)| ==> Lacks(Split(s, sep)[i], sep)
    decreases |s|
  {
    var i := IndexOf(s, sep);
    if i < |s| {
      SplitPartsLack(s[i + 1..], sep);
    } else {
      assert s[..i] == s;
    }
  }

  /** Every character of a text is a separator or stands in one of its parts. */
  lemma {:induction false} SplitCovers(s: string, sep: char, i: nat) returns (k: nat, j: nat)
    requires i < |s| && s[i] != sep
    ensures k < |Split(s, sep)| && j < |Split(s, sep)[k]| && Split(s, sep)[k][j] == s[i]
    decreases |s|
  {
    var at := IndexOf(s, sep);
    if i < at {
      k, j := 0, i;
    } else {
      var rest := s[at + 1..];
      k, j := SplitCovers(rest, sep, i - at - 1);
      SplitBehind(s, sep);
      PartBehind(Split(s, sep), Split(rest, sep), k);
      k := k + 1;
    }
  }

  lemma PartBehind(all: seq<string>, rest: seq<string>, k: nat)
    requires all != [] && all[1..] == rest && k < |rest|
    ensures k + 1 < |all| && all[k + 1] == rest[k]
  {
  }

  lemma SplitBehind(s: string, sep: char)
    requires IndexOf(s, sep) < |s|
    ensures Split(s, sep)[1..] == Split(s[IndexOf(s, sep) + 1..], sep)
  {
  }

  /** Every line followed by its separator. */
  function Terminated(parts: seq<string>, sep: char): string {
    if parts == [] then "" else parts[0] + [sep] + Terminated(parts[1..], sep)
  }

  lemma {:induction false} TerminatedConcat(a: seq<string>, b: seq<string>, sep: char)
    ensures Terminated(a + b, sep) == Terminated(a, sep) + Terminated(b, sep)
  {
    if a == [] {
      assert a + b == b;
    } else {
      assert (a + b)[1..] == a[1..] + b;
      TerminatedConcat(a[1..], b, sep);
    }
  }

  lemma TerminatedSnoc(parts: seq<string>, last: string, sep: char)
    ensures Terminated(parts + [last], sep) == Terminated(parts, sep) + last + [sep]
  {
    TerminatedConcat(parts, [last], sep);
    assert [last][1..] == [];
    assert Terminated([last], sep) == last + [sep];
    assert Terminated(parts, sep) + (last + [sep]) == Terminated(parts, sep) + last + [sep];
  }

  lemma TerminatedTwo(parts: seq<string>, a: string, b: string, sep: char)
    ensures Terminated(parts + [a, b], sep) == Terminated(parts, sep) + a + [sep] + b + [sep]
  {
    TerminatedSnoc(parts, a, sep);
    TerminatedSnoc(parts + [a], b, sep);
    assert parts + [a] + [b] == parts + [a, b];
  }

  lemma TerminatedThree(parts: seq<string>, a: string, b: string, c: string, sep: char)
    ensures Terminated(parts + [a, b, c], sep) == Terminated(parts, sep) + a + [sep] + b + [sep] + c + [sep]
  {
    TerminatedTwo(parts, a, b, sep);
    TerminatedSnoc(parts + [a, b], c, sep);
    assert parts + [a, b] + [c] == parts + [a, b, c];
  }

  lemma TerminatedFive(parts: seq<string>, a: string, b: string, c: string, d: string, e: string, sep: char)
    ensures Terminated(parts + [a, b, c, d, e], sep)
            == Terminated(parts, sep) + a + [sep] + b + [sep] + c + [sep] + d + [sep] + e + [sep]
  {
    TerminatedThree(parts, a, b, c, sep);
    TerminatedTwo(parts + [a, b, c], d, e, sep);
    assert parts + [a, b, c] + [d, e] == parts + [a, b, c, d, e];
  }

  lemma ConcatAssoc<T>(a: seq<T>, b: seq<T>, c: seq<T>)
    ensures a + b + c == a + (b + c)
  {
  }

  lemma ConcatTail<T>(a: seq<T>, b: seq<T>, c: seq<T>, d: seq<T>)
    ensures a + b + c + d == a + (b + c + d)
  {
  }

  lemma SplitFirst(part: string, sep: char, rest: string)
    requires Lacks(part, sep)
    ensures Split(part + [sep] + rest, sep) == [part] + Split(rest, sep)
  {
    var s := part + [sep] + rest;
    IndexOfAt(part, sep, rest);
    assert s[..|part|] == part;
    assert s[|part| + 1..] == rest;
  }

  /** Splitting undoes terminating, with one empty part after the last separator. */
  lemma {:induction false} SplitTerminated(parts: seq<string>, sep: char)
    requires forall i :: 0 <= i < |parts| ==> Lacks(parts[i], sep)
    ensures Split(Terminated(parts, sep), sep) == parts + [""]
  {
    if parts == [] {
      assert parts + [""] == [""];
    } else {
      SplitFirst(parts[0], sep, Terminated(parts[1..], sep));
      SplitTerminated(parts[1..], sep);
      ConcatAssoc([parts[0]], parts[1..], [""]);
      assert parts == [parts[0]] + parts[1..];
    }
  }

  /** Splitting loses nothing: the parts with separators between them are the text. */
  lemma {:induction false} TerminatedSplit(s: string, sep: char)
    ensures Terminated(Split(s, sep), sep) == s + [sep]
    decreases |s|
  {
    var i := IndexOf(s, sep);
    var parts := Split(s, sep);
    if i == |s| {
      assert parts[1..] == [];
    } else {
      assert parts[1..] == Split(s[i + 1..], sep);
      TerminatedSplit(s[i + 1..], sep);
      assert s == s[..i] + [sep] + s[i + 1..];
    }
  }

  // ----- strings.Fields

  /** The length of the word that s starts with. */
  function WordEnd(s: string): (k: nat)
    ensures k <= |s| && forall i :: 0 <= i < k ==> !IsSpace(s[i])
    ensures k < |s| ==> IsSpace(s[k])
  {
    if s == "" || IsSpace(s[0]) then 0 else WordEnd(s[1..]) + 1
  }

  function Fields(s: string): seq<string>
    decreases |s|
  {
    if s == "" then []
    else if IsSpace(s[0]) then Fields(s[1..])
    else [s[..WordEnd(s)]] + Fields(s[WordEnd(s)..])
  }

  lemma {:induction false} FieldsWords(s: string)
    ensures forall i :: 0 <= i < |Fields(s)| ==> Fields(s)[i] != "" && SpaceFree(Fields(s)[i])
    decreases |s|
  {
    if s == "" {
    } else if IsSpace(s[0]) {
      FieldsWords(s[1..]);
    } else {
      FieldsWords(s[WordEnd(s)..]);
    }
  }

  lemma WordEndAt(w: string, t: string)
    requires SpaceFree(w) && (t != "" ==> IsSpace(t[0]))
    ensures WordEnd(w + t) == |w|
  {
    var s := w + t;
    var k := WordEnd(s);
    assert forall i :: 0 <= i < |w| ==> s[i] == w[i];
    assert t != "" ==> s[|w|] == t[0];
  }

  lemma FieldsCons(w: string, t: string)
    requires w != "" && SpaceFree(w) && (t != "" ==> IsSpace(t[0]))
    ensures Fields(w + t) == [w] + Fields(t)
  {
    WordEndAt(w, t);
    assert (w + t)[..|w|] == w;
    assert (w + t)[|w|..] == t;
  }

  lemma FieldsWord(w: string)
    requires w != "" && SpaceFree(w)
    ensures Fields(w) == [w]
  {
    FieldsCons(w, "");
    assert w + "" == w;
  }

  /** Words on the two sides of a white-space character do not run together. */
  lemma {:induction false} FieldsAcrossSpace(a: string, c: char, b: string)
    requires IsSpace(c)
    ensures Fields(a + [c] + b) == Fields(a) + Fields(b)
    decreases |a|
  {
    var s := a + [c] + b;
    if a == "" {
      assert s[1..] == b;
      assert Fields(a) + Fields(b) == Fields(b);
    } else if IsSpace(a[0]) {
      assert s[1..] == a[1..] + [c] + b;
      FieldsAcrossSpace(a[1..], c, b);
    } else {
      var k := WordEnd(a);
      var w, r := a[..k], a[k..];
      assert a == w + r;
      FieldsCons(w, r);
      assert s == w + (r + [c] + b);
      FieldsCons(w, r + [c] + b);
      FieldsAcrossSpace(r, c, b);
      ConcatAssoc([w], Fields(r), Fields(b));
    }
  }

  lemma {:induction false} FieldsTrimLeft(s: string)
    ensures Fields(TrimLeft(s)) == Fields(s)
  {
    if s != "" && IsSpace(s[0]) {
      FieldsTrimLeft(s[1..]);
    }
  }

  lemma {:induction false} FieldsTrimRight(s: string)
    ensures Fields(TrimRight(s)) == Fields(s)
  {
    if s != "" && IsSpace(s[|s| - 1]) {
      var t := s[..|s| - 1];
      FieldsTrimRight(t);
      FieldsAcrossSpace(t, s[|s| - 1], "");
      assert s == t + [s[|s| - 1]] + "";
    }
  }

  lemma FieldsTrim(s: string)
    ensures Fields(Trim(s)) == Fields(s)
  {
    FieldsTrimLeft(s);
    FieldsTrimRight(TrimLeft(s));
  }
}

/** The standard base64 encoding (section 4 of RFC 4648) as Go's encoding/base64 reads and
    writes it, hexadecimal, and the conversion between the two. */
module Base64 {
  import opened Text
  import opened Bits

  function SextetChar(i: nat): (c: char)
    requires i < 64
    ensures c != '=' && c != '\n' && c != '\r' && !IsSpace(c)
  {
    if i < 26 then 'A' + i as char
    else if i < 52 then 'a' + (i - 26) as char
    else if i < 62 then '0' + (i - 52) as char
    else if i == 62 then '+'
    else '/'
  }

  function CharSextet(c: char): (r: Option<nat>)
    ensures r.Some? ==> r.value < 64
  {
    if 'A' <= c <= 'Z' then Some(c as int - 'A' as int)
    else if 'a' <= c <= 'z' then Some(c as int - 'a' as int + 26)
    else if '0' <= c <= '9' then Some(c as int - '0' as int + 52)
    else if c == '+' then Some(62)
    else if c == '/' then Some(63)
    else None
  }

  lemma SextetRoundTrip(i: nat)
    requires i < 64
    ensures CharSextet(SextetChar(i)) == Some(i)
  {
  }

  /** EncodeToString: three bytes make four characters, padded at the end. */
  function Encode(b: seq<Byte>): string {
    if b == [] then ""
    else if |b| == 1 then [SextetChar(b[0] / 4), SextetChar(b[0] % 4 * 16), '=', '=']
    else if |b| == 2 then
      [SextetChar(b[0] / 4), SextetChar(b[0] % 4 * 16 + b[1] / 16), SextetChar(b[1] % 16 * 4), '=']
    else Group(b[0], b[1], b[2]) + Encode(b[3..])
  }

  /** The four characters of three bytes. */
  function Group(x: Byte, y: Byte, z: Byte): (g: string)
    ensures |g| == 4
  {
    [SextetChar(x / 4), SextetChar(x % 4 * 16 + y / 16), SextetChar(y % 16 * 4 + z / 64), SextetChar(z % 64)]
  }

  /** Line breaks are ignored wherever they stand. */
  function Strip(s: string): string {
    if s == "" then ""
    else if s[0] == '\n' || s[0] == '\r' then Strip(s[1..])
    else [s[0]] + Strip(s[1..])
  }

  /** One group of four characters. The padding bits are not looked at. */
  function DecodeGroup(s: string, last: bool): Option<seq<Byte>>
    requires |s| == 4
  {
    match (CharSextet(s[0]), CharSextet(s[1]))
    case (Some(a), Some(b)) =>
      if last && s[2] == '=' && s[3] == '=' then Some([a * 4 + b / 16])
      else
        (match CharSextet(s[2])
         case None => None
         case Some(c) =>
           if last && s[3] == '=' then Some([a * 4 + b / 16, b % 16 * 16 + c / 4])
           else
             match CharSextet(s[3])
             case None => None
             case Some(d) => Some([a * 4 + b / 16, b % 16 * 16 + c / 4, c % 4 * 64 + d]))
    case _ => None
  }

  function DecodeGroups(s: string): Option<seq<Byte>> {
    if s == "" then Some([])
    else if |s| < 4 then None
    else
      match (DecodeGroup(s[..4], |s| == 4), DecodeGroups(s[4..]))
      case (Some(x), Some(y)) => Some(x + y)
      case _ => None
  }

  /** DecodeString. */
  function Decode(s: string): Option<seq<Byte>> {
    DecodeGroups(Strip(s))
  }

  predicate KeyText(s: string) {
    forall i :: 0 <= i < |s| ==> !IsSpace(s[i])
  }

  /** Encoded bytes hold no white space and no line break. */
  lemma {:induction false} EncodeChars(b: seq<Byte>)
    ensures KeyText(Encode(b)) && (b != [] ==> Encode(b) != "")
  {
    if |b| > 2 {
      EncodeChars(b[3..]);
    }
  }

  lemma {:induction false} StripKeyText(s: string)
    requires KeyText(s)
    ensures Strip(s) == s
  {
    if s != "" {
      StripKeyText(s[1..]);
      assert s == [s[0]] + s[1..];
    }
  }

  lemma DecodeOneGroup(g: string, rest: string)
    requires |g| == 4
    ensures DecodeGroups(g + rest) ==
            match (DecodeGroup(g, rest == ""), DecodeGroups(rest))
            case (Some(x), Some(y)) => Some(x + y)
            case _ => None
  {
    assert (g + rest)[..4] == g && (g + rest)[4..] == rest;
  }

  /** The sextets of three bytes put together again. */
  lemma SextetsJoin(x: Byte, y: Byte, z: Byte)
    ensures x / 4 * 4 + (x % 4 * 16 + y / 16) / 16 == x
    ensures (x % 4 * 16 + y / 16) % 16 * 16 + (y % 16 * 4 + z / 64) / 4 == y
    ensures (y % 16 * 4 + z / 64) % 4 * 64 + z % 64 == z
  {
  }

  lemma GroupOfFour(a: nat, b: nat, c: nat, d: nat, last: bool)
    requires a < 64 && b < 64 && c < 64 && d < 64
    ensures DecodeGroup([SextetChar(a), SextetChar(b), SextetChar(c), SextetChar(d)], last)
            == Some([a * 4 + b / 16, b % 16 * 16 + c / 4, c % 4 * 64 + d])
  {
    SextetRoundTrip(a);
    SextetRoundTrip(b);
    SextetRoundTrip(c);
    SextetRoundTrip(d);
  }

  lemma GroupOfBytes(a: nat, b: nat, c: nat, d: nat, last: bool, x: Byte, y: Byte, z: Byte)
    requires a < 64 && b < 64 && c < 64 && d < 64
    requires a * 4 + b / 16 == x && b % 16 * 16 + c / 4 == y && c % 4 * 64 + d == z
    ensures DecodeGroup([SextetChar(a), SextetChar(b), SextetChar(c), SextetChar(d)], last) == Some([x, y, z])
  {
    GroupOfFour(a, b, c, d, last);
  }

  lemma ThreeBytes(x: Byte, y: Byte, z: Byte, last: bool)
    ensures DecodeGroup(Group(x, y, z), last) == Some([x, y, z])
  {
    SextetsJoin(x, y, z);
    GroupOfBytes(x / 4, x % 4 * 16 + y / 16, y % 16 * 4 + z / 64, z % 64, last, x, y, z);
  }

  lemma OneByte(x: Byte)
    ensures DecodeGroup([SextetChar(x / 4), SextetChar(x % 4 * 16), '=', '='], true) == Some([x])
  {
    SextetRoundTrip(x / 4);
    SextetRoundTrip(x % 4 * 16);
  }

  lemma TwoBytes(x: Byte, y: Byte)
    ensures DecodeGroup([SextetChar(x / 4), SextetChar(x % 4 * 16 + y / 16), SextetChar(y % 16 * 4), '='], true)
            == Some([x, y])
  {
    SextetRoundTrip(x / 4);
    SextetRoundTrip(x % 4 * 16 + y / 16);
    SextetRoundTrip(y % 16 * 4);
  }

  lemma LastGroup(g: string, b: seq<Byte>)
    requires |g| == 4 && DecodeGroup(g, true) == Some(b)
    ensures DecodeGroups(g) == Some(b)
  {
    var none: seq<Byte> := [];
    DecodeOneGroup(g, "");
    assert g + "" == g && b + none == b;
  }

  lemma FirstGroup(g: string, b: seq<Byte>, rest: string, more: seq<Byte>)
    requires |g| == 4 && DecodeGroup(g, rest == "") == Some(b) && DecodeGroups(rest) == Some(more)
    ensures DecodeGroups(g + rest) == Some(b + more)
  {
    DecodeOneGroup(g, rest);
  }

  lemma DecodeOne(x: Byte)
    ensures DecodeGroups([SextetChar(x / 4), SextetChar(x % 4 * 16), '=', '=']) == Some([x])
  {
    OneByte(x);
    LastGroup([SextetChar(x / 4), SextetChar(x % 4 * 16), '=', '='], [x]);
  }

  lemma DecodeTwo(x: Byte, y: Byte)
    ensures DecodeGroups([SextetChar(x / 4), SextetChar(x % 4 * 16 + y / 16), SextetChar(y % 16 * 4), '='])
            == Some([x, y])
  {
    TwoBytes(x, y);
    LastGroup([SextetChar(x / 4), SextetChar(x % 4 * 16 + y / 16), SextetChar(y % 16 * 4), '='], [x, y]);
  }

  lemma DecodeLong(x: Byte, y: Byte, z: Byte, tail: seq<Byte>)
    requires DecodeGroups(Encode(tail)) == Some(tail)
    ensures DecodeGroups(Group(x, y, z) + Encode(tail)) == Some([x, y, z] + tail)
  {
    ThreeBytes(x, y, z, Encode(tail) == "");
    FirstGroup(Group(x, y, z), [x, y, z], Encode(tail), tail);
  }

  lemma {:induction false} DecodeShort(b: seq<Byte>)
    requires 1 <= |b| <= 2
    ensures DecodeGroups(Encode(b)) == Some(b)
  {
    if |b| == 1 {
      DecodeOne(b[0]);
      assert b == [b[0]];
    } else {
      DecodeTwo(b[0], b[1]);
      assert b == [b[0], b[1]];
    }
  }

  lemma {:induction false} DecodeGroupsEncode(b: seq<Byte>)
    ensures DecodeGroups(Encode(b)) == Some(b)
  {
    if b == [] {
    } else if |b| <= 2 {
      DecodeShort(b);
    } else {
      DecodeGroupsEncode(b[3..]);
      DecodeLong(b[0], b[1], b[2], b[3..]);
      assert b == [b[0], b[1], b[2]] + b[3..];
    }
  }

  /** Decoding an encoding gives the bytes back, whatever their number. */
  lemma DecodeEncode(b: seq<Byte>)
    ensures Decode(Encode(b)) == Some(b)
  {
    EncodeChars(b);
    StripKeyText(Encode(b));
    DecodeGroupsEncode(b);
  }

  // ----- the encoding of the standard

  // Table 1 of RFC 4648.
  const UPPER := "ABCDEFGHIJKLMNOPQRSTUVWXYZ"
  const LOWER := "abcdefghijklmnopqrstuvwxyz"
  const DIGITS := "0123456789"
  const ALPHABET := UPPER + LOWER + DIGITS + "+/"

  lemma UpperAt(i: nat)
    requires i < 26
    ensures |UPPER| == 26 && UPPER[i] == 'A' + i as char
  {
  }

  lemma LowerAt(i: nat)
    requires i < 26
    ensures |LOWER| == 26 && LOWER[i] == 'a' + i as char
  {
  }

  lemma DigitAt(i: nat)
    requires i < 10
    ensures |DIGITS| == 10 && DIGITS[i] == '0' + i as char
  {
  }

  lemma InTable(i: nat)
    requires i < 64
    ensures |ALPHABET| == 64 && SextetChar(i) == ALPHABET[i]
  {
    UpperAt(if i < 26 then i else 0);
    LowerAt(if 26 <= i < 52 then i - 26 else 0);
    DigitAt(if 52 <= i < 62 then i - 52 else 0);
  }

  /** The table holds exactly the characters that stand for six bits. */
  lemma TableChar(c: char)
    ensures CharSextet(c).Some? <==> c in ALPHABET
  {
    if CharSextet(c).Some? {
      InTable(CharSextet(c).value);
    }
    if c in ALPHABET {
      var i :| 0 <= i < |ALPHABET| && ALPHABET[i] == c;
      InTable(0);
      InTable(i);
      SextetRoundTrip(i);
    }
  }

  /** A character of the table, or one of at most two '=' at the end. */
  predicate PaddedAt(t: string, i: int, table: string)
    requires 0 <= i < |t|
  {
    t[i] in table || (t[i] == '=' && (i == |t| - 1 || (i == |t| - 2 && t[|t| - 1] == '=')))
  }

  predicate Padded(t: string, table: string) {
    forall i :: 0 <= i < |t| ==> PaddedAt(t, i, table)
  }

  /** The table of the decoder. */
  ghost predicate Decodes(table: string) {
    '=' !in table && forall c :: CharSextet(c).Some? <==> c in table
  }

  lemma GroupPadded(g: string, last: bool, table: string)
    requires |g| == 4 && Decodes(table)
    ensures DecodeGroup(g, last).Some? <==>
            g[0] in table && g[1] in table
            && if g[2] in table then g[3] in table || (last && g[3] == '=') else last && g[2] == '=' && g[3] == '='
  {
    assert CharSextet(g[0]).Some? <==> g[0] in table;
    assert CharSextet(g[1]).Some? <==> g[1] in table;
    assert CharSextet(g[2]).Some? <==> g[2] in table;
    assert CharSextet(g[3]).Some? <==> g[3] in table;
  }

  lemma {:induction false} DecodableGroups(t: string, table: string)
    requires Decodes(table)
    ensures DecodeGroups(t).Some? <==> |t| % 4 == 0 && Padded(t, table)
    decreases |t|
  {
    if t != "" && |t| >= 4 {
      GroupPadded(t[..4], |t| == 4, table);
      DecodableGroups(t[4..], table);
      if |t| == 4 {
        PaddedFour(t, table);
      } else if |t| >= 8 {
        PaddedLong(t, table);
      }
    }
  }

  lemma PaddedFour(t: string, table: string)
    requires |t| == 4 && '=' !in table
    ensures Padded(t, table) <==>
            t[0] in table && t[1] in table
            && if t[2] in table then t[3] in table || t[3] == '=' else t[2] == '=' && t[3] == '='
  {
    assert Padded(t, table) <==>
      PaddedAt(t, 0, table) && PaddedAt(t, 1, table) && PaddedAt(t, 2, table) && PaddedAt(t, 3, table);
  }

  lemma PaddedLong(t: string, table: string)
    requires |t| >= 8
    ensures Padded(t, table) <==>
            t[0] in table && t[1] in table && t[2] in table && t[3] in table && Padded(t[4..], table)
  {
    var rest := t[4..];
    assert forall i :: 0 <= i < |rest| ==> (PaddedAt(rest, i, table) <==> PaddedAt(t, i + 4, table));
    if Padded(t, table) {
      assert PaddedAt(t, 0, table) && PaddedAt(t, 1, table) && PaddedAt(t, 2, table) && PaddedAt(t, 3, table);
    }
    if Padded(rest, table) && t[0] in table && t[1] in table && t[2] in table && t[3] in table {
      forall i | 0 <= i < |t| ensures PaddedAt(t, i, table) {
        assert i >= 4 ==> PaddedAt(rest, i - 4, table);
      }
    }
  }

  /** Exactly these texts are decoded: apart from line breaks, groups of four characters of the
      table, with one or two '=' at the end of the last. */
  lemma DecodableTexts(s: string)
    ensures Decode(s).Some? <==> |Strip(s)| % 4 == 0 && Padded(Strip(s), ALPHABET)
  {
    forall c ensures CharSextet(c).Some? <==> c in ALPHABET {
      TableChar(c);
    }
    TableChar('=');
    DecodableGroups(Strip(s), ALPHABET);
  }

  function ByteOrZero(b: seq<Byte>, i: nat): Byte {
    if i < |b| then b[i] else 0
  }

  /** The 24 bits of group g, filled up with zeros. */
  function GroupBits(b: seq<Byte>, g: nat): nat {
    ByteOrZero(b, 3 * g) * 0x1_0000 + ByteOrZero(b, 3 * g + 1) * 0x100 + ByteOrZero(b, 3 * g + 2)
  }

  /** Six bits of 24, from the left. */
  function Sextet(bits: nat, j: nat): (s: nat)
    requires j < 4
    ensures s < 64
  {
    (if j == 0 then bits / 0x4_0000 else if j == 1 then bits / 0x1000 else if j == 2 then bits / 64 else bits) % 64
  }

  lemma FirstSextet(x: Byte, y: Byte, z: Byte)
    ensures (x * 0x1_0000 + y * 0x100 + z) / 0x4_0000 % 64 == x / 4
  {
    var bits := x * 0x1_0000 + y * 0x100 + z;
    assert bits == (x / 4) * 0x4_0000 + (x % 4 * 0x1_0000 + y * 0x100 + z);
    assert bits / 0x4_0000 == x / 4;
  }

  lemma SecondSextet(x: Byte, y: Byte, z: Byte)
    ensures (x * 0x1_0000 + y * 0x100 + z) / 0x1000 % 64 == x % 4 * 16 + y / 16
  {
    var bits := x * 0x1_0000 + y * 0x100 + z;
    assert bits == (x * 16 + y / 16) * 0x1000 + (y % 16 * 0x100 + z);
    assert bits / 0x1000 == x * 16 + y / 16;
    assert x * 16 + y / 16 == (x / 4) * 64 + (x % 4 * 16 + y / 16);
  }

  lemma ThirdSextet(x: Byte, y: Byte, z: Byte)
    ensures (x * 0x1_0000 + y * 0x100 + z) / 64 % 64 == y % 16 * 4 + z / 64
  {
    var q := x * 1024 + y * 4 + z / 64;
    assert x * 0x1_0000 + y * 0x100 + z == q * 64 + z % 64;
    Quotient(q, z % 64);
    assert y * 4 == y / 16 * 64 + y % 16 * 4;
    Remainder(x * 16 + y / 16, y % 16 * 4 + z / 64);
  }

  lemma Quotient(q: nat, r: nat)
    requires r < 64
    ensures (q * 64 + r) / 64 == q
  {
  }

  lemma Remainder(q: nat, r: nat)
    requires r < 64
    ensures (q * 64 + r) % 64 == r
  {
  }

  lemma FourthSextet(x: Byte, y: Byte, z: Byte)
    ensures (x * 0x1_0000 + y * 0x100 + z) % 64 == z % 64
  {
    assert x * 0x1_0000 + y * 0x100 + z == (x * 1024 + y * 4 + z / 64) * 64 + z % 64;
  }

  /** The same six bits, put together from the bytes. */
  function SextetOfBytes(x: Byte, y: Byte, z: Byte, j: nat): (s: nat)
    requires j < 4
    ensures s < 64
  {
    if j == 0 then x / 4 else if j == 1 then x % 4 * 16 + y / 16 else if j == 2 then y % 16 * 4 + z / 64 else z % 64
  }

  lemma SextetsOf(x: Byte, y: Byte, z: Byte, j: nat)
    requires j < 4
    ensures Sextet(x * 0x1_0000 + y * 0x100 + z, j) == SextetOfBytes(x, y, z, j)
  {
    FirstSextet(x, y, z);
    SecondSextet(x, y, z);
    ThirdSextet(x, y, z);
    FourthSextet(x, y, z);
  }

  lemma {:induction false} FirstGroupChars(b: seq<Byte>, j: nat)
    requires b != [] && j < 4
    ensures |Encode(b)| >= 4
    ensures Encode(b)[j] ==
            if j > |b| then '=' else SextetChar(SextetOfBytes(b[0], ByteOrZero(b, 1), ByteOrZero(b, 2), j))
  {
  }

  lemma {:induction false} FirstGroupStandard(b: seq<Byte>, j: nat)
    requires b != [] && j < 4
    ensures |Encode(b)| >= 4
    ensures Encode(b)[j] == if j > |b| then '=' else ALPHABET[Sextet(GroupBits(b, 0), j)]
  {
    FirstGroupChars(b, j);
    SextetsOf(b[0], ByteOrZero(b, 1), ByteOrZero(b, 2), j);
    InTable(SextetOfBytes(b[0], ByteOrZero(b, 1), ByteOrZero(b, 2), j));
  }

  /** Character j of group g of an encoding: six bits from the left of the group's 24, looked up in
      the table, and '=' behind those that hold bits of the text. */
  lemma {:induction false} EncodeIsStandard(b: seq<Byte>, g: nat, j: nat)
    requires j < 4 && 4 * g + j < |Encode(b)|
    ensures 3 * g < |b|
    ensures Encode(b)[4 * g + j] == if j > |b| - 3 * g then '=' else ALPHABET[Sextet(GroupBits(b, g), j)]
    decreases g
  {
    if g == 0 {
      FirstGroupStandard(b, j);
    } else {
      LongEncode(b);
      EncodeIsStandard(b[3..], g - 1, j);
      LaterGroup(b, g);
    }
  }

  lemma {:induction false} LongEncode(b: seq<Byte>)
    ensures |Encode(b)| > 4 ==> |b| >= 3 && |Encode(b)| == 4 + |Encode(b[3..])|
    ensures |Encode(b)| > 4 ==> forall k :: 4 <= k < |Encode(b)| ==> Encode(b)[k] == Encode(b[3..])[k - 4]
  {
  }

  lemma LaterGroup(b: seq<Byte>, g: nat)
    requires |b| >= 3 && g > 0
    ensures GroupBits(b, g) == GroupBits(b[3..], g - 1)
  {
  }

  // ----- hexadecimal

  function HexDigit(d: nat): char
    requires d < 16
  {
    if d < 10 then '0' + d as char else 'a' + (d - 10) as char
  }

  function HexValue(c: char): Option<nat> {
    if '0' <= c <= '9' then Some(c as int - '0' as int)
    else if 'a' <= c <= 'f' then Some(c as int - 'a' as int + 10)
    else None
  }

  function HexEncode(b: seq<Byte>): string {
    if b == [] then "" else [HexDigit(b[0] / 16), HexDigit(b[0] % 16)] + HexEncode(b[1..])
  }

  function HexDecode(s: string): Option<seq<Byte>> {
    if s == "" then Some([])
    else if |s| == 1 then None
    else
      match (HexValue(s[0]), HexValue(s[1]), HexDecode(s[2..]))
      case (Some(hi), Some(lo), Some(rest)) =>
        if hi < 16 && lo < 16 then Some([hi * 16 + lo] + rest) else None
      case _ => None
  }

  /** The hexadecimal form determines the bytes. */
  lemma {:induction false} HexRoundTrip(b: seq<Byte>)
    ensures HexDecode(HexEncode(b)) == Some(b)
  {
    if b != [] {
      HexRoundTrip(b[1..]);
      assert HexEncode(b)[2..] == HexEncode(b[1..]);
      assert b == [b[0]] + b[1..];
    }
  }

  /** The digits are those of the bytes, high half first. */
  lemma {:induction false} HexDigits(b: seq<Byte>, i: nat)
    requires i < |b|
    ensures |HexEncode(b)| == 2 * |b|
    ensures var digits := "0123456789abcdef";
            |digits| == 16 && HexEncode(b)[2 * i] == digits[b[i] / 16] && HexEncode(b)[2 * i + 1] == digits[b[i] % 16]
  {
    HexLength(b);
    if i > 0 {
      HexDigits(b[1..], i - 1);
    } else {
      HexDigitIs(b[0] / 16);
      HexDigitIs(b[0] % 16);
    }
  }

  lemma {:induction false} HexLength(b: seq<Byte>)
    ensures |HexEncode(b)| == 2 * |b|
  {
    if b != [] {
      HexLength(b[1..]);
    }
  }

  lemma HexDigitIs(d: nat)
    requires d < 16
    ensures HexDigit(d) == "0123456789abcdef"[d]
  {
  }

  lemma {:induction false} HexNewlineFree(b: seq<Byte>)
    ensures NewlineFree(HexEncode(b))
  {
    if b != [] {
      HexNewlineFree(b[1..]);
    }
  }

  datatype KeyError = NotBase64 | WrongLength

  /** b64ToHex: keys are 32 bytes. */
  function B64ToHex(key: string): Result<string, KeyError> {
    match Decode(key)
    case None => Err(NotBase64)
    case Some(raw) => if |raw| != 32 then Err(WrongLength) else Ok(HexEncode(raw))
  }

  /** An encoded key of 32 bytes becomes the hexadecimal form of its bytes; other lengths are refused. */
  lemma B64ToHexOfKey(k: seq<Byte>)
    ensures B64ToHex(Encode(k)) == if |k| == 32 then Ok(HexEncode(k)) else Err(WrongLength)
  {
    DecodeEncode(k);
  }
}

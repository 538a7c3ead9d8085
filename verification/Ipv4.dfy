/** IPv4 addresses, CIDR blocks and netmasks, as Go's net package reads and prints them. */
module Ipv4 {
  import opened Text
  import opened Decimal
  import opened Bits

  datatype Ip = Ip(b0: Byte, b1: Byte, b2: Byte, b3: Byte)

  /** The address as a 32-bit number, most significant byte first. */
  function Number(ip: Ip): (n: nat)
    ensures n < 0x1_0000_0000
  {
    ((ip.b0 * 256 + ip.b1) * 256 + ip.b2) * 256 + ip.b3
  }

  /** The last byte of a number and what stands in front of it. */
  lemma LastByte(a: nat, x: Byte, b: nat, y: Byte)
    requires a * 256 + x == b * 256 + y
    ensures a == b && x == y
  {
  }

  lemma NumberInjective(a: Ip, b: Ip)
    requires Number(a) == Number(b)
    ensures a == b
  {
    LastByte((a.b0 * 256 + a.b1) * 256 + a.b2, a.b3, (b.b0 * 256 + b.b1) * 256 + b.b2, b.b3);
    LastByte(a.b0 * 256 + a.b1, a.b2, b.b0 * 256 + b.b1, b.b2);
    LastByte(a.b0, a.b1, b.b0, b.b1);
  }

  // ----- reading and printing addresses

  /** One part of a dotted address: no sign, no leading zero, at most 255. */
  function ParseOctet(s: string): Option<Byte> {
    if s == "" || !AllDigits(s) || (|s| > 1 && s[0] == '0') || DigitsValue(s) > 255 then None
    else Some(DigitsValue(s))
  }

  function ParseIp(s: string): Option<Ip> {
    var parts := Split(s, '.');
    if |parts| != 4 then None
    else
      match (ParseOctet(parts[0]), ParseOctet(parts[1]), ParseOctet(parts[2]), ParseOctet(parts[3]))
      case (Some(a), Some(b), Some(c), Some(d)) => Some(Ip(a, b, c, d))
      case _ => None
  }

  function FormatIp(ip: Ip): string {
    NatText(ip.b0) + "." + (NatText(ip.b1) + "." + (NatText(ip.b2) + "." + NatText(ip.b3)))
  }

  lemma {:induction false} NatTextNoLeadingZero(n: nat)
    requires n > 0
    ensures NatText(n)[0] != '0'
  {
    if n >= 10 {
      NatTextNoLeadingZero(n / 10);
    }
  }

  lemma OctetPrinted(b: Byte)
    ensures ParseOctet(NatText(b)) == Some(b) && Lacks(NatText(b), '.') && Lacks(NatText(b), '/')
  {
    NatTextValue(b);
    if b > 0 {
      NatTextNoLeadingZero(b);
    }
  }

  lemma SplitLast(s: string, sep: char)
    requires Lacks(s, sep)
    ensures Split(s, sep) == [s]
  {
    IndexOfLacks(s, sep);
  }

  lemma SplitFour(a: string, b: string, c: string, d: string)
    requires Lacks(a, '.') && Lacks(b, '.') && Lacks(c, '.') && Lacks(d, '.')
    ensures Split(a + "." + (b + "." + (c + "." + d)), '.') == [a, b, c, d]
  {
    var cd := c + "." + d;
    var bcd := b + "." + cd;
    SplitLast(d, '.');
    SplitFirst(c, '.', d);
    assert Split(cd, '.') == [c, d];
    SplitFirst(b, '.', cd);
    assert Split(bcd, '.') == [b, c, d];
    SplitFirst(a, '.', bcd);
    assert [a] + [b, c, d] == [a, b, c, d];
  }

  /** Every printed address reads back. */
  lemma ParseFormatIp(ip: Ip)
    ensures ParseIp(FormatIp(ip)) == Some(ip)
  {
    OctetPrinted(ip.b0);
    OctetPrinted(ip.b1);
    OctetPrinted(ip.b2);
    OctetPrinted(ip.b3);
    SplitFour(NatText(ip.b0), NatText(ip.b1), NatText(ip.b2), NatText(ip.b3));
  }

  /** An address is made of digits and dots. */
  lemma IpChars(s: string)
    requires ParseIp(s).Some?
    ensures s != "" && forall i :: 0 <= i < |s| ==> s[i] == '.' || IsDigit(s[i])
  {
    var parts := Split(s, '.');
    assert AllDigits(parts[0]) && AllDigits(parts[1]) && AllDigits(parts[2]) && AllDigits(parts[3]);
    if s == "" {
      IndexOfLacks(s, '.');
    }
    forall i | 0 <= i < |s| ensures s[i] == '.' || IsDigit(s[i]) {
      if s[i] != '.' {
        var k, j := SplitCovers(s, '.', i);
        assert AllDigits(parts[k]);
      }
    }
  }

  // ----- CIDR blocks

  /** net.ParseCIDR of an IPv4 text: the address as written and the prefix length. */
  datatype Cidr = Cidr(ip: Ip, prefix: nat)

  function ParsePrefix(s: string): Option<nat> {
    if s == "" || !AllDigits(s) || DigitsValue(s) > 32 then None else Some(DigitsValue(s))
  }

  function ParseCidr(s: string): (r: Option<Cidr>)
    ensures r.Some? ==> r.value.prefix <= 32
  {
    var slash := IndexOf(s, '/');
    if slash == |s| then None
    else
      match (ParseIp(s[..slash]), ParsePrefix(s[slash + 1..]))
      case (Some(ip), Some(n)) => Some(Cidr(ip, n))
      case _ => None
  }

  lemma FormatIpNoSlash(ip: Ip)
    ensures Lacks(FormatIp(ip), '/')
  {
    OctetPrinted(ip.b0);
    OctetPrinted(ip.b1);
    OctetPrinted(ip.b2);
    OctetPrinted(ip.b3);
  }

  lemma ParseFormatCidr(ip: Ip, n: nat)
    requires n <= 32
    ensures ParseCidr(FormatIp(ip) + "/" + NatText(n)) == Some(Cidr(ip, n))
  {
    FormatIpNoSlash(ip);
    ParseFormatIp(ip);
    NatTextValue(n);
    CidrOfParts(FormatIp(ip), NatText(n));
  }

  lemma CidrOfParts(a: string, p: string)
    requires Lacks(a, '/')
    ensures ParseCidr(a + "/" + p) ==
            match (ParseIp(a), ParsePrefix(p)) case (Some(ip), Some(n)) => Some(Cidr(ip, n)) case _ => None
  {
    var s := a + ['/'] + p;
    IndexOfAt(a, '/', p);
    assert s[..|a|] == a;
    assert s[|a| + 1..] == p;
  }

  // ----- which texts are addresses and blocks

  /** A byte in decimal, without leading zeros. */
  ghost predicate OctetText(t: string, b: Byte) {
    t != "" && AllDigits(t) && PlaceValue(t) == b && (|t| > 1 ==> t[0] != '0')
  }

  ghost predicate DottedParts(s: string, ip: Ip, p: seq<string>) {
    && |p| == 4 && s == p[0] + "." + (p[1] + "." + (p[2] + "." + p[3]))
    && OctetText(p[0], ip.b0) && OctetText(p[1], ip.b1) && OctetText(p[2], ip.b2) && OctetText(p[3], ip.b3)
  }

  /** Four bytes in decimal with dots between them. */
  ghost predicate DottedText(s: string, ip: Ip) {
    exists p :: DottedParts(s, ip, p)
  }

  lemma OctetLanguage(t: string, b: Byte)
    ensures ParseOctet(t) == Some(b) <==> OctetText(t, b)
    ensures OctetText(t, b) ==> Lacks(t, '.')
  {
    if t != "" && AllDigits(t) {
      DigitsByPlace(t);
    }
  }

  lemma FourTerminated(p: seq<string>, sep: char)
    requires |p| == 4
    ensures Terminated(p, sep) == p[0] + [sep] + (p[1] + [sep] + (p[2] + [sep] + p[3])) + [sep]
  {
    assert p == [] + [p[0], p[1]] + [p[2], p[3]];
    TerminatedTwo([] + [p[0], p[1]], p[2], p[3], sep);
    TerminatedTwo([], p[0], p[1], sep);
    assert [] + [p[0], p[1]] + [p[2], p[3]] == p;
  }

  lemma SameWithout(a: string, b: string, sep: char)
    requires a + [sep] == b + [sep]
    ensures a == b
  {
    assert a == (a + [sep])[..|a|] && b == (b + [sep])[..|b|];
    assert |a| == |b|;
  }

  lemma FourParts(s: string, p: seq<string>)
    requires Split(s, '.') == p && |p| == 4
    ensures s == p[0] + "." + (p[1] + "." + (p[2] + "." + p[3]))
  {
    TerminatedSplit(s, '.');
    FourTerminated(p, '.');
    SameWithout(s, p[0] + "." + (p[1] + "." + (p[2] + "." + p[3])), '.');
  }

  lemma DottedRead(s: string, ip: Ip, p: seq<string>)
    requires DottedParts(s, ip, p)
    ensures ParseIp(s) == Some(ip)
  {
    OctetLanguage(p[0], ip.b0);
    OctetLanguage(p[1], ip.b1);
    OctetLanguage(p[2], ip.b2);
    OctetLanguage(p[3], ip.b3);
    SplitFour(p[0], p[1], p[2], p[3]);
  }

  /** Exactly these texts are read as addresses. */
  lemma IpLanguage(s: string, ip: Ip)
    ensures ParseIp(s) == Some(ip) <==> DottedText(s, ip)
  {
    if ParseIp(s) == Some(ip) {
      var p := Split(s, '.');
      FourParts(s, p);
      OctetLanguage(p[0], ip.b0);
      OctetLanguage(p[1], ip.b1);
      OctetLanguage(p[2], ip.b2);
      OctetLanguage(p[3], ip.b3);
      assert DottedParts(s, ip, p);
    }
    if p :| DottedParts(s, ip, p) {
      DottedRead(s, ip, p);
    }
  }

  ghost predicate BlockParts(s: string, b: Cidr, a: string, p: string) {
    && s == a + "/" + p && DottedText(a, b.ip)
    && p != "" && AllDigits(p) && PlaceValue(p) == b.prefix && b.prefix <= 32
  }

  /** Exactly these texts are read as blocks: an address, a slash and a prefix of at most 32. */
  lemma CidrLanguage(s: string, b: Cidr)
    ensures ParseCidr(s) == Some(b) <==> exists a, p :: BlockParts(s, b, a, p)
  {
    if ParseCidr(s) == Some(b) {
      var slash := IndexOf(s, '/');
      var a, p := s[..slash], s[slash + 1..];
      assert s == a + "/" + p;
      IpLanguage(a, b.ip);
      DigitsByPlace(p);
      assert BlockParts(s, b, a, p);
    }
    if a, p :| BlockParts(s, b, a, p) {
      IpLanguage(a, b.ip);
      IpChars(a);
      DigitsByPlace(p);
      CidrOfParts(a, p);
    }
  }

  lemma PowersOf256()
    ensures Pow2(0) == 1 && Pow2(8) == 256 && Pow2(16) == 0x1_0000 && Pow2(24) == 0x100_0000
            && Pow2(32) == 0x1_0000_0000
  {
    assert Pow2(4) == 16;
    Pow2Plus(4, 4);
    Pow2Plus(8, 8);
    Pow2Plus(16, 8);
    Pow2Plus(16, 16);
  }

  /** net.CIDRMask(ones, 32), byte i: as many leading ones as are left for it. */
  function MaskByte(ones: nat, i: nat): (m: Byte)
    requires ones <= 32 && i < 4
  {
    256 - Pow2(ZeroBits(ones, i))
  }

  /** How many low bits of byte i the mask clears. */
  function ZeroBits(ones: nat, i: nat): (z: nat)
    requires ones <= 32 && i < 4
    ensures z <= 8 && Pow2(z) <= 256
  {
    var z := if ones >= 8 * (i + 1) then 0 else if ones <= 8 * i then 8 else 8 * (i + 1) - ones;
    Pow2Monotonic(z, 8);
    PowersOf256();
    z
  }

  /** IP.Mask: every byte and-ed with its mask byte. */
  function Masked(ip: Ip, ones: nat): Ip
    requires ones <= 32
  {
    Ip(AndByte(ip.b0, MaskByte(ones, 0)), AndByte(ip.b1, MaskByte(ones, 1)),
       AndByte(ip.b2, MaskByte(ones, 2)), AndByte(ip.b3, MaskByte(ones, 3)))
  }

  function AndByte(a: Byte, m: Byte): (r: Byte)
    ensures r <= a
  {
    AndBelow(a, m);
    BitAnd(a, m)
  }

  lemma {:induction false} AndBelow(a: nat, m: nat)
    ensures BitAnd(a, m) <= a
  {
    if a > 0 && m > 0 {
      AndBelow(a / 2, m / 2);
    }
  }

  /** IPNet.Contains: the address and the network agree under the mask, byte by byte. */
  predicate Contains(network: Ip, ones: nat, x: Ip)
    requires ones <= 32
  {
    Masked(network, ones) == Masked(x, ones)
  }

  lemma MaskedByte(a: Byte, ones: nat, i: nat)
    requires ones <= 32 && i < 4
    ensures AndByte(a, MaskByte(ones, i)) == a - a % Pow2(ZeroBits(ones, i))
    ensures ones >= 8 * (i + 1) ==> AndByte(a, MaskByte(ones, i)) == a
    ensures ones <= 8 * i ==> AndByte(a, MaskByte(ones, i)) == 0
  {
    PowersOf256();
    AndHigh(a, ZeroBits(ones, i), 8);
  }

  lemma LowByteRemainder(h: nat, b: Byte, z: nat)
    requires z <= 8
    ensures (h * 256 + b) % Pow2(z) == b % Pow2(z)
  {
    PowersOf256();
    LowAbove(h, b, 8, z);
    LowIsRemainder(h * 256 + b, z);
    LowIsRemainder(b, z);
  }

  /** The remainder of a number in a block that ends z bits into byte b. */
  lemma BlockRemainder(h: nat, b: Byte, low: nat, z: nat, k: nat)
    requires z <= 8 && low < Pow2(k)
    ensures ((h * 256 + b) * Pow2(k) + low) % Pow2(z + k) == (b % Pow2(z)) * Pow2(k) + low
  {
    RemainderOfDigits(h * 256 + b, low, Pow2(k), Pow2(z));
    LowByteRemainder(h, b, z);
    Pow2Plus(z, k);
  }

  /** Clearing s from byte i of an address and all the bytes behind it. */
  lemma ClearedNumber(ip: Ip, m: Ip, i: nat, s: nat, r: nat)
    requires i < 4
    requires i == 3 ==> m == Ip(ip.b0, ip.b1, ip.b2, m.b3) && m.b3 == ip.b3 - s && r == s
    requires i == 2 ==> m == Ip(ip.b0, ip.b1, m.b2, 0) && m.b2 == ip.b2 - s && r == s * 256 + ip.b3
    requires i == 1 ==> m == Ip(ip.b0, m.b1, 0, 0) && m.b1 == ip.b1 - s && r == s * 0x1_0000 + (ip.b2 * 256 + ip.b3)
    requires i == 0 ==>
               m == Ip(m.b0, 0, 0, 0) && m.b0 == ip.b0 - s
               && r == s * 0x100_0000 + ((ip.b1 * 256 + ip.b2) * 256 + ip.b3)
    ensures Number(m) == Number(ip) - r
  {
  }

  function ByteAt(ip: Ip, i: nat): Byte
    requires i < 4
  {
    if i == 0 then ip.b0 else if i == 1 then ip.b1 else if i == 2 then ip.b2 else ip.b3
  }

  lemma RemainderInLast(ip: Ip, ones: nat)
    requires 24 <= ones <= 32
    ensures Number(ip) % Pow2(32 - ones) == ip.b3 % Pow2(32 - ones)
  {
    PowersOf256();
    BlockRemainder((ip.b0 * 256 + ip.b1) * 256 + ip.b2, ip.b3, 0, 32 - ones, 0);
  }

  lemma RemainderInThird(ip: Ip, ones: nat)
    requires 16 <= ones <= 24
    ensures Number(ip) % Pow2(32 - ones) == (ip.b2 % Pow2(24 - ones)) * 256 + ip.b3
  {
    PowersOf256();
    BlockRemainder(ip.b0 * 256 + ip.b1, ip.b2, ip.b3, 24 - ones, 8);
  }

  lemma RemainderInSecond(ip: Ip, ones: nat)
    requires 8 <= ones <= 16
    ensures Number(ip) % Pow2(32 - ones) == (ip.b1 % Pow2(16 - ones)) * 0x1_0000 + (ip.b2 * 256 + ip.b3)
  {
    PowersOf256();
    BlockRemainder(ip.b0, ip.b1, ip.b2 * 256 + ip.b3, 16 - ones, 16);
  }

  lemma RemainderInFirst(ip: Ip, ones: nat)
    requires ones <= 8
    ensures Number(ip) % Pow2(32 - ones)
            == (ip.b0 % Pow2(8 - ones)) * 0x100_0000 + ((ip.b1 * 256 + ip.b2) * 256 + ip.b3)
  {
    PowersOf256();
    BlockRemainder(0, ip.b0, (ip.b1 * 256 + ip.b2) * 256 + ip.b3, 8 - ones, 24);
  }

  lemma RemainderInByte(ip: Ip, ones: nat, i: nat) returns (s: nat, r: nat)
    requires 8 * i <= ones <= 8 * (i + 1) && i < 4
    ensures r == Number(ip) % Pow2(32 - ones)
    ensures s == ByteAt(ip, i) % Pow2(ZeroBits(ones, i))
    ensures i == 3 ==> r == s
    ensures i == 2 ==> r == s * 256 + ip.b3
    ensures i == 1 ==> r == s * 0x1_0000 + (ip.b2 * 256 + ip.b3)
    ensures i == 0 ==> r == s * 0x100_0000 + ((ip.b1 * 256 + ip.b2) * 256 + ip.b3)
  {
    s, r := ByteAt(ip, i) % Pow2(ZeroBits(ones, i)), Number(ip) % Pow2(32 - ones);
    assert ZeroBits(ones, i) == 8 * (i + 1) - ones;
    match i
    case 3 => RemainderInLast(ip, ones);
    case 2 => RemainderInThird(ip, ones);
    case 1 => RemainderInSecond(ip, ones);
    case 0 => RemainderInFirst(ip, ones);
  }

  /** The bytes of a masked address when the mask ends in byte i. */
  lemma MaskedBytes(ip: Ip, ones: nat, i: nat)
    requires 8 * i <= ones <= 8 * (i + 1) && i < 4
    ensures var m := Masked(ip, ones);
            && ByteAt(m, i) == ByteAt(ip, i) - ByteAt(ip, i) % Pow2(ZeroBits(ones, i))
            && (i > 0 ==> m.b0 == ip.b0) && (i > 1 ==> m.b1 == ip.b1) && (i > 2 ==> m.b2 == ip.b2)
            && (i < 1 ==> m.b1 == 0) && (i < 2 ==> m.b2 == 0) && (i < 3 ==> m.b3 == 0)
  {
    MaskedByte(ip.b0, ones, 0);
    MaskedByte(ip.b1, ones, 1);
    MaskedByte(ip.b2, ones, 2);
    MaskedByte(ip.b3, ones, 3);
  }

  lemma MaskedNumberAt(ip: Ip, ones: nat, i: nat)
    requires 8 * i <= ones <= 8 * (i + 1) && i < 4
    ensures Number(Masked(ip, ones)) == Number(ip) - Number(ip) % Pow2(32 - ones)
  {
    var s, r := RemainderInByte(ip, ones, i);
    MaskedBytes(ip, ones, i);
    ClearedNumber(ip, Masked(ip, ones), i, s, r);
  }

  /** Masking an address drops its remainder modulo the size of the block (section 3.1 of RFC 4632). */
  lemma MaskedNumber(ip: Ip, ones: nat)
    requires ones <= 32
    ensures Number(Masked(ip, ones)) == Number(ip) - Number(ip) % Pow2(32 - ones)
  {
    MaskedNumberAt(ip, ones, if ones >= 24 then 3 else if ones >= 16 then 2 else if ones >= 8 then 1 else 0);
  }

  /** Two numbers have the same block start exactly when one lies in the block of the other. */
  lemma SameBlock(a: nat, b: nat, m: nat)
    requires m > 0
    ensures a - a % m == b - b % m <==> a - a % m <= b < a - a % m + m
  {
    var q := a / m;
    assert a - a % m == q * m;
    if q * m <= b < q * m + m {
      RemainderUnique(b, q, m, b - q * m);
    }
  }

  /** The addresses a network contains are the 2^(32-p) consecutive ones from its first. */
  lemma ContainsInterval(ip: Ip, p: nat, x: Ip)
    requires p <= 32
    ensures var first := Number(Masked(ip, p));
            Contains(Masked(ip, p), p, x) <==> first <= Number(x) < first + Pow2(32 - p)
  {
    var m := Pow2(32 - p);
    var network := Masked(ip, p);
    MaskedNumber(ip, p);
    MaskedNumber(network, p);
    MaskedNumber(x, p);
    SameBlock(Number(ip), Number(ip), m);
    SameBlock(Number(ip), Number(network), m);
    SameBlock(Number(ip), Number(x), m);
    if Number(Masked(network, p)) == Number(Masked(x, p)) {
      NumberInjective(Masked(network, p), Masked(x, p));
    }
  }

  /** A masked address is the first of its own block. */
  lemma MaskedTwice(ip: Ip, p: nat)
    requires p <= 32
    ensures Masked(Masked(ip, p), p) == Masked(ip, p)
  {
    MaskedNumber(ip, p);
    MaskedNumber(Masked(ip, p), p);
    SameBlock(Number(ip), Number(Masked(ip, p)), Pow2(32 - p));
    SameBlock(Number(ip), Number(ip), Pow2(32 - p));
    NumberInjective(Masked(Masked(ip, p), p), Masked(ip, p));
  }

  /** A /32 block holds one address. */
  lemma SingleAddress(ip: Ip, x: Ip)
    ensures Contains(Masked(ip, 32), 32, x) <==> x == ip
  {
    ContainsInterval(ip, 32, x);
    MaskedNumber(ip, 32);
    if Number(x) == Number(ip) {
      NumberInjective(x, ip);
    }
  }

  function MaskIp(p: nat): Ip
    requires p <= 32
  {
    Ip(MaskByte(p, 0), MaskByte(p, 1), MaskByte(p, 2), MaskByte(p, 3))
  }

  /** A mask that ends in byte i, as a number. */
  lemma MaskEnds(m: Ip, i: nat, z: nat, k: nat)
    requires i < 4 && k == 8 * (3 - i) && z <= 8 && ByteAt(m, i) == 256 - Pow2(z)
    requires (i > 0 ==> m.b0 == 255) && (i > 1 ==> m.b1 == 255) && (i > 2 ==> m.b2 == 255)
    requires (i < 1 ==> m.b1 == 0) && (i < 2 ==> m.b2 == 0) && (i < 3 ==> m.b3 == 0)
    ensures Number(m) == 0x1_0000_0000 - Pow2(z + k)
  {
    PowersOf256();
    Pow2Plus(z, k);
  }

  lemma MaskBytes(p: nat, i: nat)
    requires 8 * i <= p <= 8 * (i + 1) && i < 4
    ensures var m := MaskIp(p);
            && ByteAt(m, i) == 256 - Pow2(8 * (i + 1) - p)
            && (i > 0 ==> m.b0 == 255) && (i > 1 ==> m.b1 == 255) && (i > 2 ==> m.b2 == 255)
            && (i < 1 ==> m.b1 == 0) && (i < 2 ==> m.b2 == 0) && (i < 3 ==> m.b3 == 0)
  {
    PowersOf256();
  }

  lemma MaskNumber(p: nat)
    requires p <= 32
    ensures Number(MaskIp(p)) == 0x1_0000_0000 - Pow2(32 - p)
  {
    var i := if p >= 24 then 3 else if p >= 16 then 2 else if p >= 8 then 1 else 0;
    MaskBytes(p, i);
    MaskEnds(MaskIp(p), i, 8 * (i + 1) - p, 8 * (3 - i));
  }

  /** prefixToNetmask: the mask bytes, dotted. */
  function PrefixToNetmask(prefix: nat): string
    requires prefix <= 32
  {
    FormatIp(MaskIp(prefix))
  }

  /** The printed netmask reads back as the number 2^32 - 2^(32-p). */
  lemma NetmaskNumber(p: nat)
    requires p <= 32
    ensures var mask := ParseIp(PrefixToNetmask(p));
            mask.Some? && Number(mask.value) == 0x1_0000_0000 - Pow2(32 - p)
  {
    ParseFormatIp(MaskIp(p));
    MaskNumber(p);
  }
}

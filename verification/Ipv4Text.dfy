/** Dotted-decimal IPv4 text, as `Ipv4Subnet.Parse`/`Format` and `DeviceRules.NormalizeIPv4` read and write it. */
module Ipv4Text {
  import opened Prelude
  import opened Text

  type UInt32 = x: int | 0 <= x < 0x1_0000_0000

  type Octet = x: int | 0 <= x < 256

  predicate IsDigit(c: char) {
    '0' <= c <= '9'
  }

  function DigitOf(n: int): (c: char)
    requires 0 <= n < 10
    ensures IsDigit(c) && c as int - '0' as int == n
  {
    ('0' as int + n) as char
  }

  function DigitValue(c: char): (n: int)
    requires IsDigit(c)
    ensures 0 <= n < 10
  {
    c as int - '0' as int
  }

  /** One to three ASCII digits whose value fits a byte; leading zeros are accepted. */
  function ParseOctet(s: string): Option<Octet> {
    if 1 <= |s| <= 3 && (forall i | 0 <= i < |s| :: IsDigit(s[i])) then
      var v := if |s| == 1 then DigitValue(s[0])
               else if |s| == 2 then 10 * DigitValue(s[0]) + DigitValue(s[1])
               else 100 * DigitValue(s[0]) + 10 * DigitValue(s[1]) + DigitValue(s[2]);
      if v < 256 then Some(v) else None
    else None
  }

  function FormatOctet(n: Octet): string {
    if n < 10 then [DigitOf(n)]
    else if n < 100 then [DigitOf(n / 10), DigitOf(n % 10)]
    else [DigitOf(n / 100), DigitOf(n / 10 % 10), DigitOf(n % 10)]
  }

  predicate LeadingZero(s: string) {
    |s| > 1 && s[0] == '0'
  }

  lemma OctetRoundTrip(n: Octet)
    ensures ParseOctet(FormatOctet(n)) == Some(n)
    ensures !LeadingZero(FormatOctet(n)) && '.' !in FormatOctet(n)
  {
    if n >= 100 {
      assert n == 100 * (n / 100) + 10 * (n / 10 % 10) + n % 10;
    }
  }

  /** An accepted octet without a leading zero is exactly what formatting its value writes. */
  lemma CanonicalOctet(s: string)
    requires ParseOctet(s).Some? && !LeadingZero(s)
    ensures FormatOctet(ParseOctet(s).value) == s
  {
    var n := ParseOctet(s).value;
    var d := DigitValue(s[0]);
    assert s[0] == '0' <==> d == 0;
    if |s| == 2 {
      assert n / 10 == d;
    } else if |s| == 3 {
      assert n / 100 == d;
      assert n / 10 == 10 * d + DigitValue(s[1]);
    }
  }

  function BigEndian(a: Octet, b: Octet, c: Octet, d: Octet): UInt32 {
    ((a * 256 + b) * 256 + c) * 256 + d
  }

  function ParseParts(parts: seq<string>): Option<UInt32> {
    if |parts| != 4 then None else
      match (ParseOctet(parts[0]), ParseOctet(parts[1]), ParseOctet(parts[2]), ParseOctet(parts[3]))
      case (Some(a), Some(b), Some(c), Some(d)) => Some(BigEndian(a, b, c, d))
      case _ => None
  }

  /** `Ipv4Subnet.Parse`: outer white space and leading zeros are tolerated. */
  function Parse(address: string): Option<UInt32> {
    ParseParts(Split(Trim(address), '.'))
  }

  function Octets(x: UInt32): seq<Octet> {
    [x / 0x100_0000, x / 0x1_0000 % 256, x / 0x100 % 256, x % 256]
  }

  function FormatParts(x: UInt32): seq<string> {
    var o := Octets(x);
    [FormatOctet(o[0]), FormatOctet(o[1]), FormatOctet(o[2]), FormatOctet(o[3])]
  }

  /** `Ipv4Subnet.Format`. */
  function Format(x: UInt32): string {
    Join(FormatParts(x), '.')
  }

  lemma BigEndianOctets(x: UInt32)
    ensures var o := Octets(x); BigEndian(o[0], o[1], o[2], o[3]) == x
  {
  }

  lemma OctetsBigEndian(a: Octet, b: Octet, c: Octet, d: Octet)
    ensures Octets(BigEndian(a, b, c, d)) == [a, b, c, d]
  {
    var x := BigEndian(a, b, c, d);
    assert x / 0x100 == (a * 256 + b) * 256 + c;
    assert x / 0x1_0000 == a * 256 + b;
    assert x / 0x100_0000 == a;
  }

  lemma FormatEnds(x: UInt32)
    ensures |Format(x)| >= 7 && IsDigit(Format(x)[0]) && IsDigit(Format(x)[|Format(x)| - 1])
  {
    var p := FormatParts(x);
    var tail := Join(p[1..], '.');
    assert p[1..][1..] == p[2..] && p[2..][1..] == p[3..];
    assert Join(p[3..], '.') == p[3];
    assert Join(p[2..], '.') == p[2] + ['.'] + p[3];
    assert tail == p[1] + ['.'] + (p[2] + ['.'] + p[3]);
    assert Format(x) == p[0] + ['.'] + tail;
  }

  lemma FormatPartsRoundTrip(x: UInt32)
    ensures ParseParts(FormatParts(x)) == Some(x)
    ensures forall p | p in FormatParts(x) :: '.' !in p && !LeadingZero(p)
  {
    var o := Octets(x);
    OctetRoundTrip(o[0]);
    OctetRoundTrip(o[1]);
    OctetRoundTrip(o[2]);
    OctetRoundTrip(o[3]);
    BigEndianOctets(x);
  }

  /** Formatting then parsing gives back every 32-bit address. */
  lemma ParseFormat(x: UInt32)
    ensures Parse(Format(x)) == Some(x)
  {
    FormatPartsRoundTrip(x);
    SplitJoin(FormatParts(x), '.');
    FormatEnds(x);
    TrimIsProjection(Format(x));
  }

  lemma FormatInjective(x: UInt32, y: UInt32)
    requires Format(x) == Format(y)
    ensures x == y
  {
    ParseFormat(x);
    ParseFormat(y);
  }

  /** `DeviceRules.NormalizeIPv4`: leading zeros are refused and the octets are written back. */
  function Normalize(value: string): Option<string> {
    var parts := Split(value, '.');
    if forall p | p in parts :: !LeadingZero(p) then
      match ParseParts(parts)
      case Some(x) => Some(Join(seq(4, i requires 0 <= i < 4 => FormatOctet(ParseOctet(parts[i]).GetOr(0))), '.'))
      case None => None
    else None
  }

  predicate Canonical(address: string) {
    Parse(address).Some? && Format(Parse(address).value) == address
  }

  /**
   * The inventory and the discovery code agree on IPv4 text: the inventory accepts exactly the canonical
   * spelling of an address, and keeps it as it is.
   */
  lemma NormalizeAcceptsExactlyCanonical(s: string)
    ensures Normalize(s).Some? <==> Canonical(s)
    ensures Normalize(s).Some? ==> Normalize(s).value == s
  {
    if Normalize(s).Some? {
      NormalizedIsCanonical(s);
    }
    if Canonical(s) {
      var x := Parse(s).value;
      FormatPartsRoundTrip(x);
      SplitJoin(FormatParts(x), '.');
    }
  }

  lemma CanonicalParts(parts: seq<string>)
    requires ParseParts(parts).Some? && forall p | p in parts :: !LeadingZero(p)
    ensures seq(4, i requires 0 <= i < 4 => FormatOctet(ParseOctet(parts[i]).GetOr(0))) == parts
    ensures FormatParts(ParseParts(parts).value) == parts
  {
    hide ParseOctet, FormatOctet, BigEndian;
    forall i | 0 <= i < 4 ensures FormatOctet(ParseOctet(parts[i]).value) == parts[i] {
      CanonicalOctet(parts[i]);
    }
    OctetsBigEndian(ParseOctet(parts[0]).value, ParseOctet(parts[1]).value,
                    ParseOctet(parts[2]).value, ParseOctet(parts[3]).value);
  }

  lemma NormalizedIsCanonical(s: string)
    requires Normalize(s).Some?
    ensures Normalize(s).value == s && Canonical(s)
  {
    var parts := Split(s, '.');
    CanonicalParts(parts);
    JoinSplit(s, '.');
    ParseFormat(ParseParts(parts).value);
  }
}

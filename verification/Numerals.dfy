/**
 The text forms of numbers and bytes that the proxy writes and reads: decimal integers as printed by Go's
 `%d`, `strconv` and `math/big`, and base16 as defined in section 8 of RFC 4648.
 */
module Numerals {
  import opened Basics

  // ----- Decimal -----

  predicate IsDigit(c: char) {
    '0' <= c <= '9'
  }

  predicate AllDigits(s: string) {
    forall i :: 0 <= i < |s| ==> IsDigit(s[i])
  }

  function DigitOf(d: nat): char
    requires d < 10
  {
    '0' + d as char
  }

  function ValueOf(c: char): nat
    requires IsDigit(c)
  {
    (c - '0') as nat
  }

  /** The canonical decimal form. */
  function Decimal(n: nat): (s: string)
    ensures s != [] && AllDigits(s)
  {
    if n < 10 then [DigitOf(n)] else Decimal(n / 10) + [DigitOf(n % 10)]
  }

  function Value(s: string): nat
    requires AllDigits(s)
  {
    if s == [] then 0 else Value(s[..|s| - 1]) * 10 + ValueOf(s[|s| - 1])
  }

  lemma {:induction false} DecimalRoundTrip(n: nat)
    ensures Value(Decimal(n)) == n
  {
    var s := Decimal(n);
    if n < 10 {
      assert s[..0] == [];
    } else {
      DecimalRoundTrip(n / 10);
      assert s[..|s| - 1] == Decimal(n / 10);
    }
  }

  lemma DecimalInjective(n: nat, m: nat)
    requires Decimal(n) == Decimal(m)
    ensures n == m
  {
    DecimalRoundTrip(n);
    DecimalRoundTrip(m);
  }

  /** `strconv.ParseUint(s, 10, bits)`, where `limit` is two to the number of bits. */
  function ParseUint(s: string, limit: nat): Option<nat> {
    if s != [] && AllDigits(s) && Value(s) < limit then Some(Value(s)) else None
  }

  lemma ParseUintDecimal(n: nat, limit: nat)
    ensures ParseUint(Decimal(n), limit) == if n < limit then Some(n) else None
  {
    DecimalRoundTrip(n);
  }

  // ----- Signed decimal of any size -----

  /** `(*big.Int).String()`. */
  function BigString(x: int): (s: string)
    ensures s != []
  {
    if x < 0 then "-" + Decimal(-x) else Decimal(x)
  }

  /** `(*big.Int).SetString(s, 10)`: an optional sign, then digits and nothing else. */
  function ParseBig(s: string): Option<int> {
    var digits := if s != [] && (s[0] == '-' || s[0] == '+') then s[1..] else s;
    if digits == [] || !AllDigits(digits) then None
    else
      var v: int := Value(digits);
      Some(if s[0] == '-' then -v else v)
  }

  lemma BigRoundTrip(x: int)
    ensures ParseBig(BigString(x)) == Some(x)
  {
    if x < 0 {
      DecimalRoundTrip(-x);
      assert BigString(x)[1..] == Decimal(-x);
    } else {
      DecimalRoundTrip(x);
      assert IsDigit(Decimal(x)[0]);
    }
  }

  // ----- Base16 -----

  type Byte = x: int | 0 <= x < 256

  function HexDigitOf(d: nat): char
    requires d < 16
  {
    if d < 10 then '0' + d as char else 'a' + (d - 10) as char
  }

  /** Upper and lower case digits are read alike. */
  function HexValueOf(c: char): (d: Option<nat>)
    ensures d.Some? ==> d.value < 16
  {
    if '0' <= c <= '9' then Some((c - '0') as nat)
    else if 'a' <= c <= 'f' then Some((c - 'a') as nat + 10)
    else if 'A' <= c <= 'F' then Some((c - 'A') as nat + 10)
    else None
  }

  /** `hex.EncodeToString`. */
  function HexEncode(bytes: seq<Byte>): (s: string)
    ensures |s| == 2 * |bytes|
  {
    if bytes == [] then []
    else [HexDigitOf(bytes[0] / 16), HexDigitOf(bytes[0] % 16)] + HexEncode(bytes[1..])
  }

  /** `hex.DecodeString`: an odd length or any other character is an error. */
  function HexDecode(s: string): Option<seq<Byte>> {
    if s == [] then Some([])
    else if |s| == 1 then None
    else
      var hi, lo, rest := HexValueOf(s[0]), HexValueOf(s[1]), HexDecode(s[2..]);
      if hi.Some? && lo.Some? && rest.Some? then Some([(hi.value * 16 + lo.value) as Byte] + rest.value) else None
  }

  lemma {:induction false} HexRoundTrip(bytes: seq<Byte>)
    ensures HexDecode(HexEncode(bytes)) == Some(bytes)
  {
    if bytes != [] {
      HexRoundTrip(bytes[1..]);
      var s := HexEncode(bytes);
      assert s[2..] == HexEncode(bytes[1..]);
      assert s[0] == HexDigitOf(bytes[0] / 16) && s[1] == HexDigitOf(bytes[0] % 16);
      assert bytes == [bytes[0]] + bytes[1..];
      assert HexValueOf(HexDigitOf(bytes[0] / 16)) == Some(bytes[0] / 16);
      assert HexValueOf(HexDigitOf(bytes[0] % 16)) == Some(bytes[0] % 16);
    }
  }

  // ----- Examples that fix the digits -----

  lemma DecimalExample()
    ensures Decimal(1_024) == "1024"
    ensures forall d :: 0 <= d < 10 ==> Decimal(d) == ["0123456789"[d]]
  {
    assert Decimal(1) == "1" && Decimal(10) == "10" && Decimal(102) == "102";
  }

  /** A sign may lead; nothing but digits may follow, and at least one must. */
  lemma BigExamples()
    ensures ParseBig("-12") == Some(-12) && ParseBig("+12") == Some(12) && ParseBig("12") == Some(12)
    ensures ParseBig("") == None && ParseBig("-") == None && ParseBig("1x") == None && ParseBig("--1") == None
  {
    assert Decimal(1) == "1" && Decimal(12) == "12";
    DecimalRoundTrip(12);
    assert "-12"[1..] == "12" && "+12"[1..] == "12" && "-"[1..] == "" && "--1"[1..] == "-1";
    assert !IsDigit("1x"[1]) && !IsDigit("-1"[0]) && "12"[0] == '1';
  }

  /** The test vector of section 10 of RFC 4648, in lower case. */
  lemma HexExample()
    ensures HexEncode([0x66, 0x6F, 0x6F, 0x62, 0x61, 0x72]) == "666f6f626172"
  {
    assert HexEncode([0x72]) == "72";
    assert HexEncode([0x61, 0x72]) == "6172";
    assert HexEncode([0x62, 0x61, 0x72]) == "626172";
    assert HexEncode([0x6F, 0x62, 0x61, 0x72]) == "6f626172";
    assert HexEncode([0x6F, 0x6F, 0x62, 0x61, 0x72]) == "6f6f626172";
  }

  /** Either case is read; an odd length and any other character are errors. */
  lemma HexReadExamples()
    ensures HexDecode("6F") == HexDecode("6f") == Some([0x6F]) && HexDecode("6") == HexDecode("6G") == None
  {
    assert "6F"[2..] == "6f"[2..] == "6G"[2..] == [];
    assert HexValueOf('6') == Some(6) && HexValueOf('F') == HexValueOf('f') == Some(15) && HexValueOf('G') == None;
    assert HexDecode([]) == Some([]);
    var byte: seq<Byte> := [0x6F];
    assert byte + [] == byte;
    assert HexDecode("6F") == Some(byte + []) && HexDecode("6f") == Some(byte + []);
  }
}

/** What the byte strings of `Text` mean: UTF-8 by RFC 3629 section 3, white space, decimal numbers. */
module Unicode {
  import opened Text

  /** A Unicode scalar value: a code point that is no surrogate. */
  predicate IsScalar(c: int) {
    0 <= c < 0xD800 || 0xE000 <= c < 0x110000
  }

  function Byte(b: int): char
    requires 0 <= b < 0x100
  {
    b as char
  }

  /** The table of RFC 3629 section 3. */
  function Utf8(c: int): string
    requires IsScalar(c)
  {
    if c < 0x80 then [Byte(c)]
    else if c < 0x800 then [Byte(0xC0 + c / 64), Byte(0x80 + c % 64)]
    else if c < 0x10000 then [Byte(0xE0 + c / 4096), Byte(0x80 + c / 64 % 64), Byte(0x80 + c % 64)]
    else [Byte(0xF0 + c / 262144), Byte(0x80 + c / 4096 % 64), Byte(0x80 + c / 64 % 64), Byte(0x80 + c % 64)]
  }

  /** The number in the bytes of one rune. */
  function Scalar(r: string): int
    requires 1 <= |r| <= 4
  {
    if |r| == 1 then r[0] as int
    else if |r| == 2 then (r[0] as int - 0xC0) * 64 + r[1] as int - 0x80
    else if |r| == 3 then (r[0] as int - 0xE0) * 4096 + (r[1] as int - 0x80) * 64 + r[2] as int - 0x80
    else (r[0] as int - 0xF0) * 262144 + (r[1] as int - 0x80) * 4096 + (r[2] as int - 0x80) * 64 + r[3] as int - 0x80
  }

  lemma Digits64(a: int, b: int)
    requires 0 <= b < 64
    ensures (a * 64 + b) / 64 == a && (a * 64 + b) % 64 == b
  {
  }

  lemma TwoBytes(s: string)
    requires RuneLen(s) == 2
    ensures IsScalar(Scalar(s[..2])) && s[..2] == Utf8(Scalar(s[..2]))
  {
    Digits64(s[0] as int - 0xC0, s[1] as int - 0x80);
  }

  lemma ThreeBytes(s: string)
    requires RuneLen(s) == 3
    ensures IsScalar(Scalar(s[..3])) && s[..3] == Utf8(Scalar(s[..3]))
  {
    var a, b, c := s[0] as int - 0xE0, s[1] as int - 0x80, s[2] as int - 0x80;
    Digits64(a * 64 + b, c);
    Digits64(a, b);
    assert Scalar(s[..3]) == (a * 64 + b) * 64 + c;
    assert Scalar(s[..3]) / 4096 == a;
  }

  lemma FourBytes(s: string)
    requires RuneLen(s) == 4
    ensures IsScalar(Scalar(s[..4])) && s[..4] == Utf8(Scalar(s[..4]))
  {
    var a, b, c, d := s[0] as int - 0xF0, s[1] as int - 0x80, s[2] as int - 0x80, s[3] as int - 0x80;
    Digits64((a * 64 + b) * 64 + c, d);
    Digits64(a * 64 + b, c);
    Digits64(a, b);
    var n := Scalar(s[..4]);
    assert n == ((a * 64 + b) * 64 + c) * 64 + d;
    assert n / 4096 == a * 64 + b && n / 262144 == a;
  }

  /** What is recognized as a rune is the UTF-8 form of its scalar value. */
  lemma RuneIsUtf8(s: string)
    requires RuneLen(s) > 0
    ensures var r := s[..RuneLen(s)]; IsScalar(Scalar(r)) && r == Utf8(Scalar(r))
  {
    if RuneLen(s) == 2 {
      TwoBytes(s);
    } else if RuneLen(s) == 3 {
      ThreeBytes(s);
    } else if RuneLen(s) == 4 {
      FourBytes(s);
    }
  }

  /** And every UTF-8 form is recognized, whatever follows it. */
  lemma Utf8IsRune(c: int, rest: string)
    requires IsScalar(c)
    ensures RuneLen(Utf8(c) + rest) == |Utf8(c)|
  {
    var r, s := Utf8(c), Utf8(c) + rest;
    assert forall k :: 0 <= k < |r| ==> s[k] == r[k];
  }

  /** The UTF-8 text of a list of scalar values. */
  function Utf8All(scalars: seq<int>): string
    requires forall c :: c in scalars ==> IsScalar(c)
  {
    if scalars == [] then "" else Utf8(scalars[0]) + Utf8All(scalars[1..])
  }

  /** A string is valid exactly when it is the UTF-8 text of some scalar values. */
  lemma {:induction false} ValidIsUtf8(s: string) returns (scalars: seq<int>)
    requires ValidUtf8(s)
    ensures (forall c :: c in scalars ==> IsScalar(c)) && s == Utf8All(scalars)
  {
    if s == "" {
      scalars := [];
    } else {
      var n := RuneLen(s);
      RuneIsUtf8(s);
      var rest := ValidIsUtf8(s[n..]);
      scalars := [Scalar(s[..n])] + rest;
      assert s == s[..n] + s[n..];
    }
  }

  lemma {:induction false} Utf8IsValid(scalars: seq<int>)
    requires forall c :: c in scalars ==> IsScalar(c)
    ensures ValidUtf8(Utf8All(scalars))
  {
    if scalars != [] {
      var rest := Utf8All(scalars[1..]);
      Utf8IsRune(scalars[0], rest);
      Utf8IsValid(scalars[1..]);
      assert (Utf8(scalars[0]) + rest)[|Utf8(scalars[0])|..] == rest;
    }
  }

  /** Valid text is put together again from its runes. */
  lemma {:induction false} RunesRejoin(s: string)
    requires ValidUtf8(s)
    ensures Encode(Runes(s)) == s
  {
    if s != "" {
      RunesRejoin(s[RuneLen(s)..]);
    }
  }

  // ----- white space -----

  /** unicode.IsSpace */
  predicate IsSpace(c: int) {
    || 9 <= c <= 13 || c == 0x20 || c == 0x85 || c == 0xA0 || c == 0x1680 || 0x2000 <= c <= 0x200A
    || c == 0x2028 || c == 0x2029 || c == 0x202F || c == 0x205F || c == 0x3000
  }

  lemma SpaceIsRune(s: string)
    requires RuneLen(s) > 0
    ensures SpaceLen(s) == if IsSpace(Scalar(s[..RuneLen(s)])) then RuneLen(s) else 0
  {
  }

  /** Blank text has white space only, rune by rune. */
  lemma {:induction false} BlankIsSpace(s: string)
    requires ValidUtf8(s)
    ensures Blank(s) <==> forall r :: r in Runes(s) ==> 1 <= |r| <= 4 && IsSpace(Scalar(r))
  {
    if s != "" {
      SpaceIsRune(s);
      BlankIsSpace(s[RuneLen(s)..]);
    }
  }

  // ----- decimal numbers -----

  function Value(digits: string): int {
    if digits == "" then 0 else 10 * Value(digits[..|digits| - 1]) + digits[|digits| - 1] as int - '0' as int
  }

  /** A number is written in base ten, without leading zeros. */
  lemma {:induction false} DecimalReads(n: nat)
    ensures Value(Decimal(n)) == n
    ensures |Decimal(n)| > 1 ==> Decimal(n)[0] != '0'
  {
    if n >= 10 {
      DecimalReads(n / 10);
      var s := Decimal(n);
      assert s[..|s| - 1] == Decimal(n / 10);
      if |Decimal(n / 10)| == 1 {
        assert Value(Decimal(n / 10)) == Decimal(n / 10)[0] as int - '0' as int;
      }
    }
  }
}

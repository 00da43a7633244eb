/**
 Go strings and the parts of `strings`, `strconv` and `unicode/utf8` the engine uses.

 A Go string is a sequence of bytes.  Here it is a Dafny `string` in which every
 character stands for one byte; a character above 255 is no byte at all and is
 rejected by `ValidUtf8`, as every string the engine keeps has to pass it.
 */
module Text {

  // ----- UTF-8, RFC 3629 section 3 -----

  /** utf8.RuneStart: anything but a continuation byte. */
  predicate RuneStart(b: char) {
    !(0x80 <= b as int < 0xC0)
  }

  predicate ByteIn(s: string, k: nat, lo: int, hi: int) {
    k < |s| && lo <= s[k] as int <= hi
  }

  /** The length of the encoded rune that `s` starts with; 0 when it starts with none. */
  function RuneLen(s: string): (n: nat)
    ensures n <= 4 && n <= |s|
  {
    if ByteIn(s, 0, 0x00, 0x7F) then 1
    else if ByteIn(s, 0, 0xC2, 0xDF) && ByteIn(s, 1, 0x80, 0xBF) then 2
    else if ByteIn(s, 2, 0x80, 0xBF) &&
      (|| (ByteIn(s, 0, 0xE0, 0xE0) && ByteIn(s, 1, 0xA0, 0xBF))
       || (ByteIn(s, 0, 0xE1, 0xEC) && ByteIn(s, 1, 0x80, 0xBF))
       || (ByteIn(s, 0, 0xED, 0xED) && ByteIn(s, 1, 0x80, 0x9F))
       || (ByteIn(s, 0, 0xEE, 0xEF) && ByteIn(s, 1, 0x80, 0xBF))) then 3
    else if ByteIn(s, 2, 0x80, 0xBF) && ByteIn(s, 3, 0x80, 0xBF) &&
      (|| (ByteIn(s, 0, 0xF0, 0xF0) && ByteIn(s, 1, 0x90, 0xBF))
       || (ByteIn(s, 0, 0xF1, 0xF3) && ByteIn(s, 1, 0x80, 0xBF))
       || (ByteIn(s, 0, 0xF4, 0xF4) && ByteIn(s, 1, 0x80, 0x8F))) then 4
    else 0
  }

  predicate ValidUtf8(s: string) {
    s == "" || (RuneLen(s) > 0 && ValidUtf8(s[RuneLen(s)..]))
  }

  predicate Ascii(s: string) {
    forall k :: 0 <= k < |s| ==> s[k] as int < 0x80
  }

  lemma RuneLenLocal(s: string, t: string)
    requires RuneLen(s) > 0
    requires RuneLen(s) <= |t| && t[..RuneLen(s)] == s[..RuneLen(s)]
    ensures RuneLen(t) == RuneLen(s)
  {
    var n := RuneLen(s);
    assert forall k :: 0 <= k < n ==> t[k] == t[..n][k] == s[..n][k] == s[k];
  }

  lemma {:induction false} ValidConcat(a: string, b: string)
    requires ValidUtf8(a) && ValidUtf8(b)
    ensures ValidUtf8(a + b)
  {
    if a == "" {
      assert a + b == b;
    } else {
      var n := RuneLen(a);
      RuneLenLocal(a, a + b);
      assert (a + b)[n..] == a[n..] + b;
      ValidConcat(a[n..], b);
    }
  }

  lemma {:induction false} AsciiValid(s: string)
    requires Ascii(s)
    ensures ValidUtf8(s)
  {
    if s != "" {
      AsciiValid(s[1..]);
    }
  }

  lemma RuneInside(s: string, k: nat)
    requires 0 < k < RuneLen(s)
    ensures !RuneStart(s[k])
  {
  }

  lemma AsciiPrepend(a: string, b: string)
    requires Ascii(a) && ValidUtf8(b)
    ensures ValidUtf8(a + b)
  {
    AsciiValid(a);
    ValidConcat(a, b);
  }

  lemma AsciiAppend(a: string, b: string)
    requires ValidUtf8(a) && Ascii(b)
    ensures ValidUtf8(a + b)
  {
    AsciiValid(b);
    ValidConcat(a, b);
  }

  /** Cutting valid text in front of a rune start leaves valid text on both sides. */
  lemma {:induction false} CutAtRuneStart(s: string, k: nat)
    requires ValidUtf8(s) && k < |s| && RuneStart(s[k])
    ensures ValidUtf8(s[..k]) && ValidUtf8(s[k..])
  {
    var n := RuneLen(s);
    if k == 0 {
      assert s[..0] == "" && s[0..] == s;
    } else {
      if k < n {
        RuneInside(s, k);
      }
      assert s[n..][k - n] == s[k];
      CutAtRuneStart(s[n..], k - n);
      RuneLenLocal(s, s[..k]);
      assert s[..k][n..] == s[n..][..k - n];
      assert s[n..][k - n..] == s[k..];
    }
  }

  /** The bytes of the replacement rune U+FFFD. */
  const REPLACEMENT: string := [0xEF as char, 0xBF as char, 0xBD as char]

  /** `[]rune(s)`, each rune given by its encoding; an invalid byte decodes to U+FFFD. */
  function Runes(s: string): seq<string> {
    if s == "" then []
    else if RuneLen(s) > 0 then [s[..RuneLen(s)]] + Runes(s[RuneLen(s)..])
    else [REPLACEMENT] + Runes(s[1..])
  }

  predicate IsRune(r: string) {
    RuneLen(r) == |r| > 0
  }

  /** `string(runes)` */
  function Encode(runes: seq<string>): string {
    if runes == [] then "" else runes[0] + Encode(runes[1..])
  }

  lemma {:induction false} RunesAreRunes(s: string)
    ensures forall r :: r in Runes(s) ==> IsRune(r)
  {
    if s == "" {
    } else if RuneLen(s) > 0 {
      RuneLenLocal(s, s[..RuneLen(s)]);
      RunesAreRunes(s[RuneLen(s)..]);
    } else {
      RunesAreRunes(s[1..]);
    }
  }

  lemma RunesCons(r: string, t: string)
    requires IsRune(r)
    ensures Runes(r + t) == [r] + Runes(t)
  {
    var s := r + t;
    assert s[..|r|] == r == r[..|r|] && s[|r|..] == t;
    RuneLenLocal(r, s);
  }

  /** Encoding runes and decoding them again gives the same runes. */
  lemma {:induction false} RunesOfEncode(runes: seq<string>)
    requires forall k :: 0 <= k < |runes| ==> IsRune(runes[k])
    ensures Runes(Encode(runes)) == runes
  {
    if runes != [] {
      RunesOfEncode(runes[1..]);
      RunesCons(runes[0], Encode(runes[1..]));
    }
  }

  lemma {:induction false} EncodeConcat(a: seq<string>, b: seq<string>)
    ensures Encode(a + b) == Encode(a) + Encode(b)
  {
    if a == [] {
      assert a + b == b;
    } else {
      assert (a + b)[1..] == a[1..] + b;
      EncodeConcat(a[1..], b);
    }
  }

  /** ASCII text has one rune a byte. */
  lemma {:induction false} RunesOfAscii(s: string)
    requires Ascii(s)
    ensures |Runes(s)| == |s| && Encode(Runes(s)) == s
  {
    if s != "" {
      RunesOfAscii(s[1..]);
      assert s == s[..1] + s[1..];
    }
  }

  // ----- blank text: strings.TrimSpace(s) == "" -----

  /** The length of the white-space rune `s` starts with, 0 when it starts with none. */
  function SpaceLen(s: string): (n: nat)
    ensures n <= |s|
  {
    if ByteIn(s, 0, 9, 13) || ByteIn(s, 0, 0x20, 0x20) then 1
    else if ByteIn(s, 0, 0xC2, 0xC2) && (ByteIn(s, 1, 0x85, 0x85) || ByteIn(s, 1, 0xA0, 0xA0)) then 2
    else if ByteIn(s, 0, 0xE1, 0xE1) && ByteIn(s, 1, 0x9A, 0x9A) && ByteIn(s, 2, 0x80, 0x80) then 3
    else if ByteIn(s, 0, 0xE2, 0xE2) && ByteIn(s, 1, 0x80, 0x80) &&
      (ByteIn(s, 2, 0x80, 0x8A) || ByteIn(s, 2, 0xA8, 0xA9) || ByteIn(s, 2, 0xAF, 0xAF)) then 3
    else if ByteIn(s, 0, 0xE2, 0xE2) && ByteIn(s, 1, 0x81, 0x81) && ByteIn(s, 2, 0x9F, 0x9F) then 3
    else if ByteIn(s, 0, 0xE3, 0xE3) && ByteIn(s, 1, 0x80, 0x80) && ByteIn(s, 2, 0x80, 0x80) then 3
    else 0
  }

  predicate Blank(s: string) {
    s == "" || (SpaceLen(s) > 0 && Blank(s[SpaceLen(s)..]))
  }

  // ----- decimal numbers: strconv.Itoa and %d -----

  function Digit(d: nat): char
    requires d < 10
  {
    "0123456789"[d]
  }

  function Decimal(n: nat): (s: string)
    ensures |s| > 0
    ensures forall k :: 0 <= k < |s| ==> '0' <= s[k] <= '9'
  {
    if n < 10 then [Digit(n)] else Decimal(n / 10) + [Digit(n % 10)]
  }

  lemma {:induction false} DecimalInjective(m: nat, n: nat)
    requires Decimal(m) == Decimal(n)
    ensures m == n
  {
    var s, t := Decimal(m), Decimal(n);
    assert s[|s| - 1] == t[|t| - 1];
    if m >= 10 && n >= 10 {
      assert s[..|s| - 1] == Decimal(m / 10) && t[..|t| - 1] == Decimal(n / 10);
      DecimalInjective(m / 10, n / 10);
    }
  }

  function Pow10(k: nat): (p: nat)
    ensures p > 0
  {
    if k == 0 then 1 else 10 * Pow10(k - 1)
  }

  lemma {:induction false} DecimalLength(n: nat, k: nat)
    requires k > 0 && n < Pow10(k)
    ensures |Decimal(n)| <= k
  {
    if n >= 10 {
      assert Pow10(1) == 10;
      assert n / 10 < Pow10(k - 1);
      DecimalLength(n / 10, k - 1);
    }
  }

  /** Two keys that agree up to and after a separator no number contains. */
  lemma SeparatorSplits(a: string, b: string, c: string, d: string, sep: char)
    requires a + [sep] + b == c + [sep] + d
    requires sep !in a && sep !in c
    ensures a == c && b == d
  {
    var s, t := a + [sep] + b, c + [sep] + d;
    assert forall k :: 0 <= k < |a| ==> s[k] == a[k];
    assert forall k :: 0 <= k < |c| ==> t[k] == c[k];
    assert s[|a|] == sep && t[|c|] == sep;
    assert |a| == |c|;
    assert s[..|a|] == a && t[..|a|] == c;
    assert s[|a| + 1..] == b && t[|a| + 1..] == d;
  }

  // ----- strings.Split(text, "\n") -----

  function Split(text: string): (lines: seq<string>)
    ensures |lines| > 0
  {
    if text == "" then [""]
    else if text[0] == '\n' then [""] + Split(text[1..])
    else
      var rest := Split(text[1..]);
      [[text[0]] + rest[0]] + rest[1..]
  }

  function JoinLines(lines: seq<string>): string
    requires |lines| > 0
  {
    if |lines| == 1 then lines[0] else lines[0] + "\n" + JoinLines(lines[1..])
  }

  /** Splitting loses nothing, and no line holds a line break. */
  lemma {:induction false} SplitJoin(text: string)
    ensures JoinLines(Split(text)) == text
    ensures forall l :: l in Split(text) ==> '\n' !in l
  {
    if text != "" {
      SplitJoin(text[1..]);
      var rest := Split(text[1..]);
      if text[0] == '\n' {
        assert Split(text)[1..] == rest;
      } else {
        var lines := Split(text);
        assert lines[1..] == rest[1..];
        if |rest| > 1 {
          assert JoinLines(lines) == [text[0]] + rest[0] + "\n" + JoinLines(rest[1..]);
          assert JoinLines(lines) == [text[0]] + JoinLines(rest);
        }
      }
    }
  }

  lemma {:induction false} SplitLength(text: string)
    ensures |Split(text)| <= |text| + 1
  {
    if text != "" {
      SplitLength(text[1..]);
    }
  }

  /** The lines of valid UTF-8 text are valid UTF-8. */
  lemma {:induction false} SplitValid(text: string)
    requires ValidUtf8(text)
    ensures forall l :: l in Split(text) ==> ValidUtf8(l)
  {
    SplitJoin(text);
    JoinedValid(Split(text));
  }

  lemma {:induction false} JoinedValid(lines: seq<string>)
    requires |lines| > 0 && ValidUtf8(JoinLines(lines))
    ensures forall l :: l in lines ==> ValidUtf8(l)
  {
    if |lines| > 1 {
      var s, k := JoinLines(lines), |lines[0]|;
      assert s == lines[0] + "\n" + JoinLines(lines[1..]);
      assert s[k] == '\n';
      CutAtRuneStart(s, k);
      assert s[..k] == lines[0];
      assert s[k..][1..] == JoinLines(lines[1..]);
      assert RuneLen(s[k..]) == 1;
      JoinedValid(lines[1..]);
    }
  }
}

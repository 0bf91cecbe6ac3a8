/** The octal number fields of a ustar header: how they are written and how they are read back. */
module OctalFields {
  import opened Wrappers
  import opened SourceTreePaths


  const ZERO_DIGIT: Byte := 48
  const MINUS: Byte := 45
  const PLUS: Byte := 43

  function Repeat(b: Byte, n: nat): (r: seq<Byte>)
    ensures |r| == n && forall i :: 0 <= i < n ==> r[i] == b
  {
    seq(n, _ => b)
  }

  function Zeros(n: nat): (r: seq<Byte>)
    ensures |r| == n
  {
    Repeat(0, n)
  }

  function Pow8(n: nat): nat {
    if n == 0 then 1 else 8 * Pow8(n - 1)
  }

  predicate OctalDigit(b: Byte) {
    48 <= b <= 55
  }

  predicate AllOctal(s: seq<Byte>) {
    forall i :: 0 <= i < |s| ==> OctalDigit(s[i])
  }

  // ---- writing --------------------------------------------------------------------

  /** A number in base eight, without leading zeros. */
  function Digits(v: nat): (s: seq<Byte>)
    ensures |s| >= 1 && AllOctal(s)
  {
    if v < 8 then [48 + v] else Digits(v / 8) + [48 + v % 8]
  }

  /** At least `width` digits, padded on the left, of which the first `width` are kept. */
  function OctalText(v: nat, width: nat): (s: seq<Byte>)
    ensures |s| == width && AllOctal(s)
  {
    var digits := Digits(v);
    (if |digits| < width then Repeat(ZERO_DIGIT, width - |digits|) + digits else digits)[..width]
  }

  function OctalField(v: nat, length: nat): (s: seq<Byte>)
    requires length >= 1
    ensures |s| == length
  {
    OctalText(v, length - 1) + [0]
  }

  // ---- reading --------------------------------------------------------------------

  function Value(s: seq<Byte>): nat
    requires AllOctal(s)
  {
    if s == [] then 0 else 8 * Value(s[..|s| - 1]) + (s[|s| - 1] - 48)
  }

  /** Where the text ends: at the first NUL after which the line does not break again. */
  function TextEnd(s: seq<Byte>, from: nat): (end: nat)
    requires from <= |s|
    ensures from <= end <= |s|
    decreases |s| - from
  {
    if from == |s| then from
    else if s[from] == 0 && (forall i :: from < i < |s| ==> !LineTerminator(s[i])) then from
    else TextEnd(s, from + 1)
  }

  function StripNul(s: seq<Byte>): seq<Byte> {
    s[..TextEnd(s, 0)]
  }

  predicate White(b: Byte) {
    9 <= b <= 13 || b == 32
  }

  function TrimStart(s: seq<Byte>): seq<Byte> {
    if s != [] && White(s[0]) then TrimStart(s[1..]) else s
  }

  function TrimEnd(s: seq<Byte>): seq<Byte> {
    if s != [] && White(s[|s| - 1]) then TrimEnd(s[..|s| - 1]) else s
  }

  function OctalPrefix(s: seq<Byte>): (r: seq<Byte>)
    ensures AllOctal(r)
  {
    if s != [] && OctalDigit(s[0]) then [s[0]] + OctalPrefix(s[1..]) else []
  }

  /** parseInt in base eight on trimmed text; None is NaN. */
  function ParseInt8(text: seq<Byte>): Option<int> {
    var signed := text != [] && (text[0] == MINUS || text[0] == PLUS);
    var digits := OctalPrefix(if signed then text[1..] else text);
    if digits == [] then None
    else Some(if text[0] == MINUS then -(Value(digits) as int) else Value(digits) as int)
  }

  /** Decoding as ASCII drops the high bit. */
  function Ascii(s: seq<Byte>): (r: seq<Byte>)
    ensures |r| == |s| && forall i :: 0 <= i < |s| ==> r[i] == s[i] % 128
  {
    seq(|s|, i requires 0 <= i < |s| => s[i] % 128)
  }

  function ParseOctal(field: seq<Byte>): Option<int> {
    var text := TrimEnd(TrimStart(StripNul(Ascii(field))));
    if text == [] then Some(0) else ParseInt8(text)
  }

  // ---- the round trip ---------------------------------------------------------------

  lemma {:induction false} Pow8Grows(m: nat, n: nat)
    requires m <= n
    ensures 1 <= Pow8(m) <= Pow8(n)
    decreases n
  {
    if m < n {
      Pow8Grows(m, n - 1);
    } else if m > 0 {
      Pow8Grows(m - 1, m - 1);
    }
  }

  lemma {:induction false} ValueOfDigits(v: nat)
    ensures Value(Digits(v)) == v
  {
    if v >= 8 {
      ValueOfDigits(v / 8);
      assert Digits(v)[..|Digits(v)| - 1] == Digits(v / 8);
    } else {
      assert Digits(v)[..0] == [];
    }
  }

  lemma {:induction false} DigitCount(v: nat, n: nat)
    requires n >= 1
    ensures |Digits(v)| <= n <==> v < Pow8(n)
  {
    if n == 1 {
      assert Pow8(1) == 8 * Pow8(0);
    } else if v < 8 {
      Pow8Grows(1, n);
      assert Pow8(1) == 8 * Pow8(0);
    } else {
      DigitCount(v / 8, n - 1);
    }
  }

  lemma {:induction false} ValueSkipsZeros(k: nat, s: seq<Byte>)
    requires AllOctal(s)
    ensures Value(Repeat(ZERO_DIGIT, k) + s) == Value(s)
    decreases k + |s|
  {
    var t := Repeat(ZERO_DIGIT, k) + s;
    if s != [] {
      ValueSkipsZeros(k, s[..|s| - 1]);
      assert t[..|t| - 1] == Repeat(ZERO_DIGIT, k) + s[..|s| - 1];
    } else if k > 0 {
      ValueSkipsZeros(k - 1, s);
      assert t[..k - 1] == Repeat(ZERO_DIGIT, k - 1) + s;
    } else {
      assert t == s;
    }
  }

  /** Cutting low digits off makes a positive number smaller. */
  lemma {:induction false} TopDigitsAreSmaller(v: nat, width: nat)
    requires width < |Digits(v)|
    ensures Value(Digits(v)[..width]) < v || v == 0
    ensures v == 0 ==> width == 0
  {
    var d := Digits(v);
    if v >= 8 {
      assert d[..width] == Digits(v / 8)[..width];
      if width < |Digits(v / 8)| {
        TopDigitsAreSmaller(v / 8, width);
      } else {
        assert Digits(v / 8)[..width] == Digits(v / 8);
        ValueOfDigits(v / 8);
      }
    } else {
      assert d[..width] == [];
    }
  }

  lemma TextValue(v: nat, width: nat)
    requires width >= 1
    ensures v < Pow8(width) ==> Value(OctalText(v, width)) == v
    ensures v >= Pow8(width) ==> Value(OctalText(v, width)) < v
  {
    var digits := Digits(v);
    DigitCount(v, width);
    ValueOfDigits(v);
    if |digits| < width {
      ValueSkipsZeros(width - |digits|, digits);
      assert OctalText(v, width) == Repeat(ZERO_DIGIT, width - |digits|) + digits;
    } else if |digits| == width {
      assert OctalText(v, width) == digits;
    } else {
      TopDigitsAreSmaller(v, width);
    }
  }

  lemma {:induction false} TextEndsAtFirstNul(s: seq<Byte>, k: nat, from: nat)
    requires from <= k < |s| && s[k] == 0
    requires forall i :: 0 <= i < k ==> s[i] != 0
    requires forall i :: k < i < |s| ==> !LineTerminator(s[i])
    ensures TextEnd(s, from) == k
    decreases k - from
  {
    if from < k { TextEndsAtFirstNul(s, k, from + 1); }
  }

  lemma {:induction false} OctalPrefixOfOctal(s: seq<Byte>)
    requires AllOctal(s)
    ensures OctalPrefix(s) == s
  {
    if s != [] { OctalPrefixOfOctal(s[1..]); }
  }

  lemma OctalTextParses(text: seq<Byte>)
    requires text != [] && AllOctal(text)
    ensures TrimEnd(TrimStart(text)) == text && ParseInt8(text) == Some(Value(text))
  {
    hide Value;
    OctalPrefixOfOctal(text);
  }

  lemma NulCutsField(text: seq<Byte>, rest: seq<Byte>)
    requires AllOctal(text)
    requires rest != [] && rest[0] == 0 && forall i :: 0 <= i < |rest| ==> !LineTerminator(rest[i]) && rest[i] < 128
    ensures StripNul(Ascii(text + rest)) == text
  {
    var field := text + rest;
    assert Ascii(field) == field;
    hide Ascii;
    TextEndsAtFirstNul(field, |text|, 0);
    hide TextEnd;
    assert field[..|text|] == text;
  }

  lemma ParseOctalText(text: seq<Byte>, rest: seq<Byte>)
    requires text != [] && AllOctal(text)
    requires rest != [] && rest[0] == 0 && forall i :: 0 <= i < |rest| ==> !LineTerminator(rest[i]) && rest[i] < 128
    ensures ParseOctal(text + rest) == Some(Value(text))
  {
    hide StripNul, Ascii, TrimStart, TrimEnd, ParseInt8, Value;
    NulCutsField(text, rest);
    OctalTextParses(text);
  }

  /** A field gives its number back exactly when the number fits; otherwise it reads as a smaller one. */
  lemma OctalFieldRoundTrip(v: nat, length: nat)
    requires length >= 2
    ensures ParseOctal(OctalField(v, length)) == Some(v) <==> v < Pow8(length - 1)
    ensures ParseOctal(OctalField(v, length)).Some? && 0 <= ParseOctal(OctalField(v, length)).value <= v
  {
    ParseOctalText(OctalText(v, length - 1), [0]);
    TextValue(v, length - 1);
  }
}

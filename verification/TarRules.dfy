/** The archive byte by byte: every field of a header, when an entry is refused, and how a bundle ends. */
module TarRules {
  import opened Wrappers
  import opened SourceTreePaths
  import opened PathRules
  import opened OctalFields
  import opened TarHeader
  import opened NormalizedBundle

  // ---- the header ------------------------------------------------------------------------------------------

  /** The digit of weight 8^k. */
  function EightsDigit(v: nat, k: nat): nat
    decreases k
  {
    if k == 0 then v % 8 else EightsDigit(v / 8, k - 1)
  }

  lemma {:induction false} DigitsFromTheRight(v: nat, k: nat)
    ensures k < |Digits(v)| ==> Digits(v)[|Digits(v)| - 1 - k] == 48 + EightsDigit(v, k)
    ensures k >= |Digits(v)| ==> EightsDigit(v, k) == 0
    decreases k
  {
    if k > 0 {
      if v >= 8 { DigitsFromTheRight(v / 8, k - 1); } else { NoMoreDigits(k - 1); }
    }
  }

  lemma {:induction false} NoMoreDigits(k: nat)
    ensures EightsDigit(0, k) == 0
  {
    if k > 0 { NoMoreDigits(k - 1); }
  }

  /** A number that fits stands in its field by its octal digits, the lowest last. */
  lemma OctalDigitsStand(v: nat, width: nat, k: nat)
    requires v < Pow8(width) && k < width
    ensures OctalText(v, width)[width - 1 - k] == 48 + EightsDigit(v, k)
  {
    DigitCount(v, width);
    DigitsFromTheRight(v, k);
    hide Digits;
  }

  /** `0000755` for an executable file, `0000644` for any other, then a NUL; owner, group and time are zero. */
  lemma FixedNumbers()
    ensures OctalField(ModeOf(true), 8) == [48, 48, 48, 48, 55, 53, 53, 0]
    ensures OctalField(ModeOf(false), 8) == [48, 48, 48, 48, 54, 52, 52, 0]
    ensures OctalField(0, 8) == [48, 48, 48, 48, 48, 48, 48, 0]
    ensures OctalField(0, 12) == [48, 48, 48, 48, 48, 48, 48, 48, 48, 48, 48, 0]
  {
    assert Digits(493) == [55, 53, 53] by { assert Digits(61) == [55, 53]; }
    assert Digits(420) == [54, 52, 52] by { assert Digits(52) == [54, 52]; }
    assert Digits(0) == [48];
  }

  /** The bytes of a header, by their places: name, mode, owner, group, size, time, checksum, type, `ustar`, version, owner names and
    * prefix; everything not named is zero. */
  lemma HeaderByBytes(n: TarName, executable: bool, size: nat)
    requires |n.name| <= 100 && |n.prefix| <= 155
    ensures var h := HeaderBytes(n, executable, size);
            && |h| == 512
            && (forall i :: 0 <= i < 100 ==> h[i] == if i < |n.name| then n.name[i] else 0)
            && h[100..108] == [48, 48, 48, 48] + (if executable then [55, 53, 53] else [54, 52, 52]) + [0]
            && h[108..116] == h[116..124] == [48, 48, 48, 48, 48, 48, 48, 0]
            && h[124..135] == OctalText(size, 11) && h[135] == 0
            && h[136..148] == [48, 48, 48, 48, 48, 48, 48, 48, 48, 48, 48, 0]
            && h[154] == 0 && h[155] == 32 && h[156] == 48
            && (forall i :: 157 <= i < 257 ==> h[i] == 0)
            && h[257..265] == [117, 115, 116, 97, 114, 0, 48, 48]
            && (forall i :: 0 <= i < 32 ==> h[265 + i] == h[297 + i] == if i < 4 then [114, 111, 111, 116][i] else 0)
            && (forall i :: 329 <= i < 345 ==> h[i] == 0)
            && (forall i :: 0 <= i < 155 ==> h[345 + i] == if i < |n.prefix| then n.prefix[i] else 0)
            && (forall i :: 500 <= i < 512 ==> h[i] == 0)
  {
    var h := HeaderBytes(n, executable, size);
    HeaderLayout(n, executable, size);
    FixedNumbers();
    hide HeaderBytes, ModeOf, OctalText, Sum;
    TextPieces(h, n);
    NumberPieces(h, executable, size, Sum(h[0..148] + Repeat(SPACE, 8) + h[156..512]));
    assert h[257..265] == h[257..262] + [h[262]] + h[263..265];
  }

  lemma TextPieces(h: seq<Byte>, n: TarName)
    requires |h| == 512 && |n.name| <= 100 && |n.prefix| <= 155
    requires h[0..100] == Pad(n.name, 100) && h[345..500] == Pad(n.prefix, 155) && h[157..257] == Zeros(100)
    requires h[265..297] == Pad(ROOT, 32) && h[297..329] == Pad(ROOT, 32) && h[329..345] == Zeros(16) && h[500..512] == Zeros(12)
    ensures forall i :: 0 <= i < 100 ==> h[i] == if i < |n.name| then n.name[i] else 0
    ensures forall i :: 0 <= i < 155 ==> h[345 + i] == if i < |n.prefix| then n.prefix[i] else 0
    ensures forall i :: 157 <= i < 257 || 329 <= i < 345 || 500 <= i < 512 ==> h[i] == 0
    ensures forall i :: 0 <= i < 32 ==> h[265 + i] == h[297 + i] == if i < 4 then [114, 111, 111, 116][i] else 0
  {
    forall i | 0 <= i < 100 ensures h[i] == if i < |n.name| then n.name[i] else 0 { assert h[i] == h[0..100][i]; }
    forall i | 0 <= i < 155 ensures h[345 + i] == if i < |n.prefix| then n.prefix[i] else 0 { assert h[345 + i] == h[345..500][i]; }
    forall i | 157 <= i < 257 ensures h[i] == 0 { assert h[i] == h[157..257][i - 157]; }
    forall i | 329 <= i < 345 ensures h[i] == 0 { assert h[i] == h[329..345][i - 329]; }
    forall i | 500 <= i < 512 ensures h[i] == 0 { assert h[i] == h[500..512][i - 500]; }
    forall i | 0 <= i < 32
      ensures h[265 + i] == h[297 + i] == if i < 4 then [114, 111, 111, 116][i] else 0
    {
      assert h[265 + i] == h[265..297][i] && h[297 + i] == h[297..329][i];
    }
  }

  lemma NumberPieces(h: seq<Byte>, executable: bool, size: nat, sum: nat)
    requires |h| == 512 && h[124..136] == OctalField(size, 12) && h[148..156] == ChecksumField(sum)
    ensures h[124..135] == OctalText(size, 11) && h[135] == 0 && h[154] == 0 && h[155] == 32
  {
    hide OctalText;
    assert h[124..135] == h[124..136][..11] && h[135] == h[124..136][11];
    assert h[154] == h[148..156][6] && h[155] == h[148..156][7];
  }

  /** The checksum is the sum of all bytes, those of its own field counted as spaces. */
  lemma {:induction false} SumOfAll(s: seq<Byte>, k: nat)
    requires k <= |s|
    ensures Sum(s) == Sum(s[..k]) + Sum(s[k..])
  {
    if k == |s| {
      assert s[..k] == s && s[k..] == [];
    } else {
      var front := s[..|s| - 1];
      SumOfAll(front, k);
      assert front[..k] == s[..k] && s[k..][..|s| - k - 1] == front[k..];
    }
  }

  // ---- paths too long for the name field ---------------------------------------------------------------------

  /** A path of more than 100 bytes is cut at its first slash that leaves at most 155 bytes before and at most 100 behind; without one
    * it cannot be stored. */
  lemma CutExactlyWhen(path: Path)
    ensures |path| <= 100 ==> SplitTarName(path) == Some(TarName(path, []))
    ensures |path| > 100 ==> forall k :: 0 <= k < |path| ==>
              (SplitTarName(path) == Some(TarName(path[k + 1..], path[..k])) <==>
                 && path[k] == 47 && k <= 155 && |path| - k - 1 <= 100
                 && forall j :: 0 <= j < k ==> !(path[j] == 47 && |path| - j - 1 <= 100))
    ensures SplitTarName(path).None? <==> |path| > 100 && forall k :: 0 <= k < |path| ==> !(path[k] == 47 && k <= 155 && |path| - k - 1 <= 100)
  {
    if |path| > 100 {
      forall k | 0 <= k < |path|
        ensures SplitTarName(path) == Some(TarName(path[k + 1..], path[..k])) <==> FirstSplit(path, 0) == Some(k)
      {
        if SplitTarName(path) == Some(TarName(path[k + 1..], path[..k])) { assert |path[..FirstSplit(path, 0).value]| == |path[..k]|; }
      }
      FirstIs(path);
    }
  }

  lemma FirstIs(path: Path)
    ensures forall k :: 0 <= k < |path| ==>
              (FirstSplit(path, 0) == Some(k) <==>
                 && path[k] == 47 && k <= 155 && |path| - k - 1 <= 100
                 && forall j :: 0 <= j < k ==> !(path[j] == 47 && |path| - j - 1 <= 100))
    ensures FirstSplit(path, 0).None? <==> forall k :: 0 <= k < |path| ==> !(path[k] == 47 && k <= 155 && |path| - k - 1 <= 100)
  {
    var first := FirstSplit(path, 0);
    assert forall k :: 0 <= k < |path| ==> (SplitsAt(path, k) <==> path[k] == 47 && k <= 155 && |path| - k - 1 <= 100);
  }

  // ---- reading ----------------------------------------------------------------------------------------------------

  lemma LowBit(k: nat, d: nat)
    ensures (2 * k + d) % 2 == d % 2
  {
  }

  /** A file is executable when owner, group or others may execute it, whatever else its mode holds. */
  lemma ExecuteBits(rest: nat, owner: nat, group: nat, others: nat)
    requires owner < 8 && group < 8 && others < 8
    ensures AnyExecuteBit(Some(512 * rest + 64 * owner + 8 * group + others)) <==> owner % 2 == 1 || group % 2 == 1 || others % 2 == 1
    ensures !AnyExecuteBit(None)
  {
    var m := 512 * rest + 64 * owner + 8 * group + others;
    assert m / 8 == 64 * rest + 8 * owner + group;
    assert m / 64 == 8 * rest + owner;
    LowBit(256 * rest + 32 * owner + 4 * group, others);
    LowBit(32 * rest + 4 * owner, group);
    LowBit(4 * rest, owner);
  }

  predicate LineBreakAfter(s: seq<Byte>, k: nat) {
    exists i :: k < i < |s| && (s[i] == 10 || s[i] == 13)
  }

  lemma {:induction false} CutIs(s: seq<Byte>, from: nat, k: nat)
    requires from <= k <= |s| && (k < |s| ==> s[k] == 0 && !LineBreakAfter(s, k))
    requires forall j :: from <= j < k && s[j] == 0 ==> LineBreakAfter(s, j)
    ensures TextEnd(s, from) == k
    decreases k - from
  {
    if from < k { CutIs(s, from + 1, k); }
  }

  /** A text field ends before its first NUL with no line break behind it, and is taken whole when there is none. */
  lemma TextEndsExactlyWhere(s: seq<Byte>, k: nat)
    requires k <= |s| && (k < |s| ==> s[k] == 0 && !LineBreakAfter(s, k))
    requires forall j :: 0 <= j < k && s[j] == 0 ==> LineBreakAfter(s, j)
    ensures StripNul(s) == s[..k]
  {
    CutIs(s, 0, k);
  }

  predicate IsSpace(b: Byte) {
    b == 9 || b == 10 || b == 11 || b == 12 || b == 13 || b == 32
  }

  lemma {:induction false} LeadingSpacesGo(spaces: seq<Byte>, text: seq<Byte>)
    requires (forall i :: 0 <= i < |spaces| ==> IsSpace(spaces[i])) && (text == [] || !IsSpace(text[0]))
    ensures TrimStart(spaces + text) == text
  {
    if spaces == [] {
      assert spaces + text == text;
    } else {
      assert (spaces + text)[1..] == spaces[1..] + text;
      LeadingSpacesGo(spaces[1..], text);
    }
  }

  lemma {:induction false} TrailingSpacesGo(text: seq<Byte>, rest: seq<Byte>) returns (n: nat)
    requires text != [] && !IsSpace(text[|text| - 1])
    ensures n <= |rest| && TrimEnd(text + rest) == text + rest[..n]
  {
    if rest == [] {
      assert text + rest == text;
      n := 0;
    } else if IsSpace(rest[|rest| - 1]) {
      assert (text + rest)[..|text + rest| - 1] == text + rest[..|rest| - 1];
      n := TrailingSpacesGo(text, rest[..|rest| - 1]);
      assert rest[..|rest| - 1][..n] == rest[..n];
    } else {
      n := |rest|;
      assert rest[..n] == rest;
    }
  }

  lemma {:induction false} PrefixIs(digits: seq<Byte>, rest: seq<Byte>)
    requires AllOctal(digits) && (rest == [] || !(48 <= rest[0] <= 55))
    ensures OctalPrefix(digits + rest) == digits
  {
    if digits == [] {
      assert digits + rest == rest;
    } else {
      assert (digits + rest)[1..] == digits[1..] + rest;
      PrefixIs(digits[1..], rest);
    }
  }

  lemma TrimmedIs(spaces: seq<Byte>, number: seq<Byte>, rest: seq<Byte>) returns (n: nat)
    requires forall i :: 0 <= i < |spaces| ==> IsSpace(spaces[i])
    requires number != [] && !IsSpace(number[0]) && !IsSpace(number[|number| - 1])
    ensures n <= |rest| && TrimEnd(TrimStart(spaces + number + rest)) == number + rest[..n]
  {
    hide TrimStart, TrimEnd;
    assert spaces + number + rest == spaces + (number + rest);
    LeadingSpacesGo(spaces, number + rest);
    n := TrailingSpacesGo(number, rest);
  }

  function Signed(negative: bool, digits: seq<Byte>): seq<Byte> {
    if negative then [45] + digits else digits
  }

  lemma ParsedIs(negative: bool, digits: seq<Byte>, rest: seq<Byte>)
    requires digits != [] && AllOctal(digits) && (rest == [] || !(48 <= rest[0] <= 55))
    ensures ParseInt8(Signed(negative, digits) + rest) == Some(if negative then -(Value(digits) as int) else Value(digits) as int)
  {
    hide Value, OctalPrefix;
    var t := Signed(negative, digits) + rest;
    assert (if negative then t[1..] else t) == digits + rest;
    PrefixIs(digits, rest);
  }

  /** A number is read off its field without the high bits of its bytes: white space, a minus sign or none, octal digits, and
    * whatever follows them. */
  lemma NumberIsRead(field: seq<Byte>, spaces: seq<Byte>, negative: bool, digits: seq<Byte>, rest: seq<Byte>)
    requires var text := spaces + Signed(negative, digits) + rest;
             && |field| == |text| && (forall i :: 0 <= i < |field| ==> text[i] == field[i] % 128)
             && (forall i :: 0 <= i < |text| ==> text[i] != 0)
    requires (forall i :: 0 <= i < |spaces| ==> IsSpace(spaces[i])) && digits != [] && AllOctal(digits)
    requires rest == [] || !(48 <= rest[0] <= 55)
    ensures ParseOctal(field) == Some(if negative then -(Value(digits) as int) else Value(digits) as int)
  {
    var text := spaces + Signed(negative, digits) + rest;
    assert Ascii(field) == text;
    hide Ascii;
    TextEndsExactlyWhere(text, |text|);
    assert StripNul(text) == text;
    hide StripNul, Value, ParseInt8, TrimStart, TrimEnd;
    var n := TrimmedIs(spaces, Signed(negative, digits), rest);
    ParsedIs(negative, digits, rest[..n]);
    assert Signed(negative, digits) + rest[..n] != [];
  }

  /** What the bytes at an offset are read as. The archive ends before a header that is not all there or all zero; a header is refused
    * for its type, then its path, then a path read before, then a size that is no number, negative or beyond the archive. */
  lemma EntryExactlyWhen(archive: seq<Byte>, offset: nat, seen: set<Path>, maxPathLength: nat)
    ensures var r := ReadEntry(archive, offset, seen, maxPathLength);
            if offset + 512 > |archive| || (forall i :: offset <= i < offset + 512 ==> archive[i] == 0) then r == Ok(None)
            else
              var header := archive[offset..offset + 512];
              var path := ReadTarPath(header);
              var size, mode := ParseOctal(header[124..136]), ParseOctal(header[100..108]);
              if archive[offset + 156] != 48 && archive[offset + 156] != 0 then r == Err(UnsupportedType)
              else if !GoodBytes(path, maxPathLength) then r == Err(UnsafeEntryPath)
              else if ForwardSlashes(path) in seen then r == Err(DuplicateEntry)
              else if size.None? || size.value < 0 || offset + 512 + size.value > |archive| then r == Err(Truncated)
              else r == Ok(Some(Entry(ForwardSlashes(path), offset + 512,
                                      archive[offset + 512..offset + 512 + size.value], AnyExecuteBit(mode))))
  {
    hide Normalize, GoodBytes, ReadTarPath, ParseOctal, AnyExecuteBit;
    if offset + 512 <= |archive| {
      var header := archive[offset..offset + 512];
      AcceptedExactlyWhen(ReadTarPath(header), maxPathLength);
      if Normalize(ReadTarPath(header), maxPathLength).Ok? { NormalizeIsIdempotent(ReadTarPath(header), maxPathLength); }
      hide SafePath;
      assert forall i :: 0 <= i < 512 ==> header[i] == archive[offset + i];
      assert (forall i :: offset <= i < offset + 512 ==> archive[i] == 0) <==> ZeroBlock(header) by {
        if ZeroBlock(header) {
          forall i | offset <= i < offset + 512 ensures archive[i] == 0 { assert header[i - offset] == 0; }
        }
      }
    }
  }

  // ---- the end of a bundle -----------------------------------------------------------------------------------------

  /** Content is filled up to whole blocks, and a full one gets none. */
  function Filled(size: nat): nat {
    (size + 511) / 512 * 512
  }

  function BlocksOf(files: seq<SourceFile>): nat {
    if files == [] then 0 else 512 + Filled(|files[0].content|) + BlocksOf(files[1..])
  }

  /** A bundle is a header and the filled content of each file, and two blocks of zeros. */
  lemma {:induction false} BundleEnds(files: seq<SourceFile>)
    requires Splittable(files) && PathsStart(files)
    ensures var b := BundleOf(files);
            && |b| == BlocksOf(files) + 1024
            && forall i :: |b| - 1024 <= i < |b| ==> b[i] == 0
  {
    if files != [] {
      SplitRejoins(files[0].path);
      BundleEnds(files[1..]);
      MemberBlocks(files[0]);
      hide SplitTarName, Member;
    }
  }

  lemma MemberBlocks(file: SourceFile)
    requires SplitTarName(file.path).Some? && file.path != [] && file.path[0] != SLASH
    ensures var n := SplitTarName(file.path).value;
            && |n.name| <= MAX_NAME && |n.prefix| <= MAX_PREFIX
            && |Member(file, n)| == 512 + Filled(|file.content|)
  {
    SplitRejoins(file.path);
    PaddingFills(|file.content|);
    hide HeaderBytes, SplitTarName, PaddingLength, Filled;
  }

  lemma PaddingFills(size: nat)
    ensures size + PaddingLength(size) == Filled(size)
  {
    assert (size + PaddingLength(size)) / 512 * 512 == size + PaddingLength(size);
  }
}

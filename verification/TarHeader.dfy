/** The 512-byte ustar header: the split of a path into name and prefix, and the header's fields. */
module TarHeader {
  import opened Wrappers
  import opened SourceTreePaths
  import opened OctalFields

  const BLOCK: nat := 512
  const MAX_NAME: nat := 100
  const MAX_PREFIX: nat := 155

  // ---- splitting a path ---------------------------------------------------------------

  datatype TarName = TarName(name: Path, prefix: Path)

  predicate SplitsAt(path: Path, k: nat)
    requires k < |path|
  {
    path[k] == SLASH && k <= MAX_PREFIX && |path| - k - 1 <= MAX_NAME
  }

  /** The first slash at or after `from` that leaves both halves short enough. */
  function FirstSplit(path: Path, from: nat): (r: Option<nat>)
    requires from <= |path|
    ensures r.Some? ==> from <= r.value < |path| && SplitsAt(path, r.value)
    ensures r.Some? ==> forall k :: from <= k < r.value ==> !SplitsAt(path, k)
    ensures r.None? ==> forall k :: from <= k < |path| ==> !SplitsAt(path, k)
    decreases |path| - from
  {
    if from == |path| then None
    else if SplitsAt(path, from) then Some(from)
    else FirstSplit(path, from + 1)
  }

  function SplitTarName(path: Path): Option<TarName> {
    if |path| <= MAX_NAME then Some(TarName(path, []))
    else match FirstSplit(path, 0) {
      case None => None
      case Some(k) => Some(TarName(path[k + 1..], path[..k]))
    }
  }

  lemma {:induction false} SplitNoLonger(a: seq<Path>, b: seq<Path>)
    requires |a| >= 1 && |b| >= 1
    ensures |Join(a)| < |Join(a + b)|
  {
    JoinAppend(a, b);
  }

  /** The i-th way of cutting the segments is the cut at the slash that has i segments before it. */
  lemma CutAtSegment(path: Path, k: nat, i: nat)
    requires k < |path| && path[k] == SLASH && 1 <= i < |Split(path)|
    ensures 1 <= |Split(path[..k])| < |Split(path)|
    ensures i == |Split(path[..k])| <==> k == |Join(Split(path)[..i])|
    ensures i < |Split(path[..k])| <==> |Join(Split(path)[..i])| < k
  {
    var segments := Split(path);
    var c := |Split(path[..k])|;
    SplitAtSlash(path, k);
    assert segments[..c] == Split(path[..k]);
    JoinSplit(path[..k]);
    if i < c {
      assert segments[..c] == segments[..i] + segments[i..c];
      SplitNoLonger(segments[..i], segments[i..c]);
    } else if c < i {
      assert segments[..i] == segments[..c] + segments[c..i];
      SplitNoLonger(segments[..c], segments[c..i]);
    }
  }

  method SplitTarPath(path: Path) returns (r: Option<TarName>)
    ensures r == SplitTarName(path)
  {
    if |path| <= MAX_NAME { return Some(TarName(path, [])); }
    var segments := Split(path);
    JoinSplit(path);
    var index := 1;
    while index < |segments|
      invariant 1 <= index <= |segments|
      invariant forall k :: 0 <= k < |path| && SplitsAt(path, k) ==> index <= |Split(path[..k])|
    {
      var prefix := Join(segments[..index]);
      var name := Join(segments[index..]);
      JoinAppend(segments[..index], segments[index..]);
      assert segments == segments[..index] + segments[index..];
      assert path == prefix + [SLASH] + name;
      forall k | 0 <= k < |path| && SplitsAt(path, k)
        ensures index == |Split(path[..k])| <==> k == |prefix|
        ensures index < |Split(path[..k])| <==> |prefix| < k
      {
        CutAtSegment(path, k, index);
      }
      if |prefix| <= MAX_PREFIX && |name| <= MAX_NAME {
        assert SplitsAt(path, |prefix|);
        assert FirstSplit(path, 0) == Some(|prefix|);
        assert path[..|prefix|] == prefix && path[|prefix| + 1..] == name;
        return Some(TarName(name, prefix));
      }
      index := index + 1;
    }
    forall k | 0 <= k < |path|
      ensures !SplitsAt(path, k)
    {
      if SplitsAt(path, k) { SplitAtSlash(path, k); }
    }
    r := None;
  }

  function Rejoin(n: TarName): Path {
    if n.prefix != [] then n.prefix + [SLASH] + n.name else n.name
  }

  /** A path splits exactly when it is short or has a slash in the right place, and the halves give it back. */
  lemma SplitRejoins(path: Path)
    requires path != [] && path[0] != SLASH
    ensures SplitTarName(path).Some? <==> |path| <= MAX_NAME || exists k :: 0 <= k < |path| && SplitsAt(path, k)
    ensures SplitTarName(path).Some? ==>
      && Rejoin(SplitTarName(path).value) == path
      && |SplitTarName(path).value.name| <= MAX_NAME && |SplitTarName(path).value.prefix| <= MAX_PREFIX
  {
    if |path| > MAX_NAME && SplitTarName(path).Some? {
      var k := FirstSplit(path, 0).value;
      assert path == path[..k] + [SLASH] + path[k + 1..];
    }
  }

  // ---- the header ----------------------------------------------------------------------

  const MODE_EXECUTABLE: nat := 493
  const MODE_PLAIN: nat := 420
  const TYPE_FILE: Byte := 48
  const USTAR: seq<Byte> := [117, 115, 116, 97, 114]
  const VERSION: seq<Byte> := [48, 48]
  const ROOT: seq<Byte> := [114, 111, 111, 116]

  function Pad(s: seq<Byte>, width: nat): (r: seq<Byte>)
    requires |s| <= width
    ensures |r| == width
  {
    s + Zeros(width - |s|)
  }

  function Sum(s: seq<Byte>): nat {
    if s == [] then 0 else Sum(s[..|s| - 1]) + s[|s| - 1]
  }

  function ModeOf(executable: bool): nat {
    if executable then MODE_EXECUTABLE else MODE_PLAIN
  }

  /** Bytes 0 to 147: name, mode, owner, group, size and time. */
  function HeaderFront(name: Path, executable: bool, size: nat): (r: seq<Byte>)
    requires |name| <= MAX_NAME
    ensures |r| == 148
  {
    Pad(name, 100) + OctalField(ModeOf(executable), 8) + OctalField(0, 8) + OctalField(0, 8)
    + OctalField(size, 12) + OctalField(0, 12)
  }

  /** Bytes 156 to 344: type, link name, magic, version, owner and group names, device numbers. */
  function HeaderMiddle(): (r: seq<Byte>)
    ensures |r| == 189
  {
    [TYPE_FILE] + Zeros(100) + USTAR + [0] + VERSION + Pad(ROOT, 32) + Pad(ROOT, 32) + Zeros(16)
  }

  /** Bytes 156 to 511. */
  function HeaderBack(prefix: Path): (r: seq<Byte>)
    requires |prefix| <= MAX_PREFIX
    ensures |r| == 356
  {
    HeaderMiddle() + Pad(prefix, 155) + Zeros(12)
  }

  function ChecksumField(sum: nat): (r: seq<Byte>)
    ensures |r| == 8
  {
    OctalText(sum, 6) + [0, SPACE]
  }

  function UnsignedHeader(n: TarName, executable: bool, size: nat): (r: seq<Byte>)
    requires |n.name| <= MAX_NAME && |n.prefix| <= MAX_PREFIX
    ensures |r| == BLOCK
  {
    HeaderFront(n.name, executable, size) + Repeat(SPACE, 8) + HeaderBack(n.prefix)
  }

  function HeaderBytes(n: TarName, executable: bool, size: nat): (r: seq<Byte>)
    requires |n.name| <= MAX_NAME && |n.prefix| <= MAX_PREFIX
    ensures |r| == BLOCK
  {
    HeaderFront(n.name, executable, size) + ChecksumField(Sum(UnsignedHeader(n, executable, size))) + HeaderBack(n.prefix)
  }

  // ---- writing the header in place ------------------------------------------------------

  method Write(header: array<Byte>, offset: nat, text: seq<Byte>)
    requires offset + |text| <= header.Length
    modifies header
    ensures header[..] == old(header[..offset]) + text + old(header[offset + |text|..])
  {
    var i := 0;
    while i < |text|
      invariant 0 <= i <= |text|
      invariant forall k :: offset <= k < offset + i ==> header[k] == text[k - offset]
      invariant forall k :: 0 <= k < header.Length && !(offset <= k < offset + i) ==> header[k] == old(header[k])
    {
      header[offset + i] := text[i];
      i := i + 1;
    }
  }

  method WriteOctal(header: array<Byte>, offset: nat, length: nat, value: nat)
    requires length >= 1 && offset + length <= header.Length
    modifies header
    ensures header[..] == old(header[..offset]) + OctalField(value, length) + old(header[offset + length..])
  {
    var text := OctalText(value, length - 1);
    Write(header, offset, text);
    header[offset + length - 1] := 0;
  }

  /** The front of the block is written, the rest is still zero. */
  ghost predicate Written(block: seq<Byte>, done: seq<Byte>) {
    |block| == BLOCK && |done| <= BLOCK && block == done + Zeros(BLOCK - |done|)
  }

  /** The front once a field has been placed at an offset. */
  function Placed(done: seq<Byte>, offset: nat, text: seq<Byte>): (r: seq<Byte>)
    requires |done| <= offset
    ensures |r| == offset + |text|
  {
    done + Zeros(offset - |done|) + text
  }

  lemma WritesNext(before: seq<Byte>, done: seq<Byte>, offset: nat, text: seq<Byte>, after: seq<Byte>)
    requires Written(before, done) && |done| <= offset && offset + |text| <= BLOCK
    requires after == before[..offset] + text + before[offset + |text|..]
    ensures Written(after, Placed(done, offset, text))
  {
  }

  method Place(header: array<Byte>, ghost done: seq<Byte>, offset: nat, text: seq<Byte>)
    requires Written(header[..], done) && |done| <= offset && offset + |text| <= BLOCK
    modifies header
    ensures Written(header[..], Placed(done, offset, text))
  {
    ghost var was := header[..];
    Write(header, offset, text);
    WritesNext(was, done, offset, text, header[..]);
  }

  method PlaceOctal(header: array<Byte>, ghost done: seq<Byte>, offset: nat, length: nat, value: nat)
    requires Written(header[..], done) && |done| <= offset && offset + length <= BLOCK && length >= 1
    modifies header
    ensures Written(header[..], Placed(done, offset, OctalField(value, length)))
  {
    ghost var was := header[..];
    WriteOctal(header, offset, length, value);
    WritesNext(was, done, offset, OctalField(value, length), header[..]);
  }

  method SumOf(header: array<Byte>) returns (checksum: nat)
    ensures checksum == Sum(header[..])
  {
    checksum := 0;
    var i := 0;
    while i < header.Length
      invariant 0 <= i <= header.Length && checksum == Sum(header[..i])
    {
      assert header[..i + 1][..i] == header[..i];
      checksum := checksum + header[i];
      i := i + 1;
    }
    assert header[..i] == header[..];
  }

  function PlacedFront(name: Path, executable: bool, size: nat): (r: seq<Byte>)
    requires |name| <= MAX_NAME
    ensures |r| == 148
  {
    var d0 := Placed(Placed([], 0, name), 100, OctalField(ModeOf(executable), 8));
    var d1 := Placed(Placed(d0, 108, OctalField(0, 8)), 116, OctalField(0, 8));
    Placed(Placed(d1, 124, OctalField(size, 12)), 136, OctalField(0, 12))
  }

  function PlacedMiddle(front: seq<Byte>): (r: seq<Byte>)
    requires |front| == 148
    ensures |r| == 301
  {
    var d0 := Placed(Placed(front, 148, Repeat(SPACE, 8)), 156, [TYPE_FILE]);
    var d1 := Placed(Placed(Placed(d0, 257, USTAR), 262, [0]), 263, VERSION);
    Placed(Placed(d1, 265, ROOT), 297, ROOT)
  }

  function PlacedBack(front: seq<Byte>, prefix: Path): (r: seq<Byte>)
    requires |front| == 148 && |prefix| <= MAX_PREFIX
    ensures |r| == if prefix == [] then 301 else 345 + |prefix|
  {
    var d := PlacedMiddle(front);
    if prefix == [] then d else Placed(d, 345, prefix)
  }

  lemma PlacedFrontIsFront(name: Path, executable: bool, size: nat)
    requires |name| <= MAX_NAME
    ensures PlacedFront(name, executable, size) == HeaderFront(name, executable, size)
  {
    hide OctalField;
    var mode := ModeOf(executable);
    var d0 := Placed(Placed([], 0, name), 100, OctalField(mode, 8));
    assert d0 == Pad(name, 100) + OctalField(mode, 8);
    var d1 := Placed(Placed(d0, 108, OctalField(0, 8)), 116, OctalField(0, 8));
    assert d1 == d0 + OctalField(0, 8) + OctalField(0, 8);
  }

  lemma PlacedMiddleIsMiddle(front: seq<Byte>)
    requires |front| == 148
    ensures PlacedMiddle(front) + Zeros(44) == front + Repeat(SPACE, 8) + HeaderMiddle()
  {
    var d0 := Placed(Placed(front, 148, Repeat(SPACE, 8)), 156, [TYPE_FILE]);
    assert d0 == front + Repeat(SPACE, 8) + [TYPE_FILE];
    var d1 := Placed(Placed(Placed(d0, 257, USTAR), 262, [0]), 263, VERSION);
    assert d1 == d0 + Zeros(100) + USTAR + [0] + VERSION;
  }

  lemma PlacedBackIsBack(front: seq<Byte>, prefix: Path)
    requires |front| == 148 && |prefix| <= MAX_PREFIX
    ensures Written(front + Repeat(SPACE, 8) + HeaderBack(prefix), PlacedBack(front, prefix))
  {
    hide PlacedMiddle, HeaderMiddle;
    PlacedMiddleIsMiddle(front);
    var middle := front + Repeat(SPACE, 8) + HeaderMiddle();
    assert front + Repeat(SPACE, 8) + HeaderBack(prefix) == middle + Pad(prefix, 155) + Zeros(12);
  }

  method WriteFront(header: array<Byte>, name: Path, executable: bool, size: nat)
    requires header.Length == BLOCK && Written(header[..], []) && |name| <= MAX_NAME
    modifies header
    ensures Written(header[..], PlacedFront(name, executable, size))
  {
    hide OctalField, Written, Placed;
    var mode := ModeOf(executable);
    Place(header, [], 0, name);
    ghost var done := Placed([], 0, name);
    PlaceOctal(header, done, 100, 8, mode);
    done := Placed(done, 100, OctalField(mode, 8));
    PlaceOctal(header, done, 108, 8, 0);
    done := Placed(done, 108, OctalField(0, 8));
    PlaceOctal(header, done, 116, 8, 0);
    done := Placed(done, 116, OctalField(0, 8));
    PlaceOctal(header, done, 124, 12, size);
    done := Placed(done, 124, OctalField(size, 12));
    PlaceOctal(header, done, 136, 12, 0);
  }

  method WriteBack(header: array<Byte>, ghost front: seq<Byte>, prefix: Path)
    requires |front| == 148 && |prefix| <= MAX_PREFIX && Written(header[..], front)
    modifies header
    ensures Written(header[..], PlacedBack(front, prefix))
  {
    hide Written, Placed;
    Place(header, front, 148, Repeat(SPACE, 8));
    ghost var done := Placed(front, 148, Repeat(SPACE, 8));
    Place(header, done, 156, [TYPE_FILE]);
    done := Placed(done, 156, [TYPE_FILE]);
    Place(header, done, 257, USTAR);
    done := Placed(done, 257, USTAR);
    Place(header, done, 262, [0]);
    done := Placed(done, 262, [0]);
    Place(header, done, 263, VERSION);
    done := Placed(done, 263, VERSION);
    Place(header, done, 265, ROOT);
    done := Placed(done, 265, ROOT);
    Place(header, done, 297, ROOT);
    done := Placed(done, 297, ROOT);
    if prefix != [] {
      Place(header, done, 345, prefix);
    }
  }

  method WriteChecksum(header: array<Byte>, checksum: nat)
    requires header.Length == BLOCK
    modifies header
    ensures header[..] == old(header[..148]) + ChecksumField(checksum) + old(header[156..])
  {
    Write(header, 148, OctalText(checksum, 6));
    header[154] := 0;
    header[155] := SPACE;
  }

  /** The header of one file, written field by field into a zeroed block. None is the path-too-long error. */
  method TarHeader(path: Path, executable: bool, size: nat) returns (header: array<Byte>, split: Option<TarName>)
    requires path != [] && path[0] != SLASH
    ensures fresh(header) && split == SplitTarName(path)
    ensures split.Some? ==> |split.value.name| <= MAX_NAME && |split.value.prefix| <= MAX_PREFIX
    ensures split.Some? ==> header[..] == HeaderBytes(split.value, executable, size)
  {
    hide Sum, Written, PlacedFront, PlacedBack, HeaderFront, HeaderBack, ChecksumField;
    header := new Byte[BLOCK](_ => 0);
    BlankIsWritten(header[..]);
    split := SplitTarPath(path);
    if split.None? { return; }
    SplitRejoins(path);
    var name, prefix := split.value.name, split.value.prefix;
    WriteFront(header, name, executable, size);
    PlacedFrontIsFront(name, executable, size);
    ghost var front := HeaderFront(name, executable, size);
    WriteBack(header, front, prefix);
    PlacedBackIsBack(front, prefix);
    SameWritten(header[..], front + Repeat(SPACE, 8) + HeaderBack(prefix), PlacedBack(front, prefix));
    var checksum := SumOf(header);
    WriteChecksum(header, checksum);
  }

  lemma SameWritten(a: seq<Byte>, b: seq<Byte>, done: seq<Byte>)
    requires Written(a, done) && Written(b, done)
    ensures a == b
  {
  }

  lemma BlankIsWritten(block: seq<Byte>)
    requires |block| == BLOCK && forall i :: 0 <= i < BLOCK ==> block[i] == 0
    ensures Written(block, [])
  {
    assert block == [] + Zeros(BLOCK);
  }

  // ---- what a written header holds -------------------------------------------------------

  lemma FrontFields(name: Path, executable: bool, size: nat)
    requires |name| <= MAX_NAME
    ensures var h := HeaderFront(name, executable, size);
            && h[0..100] == Pad(name, 100) && h[100..108] == OctalField(ModeOf(executable), 8)
            && h[108..116] == OctalField(0, 8) && h[116..124] == OctalField(0, 8)
            && h[124..136] == OctalField(size, 12) && h[136..148] == OctalField(0, 12)
  {
    hide OctalField, ModeOf, Pad;
  }

  lemma MiddleFields()
    ensures var h := HeaderMiddle();
            && h[0] == TYPE_FILE && h[1..101] == Zeros(100) && h[101..106] == USTAR && h[106] == 0
            && h[107..109] == VERSION && h[109..141] == Pad(ROOT, 32) && h[141..173] == Pad(ROOT, 32)
            && h[173..189] == Zeros(16)
  {
  }

  /** Every field of a written header, in its own range of bytes. */
  lemma HeaderLayout(n: TarName, executable: bool, size: nat)
    requires |n.name| <= MAX_NAME && |n.prefix| <= MAX_PREFIX
    ensures var h := HeaderBytes(n, executable, size);
            && h[0..100] == Pad(n.name, 100) && h[100..108] == OctalField(ModeOf(executable), 8)
            && h[108..116] == OctalField(0, 8) && h[116..124] == OctalField(0, 8)
            && h[124..136] == OctalField(size, 12) && h[136..148] == OctalField(0, 12)
            && h[148..156] == ChecksumField(Sum(h[0..148] + Repeat(SPACE, 8) + h[156..512]))
            && h[156] == TYPE_FILE && h[157..257] == Zeros(100)
            && h[257..262] == USTAR && h[262] == 0 && h[263..265] == VERSION
            && h[265..297] == Pad(ROOT, 32) && h[297..329] == Pad(ROOT, 32) && h[329..345] == Zeros(16)
            && h[345..500] == Pad(n.prefix, 155) && h[500..512] == Zeros(12)
  {
    hide OctalField, ModeOf, Pad, HeaderFront, HeaderMiddle, Sum, ChecksumField;
    var front := HeaderFront(n.name, executable, size);
    var h := HeaderBytes(n, executable, size);
    var m := HeaderMiddle();
    FrontFields(n.name, executable, size);
    MiddleFields();
    assert h[0..148] == front;
    assert forall i, k :: 0 <= i <= k <= 148 ==> h[i..k] == front[i..k];
    assert h[156..345] == m;
    assert forall i, k :: 0 <= i <= k <= 189 ==> h[156 + i..156 + k] == m[i..k] by {
      forall i, k | 0 <= i <= k <= 189
        ensures h[156 + i..156 + k] == m[i..k]
      {
        assert h[156..345][i..k] == h[156 + i..156 + k];
      }
    }
    assert h[156..512] == HeaderBack(n.prefix);
    assert h[345..500] == Pad(n.prefix, 155) && h[500..512] == Zeros(12);
  }

  lemma {:induction false} SumBound(s: seq<Byte>)
    ensures Sum(s) <= 255 * |s|
  {
    if s != [] { SumBound(s[..|s| - 1]); }
  }

  /** The stored checksum reads as the sum of the header's bytes with the checksum field blank: six digits never cut it. */
  lemma ChecksumIsTheSum(n: TarName, executable: bool, size: nat)
    requires |n.name| <= MAX_NAME && |n.prefix| <= MAX_PREFIX
    ensures var h := HeaderBytes(n, executable, size);
            ParseOctal(h[148..156]) == Some(Sum(h[0..148] + Repeat(SPACE, 8) + h[156..512]))
  {
    hide HeaderBytes, Sum, ParseOctal;
    var h := HeaderBytes(n, executable, size);
    var sum := Sum(h[0..148] + Repeat(SPACE, 8) + h[156..512]);
    HeaderLayout(n, executable, size);
    SumBound(h[0..148] + Repeat(SPACE, 8) + h[156..512]);
    assert Pow8(6) == 262144 by { assert Pow8(3) == 512; }
    TextValue(sum, 6);
    ParseOctalText(OctalText(sum, 6), [0, SPACE]);
  }
}

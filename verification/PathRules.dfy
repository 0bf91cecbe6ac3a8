/** Which paths a source tree may have, said on their bytes. */
module PathRules {
  import opened Wrappers
  import opened SourceTreePaths

  predicate IsSlash(b: Byte) {
    b == 47 || b == 92
  }

  /** A byte is a letter in either case; `letter` is its lower-case code. */
  predicate IsLetter(b: Byte, letter: int) {
    b == letter || b == letter - 32
  }

  /** A space or a dot before a slash or the end. */
  predicate TrailsOff(p: Path, k: nat)
    requires k < |p|
  {
    (p[k] == 32 || p[k] == 46) && (k + 1 == |p| || IsSlash(p[k + 1]))
  }

  /** p[i..j] lies between two slashes, or an end of the path, and holds none. */
  predicate Between(p: Path, i: nat, j: nat) {
    && i <= j <= |p|
    && (i == 0 || IsSlash(p[i - 1])) && (j == |p| || IsSlash(p[j]))
    && forall k :: i <= k < j ==> !IsSlash(p[k])
  }

  /** The name of a Windows device starts at i: con, prn, aux, nul, or com and lpt with a digit from 1 to 9. */
  predicate DeviceAt(p: Path, i: nat, n: nat) {
    && i + 3 <= |p|
    && (|| (n == 3 && IsLetter(p[i], 99) && IsLetter(p[i + 1], 111) && IsLetter(p[i + 2], 110))
        || (n == 3 && IsLetter(p[i], 112) && IsLetter(p[i + 1], 114) && IsLetter(p[i + 2], 110))
        || (n == 3 && IsLetter(p[i], 97) && IsLetter(p[i + 1], 117) && IsLetter(p[i + 2], 120))
        || (n == 3 && IsLetter(p[i], 110) && IsLetter(p[i + 1], 117) && IsLetter(p[i + 2], 108))
        || (n == 4 && i + 3 < |p| && 49 <= p[i + 3] <= 57
            && (|| (IsLetter(p[i], 99) && IsLetter(p[i + 1], 111) && IsLetter(p[i + 2], 109))
                || (IsLetter(p[i], 108) && IsLetter(p[i + 1], 112) && IsLetter(p[i + 2], 116)))))
  }

  /** p[i..j] is such a name, or such a name, a dot and any bytes on one line. */
  predicate IsDevice(p: Path, i: nat, j: nat, n: nat) {
    && DeviceAt(p, i, n) && i + n <= j <= |p|
    && (i + n == j || (p[i + n] == 46 && forall k :: i + n < k < j ==> p[k] != 10 && p[k] != 13))
  }

  /** The bytes of an acceptable path: not too many, no NUL and no colon, no slash of either kind at an end or next to another, no
    * space and no dot before a slash or the end, and no device between slashes. */
  ghost predicate GoodBytes(p: Path, maxPathLength: nat) {
    && 0 < |p| <= maxPathLength
    && (forall k :: 0 <= k < |p| ==> p[k] != 0 && p[k] != 58)
    && !IsSlash(p[0]) && !IsSlash(p[|p| - 1])
    && (forall k :: 0 < k < |p| ==> !(IsSlash(p[k - 1]) && IsSlash(p[k])))
    && (forall k :: 0 <= k < |p| ==> !TrailsOff(p, k))
    && (forall i, j :: Between(p, i, j) ==> !IsDevice(p, i, j, 3) && !IsDevice(p, i, j, 4))
  }

  // ---- the segments of a path -------------------------------------------------------------------------

  lemma {:induction false} NoSlashIsOne(s: Path)
    requires forall k :: 0 <= k < |s| ==> s[k] != SLASH
    ensures Split(s) == [s]
  {
    if s != [] {
      NoSlashIsOne(s[1..]);
      assert [s[0]] + s[1..] == s;
    }
  }

  lemma SegmentsBehind(s: Path, i: nat)
    requires 0 < i <= |s| && s[i - 1] == SLASH
    ensures forall x :: x in Split(s[i..]) ==> x in Split(s)
  {
    SplitAtSlash(s, i - 1);
    hide Split;
  }

  lemma FirstSegment(s: Path, n: nat)
    requires n <= |s| && (n == |s| || s[n] == SLASH) && forall k :: 0 <= k < n ==> s[k] != SLASH
    ensures s[..n] in Split(s)
  {
    NoSlashIsOne(s[..n]);
    if n < |s| { SplitAtSlash(s, n); }
    hide Split;
    assert n == |s| ==> s[..n] == s;
    assert s[..n] in [s[..n]];
  }

  /** What lies between two slashes is a segment. */
  lemma BetweenIsSegment(s: Path, i: nat, j: nat)
    requires i <= j <= |s| && (i == 0 || s[i - 1] == SLASH) && (j == |s| || s[j] == SLASH)
    requires forall k :: i <= k < j ==> s[k] != SLASH
    ensures s[i..j] in Split(s)
  {
    hide Split;
    var rest := s[i..];
    FirstSegment(rest, j - i);
    assert rest[..j - i] == s[i..j];
    if i > 0 { SegmentsBehind(s, i); } else { assert rest == s; }
  }

  predicate IsSegment(s: Path, i: nat, j: nat, segment: Path) {
    && i <= j <= |s| && (i == 0 || s[i - 1] == SLASH) && (j == |s| || s[j] == SLASH)
    && segment == s[i..j] && forall k :: i <= k < j ==> s[k] != SLASH
  }

  lemma SegmentMoves(s: Path, i: nat, j: nat, segment: Path)
    requires s != [] && IsSegment(s[1..], i, j, segment) && (i > 0 || s[0] == SLASH)
    ensures IsSegment(s, i + 1, j + 1, segment)
  {
    assert s[1..][i..j] == s[i + 1..j + 1];
  }

  lemma SegmentGrows(s: Path, j: nat, segment: Path)
    requires s != [] && s[0] != SLASH && IsSegment(s[1..], 0, j, segment)
    ensures IsSegment(s, 0, j + 1, [s[0]] + segment)
  {
    assert s[0..j + 1] == [s[0]] + s[1..][0..j];
  }

  /** And every segment lies between two slashes. */
  lemma {:induction false} SegmentIsBetween(s: Path, m: nat) returns (i: nat, j: nat)
    requires m < |Split(s)|
    ensures (m == 0 <==> i == 0) && IsSegment(s, i, j, Split(s)[m])
  {
    if s == [] || (s[0] == SLASH && m == 0) {
      i, j := 0, 0;
    } else if s[0] == SLASH {
      i, j := SegmentIsBetween(s[1..], m - 1);
      SegmentMoves(s, i, j, Split(s)[m]);
      i, j := i + 1, j + 1;
    } else {
      i, j := SegmentIsBetween(s[1..], m);
      hide IsSegment;
      if m == 0 {
        SegmentGrows(s, j, Split(s[1..])[0]);
        j := j + 1;
      } else {
        SegmentMoves(s, i, j, Split(s)[m]);
        i, j := i + 1, j + 1;
      }
    }
  }

  // ---- the two conditions are one --------------------------------------------------------------------------

  lemma ReservedIsDevice(p: Path, i: nat, j: nat)
    requires Between(p, i, j)
    ensures WindowsReserved(p[i..j]) <==> IsDevice(p, i, j, 3) || IsDevice(p, i, j, 4)
  {
    var segment := p[i..j];
    assert forall k :: 0 <= k < |segment| ==> segment[k] == p[i + k];
    StemIsDevice(segment);
    DeviceIsInside(p, i, j, 3);
    DeviceIsInside(p, i, j, 4);
    hide WindowsReserved, IsDevice;
    assert |segment| == j - i;
  }

  lemma StemIsDevice(segment: Path)
    ensures WindowsReserved(segment) <==> IsDevice(segment, 0, |segment|, 3) || IsDevice(segment, 0, |segment|, 4)
  {
    var low := Lower(segment);
    if |segment| >= 3 {
      assert low[..3] == [low[0], low[1], low[2]];
      assert DeviceAt(segment, 0, 3) <==> low[..3] in {CON, PRN, AUX, NUL};
      assert DeviceAt(segment, 0, 4) <==> |low| >= 4 && low[..3] in {COM, LPT} && 49 <= low[3] <= 57;
      assert forall k :: 0 <= k < |low| ==> (LineTerminator(low[k]) <==> segment[k] == 10 || segment[k] == 13);
      assert forall k :: 0 <= k < |low| ==> (low[k] == DOT <==> segment[k] == 46);
    }
  }

  lemma DeviceIsInside(p: Path, i: nat, j: nat, n: nat)
    requires i <= j <= |p| && (n == 3 || n == 4)
    ensures IsDevice(p, i, j, n) <==> IsDevice(p[i..j], 0, j - i, n)
  {
    var segment := p[i..j];
    assert forall k :: 0 <= k < |segment| ==> segment[k] == p[i + k];
    if IsDevice(segment, 0, j - i, n) {
      assert forall k :: i + n < k < j ==> p[k] == segment[k - i];
    }
  }

  lemma SafeBetween(p: Path, i: nat, j: nat)
    requires Between(p, i, j)
    ensures SafeSegment(p[i..j]) <==>
              && i < j && p[j - 1] != 32 && p[j - 1] != 46 && (forall k :: i <= k < j ==> p[k] != 58)
              && !IsDevice(p, i, j, 3) && !IsDevice(p, i, j, 4)
  {
    ReservedIsDevice(p, i, j);
    hide WindowsReserved, IsDevice;
    var segment := p[i..j];
    assert |segment| == j - i && (i < j ==> segment[|segment| - 1] == p[j - 1]);
    assert forall k :: i <= k < j ==> p[k] == segment[k - i];
    assert COLON in segment <==> exists k :: i <= k < j && p[k] == 58 by {
      if COLON in segment { var m :| 0 <= m < |segment| && segment[m] == COLON; assert p[i + m] == 58; }
    }
  }

  /** The segment around a byte that is no slash. */
  lemma Around(p: Path, k: nat) returns (i: nat, j: nat)
    requires k < |p| && !IsSlash(p[k])
    ensures Between(p, i, j) && i <= k < j
  {
    i, j := k, k + 1;
    while i > 0 && !IsSlash(p[i - 1])
      invariant i <= k && forall m :: i <= m <= k ==> !IsSlash(p[m])
    {
      i := i - 1;
    }
    while j < |p| && !IsSlash(p[j])
      invariant k < j <= |p| && forall m :: i <= m < j ==> !IsSlash(p[m])
    {
      j := j + 1;
    }
  }

  predicate Turned(p: Path) {
    forall k :: 0 <= k < |p| ==> p[k] != 92
  }

  lemma GoodIsSafe(p: Path, maxPathLength: nat)
    requires Turned(p) && GoodBytes(p, maxPathLength)
    ensures SafePath(p, maxPathLength)
  {
    forall segment | segment in Split(p)
      ensures SafeSegment(segment)
    {
      var m :| 0 <= m < |Split(p)| && Split(p)[m] == segment;
      var i, j := SegmentIsBetween(p, m);
      assert Between(p, i, j);
      SafeBetween(p, i, j);
      hide SafeSegment, IsDevice, Split;
      assert i < j ==> !TrailsOff(p, j - 1);
    }
    hide SafeSegment, IsDevice, Split;
    assert !TrailsOff(p, |p| - 1);
  }

  lemma EndsAreSafe(p: Path, maxPathLength: nat)
    requires Turned(p) && SafePath(p, maxPathLength)
    ensures !IsSlash(p[|p| - 1]) && forall k :: 0 < k < |p| ==> !(IsSlash(p[k - 1]) && IsSlash(p[k]))
  {
    hide SafeSegment;
    if IsSlash(p[|p| - 1]) {
      BetweenIsSegment(p, |p|, |p|);
      SafeBetween(p, |p|, |p|);
      assert false;
    }
    forall k | 0 < k < |p| && IsSlash(p[k - 1])
      ensures !IsSlash(p[k])
    {
      if IsSlash(p[k]) {
        BetweenIsSegment(p, k, k);
        SafeBetween(p, k, k);
        assert false;
      }
    }
  }

  lemma ByteIsSafe(p: Path, maxPathLength: nat, k: nat)
    requires Turned(p) && SafePath(p, maxPathLength) && k < |p| && !IsSlash(p[k])
    ensures p[k] != 0 && p[k] != 58
    ensures !TrailsOff(p, k)
  {
    hide SafeSegment, IsDevice;
    var i, j := Around(p, k);
    BetweenIsSegment(p, i, j);
    SafeBetween(p, i, j);
    hide Split;
    assert j == k + 1 ==> p[k] == p[j - 1];
  }

  lemma SafeIsGood(p: Path, maxPathLength: nat)
    requires Turned(p) && SafePath(p, maxPathLength)
    ensures GoodBytes(p, maxPathLength)
  {
    hide SafeSegment, IsDevice, Split;
    EndsAreSafe(p, maxPathLength);
    assert !IsSlash(p[0]);
    forall k | 0 <= k < |p|
      ensures p[k] != 0 && p[k] != 58 && !TrailsOff(p, k)
    {
      if !IsSlash(p[k]) { ByteIsSafe(p, maxPathLength, k); }
    }
    forall i, j | Between(p, i, j)
      ensures !IsDevice(p, i, j, 3) && !IsDevice(p, i, j, 4)
    {
      BetweenIsSegment(p, i, j);
      SafeBetween(p, i, j);
    }
  }

  lemma TurningKeepsGood(p: Path, maxPathLength: nat)
    ensures GoodBytes(ForwardSlashes(p), maxPathLength) <==> GoodBytes(p, maxPathLength)
  {
    var q := ForwardSlashes(p);
    assert forall k :: 0 <= k < |p| ==> (IsSlash(q[k]) <==> IsSlash(p[k])) && (!IsSlash(p[k]) ==> q[k] == p[k]);
    assert forall k :: 0 <= k < |p| ==> (TrailsOff(p, k) <==> TrailsOff(q, k));
    forall i: nat, j: nat
      ensures Between(p, i, j) <==> Between(q, i, j)
      ensures Between(p, i, j) ==> (IsDevice(p, i, j, 3) <==> IsDevice(q, i, j, 3)) && (IsDevice(p, i, j, 4) <==> IsDevice(q, i, j, 4))
    {
      if Between(p, i, j) { SameDevices(p, q, i, j); }
    }
    hide IsDevice, Between;
    assert |q| == |p|;
  }

  lemma SameDevices(p: Path, q: Path, i: nat, j: nat)
    requires |p| == |q| && i <= j <= |p| && forall k :: i <= k < j ==> p[k] == q[k]
    ensures IsDevice(p, i, j, 3) <==> IsDevice(q, i, j, 3)
    ensures IsDevice(p, i, j, 4) <==> IsDevice(q, i, j, 4)
  {
    DeviceIsInside(p, i, j, 3);
    DeviceIsInside(q, i, j, 3);
    DeviceIsInside(p, i, j, 4);
    DeviceIsInside(q, i, j, 4);
    hide IsDevice;
    assert p[i..j] == q[i..j];
  }

  /** A path is accepted exactly when its bytes are good, and then its backslashes are turned and nothing else. */
  lemma AcceptedExactlyWhen(p: Path, maxPathLength: nat)
    ensures Normalize(p, maxPathLength).Ok? <==> GoodBytes(p, maxPathLength)
    ensures Normalize(p, maxPathLength).Ok? ==>
              var r := Normalize(p, maxPathLength).value;
              |r| == |p| && forall k :: 0 <= k < |p| ==> r[k] == if p[k] == 92 then 47 else p[k]
  {
    hide GoodBytes, SafePath, Split;
    var q := ForwardSlashes(p);
    TurningKeepsGood(p, maxPathLength);
    if SafePath(q, maxPathLength) {
      SafeIsGood(q, maxPathLength);
      JoinSplit(q);
    } else if GoodBytes(q, maxPathLength) {
      GoodIsSafe(q, maxPathLength);
      assert false;
    }
  }

  /** Bytes of a name that nothing forbids. */
  predicate Plain(name: Path) {
    name != [] && forall k :: 0 <= k < |name| ==> !IsSlash(name[k]) && name[k] !in {0, 32, 46, 58}
  }

  lemma DotIsNoDevice(p: Path, i: nat, j: nat)
    requires i <= j <= |p| && (i < j ==> p[i] == 46)
    ensures !IsDevice(p, i, j, 3) && !IsDevice(p, i, j, 4)
  {
  }

  /** Dot files are accepted at the root, */
  lemma DotFilesAreAccepted(name: Path, maxPathLength: nat)
    requires Plain(name) && 1 + |name| <= maxPathLength
    ensures Normalize([46] + name, maxPathLength) == Ok([46] + name)
  {
    hide IsDevice;
    var p := [46] + name;
    assert forall k :: 0 <= k < |p| ==> !IsSlash(p[k]) && p[k] != 0 && p[k] != 58 && !TrailsOff(p, k);
    forall i: nat, j: nat | Between(p, i, j)
      ensures !IsDevice(p, i, j, 3) && !IsDevice(p, i, j, 4)
    {
      DotIsNoDevice(p, i, j);
    }
    AcceptedExactlyWhen(p, maxPathLength);
    NoSlashStays(p, maxPathLength);
  }

  lemma NoSlashStays(p: Path, maxPathLength: nat)
    requires GoodBytes(p, maxPathLength) && forall k :: 0 <= k < |p| ==> p[k] != 92
    ensures Normalize(p, maxPathLength) == Ok(p)
  {
    hide GoodBytes, Normalize;
    AcceptedExactlyWhen(p, maxPathLength);
    assert Normalize(p, maxPathLength).value == p;
  }

  lemma DeviceStaysInside(before: Path, rest: Path, i: nat, j: nat)
    requires i <= j <= |before|
    ensures IsDevice(before + rest, i, j, 3) <==> IsDevice(before, i, j, 3)
    ensures IsDevice(before + rest, i, j, 4) <==> IsDevice(before, i, j, 4)
  {
    var p := before + rest;
    DeviceIsInside(p, i, j, 3);
    DeviceIsInside(before, i, j, 3);
    DeviceIsInside(p, i, j, 4);
    DeviceIsInside(before, i, j, 4);
    hide IsDevice;
    assert p[i..j] == before[i..j];
  }

  /** and below every directory that is accepted. */
  lemma DotFilesBelowAreAccepted(before: Path, name: Path, maxPathLength: nat)
    requires Normalize(before, maxPathLength).Ok? && Plain(name) && |before| + 2 + |name| <= maxPathLength
    ensures Normalize(before + [47, 46] + name, maxPathLength).Ok?
  {
    hide IsDevice;
    AcceptedExactlyWhen(before, maxPathLength);
    hide Normalize;
    var n, rest := |before|, [47, 46] + name;
    var p := before + rest;
    assert p == before + [47, 46] + name;
    assert forall k :: 0 <= k < n ==> p[k] == before[k];
    assert p[n] == 47 && p[n + 1] == 46 && forall k :: n + 2 <= k < |p| ==> p[k] == name[k - n - 2];
    BelowIsGood(before, name, p);
    assert IsSlash(p[n]) && forall k :: n < k < |p| ==> !IsSlash(p[k]);
    forall i: nat, j: nat | Between(p, i, j)
      ensures !IsDevice(p, i, j, 3) && !IsDevice(p, i, j, 4)
    {
      if j <= n {
        assert Between(before, i, j);
        DeviceStaysInside(before, rest, i, j);
      } else {
        DotIsNoDevice(p, i, j);
      }
    }
    AcceptedExactlyWhen(p, maxPathLength);
  }

  lemma BelowIsGood(before: Path, name: Path, p: Path)
    requires |p| == |before| + 2 + |name| && Plain(name)
    requires forall k :: 0 <= k < |before| ==> p[k] == before[k]
    requires p[|before|] == 47 && p[|before| + 1] == 46 && forall k :: |before| + 2 <= k < |p| ==> p[k] == name[k - |before| - 2]
    requires before != [] && !IsSlash(before[0]) && !IsSlash(before[|before| - 1])
    requires forall k :: 0 <= k < |before| ==> before[k] != 0 && before[k] != 58 && !TrailsOff(before, k)
    requires forall k :: 0 < k < |before| ==> !(IsSlash(before[k - 1]) && IsSlash(before[k]))
    ensures forall k :: 0 <= k < |p| ==> p[k] != 0 && p[k] != 58 && !TrailsOff(p, k)
    ensures !IsSlash(p[0]) && !IsSlash(p[|p| - 1]) && forall k :: 0 < k < |p| ==> !(IsSlash(p[k - 1]) && IsSlash(p[k]))
  {
    forall k | 0 <= k < |p|
      ensures p[k] != 0 && p[k] != 58 && !TrailsOff(p, k)
    {
      if k < |before| { assert !TrailsOff(before, k); }
    }
  }

  /** The parent directory is refused wherever it stands, and so is a device, in any letter case and with any extension. */
  lemma ParentsAndDevicesAreRefused(before: Path, after: Path, maxPathLength: nat)
    requires before == [] || IsSlash(before[|before| - 1])
    requires after == [] || IsSlash(after[0])
    ensures Normalize(before + [46, 46] + after, maxPathLength).Err?
    ensures Normalize(before + [67, 111, 78] + after, maxPathLength).Err?
    ensures Normalize(before + [108, 112, 116, 49, 46, 116] + after, maxPathLength).Err?
  {
    var n := |before|;
    var p, q, r := before + [46, 46] + after, before + [67, 111, 78] + after, before + [108, 112, 116, 49, 46, 116] + after;
    assert TrailsOff(p, n + 1);
    assert Between(q, n, n + 3) && IsDevice(q, n, n + 3, 3);
    assert Between(r, n, n + 6) && IsDevice(r, n, n + 6, 4);
    AcceptedExactlyWhen(p, maxPathLength);
    AcceptedExactlyWhen(q, maxPathLength);
    AcceptedExactlyWhen(r, maxPathLength);
  }

  // ---- a whole tree --------------------------------------------------------------------------------------

  /** Bytes that count as the same: equal, or both slashes, or one letter in two cases. */
  predicate SameByte(a: Byte, b: Byte) {
    || a == b
    || (IsSlash(a) && IsSlash(b))
    || (65 <= a <= 90 && b == a + 32)
    || (65 <= b <= 90 && a == b + 32)
  }

  /** Two paths collide when they differ at most in the case of letters and the kind of slashes. */
  predicate Collide(p: Path, q: Path) {
    |p| == |q| && forall k :: 0 <= k < |p| ==> SameByte(p[k], q[k])
  }

  lemma CollideExactlyWhen(p: Path, q: Path)
    ensures Lower(ForwardSlashes(p)) == Lower(ForwardSlashes(q)) <==> Collide(p, q)
  {
    var a, b := Lower(ForwardSlashes(p)), Lower(ForwardSlashes(q));
    if a == b {
      forall k | 0 <= k < |p| ensures SameByte(p[k], q[k]) { assert a[k] == b[k]; }
    }
  }

  /** The bytes of all files. */
  function Bytes(walked: seq<SourceFile>): nat {
    if walked == [] then 0 else |walked[0].content| + Bytes(walked[1..])
  }

  lemma {:induction false} TotalIsBytes(walked: seq<SourceFile>)
    ensures TotalBytes(walked) == Bytes(walked)
  {
    if |walked| > 0 {
      TotalIsBytes(walked[1..]);
      FirstAndRest(walked);
    }
  }

  lemma {:induction false} FirstAndRest(walked: seq<SourceFile>)
    requires |walked| > 0
    ensures TotalBytes(walked) == |walked[0].content| + TotalBytes(walked[1..])
  {
    if |walked| > 1 {
      FirstAndRest(walked[..|walked| - 1]);
      assert walked[..|walked| - 1][1..] == walked[1..][..|walked| - 2];
    }
  }

  /** A tree is accepted exactly when every path is good, no two collide, and number, size and total stay within the limits. */
  lemma TreeIsAcceptedExactlyWhen(walked: seq<SourceFile>, limits: Limits)
    ensures Acceptable(walked, limits) <==>
              && (forall i :: 0 <= i < |walked| ==>
                    GoodBytes(walked[i].path, limits.maxPathLength) && |walked[i].content| <= limits.maxFileBytes)
              && |walked| <= limits.maxFiles && Bytes(walked) <= limits.maxTotalBytes
              && forall i, k :: 0 <= i < k < |walked| ==> !Collide(walked[i].path, walked[k].path)
  {
    hide GoodBytes, Normalize, Lower, Collide;
    TotalIsBytes(walked);
    forall i | 0 <= i < |walked|
      ensures Normalize(walked[i].path, limits.maxPathLength).Ok? <==> GoodBytes(walked[i].path, limits.maxPathLength)
    {
      AcceptedExactlyWhen(walked[i].path, limits.maxPathLength);
    }
    forall i, k | 0 <= i < k < |walked|
      ensures Lower(ForwardSlashes(walked[i].path)) == Lower(ForwardSlashes(walked[k].path)) <==> Collide(walked[i].path, walked[k].path)
    {
      CollideExactlyWhen(walked[i].path, walked[k].path);
    }
  }
}

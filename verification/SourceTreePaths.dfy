/** Paths of a source tree as byte strings, and the manifest built from a walked tree. */
module SourceTreePaths {
  import opened Wrappers
  import opened SortedText

  type Byte = x: int | 0 <= x < 256
  type Path = seq<Byte>


  const SLASH: Byte := 47
  const BACKSLASH: Byte := 92
  const DOT: Byte := 46
  const COLON: Byte := 58
  const SPACE: Byte := 32

  // ---- segments ---------------------------------------------------------------

  function Split(s: Path): (segments: seq<Path>)
    ensures |segments| >= 1
  {
    if s == [] then [[]]
    else if s[0] == SLASH then [[]] + Split(s[1..])
    else var rest := Split(s[1..]); [[s[0]] + rest[0]] + rest[1..]
  }

  function Join(segments: seq<Path>): Path
    requires |segments| >= 1
  {
    if |segments| == 1 then segments[0] else segments[0] + [SLASH] + Join(segments[1..])
  }

  lemma {:induction false} JoinSplit(s: Path)
    ensures Join(Split(s)) == s
  {
    if s != [] {
      JoinSplit(s[1..]);
      var rest := Split(s[1..]);
      if s[0] == SLASH {
        assert Split(s)[1..] == rest;
      } else {
        assert Split(s)[1..] == rest[1..];
      }
    }
  }

  lemma {:induction false} JoinAppend(a: seq<Path>, b: seq<Path>)
    requires |a| >= 1 && |b| >= 1
    ensures Join(a + b) == Join(a) + [SLASH] + Join(b)
  {
    if |a| == 1 {
      assert (a + b)[1..] == b;
    } else {
      assert (a + b)[1..] == a[1..] + b;
      JoinAppend(a[1..], b);
    }
  }

  lemma {:induction false} SplitAtSlash(s: Path, k: nat)
    requires k < |s| && s[k] == SLASH
    ensures Split(s) == Split(s[..k]) + Split(s[k + 1..])
  {
    if k == 0 {
      assert s[..0] == [];
    } else {
      assert s[1..][..k - 1] == s[..k][1..];
      assert s[1..][k..] == s[k + 1..];
      SplitAtSlash(s[1..], k - 1);
    }
  }

  // ---- normalization ------------------------------------------------------------

  function ForwardSlashes(s: Path): (r: Path)
    ensures |r| == |s|
    ensures forall i :: 0 <= i < |s| ==> r[i] == if s[i] == BACKSLASH then SLASH else s[i]
  {
    seq(|s|, i requires 0 <= i < |s| => if s[i] == BACKSLASH then SLASH else s[i])
  }

  function LowerByte(b: Byte): Byte {
    if 65 <= b <= 90 then b + 32 else b
  }

  function Lower(s: Path): (r: Path)
    ensures |r| == |s|
    ensures forall i :: 0 <= i < |s| ==> r[i] == LowerByte(s[i])
  {
    seq(|s|, i requires 0 <= i < |s| => LowerByte(s[i]))
  }

  const CON: Path := [99, 111, 110]
  const PRN: Path := [112, 114, 110]
  const AUX: Path := [97, 117, 120]
  const NUL: Path := [110, 117, 108]
  const COM: Path := [99, 111, 109]
  const LPT: Path := [108, 112, 116]

  predicate LineTerminator(b: Byte) {
    b == 10 || b == 13
  }

  /** con, prn, aux, nul, com1-9 and lpt1-9, alone or before a dot, in any letter case. */
  predicate WindowsReserved(segment: Path) {
    var low := Lower(segment);
    var stem :=
      if |low| >= 3 && low[..3] in {CON, PRN, AUX, NUL} then 3
      else if |low| >= 4 && low[..3] in {COM, LPT} && 49 <= low[3] <= 57 then 4
      else 0;
    && stem > 0
    && (|low| == stem || (low[stem] == DOT && forall i :: stem < i < |low| ==> !LineTerminator(low[i])))
  }

  predicate SafeSegment(segment: Path) {
    && segment != [] && segment != [DOT] && segment != [DOT, DOT]
    && segment[|segment| - 1] != SPACE && segment[|segment| - 1] != DOT
    && COLON !in segment
    && !WindowsReserved(segment)
  }

  predicate DrivePrefix(s: Path) {
    |s| >= 2 && s[1] == COLON && (65 <= s[0] <= 90 || 97 <= s[0] <= 122)
  }

  predicate SafePath(raw: Path, maxPathLength: nat) {
    && raw != [] && raw != [DOT] && |raw| <= maxPathLength
    && raw[0] != SLASH && !DrivePrefix(raw) && 0 !in raw
    && (forall segment :: segment in Split(raw) ==> SafeSegment(segment))
  }

  function Normalize(path: Path, maxPathLength: nat): Result<Path, ()> {
    var raw := ForwardSlashes(path);
    if SafePath(raw, maxPathLength) then Ok(Join(Split(raw))) else Err(())
  }

  /** What comes out is a safe path, and normalizing it again changes nothing. */
  lemma NormalizeIsIdempotent(path: Path, maxPathLength: nat)
    requires Normalize(path, maxPathLength).Ok?
    ensures var safe := Normalize(path, maxPathLength).value;
            && safe == ForwardSlashes(path) && SafePath(safe, maxPathLength)
            && Normalize(safe, maxPathLength) == Ok(safe)
  {
    var raw := ForwardSlashes(path);
    JoinSplit(raw);
    assert ForwardSlashes(raw) == raw;
  }

  // ---- the manifest -----------------------------------------------------------------

  datatype SourceFile = SourceFile(path: Path, content: seq<Byte>, executable: bool)
  datatype Limits = Limits(maxFiles: nat, maxTotalBytes: nat, maxFileBytes: nat, maxPathLength: nat)
  datatype ManifestError = UnsafePath | FileTooLarge | TreeTooLarge | TooManyFiles | DuplicatePath | CaseCollision

  function TotalBytes(files: seq<SourceFile>): nat {
    if files == [] then 0 else TotalBytes(files[..|files| - 1]) + |files[|files| - 1].content|
  }

  lemma {:induction false} TotalGrows(files: seq<SourceFile>, k: nat)
    requires k <= |files|
    ensures TotalBytes(files[..k]) <= TotalBytes(files)
  {
    if k == |files| {
      assert files[..k] == files;
    } else {
      assert files[..|files| - 1][..k] == files[..k];
      TotalGrows(files[..|files| - 1], k);
    }
  }

  ghost predicate Fits(walked: seq<SourceFile>, limits: Limits) {
    && (forall i :: 0 <= i < |walked| ==> Normalize(walked[i].path, limits.maxPathLength).Ok?)
    && (forall i :: 0 <= i < |walked| ==> |walked[i].content| <= limits.maxFileBytes)
    && TotalBytes(walked) <= limits.maxTotalBytes
    && |walked| <= limits.maxFiles
  }

  ghost predicate NoCollision(walked: seq<SourceFile>) {
    forall i, k :: 0 <= i < k < |walked| ==> Lower(ForwardSlashes(walked[i].path)) != Lower(ForwardSlashes(walked[k].path))
  }

  /** What a walked tree must be for its manifest to be built. */
  ghost predicate Acceptable(walked: seq<SourceFile>, limits: Limits) {
    Fits(walked, limits) && NoCollision(walked)
  }

  /** A limit broken on the way is broken at the end. */
  lemma PrefixFits(walked: seq<SourceFile>, limits: Limits, k: nat)
    requires Fits(walked, limits) && k <= |walked|
    ensures Fits(walked[..k], limits)
  {
    hide Normalize;
    TotalGrows(walked, k);
  }

  /** The walk with its running totals. */
  method Walk(walked: seq<SourceFile>, limits: Limits) returns (r: Result<seq<SourceFile>, ManifestError>)
    ensures r.Ok? <==> Fits(walked, limits)
    ensures r.Ok? ==> |r.value| == |walked| && forall i :: 0 <= i < |walked| ==>
      r.value[i] == walked[i].(path := ForwardSlashes(walked[i].path))
  {
    hide Normalize;
    var files: seq<SourceFile> := [];
    var total := 0;
    var i := 0;
    while i < |walked|
      invariant 0 <= i <= |walked| && |files| == i
      invariant total == TotalBytes(walked[..i])
      invariant Fits(walked[..i], limits)
      invariant forall j :: 0 <= j < i ==> files[j] == walked[j].(path := ForwardSlashes(walked[j].path))
    {
      var file := walked[i];
      assert walked[..i + 1] == walked[..i] + [file];
      if Fits(walked, limits) { PrefixFits(walked, limits, i + 1); }
      var path := Normalize(file.path, limits.maxPathLength);
      if path.Err? { return Err(UnsafePath); }
      NormalizeIsIdempotent(file.path, limits.maxPathLength);
      if |file.content| > limits.maxFileBytes { return Err(FileTooLarge); }
      total := total + |file.content|;
      if total > limits.maxTotalBytes { return Err(TreeTooLarge); }
      files := files + [file.(path := path.value)];
      if |files| > limits.maxFiles { return Err(TooManyFiles); }
      i := i + 1;
    }
    assert walked[..i] == walked;
    r := Ok(files);
  }

  ghost predicate LowerDistinct(files: seq<SourceFile>) {
    forall i, k :: 0 <= i < k < |files| ==> Lower(files[i].path) != Lower(files[k].path)
  }

  method AssertNoDuplicateOrCaseCollidingPaths(files: seq<SourceFile>) returns (r: Result<(), ManifestError>)
    requires forall i :: 0 <= i < |files| ==> files[i].path != []
    ensures r.Ok? <==> LowerDistinct(files)
    ensures r == Err(CaseCollision) ==>
      exists i, k :: 0 <= i < k < |files| && files[i].path != files[k].path && Lower(files[i].path) == Lower(files[k].path)
    ensures r == Err(DuplicatePath) ==> exists i, k :: 0 <= i < k < |files| && files[i].path == files[k].path
  {
    hide Lower;
    var exact: set<Path> := {};
    var folded: map<Path, Path> := map[];
    var i := 0;
    while i < |files|
      invariant 0 <= i <= |files|
      invariant exact == set j | 0 <= j < i :: files[j].path
      invariant folded.Keys == set j | 0 <= j < i :: Lower(files[j].path)
      invariant forall p :: p in folded ==> folded[p] in exact && Lower(folded[p]) == p
      invariant forall j, k :: 0 <= j < k < i ==> Lower(files[j].path) != Lower(files[k].path)
    {
      var path := files[i].path;
      if path in exact { return Err(DuplicatePath); }
      var lower := Lower(path);
      if lower in folded && folded[lower] != path { return Err(CaseCollision); }
      exact := exact + {path};
      folded := folded[lower := path];
      i := i + 1;
    }
    r := Ok(());
  }

  /** The walked files under their normalized paths. */
  function Normalized(walked: seq<SourceFile>): (r: seq<SourceFile>)
    ensures |r| == |walked|
    ensures forall i :: 0 <= i < |walked| ==> r[i] == walked[i].(path := ForwardSlashes(walked[i].path))
  {
    seq(|walked|, i requires 0 <= i < |walked| => walked[i].(path := ForwardSlashes(walked[i].path)))
  }

  /** Whether paths collide does not depend on the order they are listed in. */
  lemma CollisionForgetsOrder(files: seq<SourceFile>, others: seq<SourceFile>)
    requires multiset(files) == multiset(others) && LowerDistinct(files)
    ensures LowerDistinct(others)
  {
    hide Lower;
    var a := seq(|files|, i requires 0 <= i < |files| => Lower(files[i].path));
    var b := seq(|others|, i requires 0 <= i < |others| => Lower(others[i].path));
    PermutedImages(files, others, a, b);
    DistinctByMultiset(a, b);
    assert forall i :: 0 <= i < |others| ==> b[i] == Lower(others[i].path);
  }

  /** The manifest's files: the walk sorted by `le`, which stands for localeCompare on paths. */
  method BuildSourceTreeManifest(walked: seq<SourceFile>, limits: Limits, le: (SourceFile, SourceFile) -> bool)
    returns (r: Result<seq<SourceFile>, ManifestError>)
    requires TotalPreorder(le)
    ensures r.Ok? <==> Acceptable(walked, limits)
    ensures r.Ok? ==> r.value == Sort(le, Normalized(walked)) && ManifestOk(r.value, limits)
  {
    hide TotalPreorder, Sort, Lower, Normalize, SafePath, LowerDistinct;
    var walk := Walk(walked, limits);
    if walk.Err? { return walk; }
    var files := Sort(le, walk.value);
    assert walk.value == Normalized(walked);
    SortSorts(le, walk.value);
    WalkedIsSafe(walked, limits, files);
    var distinct := AssertNoDuplicateOrCaseCollidingPaths(files);
    SameCollisions(walked, files);
    if distinct.Ok? { DifferInCaseToo(files); }
    r := if distinct.Err? then Err(distinct.error) else Ok(files);
  }

  lemma DifferInCaseToo(files: seq<SourceFile>)
    requires LowerDistinct(files)
    ensures forall i, k :: 0 <= i < k < |files| ==> files[i].path != files[k].path
  {
    hide Lower;
  }

  lemma SameCollisions(walked: seq<SourceFile>, files: seq<SourceFile>)
    requires multiset(files) == multiset(Normalized(walked))
    ensures NoCollision(walked) <==> LowerDistinct(files)
  {
    hide Lower;
    if LowerDistinct(files) { CollisionForgetsOrder(files, Normalized(walked)); }
    if NoCollision(walked) { CollisionForgetsOrder(Normalized(walked), files); }
  }

  lemma WalkedIsSafe(walked: seq<SourceFile>, limits: Limits, files: seq<SourceFile>)
    requires Fits(walked, limits) && multiset(files) == multiset(Normalized(walked))
    ensures forall i :: 0 <= i < |files| ==>
      && SafePath(files[i].path, limits.maxPathLength) && Normalize(files[i].path, limits.maxPathLength) == Ok(files[i].path)
      && |files[i].content| <= limits.maxFileBytes && files[i].path != []
  {
    forall i | 0 <= i < |files|
      ensures SafePath(files[i].path, limits.maxPathLength) && Normalize(files[i].path, limits.maxPathLength) == Ok(files[i].path)
      ensures |files[i].content| <= limits.maxFileBytes && files[i].path != []
    {
      hide Normalize;
      assert files[i] in multiset(files);
      assert files[i] in multiset(Normalized(walked));
      var k :| 0 <= k < |walked| && Normalized(walked)[k] == files[i];
      NormalizeIsIdempotent(walked[k].path, limits.maxPathLength);
    }
  }

  /** Listing the directory in another order gives the same manifest, if no two paths compare as equal. */
  lemma ManifestForgetsListing(walked: seq<SourceFile>, others: seq<SourceFile>, le: (SourceFile, SourceFile) -> bool)
    requires TotalPreorder(le) && Separates(le, Normalized(walked)) && multiset(walked) == multiset(others)
    ensures Sort(le, Normalized(walked)) == Sort(le, Normalized(others))
  {
    hide TotalPreorder, Sort, Separates;
    PermutedImages(walked, others, Normalized(walked), Normalized(others));
    SortForgetsOrder(le, Normalized(walked), Normalized(others));
  }

  /** What the bundle writer gets: normalized, pairwise distinct paths and files within the limit. */
  ghost predicate ManifestOk(files: seq<SourceFile>, limits: Limits) {
    && (forall i :: 0 <= i < |files| ==>
          SafePath(files[i].path, limits.maxPathLength) && Normalize(files[i].path, limits.maxPathLength) == Ok(files[i].path))
    && (forall i :: 0 <= i < |files| ==> |files[i].content| <= limits.maxFileBytes)
    && (forall i, k :: 0 <= i < k < |files| ==> files[i].path != files[k].path)
  }
}

/** Reading a written bundle gives the source tree back, exactly when every size fits its header field. */
module BundleRoundTrip {
  import opened Wrappers
  import opened SourceTreePaths
  import opened OctalFields
  import opened TarHeader
  import opened NormalizedBundle

  // ---- reading one header ---------------------------------------------------------------

  lemma {:induction false} TextWithoutNul(s: seq<Byte>, from: nat)
    requires from <= |s| && 0 !in s
    ensures TextEnd(s, from) == |s|
    decreases |s| - from
  {
    if from < |s| { TextWithoutNul(s, from + 1); }
  }

  lemma StripPad(s: seq<Byte>, width: nat)
    requires |s| <= width && 0 !in s
    ensures StripNul(Pad(s, width)) == s
  {
    var padded := Pad(s, width);
    if |s| == width {
      assert padded == s;
      TextWithoutNul(s, 0);
    } else {
      TextEndsAtFirstNul(padded, |s|, 0);
    }
  }

  ghost predicate CleanPath(path: Path) {
    path != [] && path[0] != SLASH && 0 !in path
  }

  lemma NameReadsBack(path: Path, executable: bool, size: nat)
    requires CleanPath(path) && SplitTarName(path).Some?
    ensures var n := SplitTarName(path).value;
            && |n.name| <= MAX_NAME && |n.prefix| <= MAX_PREFIX
            && ReadTarPath(HeaderBytes(n, executable, size)) == path
  {
    hide HeaderBytes, StripNul, Pad;
    SplitRejoins(path);
    var n := SplitTarName(path).value;
    HeaderLayout(n, executable, size);
    StripPad(n.name, 100);
    StripPad(n.prefix, 155);
  }

  lemma ModeReadsBack(executable: bool)
    ensures AnyExecuteBit(ParseOctal(OctalField(ModeOf(executable), 8))) == executable
  {
    hide ParseOctal, OctalField;
    assert ModeOf(executable) < Pow8(7) by {
      Pow8Grows(3, 7);
      assert Pow8(3) == 512;
    }
    OctalFieldRoundTrip(ModeOf(executable), 8);
  }

  function ReadSize(size: nat): (r: nat)
    ensures ParseOctal(OctalField(size, 12)) == Some(r)
    ensures r <= size && (r == size <==> size < Pow8(11))
  {
    OctalFieldRoundTrip(size, 12);
    ParseOctal(OctalField(size, 12)).value
  }

  /** What the reader takes for the file whose header it finds: all of it, or a prefix when the size was cut. */
  function ReadBack(file: SourceFile, offset: nat): Entry {
    Entry(file.path, offset + BLOCK, file.content[..ReadSize(|file.content|)], file.executable)
  }

  ghost predicate HoldsAt(archive: seq<Byte>, offset: nat, part: seq<Byte>) {
    offset + |part| <= |archive| && archive[offset..offset + |part|] == part
  }

  ghost predicate WritableFile(file: SourceFile, maxPathLength: nat) {
    && SplitTarName(file.path).Some?
    && CleanPath(file.path) && Normalize(file.path, maxPathLength) == Ok(file.path)
  }

  lemma MemberReadsBack(archive: seq<Byte>, offset: nat, file: SourceFile, seen: set<Path>, maxPathLength: nat)
    requires WritableFile(file, maxPathLength) && file.path !in seen
    requires var n := SplitTarName(file.path).value;
             && |n.name| <= MAX_NAME && |n.prefix| <= MAX_PREFIX
             && HoldsAt(archive, offset, Member(file, n))
    ensures ReadEntry(archive, offset, seen, maxPathLength) == Ok(Some(ReadBack(file, offset)))
  {
    hide HeaderBytes, ParseOctal, OctalField, Normalize, SplitTarName, ReadTarPath, AnyExecuteBit, ModeOf, CleanPath, Sum, Zeros;
    var n := SplitTarName(file.path).value;
    var size := |file.content|;
    var header := HeaderBytes(n, file.executable, size);
    var member := Member(file, n);
    var start := offset + BLOCK;
    assert member[..BLOCK] == header && member[BLOCK..BLOCK + size] == file.content;
    assert archive[offset..start] == member[..BLOCK];
    assert archive[start..start + size] == member[BLOCK..BLOCK + size];
    HeaderLayout(n, file.executable, size);
    NameReadsBack(file.path, file.executable, size);
    ModeReadsBack(file.executable);
    var read := ReadSize(size);
    assert archive[start..start + read] == file.content[..read];
  }

  // ---- reading a bundle -----------------------------------------------------------------

  ghost predicate Writable(files: seq<SourceFile>, maxPathLength: nat) {
    && (forall i :: 0 <= i < |files| ==> WritableFile(files[i], maxPathLength))
    && (forall i, k :: 0 <= i < k < |files| ==> files[i].path != files[k].path)
  }

  predicate SizesFit(files: seq<SourceFile>) {
    forall i :: 0 <= i < |files| ==> |files[i].content| < Pow8(11)
  }

  /** The tree holds each file under its path and nothing else. */
  ghost predicate IsTreeOf(tree: Tree, files: seq<SourceFile>) {
    && (forall p :: p in tree ==> exists i :: 0 <= i < |files| && files[i].path == p)
    && (forall i :: 0 <= i < |files| ==>
          files[i].path in tree && tree[files[i].path] == TreeFile(files[i].content, files[i].executable))
  }

  lemma {:induction false} FilesOfKeys(entries: seq<Entry>, p: Path)
    ensures p in FilesOf(entries) <==> exists i :: 0 <= i < |entries| && entries[i].path == p
  {
    if entries != [] {
      FilesOfKeys(entries[..|entries| - 1], p);
      assert forall i :: 0 <= i < |entries| - 1 ==> entries[i] == entries[..|entries| - 1][i];
    }
  }

  lemma {:induction false} FilesOfAt(entries: seq<Entry>, j: nat)
    requires j < |entries|
    requires forall i, k :: 0 <= i < k < |entries| ==> entries[i].path != entries[k].path
    ensures entries[j].path in FilesOf(entries)
    ensures FilesOf(entries)[entries[j].path] == TreeFile(entries[j].content, entries[j].executable)
  {
    if j < |entries| - 1 { FilesOfAt(entries[..|entries| - 1], j); }
  }

  lemma HoldsParts(archive: seq<Byte>, offset: nat, a: seq<Byte>, b: seq<Byte>)
    requires HoldsAt(archive, offset, a + b)
    ensures HoldsAt(archive, offset, a) && HoldsAt(archive, offset + |a|, b)
  {
    var whole := archive[offset..offset + |a + b|];
    assert whole[..|a|] == archive[offset..offset + |a|];
    assert whole[|a|..] == archive[offset + |a|..offset + |a| + |b|];
  }

  lemma BundleHead(archive: seq<Byte>, offset: nat, files: seq<SourceFile>)
    requires files != [] && Splittable(files) && PathsStart(files)
    requires HoldsAt(archive, offset, BundleOf(files))
    ensures var n := SplitTarName(files[0].path).value;
            && |n.name| <= MAX_NAME && |n.prefix| <= MAX_PREFIX
            && HoldsAt(archive, offset, Member(files[0], n))
            && HoldsAt(archive, offset + |Member(files[0], n)|, BundleOf(files[1..]))
            && |Member(files[0], n)| == BLOCK + |files[0].content| + PaddingLength(|files[0].content|)
  {
    hide SplitTarName, HeaderBytes, PaddingLength, Zeros, HoldsAt;
    SplitRejoins(files[0].path);
    var n := SplitTarName(files[0].path).value;
    HoldsParts(archive, offset, Member(files[0], n), BundleOf(files[1..]));
  }

  lemma TailIsWritable(files: seq<SourceFile>, maxPathLength: nat)
    requires files != [] && Writable(files, maxPathLength)
    ensures Writable(files[1..], maxPathLength)
    ensures Splittable(files) && PathsStart(files) && Splittable(files[1..]) && PathsStart(files[1..])
    ensures WritableFile(files[0], maxPathLength)
    ensures forall i :: 0 <= i < |files| - 1 ==> files[1..][i].path != files[0].path
  {
    hide Normalize, SplitTarName;
  }

  lemma UncutIsWhole(file: SourceFile, offset: nat)
    requires |file.content| < Pow8(11)
    ensures ReadBack(file, offset) == Entry(file.path, offset + BLOCK, file.content, file.executable)
  {
    hide Pow8, ParseOctal, OctalField;
    assert ReadSize(|file.content|) == |file.content|;
    hide ReadSize;
  }

  /** The next member follows a file that was not cut. */
  lemma UncutIsFollowed(archive: seq<Byte>, offset: nat, files: seq<SourceFile>)
    requires files != [] && Splittable(files) && PathsStart(files) && |files[0].content| < Pow8(11)
    requires HoldsAt(archive, offset, BundleOf(files))
    ensures var e := ReadBack(files[0], offset);
            e.content == files[0].content && HoldsAt(archive, Next(e), BundleOf(files[1..]))
  {
    hide SplitTarName, Member, PathsStart, HoldsAt, BundleOf, PaddingLength, Pow8, ReadBack;
    UncutIsWhole(files[0], offset);
    BundleHead(archive, offset, files);
  }

  /** Reading a bundle reads its first file, and then the rest of the bundle when nothing was cut. */
  lemma FirstFileReads(archive: seq<Byte>, offset: nat, files: seq<SourceFile>, seen: set<Path>, maxPathLength: nat)
    requires files != [] && Writable(files, maxPathLength) && Splittable(files) && PathsStart(files)
    requires HoldsAt(archive, offset, BundleOf(files)) && files[0].path !in seen
    ensures var e := ReadBack(files[0], offset);
            var rest := Scan(archive, Next(e), seen + {e.path}, maxPathLength);
            && Scan(archive, offset, seen, maxPathLength) == Unpacked([e] + rest.entries, rest.error)
            && (|files[0].content| < Pow8(11) ==>
                  e.content == files[0].content && HoldsAt(archive, Next(e), BundleOf(files[1..])))
  {
    hide Scan, ReadEntry, ReadBack, Next, Writable, Splittable, WritableFile, SplitTarName, Member, PathsStart, HoldsAt, BundleOf, Pow8;
    BundleHead(archive, offset, files);
    TailIsWritable(files, maxPathLength);
    MemberReadsBack(archive, offset, files[0], seen, maxPathLength);
    ScanUnfolds(archive, offset, seen, maxPathLength, ReadBack(files[0], offset));
    if |files[0].content| < Pow8(11) { UncutIsFollowed(archive, offset, files); }
  }

  /** A bundle whose sizes fit is read to its end, one entry per file. */
  lemma {:induction false} ScanReads(archive: seq<Byte>, offset: nat, files: seq<SourceFile>, seen: set<Path>,
                                     maxPathLength: nat)
    requires Writable(files, maxPathLength) && SizesFit(files) && Splittable(files) && PathsStart(files)
    requires HoldsAt(archive, offset, BundleOf(files))
    requires forall i :: 0 <= i < |files| ==> files[i].path !in seen
    ensures var u := Scan(archive, offset, seen, maxPathLength);
            && u.error.None? && |u.entries| == |files|
            && (forall i :: 0 <= i < |files| ==>
                  u.entries[i].path == files[i].path && u.entries[i].content == files[i].content
                  && u.entries[i].executable == files[i].executable)
    decreases |files|
  {
    hide Scan, ReadEntry, WritableFile, SplitTarName, PathsStart, HoldsAt, BundleOf, PaddingLength, Pow8, Writable;
    if files == [] {
      EndOfBundle(archive, offset, seen, maxPathLength);
    } else {
      FirstFileReads(archive, offset, files, seen, maxPathLength);
      TailIsWritable(files, maxPathLength);
      var e := ReadBack(files[0], offset);
      ScanReads(archive, Next(e), files[1..], seen + {e.path}, maxPathLength);
    }
  }

  lemma EndOfBundle(archive: seq<Byte>, offset: nat, seen: set<Path>, maxPathLength: nat)
    requires HoldsAt(archive, offset, BundleOf([]))
    ensures Scan(archive, offset, seen, maxPathLength) == Unpacked([], None)
  {
    hide ParseOctal, Normalize, ReadTarPath, AnyExecuteBit;
    assert archive[offset..offset + BLOCK] == archive[offset..offset + 2 * BLOCK][..BLOCK];
  }

  lemma CutIsShorter(file: SourceFile, offset: nat)
    ensures ReadBack(file, offset).path == file.path
    ensures |file.content| >= Pow8(11) ==> |ReadBack(file, offset).content| < |file.content|
  {
    hide Pow8, ParseOctal, OctalField;
  }

  /** A file whose size does not fit comes back shorter, if reading gets that far. */
  lemma {:induction false} ScanCuts(archive: seq<Byte>, offset: nat, files: seq<SourceFile>, seen: set<Path>,
                                    maxPathLength: nat)
    returns (k: nat, j: nat)
    requires Writable(files, maxPathLength) && !SizesFit(files) && Splittable(files) && PathsStart(files)
    requires HoldsAt(archive, offset, BundleOf(files))
    requires forall i :: 0 <= i < |files| ==> files[i].path !in seen
    ensures var entries := Scan(archive, offset, seen, maxPathLength).entries;
            && k < |files| && j < |entries|
            && entries[j].path == files[k].path && |entries[j].content| < |files[k].content|
    decreases |files|
  {
    hide Scan, ReadBack, Next, SplitTarName, Splittable, PathsStart, HoldsAt, BundleOf, Pow8, Writable, WritableFile;
    FirstFileReads(archive, offset, files, seen, maxPathLength);
    TailIsWritable(files, maxPathLength);
    CutIsShorter(files[0], offset);
    var e := ReadBack(files[0], offset);
    if |files[0].content| >= Pow8(11) {
      k, j := 0, 0;
    } else {
      k, j := ScanCuts(archive, Next(e), files[1..], seen + {e.path}, maxPathLength);
      k, j := k + 1, j + 1;
    }
  }

  /** What reading leaves on disk is the source tree, with no error, exactly when every size has at most eleven octal digits. */
  lemma RoundTrip(files: seq<SourceFile>, maxPathLength: nat)
    requires Writable(files, maxPathLength) && Splittable(files) && PathsStart(files)
    ensures var u := Scan(BundleOf(files), 0, {}, maxPathLength);
            (u.error.None? && IsTreeOf(FilesOf(u.entries), files)) <==> SizesFit(files)
  {
    hide Scan, Writable, BundleOf, FilesOf, Splittable, PathsStart, Disjoint, SafePath, Normalize;
    var archive := BundleOf(files);
    var u := Scan(archive, 0, {}, maxPathLength);
    assert HoldsAt(archive, 0, archive);
    ScanIsSafe(archive, 0, {}, maxPathLength);
    if SizesFit(files) {
      ScanReads(archive, 0, files, {}, maxPathLength);
      forall p | p in FilesOf(u.entries)
        ensures exists i :: 0 <= i < |files| && files[i].path == p
      {
        FilesOfKeys(u.entries, p);
        var i :| 0 <= i < |u.entries| && u.entries[i].path == p;
        assert files[i].path == p;
      }
      forall i | 0 <= i < |files|
        ensures files[i].path in FilesOf(u.entries)
        ensures FilesOf(u.entries)[files[i].path] == TreeFile(files[i].content, files[i].executable)
      {
        FilesOfAt(u.entries, i);
      }
    } else {
      var k, j := ScanCuts(archive, 0, files, {}, maxPathLength);
      FilesOfAt(u.entries, j);
    }
  }

  /** A manifest whose paths split is writable, so its bundle round-trips when file sizes are limited below 8 to the 11. */
  lemma ManifestRoundTrip(files: seq<SourceFile>, limits: Limits)
    requires ManifestOk(files, limits) && Splittable(files)
    ensures PathsStart(files)
    ensures var u := Scan(BundleOf(files), 0, {}, limits.maxPathLength);
            (u.error.None? && IsTreeOf(FilesOf(u.entries), files)) <==> SizesFit(files)
    ensures limits.maxFileBytes < Pow8(11) ==> SizesFit(files)
  {
    hide Normalize, SplitTarName, Scan, BundleOf;
    PathsOfManifest(files, limits);
    RoundTrip(files, limits.maxPathLength);
  }
}

/** The normalized source bundle: a ustar archive written from a source tree and read back into one. */
module NormalizedBundle {
  import opened Wrappers
  import opened SortedText
  import opened SourceTreePaths
  import opened OctalFields
  import opened TarHeader

  datatype TreeFile = TreeFile(content: seq<Byte>, executable: bool)
  type Tree = map<Path, TreeFile>

  function PaddingLength(size: nat): (r: nat)
    ensures r < BLOCK && (size + r) % BLOCK == 0
  {
    var remainder := size % BLOCK;
    if remainder == 0 then 0 else BLOCK - remainder
  }

  // ---- the reader -----------------------------------------------------------------------

  datatype BundleError = UnsupportedType | UnsafeEntryPath | DuplicateEntry | Truncated

  datatype Entry = Entry(path: Path, start: nat, content: seq<Byte>, executable: bool)

  /** What was unpacked, up to the error if there was one. */
  datatype Unpacked = Unpacked(entries: seq<Entry>, error: Option<BundleError>)

  predicate ZeroBlock(block: seq<Byte>) {
    forall i :: 0 <= i < |block| ==> block[i] == 0
  }

  function ReadTarPath(header: seq<Byte>): Path
    requires |header| == BLOCK
  {
    Rejoin(TarName(StripNul(header[0..100]), StripNul(header[345..500])))
  }

  /** Any of the three execute bits, by two's complement; NaN has none. */
  predicate AnyExecuteBit(mode: Option<int>) {
    mode.Some? && (mode.value % 2 == 1 || mode.value / 8 % 2 == 1 || mode.value / 64 % 2 == 1)
  }

  /** The entry whose header is at the offset; Ok(None) is the end of the archive. */
  function ReadEntry(archive: seq<Byte>, offset: nat, seen: set<Path>,
                     maxPathLength: nat): (r: Result<Option<Entry>, BundleError>)
    ensures r.Ok? && r.value.Some? ==>
      var e := r.value.value;
      && e.start == offset + BLOCK && e.start + |e.content| <= |archive|
      && e.content == archive[e.start..e.start + |e.content|]
  {
    if offset + BLOCK > |archive| then Ok(None)
    else
      var header := archive[offset..offset + BLOCK];
      if ZeroBlock(header) then Ok(None)
      else if header[156] != TYPE_FILE && header[156] != 0 then Err(UnsupportedType)
      else
        var path := Normalize(ReadTarPath(header), maxPathLength);
        if path.Err? then Err(UnsafeEntryPath)
        else if path.value in seen then Err(DuplicateEntry)
        else
          var size := ParseOctal(header[124..136]);
          var start := offset + BLOCK;
          if size.None? || size.value < 0 || start + size.value > |archive| then Err(Truncated)
          else Ok(Some(Entry(path.value, start, archive[start..start + size.value],
                             AnyExecuteBit(ParseOctal(header[100..108])))))
  }

  function Next(e: Entry): nat {
    e.start + |e.content| + PaddingLength(|e.content|)
  }

  function Scan(archive: seq<Byte>, offset: nat, seen: set<Path>, maxPathLength: nat): Unpacked
    decreases if offset <= |archive| then |archive| - offset + 1 else 0
  {
    match ReadEntry(archive, offset, seen, maxPathLength)
    case Err(e) => Unpacked([], Some(e))
    case Ok(None) => Unpacked([], None)
    case Ok(Some(entry)) =>
      var rest := Scan(archive, Next(entry), seen + {entry.path}, maxPathLength);
      Unpacked([entry] + rest.entries, rest.error)
  }

  function FilesOf(entries: seq<Entry>): Tree {
    if entries == [] then map[]
    else var e := entries[|entries| - 1];
         FilesOf(entries[..|entries| - 1])[e.path := TreeFile(e.content, e.executable)]
  }

  /** What has been unpacked so far and what is still to come. */
  ghost predicate Follows(all: Unpacked, done: seq<Entry>, rest: Unpacked) {
    all == Unpacked(done + rest.entries, rest.error)
  }

  lemma FollowsEntry(all: Unpacked, done: seq<Entry>, e: Entry, rest: Unpacked)
    requires Follows(all, done, Unpacked([e] + rest.entries, rest.error))
    ensures Follows(all, done + [e], rest)
    ensures FilesOf(done + [e]) == FilesOf(done)[e.path := TreeFile(e.content, e.executable)]
  {
    assert done + ([e] + rest.entries) == (done + [e]) + rest.entries;
    assert (done + [e])[..|done|] == done;
  }

  lemma FollowsEnd(all: Unpacked, done: seq<Entry>, error: Option<BundleError>)
    requires Follows(all, done, Unpacked([], error))
    ensures all == Unpacked(done, error)
  {
    assert done + [] == done;
  }

  /** The files on disk when reading stops, and the error it stops with. */
  method MaterializeNormalizedSourceTreeBundle(archive: seq<Byte>, maxPathLength: nat)
    returns (tree: Tree, error: Option<BundleError>)
    ensures var unpacked := Scan(archive, 0, {}, maxPathLength);
            tree == FilesOf(unpacked.entries) && error == unpacked.error
  {
    hide ParseOctal, Normalize, ReadTarPath, AnyExecuteBit, ZeroBlock, Follows, FilesOf, Scan;
    tree, error := map[], None;
    var seen: set<Path> := {};
    var offset := 0;
    ghost var all := Scan(archive, 0, {}, maxPathLength);
    ghost var done: seq<Entry> := [];
    NothingDone(all);
    while offset + BLOCK <= |archive|
      invariant tree == FilesOf(done)
      invariant Follows(all, done, Scan(archive, offset, seen, maxPathLength))
      decreases |archive| - offset
    {
      ghost var read := ReadEntry(archive, offset, seen, maxPathLength);
      if read.Err? || read.value.None? {
        ScanStops(archive, offset, seen, maxPathLength);
        FollowsEnd(all, done, if read.Err? then Some(read.error) else None);
      } else {
        ScanUnfolds(archive, offset, seen, maxPathLength, read.value.value);
      }
      var header := archive[offset..offset + BLOCK];
      if ZeroBlock(header) { break; }
      if header[156] != TYPE_FILE && header[156] != 0 { return tree, Some(UnsupportedType); }
      var path := Normalize(ReadTarPath(header), maxPathLength);
      if path.Err? { return tree, Some(UnsafeEntryPath); }
      if path.value in seen { return tree, Some(DuplicateEntry); }
      var size := ParseOctal(header[124..136]);
      var mode := ParseOctal(header[100..108]);
      var start := offset + BLOCK;
      if size.None? || size.value < 0 || start + size.value > |archive| { return tree, Some(Truncated); }
      var content := archive[start..start + size.value];
      ghost var entry := Entry(path.value, start, content, AnyExecuteBit(mode));
      FollowsEntry(all, done, entry, Scan(archive, Next(entry), seen + {path.value}, maxPathLength));
      done := done + [entry];
      tree := tree[path.value := TreeFile(content, AnyExecuteBit(mode))];
      seen := seen + {path.value};
      offset := start + size.value + PaddingLength(size.value);
    }
    assert ReadEntry(archive, offset, seen, maxPathLength) == Ok(None);
    ScanStops(archive, offset, seen, maxPathLength);
    FollowsEnd(all, done, None);
  }

  lemma NothingDone(all: Unpacked)
    ensures Follows(all, [], all) && FilesOf([]) == map[]
  {
    assert [] + all.entries == all.entries;
  }

  /** Reading never runs past the archive and never unpacks a path twice or an unsafe path. */
  ghost predicate Disjoint(entries: seq<Entry>, archive: seq<Byte>, offset: nat) {
    && (forall i :: 0 <= i < |entries| ==>
          var e := entries[i];
          && offset + BLOCK <= e.start && e.start + |e.content| <= |archive|
          && e.content == archive[e.start..e.start + |e.content|])
    && (forall i, k :: 0 <= i < k < |entries| ==> entries[i].start + |entries[i].content| + BLOCK <= entries[k].start)
  }

  lemma ScanUnfolds(archive: seq<Byte>, offset: nat, seen: set<Path>, maxPathLength: nat, e: Entry)
    requires ReadEntry(archive, offset, seen, maxPathLength) == Ok(Some(e))
    ensures var rest := Scan(archive, Next(e), seen + {e.path}, maxPathLength);
            Scan(archive, offset, seen, maxPathLength) == Unpacked([e] + rest.entries, rest.error)
  {
    hide ReadEntry;
  }

  lemma ScanStops(archive: seq<Byte>, offset: nat, seen: set<Path>, maxPathLength: nat)
    requires var read := ReadEntry(archive, offset, seen, maxPathLength); read.Err? || read.value.None?
    ensures Scan(archive, offset, seen, maxPathLength) ==
              var read := ReadEntry(archive, offset, seen, maxPathLength);
              Unpacked([], if read.Err? then Some(read.error) else None)
  {
    hide ReadEntry;
  }

  lemma EntryIsSafe(archive: seq<Byte>, offset: nat, seen: set<Path>, maxPathLength: nat, e: Entry)
    requires ReadEntry(archive, offset, seen, maxPathLength) == Ok(Some(e))
    ensures SafePath(e.path, maxPathLength) && e.path !in seen && Normalize(e.path, maxPathLength) == Ok(e.path)
  {
    hide ParseOctal, Normalize, AnyExecuteBit, ZeroBlock, SafePath, ReadTarPath;
    NormalizeIsIdempotent(ReadTarPath(archive[offset..offset + BLOCK]), maxPathLength);
  }

  lemma {:induction false} ScanIsSafe(archive: seq<Byte>, offset: nat, seen: set<Path>, maxPathLength: nat)
    ensures var entries := Scan(archive, offset, seen, maxPathLength).entries;
            && Disjoint(entries, archive, offset)
            && (forall i :: 0 <= i < |entries| ==>
                  SafePath(entries[i].path, maxPathLength) && entries[i].path !in seen
                  && Normalize(entries[i].path, maxPathLength) == Ok(entries[i].path))
            && (forall i, k :: 0 <= i < k < |entries| ==> entries[i].path != entries[k].path)
    decreases if offset <= |archive| then |archive| - offset + 1 else 0
  {
    hide ReadEntry, Scan, Normalize, SafePath, PaddingLength;
    var read := ReadEntry(archive, offset, seen, maxPathLength);
    if read.Ok? && read.value.Some? {
      var e := read.value.value;
      EntryIsSafe(archive, offset, seen, maxPathLength, e);
      ScanUnfolds(archive, offset, seen, maxPathLength, e);
      ScanIsSafe(archive, Next(e), seen + {e.path}, maxPathLength);
    } else {
      ScanStops(archive, offset, seen, maxPathLength);
    }
  }

  // ---- the writer -----------------------------------------------------------------------

  ghost predicate Splittable(files: seq<SourceFile>) {
    forall i :: 0 <= i < |files| ==> SplitTarName(files[i].path).Some?
  }

  function Member(file: SourceFile, split: TarName): seq<Byte>
    requires |split.name| <= MAX_NAME && |split.prefix| <= MAX_PREFIX
  {
    HeaderBytes(split, file.executable, |file.content|) + file.content + Zeros(PaddingLength(|file.content|))
  }

  ghost predicate PathsStart(files: seq<SourceFile>) {
    forall i :: 0 <= i < |files| ==> files[i].path != [] && files[i].path[0] != SLASH
  }

  ghost function BundleOf(files: seq<SourceFile>): seq<Byte>
    requires Splittable(files) && PathsStart(files)
  {
    if files == [] then Zeros(2 * BLOCK)
    else
      SplitRejoins(files[0].path);
      Member(files[0], SplitTarName(files[0].path).value) + BundleOf(files[1..])
  }

  lemma BundleStep(files: seq<SourceFile>, i: nat)
    requires i < |files| && Splittable(files) && PathsStart(files)
    requires var n := SplitTarName(files[i].path).value; |n.name| <= MAX_NAME && |n.prefix| <= MAX_PREFIX
    ensures BundleOf(files[i..]) == Member(files[i], SplitTarName(files[i].path).value) + BundleOf(files[i + 1..])
  {
    hide SplitTarName, Member;
    assert files[i..][1..] == files[i + 1..];
  }

  datatype CreateError = Manifest(error: ManifestError) | UnsafeFilePath | PathTooLong

  method CreateNormalizedSourceTreeBundle(walked: seq<SourceFile>, limits: Limits, le: (SourceFile, SourceFile) -> bool)
    returns (files: seq<SourceFile>, r: Result<seq<Byte>, CreateError>)
    requires TotalPreorder(le)
    ensures r.Ok? || r == Err(PathTooLong) <==> Acceptable(walked, limits)
    ensures Acceptable(walked, limits) ==>
      && ManifestOk(files, limits) && files == Sort(le, Normalized(walked))
      && (r.Ok? <==> Splittable(files))
    ensures r.Ok? ==> PathsStart(files) && r.value == BundleOf(files)
  {
    hide Acceptable, Normalize, SplitTarName, SafePath, ForwardSlashes, BundleOf, HeaderBytes, ManifestOk, TotalPreorder, Sort;
    files := [];
    var manifest := BuildSourceTreeManifest(walked, limits, le);
    if manifest.Err? { return files, Err(Manifest(manifest.error)); }
    files := manifest.value;
    PathsOfManifest(files, limits);
    var bundle: seq<Byte> := [];
    var i := 0;
    assert files[0..] == files;
    while i < |files|
      invariant 0 <= i <= |files|
      invariant forall k :: 0 <= k < i ==> SplitTarName(files[k].path).Some?
      invariant Splittable(files) ==> bundle + BundleOf(files[i..]) == BundleOf(files)
    {
      var file := files[i];
      var safe := Normalize(file.path, limits.maxPathLength);
      if safe.Err? { return files, Err(UnsafeFilePath); }
      var header, split := TarHeader.TarHeader(file.path, file.executable, |file.content|);
      if split.None? { return files, Err(PathTooLong); }
      var padding := PaddingLength(|file.content|);
      if Splittable(files) { BundleStep(files, i); }
      bundle := bundle + (header[..] + file.content + Zeros(padding));
      i := i + 1;
    }
    EmptyBundle();
    assert files[i..] == [];
    bundle := bundle + (Zeros(BLOCK) + Zeros(BLOCK));
    r := Ok(bundle);
  }

  lemma EmptyBundle()
    ensures BundleOf([]) == Zeros(BLOCK) + Zeros(BLOCK)
  {
  }

  lemma PathsOfManifest(files: seq<SourceFile>, limits: Limits)
    requires ManifestOk(files, limits)
    ensures PathsStart(files)
    ensures forall i :: 0 <= i < |files| ==> Normalize(files[i].path, limits.maxPathLength).Ok?
  {
  }
}

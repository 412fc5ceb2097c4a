/**
 * The output paths of src/ingestion.rs, `output_dir.join(key).join("data.parquet")` on Unix,
 * and the location on disk a path string names.
 */
module Paths {
  import opened Wrappers
  import opened Sequences

  const DataFileName: string := "data.parquet"

  /**
   * `Path::join` on Unix: an absolute `part` replaces `base`; otherwise `part` is appended,
   * with a '/' in between unless `base` is empty or already ends with one.
   */
  function Join(base: string, part: string): string
  {
    if |part| > 0 && part[0] == '/' then part
    else if base == [] || base[|base| - 1] == '/' then base + part
    else base + "/" + part
  }

  /** A relative path that names a directory inside the base: non-empty, no leading or trailing '/'. */
  predicate IsRelativeDir(p: string)
  {
    |p| > 0 && p[0] != '/' && p[|p| - 1] != '/'
  }

  /** `output_dir` as the prefix every partition path starts with. */
  function DirPrefix(outputDir: string): string
  {
    if outputDir == [] || outputDir[|outputDir| - 1] == '/' then outputDir else outputDir + "/"
  }

  /** The directory of a partition, `output_dir.join(key)`. */
  function PartitionDir(outputDir: string, key: string): string
  {
    Join(outputDir, key)
  }

  /** The file of a partition, `output_dir.join(key).join("data.parquet")`. */
  function DataFilePath(outputDir: string, key: string): string
  {
    Join(PartitionDir(outputDir, key), DataFileName)
  }

  /** The partition file sits directly in the partition directory, which sits under `output_dir`. */
  lemma DataFilePathShape(outputDir: string, key: string)
    requires IsRelativeDir(key)
    ensures PartitionDir(outputDir, key) == DirPrefix(outputDir) + key
    ensures DataFilePath(outputDir, key) == DirPrefix(outputDir) + key + "/" + DataFileName
  {
  }

  /** Recovers the key from a partition file path: the inverse of `DataFilePath`. */
  function KeyOfDataFile(outputDir: string, path: string): Option<string>
  {
    var pre, post := DirPrefix(outputDir), "/" + DataFileName;
    if |pre| + |post| <= |path| && path[..|pre|] == pre && path[|path| - |post|..] == post
    then Some(path[|pre|..|path| - |post|])
    else None
  }

  lemma KeyOfDataFileRoundTrip(outputDir: string, key: string)
    requires IsRelativeDir(key)
    ensures KeyOfDataFile(outputDir, DataFilePath(outputDir, key)) == Some(key)
  {
    DataFilePathShape(outputDir, key);
    var pre, post := DirPrefix(outputDir), "/" + DataFileName;
    var path := DataFilePath(outputDir, key);
    assert path == pre + key + post;
    assert path[..|pre|] == pre;
    assert path[|path| - |post|..] == post;
    assert path[|pre|..|path| - |post|] == key;
  }

  /** Distinct relative keys give distinct data-file path strings. */
  lemma DataFilePathInjective(outputDir: string, a: string, b: string)
    requires IsRelativeDir(a) && IsRelativeDir(b)
    ensures DataFilePath(outputDir, a) == DataFilePath(outputDir, b) <==> a == b
  {
    KeyOfDataFileRoundTrip(outputDir, a);
    KeyOfDataFileRoundTrip(outputDir, b);
  }

  // ----- resolution ---------------------------------------------------------------------
  //
  // Distinct path strings can name one location: Unix treats a run of '/' as one separator,
  // skips "." and steps back over "..". A location is what the path resolves to once those
  // rules are applied (on a case-sensitive filesystem, with no symbolic links involved).

  /** The '/'-separated segments of a path, empty ones included: "a//b" has "a", "" and "b". */
  function Segments(p: string): (segs: seq<string>)
    ensures |segs| >= 1
  {
    if p == [] then [[]]
    else
      var init := Segments(p[..|p| - 1]);
      if p[|p| - 1] == '/' then init + [[]]
      else init[..|init| - 1] + [init[|init| - 1] + [p[|p| - 1]]]
  }

  function NonEmptySegment(segment: string): Option<string>
  {
    if segment == [] then None else Some(segment)
  }

  /** The names along a path: its non-empty segments, so repeated and trailing '/' count for nothing. */
  function Components(p: string): seq<string>
  {
    FilterMap(Segments(p), NonEmptySegment)
  }

  predicate IsAbsolute(p: string)
  {
    |p| > 0 && p[0] == '/'
  }

  /** A name that resolution keeps as it is. */
  predicate Plain(name: string)
  {
    name != "." && name != ".."
  }

  predicate AllPlain(names: seq<string>)
  {
    forall i :: 0 <= i < |names| ==> Plain(names[i])
  }

  /** One name of a path applied to the names resolved so far: "." stays put, ".." steps back. */
  function Step(absolute: bool, resolved: seq<string>, name: string): seq<string>
  {
    if name == "." then resolved
    else if name == ".." then
      if |resolved| > 0 && resolved[|resolved| - 1] != ".." then resolved[..|resolved| - 1]
      else if absolute then resolved
      else resolved + [name]
    else resolved + [name]
  }

  /** The names left once every "." and ".." is resolved, left to right. */
  function Normalize(absolute: bool, names: seq<string>): seq<string>
  {
    if names == [] then [] else Step(absolute, Normalize(absolute, names[..|names| - 1]), names[|names| - 1])
  }

  /** Where a path leads: from the root or from the working directory, along resolved names. */
  datatype Location = Location(absolute: bool, names: seq<string>)

  function Resolve(p: string): Location
  {
    Location(IsAbsolute(p), Normalize(IsAbsolute(p), Components(p)))
  }

  /** The directory a partition's `create_dir_all` makes. */
  function DirLocation(outputDir: string, key: string): Location
  {
    Resolve(PartitionDir(outputDir, key))
  }

  /** The file a partition's `File::create` opens. */
  function FileLocation(outputDir: string, key: string): Location
  {
    Resolve(DataFilePath(outputDir, key))
  }

  /** Appending one character to a path: a '/' opens a new segment, any other extends the last one. */
  function AddChar(segs: seq<string>, c: char): seq<string>
    requires |segs| >= 1
  {
    if c == '/' then segs + [[]] else segs[..|segs| - 1] + [segs[|segs| - 1] + [c]]
  }

  lemma SegmentsSnoc(p: string, c: char)
    ensures Segments(p + [c]) == AddChar(Segments(p), c)
  {
    assert (p + [c])[..|p + [c]| - 1] == p;
  }

  lemma AddCharAppend(s: seq<string>, t: seq<string>, c: char)
    requires |t| >= 1
    ensures AddChar(s + t, c) == s + AddChar(t, c)
  {
    if c != '/' {
      assert (s + t)[..|s + t| - 1] == s + t[..|t| - 1];
    }
  }

  lemma {:induction false} SegmentsSlash(a: string, b: string)
    ensures Segments(a + "/" + b) == Segments(a) + Segments(b)
    decreases |b|
  {
    if b == [] {
      assert a + "/" + b == a + ['/'];
      SegmentsSnoc(a, '/');
    } else {
      var b', c := b[..|b| - 1], b[|b| - 1];
      assert b == b' + [c];
      assert a + "/" + b == (a + "/" + b') + [c];
      SegmentsSnoc(a + "/" + b', c);
      SegmentsSnoc(b', c);
      SegmentsSlash(a, b');
      AddCharAppend(Segments(a), Segments(b'), c);
    }
  }

  lemma {:induction false} SegmentsOfName(s: string)
    requires '/' !in s
    ensures Segments(s) == [s]
    decreases |s|
  {
    if s != [] {
      SegmentsOfName(s[..|s| - 1]);
      assert s[..|s| - 1] + [s[|s| - 1]] == s;
    }
  }

  /** A separator splits the names of a path: those before it, then those after it. */
  lemma ComponentsSlash(a: string, b: string)
    ensures Components(a + "/" + b) == Components(a) + Components(b)
  {
    SegmentsSlash(a, b);
    FilterMapAppend(Segments(a), Segments(b), NonEmptySegment);
  }

  /** A string without '/' is one name, or none if it is empty. */
  lemma ComponentsOfName(s: string)
    requires '/' !in s
    ensures Components(s) == if s == [] then [] else [s]
  {
    SegmentsOfName(s);
    FilterMapSingleton(s, NonEmptySegment);
  }

  /** Joining a relative part appends its names and keeps the base's start. */
  lemma ComponentsJoin(base: string, part: string)
    requires !IsAbsolute(part)
    ensures Components(Join(base, part)) == Components(base) + Components(part)
    ensures IsAbsolute(Join(base, part)) == IsAbsolute(base)
  {
    if base == [] {
      assert Join(base, part) == part;
      ComponentsOfName([]);
    } else if base[|base| - 1] == '/' {
      ComponentsJoinAfterSlash(base, part);
    } else {
      assert Join(base, part) == base + "/" + part;
      ComponentsSlash(base, part);
    }
  }

  lemma ComponentsJoinAfterSlash(base: string, part: string)
    requires !IsAbsolute(part) && base != [] && base[|base| - 1] == '/'
    ensures Components(Join(base, part)) == Components(base) + Components(part)
  {
    var b := base[..|base| - 1];
    var joined := b + "/" + part;
    assert Join(base, part) == joined;
    assert base == b + "/" + [];
    ComponentsSlash(b, []);
    ComponentsOfName([]);
    var names := Components(b);
    assert Components(base) == names + [] == names;
    ComponentsSlash(b, part);
    assert Components(joined) == names + Components(part);
  }

  /** Plain names are kept as they are, after whatever came before them. */
  lemma {:induction false} NormalizePlain(absolute: bool, names: seq<string>, plain: seq<string>)
    requires AllPlain(plain)
    ensures Normalize(absolute, names + plain) == Normalize(absolute, names) + plain
    decreases |plain|
  {
    if plain == [] {
      assert names + plain == names;
    } else {
      var init := plain[..|plain| - 1];
      assert (names + plain)[..|names + plain| - 1] == names + init;
      assert (names + plain)[|names + plain| - 1] == plain[|plain| - 1];
      NormalizePlain(absolute, names, init);
      assert Plain(plain[|plain| - 1]);
    }
  }

  lemma DataFileNameIsOneName()
    ensures Components(DataFileName) == [DataFileName] && Plain(DataFileName)
  {
    ComponentsOfName(DataFileName);
  }

  /** A partition's directory and file depend only on `output_dir` and the names of its key. */
  lemma LocationsOfKey(outputDir: string, key: string)
    requires !IsAbsolute(key)
    ensures var a := IsAbsolute(outputDir);
      && DirLocation(outputDir, key) == Location(a, Normalize(a, Components(outputDir) + Components(key)))
      && FileLocation(outputDir, key) == Location(a, Normalize(a, Components(outputDir) + Components(key) + [DataFileName]))
  {
    var dir := PartitionDir(outputDir, key);
    var file := DataFilePath(outputDir, key);
    assert dir == Join(outputDir, key) && file == Join(dir, DataFileName);
    ComponentsJoin(outputDir, key);
    ComponentsJoin(dir, DataFileName);
    DataFileNameIsOneName();
    assert IsAbsolute(dir) == IsAbsolute(outputDir) && IsAbsolute(file) == IsAbsolute(outputDir);
    assert Components(dir) == Components(outputDir) + Components(key);
    assert Components(file) == Components(outputDir) + Components(key) + [DataFileName];
  }

  /**
   * For keys made of plain names, two partitions share a directory, or a file, exactly when
   * their keys have the same names.
   */
  lemma LocationsApart(outputDir: string, a: string, b: string)
    requires !IsAbsolute(a) && !IsAbsolute(b) && AllPlain(Components(a)) && AllPlain(Components(b))
    ensures DirLocation(outputDir, a) == DirLocation(outputDir, b) <==> Components(a) == Components(b)
    ensures FileLocation(outputDir, a) == FileLocation(outputDir, b) <==> Components(a) == Components(b)
  {
    DirLocationsApart(outputDir, a, b);
    FileLocationsApart(outputDir, a, b);
  }

  lemma DirLocationsApart(outputDir: string, a: string, b: string)
    requires !IsAbsolute(a) && !IsAbsolute(b) && AllPlain(Components(a)) && AllPlain(Components(b))
    ensures DirLocation(outputDir, a) == DirLocation(outputDir, b) <==> Components(a) == Components(b)
  {
    var abs, co, ca, cb := IsAbsolute(outputDir), Components(outputDir), Components(a), Components(b);
    assert co + ca + [] == co + ca && co + cb + [] == co + cb;
    NormalizeCancel(abs, co, ca, cb, []);
    var la, lb := Location(abs, Normalize(abs, co + ca)), Location(abs, Normalize(abs, co + cb));
    assert la == lb <==> ca == cb;
    LocationsOfKey(outputDir, a);
    LocationsOfKey(outputDir, b);
    assert DirLocation(outputDir, a) == la && DirLocation(outputDir, b) == lb;
  }

  lemma FileLocationsApart(outputDir: string, a: string, b: string)
    requires !IsAbsolute(a) && !IsAbsolute(b) && AllPlain(Components(a)) && AllPlain(Components(b))
    ensures FileLocation(outputDir, a) == FileLocation(outputDir, b) <==> Components(a) == Components(b)
  {
    var abs, co, ca, cb := IsAbsolute(outputDir), Components(outputDir), Components(a), Components(b);
    DataFileNameIsOneName();
    NormalizeCancel(abs, co, ca, cb, [DataFileName]);
    var la, lb := Location(abs, Normalize(abs, co + ca + [DataFileName])), Location(abs, Normalize(abs, co + cb + [DataFileName]));
    assert la == lb <==> ca == cb;
    LocationsOfKey(outputDir, a);
    LocationsOfKey(outputDir, b);
    assert FileLocation(outputDir, a) == la && FileLocation(outputDir, b) == lb;
  }

  /** Resolution after a common start tells apart plain names followed by a common plain end. */
  lemma NormalizeCancel(absolute: bool, start: seq<string>, a: seq<string>, b: seq<string>, end: seq<string>)
    requires AllPlain(a) && AllPlain(b) && AllPlain(end)
    ensures Normalize(absolute, start + a + end) == Normalize(absolute, start + b + end) <==> a == b
  {
    var r := Normalize(absolute, start);
    assert AllPlain(a + end) && AllPlain(b + end);
    assert start + a + end == start + (a + end) && start + b + end == start + (b + end);
    NormalizePlain(absolute, start, a + end);
    NormalizePlain(absolute, start, b + end);
    if r + (a + end) == r + (b + end) {
      assert (r + (a + end))[|r|..] == a + end;
      assert (r + (b + end))[|r|..] == b + end;
      assert (a + end)[..|a|] == a && (b + end)[..|b|] == b;
    }
  }
}

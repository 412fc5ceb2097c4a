/**
 * `process_json_to_parquet` of src/ingestion.rs: read the input lines, keep those that decode
 * as a `Record`, refuse an input with no record, group by partition key, and write one
 * Parquet file per group under `output_dir`.
 *
 * The JSON decoder, the RFC 3339 renderer and the filesystem are parameters: `parse` stands
 * for `serde_json::from_str::<Record>`, `render` for `DateTime::to_rfc3339`, and a
 * `FileSystem` says which file each path names and which filesystem or Parquet step fails
 * for which path.
 */
module Ingestion {
  import opened Wrappers
  import opened Sequences
  import opened Model
  import opened Partition
  import opened Columns
  import opened Paths

  /**
   * The fatal errors of the call. Each filesystem error also records the failing partition's
   * path, which the source's `io::Error` and Parquet errors do not contain; `WriteResult`
   * uses it to tell which file a writer error left unfinished.
   */
  datatype Error =
    | NoValidRecords
    | CreateDirFailed(dir: string)
    | CreateFileFailed(file: string)
    | WriteFailed(file: string)

  /**
   * The filesystem as the call sees it: `locate` gives the file or directory a path names,
   * which several path strings may share, and the other three say which effects fail:
   * `create_dir_all` on a directory, `File::create` on a file, and the Parquet writer
   * (`try_new`, `write`, `close`) on a file.
   */
  datatype FileSystem = FileSystem(locate: string -> Location, createDirFails: string -> bool, createFileFails: string -> bool, writerFails: string -> bool)

  /** The filesystem resolves paths lexically, as `Paths.Resolve` does: no symlinks, case-sensitive names. */
  ghost predicate Lexical(fs: FileSystem)
  {
    forall p :: fs.locate(p) == Resolve(p)
  }

  /** Where the directory of the partition under `key` is. */
  function DirOf(outputDir: string, key: string, fs: FileSystem): Location
  {
    fs.locate(PartitionDir(outputDir, key))
  }

  /** Where the file of the partition under `key` is. */
  function FileOf(outputDir: string, key: string, fs: FileSystem): Location
  {
    fs.locate(DataFilePath(outputDir, key))
  }

  /** A file the call has created: a complete Parquet file holding a batch, or one left unfinished by a writer error. */
  datatype FileState = Unfinished | Written(batch: RecordBatch)

  // ----- parsing ------------------------------------------------------------------------

  /** One item of `lines()`, `None` standing for an I/O error: `line.ok()?` then the decoder. */
  function LineParser(parse: string -> Option<Record>): Option<string> -> Option<Record>
  {
    (line: Option<string>) => if line.Some? then parse(line.value) else None
  }

  /** The records the `filter_map` keeps, in input order. */
  function ParseRecords(input: seq<Option<string>>, parse: string -> Option<Record>): seq<Record>
  {
    FilterMap(input, LineParser(parse))
  }

  /**
   * The parsed records are exactly the in-order subsequence of the lines that were read and
   * decode: `idx` lists their positions, increasing, and no decodable line is missed.
   */
  lemma ParseRecordsSubsequence(input: seq<Option<string>>, parse: string -> Option<Record>) returns (idx: seq<nat>)
    ensures |idx| == |ParseRecords(input, parse)| && StrictlyIncreasing(idx)
    ensures forall j :: 0 <= j < |idx| ==>
      idx[j] < |input| && input[idx[j]].Some? && parse(input[idx[j]].value) == Some(ParseRecords(input, parse)[j])
    ensures forall i :: 0 <= i < |input| && input[i].Some? && parse(input[i].value).Some? ==> i in idx
  {
    idx := FilterMapSubsequence(input, LineParser(parse));
    forall j | 0 <= j < |idx|
      ensures input[idx[j]].Some? && parse(input[idx[j]].value) == Some(ParseRecords(input, parse)[j])
    {
      assert LineParser(parse)(input[idx[j]]) == Some(ParseRecords(input, parse)[j]);
    }
    forall i | 0 <= i < |input| && input[i].Some? && parse(input[i].value).Some?
      ensures i in idx
    {
      assert LineParser(parse)(input[i]).Some?;
    }
  }

  /** A line that fails to read or to decode contributes nothing and does not stop the lines after it. */
  lemma MalformedLineSkipped(before: seq<Option<string>>, line: Option<string>, after: seq<Option<string>>, parse: string -> Option<Record>)
    requires line.None? || parse(line.value).None?
    ensures ParseRecords(before + [line] + after, parse) == ParseRecords(before, parse) + ParseRecords(after, parse)
  {
    assert LineParser(parse)(line).None?;
    FilterMapSkip(before, line, after, LineParser(parse));
  }

  /** No record survives exactly when no line both reads and decodes. */
  lemma NoRecordsIff(input: seq<Option<string>>, parse: string -> Option<Record>)
    ensures ParseRecords(input, parse) == [] <==> forall i :: 0 <= i < |input| ==> input[i].None? || parse(input[i].value).None?
  {
    FilterMapEmpty(input, LineParser(parse));
    assert forall i :: 0 <= i < |input| ==> (LineParser(parse)(input[i]).None? <==> input[i].None? || parse(input[i].value).None?);
  }

  /**
   * One well-formed line for "Boat A" on 2024-06-01 followed by a malformed one: the grouping
   * has exactly the one partition `name=Boat A/year=2024/month=06/day=01`, holding that record.
   */
  lemma OneRecordOnePartition(good: string, bad: string, parse: string -> Option<Record>, r: Record)
    requires parse(good) == Some(r) && parse(bad).None?
    requires r.name == "Boat A" && r.timestamp.year == 2024 && r.timestamp.month == 6 && r.timestamp.day == 1
    ensures Group(ParseRecords([Some(good), Some(bad)], parse)) == map["name=Boat A/year=2024/month=06/day=01" := [r]]
  {
    GoodThenBad(good, bad, parse, r);
    SingleRecordGroup(r);
    KeyExample(r);
  }

  lemma GoodThenBad(good: string, bad: string, parse: string -> Option<Record>, r: Record)
    requires parse(good) == Some(r) && parse(bad).None?
    ensures ParseRecords([Some(good), Some(bad)], parse) == [r]
  {
    FilterMapAppend([Some(good)], [Some(bad)], LineParser(parse));
    FilterMapSingleton(Some(good), LineParser(parse));
    FilterMapSingleton(Some(bad), LineParser(parse));
    assert [Some(good)] + [Some(bad)] == [Some(good), Some(bad)];
    assert LineParser(parse)(Some(good)) == Some(r);
    assert LineParser(parse)(Some(bad)).None?;
  }

  // ----- writing ------------------------------------------------------------------------
  //
  // The effects on disk are recorded by the location a path names (`FileSystem.locate`), so
  // that two path strings naming one file name one entry: `dirs` holds the locations of the
  // partition directories created, and `files[l]` the state of the file at location `l`.
  // `File::create` on an existing file truncates it, which the model shows as the entry being
  // replaced.

  /** The batch written for a group. */
  function BatchOf(schema: seq<Field>, group: seq<Record>, render: UtcDateTime -> string): RecordBatch
  {
    RecordBatch(schema, ToColumns(group, render))
  }

  /** `RecordBatch::try_new` never fails on a partition's columns, so its `?` never returns. */
  lemma BatchBuilds(group: seq<Record>, render: UtcDateTime -> string)
    ensures TryNewBatch(RecordSchema, ToColumns(group, render)) == Some(BatchOf(RecordSchema, group, render))
  {
    ToColumnsConform(group, render);
  }

  /** The first step that fails when the partition under `key` is written, if any. */
  function StepFailure(outputDir: string, key: string, fs: FileSystem): Option<Error>
  {
    var dir, file := PartitionDir(outputDir, key), DataFilePath(outputDir, key);
    if fs.createDirFails(dir) then Some(CreateDirFailed(dir))
    else if fs.createFileFails(file) then Some(CreateFileFailed(file))
    else if fs.writerFails(file) then Some(WriteFailed(file))
    else None
  }

  /**
   * What the write loop leaves behind, whatever order it takes the partitions in.
   * It succeeds exactly when no partition has a failing step, and then every partition has its
   * directory and a file at its file's location. On an error it reports the first failing step
   * of some partition, and the loop stopped there: what is on disk is the state after some
   * set of partitions written without a failure, followed by that partition's steps up to its
   * failing one. Every directory is some partition's, and every file is at the location of
   * some partition whose directory was created and holds that partition's complete batch, or
   * is left unfinished when the reported error is that partition's writer failing. Which
   * partition a shared location holds is left open, as the loop's order is.
   */
  ghost predicate WriteResult(outputDir: string, schema: seq<Field>, partitions: map<string, seq<Record>>, render: UtcDateTime -> string,
                              fs: FileSystem, outcome: Outcome<Error>, dirs: set<Location>, files: map<Location, FileState>)
  {
    && (outcome.Pass? <==> forall k {:trigger StepFailure(outputDir, k, fs)} :: k in partitions ==> StepFailure(outputDir, k, fs).None?)
    && (outcome.Fail? ==> exists k :: k in partitions && StepFailure(outputDir, k, fs) == Some(outcome.error))
    && (outcome.Fail? ==> exists done, dirs0, files0, dirOwner0, fileOwner0, key ::
          StoppedAt(outputDir, schema, partitions, render, fs, outcome, dirs, files, done, dirs0, files0, dirOwner0, fileOwner0, key))
    && (exists dirOwner, fileOwner :: Accounted(outputDir, schema, partitions, render, fs, outcome, dirs, files, dirOwner, fileOwner))
    && (outcome.Pass? ==> forall k {:trigger DirOf(outputDir, k, fs)} :: k in partitions ==> DirOf(outputDir, k, fs) in dirs)
    && (outcome.Pass? ==> forall k {:trigger FileOf(outputDir, k, fs)} :: k in partitions ==> FileOf(outputDir, k, fs) in files)
  }

  /**
   * The loop stopped at `key`: the partitions `done` were written without a failure, leaving
   * `dirs0` and `files0`, and then `key`, not yet written, failed with the call's error,
   * leaving `dirs` and `files`.
   */
  ghost predicate StoppedAt(outputDir: string, schema: seq<Field>, partitions: map<string, seq<Record>>, render: UtcDateTime -> string,
                            fs: FileSystem, outcome: Outcome<Error>, dirs: set<Location>, files: map<Location, FileState>,
                            done: set<string>, dirs0: set<Location>, files0: map<Location, FileState>,
                            dirOwner0: map<Location, string>, fileOwner0: map<Location, string>, key: string)
  {
    && key in partitions && key !in done
    && StepFailure(outputDir, key, fs).Some? && outcome == Fail(StepFailure(outputDir, key, fs).value)
    && Progress(outputDir, schema, partitions, render, fs, done, dirs0, files0, dirOwner0, fileOwner0)
    && dirs == DirsAfter(outputDir, key, fs, dirs0)
    && files == FilesAfter(outputDir, schema, key, partitions[key], render, fs, files0)
  }

  /**
   * Every directory and every file on disk is accounted for by the partition that made it:
   * `dirOwner[d]` is a partition whose directory is at `d`, and `fileOwner[f]` one whose file
   * is at `f`, whose directory was created, and whose batch the file holds, complete, or
   * unfinished when the call's error is that file's writer failing.
   */
  ghost predicate Accounted(outputDir: string, schema: seq<Field>, partitions: map<string, seq<Record>>, render: UtcDateTime -> string,
                            fs: FileSystem, outcome: Outcome<Error>, dirs: set<Location>, files: map<Location, FileState>,
                            dirOwner: map<Location, string>, fileOwner: map<Location, string>)
  {
    && DirsAccounted(outputDir, fs, partitions.Keys, dirs, dirOwner)
    && FilesAccounted(outputDir, fs, partitions.Keys, dirs, files, fileOwner, Expected(schema, partitions, render), outcome)
  }

  ghost predicate DirsAccounted(outputDir: string, fs: FileSystem, keys: set<string>, dirs: set<Location>, dirOwner: map<Location, string>)
  {
    forall d :: d in dirs ==> d in dirOwner && dirOwner[d] in keys && DirOf(outputDir, dirOwner[d], fs) == d
  }

  ghost predicate FilesAccounted(outputDir: string, fs: FileSystem, keys: set<string>, dirs: set<Location>, files: map<Location, FileState>,
                                 fileOwner: map<Location, string>, expected: map<string, FileState>, outcome: Outcome<Error>)
  {
    forall f :: f in files ==>
      && f in fileOwner && fileOwner[f] in keys && FileOf(outputDir, fileOwner[f], fs) == f
      && DirOf(outputDir, fileOwner[f], fs) in dirs && fileOwner[f] in expected
      && (|| files[f] == expected[fileOwner[f]]
          || (files[f] == Unfinished && outcome == Fail(WriteFailed(DataFilePath(outputDir, fileOwner[f])))))
  }

  /**
   * The write loop after it has written the partitions `done`, each without a failing step;
   * the owner maps say which of them made each directory and each file.
   */
  ghost predicate Progress(outputDir: string, schema: seq<Field>, partitions: map<string, seq<Record>>, render: UtcDateTime -> string,
                           fs: FileSystem, done: set<string>, dirs: set<Location>, files: map<Location, FileState>,
                           dirOwner: map<Location, string>, fileOwner: map<Location, string>)
  {
    && done <= partitions.Keys
    && (forall k {:trigger StepFailure(outputDir, k, fs)} :: k in done ==> StepFailure(outputDir, k, fs).None?)
    && DirsMade(outputDir, fs, done, dirs, dirOwner)
    && FilesMade(outputDir, fs, done, files, fileOwner, Expected(schema, partitions, render))
  }

  /** What each partition's file holds once its write succeeds: the partition's complete batch. */
  ghost function Expected(schema: seq<Field>, partitions: map<string, seq<Record>>, render: UtcDateTime -> string): map<string, FileState>
  {
    map k | k in partitions :: Written(BatchOf(schema, partitions[k], render))
  }

  /** The directories are exactly those of the partitions `done`. */
  ghost predicate DirsMade(outputDir: string, fs: FileSystem, done: set<string>, dirs: set<Location>, dirOwner: map<Location, string>)
  {
    && (forall k {:trigger DirOf(outputDir, k, fs)} :: k in done ==> DirOf(outputDir, k, fs) in dirs)
    && (forall d :: d in dirs ==> d in dirOwner && dirOwner[d] in done && DirOf(outputDir, dirOwner[d], fs) == d)
  }

  /** The files are exactly those of the partitions `done`, each holding what its owner's write leaves. */
  ghost predicate FilesMade(outputDir: string, fs: FileSystem, done: set<string>, files: map<Location, FileState>,
                            fileOwner: map<Location, string>, expected: map<string, FileState>)
  {
    && (forall k {:trigger FileOf(outputDir, k, fs)} :: k in done ==> FileOf(outputDir, k, fs) in files)
    && (forall f :: f in files ==>
          && f in fileOwner && fileOwner[f] in done && FileOf(outputDir, fileOwner[f], fs) == f
          && fileOwner[f] in expected && files[f] == expected[fileOwner[f]])
  }

  /** The directories after writing the partition under `key`: its own unless `create_dir_all` failed. */
  function DirsAfter(outputDir: string, key: string, fs: FileSystem, dirs: set<Location>): set<Location>
  {
    if fs.createDirFails(PartitionDir(outputDir, key)) then dirs else dirs + {DirOf(outputDir, key, fs)}
  }

  /**
   * The files after writing the partition under `key`: nothing new if a creation step failed,
   * otherwise the file at its location, replacing whatever was there, unfinished if the writer
   * failed and complete if not.
   */
  function FilesAfter(outputDir: string, schema: seq<Field>, key: string, group: seq<Record>, render: UtcDateTime -> string,
                      fs: FileSystem, files: map<Location, FileState>): map<Location, FileState>
  {
    var file := DataFilePath(outputDir, key);
    if fs.createDirFails(PartitionDir(outputDir, key)) || fs.createFileFails(file) then files
    else files[FileOf(outputDir, key, fs) := if fs.writerFails(file) then Unfinished else Written(BatchOf(schema, group, render))]
  }

  lemma ProgressStep(outputDir: string, schema: seq<Field>, partitions: map<string, seq<Record>>, render: UtcDateTime -> string,
                     fs: FileSystem, done: set<string>, dirs: set<Location>, files: map<Location, FileState>,
                     dirOwner: map<Location, string>, fileOwner: map<Location, string>, key: string)
    requires Progress(outputDir, schema, partitions, render, fs, done, dirs, files, dirOwner, fileOwner)
    requires key in partitions && key !in done && StepFailure(outputDir, key, fs).None?
    ensures Progress(outputDir, schema, partitions, render, fs, done + {key}, DirsAfter(outputDir, key, fs, dirs),
                     FilesAfter(outputDir, schema, key, partitions[key], render, fs, files),
                     dirOwner[DirOf(outputDir, key, fs) := key], fileOwner[FileOf(outputDir, key, fs) := key])
  {
    var expected := Expected(schema, partitions, render);
    assert FilesAfter(outputDir, schema, key, partitions[key], render, fs, files) == files[FileOf(outputDir, key, fs) := expected[key]];
    DirsStep(outputDir, fs, done, dirs, dirOwner, key);
    FilesStep(outputDir, fs, done, files, fileOwner, expected, key);
  }

  lemma DirsStep(outputDir: string, fs: FileSystem, done: set<string>, dirs: set<Location>, dirOwner: map<Location, string>, key: string)
    requires DirsMade(outputDir, fs, done, dirs, dirOwner)
    ensures DirsMade(outputDir, fs, done + {key}, dirs + {DirOf(outputDir, key, fs)}, dirOwner[DirOf(outputDir, key, fs) := key])
  {
  }

  lemma FilesStep(outputDir: string, fs: FileSystem, done: set<string>, files: map<Location, FileState>,
                  fileOwner: map<Location, string>, expected: map<string, FileState>, key: string)
    requires key in expected
    requires FilesMade(outputDir, fs, done, files, fileOwner, expected)
    ensures FilesMade(outputDir, fs, done + {key}, files[FileOf(outputDir, key, fs) := expected[key]],
                      fileOwner[FileOf(outputDir, key, fs) := key], expected)
  {
  }

  /** Stopping at the first failing step of `key` leaves a state the write loop's contract allows. */
  lemma StopResult(outputDir: string, schema: seq<Field>, partitions: map<string, seq<Record>>, render: UtcDateTime -> string,
                   fs: FileSystem, done: set<string>, dirs: set<Location>, files: map<Location, FileState>,
                   dirOwner: map<Location, string>, fileOwner: map<Location, string>, key: string)
    requires Progress(outputDir, schema, partitions, render, fs, done, dirs, files, dirOwner, fileOwner)
    requires key in partitions && key !in done && StepFailure(outputDir, key, fs).Some?
    ensures WriteResult(outputDir, schema, partitions, render, fs, Fail(StepFailure(outputDir, key, fs).value),
                        DirsAfter(outputDir, key, fs, dirs), FilesAfter(outputDir, schema, key, partitions[key], render, fs, files))
  {
    var outcome := Fail(StepFailure(outputDir, key, fs).value);
    var expected := Expected(schema, partitions, render);
    var dirs' := DirsAfter(outputDir, key, fs, dirs);
    var madeDir := !fs.createDirFails(PartitionDir(outputDir, key));
    var created := madeDir && !fs.createFileFails(DataFilePath(outputDir, key));
    var value := if fs.writerFails(DataFilePath(outputDir, key)) then Unfinished else expected[key];
    var files' := if created then files[FileOf(outputDir, key, fs) := value] else files;
    assert FilesAfter(outputDir, schema, key, partitions[key], render, fs, files) == files';
    var dirOwner' := if madeDir then dirOwner[DirOf(outputDir, key, fs) := key] else dirOwner;
    var fileOwner' := if created then fileOwner[FileOf(outputDir, key, fs) := key] else fileOwner;
    StopDirs(outputDir, fs, done, partitions.Keys, dirs, dirOwner, key, madeDir);
    StopFiles(outputDir, fs, done, partitions.Keys, dirs, dirs', files, fileOwner, expected, outcome, key, created, value);
    FailResult(outputDir, schema, partitions, render, fs, dirs', files', dirOwner', fileOwner', key, done, dirs, files, dirOwner, fileOwner);
  }

  lemma FailResult(outputDir: string, schema: seq<Field>, partitions: map<string, seq<Record>>, render: UtcDateTime -> string,
                   fs: FileSystem, dirs: set<Location>, files: map<Location, FileState>,
                   dirOwner: map<Location, string>, fileOwner: map<Location, string>, key: string,
                   done: set<string>, dirs0: set<Location>, files0: map<Location, FileState>,
                   dirOwner0: map<Location, string>, fileOwner0: map<Location, string>)
    requires key in partitions && StepFailure(outputDir, key, fs).Some?
    requires StoppedAt(outputDir, schema, partitions, render, fs, Fail(StepFailure(outputDir, key, fs).value), dirs, files,
                       done, dirs0, files0, dirOwner0, fileOwner0, key)
    requires DirsAccounted(outputDir, fs, partitions.Keys, dirs, dirOwner)
    requires FilesAccounted(outputDir, fs, partitions.Keys, dirs, files, fileOwner, Expected(schema, partitions, render),
                            Fail(StepFailure(outputDir, key, fs).value))
    ensures WriteResult(outputDir, schema, partitions, render, fs, Fail(StepFailure(outputDir, key, fs).value), dirs, files)
  {
    assert Accounted(outputDir, schema, partitions, render, fs, Fail(StepFailure(outputDir, key, fs).value), dirs, files, dirOwner, fileOwner);
  }

  lemma StopDirs(outputDir: string, fs: FileSystem, done: set<string>, keys: set<string>, dirs: set<Location>,
                 dirOwner: map<Location, string>, key: string, madeDir: bool)
    requires DirsMade(outputDir, fs, done, dirs, dirOwner) && done <= keys && key in keys
    ensures DirsAccounted(outputDir, fs, keys, if madeDir then dirs + {DirOf(outputDir, key, fs)} else dirs,
                          if madeDir then dirOwner[DirOf(outputDir, key, fs) := key] else dirOwner)
  {
  }

  lemma StopFiles(outputDir: string, fs: FileSystem, done: set<string>, keys: set<string>, dirs: set<Location>, dirs': set<Location>,
                  files: map<Location, FileState>, fileOwner: map<Location, string>, expected: map<string, FileState>,
                  outcome: Outcome<Error>, key: string, created: bool, value: FileState)
    requires FilesMade(outputDir, fs, done, files, fileOwner, expected)
    requires forall k {:trigger DirOf(outputDir, k, fs)} :: k in done ==> DirOf(outputDir, k, fs) in dirs
    requires dirs <= dirs' && done <= keys && key in keys && key in expected
    requires created ==> DirOf(outputDir, key, fs) in dirs'
    requires created ==> value == expected[key] || (value == Unfinished && outcome == Fail(WriteFailed(DataFilePath(outputDir, key))))
    ensures FilesAccounted(outputDir, fs, keys, dirs', if created then files[FileOf(outputDir, key, fs) := value] else files,
                           if created then fileOwner[FileOf(outputDir, key, fs) := key] else fileOwner, expected, outcome)
  {
  }

  lemma CompleteResult(outputDir: string, schema: seq<Field>, partitions: map<string, seq<Record>>, render: UtcDateTime -> string,
                       fs: FileSystem, dirs: set<Location>, files: map<Location, FileState>,
                       dirOwner: map<Location, string>, fileOwner: map<Location, string>)
    requires Progress(outputDir, schema, partitions, render, fs, partitions.Keys, dirs, files, dirOwner, fileOwner)
    ensures WriteResult(outputDir, schema, partitions, render, fs, Pass, dirs, files)
  {
    assert Accounted(outputDir, schema, partitions, render, fs, Pass, dirs, files, dirOwner, fileOwner);
  }

  /**
   * The body of the write loop for one partition: `create_dir_all` on its directory,
   * `File::create` on its file, the nine arrays, `RecordBatch::try_new`, and the Parquet
   * writer. It fails with the first failing step and otherwise leaves the complete file.
   */
  method WritePartition(outputDir: string, schema: seq<Field>, key: string, group: seq<Record>, render: UtcDateTime -> string,
                        fs: FileSystem, dirs: set<Location>, files: map<Location, FileState>)
    returns (outcome: Outcome<Error>, dirs': set<Location>, files': map<Location, FileState>)
    requires schema == RecordSchema
    ensures outcome == if StepFailure(outputDir, key, fs).Some? then Fail(StepFailure(outputDir, key, fs).value) else Pass
    ensures dirs' == DirsAfter(outputDir, key, fs, dirs)
    ensures files' == FilesAfter(outputDir, schema, key, group, render, fs, files)
  {
    dirs', files' := dirs, files;
    var fullPath := Join(outputDir, key);
    if fs.createDirFails(fullPath) {
      return Fail(CreateDirFailed(fullPath)), dirs', files';
    }
    dirs' := dirs' + {fs.locate(fullPath)};
    var filePath := Join(fullPath, DataFileName);
    if fs.createFileFails(filePath) {
      return Fail(CreateFileFailed(filePath)), dirs', files';
    }
    files' := files'[fs.locate(filePath) := Unfinished];
    BatchBuilds(group, render);
    var batch := TryNewBatch(schema, ToColumns(group, render)).value;
    if fs.writerFails(filePath) {
      return Fail(WriteFailed(filePath)), dirs', files';
    }
    files' := files'[fs.locate(filePath) := Written(batch)];
    outcome := Pass;
  }

  /**
   * The write loop: each partition in turn, in an order the model leaves open (a `HashMap`'s);
   * the first failure ends the call and leaves on disk what was written so far.
   */
  method WritePartitions(outputDir: string, schema: seq<Field>, partitions: map<string, seq<Record>>, render: UtcDateTime -> string, fs: FileSystem)
    returns (outcome: Outcome<Error>, dirs: set<Location>, files: map<Location, FileState>)
    requires schema == RecordSchema
    ensures WriteResult(outputDir, schema, partitions, render, fs, outcome, dirs, files)
  {
    dirs, files := {}, map[];
    ghost var dirOwner: map<Location, string>, fileOwner: map<Location, string> := map[], map[];
    var remaining := partitions.Keys;
    while remaining != {}
      invariant remaining <= partitions.Keys
      invariant Progress(outputDir, schema, partitions, render, fs, partitions.Keys - remaining, dirs, files, dirOwner, fileOwner)
      decreases remaining
    {
      var key :| key in remaining;
      ghost var done := partitions.Keys - remaining;
      var step, dirs', files' := WritePartition(outputDir, schema, key, partitions[key], render, fs, dirs, files);
      if step.Fail? {
        StopResult(outputDir, schema, partitions, render, fs, done, dirs, files, dirOwner, fileOwner, key);
        return step, dirs', files';
      }
      ProgressStep(outputDir, schema, partitions, render, fs, done, dirs, files, dirOwner, fileOwner, key);
      MoveToDone(partitions.Keys, remaining, key);
      dirs, files := dirs', files';
      dirOwner, fileOwner := dirOwner[DirOf(outputDir, key, fs) := key], fileOwner[FileOf(outputDir, key, fs) := key];
      remaining := remaining - {key};
    }
    CompleteResult(outputDir, schema, partitions, render, fs, dirs, files, dirOwner, fileOwner);
    outcome := Pass;
  }

  lemma MoveToDone<T>(all: set<T>, remaining: set<T>, x: T)
    requires x in remaining && remaining <= all
    ensures all - (remaining - {x}) == (all - remaining) + {x}
  {
  }

  /**
   * The loop stops at its first failure: when every partition has a failing step, the call
   * fails and the only directory it can have made is that of the one partition it tried.
   */
  lemma EveryStepFailsStopsAtFirst(outputDir: string, schema: seq<Field>, partitions: map<string, seq<Record>>, render: UtcDateTime -> string,
                                   fs: FileSystem, outcome: Outcome<Error>, dirs: set<Location>, files: map<Location, FileState>)
    requires WriteResult(outputDir, schema, partitions, render, fs, outcome, dirs, files)
    requires partitions != map[]
    requires forall k :: k in partitions ==> StepFailure(outputDir, k, fs).Some?
    ensures outcome.Fail?
    ensures exists key :: key in partitions && dirs <= {DirOf(outputDir, key, fs)}
  {
    var k0 :| k0 in partitions;
    assert StepFailure(outputDir, k0, fs).Some?;
    var done, dirs0, files0, dirOwner0, fileOwner0, key :|
      StoppedAt(outputDir, schema, partitions, render, fs, outcome, dirs, files, done, dirs0, files0, dirOwner0, fileOwner0, key);
    StoppedFirst(outputDir, schema, partitions, render, fs, outcome, dirs, files, done, dirs0, files0, dirOwner0, fileOwner0, key);
  }

  lemma StoppedFirst(outputDir: string, schema: seq<Field>, partitions: map<string, seq<Record>>, render: UtcDateTime -> string,
                     fs: FileSystem, outcome: Outcome<Error>, dirs: set<Location>, files: map<Location, FileState>,
                     done: set<string>, dirs0: set<Location>, files0: map<Location, FileState>,
                     dirOwner0: map<Location, string>, fileOwner0: map<Location, string>, key: string)
    requires StoppedAt(outputDir, schema, partitions, render, fs, outcome, dirs, files, done, dirs0, files0, dirOwner0, fileOwner0, key)
    requires forall k :: k in partitions ==> StepFailure(outputDir, k, fs).Some?
    ensures key in partitions && dirs <= {DirOf(outputDir, key, fs)}
  {
    assert done == {};
    assert DirsMade(outputDir, fs, done, dirs0, dirOwner0);
    assert dirs0 == {};
  }

  /** A write error is never `NoValidRecords`. */
  lemma WriteErrorNotEmptyInput(outputDir: string, schema: seq<Field>, partitions: map<string, seq<Record>>, render: UtcDateTime -> string,
                                fs: FileSystem, outcome: Outcome<Error>, dirs: set<Location>, files: map<Location, FileState>)
    requires WriteResult(outputDir, schema, partitions, render, fs, outcome, dirs, files)
    ensures outcome != Fail(NoValidRecords)
  {
    if outcome.Fail? {
      var k :| k in partitions && StepFailure(outputDir, k, fs) == Some(outcome.error);
    }
  }

  /**
   * `process_json_to_parquet`. With no parsed record it fails with `NoValidRecords` and
   * writes nothing; otherwise its effects are those of the write loop over the grouping of
   * the parsed records.
   */
  method ProcessJsonToParquet(outputDir: string, input: seq<Option<string>>, parse: string -> Option<Record>,
                              render: UtcDateTime -> string, fs: FileSystem)
    returns (outcome: Outcome<Error>, dirs: set<Location>, files: map<Location, FileState>)
    ensures outcome == Fail(NoValidRecords) <==> ParseRecords(input, parse) == []
    ensures ParseRecords(input, parse) == [] ==> dirs == {} && files == map[]
    ensures ParseRecords(input, parse) != [] ==>
      WriteResult(outputDir, RecordSchema, Group(ParseRecords(input, parse)), render, fs, outcome, dirs, files)
  {
    var schema := RecordSchema;
    var records := ParseRecords(input, parse);
    if |records| == 0 {
      return Fail(NoValidRecords), {}, map[];
    }
    var partitions := GroupByKey(records);
    outcome, dirs, files := WritePartitions(outputDir, schema, partitions, render, fs);
    WriteErrorNotEmptyInput(outputDir, schema, partitions, render, fs, outcome, dirs, files);
  }

  // ----- reading back -------------------------------------------------------------------

  /**
   * After a successful call, the file at a partition's location holds the complete batch of
   * some partition whose file is at that location.
   */
  lemma FileHoldsABatch(outputDir: string, schema: seq<Field>, partitions: map<string, seq<Record>>, render: UtcDateTime -> string,
                        fs: FileSystem, dirs: set<Location>, files: map<Location, FileState>, key: string)
      returns (owner: string)
    requires WriteResult(outputDir, schema, partitions, render, fs, Pass, dirs, files)
    requires key in partitions
    ensures FileOf(outputDir, key, fs) in files
    ensures owner in partitions && FileOf(outputDir, owner, fs) == FileOf(outputDir, key, fs)
    ensures files[FileOf(outputDir, key, fs)] == Written(BatchOf(schema, partitions[owner], render))
  {
    var dirOwner, fileOwner :| Accounted(outputDir, schema, partitions, render, fs, Pass, dirs, files, dirOwner, fileOwner);
    owner := fileOwner[FileOf(outputDir, key, fs)];
  }

  /** Every record of a group is some row of the group's batch. */
  lemma GroupRowReadsBack(schema: seq<Field>, group: seq<Record>, render: UtcDateTime -> string, r: Record) returns (j: nat)
    requires r in group
    ensures ReadRow(BatchOf(schema, group, render).columns, j) == Some(RowOf(r, render))
  {
    var i :| 0 <= i < |group| && group[i] == r;
    j := i;
    ColumnsRoundTrip(group, render, j);
  }

  /** The batch of a single record holds no row of a record with another name. */
  lemma SingleBatchLacks(schema: seq<Field>, kept: Record, lost: Record, render: UtcDateTime -> string, j: nat)
    requires kept.name != lost.name
    ensures ReadRow(BatchOf(schema, [kept], render).columns, j) != Some(RowOf(lost, render))
  {
    ColumnsRoundTrip([kept], render, j);
    assert RowOf(kept, render).name != RowOf(lost, render).name;
  }

  /**
   * End to end: after a successful call, a parsed record whose file location no other
   * partition shares can be read back, field for field, from the complete file there.
   */
  lemma StoredRecordReadsBack(outputDir: string, schema: seq<Field>, records: seq<Record>, render: UtcDateTime -> string, fs: FileSystem,
                              dirs: set<Location>, files: map<Location, FileState>, r: Record)
      returns (j: nat)
    requires WriteResult(outputDir, schema, Group(records), render, fs, Pass, dirs, files)
    requires r in records
    requires forall k :: k in Group(records) && FileOf(outputDir, k, fs) == FileOf(outputDir, CanonicalKey(r), fs) ==> k == CanonicalKey(r)
    ensures FileOf(outputDir, CanonicalKey(r), fs) in files && files[FileOf(outputDir, CanonicalKey(r), fs)].Written?
    ensures ReadRow(files[FileOf(outputDir, CanonicalKey(r), fs)].batch.columns, j) == Some(RowOf(r, render))
  {
    var key := CanonicalKey(r);
    RecordInExactlyOneGroup(records, r, key);
    var owner := FileHoldsABatch(outputDir, schema, Group(records), render, fs, dirs, files, key);
    assert owner == key;
    j := GroupRowReadsBack(schema, Group(records)[key], render, r);
  }

  /**
   * With no separator in any name, on a filesystem that resolves paths as `Paths.Resolve`
   * does, two partitions of a grouping never share a directory or a file: the resolved
   * directory and file of a key are those of no other key.
   */
  lemma PartitionPathsDistinct(outputDir: string, records: seq<Record>, a: string, b: string)
    requires forall x :: x in records ==> '/' !in x.name
    requires a in Group(records) && b in Group(records)
    ensures DirLocation(outputDir, a) == DirLocation(outputDir, b) <==> a == b
    ensures FileLocation(outputDir, a) == FileLocation(outputDir, b) <==> a == b
  {
    var ra := KeyRecord(records, a);
    var rb := KeyRecord(records, b);
    PlainRecordKeys(ra, rb);
    PlainRecordKeys(rb, ra);
    LocationsApart(outputDir, a, b);
  }

  /** A record of the input filed under `key`. */
  lemma KeyRecord(records: seq<Record>, key: string) returns (r: Record)
    requires key in Group(records)
    ensures r in records && CanonicalKey(r) == key
  {
    GroupsNonEmpty(records, key);
    r := Group(records)[key][0];
    GroupMembersShareKey(records, key, 0);
    RecordInExactlyOneGroup(records, r, key);
  }

  /** On a lexical filesystem the partition file of `key` is where `Paths.FileLocation` puts it. */
  lemma LexicalFileOf(outputDir: string, key: string, fs: FileSystem)
    requires Lexical(fs)
    ensures FileOf(outputDir, key, fs) == FileLocation(outputDir, key)
  {
  }

  /**
   * End to end, for names without a separator on a lexical filesystem: after a successful
   * call every parsed record can be read back, field for field, from the complete file at its
   * partition's location.
   */
  lemma PlainNamesReadBack(outputDir: string, schema: seq<Field>, records: seq<Record>, render: UtcDateTime -> string, fs: FileSystem,
                           dirs: set<Location>, files: map<Location, FileState>, r: Record)
      returns (j: nat)
    requires Lexical(fs)
    requires WriteResult(outputDir, schema, Group(records), render, fs, Pass, dirs, files)
    requires forall x :: x in records ==> '/' !in x.name
    requires r in records
    ensures FileOf(outputDir, CanonicalKey(r), fs) in files && files[FileOf(outputDir, CanonicalKey(r), fs)].Written?
    ensures ReadRow(files[FileOf(outputDir, CanonicalKey(r), fs)].batch.columns, j) == Some(RowOf(r, render))
  {
    var key := CanonicalKey(r);
    RecordInExactlyOneGroup(records, r, key);
    forall k | k in Group(records) && FileOf(outputDir, k, fs) == FileOf(outputDir, key, fs)
      ensures k == key
    {
      LexicalFileOf(outputDir, k, fs);
      LexicalFileOf(outputDir, key, fs);
      PartitionPathsDistinct(outputDir, records, k, key);
    }
    j := StoredRecordReadsBack(outputDir, schema, records, render, fs, dirs, files, r);
  }

  /**
   * The source as written loses a record when one name is another with a `/` appended:
   * records for "a" and "a/" on the same day get the keys `name=a/year=…` and
   * `name=a//year=…`, two partitions whose files are one file on disk. The call still
   * succeeds, and that file holds one row, so one of the two records cannot be read back.
   */
  lemma SlashNameLosesRecord(outputDir: string, schema: seq<Field>, r1: Record, r2: Record, render: UtcDateTime -> string, fs: FileSystem,
                             dirs: set<Location>, files: map<Location, FileState>)
    requires Lexical(fs)
    requires r2.name == r1.name + "/" && SameUtcDate(r1.timestamp, r2.timestamp)
    requires WriteResult(outputDir, schema, Group([r1, r2]), render, fs, Pass, dirs, files)
    ensures CanonicalKey(r1) != CanonicalKey(r2)
    ensures FileOf(outputDir, CanonicalKey(r1), fs) == FileOf(outputDir, CanonicalKey(r2), fs)
    ensures FileOf(outputDir, CanonicalKey(r1), fs) in files && files[FileOf(outputDir, CanonicalKey(r1), fs)].Written?
    ensures var batch := files[FileOf(outputDir, CanonicalKey(r1), fs)].batch;
      || (forall j: nat :: ReadRow(batch.columns, j) != Some(RowOf(r1, render)))
      || (forall j: nat :: ReadRow(batch.columns, j) != Some(RowOf(r2, render)))
  {
    SlashKeysShareFile(outputDir, r1, r2, fs);
    GroupOfTwo(r1, r2);
    SharedFileLosesOne(outputDir, schema, render, fs, dirs, files, CanonicalKey(r1), CanonicalKey(r2), r1, r2);
  }

  /**
   * Two single-record partitions whose files are one file: after a successful call that file
   * holds one of the two batches, so the other partition's record is in no row of it.
   */
  lemma SharedFileLosesOne(outputDir: string, schema: seq<Field>, render: UtcDateTime -> string, fs: FileSystem,
                           dirs: set<Location>, files: map<Location, FileState>, k1: string, k2: string, r1: Record, r2: Record)
    requires k1 != k2 && r1.name != r2.name && FileOf(outputDir, k1, fs) == FileOf(outputDir, k2, fs)
    requires WriteResult(outputDir, schema, map[k1 := [r1], k2 := [r2]], render, fs, Pass, dirs, files)
    ensures FileOf(outputDir, k1, fs) in files && files[FileOf(outputDir, k1, fs)].Written?
    ensures var batch := files[FileOf(outputDir, k1, fs)].batch;
      || (forall j: nat :: ReadRow(batch.columns, j) != Some(RowOf(r1, render)))
      || (forall j: nat :: ReadRow(batch.columns, j) != Some(RowOf(r2, render)))
  {
    var partitions := map[k1 := [r1], k2 := [r2]];
    var owner := FileHoldsABatch(outputDir, schema, partitions, render, fs, dirs, files, k1);
    var kept, lost := if owner == k1 then r1 else r2, if owner == k1 then r2 else r1;
    assert partitions[owner] == [kept];
    forall j: nat
      ensures ReadRow(BatchOf(schema, [kept], render).columns, j) != Some(RowOf(lost, render))
    {
      SingleBatchLacks(schema, kept, lost, render, j);
    }
  }

  /** The keys of "a" and "a/" on one day differ, yet name one file on a lexical filesystem. */
  lemma SlashKeysShareFile(outputDir: string, r1: Record, r2: Record, fs: FileSystem)
    requires Lexical(fs)
    requires r2.name == r1.name + "/" && SameUtcDate(r1.timestamp, r2.timestamp)
    ensures CanonicalKey(r1) != CanonicalKey(r2)
    ensures FileOf(outputDir, CanonicalKey(r1), fs) == FileOf(outputDir, CanonicalKey(r2), fs)
  {
    var k1, k2 := CanonicalKey(r1), CanonicalKey(r2);
    TrailingSlashSameComponents(r1, r2);
    CanonicalKeyIsRelative(r1);
    CanonicalKeyIsRelative(r2);
    SharedFileLocation(outputDir, k1, k2);
    LexicalFileOf(outputDir, k1, fs);
    LexicalFileOf(outputDir, k2, fs);
  }

  /** Keys with the same path components have the same file location. */
  lemma SharedFileLocation(outputDir: string, a: string, b: string)
    requires !IsAbsolute(a) && !IsAbsolute(b) && Components(a) == Components(b)
    ensures FileLocation(outputDir, a) == FileLocation(outputDir, b)
  {
    LocationsOfKey(outputDir, a);
    LocationsOfKey(outputDir, b);
  }
}

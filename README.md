# ingest-demo-rs in Dafny

This project models the ingestion core of ingest-demo-rs, a small Rust program that reads
Signal K style boat position records as JSON lines and writes them out as Hive-partitioned
Parquet files.

`process_json_to_parquet` works in five steps:

1. It reads the input lines and keeps those that decode as a `Record`, dropping the rest.
2. It refuses an input in which no record survives.
3. It groups the records under the key `name=<name>/year=<Y>/month=<M>/day=<D>`. The date parts come from the record's `year`/`month`/`day` accessors.
4. For each group it builds the nine Arrow columns in schema order.
5. It writes each group to `output_dir/<key>/data.parquet`.

The model also covers the integer and string part of `Record::generate_random`. The random draws are passed in as parameters.

Modules, following the source:

- `Wrappers`: `Option` and `Outcome`.
- `Sequences`: `FilterMap`, the model of Rust's `filter_map`, with its subsequence lemmas.
- `Decimal`: the decimal and zero-padded rendering of the `{}`, `{:02}`, `%Y`, `%m` and `%d` formats, and reading a digit string back.
- `Model` (src/model.rs):
  - the UTC date-time with chrono's validity rules;
  - `Record` and its accessors;
  - the generator.
- `Partition` (src/ingestion.rs:40-52):
  - the partition key and its canonical text;
  - a parser of that text;
  - the grouping loop `GroupByKey`, proved equal to the fold `Group`;
  - the grouping invariants.
- `Columns` (src/ingestion.rs:16-26, 62-91): the schema, the projection into columns, the shape check of `RecordBatch::try_new`, and reading a row back.
- `Paths` (src/ingestion.rs:56-59): Unix `Path::join`, the partition paths, and how Unix resolves a path string to a location.
- `Ingestion` (src/ingestion.rs:15-100):
  - the parse filter;
  - the empty-input guard;
  - the per-partition write step and the write loop;
  - `ProcessJsonToParquet` itself;
  - reading records back from the written files.

Collaborators the program calls but does not define are parameters:

- `parse: string -> Option<Record>` is `serde_json::from_str::<Record>`.
- `render: UtcDateTime -> string` is chrono's `to_rfc3339`.
- `fadd` is f64 addition.
- A `FileSystem` gives, for each path, the file or directory it names (`locate`), and says which `create_dir_all`, `File::create` and Parquet-writer steps fail for which path.

An input item is an `Option<string>`. `None` stands for an I/O error that `lines()` yields and `line.ok()?` drops.

The on-disk effects are indexed by the location a path names, not by the path string, because on Unix several strings can name one file:

- `dirs` holds the locations of the partition directories that were created.
- `files[l]` is the state of the file at location `l`: `Written(batch)` for a complete file, or `Unfinished` when its writer failed. `File::create` truncates an existing file, so a second partition whose file is at the same location replaces the entry.
- `Ingestion.Lexical(fs)` says that the filesystem resolves paths the way `Paths.Resolve` does: repeated and trailing `/` count for nothing, `.` stays put and `..` steps back. There are no symbolic links and names are case-sensitive.
- The schema is a parameter of the write step. The call passes `Columns.RecordSchema`, and the write step requires it.

Two behaviours of the code are worth noting:

- The year is chrono's `%Y`. It is four zero-padded digits only for years 0 to 9999, and other years get an explicit sign. So the year part has four digits for the years the generator produces but not for every valid timestamp.
- The name is put into the key unescaped. A name that contains `/` can change the directory layout: `a/b` gives a deeper directory, `a/` the same directory as `a`, and `a/..` a shallower one. A name without `/`, even `..`, is one plain path name (`Partition.PlainKeyComponents`). The key still parses back (`Partition.ParseKeyString` needs '/'-free date parts only), and distinct keys give distinct path strings (`Paths.DataFilePathInjective`). Distinct path strings do not always name distinct files, though. With '/'-free names, on a filesystem that resolves paths as `Paths.Resolve` does, every partition has its own directory and its own file (`Ingestion.PartitionPathsDistinct`). Names "a" and "a/" on one day share one file (see Findings).

## Model

| member | source | states |
|---|---|---|
| Ingestion.ParseRecordsSubsequence | src/ingestion.rs:28-34 | The parsed records are exactly the lines that read and decode, in input order. The result lists their positions; the positions increase, each decodes to the matching record, and no decodable line is missing. |
| Ingestion.MalformedLineSkipped | src/ingestion.rs:30-33 | A line that fails to read or to decode contributes nothing. The records parsed before it and after it are unaffected. |
| Ingestion.NoRecordsIff | src/ingestion.rs:28-36 | No record survives exactly when every line fails to read or to decode. |
| Ingestion.GoodThenBad | src/ingestion.rs:28-34 | One decodable line followed by one malformed line parses to that one record. |
| Ingestion.OneRecordOnePartition | src/ingestion.rs:28-52 | A good "Boat A" line dated 2024-06-01 followed by a malformed line gives exactly one partition, `name=Boat A/year=2024/month=06/day=01`, holding that record. |
| Ingestion.ProcessJsonToParquet | src/ingestion.rs:15-100 | It fails with `NoValidRecords` exactly when no record is parsed, and then it creates no directory and no file. Otherwise its outcome and its effects are those of the write loop over the grouping of the parsed records. |
| Ingestion.WriteErrorNotEmptyInput | src/ingestion.rs:36-38 | An error from the write loop is never the empty-input error, so `NoValidRecords` identifies the empty case. |
| Ingestion.BatchBuilds | src/ingestion.rs:91 | `RecordBatch::try_new` on a partition's nine arrays always succeeds, with the schema and those arrays, so its `?` never returns an error. |
| Ingestion.WritePartition | src/ingestion.rs:56-96 | One partition: the outcome is the first failing step (directory, file creation, writer) or success. The location of its directory is added unless `create_dir_all` failed. If the file was created, the entry at the file's location is replaced, as `File::create` truncates: unfinished if the writer failed, its complete batch if not. No other location changes. |
| Ingestion.WritePartitions | src/ingestion.rs:55-97 | Over any visiting order: success exactly when no partition has a failing step, and then every partition's directory and file locations exist. On failure, the error is the first failing step of some partition, and the loop stopped there: the disk is the state after some set of partitions written without a failure, followed by that partition's steps up to the failing one. Every directory is the location of some partition's directory. Every file is at the file location of some partition whose directory was created, and it holds that partition's complete batch, or is unfinished when the reported error is that file's writer failing. When two partitions' files share a location, which batch it holds is left open. |
| Ingestion.ProgressStep | src/ingestion.rs:55-97 | Writing one more partition without a failure keeps the loop invariant: every written partition has its directory and file locations, each directory and file belongs to a written partition, and each file holds the complete batch of the partition that wrote it last. |
| Ingestion.StopResult | src/ingestion.rs:57-96 | Stopping at a partition's first failing step, the `?` return, leaves a state the write loop's contract allows. |
| Ingestion.EveryStepFailsStopsAtFirst | src/ingestion.rs:55-97 | When every partition has a failing step, the call fails, and the only directory it can have made is that of the one partition it tried, as the first `?` leaves the loop. |
| Ingestion.CompleteResult | src/ingestion.rs:55-99 | Once every partition is written without a failure, the state meets the write loop's contract with success. |
| Ingestion.FileHoldsABatch | src/ingestion.rs:55-96 | After a successful call, each partition's file location holds a complete file: the batch of some partition whose file is at that same location. |
| Ingestion.GroupRowReadsBack | src/ingestion.rs:63-91 | Every record of a group is some row of that group's batch, read back field for field. |
| Ingestion.SingleBatchLacks | src/ingestion.rs:63-91 | The batch of a one-record group has no row equal to a record with another name. |
| Ingestion.StoredRecordReadsBack | src/ingestion.rs:41-96 | After a successful call, a parsed record whose file location no other partition shares is in a complete file at that location, and some row of that file reads back as the record field for field. |
| Ingestion.PartitionPathsDistinct | src/ingestion.rs:44-59 | When no name contains '/', two partitions of a grouping resolve to the same directory, or to the same data file, exactly when they are the same partition. |
| Ingestion.KeyRecord | src/ingestion.rs:41-52 | Every key of the grouping is the key of some input record. |
| Ingestion.PlainNamesReadBack | src/ingestion.rs:41-96 | On a filesystem that resolves paths lexically, with no '/' in any name: after a successful call every parsed record is in a complete file at its partition's file location, and some row of it reads back as the record. |
| Ingestion.SlashNameLosesRecord | src/ingestion.rs:44-60 | On a lexical filesystem, records named n and n + "/" on one UTC day get different keys whose files are one file. After a successful call that file lacks one of the two records in every row. |
| Ingestion.SharedFileLosesOne | src/ingestion.rs:55-96 | Two one-record partitions with different names whose files share a location: after a successful call the file there lacks one of the two records in every row. |
| Ingestion.SlashKeysShareFile | src/ingestion.rs:44-59 | On a lexical filesystem, the keys of n and n + "/" on one UTC day differ, yet their data files are one file. |
| Ingestion.SharedFileLocation | src/ingestion.rs:56-59 | Two relative keys with the same path names have the same data-file location. |
| Partition.KeyOf | src/ingestion.rs:44-50 | The key holds the record's name unchanged, a year text that reads back as the UTC year, and two-digit month and day that denote the UTC month and day. Its date parts contain no '/'. |
| Partition.ParseKeyString | src/ingestion.rs:44-50 | The text `name=<n>/year=<y>/month=<m>/day=<d>` parses back to its four parts, whatever the name contains. |
| Partition.SamePartitionIff | src/ingestion.rs:44-51 | Two records get the same key exactly when they have the same name and the same UTC calendar date. Time of day plays no part. |
| Partition.KeyExample | src/ingestion.rs:44-50 | A "Boat A" record on 2024-06-01, at any time of day, has the key `name=Boat A/year=2024/month=06/day=01`. |
| Partition.CanonicalKeyIsRelative | src/ingestion.rs:44-50 | A key is non-empty and neither starts nor ends with '/'. |
| Partition.KeyComponents | src/ingestion.rs:44-50 | The path names of a key are those of its four `field=value` parts, in order. |
| Partition.PlainKeyComponents | src/ingestion.rs:44-50 | With no '/' in the name, a key's path names are exactly its four parts, none of them `.` or `..`. |
| Partition.PlainKeysApart | src/ingestion.rs:44-50 | Two keys with '/'-free names have the same path names exactly when they are the same key. |
| Partition.PlainRecordKeys | src/ingestion.rs:44-50 | The key of a record with a '/'-free name is a relative path of plain names. Two such keys have the same path names exactly when they are equal. |
| Partition.TrailingSlashSameComponents | src/ingestion.rs:44-50 | Records named n and n + "/" on one UTC day get different keys with the same path names. |
| Partition.GroupByKey | src/ingestion.rs:41-52 | The loop of `entry(key).or_default().push(record)` over the records builds exactly the map `Group` of those records. |
| Partition.SingleRecordGroup | src/ingestion.rs:41-52 | A single record forms a single group under its own key. |
| Partition.GroupOfTwo | src/ingestion.rs:41-52 | Two records with different keys form two groups of one record each. |
| Partition.GroupIsSelect | src/ingestion.rs:41-52 | A key is in the grouping exactly when some record has it. Its group is the in-order selection of the records having it. |
| Partition.GroupsNonEmpty | src/ingestion.rs:51 | No group is empty. |
| Partition.GroupMembersShareKey | src/ingestion.rs:44-51 | Every record in the group under a key has that key. |
| Partition.GroupIsKeySubsequence | src/ingestion.rs:43-51 | A group lists the records with its key in their input order, at increasing input positions, with none of them missing. |
| Partition.SelectCount | src/ingestion.rs:43-51 | A group holds each record with its key as many times as the input does, and no other record. |
| Partition.RecordInExactlyOneGroup | src/ingestion.rs:41-52 | A record is in the group under a key exactly when it is in the input with that key. Every input record is in its own group with all its occurrences, so it is in exactly one group. |
| Partition.TotalSizePush | src/ingestion.rs:51 | One push adds one to the total number of grouped records. |
| Partition.GroupConserves | src/ingestion.rs:41-52 | The group sizes add up to the number of parsed records. |
| Columns.Project | src/ingestion.rs:63-77 | A projected column has one entry per record of the group, and entry j is the field of record j. |
| Columns.ToColumnsConform | src/ingestion.rs:16-26 | A partition's columns are nine, typed as the schema in order (version, name, uuid, latitude, longitude, altitude, course, speed, timestamp), each of group size, so `try_new` accepts them. |
| Columns.ColumnsRoundTrip | src/ingestion.rs:63-89 | Row j read back from a partition's columns is record j of the group with every field copied, the timestamp as its RFC 3339 text; past the end there is no row. |
| Paths.DataFilePathShape | src/ingestion.rs:56-59 | For a relative key, the directory is `output_dir/` followed by the key, and the file is that directory followed by `/data.parquet`. |
| Paths.KeyOfDataFileRoundTrip | src/ingestion.rs:56-59 | The key can be read back from the data-file path. |
| Paths.DataFilePathInjective | src/ingestion.rs:56-59 | Two relative keys have the same data-file path string exactly when they are equal. |
| Paths.ComponentsJoin | src/ingestion.rs:56-59 | Joining a relative part appends its path names to the base's and keeps whether the base is absolute. |
| Paths.LocationsOfKey | src/ingestion.rs:56-59 | For a relative key, the resolved directory and data file depend only on `output_dir` and the key's path names. |
| Paths.LocationsApart | src/ingestion.rs:56-59 | For relative keys of plain names, two partitions resolve to the same directory, or to the same data file, exactly when their keys have the same path names. |
| Model.Year | src/model.rs:58-60 | `%Y` text reads back as the UTC year and contains no '/'. For years 0 to 9999 it is exactly four digits denoting the year. |
| Model.Month | src/model.rs:62-64 | `%m` is exactly two decimal digits, zero-padded, denoting the UTC month. |
| Model.Day | src/model.rs:66-68 | `%d` is exactly two decimal digits, zero-padded, denoting the UTC day of the month. |
| Model.DatePartsIff | src/model.rs:58-68 | The three accessors agree on two records exactly when their timestamps fall on the same UTC date. Hour, minute, second and fraction play no part. |
| Model.AccessorsExample | src/model_test.rs:21-40 | A timestamp on 2022-03-15 gives "2022", "03" and "15". |
| Model.TimestampTextLaidOut | src/model.rs:37-38 | The formatted text has the fixed `YYYY-MM-DDTHH:MM:SSZ` layout, and each digit field reads back as its draw. |
| Model.TimestampTextParses | src/model.rs:30-41 | With the drawn ranges the formatted text always parses, to the drawn date and time with no fraction, so the `unwrap` cannot panic. |
| Model.GenerateRandom | src/model.rs:29-56 | The version is copied from the example. The name is "Boat " followed by the drawn n in 1..=100, as `BoatNumber` reads it back. The uuid starts with `urn:mrn:signalk:uuid:`, the speed is in [0, 25), and the timestamp is the drawn date and time with year in 2020..=2025 and day at most 28. |
| Decimal.DigitsRoundTrip | src/model.rs:47 | The decimal digits of a number read back as that number. |
| Decimal.PaddedRoundTrip | src/model.rs:38 | A `{:0w}` rendering is all digits, reads back as the number, and is as long as the wider of w and the plain digits. |
| Decimal.PaddedWidth | src/model.rs:38 | A number below 10^w renders in exactly w characters when zero-padded to width w. |

## Findings

| source | as written | input that shows it | evidently intended | confidence | as-written member | corrected member |
|---|---|---|---|---|---|---|
| src/ingestion.rs:44-60 | The record name goes into the partition path unescaped, so two different keys can name one data file, and the second `File::create` truncates the first partition's file. The call still succeeds. | Two records on the same UTC day named "a" and "a/": keys `name=a/year=…` and `name=a//year=…`, both resolving to `<out>/name=a/year=…/data.parquet`. | Each partition is written to its own file, so every parsed record can be read back after a successful call. | not executed | Ingestion.SlashNameLosesRecord | Ingestion.PlainNamesReadBack |

## Left out

- Reading standard input through `BufReader::lines` is I/O. The input is a given sequence of lines, each of which may be an I/O error.
- JSON decoding by serde is a foreign library. It is the parameter `parse`.
- chrono's general RFC 3339 parser and `to_rfc3339` rendering are a foreign library. `to_rfc3339` is the parameter `render`. For the generator, the parser is modelled only on the one `YYYY-MM-DDTHH:MM:SSZ` shape it is given (`Model.ParseUtcSeconds`).
- Arrow `RecordBatch` internals, `ArrowWriter` and the Parquet encoding are a foreign library. Only the shape check of `try_new` is modelled. The `try_new`, `write` and `close` failures of the writer are one fault, `WriteFailed`.
- Reading stops in the model because the input is a finite sequence of lines. Under a persistent read error every `Lines::next` yields an error (for instance when standard input is a directory, EISDIR). The `filter_map` at src/ingestion.rs:28-34 then never ends and the check at line 36 is never reached. The model does not capture that non-termination.
- The filesystem is a foreign resource. `create_dir_all` and `File::create` are modelled as steps that succeed or fail per path, with `FileSystem.locate` saying which file or directory a path names.
  - Files and directories that exist before the call are not modelled.
  - The intermediate directories `create_dir_all` also creates are not recorded.
  - Whether a step fails depends only on its own path (`FileSystem.createDirFails`, `createFileFails`, `writerFails`), not on what earlier partitions created. On a real filesystem it can. For the names "a" and "a/year=2024/month=06/day=01/data.parquet" on 2024-06-01, one partition's data file lies on the other's directory path, so the program fails whichever partition comes first (`create_dir_all` meets a file, or `File::create` meets a directory). The model, with no failing step, reports `Pass` with a file at an ancestor of a directory.
  - Symbolic links, case-insensitive names and other filesystem-specific aliasing are covered only through the general `locate`. The lemmas about where partitions land (`Ingestion.PlainNamesReadBack`, `Ingestion.SlashNameLosesRecord`) assume `Ingestion.Lexical`.
- Ingestion.StoredRecordReadsBack: requires that no other partition's file shares the record's file location, because the source does not ensure it (see Findings). `Ingestion.PlainNamesReadBack` meets that condition for '/'-free names on a lexical filesystem.
- Ingestion.PartitionPathsDistinct: is stated for '/'-free names only, because with a '/' in a name two partitions can share a file (see Findings).
- Ingestion.WritePartitions: the order of the partitions and which failing partition is reported are left open, because the loop follows `HashMap` iteration order, which is unspecified.
- Paths: only Unix path semantics are modelled. Windows separators and prefixes are not.
- The name in a key is not sanitised, as in the source. A name containing `/`, with or without `..` segments, can change the directory layout, and the model describes that layout without forbidding it.
- Floating-point values are opaque 64-bit payloads that are only copied. f64 addition is the parameter `fadd`.
- Model.GenerateRandom: does not state the ranges of the four f64 draws (latitude and longitude offsets in [-1, 1), altitude in [-10, 100), course in [0, 360)), because floating point is not modelled.
- Random number generation and `Uuid::new_v4` are sources of randomness. The draws and the uuid text are parameters.
- `Record::load_example`, the generator driver in src/generator.rs and the command line in src/bin/main.rs are file and console I/O and argument handling. They are not part of this model.
- The error messages of `Box<dyn Error>` are modelled by the datatype `Ingestion.Error`, one constructor per failing step. Its filesystem errors also record the failing partition's path, which the source's `io::Error` and Parquet errors do not contain. `WriteResult` uses that path to tell which file a writer error left unfinished.

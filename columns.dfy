/**
 * The columnar side of src/ingestion.rs: the nine-field Arrow schema, the projection of a
 * partition's records into one column per field, and the shape check `RecordBatch::try_new`
 * applies to them.
 */
module Columns {
  import opened Wrappers
  import opened Model

  datatype DataType = Utf8 | Float64 | Int32Bits

  /** An Arrow field: name, type and nullability. */
  datatype Field = Field(name: string, dataType: DataType, nullable: bool)

  /** The schema, in column order; no column is nullable. */
  const RecordSchema: seq<Field> := [
    Field("version", Utf8, false),
    Field("name", Utf8, false),
    Field("uuid", Utf8, false),
    Field("latitude", Float64, false),
    Field("longitude", Float64, false),
    Field("altitude", Float64, false),
    Field("course", Float64, false),
    Field("speed", Int32Bits, false),
    Field("timestamp", Utf8, false)
  ]

  /** An Arrow array without nulls: `StringArray`, `Float64Array` or `Int32Array`. */
  datatype Column =
    | StringArray(strings: seq<string>)
    | Float64Array(floats: seq<F64>)
    | Int32Array(ints: seq<Int32>)

  function ColumnType(c: Column): DataType
  {
    match c
    case StringArray(_) => Utf8
    case Float64Array(_) => Float64
    case Int32Array(_) => Int32Bits
  }

  function ColumnLength(c: Column): nat
  {
    match c
    case StringArray(s) => |s|
    case Float64Array(f) => |f|
    case Int32Array(i) => |i|
  }

  /** A row batch: the schema and its columns. */
  datatype RecordBatch = RecordBatch(schema: seq<Field>, columns: seq<Column>)

  /** One column per field, each of the field's type, all of `rows` entries. */
  predicate Conforms(schema: seq<Field>, columns: seq<Column>, rows: nat)
  {
    && |columns| == |schema|
    && (forall i :: 0 <= i < |columns| ==> ColumnType(columns[i]) == schema[i].dataType)
    && (forall i :: 0 <= i < |columns| ==> ColumnLength(columns[i]) == rows)
  }

  /** `RecordBatch::try_new`: fails unless the columns conform to the schema with one length. */
  function TryNewBatch(schema: seq<Field>, columns: seq<Column>): Option<RecordBatch>
  {
    var rows := if columns == [] then 0 else ColumnLength(columns[0]);
    if Conforms(schema, columns, rows) then Some(RecordBatch(schema, columns)) else None
  }

  /** `iter().map(f).collect()`: the projection of `f` across `group`, in group order. */
  function Project<T>(group: seq<Record>, f: Record -> T): (col: seq<T>)
    ensures |col| == |group|
    ensures forall j :: 0 <= j < |group| ==> col[j] == f(group[j])
  {
    if group == [] then [] else [f(group[0])] + Project(group[1..], f)
  }

  /**
   * The nine arrays built for a partition, in schema order; the timestamp column holds
   * `render` (chrono's `to_rfc3339`) of each timestamp.
   */
  function ToColumns(group: seq<Record>, render: UtcDateTime -> string): seq<Column>
  {
    [
      StringArray(Project(group, (r: Record) => r.version)),
      StringArray(Project(group, (r: Record) => r.name)),
      StringArray(Project(group, (r: Record) => r.uuid)),
      Float64Array(Project(group, (r: Record) => r.latitude)),
      Float64Array(Project(group, (r: Record) => r.longitude)),
      Float64Array(Project(group, (r: Record) => r.altitude)),
      Float64Array(Project(group, (r: Record) => r.course)),
      Int32Array(Project(group, (r: Record) => r.speed)),
      StringArray(Project(group, (r: Record) => render(r.timestamp)))
    ]
  }

  /** The columns of a partition always pass `try_new`: nine of them, typed as the schema, each of `|group|` entries. */
  lemma ToColumnsConform(group: seq<Record>, render: UtcDateTime -> string)
    ensures Conforms(RecordSchema, ToColumns(group, render), |group|)
    ensures TryNewBatch(RecordSchema, ToColumns(group, render)) == Some(RecordBatch(RecordSchema, ToColumns(group, render)))
  {
  }

  /** The values of one row of a batch, the timestamp as text. */
  datatype Row = Row(
    version: string, name: string, uuid: string,
    latitude: F64, longitude: F64, altitude: F64, course: F64,
    speed: Int32, timestamp: string)

  /** The row a record is stored as. */
  function RowOf(r: Record, render: UtcDateTime -> string): Row
  {
    Row(r.version, r.name, r.uuid, r.latitude, r.longitude, r.altitude, r.course, r.speed, render(r.timestamp))
  }

  /** Reads row `j` back out of nine columns laid out as `RecordSchema`; fails on any other layout. */
  function ReadRow(columns: seq<Column>, j: nat): Option<Row>
  {
    if && |columns| == 9
       && columns[0].StringArray? && columns[1].StringArray? && columns[2].StringArray?
       && columns[3].Float64Array? && columns[4].Float64Array? && columns[5].Float64Array?
       && columns[6].Float64Array? && columns[7].Int32Array? && columns[8].StringArray?
       && (forall i :: 0 <= i < 9 ==> j < ColumnLength(columns[i]))
    then
      Some(Row(columns[0].strings[j], columns[1].strings[j], columns[2].strings[j],
               columns[3].floats[j], columns[4].floats[j], columns[5].floats[j],
               columns[6].floats[j], columns[7].ints[j], columns[8].strings[j]))
    else None
  }

  /**
   * Column fidelity: reading row `j` back from a partition's columns gives the `j`-th record
   * of the group, every field copied exactly, the timestamp as its RFC 3339 text;
   * there is no row past the end.
   */
  lemma ColumnsRoundTrip(group: seq<Record>, render: UtcDateTime -> string, j: nat)
    ensures ReadRow(ToColumns(group, render), j) == if j < |group| then Some(RowOf(group[j], render)) else None
  {
    var c := ToColumns(group, render);
    if j < |group| {
      var r := group[j];
      assert c[0].strings[j] == r.version && c[1].strings[j] == r.name && c[2].strings[j] == r.uuid;
      assert c[3].floats[j] == r.latitude && c[4].floats[j] == r.longitude;
      assert c[5].floats[j] == r.altitude && c[6].floats[j] == r.course;
      assert c[7].ints[j] == r.speed && c[8].strings[j] == render(r.timestamp);
    } else {
      assert ColumnLength(c[0]) == |group|;
    }
  }
}

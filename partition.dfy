/**
 * The partitioner of src/ingestion.rs: the key `name=<name>/year=<Y>/month=<M>/day=<D>`
 * each record is filed under, and the loop that groups the parsed records by that key.
 */
module Partition {
  import opened Wrappers
  import opened Sequences
  import opened Decimal
  import opened Model
  import opened Paths

  /** The four components of a partition key. */
  datatype PartitionKey = PartitionKey(name: string, year: string, month: string, day: string)

  /** The canonical text of a key; the name is not escaped. */
  function KeyString(k: PartitionKey): string
  {
    "name=" + k.name + "/year=" + k.year + "/month=" + k.month + "/day=" + k.day
  }

  /** The date components contain no separator (the name may). */
  predicate WellFormedKey(k: PartitionKey)
  {
    '/' !in k.year && '/' !in k.month && '/' !in k.day
  }

  /** The key components of a record: its name and the accessors' rendering of its UTC date. */
  function KeyOf(r: Record): (k: PartitionKey)
    ensures WellFormedKey(k)
    ensures k.name == r.name && ReadYear(k.year) == Some(r.timestamp.year)
    ensures |k.month| == 2 && IsDigits(k.month) && Value(k.month) == r.timestamp.month
    ensures |k.day| == 2 && IsDigits(k.day) && Value(k.day) == r.timestamp.day
  {
    DigitsHaveNoSlash(Month(r));
    DigitsHaveNoSlash(Day(r));
    PartitionKey(r.name, Year(r), Month(r), Day(r))
  }

  /** The string the source groups by and uses as the relative partition path. */
  function CanonicalKey(r: Record): string
  {
    KeyString(KeyOf(r))
  }

  /** Splits `s` at its last '/', if it has one. */
  function SplitLast(s: string): Option<(string, string)>
  {
    if s == [] then None
    else if s[|s| - 1] == '/' then Some((s[..|s| - 1], []))
    else match SplitLast(s[..|s| - 1])
      case None => None
      case Some(p) => Some((p.0, p.1 + [s[|s| - 1]]))
  }

  lemma {:induction false} SplitLastConcat(a: string, b: string)
    requires '/' !in b
    ensures SplitLast(a + "/" + b) == Some((a, b))
    decreases |b|
  {
    var s := a + "/" + b;
    if b == [] {
      assert s[..|s| - 1] == a;
    } else {
      var b' := b[..|b| - 1];
      assert s[..|s| - 1] == a + "/" + b';
      assert b' + [b[|b| - 1]] == b;
      SplitLastConcat(a, b');
    }
  }

  function StripPrefix(p: string, s: string): Option<string>
  {
    if |p| <= |s| && s[..|p|] == p then Some(s[|p|..]) else None
  }

  /** Reads a canonical key string back into its components. */
  function ParseKey(s: string): Option<PartitionKey>
  {
    match SplitLast(s)
    case None => None
    case Some(p1) =>
      match SplitLast(p1.0)
      case None => None
      case Some(p2) =>
        match SplitLast(p2.0)
        case None => None
        case Some(p3) =>
          var name, year, month, day := StripPrefix("name=", p3.0), StripPrefix("year=", p3.1),
                                        StripPrefix("month=", p2.1), StripPrefix("day=", p1.1);
          if name.Some? && year.Some? && month.Some? && day.Some?
          then Some(PartitionKey(name.value, year.value, month.value, day.value))
          else None
  }

  /** The key text loses nothing: parsing it gives the components back. */
  lemma ParseKeyString(k: PartitionKey)
    requires WellFormedKey(k)
    ensures ParseKey(KeyString(k)) == Some(k)
  {
    var n, y, m, d := "name=" + k.name, "year=" + k.year, "month=" + k.month, "day=" + k.day;
    assert '/' !in y && '/' !in m && '/' !in d;
    assert KeyString(k) == ((n + "/" + y) + "/" + m) + "/" + d;
    SplitLastConcat((n + "/" + y) + "/" + m, d);
    SplitLastConcat(n + "/" + y, m);
    SplitLastConcat(n, y);
    assert StripPrefix("name=", n) == Some(k.name);
    assert StripPrefix("year=", y) == Some(k.year);
    assert StripPrefix("month=", m) == Some(k.month);
    assert StripPrefix("day=", d) == Some(k.day);
  }

  /**
   * Two records share a partition exactly when they have the same name and the same UTC
   * calendar date, whatever their time of day and other fields.
   */
  lemma SamePartitionIff(a: Record, b: Record)
    ensures CanonicalKey(a) == CanonicalKey(b) <==> a.name == b.name && SameUtcDate(a.timestamp, b.timestamp)
  {
    if CanonicalKey(a) == CanonicalKey(b) {
      ParseKeyString(KeyOf(a));
      ParseKeyString(KeyOf(b));
      assert KeyOf(a) == KeyOf(b);
      DatePartsIff(a, b);
    } else if a.name == b.name && SameUtcDate(a.timestamp, b.timestamp) {
      DatePartsIff(a, b);
    }
  }

  /** A record of "Boat A" timestamped on 2024-06-01, at any time of day, goes to `name=Boat A/year=2024/month=06/day=01`. */
  lemma KeyExample(r: Record)
    requires r.name == "Boat A" && r.timestamp.year == 2024 && r.timestamp.month == 6 && r.timestamp.day == 1
    ensures CanonicalKey(r) == "name=Boat A/year=2024/month=06/day=01"
  {
    KeyPartsExample();
    assert Year(r) == Padded(2024, 4);
    assert KeyOf(r) == PartitionKey("Boat A", "2024", "06", "01");
    KeyStringExample();
  }

  lemma KeyStringExample()
    ensures KeyString(PartitionKey("Boat A", "2024", "06", "01")) == "name=Boat A/year=2024/month=06/day=01"
  {
  }

  lemma KeyPartsExample()
    ensures Padded(2024, 4) == "2024" && Padded(6, 2) == "06" && Padded(1, 2) == "01"
  {
    assert Digits(2024) == "2024";
    assert Padded(2024, 4) == [] + "2024";
    assert Digits(6) == "6" && Digits(1) == "1" && Zeros(1) == "0";
    assert Padded(6, 2) == "0" + "6";
    assert Padded(1, 2) == "0" + "1";
  }

  /** A key never starts or ends with a separator, so it is a relative path of one or more segments. */
  lemma CanonicalKeyIsRelative(r: Record)
    ensures |CanonicalKey(r)| > 0 && CanonicalKey(r)[0] != '/' && CanonicalKey(r)[|CanonicalKey(r)| - 1] != '/'
  {
    var k := KeyOf(r);
    assert CanonicalKey(r) == "name=" + k.name + "/year=" + k.year + "/month=" + k.month + "/day=" + k.day;
    assert IsDigit(k.day[1]);
  }

  // ----- keys as paths -----------------------------------------------------------------

  /** The path components of a key text are those of its four `field=value` parts, in order. */
  lemma KeyComponents(k: PartitionKey)
    ensures Components(KeyString(k)) ==
      Components("name=" + k.name) + Components("year=" + k.year) + Components("month=" + k.month) + Components("day=" + k.day)
  {
    var n, y, m, d := "name=" + k.name, "year=" + k.year, "month=" + k.month, "day=" + k.day;
    assert KeyString(k) == n + "/" + y + "/" + m + "/" + d;
    PartsComponents(n, y, m, d);
  }

  lemma PartsComponents(n: string, y: string, m: string, d: string)
    ensures Components(n + "/" + y + "/" + m + "/" + d) == Components(n) + Components(y) + Components(m) + Components(d)
  {
    ComponentsSlash(n + "/" + y + "/" + m, d);
    ComponentsSlash(n + "/" + y, m);
    ComponentsSlash(n, y);
  }

  lemma FieldPrefixes()
    ensures '/' !in "name=" && '/' !in "year=" && '/' !in "month=" && '/' !in "day="
    ensures |"name="| == 5 && |"year="| == 5 && |"month="| == 6 && |"day="| == 4
  {
  }

  /** A `field=value` part whose value has no separator is one plain path component. */
  lemma FieldComponent(field: string, value: string)
    requires '/' !in field && '/' !in value && |field| >= 3
    ensures Components(field + value) == [field + value] && Plain(field + value)
  {
    ComponentsOfName(field + value);
  }

  /** With no separator in the name, a key is the path of exactly its four parts, none of them `.` or `..`. */
  lemma PlainKeyComponents(k: PartitionKey)
    requires WellFormedKey(k) && '/' !in k.name
    ensures Components(KeyString(k)) == ["name=" + k.name, "year=" + k.year, "month=" + k.month, "day=" + k.day]
    ensures AllPlain(Components(KeyString(k)))
  {
    KeyComponents(k);
    FieldPrefixes();
    FieldComponent("name=", k.name);
    FieldComponent("year=", k.year);
    FieldComponent("month=", k.month);
    FieldComponent("day=", k.day);
    PlainParts("name=" + k.name, "year=" + k.year, "month=" + k.month, "day=" + k.day);
  }

  lemma PlainParts(n: string, y: string, m: string, d: string)
    requires Plain(n) && Plain(y) && Plain(m) && Plain(d)
    ensures [n] + [y] + [m] + [d] == [n, y, m, d]
    ensures AllPlain([n, y, m, d])
  {
  }

  /** Two keys with separator-free names name the same path components only if they are the same key. */
  lemma PlainKeysApart(a: PartitionKey, b: PartitionKey)
    requires WellFormedKey(a) && '/' !in a.name && WellFormedKey(b) && '/' !in b.name
    ensures Components(KeyString(a)) == Components(KeyString(b)) <==> a == b
  {
    PlainKeyComponents(a);
    PlainKeyComponents(b);
    if Components(KeyString(a)) == Components(KeyString(b)) {
      FieldPrefixes();
      assert ("name=" + a.name)[5..] == a.name && ("name=" + b.name)[5..] == b.name;
      assert ("year=" + a.year)[5..] == a.year && ("year=" + b.year)[5..] == b.year;
      assert ("month=" + a.month)[6..] == a.month && ("month=" + b.month)[6..] == b.month;
      assert ("day=" + a.day)[4..] == a.day && ("day=" + b.day)[4..] == b.day;
    }
  }

  /**
   * The key of a record whose name has no separator is a relative path of plain components,
   * and two such keys have the same components exactly when they are the same key.
   */
  lemma PlainRecordKeys(r1: Record, r2: Record)
    requires '/' !in r1.name && '/' !in r2.name
    ensures !IsAbsolute(CanonicalKey(r1)) && AllPlain(Components(CanonicalKey(r1)))
    ensures Components(CanonicalKey(r1)) == Components(CanonicalKey(r2)) <==> CanonicalKey(r1) == CanonicalKey(r2)
  {
    CanonicalKeyIsRelative(r1);
    PlainKeyComponents(KeyOf(r1));
    PlainKeysApart(KeyOf(r1), KeyOf(r2));
  }

  /** Appending a separator to a key's name does not change the key's path components. */
  lemma SlashNameSameComponents(k: PartitionKey, k': PartitionKey)
    requires k' == PartitionKey(k.name + "/", k.year, k.month, k.day)
    ensures Components(KeyString(k')) == Components(KeyString(k))
  {
    var n, y, m, d := "name=" + k.name, "year=" + k.year, "month=" + k.month, "day=" + k.day;
    assert KeyString(k) == n + "/" + y + "/" + m + "/" + d;
    assert KeyString(k') == (n + "/") + "/" + y + "/" + m + "/" + d;
    PartsComponents(n, y, m, d);
    PartsComponents(n + "/", y, m, d);
    TrailingSlash(n);
  }

  lemma TrailingSlash(p: string)
    ensures Components(p + "/") == Components(p)
  {
    assert p + "/" == p + "/" + [];
    ComponentsSlash(p, []);
    ComponentsOfName([]);
  }

  /**
   * A trailing separator in the name changes the key text but not its path components:
   * `name=a/year=…` and `name=a//year=…` are different keys of the same directory.
   */
  lemma TrailingSlashSameComponents(r1: Record, r2: Record)
    requires r2.name == r1.name + "/" && SameUtcDate(r1.timestamp, r2.timestamp)
    ensures CanonicalKey(r1) != CanonicalKey(r2)
    ensures Components(CanonicalKey(r1)) == Components(CanonicalKey(r2))
  {
    assert |r2.name| == |r1.name| + 1;
    SamePartitionIff(r1, r2);
    DatePartsIff(r1, r2);
    var k1, k2 := KeyOf(r1), KeyOf(r2);
    assert k2 == PartitionKey(k1.name + "/", k1.year, k1.month, k1.day);
    SlashNameSameComponents(k1, k2);
  }

  // ----- grouping ----------------------------------------------------------------------

  /** `entry(key).or_default().push(record)`. */
  function Push(m: map<string, seq<Record>>, key: string, r: Record): map<string, seq<Record>>
  {
    m[key := (if key in m then m[key] else []) + [r]]
  }

  /** The map the grouping loop has built after the records `rs`. */
  function Group(rs: seq<Record>): map<string, seq<Record>>
  {
    if rs == [] then map[] else Push(Group(rs[..|rs| - 1]), CanonicalKey(rs[|rs| - 1]), rs[|rs| - 1])
  }

  /** A single record forms a single group under its own key. */
  lemma SingleRecordGroup(r: Record)
    ensures Group([r]) == map[CanonicalKey(r) := [r]]
  {
    assert [r][..0] == [];
    assert Group([r]) == Push(map[], CanonicalKey(r), r);
    assert [] + [r] == [r];
  }

  /** The grouping loop of `process_json_to_parquet`. */
  method GroupByKey(records: seq<Record>) returns (partitions: map<string, seq<Record>>)
    ensures partitions == Group(records)
  {
    partitions := map[];
    var i := 0;
    while i < |records|
      invariant 0 <= i <= |records|
      invariant partitions == Group(records[..i])
    {
      var record := records[i];
      var key := CanonicalKey(record);
      ghost var before := partitions;
      if key in partitions {
        PushExisting(before, key, record);
        partitions := partitions[key := partitions[key] + [record]];
      } else {
        PushFresh(before, key, record);
        partitions := partitions[key := [record]];
      }
      assert partitions == Push(before, key, record);
      GroupSnoc(records, i);
      i := i + 1;
    }
    assert records[..i] == records;
  }

  /** Two records with different keys form two groups of one record each. */
  lemma GroupOfTwo(r1: Record, r2: Record)
    requires CanonicalKey(r1) != CanonicalKey(r2)
    ensures Group([r1, r2]) == map[CanonicalKey(r1) := [r1], CanonicalKey(r2) := [r2]]
  {
    var rs, k1, k2 := [r1, r2], CanonicalKey(r1), CanonicalKey(r2);
    assert rs[..1] == [r1] && rs[..2] == rs;
    GroupSnoc(rs, 1);
    SingleRecordGroup(r1);
    var g1 := Group([r1]);
    assert Group(rs) == Push(g1, k2, r2);
    PushFresh(g1, k2, r2);
  }

  lemma PushExisting(m: map<string, seq<Record>>, key: string, r: Record)
    requires key in m
    ensures Push(m, key, r) == m[key := m[key] + [r]]
  {
  }

  lemma PushFresh(m: map<string, seq<Record>>, key: string, r: Record)
    requires key !in m
    ensures Push(m, key, r) == m[key := [r]]
  {
    assert [] + [r] == [r];
  }

  lemma GroupSnoc(rs: seq<Record>, i: nat)
    requires i < |rs|
    ensures Group(rs[..i + 1]) == Push(Group(rs[..i]), CanonicalKey(rs[i]), rs[i])
  {
    assert rs[..i + 1][..i] == rs[..i];
  }

  /** Keeps the records filed under `key`. */
  function KeyFilter(key: string): Record -> Option<Record>
  {
    (r: Record) => if CanonicalKey(r) == key then Some(r) else None
  }

  /** The reference definition of a group: the records with that key, in input order. */
  function Select(rs: seq<Record>, key: string): seq<Record>
  {
    FilterMap(rs, KeyFilter(key))
  }

  /** A key is in the map exactly when some record has it, and its group is `Select`. */
  lemma {:induction false} GroupIsSelect(rs: seq<Record>, key: string)
    ensures key in Group(rs) <==> Select(rs, key) != []
    ensures key in Group(rs) ==> Group(rs)[key] == Select(rs, key)
    decreases |rs|
  {
    if rs != [] {
      var init, last := rs[..|rs| - 1], rs[|rs| - 1];
      GroupIsSelect(init, key);
      var kept := Kept(KeyFilter(key)(last));
      assert Select(rs, key) == Select(init, key) + kept;
      assert kept == if CanonicalKey(last) == key then [last] else [];
      PushSelect(Group(init), CanonicalKey(last), last, key, Select(init, key), kept);
    }
  }

  /** One step of `GroupIsSelect`: pushing `r` under `k` extends the group under `key` by what `r` contributes. */
  lemma PushSelect(m: map<string, seq<Record>>, k: string, r: Record, key: string, sel: seq<Record>, kept: seq<Record>)
    requires key in m <==> sel != []
    requires key in m ==> m[key] == sel
    requires kept == if k == key then [r] else []
    ensures key in Push(m, k, r) <==> sel + kept != []
    ensures key in Push(m, k, r) ==> Push(m, k, r)[key] == sel + kept
  {
    if k == key && key !in m {
      assert [] + [r] == sel + kept;
    }
  }

  /** Every key of the map has a non-empty group. */
  lemma GroupsNonEmpty(rs: seq<Record>, key: string)
    requires key in Group(rs)
    ensures |Group(rs)[key]| > 0
  {
    GroupIsSelect(rs, key);
  }

  /**
   * The group under `key` is the in-order subsequence of the records whose key is `key`:
   * `idx` lists input positions, increasing, and every such position is listed.
   */
  lemma GroupIsKeySubsequence(rs: seq<Record>, key: string) returns (idx: seq<nat>)
    requires key in Group(rs)
    ensures |idx| == |Group(rs)[key]| && StrictlyIncreasing(idx)
    ensures forall j :: 0 <= j < |idx| ==> idx[j] < |rs| && Group(rs)[key][j] == rs[idx[j]]
    ensures forall i :: 0 <= i < |rs| && CanonicalKey(rs[i]) == key ==> i in idx
  {
    GroupIsSelect(rs, key);
    idx := FilterMapSubsequence(rs, KeyFilter(key));
    forall j | 0 <= j < |idx|
      ensures Group(rs)[key][j] == rs[idx[j]]
    {
      assert KeyFilter(key)(rs[idx[j]]) == Some(Select(rs, key)[j]);
    }
    forall i | 0 <= i < |rs| && CanonicalKey(rs[i]) == key
      ensures i in idx
    {
      assert KeyFilter(key)(rs[i]).Some?;
    }
  }

  /** Every record of the group under `key` has partition key `key`. */
  lemma GroupMembersShareKey(rs: seq<Record>, key: string, j: int)
    requires key in Group(rs) && 0 <= j < |Group(rs)[key]|
    ensures CanonicalKey(Group(rs)[key][j]) == key
  {
    GroupIsSelect(rs, key);
    var idx := FilterMapSubsequence(rs, KeyFilter(key));
    assert KeyFilter(key)(rs[idx[j]]) == Some(Select(rs, key)[j]);
  }

  /** The number of copies of `r` in `Select(rs, key)`: all of them if its key is `key`, else none. */
  lemma SelectCount(rs: seq<Record>, key: string, r: Record)
    ensures multiset(Select(rs, key))[r] == if CanonicalKey(r) == key then multiset(rs)[r] else 0
  {
    var f := KeyFilter(key);
    forall x
      ensures f(x) == None || f(x) == Some(x)
    {
    }
    FilterMapCount(rs, f, r);
  }

  /**
   * Each record lies in exactly one group: a record is in the group under `key` exactly when
   * it is an input record with that key, and that group holds every copy of it.
   */
  lemma RecordInExactlyOneGroup(rs: seq<Record>, r: Record, key: string)
    ensures (key in Group(rs) && r in Group(rs)[key]) <==> (r in rs && CanonicalKey(r) == key)
    ensures r in rs ==> CanonicalKey(r) in Group(rs) && multiset(Group(rs)[CanonicalKey(r)])[r] == multiset(rs)[r]
  {
    GroupIsSelect(rs, key);
    GroupIsSelect(rs, CanonicalKey(r));
    SelectCount(rs, key, r);
    SelectCount(rs, CanonicalKey(r), r);
  }

  /** The sum of the lengths of the groups of a map. */
  ghost function TotalSize(m: map<string, seq<Record>>): nat
    decreases |m.Keys|
  {
    if m == map[] then 0
    else
      var k :| k in m;
      assert m.Keys == (m - {k}).Keys + {k};
      |m[k]| + TotalSize(m - {k})
  }

  /** `TotalSize` does not depend on which key it takes first. */
  lemma {:induction false} TotalSizeRemove(m: map<string, seq<Record>>, k: string)
    requires k in m
    ensures TotalSize(m) == |m[k]| + TotalSize(m - {k})
    decreases |m.Keys|
  {
    var k' :| k' in m && TotalSize(m) == |m[k']| + TotalSize(m - {k'});
    if k' != k {
      assert m.Keys == (m - {k'}).Keys + {k'};
      assert m.Keys == (m - {k}).Keys + {k};
      TotalSizeRemove(m - {k'}, k);
      TotalSizeRemove(m - {k}, k');
      assert m - {k'} - {k} == m - {k} - {k'};
    }
  }

  lemma TotalSizePush(m: map<string, seq<Record>>, key: string, r: Record)
    ensures TotalSize(Push(m, key, r)) == TotalSize(m) + 1
  {
    var m' := Push(m, key, r);
    TotalSizeRemove(m', key);
    if key in m {
      TotalSizeRemove(m, key);
      assert m' - {key} == m - {key};
    } else {
      assert m' - {key} == m;
    }
  }

  /** Conservation: the group lengths add up to the number of records grouped. */
  lemma {:induction false} GroupConserves(rs: seq<Record>)
    ensures TotalSize(Group(rs)) == |rs|
    decreases |rs|
  {
    if rs != [] {
      var n := |rs| - 1;
      GroupConserves(rs[..n]);
      TotalSizePush(Group(rs[..n]), CanonicalKey(rs[n]), rs[n]);
    }
  }
}

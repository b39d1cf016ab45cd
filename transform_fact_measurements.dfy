// The measurement transform stage. It works on a fixed list of two raw files and
// does not list the store. For each file it takes the sensor id from the file name,
// gathers the records of the file's pages into the running list, tags records with
// the sensor id, normalises the list and prints the frame. It writes nothing and
// archives nothing. As written, the tagging runs over the whole running list, so
// earlier files' records are relabelled (`FactLoop`, `RelabelExample`); the stage
// methods tag only the records each file brought (`FactLoopPerFile`).

module TransformFactMeasurements {
  import opened Values
  import opened Text
  import opened ObjectStore
  import opened TransformUtils
  import opened ExtractUtils
  import Sensor = TransformDimSensor
  import Extract = ExtractMeasurements

  const RawPrefix: string := "raw/measurements"
  const ProcessedPrefix: string := "processed/fact_measurements"

  const ColumnRenameMap: RenameMap := [("period_datetimeFrom_utc", "utc_timestamp")]

  const FinalColumns: seq<string> := ["value", "sensor_id", "parameter_id", "utc_timestamp", "ingest_ts"]

  const DeduplicationSubset: seq<string> := ["sensor_id", "utc_timestamp", "parameter_id"]

  /** The raw keys the stage processes, fixed in place of a listing: the files
      of sensors 3019 and 3018 from the extract of 22 August 2025, written out
      piece by piece (directory, marker, id, extract time). */
  const RawKeys: seq<string> := [
    RawDir + Marker + "3019" + ("_" + Stamp0 + ".json"),
    RawDir + Marker + "3018" + ("_" + Stamp1 + ".json")
  ]

  const TagField: string := "sensor_id"

  // ---------------------------------------------------------------------------
  // The sensor id in a file name: the search `._sensor_(\d+)`, ignoring case

  /** Character `c` matches the lower-case pattern character `p` when case is
      ignored: itself, its ASCII upper-case form, and for `s` also the long s. */
  predicate FoldsTo(c: char, p: char)
  {
    c == p || ('A' <= c <= 'Z' && c as int - 'A' as int + 'a' as int == p as int) || (p == 's' && c == 'ſ')
  }

  const Marker: string := "_sensor_"

  /** The pattern matches at position `p`: a character other than a line break, the
      marker in any case, and at least one digit. */
  predicate MatchAt(s: string, p: int)
  {
    0 <= p && p + 9 < |s| && s[p] != '\n' &&
    (forall k :: 0 <= k < |Marker| ==> FoldsTo(s[p + 1 + k], Marker[k])) &&
    IsDigit(s[p + 9])
  }

  /** The leading run of digits (the greedy `\d+`). */
  function DigitRun(s: string): (d: string)
    ensures |d| <= |s| && d == s[..|d|] && AllDigits(d)
    ensures |d| < |s| ==> !IsDigit(s[|d|])
  {
    if s == [] || !IsDigit(s[0]) then [] else [s[0]] + DigitRun(s[1..])
  }

  function SearchFrom(s: string, from: nat): Option<string>
    decreases |s| - from
  {
    if from + 9 >= |s| then None
    else if MatchAt(s, from) then Some(DigitRun(s[from + 9..]))
    else SearchFrom(s, from + 1)
  }

  /** `re.search(r"._sensor_(\d+)", key, re.IGNORECASE).group(1)`, or None where the
      search finds nothing (the file is then skipped). */
  function SensorIdOf(key: string): Option<string>
  {
    SearchFrom(key, 0)
  }

  predicate FirstMatch(s: string, p: int)
  {
    MatchAt(s, p) && forall q :: 0 <= q < p ==> !MatchAt(s, q)
  }

  lemma {:induction false} SearchFromSpec(s: string, from: nat)
    requires forall q :: 0 <= q < from ==> !MatchAt(s, q)
    ensures SearchFrom(s, from).Some? <==> exists p :: MatchAt(s, p)
    ensures SearchFrom(s, from).Some? ==>
      exists p :: FirstMatch(s, p) && SearchFrom(s, from).value == DigitRun(s[p + 9..])
    decreases |s| - from
  {
    if from + 9 >= |s| {
      assert forall p :: MatchAt(s, p) ==> p < from;
    } else if MatchAt(s, from) {
      assert FirstMatch(s, from);
    } else {
      SearchFromSpec(s, from + 1);
    }
  }

  /** The id is found exactly when the pattern matches somewhere; it is then the
      digit run after the first match, never empty. */
  lemma SensorIdOfSpec(key: string)
    ensures SensorIdOf(key).Some? <==> exists p :: MatchAt(key, p)
    ensures SensorIdOf(key).Some? ==>
      exists p :: FirstMatch(key, p) && SensorIdOf(key).value == DigitRun(key[p + 9..])
    ensures SensorIdOf(key).Some? ==> SensorIdOf(key).value != [] && AllDigits(SensorIdOf(key).value)
  {
    SearchFromSpec(key, 0);
  }

  predicate NoUnderscore(s: string)
  {
    forall i :: 0 <= i < |s| ==> s[i] != '_'
  }

  lemma SearchSkips(s: string, from: nat, p: nat)
    requires from <= p && MatchAt(s, p)
    requires forall q :: from <= q < p ==> !MatchAt(s, q)
    ensures SearchFrom(s, from) == Some(DigitRun(s[p + 9..]))
    decreases p - from
  {
    if from < p {
      SearchSkips(s, from + 1, p);
    }
  }

  lemma DigitRunOf(d: string, rest: string)
    requires AllDigits(d) && rest != [] && !IsDigit(rest[0])
    ensures DigitRun(d + rest) == d
    decreases |d|
  {
    if d != [] {
      assert (d + rest)[1..] == d[1..] + rest;
      DigitRunOf(d[1..], rest);
    }
  }

  /** A name made of a part without underscores, the marker, digits and a part that
      does not start with a digit gives back the digits. */
  lemma SensorIdOfLayout(a: string, d: string, rest: string)
    requires a != [] && NoUnderscore(a) && a[|a| - 1] != '\n'
    requires d != [] && AllDigits(d) && rest != [] && !IsDigit(rest[0])
    ensures SensorIdOf(a + Marker + d + rest) == Some(d)
  {
    var key := a + Marker + d + rest;
    var p := |a| - 1;
    assert key[p] == a[p];
    assert forall k :: 0 <= k < |Marker| ==> key[p + 1 + k] == Marker[k];
    assert key[p + 9..] == d + rest;
    assert MatchAt(key, p);
    forall q | 0 <= q < p ensures !MatchAt(key, q) {
      assert key[q + 1] == a[q + 1];
      assert !FoldsTo(key[q + 1 + 0], Marker[0]);
    }
    DigitRunOf(d, rest);
    SearchSkips(key, 0, p);
  }

  lemma DatePathNoUnderscore(ts: Timestamp)
    ensures NoUnderscore(DatePath(ts))
  {
    forall i | 0 <= i < |DatePath(ts)| ensures DatePath(ts)[i] != '_' {
      assert DatePath(ts)[i] == '/' || IsDigit(DatePath(ts)[i]);
    }
  }

  /** The file the measurement extract writes for sensor `n` gives back `n`: the name
      parser inverts the extract's key layout, the digits it finds denote `n`, and
      files of different sensors give different ids. */
  lemma SensorIdOfUploadedKey(n: nat, ts: Timestamp)
    ensures SensorIdOf(Extract.UploadedKey(JNum(n), ts)) == Some(NatToString(n))
    ensures AllDigits(NatToString(n)) && DigitsValue(NatToString(n)) == n
    ensures forall m: nat, ts' :: SensorIdOf(Extract.UploadedKey(JNum(m), ts')) == SensorIdOf(Extract.UploadedKey(JNum(n), ts)) ==> m == n
  {
    SensorIdOfUploaded(n, ts);
    NatToStringValue(n);
    forall m: nat, ts' | SensorIdOf(Extract.UploadedKey(JNum(m), ts')) == SensorIdOf(Extract.UploadedKey(JNum(n), ts))
      ensures m == n
    {
      SensorIdOfUploaded(m, ts');
      SensorIdOfUploaded(n, ts);
      NatToStringInjective(m, n);
    }
  }

  lemma NoUnderscoreJoin(x: string, y: string)
    requires NoUnderscore(x) && NoUnderscore(y)
    ensures NoUnderscore(x + y)
  {
    forall i | 0 <= i < |x + y| ensures (x + y)[i] != '_' {
      if i >= |x| {
        assert (x + y)[i] == y[i - |x|];
      }
    }
  }

  lemma SensorIdOfUploaded(n: nat, ts: Timestamp)
    ensures SensorIdOf(Extract.UploadedKey(JNum(n), ts)) == Some(NatToString(n))
  {
    UploadedKeyLayout(n, ts);
    MeasurementsDirNoUnderscore(ts);
    TailShape(ts);
    SensorIdOfLayout("raw/measurements/" + DatePath(ts) + "/measurements", NatToString(n), "_" + ts + ".json");
  }

  /** The directory of an extract's measurement files has no underscore and does
      not end in a line break. */
  lemma MeasurementsDirNoUnderscore(ts: Timestamp)
    ensures var a := "raw/measurements/" + DatePath(ts) + "/measurements";
      a != [] && NoUnderscore(a) && a[|a| - 1] != '\n'
  {
    var dp := DatePath(ts);
    DatePathNoUnderscore(ts);
    assert NoUnderscore("raw/measurements/") && NoUnderscore("/measurements");
    NoUnderscoreJoin("raw/measurements/", dp);
    NoUnderscoreJoin("raw/measurements/" + dp, "/measurements");
    var a := "raw/measurements/" + dp + "/measurements";
    assert a[|a| - 1] == 's';
  }

  /** The key the measurement extract writes for sensor `n`, cut where the name
      parser looks: a part without underscores, the marker, the digits, the rest. */
  lemma UploadedKeyLayout(n: nat, ts: Timestamp)
    ensures Extract.UploadedKey(JNum(n), ts) ==
      ("raw/measurements/" + DatePath(ts) + "/measurements") + Marker + NatToString(n) + ("_" + ts + ".json")
  {
  }

  /** The directory part shared by both fixed keys. */
  const RawDir: string := "raw/measurements/2025/08/22/measurements"

  lemma RawDirNoUnderscore()
    ensures NoUnderscore(RawDir) && RawDir[|RawDir| - 1] != '\n'
  {
  }

  /** The extract times written into the two fixed keys. */
  const Stamp0: Timestamp := "20250822174840"
  const Stamp1: Timestamp := "20250822174837"

  lemma DatePathOfStamp0()
    ensures "raw/measurements/" + DatePath(Stamp0) + "/measurements" == RawDir
  {
    assert DatePath(Stamp0) == "2025/08/22";
  }

  /** A timestamp of the same day has the directory of the fixed keys. */
  lemma RawDirOfDate(ts: Timestamp)
    requires ts[..8] == Stamp0[..8]
    ensures "raw/measurements/" + DatePath(ts) + "/measurements" == RawDir
  {
    DatePathOfStamp0();
    assert ts[..4] == ts[..8][..4] && ts[4..6] == ts[..8][4..6] && ts[6..8] == ts[..8][6..8];
    assert Stamp0[..4] == Stamp0[..8][..4] && Stamp0[4..6] == Stamp0[..8][4..6] && Stamp0[6..8] == Stamp0[..8][6..8];
  }

  lemma DigitsOf3019()
    ensures NatToString(3019) == "3019" && NatToString(3018) == "3018"
  {
    assert NatToString(301) == "301";
  }

  /** The tail of a fixed key starts with an underscore. */
  lemma TailShape(ts: Timestamp)
    ensures var rest := "_" + ts + ".json"; rest != [] && !IsDigit(rest[0])
  {
  }

  lemma RawKey0Id()
    ensures SensorIdOf(RawKeys[0]) == Some("3019")
  {
    RawDirNoUnderscore();
    TailShape(Stamp0);
    SensorIdOfLayout(RawDir, "3019", "_" + Stamp0 + ".json");
  }

  lemma RawKey1Id()
    ensures SensorIdOf(RawKeys[1]) == Some("3018")
  {
    RawDirNoUnderscore();
    TailShape(Stamp1);
    SensorIdOfLayout(RawDir, "3018", "_" + Stamp1 + ".json");
  }

  lemma RawKey0FromExtract()
    ensures RawKeys[0] == Extract.UploadedKey(JNum(3019), Stamp0)
  {
    DigitsOf3019();
    UploadedKeyLayout(3019, Stamp0);
    RawDirOfDate(Stamp0);
  }

  /** The second key's time is of the same day as the first's. */
  lemma Stamp1SameDay()
    ensures Stamp1[..8] == Stamp0[..8]
  {
  }

  lemma RawKey1FromExtract()
    ensures RawKeys[1] == Extract.UploadedKey(JNum(3018), Stamp1)
  {
    DigitsOf3019();
    UploadedKeyLayout(3018, Stamp1);
    Stamp1SameDay();
    RawDirOfDate(Stamp1);
  }

  /** The two fixed keys are the files the measurement extract writes for sensors
      3019 and 3018, and the name parser reads those ids back. */
  lemma RawKeysIds()
    ensures RawKeys[0] == Extract.UploadedKey(JNum(3019), Stamp0)
    ensures RawKeys[1] == Extract.UploadedKey(JNum(3018), Stamp1)
    ensures SensorIdOf(RawKeys[0]) == Some("3019") && SensorIdOf(RawKeys[1]) == Some("3018")
  {
    RawKey0FromExtract();
    RawKey1FromExtract();
    RawKey0Id();
    RawKey1Id();
  }

  // ---------------------------------------------------------------------------
  // Tagging records

  /** The value of a record's first field named `name`. */
  function FieldValue(rec: Record, name: string): Option<Json>
  {
    if rec == [] then None else if rec[0].name == name then Some(rec[0].value) else FieldValue(rec[1..], name)
  }

  function FieldNames(rec: Record): seq<string>
  {
    seq(|rec|, i requires 0 <= i < |rec| => rec[i].name)
  }

  /** `record[name] = v`: an existing field keeps its place, a new one goes last. */
  function SetField(rec: Record, name: string, v: Json): Record
  {
    if rec == [] then [Field(name, v)]
    else if rec[0].name == name then [Field(name, v)] + rec[1..]
    else [rec[0]] + SetField(rec[1..], name, v)
  }

  /** After the assignment the field reads `v`, and every other field reads as
      before. */
  lemma {:induction false} SetFieldSpec(rec: Record, name: string, v: Json, other: string)
    ensures FieldValue(SetField(rec, name, v), name) == Some(v)
    ensures other != name ==> FieldValue(SetField(rec, name, v), other) == FieldValue(rec, other)
  {
    if rec != [] {
      SetFieldSpec(rec[1..], name, v, other);
      if rec[0].name != name {
        assert SetField(rec, name, v)[1..] == SetField(rec[1..], name, v);
      } else {
        assert SetField(rec, name, v)[1..] == rec[1..];
      }
    }
  }

  /** The field names are as before, with `name` appended when it was missing. */
  lemma {:induction false} SetFieldNames(rec: Record, name: string, v: Json)
    ensures FieldNames(SetField(rec, name, v)) ==
      if name in FieldNames(rec) then FieldNames(rec) else FieldNames(rec) + [name]
  {
    if rec != [] {
      SetFieldNames(rec[1..], name, v);
      assert FieldNames(rec) == [rec[0].name] + FieldNames(rec[1..]);
      if rec[0].name != name {
        assert FieldNames(SetField(rec, name, v)) == [rec[0].name] + FieldNames(SetField(rec[1..], name, v));
      } else {
        assert FieldNames(SetField(rec, name, v)) == [name] + FieldNames(rec[1..]);
      }
    }
  }

  /** Every record of `records` tagged with the sensor id. */
  function Tagged(records: seq<Record>, id: string): (r: seq<Record>)
    ensures |r| == |records|
  {
    seq(|records|, i requires 0 <= i < |records| => SetField(records[i], TagField, JStr(id)))
  }

  /** `for record in all_records: record["sensor_id"] = sensor_id`, in place. */
  method TagRecords(records: seq<Record>, id: string) returns (r: seq<Record>)
    ensures r == Tagged(records, id)
  {
    r := records;
    for i := 0 to |r|
      invariant |r| == |records|
      invariant forall j :: 0 <= j < i ==> r[j] == SetField(records[j], TagField, JStr(id))
      invariant forall j :: i <= j < |r| ==> r[j] == records[j]
    {
      r := r[i := SetField(r[i], TagField, JStr(id))];
    }
  }

  // ---------------------------------------------------------------------------
  // The stage

  /** How the file loop stands: how it ended so far, the running record list, and
      the frames printed. */
  datatype FactRun = FactRun(out: Outcome<Error>, records: seq<Record>, printed: seq<Table>)

  /** One file: skipped when its name has no sensor id; otherwise its records join the
      running list, the whole list is tagged with this file's id, and the frame of the
      whole list is printed. A file whose pages cannot be read raises. */
  function FactStep(b: Bucket, st: FactRun, key: string, now: int): FactRun
  {
    match SensorIdOf(key)
    case None => st
    case Some(id) =>
      match Sensor.FileRecords(ReadJson(b, key))
      case Err(e) => FactRun(Fail(e), st.records, st.printed)
      case Ok(more) =>
        var all := Tagged(st.records + more, id);
        FactRun(Pass, all, st.printed + [Normalised(all, ColumnRenameMap, DeduplicationSubset, FinalColumns, now)])
  }

  /** The file loop over `keys`, the frame of file `i` stamped `clock(i)`; the first
      error ends it. */
  function FactLoop(b: Bucket, keys: seq<string>, clock: nat -> int): FactRun
  {
    if keys == [] then FactRun(Pass, [], [])
    else
      var st := FactLoop(b, keys[..|keys| - 1], clock);
      if st.out.Fail? then st else FactStep(b, st, keys[|keys| - 1], clock(|keys| - 1))
  }

  /** As written, tagging reaches back: after any file with an id, every record
      gathered so far, from whichever file, carries that file's id. */
  lemma FactStepRelabels(b: Bucket, st: FactRun, key: string, now: int, i: nat)
    requires SensorIdOf(key).Some? && FactStep(b, st, key, now).out.Pass?
    requires i < |FactStep(b, st, key, now).records|
    ensures FieldValue(FactStep(b, st, key, now).records[i], TagField) == Some(JStr(SensorIdOf(key).value))
  {
    var id := SensorIdOf(key).value;
    var more := Sensor.FileRecords(ReadJson(b, key)).value;
    SetFieldSpec((st.records + more)[i], TagField, JStr(id), TagField);
  }

  /** Two files with an id and one record each: both records end up tagged with the
      second file's id. */
  lemma RelabelTwoFiles(b: Bucket, k0: string, k1: string, r0: Record, r1: Record, clock: nat -> int)
    requires SensorIdOf(k0).Some? && SensorIdOf(k1).Some?
    requires Sensor.FileRecords(ReadJson(b, k0)) == Ok([r0]) && Sensor.FileRecords(ReadJson(b, k1)) == Ok([r1])
    ensures var id0 := JStr(SensorIdOf(k0).value);
      var id1 := JStr(SensorIdOf(k1).value);
      FactLoop(b, [k0, k1], clock).out == Pass &&
      FactLoop(b, [k0, k1], clock).records == [SetField(SetField(r0, TagField, id0), TagField, id1), SetField(r1, TagField, id1)]
  {
    var keys := [k0, k1];
    var id1 := SensorIdOf(k1).value;
    assert keys[..1] == [k0];
    var st := FactLoop(b, [k0], clock);
    FirstFileTagged(b, k0, r0, clock);
    TagStep(b, st, k1, r1, clock(1));
    assert FactLoop(b, keys, clock) == FactStep(b, st, k1, clock(1));
    TaggedPair(st.records[0], r1, id1);
    assert st.records + [r1] == [st.records[0], r1];
  }

  /** Tagging two records tags each. */
  lemma TaggedPair(x: Record, y: Record, id: string)
    ensures Tagged([x, y], id) == [SetField(x, TagField, JStr(id)), SetField(y, TagField, JStr(id))]
  {
    var t := Tagged([x, y], id);
    assert t == [t[0], t[1]];
  }

  /** The first file of a run, holding one record, leaves that record tagged. */
  lemma FirstFileTagged(b: Bucket, k0: string, r0: Record, clock: nat -> int)
    requires SensorIdOf(k0).Some? && Sensor.FileRecords(ReadJson(b, k0)) == Ok([r0])
    ensures FactLoop(b, [k0], clock).out == Pass
    ensures FactLoop(b, [k0], clock).records == [SetField(r0, TagField, JStr(SensorIdOf(k0).value))]
  {
    assert [k0][..0] == [];
    var st0 := FactLoop(b, [], clock);
    TagStep(b, st0, k0, r0, clock(0));
    assert FactLoop(b, [k0], clock) == FactStep(b, st0, k0, clock(0));
    assert st0.records + [r0] == [r0];
    var t0 := Tagged([r0], SensorIdOf(k0).value);
    assert t0 == [t0[0]];
  }

  /** A file whose name carries an id and whose content is one record: the run
      passes and every record so far is tagged with that id. */
  lemma TagStep(b: Bucket, st: FactRun, k: string, r: Record, now: int)
    requires SensorIdOf(k).Some? && Sensor.FileRecords(ReadJson(b, k)) == Ok([r])
    ensures FactStep(b, st, k, now).out == Pass
    ensures FactStep(b, st, k, now).records == Tagged(st.records + [r], SensorIdOf(k).value)
  {
  }

  /** A bucket holding the two fixed files, one record each: a reading of 10 in the
      file of sensor 3019, then a reading of 20 in the file of sensor 3018. */
  function ExampleBucket(): Bucket
  {
    Bucket("bucket", map[
      RawKeys[0] := StoredObject(Pages([Page(Some([[Field("value", JNum(10))]]))]), 0),
      RawKeys[1] := StoredObject(Pages([Page(Some([[Field("value", JNum(20))]]))]), 1)], 2, {})
  }

  lemma RawKeysDistinct()
    ensures RawKeys[0] != RawKeys[1]
  {
    RawKey0Id();
    RawKey1Id();
  }

  lemma OnePageRecords(rec: Record)
    ensures Sensor.FileRecords(Some(Pages([Page(Some([rec]))]))) == Ok([rec])
  {
    var ps := [Page(Some([rec]))];
    assert ps[..|ps| - 1] == [];
    assert Sensor.PageRecords(ps[..|ps| - 1]) == [];
    assert Sensor.PageRecords(ps) == [] + [rec] == [rec];
    assert Sensor.FileRecords(Some(Pages(ps))) == Ok(Sensor.PageRecords(ps));
  }

  lemma ExampleFiles()
    ensures Sensor.FileRecords(ReadJson(ExampleBucket(), RawKeys[0])) == Ok([[Field("value", JNum(10))]])
    ensures Sensor.FileRecords(ReadJson(ExampleBucket(), RawKeys[1])) == Ok([[Field("value", JNum(20))]])
  {
    RawKeysDistinct();
    OnePageRecords([Field("value", JNum(10))]);
    OnePageRecords([Field("value", JNum(20))]);
  }

  /** Two files, one record each: after the second file, the first file's record, a
      reading of 10 taken by sensor 3019, is tagged as coming from sensor 3018. */
  lemma RelabelExample(clock: nat -> int)
    ensures var r := FactLoop(ExampleBucket(), RawKeys, clock);
      r.out == Pass && |r.records| == 2 &&
      FieldValue(r.records[0], "value") == Some(JNum(10)) &&
      FieldValue(r.records[0], TagField) == Some(JStr("3018"))
  {
    var rec1 := [Field("value", JNum(10))];
    RawKey0Id();
    RawKey1Id();
    ExampleFiles();
    RelabelTwoFiles(ExampleBucket(), RawKeys[0], RawKeys[1], rec1, [Field("value", JNum(20))], clock);
    assert RawKeys == [RawKeys[0], RawKeys[1]];
    var tagged := SetField(rec1, TagField, JStr("3019"));
    SetFieldSpec(tagged, TagField, JStr("3018"), "value");
    SetFieldSpec(rec1, TagField, JStr("3019"), "value");
  }

  /** The evident intent: tag only the records this file brought, so each record
      carries the id of the file it came from. */
  function FactStepPerFile(b: Bucket, st: FactRun, key: string, now: int): FactRun
  {
    match SensorIdOf(key)
    case None => st
    case Some(id) =>
      match Sensor.FileRecords(ReadJson(b, key))
      case Err(e) => FactRun(Fail(e), st.records, st.printed)
      case Ok(more) =>
        var all := st.records + Tagged(more, id);
        FactRun(Pass, all, st.printed + [Normalised(all, ColumnRenameMap, DeduplicationSubset, FinalColumns, now)])
  }

  function FactLoopPerFile(b: Bucket, keys: seq<string>, clock: nat -> int): FactRun
  {
    if keys == [] then FactRun(Pass, [], [])
    else
      var st := FactLoopPerFile(b, keys[..|keys| - 1], clock);
      if st.out.Fail? then st else FactStepPerFile(b, st, keys[|keys| - 1], clock(|keys| - 1))
  }

  /** Record `x` came from the file at `keys[i]`: that file's name has an id, its pages
      hold a record that `x` is, once tagged with that id. */
  predicate FromFile(b: Bucket, keys: seq<string>, x: Record, i: int)
  {
    0 <= i < |keys| && SensorIdOf(keys[i]).Some? && Sensor.FileRecords(ReadJson(b, keys[i])).Ok? &&
    x in Tagged(Sensor.FileRecords(ReadJson(b, keys[i])).value, SensorIdOf(keys[i]).value)
  }

  /** With per-file tagging every gathered record comes from one of the files and
      carries the id in that file's name. */
  lemma {:induction false} FactLoopPerFileTags(b: Bucket, keys: seq<string>, clock: nat -> int, x: Record)
    requires x in FactLoopPerFile(b, keys, clock).records
    ensures exists i :: FromFile(b, keys, x, i) && FieldValue(x, TagField) == Some(JStr(SensorIdOf(keys[i]).value))
  {
    var init := keys[..|keys| - 1];
    var st := FactLoopPerFile(b, init, clock);
    if x in st.records {
      FactLoopPerFileTags(b, init, clock, x);
      var i :| FromFile(b, init, x, i) && FieldValue(x, TagField) == Some(JStr(SensorIdOf(init[i]).value));
      assert init[i] == keys[i];
      assert FromFile(b, keys, x, i);
    } else {
      var n := |keys| - 1;
      var id := SensorIdOf(keys[n]).value;
      var more := Sensor.FileRecords(ReadJson(b, keys[n])).value;
      assert x in Tagged(more, id);
      var j :| 0 <= j < |more| && x == SetField(more[j], TagField, JStr(id));
      SetFieldSpec(more[j], TagField, JStr(id), TagField);
      assert FromFile(b, keys, x, n);
    }
  }

  /** `main` with per-file tagging: the fixed key list is never empty, so the file
      loop always runs. */
  function FactStage(b: Bucket, clock: nat -> int): FactRun
  {
    if RawKeys == [] then FactRun(Pass, [], []) else FactLoopPerFile(b, RawKeys, clock)
  }

  /** One file of the loop: its records are read, tagged with the id in its name and
      appended, and the frame of the whole list is printed. */
  method ProcessFile(s3: Store, records: seq<Record>, printed: seq<Table>, key: string, now: int)
    returns (out: Outcome<Error>, records': seq<Record>, printed': seq<Table>)
    ensures FactRun(out, records', printed') == FactStepPerFile(s3.State(), FactRun(Pass, records, printed), key, now)
  {
    records', printed' := records, printed;
    var sensorId := SensorIdOf(key);
    if sensorId.None? {
      return Pass, records', printed';
    }
    var fileRecords := Sensor.ExtendWithFile(s3, key, []);
    if fileRecords.Err? {
      return Fail(fileRecords.error), records', printed';
    }
    assert fileRecords.value == Sensor.FileRecords(ReadJson(s3.State(), key)).value;
    var tagged := TagRecords(fileRecords.value, sensorId.value);
    records' := records + tagged;
    var df := TransformRecordsToDf(records', ColumnRenameMap, DeduplicationSubset, FinalColumns, [], now);
    out, printed' := Pass, printed' + [df];
  }

  method TransformStage(s3: Store, clock: nat -> int) returns (out: Outcome<Error>, printed: seq<Table>)
    ensures out == FactStage(s3.State(), clock).out && printed == FactStage(s3.State(), clock).printed
  {
    var rawKeys := RawKeys;
    printed := [];
    if rawKeys == [] {
      return Pass, printed;
    }
    var allRecords: seq<Record> := [];
    out := Pass;
    for i := 0 to |rawKeys|
      invariant FactLoopPerFile(s3.State(), rawKeys[..i], clock) == FactRun(Pass, allRecords, printed)
    {
      assert rawKeys[..i + 1][..i] == rawKeys[..i] && rawKeys[..i + 1][i] == rawKeys[i];
      var o, recs, shown := ProcessFile(s3, allRecords, printed, rawKeys[i], clock(i));
      if o.Fail? {
        FactLoopPerFileStopsAt(s3.State(), rawKeys, clock, i + 1);
        return o, shown;
      }
      allRecords, printed := recs, shown;
    }
    assert rawKeys[..|rawKeys|] == rawKeys;
  }

  /** Once a prefix of the files raises, the later files are never read. */
  lemma {:induction false} FactLoopPerFileStopsAt(b: Bucket, keys: seq<string>, clock: nat -> int, j: nat)
    requires j <= |keys| && FactLoopPerFile(b, keys[..j], clock).out.Fail?
    ensures FactLoopPerFile(b, keys, clock) == FactLoopPerFile(b, keys[..j], clock)
  {
    if |keys| == j {
      assert keys[..j] == keys;
    } else {
      var init := keys[..|keys| - 1];
      assert init[..j] == keys[..j];
      FactLoopPerFileStopsAt(b, init, clock, j);
    }
  }
}

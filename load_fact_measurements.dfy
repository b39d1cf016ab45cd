// The measurement fact load: pick the newest file of the `fact_measurements`
// stage whose URL is `LIKE '%/measurements_%'` and `MERGE` its rows into
// `fact_measurements`, keyed on sensor, timestamp, parameter and location. The
// table is not truncated, and the `COPY INTO` statement the loader also builds is
// never executed.

module LoadFactMeasurements {
  import opened Values
  import opened Text
  import opened ObjectStore
  import opened Warehouse

  const ProcessedPrefix: string := "processed/fact_measurements"

  /** The `LIKE` pattern; its `_` is a wildcard, not an underscore. */
  const NamePattern: string := "%/measurements_%"

  /** A row of `fact_measurements`, its seven columns in order. */
  datatype FactRow = FactRow(dateId: Cell, timeId: Cell, locationId: Cell, sensorId: Cell,
                             parameterId: Cell, timestampUtc: Cell, value: Cell)

  // ---------------------------------------------------------------------------
  // The source of the merge

  /** `(ms / 1000)::INTEGER`: the exact quotient, rounded half away from zero. */
  function MillisToSeconds(ms: int): (s: int)
    ensures -500 <= ms - 1000 * s <= 500
    ensures ms - 1000 * s == 500 ==> ms < 0
    ensures ms - 1000 * s == -500 ==> ms > 0
  {
    if ms >= 0 then (ms + 500) / 1000 else -((-ms + 500) / 1000)
  }

  /** Whole seconds convert exactly, and the conversion is symmetric about zero. */
  lemma MillisToSecondsExact(ms: int)
    ensures ms % 1000 == 0 ==> 1000 * MillisToSeconds(ms) == ms
    ensures MillisToSeconds(-ms) == -MillisToSeconds(ms)
  {
  }

  /** The merge source's `timestamp_utc`: NULL stays NULL, a number of milliseconds
      becomes a timestamp in whole seconds, anything else makes the statement fail. */
  function SecondsCell(c: Cell): Result<Cell, Error>
  {
    match c
    case Null => Ok(Null)
    case Scalar(JNum(ms)) => Ok(Stamp(MillisToSeconds(ms)))
    case Stamp(ms) => Ok(Stamp(MillisToSeconds(ms)))
    case _ => Err(SqlError)
  }

  /** The `USING (SELECT ...)` row for row `i` of the staged file: the sensor and
      parameter come from `openaq_sensor_id` and `openaq_parameter_id`. */
  function SourceRow(t: Table, i: nat): Result<FactRow, Error>
    requires i < |t.rows|
  {
    match SecondsCell(FieldOf(t, i, "utc_timestamp"))
    case Err(e) => Err(e)
    case Ok(ts) =>
      Ok(FactRow(FieldOf(t, i, "date_id"), FieldOf(t, i, "time_id"), FieldOf(t, i, "location_id"),
                 FieldOf(t, i, "openaq_sensor_id"), FieldOf(t, i, "openaq_parameter_id"), ts,
                 FieldOf(t, i, "value")))
  }

  /** The source rows of the first `n` file rows; the first row that cannot be
      converted fails the statement. */
  function SourceRowsUpTo(t: Table, n: nat): (r: Result<seq<FactRow>, Error>)
    requires n <= |t.rows|
    ensures r.Ok? ==> |r.value| == n && forall i :: 0 <= i < n ==> SourceRow(t, i) == Ok(r.value[i])
    ensures r.Err? ==> exists i :: 0 <= i < n && SourceRow(t, i).Err?
  {
    if n == 0 then Ok([])
    else
      match SourceRowsUpTo(t, n - 1)
      case Err(e) => Err(e)
      case Ok(init) =>
        match SourceRow(t, n - 1)
        case Err(e) => Err(e)
        case Ok(row) => Ok(init + [row])
  }

  function SourceRows(t: Table): Result<seq<FactRow>, Error>
  {
    SourceRowsUpTo(t, |t.rows|)
  }

  /** The source column values: NULL fields stay NULL and each value is the file's
      own, the sensor and parameter renamed. */
  lemma SourceRowFields(t: Table, i: nat)
    requires i < |t.rows| && SourceRow(t, i).Ok?
    ensures var r := SourceRow(t, i).value;
      r.sensorId == FieldOf(t, i, "openaq_sensor_id") && r.parameterId == FieldOf(t, i, "openaq_parameter_id") &&
      r.locationId == FieldOf(t, i, "location_id") && r.value == FieldOf(t, i, "value") &&
      (FieldOf(t, i, "utc_timestamp").Null? <==> r.timestampUtc.Null?)
  {
  }

  // ---------------------------------------------------------------------------
  // MERGE

  datatype MergeKey = MergeKey(sensorId: Cell, timestampUtc: Cell, parameterId: Cell, locationId: Cell)

  function KeyOf(r: FactRow): MergeKey
  {
    MergeKey(r.sensorId, r.timestampUtc, r.parameterId, r.locationId)
  }

  /** No part of the key is NULL. */
  predicate Complete(k: MergeKey)
  {
    !k.sensorId.Null? && !k.timestampUtc.Null? && !k.parameterId.Null? && !k.locationId.Null?
  }

  /** The `ON` condition: four equalities, none of which holds for a NULL. */
  predicate KeyMatch(target: FactRow, source: FactRow)
  {
    Complete(KeyOf(target)) && KeyOf(target) == KeyOf(source)
  }

  /** The source rows that match `target`, in source order. */
  function Matching(target: FactRow, source: seq<FactRow>): (m: seq<FactRow>)
    ensures forall x :: x in m <==> x in source && KeyMatch(target, x)
  {
    if source == [] then []
    else (if KeyMatch(target, source[0]) then [source[0]] else []) + Matching(target, source[1..])
  }

  /** No row of `target` matches `x`. */
  predicate MatchesNone(target: seq<FactRow>, x: FactRow)
  {
    forall i :: 0 <= i < |target| ==> !KeyMatch(target[i], x)
  }

  /** The source rows that match no target row, in source order. */
  function Unmatched(target: seq<FactRow>, source: seq<FactRow>): (u: seq<FactRow>)
    ensures forall x :: x in u <==> x in source && MatchesNone(target, x)
  {
    if source == [] then []
    else (if MatchesNone(target, source[0]) then [source[0]] else []) + Unmatched(target, source[1..])
  }

  /** A target row joined by two source rows: a nondeterministic merge, which the
      warehouse refuses by default. */
  predicate Ambiguous(target: seq<FactRow>, source: seq<FactRow>)
  {
    exists i :: 0 <= i < |target| && |Matching(target[i], source)| > 1
  }

  /** `WHEN MATCHED THEN UPDATE SET value = source.value`. */
  function Updated(target: FactRow, source: seq<FactRow>): FactRow
  {
    var m := Matching(target, source);
    if m == [] then target else target.(value := m[0].value)
  }

  /** The `MERGE`: every target row updated by the source row matching it, then every
      unmatched source row inserted with all seven columns. */
  function MergeRows(target: seq<FactRow>, source: seq<FactRow>): Result<seq<FactRow>, Error>
  {
    if Ambiguous(target, source) then Err(SqlError)
    else Ok(seq(|target|, i requires 0 <= i < |target| => Updated(target[i], source)) + Unmatched(target, source))
  }

  /** A refused merge leaves nothing changed; an accepted one keeps every target
      row in place with its date, time and key, changes only the value of a matched
      row, to its one matching source row's value, and appends exactly the source rows
      no target row matches. */
  lemma MergeRowsSpec(target: seq<FactRow>, source: seq<FactRow>)
    ensures MergeRows(target, source).Err? <==>
      exists i :: 0 <= i < |target| && |Matching(target[i], source)| > 1
    ensures MergeRows(target, source).Ok? ==>
      var r := MergeRows(target, source).value;
      |r| >= |target| &&
      (forall i :: 0 <= i < |target| ==>
        r[i].(value := target[i].value) == target[i] &&
        (Matching(target[i], source) == [] ==> r[i] == target[i])) &&
      (forall i :: 0 <= i < |target| && Matching(target[i], source) != [] ==>
        exists s :: s in source && KeyMatch(target[i], s) && r[i].value == s.value) &&
      (forall x :: x in r[|target|..] <==> x in source && MatchesNone(target, x))
  {
    if MergeRows(target, source).Ok? {
      var r := MergeRows(target, source).value;
      forall i | 0 <= i < |target| && Matching(target[i], source) != []
        ensures exists s :: s in source && KeyMatch(target[i], s) && r[i].value == s.value
      {
        assert Matching(target[i], source)[0] in Matching(target[i], source);
      }
      assert r[|target|..] == Unmatched(target, source);
    }
  }

  /** A row of the same key matches the same source rows. */
  lemma MatchingByKey(x: FactRow, y: FactRow, source: seq<FactRow>)
    requires KeyOf(x) == KeyOf(y)
    ensures Matching(x, source) == Matching(y, source)
  {
    if source != [] {
      MatchingByKey(x, y, source[1..]);
    }
  }

  /** No two source rows share a complete key. */
  predicate DistinctKeys(source: seq<FactRow>)
  {
    forall i, j :: 0 <= i < j < |source| ==> !KeyMatch(source[i], source[j])
  }

  /** Every source row has a complete key. */
  predicate AllComplete(source: seq<FactRow>)
  {
    forall i :: 0 <= i < |source| ==> Complete(KeyOf(source[i]))
  }

  /** With distinct keys no target row is joined twice. */
  lemma {:induction false} DistinctKeysMatchOnce(t: FactRow, source: seq<FactRow>)
    requires DistinctKeys(source)
    ensures |Matching(t, source)| <= 1
  {
    if source != [] {
      var tail := source[1..];
      assert DistinctKeys(tail) by {
        forall i, j | 0 <= i < j < |tail| ensures !KeyMatch(tail[i], tail[j]) {
          assert tail[i] == source[i + 1] && tail[j] == source[j + 1];
        }
      }
      DistinctKeysMatchOnce(t, tail);
      if KeyMatch(t, source[0]) {
        forall x | x in tail ensures !KeyMatch(t, x) {
          var j :| 0 <= j < |tail| && tail[j] == x;
          assert !KeyMatch(source[0], source[j + 1]);
        }
        NoneMatching(t, tail);
      }
    }
  }

  lemma {:induction false} NoneMatching(t: FactRow, source: seq<FactRow>)
    requires forall x :: x in source ==> !KeyMatch(t, x)
    ensures Matching(t, source) == []
  {
    if source != [] {
      NoneMatching(t, source[1..]);
    }
  }

  /** With distinct keys the merge is accepted. */
  lemma DistinctKeysAccepted(target: seq<FactRow>, source: seq<FactRow>)
    requires DistinctKeys(source)
    ensures !Ambiguous(target, source)
  {
    forall i | 0 <= i < |target| ensures |Matching(target[i], source)| <= 1 {
      DistinctKeysMatchOnce(target[i], source);
    }
  }

  /** After a merge of rows with complete, distinct keys, updating by the same rows
      again leaves every row as it is. */
  lemma UpdatedStable(target: seq<FactRow>, source: seq<FactRow>)
    requires DistinctKeys(source) && AllComplete(source) && !Ambiguous(target, source)
    ensures var r := MergeRows(target, source).value;
      forall i :: 0 <= i < |r| ==> Updated(r[i], source) == r[i]
  {
    var r := MergeRows(target, source).value;
    var n := |target|;
    var u := Unmatched(target, source);
    forall i | 0 <= i < |r| ensures Updated(r[i], source) == r[i] {
      if i < n {
        assert r[i] == Updated(target[i], source);
        MatchingByKey(r[i], target[i], source);
      } else {
        var x := r[i];
        assert x == u[i - n] && x in u;
        var k :| 0 <= k < |source| && source[k] == x;
        assert KeyMatch(x, x);
        assert x in Matching(x, source);
        DistinctKeysMatchOnce(x, source);
        assert Matching(x, source) == [x];
      }
    }
  }

  /** After a merge of rows with complete keys, every one of those rows matches some
      row of the table. */
  lemma AllSourceMatched(target: seq<FactRow>, source: seq<FactRow>)
    requires AllComplete(source) && !Ambiguous(target, source)
    ensures Unmatched(MergeRows(target, source).value, source) == []
  {
    var r := MergeRows(target, source).value;
    var n := |target|;
    var u := Unmatched(target, source);
    forall s | s in source ensures !MatchesNone(r, s) {
      var k :| 0 <= k < |source| && source[k] == s;
      assert Complete(KeyOf(s));
      if MatchesNone(target, s) {
        assert s in u;
        var j :| 0 <= j < |u| && u[j] == s;
        assert r[n + j] == s && KeyMatch(r[n + j], s);
      } else {
        var i :| 0 <= i < n && KeyMatch(target[i], s);
        assert r[i] == Updated(target[i], source);
        assert KeyOf(r[i]) == KeyOf(target[i]);
        assert KeyMatch(r[i], s);
      }
    }
    if Unmatched(r, source) != [] {
      assert Unmatched(r, source)[0] in Unmatched(r, source);
    }
  }

  /** Merging the same rows a second time changes nothing, when the rows' keys are
      complete and distinct. */
  lemma MergeIdempotent(target: seq<FactRow>, source: seq<FactRow>)
    requires DistinctKeys(source) && AllComplete(source)
    ensures MergeRows(target, source).Ok?
    ensures MergeRows(MergeRows(target, source).value, source) == MergeRows(target, source)
  {
    DistinctKeysAccepted(target, source);
    var r := MergeRows(target, source).value;
    DistinctKeysAccepted(r, source);
    UpdatedStable(target, source);
    AllSourceMatched(target, source);
    var again := seq(|r|, i requires 0 <= i < |r| => Updated(r[i], source));
    assert again == r;
    assert MergeRows(r, source) == Ok(again + Unmatched(r, source));
    assert again + [] == r;
  }

  /** A source row with a NULL in its key never matches, so it is inserted again on
      every merge: merging it twice leaves two copies. */
  lemma NullKeyInsertedAgain(target: seq<FactRow>, s: FactRow)
    requires !Complete(KeyOf(s))
    ensures MergeRows(target, [s]) == Ok(target + [s])
    ensures MergeRows(target + [s], [s]) == Ok(target + [s, s])
  {
    forall t: FactRow ensures Matching(t, [s]) == [] {
      assert !KeyMatch(t, s);
    }
    assert Unmatched(target, [s]) == [s] && Unmatched(target + [s], [s]) == [s];
    assert seq(|target|, i requires 0 <= i < |target| => Updated(target[i], [s])) == target;
    var t2 := target + [s];
    assert seq(|t2|, i requires 0 <= i < |t2| => Updated(t2[i], [s])) == t2;
    assert t2 + [s] == target + [s, s];
  }

  // ---------------------------------------------------------------------------
  // The load

  /** The name contains `/measurements` with at least one character after it. */
  predicate NamesMeasurements(name: string)
  {
    exists i :: 0 <= i < |name| && OccursAt(name, "/measurements", i) && i + 13 < |name|
  }

  lemma NamePatternMeaning(name: string)
    ensures Like(name, NamePattern) <==> NamesMeasurements(name)
  {
    assert NamePattern == "%" + "/measurements" + "_%";
    LikeContainsFollowed(name, "/measurements");
  }

  /** How the fact load ends: the table afterwards and the error it printed, if any. */
  datatype FactLoadRun = FactLoadRun(rows: seq<FactRow>, failure: Option<Error>)

  /** Connect; list the stage; pick the newest matching file (`fetchone()[0]` raising
      TypeError when none matches); merge it from `@stage/<key>`. Every error is
      caught and printed, and a failed statement changes nothing. */
  function FactLoad(target: seq<FactRow>, conn: Outcome<Error>, b: Bucket, files: seq<StageFile>): FactLoadRun
  {
    if conn.Fail? then FactLoadRun(target, Some(conn.error))
    else
      match NewestKey(files, b.name, ProcessedPrefix, Some(NamePattern))
      case None => FactLoadRun(target, Some(TypeError))
      case Some(key) =>
        match StagedTable(b, StagedKey(ProcessedPrefix, key))
        case Err(e) => FactLoadRun(target, Some(e))
        case Ok(t) =>
          match SourceRows(t)
          case Err(e) => FactLoadRun(target, Some(e))
          case Ok(src) =>
            match MergeRows(target, src)
            case Err(e) => FactLoadRun(target, Some(e))
            case Ok(r) => FactLoadRun(r, None)
  }

  /** The rows the load would merge: those of the newest matching file. */
  function ChosenSource(b: Bucket, files: seq<StageFile>): Option<seq<FactRow>>
  {
    match NewestKey(files, b.name, ProcessedPrefix, Some(NamePattern))
    case None => None
    case Some(key) =>
      match StagedTable(b, StagedKey(ProcessedPrefix, key))
      case Err(_) => None
      case Ok(t) => if SourceRows(t).Ok? then Some(SourceRows(t).value) else None
  }

  /** Nothing is truncated: whatever happens, every row already in the table stays at
      its place with its date, time and key, and only its value may change. */
  lemma FactLoadKeepsRows(target: seq<FactRow>, conn: Outcome<Error>, b: Bucket, files: seq<StageFile>)
    ensures var r := FactLoad(target, conn, b, files).rows;
      |r| >= |target| && forall i :: 0 <= i < |target| ==> r[i].(value := target[i].value) == target[i]
    ensures FactLoad(target, conn, b, files).failure.Some? ==> FactLoad(target, conn, b, files).rows == target
  {
    var src := ChosenSource(b, files);
    if conn.Pass? && src.Some? {
      MergeRowsSpec(target, src.value);
    }
  }

  /** Running the load twice over the same stage leaves the table as one run does,
      when the chosen file's rows have complete, distinct keys. */
  lemma FactLoadTwice(target: seq<FactRow>, b: Bucket, files: seq<StageFile>)
    requires ChosenSource(b, files).Some? ==>
      DistinctKeys(ChosenSource(b, files).value) && AllComplete(ChosenSource(b, files).value)
    ensures var once := FactLoad(target, Pass, b, files);
      FactLoad(once.rows, Pass, b, files) == once
  {
    var src := ChosenSource(b, files);
    if src.Some? {
      MergeIdempotent(target, src.value);
    }
  }

  /** The fact table of the warehouse. */
  class FactTable {
    var rows: seq<FactRow>

    constructor (rows0: seq<FactRow>)
      ensures rows == rows0
    {
      rows := rows0;
    }

    /** `MERGE INTO fact_measurements ... USING @stage/<key>`. */
    method MergeFile(b: Bucket, key: string) returns (out: Outcome<Error>)
      modifies this
      ensures var t := StagedTable(b, StagedKey(ProcessedPrefix, key));
        if t.Err? then out == Fail(t.error) && rows == old(rows)
        else if SourceRows(t.value).Err? then out == Fail(SourceRows(t.value).error) && rows == old(rows)
        else
          var m := MergeRows(old(rows), SourceRows(t.value).value);
          if m.Err? then out == Fail(m.error) && rows == old(rows) else out == Pass && rows == m.value
    {
      var t := StagedTable(b, StagedKey(ProcessedPrefix, key));
      if t.Err? {
        return Fail(t.error);
      }
      var src := SourceRows(t.value);
      if src.Err? {
        return Fail(src.error);
      }
      var m := MergeRows(rows, src.value);
      if m.Err? {
        return Fail(m.error);
      }
      rows := m.value;
      out := Pass;
    }
  }

  /** `load_fact_measurements`. */
  method LoadFactMeasurements(table: FactTable, conn: Outcome<Error>, b: Bucket, files: seq<StageFile>)
    returns (failure: Option<Error>)
    modifies table
    ensures FactLoadRun(table.rows, failure) == FactLoad(old(table.rows), conn, b, files)
  {
    if conn.Fail? {
      return Some(conn.error);
    }
    var key := NewestKey(files, b.name, ProcessedPrefix, Some(NamePattern));
    if key.None? {
      return Some(TypeError);
    }
    var out := table.MergeFile(b, key.value);
    failure := if out.Fail? then Some(out.error) else None;
  }
}

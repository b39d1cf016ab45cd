// The sensor transform stage: load the newest sensor-to-location map, gather the
// records of every raw sensor file's pages, normalise them into one table, add each
// sensor's location by a left join, upload the table as Parquet, then archive the
// raw files. Nothing here swallows an error: the first one ends the stage.

module TransformDimSensor {
  import opened Values
  import opened Text
  import opened ObjectStore
  import opened TransformUtils
  import opened ExtractUtils
  import Loc = TransformDimLocation

  const RawPrefix: string := "raw/sensors"
  const ProcessedPrefix: string := "processed/dim_sensor"
  const ProcessedLocationPrefix: string := "processed/dim_location"
  const MapPattern: string := "sensor_to_location_map"
  const IdColumn: string := "openaq_sensor_id"
  const LocationColumn: string := "location_id"

  const ColumnRenameMap: RenameMap := [
    ("id", "openaq_sensor_id"),
    ("name", "sensor_name"),
    ("parameter_id", "parameter_id"),
    ("location_id", "location_id")
  ]

  /** Column names and their declared types; the location column is joined later. */
  const FinalSchema: seq<(string, string)> := [
    (ColumnRenameMap[0].1, "Int64"),
    (ColumnRenameMap[1].1, "string"),
    (ColumnRenameMap[2].1, "Int64"),
    ("ingest_ts", "datetime64[ns, UTC]")
  ]

  /** The schema's keys, in order. */
  const FinalColumns: seq<string> := MapKeys(FinalSchema)

  const DeduplicationSubset: seq<string> := [IdColumn]

  // ---------------------------------------------------------------------------
  // The location map

  /** A sensor id mapped to its location id, or to null. */
  type LocationMap = map<int, Option<int>>

  /** `sensor_location_map[0]` and its conversion to a two-column integer frame: a
      missing document cannot be indexed, an empty list has no first element, a
      first element that is not an object has no items, and the keys of a page
      object are not integers. */
  function LocationMapOf(doc: Option<Doc>): Result<LocationMap, Error>
  {
    match doc
    case None => Err(TypeError)
    case Some(LocationMaps(ms)) => if ms == [] then Err(IndexError) else Ok(ms[0])
    case Some(Pages(ps)) => if ps == [] then Err(IndexError) else Err(ValueError)
    case Some(IdList(ids)) => if ids == [] then Err(IndexError) else Err(AttributeError)
    case Some(Parquet(_)) => Err(TypeError)
  }

  /** The map document: the newest key under the location prefix whose name holds
      the map pattern, read as JSON; None when there is no such key (reading with
      no key is refused and reported as None). */
  function MapDocument(b: Bucket, listing: Listing): Option<Doc>
  {
    match LatestKey(listing, MapPattern)
    case None => None
    case Some(key) => ReadJson(b, key)
  }

  // ---------------------------------------------------------------------------
  // Gathering the records

  /** The records of a page list: every page's `results`, in order, skipping pages
      whose `results` is missing or empty. */
  function PageRecords(pages: seq<Page>): seq<Record>
  {
    if pages == [] then []
    else
      var init := PageRecords(pages[..|pages| - 1]);
      var r := pages[|pages| - 1].results;
      if r.Some? && r.value != [] then init + r.value else init
  }

  /** `for page in sensor: page.get("results")` over one file: iterating a missing
      document raises, and so does `.get` on an element that is not an object; the
      objects of a map document have no `results` key. */
  function FileRecords(doc: Option<Doc>): Result<seq<Record>, Error>
  {
    match doc
    case None => Err(TypeError)
    case Some(Pages(ps)) => Ok(PageRecords(ps))
    case Some(LocationMaps(_)) => Ok([])
    case Some(IdList(ids)) => if ids == [] then Ok([]) else Err(AttributeError)
    case Some(Parquet(_)) => Err(TypeError)
  }

  /** The records of the files at `keys`, in key order; the first file that raises
      ends the gathering with its error. */
  function CollectRecords(b: Bucket, keys: seq<string>): Result<seq<Record>, Error>
  {
    if keys == [] then Ok([])
    else
      match CollectRecords(b, keys[..|keys| - 1])
      case Err(e) => Err(e)
      case Ok(rs) =>
        match FileRecords(ReadJson(b, keys[|keys| - 1]))
        case Err(e) => Err(e)
        case Ok(more) => Ok(rs + more)
  }

  /** A record is gathered from a page list exactly when some page's `results` holds
      it: skipping empty result lists loses nothing. */
  lemma {:induction false} PageRecordsMembers(pages: seq<Page>, x: Record)
    ensures x in PageRecords(pages) <==>
      exists j :: 0 <= j < |pages| && pages[j].results.Some? && x in pages[j].results.value
  {
    if pages != [] {
      var init := pages[..|pages| - 1];
      PageRecordsMembers(init, x);
      assert forall j :: 0 <= j < |init| ==> init[j] == pages[j];
      if exists j :: 0 <= j < |pages| && pages[j].results.Some? && x in pages[j].results.value {
        var j :| 0 <= j < |pages| && pages[j].results.Some? && x in pages[j].results.value;
        if j < |init| {
          assert init[j].results.Some? && x in init[j].results.value;
        }
      }
    }
  }

  /** The first file whose records cannot be gathered. */
  predicate FailsAt(b: Bucket, keys: seq<string>, i: int)
  {
    0 <= i < |keys| && FileRecords(ReadJson(b, keys[i])).Err? &&
    forall j :: 0 <= j < i ==> FileRecords(ReadJson(b, keys[j])).Ok?
  }

  /** A record is one of a file's records. */
  predicate FromSomeFile(b: Bucket, keys: seq<string>, x: Record)
  {
    exists i :: 0 <= i < |keys| && FileRecords(ReadJson(b, keys[i])).Ok? &&
      x in FileRecords(ReadJson(b, keys[i])).value
  }

  /** Gathering succeeds exactly when every file's records can be gathered, and then
      holds exactly the records of the files; when it fails, it fails with the error
      of the first file that raises. */
  lemma {:induction false} CollectRecordsSpec(b: Bucket, keys: seq<string>, x: Record)
    ensures CollectRecords(b, keys).Ok? <==> forall i :: 0 <= i < |keys| ==> FileRecords(ReadJson(b, keys[i])).Ok?
    ensures CollectRecords(b, keys).Ok? ==> (x in CollectRecords(b, keys).value <==> FromSomeFile(b, keys, x))
    ensures CollectRecords(b, keys).Err? ==>
      exists i :: FailsAt(b, keys, i) && FileRecords(ReadJson(b, keys[i])).error == CollectRecords(b, keys).error
  {
    if keys != [] {
      var init := keys[..|keys| - 1];
      var n := |keys| - 1;
      CollectRecordsSpec(b, init, x);
      assert forall i :: 0 <= i < |init| ==> init[i] == keys[i];
      var last := FileRecords(ReadJson(b, keys[n]));
      if CollectRecords(b, init).Err? {
        var i :| FailsAt(b, init, i) && FileRecords(ReadJson(b, init[i])).error == CollectRecords(b, init).error;
        assert FailsAt(b, keys, i);
      } else if last.Err? {
        assert FailsAt(b, keys, n);
      } else {
        if FromSomeFile(b, keys, x) {
          var i :| 0 <= i < |keys| && FileRecords(ReadJson(b, keys[i])).Ok? &&
            x in FileRecords(ReadJson(b, keys[i])).value;
          if i < n {
            assert FromSomeFile(b, init, x);
          }
        }
        if FromSomeFile(b, init, x) {
          var i :| 0 <= i < |init| && FileRecords(ReadJson(b, init[i])).Ok? &&
            x in FileRecords(ReadJson(b, init[i])).value;
          assert keys[i] == init[i];
        }
      }
    }
  }

  /** Once a prefix of the files raises, the later files are never read. */
  lemma {:induction false} CollectRecordsStopsAt(b: Bucket, keys: seq<string>, j: nat)
    requires j <= |keys| && CollectRecords(b, keys[..j]).Err?
    ensures CollectRecords(b, keys) == CollectRecords(b, keys[..j])
  {
    if |keys| == j {
      assert keys[..j] == keys;
    } else {
      var init := keys[..|keys| - 1];
      assert init[..j] == keys[..j];
      CollectRecordsStopsAt(b, init, j);
    }
  }

  // ---------------------------------------------------------------------------
  // The location join

  /** The location of the sensor whose id is in `id`; null when the id is not an
      integer the map knows or the map gives no location. */
  function LocationOf(m: LocationMap, id: Cell): Cell
  {
    match id
    case Scalar(JNum(n)) => if n in m && m[n].Some? then Scalar(JNum(m[n].value)) else Null
    case _ => Null
  }

  /** `merge(sensors, locations, on=IdColumn, how="left")`: every row of the left
      frame once, in order, with the location column appended; the map's keys are
      distinct, so no row is repeated. A frame without the id column raises. */
  function LeftJoin(t: Table, m: LocationMap): Result<Table, Error>
  {
    if IdColumn !in t.columns then Err(KeyError)
    else
      var ids := Loc.ColumnOrNulls(t, IdColumn);
      Ok(Table(t.columns + [LocationColumn],
        seq(|t.rows|, i requires 0 <= i < |t.rows| => t.rows[i] + [LocationOf(m, ids[i])])))
  }

  /** The join keeps every row and every cell of the frame, and a row's location is
      set exactly when its sensor id is an integer the map sends to a location,
      which is then the location. */
  lemma LeftJoinSpec(t: Table, m: LocationMap)
    requires WellFormed(t) && IdColumn in t.columns && LocationColumn !in t.columns
    ensures LeftJoin(t, m).Ok?
    ensures var r := LeftJoin(t, m).value;
      WellFormed(r) && r.columns == t.columns + [LocationColumn] && |r.rows| == |t.rows|
    ensures var r := LeftJoin(t, m).value;
      forall i, c :: 0 <= i < |t.rows| && c in t.columns ==> CellAt(r, i, c) == CellAt(t, i, c)
    ensures var r := LeftJoin(t, m).value;
      forall i :: 0 <= i < |t.rows| ==>
        (CellAt(r, i, LocationColumn) != Null <==>
          CellAt(t, i, IdColumn).Scalar? && CellAt(t, i, IdColumn).v.JNum? &&
          CellAt(t, i, IdColumn).v.n in m && m[CellAt(t, i, IdColumn).v.n].Some?)
    ensures var r := LeftJoin(t, m).value;
      forall i :: 0 <= i < |t.rows| && CellAt(r, i, LocationColumn) != Null ==>
        CellAt(r, i, LocationColumn) == Scalar(JNum(m[CellAt(t, i, IdColumn).v.n].value))
  {
    var r := LeftJoin(t, m).value;
    forall i, c | 0 <= i < |t.rows| && c in t.columns ensures CellAt(r, i, c) == CellAt(t, i, c) {
      IndexOfPrefix(r.columns, t.columns, c);
    }
    forall i | 0 <= i < |t.rows|
      ensures CellAt(r, i, LocationColumn) == LocationOf(m, CellAt(t, i, IdColumn))
    {
      assert IndexOf(r.columns, LocationColumn) == |t.columns|;
    }
  }

  // ---------------------------------------------------------------------------
  // The archive loop

  /** Archiving every key in order with nothing caught: the first failure ends the
      loop with its error. */
  function ArchiveAll(b: Bucket, keys: seq<string>): Effect
  {
    if keys == [] then Effect(b, Pass)
    else
      var init := ArchiveAll(b, keys[..|keys| - 1]);
      if init.out.Fail? then init else Archive(init.state, keys[|keys| - 1])
  }

  /** A key that is neither a listed key nor the archive key of one is never touched,
      and the bucket's name and refusals stay as they were. */
  lemma {:induction false} ArchiveAllFrame(b: Bucket, keys: seq<string>, k: string)
    requires forall i :: 0 <= i < |keys| ==> k != keys[i] && k != ArchiveKey(keys[i])
    ensures var e := ArchiveAll(b, keys);
      (k in e.state.objects <==> k in b.objects) && (k in b.objects ==> e.state.objects[k] == b.objects[k])
    ensures ArchiveAll(b, keys).state.name == b.name && ArchiveAll(b, keys).state.denied == b.denied
  {
    if keys != [] {
      var init := keys[..|keys| - 1];
      assert forall i :: 0 <= i < |init| ==> init[i] == keys[i];
      ArchiveAllFrame(b, init, k);
      var e0 := ArchiveAll(b, init);
      if e0.out.Pass? {
        ArchiveMoves(e0.state, keys[|keys| - 1]);
      }
    }
  }

  /** On distinct raw keys, the loop passes exactly when every key was movable at the
      start, and then every key is moved with its content. */
  lemma {:induction false} ArchiveAllSpec(b: Bucket, keys: seq<string>, k: string)
    requires Loc.AllRaw(keys) && NoDuplicates(keys)
    ensures ArchiveAll(b, keys).out.Pass? <==> forall i :: 0 <= i < |keys| ==> Loc.Movable(b, keys[i])
    ensures var e := ArchiveAll(b, keys);
      e.out.Pass? && k in keys ==>
        k !in e.state.objects && ArchiveKey(k) in e.state.objects && e.state.objects[ArchiveKey(k)].doc == b.objects[k].doc
  {
    if keys != [] {
      var init := keys[..|keys| - 1];
      var last := keys[|keys| - 1];
      assert forall i :: 0 <= i < |init| ==> init[i] == keys[i];
      ArchiveAllSpec(b, init, k);
      var e0 := ArchiveAll(b, init);
      if e0.out.Pass? {
        forall i | 0 <= i < |init| ensures last != init[i] && last != ArchiveKey(init[i]) {
          Loc.RawArchiveKey(init[i]);
        }
        ArchiveAllFrame(b, init, last);
        LastArchive(b, e0.state, last);
        if k in init && ArchiveAll(b, keys).out.Pass? {
          Loc.MovedStaysMoved(e0.state, last, k, b.objects[k].doc);
        }
      }
    }
  }


  /** Archiving a raw key from a state that holds it as `b` did, under the same name
      and refusals: it passes exactly when the key was movable in `b`, and moves it. */
  lemma LastArchive(b: Bucket, s: Bucket, k: string)
    requires StartsWith(k, "raw/")
    requires s.name == b.name && s.denied == b.denied
    requires (k in s.objects <==> k in b.objects) && (k in b.objects ==> s.objects[k] == b.objects[k])
    ensures Archive(s, k).out.Pass? <==> Loc.Movable(b, k)
    ensures Archive(s, k).out.Pass? ==>
      var r := Archive(s, k).state;
      k !in r.objects && ArchiveKey(k) in r.objects && r.objects[ArchiveKey(k)].doc == b.objects[k].doc
  {
    ArchiveMoves(s, k);
    assert Contains(k, "raw/") by { assert OccursAt(k, "raw/", 0); }
  }

  /** The loop stops at the first key whose archive fails: the keys after it are
      never attempted. */
  lemma {:induction false} ArchiveAllStopsAt(b: Bucket, keys: seq<string>, j: nat)
    requires j < |keys|
    requires ArchiveAll(b, keys[..j]).out.Pass? && Archive(ArchiveAll(b, keys[..j]).state, keys[j]).out.Fail?
    ensures ArchiveAll(b, keys) == Archive(ArchiveAll(b, keys[..j]).state, keys[j])
  {
    if |keys| == j + 1 {
      assert keys[..|keys| - 1] == keys[..j];
    } else {
      var init := keys[..|keys| - 1];
      assert init[..j] == keys[..j] && init[j] == keys[j];
      ArchiveAllStopsAt(b, init, j);
    }
  }

  // ---------------------------------------------------------------------------
  // The stage

  /** The key of the sensor table: under `processed/dim_sensor`, named `sensors_`,
      the timestamp and `.parquet`. */
  function SensorsKey(ts: Timestamp): string
  {
    CreateS3Key(ProcessedPrefix, "sensors", ".parquet", ts)
  }

  /** The frame `transform_records_to_df` makes of the gathered records, with the
      location column joined. */
  function SensorTable(records: seq<Record>, m: LocationMap, now: int): Result<Table, Error>
  {
    LeftJoin(Normalised(records, ColumnRenameMap, DeduplicationSubset, FinalColumns, now), m)
  }

  /** `main`: the map must load and the raw keys be listed; no raw key or no record
      ends the stage; otherwise the table is built and put, and only then are the raw
      files archived. The first error ends the stage. */
  function SensorRun(b: Bucket, mapListing: Listing, rawListing: Listing, now: int, ts: Timestamp): Loc.StageRun
  {
    match LocationMapOf(MapDocument(b, mapListing))
    case Err(e) => Loc.StageRun(Fail(e), b)
    case Ok(m) =>
      match rawListing
      case ListFailed(e) => Loc.StageRun(Fail(e), b)
      case Listed(pages) =>
        var keys := KeysOf(Concat(pages));
        if keys == [] then Loc.StageRun(Pass, b)
        else
          match CollectRecords(b, keys)
          case Err(e) => Loc.StageRun(Fail(e), b)
          case Ok(records) =>
            if records == [] then Loc.StageRun(Pass, b)
            else
              match SensorTable(records, m, now)
              case Err(e) => Loc.StageRun(Fail(e), b)
              case Ok(table) =>
                var put := PutObject(b, SensorsKey(ts), Parquet(table));
                if put.out.Fail? then Loc.StageRun(put.out, put.state)
                else
                  var archived := ArchiveAll(put.state, keys);
                  Loc.StageRun(archived.out, archived.state)
  }

  /** `raw/sensors` is listed as `raw/sensors/`, a `raw/` prefix. */
  lemma ListPrefixSensors()
    ensures ListPrefix(RawPrefix) == "raw/sensors/" && StartsWith(ListPrefix(RawPrefix), "raw/")
  {
    assert RStrip(RawPrefix, '/') == RawPrefix;
  }

  /** The table key lies under the processed prefix, clear of every raw key and every
      archive key. */
  lemma SensorsKeyPlace(ts: Timestamp)
    ensures StartsWith(SensorsKey(ts), ProcessedPrefix + "/")
    ensures !StartsWith(SensorsKey(ts), "raw/") && !StartsWith(SensorsKey(ts), "archive/")
  {
    var key := SensorsKey(ts);
    assert RStrip(ProcessedPrefix, '/') == ProcessedPrefix;
    assert key == ProcessedPrefix + "/" + (DatePath(ts) + "/" + "sensors" + "_" + ts + ".parquet");
    assert key[0] == 'p';
  }

  lemma FinalColumnsValue()
    ensures FinalColumns == ["openaq_sensor_id", "sensor_name", "parameter_id", "ingest_ts"]
    ensures NoDuplicates(FinalColumns)
  {
  }

  /** Records gathered, the normalised frame has exactly the final columns, one row
      per row kept by deduplication, all stamped `now`. */
  lemma SensorFrameShape(records: seq<Record>, now: int)
    requires records != []
    ensures var t := Normalised(records, ColumnRenameMap, DeduplicationSubset, FinalColumns, now);
      WellFormed(t) && t.columns == FinalColumns &&
      |t.rows| == |Deduplicated(Renamed(records, ColumnRenameMap), DeduplicationSubset).rows| &&
      forall i :: 0 <= i < |t.rows| ==> CellAt(t, i, "ingest_ts") == Stamp(now)
  {
    FinalColumnsValue();
    NormalisedShape(records, ColumnRenameMap, DeduplicationSubset, FinalColumns, now);
    DistinctOfDistinct(FinalColumns);
  }

  /** Records gathered, the table has the final columns and then the location column,
      one row per row kept by deduplication, all stamped `now`. */
  lemma SensorTableShape(records: seq<Record>, m: LocationMap, now: int)
    requires records != []
    ensures SensorTable(records, m, now).Ok?
    ensures var r := SensorTable(records, m, now).value;
      WellFormed(r) && r.columns == FinalColumns + [LocationColumn] &&
      |r.rows| == |Deduplicated(Renamed(records, ColumnRenameMap), DeduplicationSubset).rows|
    ensures var r := SensorTable(records, m, now).value;
      forall i :: 0 <= i < |r.rows| ==> CellAt(r, i, "ingest_ts") == Stamp(now)
  {
    var t := Normalised(records, ColumnRenameMap, DeduplicationSubset, FinalColumns, now);
    SensorFrameShape(records, now);
    FinalColumnsValue();
    assert IdColumn in t.columns && LocationColumn !in t.columns && "ingest_ts" in t.columns;
    LeftJoinSpec(t, m);
  }

  /** Every step up to the put of the table passed. */
  predicate TableWritten(b: Bucket, mapListing: Listing, rawListing: Listing, now: int, ts: Timestamp)
  {
    LocationMapOf(MapDocument(b, mapListing)).Ok? && rawListing.Listed? &&
    var keys := KeysOf(Concat(rawListing.pages));
    keys != [] && CollectRecords(b, keys).Ok? && CollectRecords(b, keys).value != [] &&
    var table := SensorTable(CollectRecords(b, keys).value, LocationMapOf(MapDocument(b, mapListing)).value, now);
    table.Ok? && PutObject(b, SensorsKey(ts), Parquet(table.value)).out.Pass?
  }

  /** Until the table is written the store is as the stage found it: archiving only
      ever follows a successful put. */
  lemma SensorRunNotWritten(b: Bucket, mapListing: Listing, rawListing: Listing, now: int, ts: Timestamp)
    requires !TableWritten(b, mapListing, rawListing, now, ts)
    ensures SensorRun(b, mapListing, rawListing, now, ts).state == b
  {
    if LocationMapOf(MapDocument(b, mapListing)).Ok? && rawListing.Listed? {
      var keys := KeysOf(Concat(rawListing.pages));
      if keys != [] && CollectRecords(b, keys).Ok? && CollectRecords(b, keys).value != [] {
        SensorTableShape(CollectRecords(b, keys).value, LocationMapOf(MapDocument(b, mapListing)).value, now);
      }
    }
  }

  /** Once the table is written it survives the archive loop; the stage passes exactly
      when every listed raw file was movable, and then all of them are archived with
      their content. */
  lemma SensorRunWritten(b: Bucket, mapListing: Listing, rawListing: Listing, now: int, ts: Timestamp, k: string)
    requires ListingOf(b, ListPrefix(RawPrefix), rawListing)
    requires TableWritten(b, mapListing, rawListing, now, ts)
    ensures var keys := KeysOf(Concat(rawListing.pages));
      var records := CollectRecords(b, keys).value;
      var table := SensorTable(records, LocationMapOf(MapDocument(b, mapListing)).value, now).value;
      var r := SensorRun(b, mapListing, rawListing, now, ts);
      SensorsKey(ts) in r.state.objects && r.state.objects[SensorsKey(ts)].doc == Parquet(table)
    ensures var keys := KeysOf(Concat(rawListing.pages));
      SensorRun(b, mapListing, rawListing, now, ts).out.Pass? <==>
        forall i :: 0 <= i < |keys| ==> Loc.Movable(b, keys[i])
    ensures var keys := KeysOf(Concat(rawListing.pages));
      var r := SensorRun(b, mapListing, rawListing, now, ts);
      r.out.Pass? && k in keys ==>
        k !in r.state.objects && ArchiveKey(k) in r.state.objects &&
        r.state.objects[ArchiveKey(k)].doc == b.objects[k].doc
  {
    var keys := KeysOf(Concat(rawListing.pages));
    var records := CollectRecords(b, keys).value;
    var table := SensorTable(records, LocationMapOf(MapDocument(b, mapListing)).value, now).value;
    SensorRunIsPutThenArchive(b, mapListing, rawListing, now, ts);
    ListPrefixSensors();
    Loc.ListedRawKeys(b, ListPrefix(RawPrefix), rawListing);
    WrittenTableSurvives(b, keys, Parquet(table), ts);
    SensorsKeyNotRaw(ts, keys);
    PutThenArchive(b, SensorsKey(ts), Parquet(table), keys, k);
  }

  /** With the table written, the stage ends as the archive loop after the put. */
  lemma SensorRunIsPutThenArchive(b: Bucket, mapListing: Listing, rawListing: Listing, now: int, ts: Timestamp)
    requires TableWritten(b, mapListing, rawListing, now, ts)
    ensures var keys := KeysOf(Concat(rawListing.pages));
      var records := CollectRecords(b, keys).value;
      var table := SensorTable(records, LocationMapOf(MapDocument(b, mapListing)).value, now).value;
      var e := ArchiveAll(PutObject(b, SensorsKey(ts), Parquet(table)).state, keys);
      SensorRun(b, mapListing, rawListing, now, ts) == Loc.StageRun(e.out, e.state)
  {
  }

  lemma SensorsKeyNotRaw(ts: Timestamp, keys: seq<string>)
    requires Loc.AllRaw(keys)
    ensures SensorsKey(ts) !in keys
  {
    SensorsKeyPlace(ts);
    forall i | 0 <= i < |keys| ensures keys[i] != SensorsKey(ts) {
      assert keys[i][0] == 'r' && SensorsKey(ts)[0] == 'p';
    }
  }

  /** After the put, the archive loop over distinct raw keys keeps the table. */
  lemma WrittenTableSurvives(b: Bucket, keys: seq<string>, doc: Doc, ts: Timestamp)
    requires Loc.AllRaw(keys)
    requires PutObject(b, SensorsKey(ts), doc).out.Pass?
    ensures var put := PutObject(b, SensorsKey(ts), doc);
      var e := ArchiveAll(put.state, keys);
      SensorsKey(ts) in e.state.objects && e.state.objects[SensorsKey(ts)].doc == doc
  {
    var key := SensorsKey(ts);
    var put := PutObject(b, key, doc);
    SensorsKeyPlace(ts);
    forall i | 0 <= i < |keys| ensures key != keys[i] && key != ArchiveKey(keys[i]) {
      Loc.RawArchiveKey(keys[i]);
      assert key[0] == 'p';
      assert keys[i][0] == 'r' && ArchiveKey(keys[i])[0] == 'a';
    }
    ArchiveAllFrame(put.state, keys, key);
  }

  /** After a put at a key that is not listed, the archive loop over distinct raw
      keys passes exactly when every key was movable before the put, and then moves
      each key with its content. */
  lemma PutThenArchive(b: Bucket, key: string, doc: Doc, keys: seq<string>, k: string)
    requires Loc.AllRaw(keys) && NoDuplicates(keys) && key !in keys
    requires PutObject(b, key, doc).out.Pass?
    ensures var put := PutObject(b, key, doc);
      ArchiveAll(put.state, keys).out.Pass? <==> forall i :: 0 <= i < |keys| ==> Loc.Movable(b, keys[i])
    ensures var put := PutObject(b, key, doc);
      var e := ArchiveAll(put.state, keys);
      e.out.Pass? && k in keys ==>
        k !in e.state.objects && ArchiveKey(k) in e.state.objects && e.state.objects[ArchiveKey(k)].doc == b.objects[k].doc
  {
    var put := PutObject(b, key, doc).state;
    forall i | 0 <= i < |keys| ensures Loc.Movable(put, keys[i]) <==> Loc.Movable(b, keys[i]) {
      PutKeepsOthers(b, key, doc, keys[i]);
    }
    ArchiveAllSpec(put, keys, k);
    if k in keys {
      PutKeepsOthers(b, key, doc, k);
    }
  }

  /** A successful put leaves every other key, and the movability of every other key,
      as it was. */
  lemma PutKeepsOthers(b: Bucket, key: string, doc: Doc, k: string)
    requires k != key && PutObject(b, key, doc).out.Pass?
    ensures var s := PutObject(b, key, doc).state;
      (k in s.objects <==> k in b.objects) && (k in b.objects ==> s.objects[k] == b.objects[k]) &&
      (Loc.Movable(s, k) <==> Loc.Movable(b, k))
  {
  }

  // ---------------------------------------------------------------------------
  // The methods

  /** The page loop over one file's pages, extending `records`. */
  method ExtendWithPages(records: seq<Record>, pages: seq<Page>) returns (records': seq<Record>)
    ensures records' == records + PageRecords(pages)
  {
    records' := records;
    for j := 0 to |pages|
      invariant records' == records + PageRecords(pages[..j])
    {
      assert pages[..j + 1][..j] == pages[..j];
      var recordsOnPage := pages[j].results;
      if recordsOnPage.Some? && recordsOnPage.value != [] {
        records' := records' + recordsOnPage.value;
      }
    }
    assert pages[..|pages|] == pages;
  }

  /** One file of the file loop: read it and extend `records` with its pages'
      records, or raise. */
  method ExtendWithFile(s3: Store, key: string, records: seq<Record>) returns (r: Result<seq<Record>, Error>)
    ensures FileRecords(ReadJson(s3.State(), key)).Err? ==> r == Err(FileRecords(ReadJson(s3.State(), key)).error)
    ensures FileRecords(ReadJson(s3.State(), key)).Ok? ==> r == Ok(records + FileRecords(ReadJson(s3.State(), key)).value)
  {
    var sensor := ReadJsonFromS3(s3, key);
    if sensor.None? {
      return Err(TypeError);
    }
    match sensor.value {
      case Pages(ps) =>
        var extended := ExtendWithPages(records, ps);
        r := Ok(extended);
      case LocationMaps(_) =>
        r := Ok(records + []);
      case IdList(ids) =>
        r := if ids == [] then Ok(records + []) else Err(AttributeError);
      case Parquet(_) =>
        r := Err(TypeError);
    }
  }

  /** The file loop: read each raw file and gather its pages' records. */
  method CollectRecordsFromS3(s3: Store, keys: seq<string>) returns (r: Result<seq<Record>, Error>)
    ensures r == CollectRecords(s3.State(), keys)
  {
    var allRecords: seq<Record> := [];
    for i := 0 to |keys|
      invariant CollectRecords(s3.State(), keys[..i]) == Ok(allRecords)
    {
      assert keys[..i + 1][..i] == keys[..i] && keys[..i + 1][i] == keys[i];
      var extended := ExtendWithFile(s3, keys[i], allRecords);
      if extended.Err? {
        CollectRecordsStopsAt(s3.State(), keys, i + 1);
        return extended;
      }
      allRecords := extended.value;
    }
    assert keys[..|keys|] == keys;
    r := Ok(allRecords);
  }

  /** The archive loop with nothing caught. */
  method ArchiveRawFiles(s3: Store, keys: seq<string>) returns (out: Outcome<Error>)
    modifies s3
    ensures Effect(s3.State(), out) == ArchiveAll(old(s3.State()), keys)
  {
    ghost var b0 := s3.State();
    for i := 0 to |keys|
      invariant ArchiveAll(b0, keys[..i]) == Effect(s3.State(), Pass)
    {
      assert keys[..i + 1][..i] == keys[..i];
      out := ArchiveS3File(s3, keys[i]);
      if out.Fail? {
        ArchiveAllStopsAt(b0, keys, i);
        return;
      }
    }
    assert keys[..|keys|] == keys;
    out := Pass;
  }

  /** Loading the location map. */
  method LoadLocationMap(s3: Store, mapListing: Listing) returns (r: Result<LocationMap, Error>)
    requires ListingOf(s3.State(), ProcessedLocationPrefix, mapListing)
    ensures r == LocationMapOf(MapDocument(s3.State(), mapListing))
  {
    var mapKey := FindLatestS3Key(s3, ProcessedLocationPrefix, MapPattern, mapListing);
    var sensorLocationMap: Option<Doc> := None;
    if mapKey.Some? {
      sensorLocationMap := ReadJsonFromS3(s3, mapKey.value);
    }
    r := LocationMapOf(sensorLocationMap);
  }

  method TransformStage(s3: Store, mapListing: Listing, rawListing: Listing, now: int, ts: Timestamp)
    returns (out: Outcome<Error>)
    requires ListingOf(s3.State(), ProcessedLocationPrefix, mapListing)
    requires ListingOf(s3.State(), ListPrefix(RawPrefix), rawListing)
    modifies s3
    ensures Loc.StageRun(out, s3.State()) == SensorRun(old(s3.State()), mapListing, rawListing, now, ts)
  {
    var locationMap := LoadLocationMap(s3, mapListing);
    if locationMap.Err? {
      return Fail(locationMap.error);
    }
    var rawKeys := ListS3KeysByPrefix(s3, RawPrefix, rawListing);
    if rawKeys.Err? {
      return Fail(rawKeys.error);
    }
    var keys := rawKeys.value;
    if keys == [] {
      return Pass;
    }
    var allRecords := CollectRecordsFromS3(s3, keys);
    if allRecords.Err? {
      return Fail(allRecords.error);
    }
    if allRecords.value == [] {
      return Pass;
    }
    var sensorsDf := TransformRecordsToDf(allRecords.value, ColumnRenameMap, DeduplicationSubset, FinalColumns, FinalSchema, now);
    var mergedDf := LeftJoin(sensorsDf, locationMap.value);
    if mergedDf.Err? {
      return Fail(mergedDf.error);
    }
    out := UploadBytesToS3(s3, SensorsKey(ts), mergedDf.value);
    if out.Fail? {
      return;
    }
    out := ArchiveRawFiles(s3, keys);
  }
}

// The location transform stage: transform every raw location file on its own,
// collect the tables produced, upload the distinct location ids, and archive
// the raw files only when that upload succeeded. The per-file transform is an
// oracle from the store and a key to a table, nothing, or an error; it reads the
// store and is taken not to write it. The module's import line names a transform
// that the shared utilities do not define, so importing it raises ImportError and
// `main` never runs: the stage below is `main` as it would run if the import
// succeeded.

module TransformDimLocation {
  import opened Values
  import opened Text
  import opened ObjectStore
  import opened TransformUtils
  import opened ExtractUtils

  const RawPrefix: string := "raw/locations"
  const ProcessedPrefix: string := "processed/dim_location"
  const IdListPrefix: string := "location_id_list_"
  const IdColumn: string := "openaq_location_id"

  /** Loading the module imports `transform_json_to_parquet` from a utility module
      that does not define it. */
  const ImportOutcome: Outcome<Error> := Fail(ImportError)

  const LocationsColumnMap: RenameMap := [
    ("id", "openaq_location_id"),
    ("name", "location_name"),
    ("locality", "locality"),
    ("country", "country_code"),
    ("coordinates_latitude", "location_latitude"),
    ("coordinates_longitude", "location_longitude"),
    ("timezone", "timezone")
  ]

  const DeduplicationColumns: seq<string> := ["openaq_location_id"]

  /** The final columns: the rename map's new names, then the ingestion time. */
  const FinalColumns: seq<string> := MapValues(LocationsColumnMap) + ["ingest_ts"]

  /** What a stage hands the per-file transform besides the store and the key. */
  datatype TransformConfig = TransformConfig(
    processedPrefix: string, renameMap: RenameMap, subset: seq<string>, finalColumns: seq<string>)

  const Config: TransformConfig :=
    TransformConfig(ProcessedPrefix, LocationsColumnMap, DeduplicationColumns, FinalColumns)

  /** The per-file transform: a table, None, or a raised error. */
  type Transform = (Bucket, string, TransformConfig) -> Result<Option<Table>, Error>

  /** The transform loop: every key in order; a raised error or None contributes
      nothing and the loop goes on. */
  function TransformAll(b: Bucket, keys: seq<string>, transform: Transform, config: TransformConfig): seq<Table>
  {
    if keys == [] then []
    else
      var init := TransformAll(b, keys[..|keys| - 1], transform, config);
      match transform(b, keys[|keys| - 1], config)
      case Ok(Some(t)) => init + [t]
      case _ => init
  }

  /** The tables are exactly the ones the keys produced, in key order. */
  lemma {:induction false} TransformAllSpec(b: Bucket, keys: seq<string>, transform: Transform,
                                            config: TransformConfig, t: Table)
    ensures |TransformAll(b, keys, transform, config)| <= |keys|
    ensures t in TransformAll(b, keys, transform, config) <==>
      exists i :: 0 <= i < |keys| && transform(b, keys[i], config) == Ok(Some(t))
  {
    if keys != [] {
      var init := keys[..|keys| - 1];
      TransformAllSpec(b, init, transform, config, t);
      assert forall i :: 0 <= i < |init| ==> init[i] == keys[i];
      if transform(b, keys[|keys| - 1], config) != Ok(Some(t)) {
        if exists i :: 0 <= i < |keys| && transform(b, keys[i], config) == Ok(Some(t)) {
          var i :| 0 <= i < |keys| && transform(b, keys[i], config) == Ok(Some(t));
          assert i < |init|;
        }
      }
    }
  }

  method TransformKeys(s3: Store, keys: seq<string>, transform: Transform, config: TransformConfig)
    returns (tables: seq<Table>)
    ensures tables == TransformAll(s3.State(), keys, transform, config)
  {
    tables := [];
    for i := 0 to |keys|
      invariant tables == TransformAll(s3.State(), keys[..i], transform, config)
    {
      assert keys[..i + 1][..i] == keys[..i];
      var processed := transform(s3.State(), keys[i], config);
      if processed.Ok? && processed.value.Some? {
        tables := tables + [processed.value.value];
      }
    }
    assert keys[..|keys|] == keys;
  }

  // ---------------------------------------------------------------------------
  // The id list

  /** A table's column `c` top to bottom, null where the table lacks it. */
  function ColumnOrNulls(t: Table, c: string): (col: seq<Cell>)
    ensures |col| == |t.rows|
  {
    seq(|t.rows|, i requires 0 <= i < |t.rows| =>
      if c in t.columns && IndexOf(t.columns, c) < |t.rows[i]| then t.rows[i][IndexOf(t.columns, c)] else Null)
  }

  /** Column `c` of the tables concatenated with a fresh index. */
  function CombinedColumn(tables: seq<Table>, c: string): seq<Cell>
  {
    if tables == [] then []
    else CombinedColumn(tables[..|tables| - 1], c) + ColumnOrNulls(tables[|tables| - 1], c)
  }

  predicate SomeTableHas(tables: seq<Table>, c: string)
  {
    exists j :: 0 <= j < |tables| && c in tables[j].columns
  }

  /** `concat(...)[IdColumn].unique().tolist()`: the distinct ids in order of first
      appearance; KeyError when no table has the column. */
  function LocationIds(tables: seq<Table>): Result<seq<Cell>, Error>
  {
    if !SomeTableHas(tables, IdColumn) then Err(KeyError)
    else Ok(Distinct(CombinedColumn(tables, IdColumn)))
  }

  /** `c` occurs at row `i` of table `j`'s column (null where the table lacks it). */
  predicate InSomeTable(tables: seq<Table>, c: string, x: Cell)
  {
    exists j, i :: 0 <= j < |tables| && 0 <= i < |tables[j].rows| && ColumnOrNulls(tables[j], c)[i] == x
  }

  lemma {:induction false} CombinedColumnMembers(tables: seq<Table>, c: string, x: Cell)
    ensures x in CombinedColumn(tables, c) <==> InSomeTable(tables, c, x)
  {
    if tables != [] {
      var init := tables[..|tables| - 1];
      var last := tables[|tables| - 1];
      CombinedColumnMembers(init, c, x);
      if x in ColumnOrNulls(last, c) {
        var i :| 0 <= i < |last.rows| && ColumnOrNulls(last, c)[i] == x;
        assert tables[|tables| - 1] == last;
      }
      if InSomeTable(tables, c, x) && x !in ColumnOrNulls(last, c) {
        var j, i :| 0 <= j < |tables| && 0 <= i < |tables[j].rows| && ColumnOrNulls(tables[j], c)[i] == x;
        assert j < |init| && init[j] == tables[j];
      }
      if InSomeTable(init, c, x) {
        var j, i :| 0 <= j < |init| && 0 <= i < |init[j].rows| && ColumnOrNulls(init[j], c)[i] == x;
        assert tables[j] == init[j];
      }
    }
  }

  /** The id list has no repeats and holds exactly the ids that occur in some table. */
  lemma LocationIdsSpec(tables: seq<Table>, x: Cell)
    ensures LocationIds(tables).Err? <==> forall j :: 0 <= j < |tables| ==> IdColumn !in tables[j].columns
    ensures LocationIds(tables).Ok? ==> NoDuplicates(LocationIds(tables).value)
    ensures LocationIds(tables).Ok? ==> (x in LocationIds(tables).value <==> InSomeTable(tables, IdColumn, x))
  {
    DistinctProperties(CombinedColumn(tables, IdColumn));
    CombinedColumnMembers(tables, IdColumn, x);
  }

  /** `json.dumps` refuses an ingestion timestamp. */
  predicate Serialisable(cells: seq<Cell>)
  {
    forall i :: 0 <= i < |cells| ==> !cells[i].Stamp?
  }

  /** The JSON list `json.dumps` writes for the ids: a null cell as `null`, any
      other as its value. */
  function IdListDoc(ids: seq<Cell>): Doc
    requires Serialisable(ids)
  {
    IdList(seq(|ids|, i requires 0 <= i < |ids| => if ids[i].Null? then JNull else ids[i].v))
  }

  /** The key of the id list: under `processed/dim_location`, its file name made of
      the prefix `location_id_list_`, a second `_` and the timestamp. */
  lemma IdListKey(ts: Timestamp)
    ensures StartsWith(UploadKey(ProcessedPrefix, IdListPrefix, ts), ProcessedPrefix + "/")
    ensures EndsWith(UploadKey(ProcessedPrefix, IdListPrefix, ts), "location_id_list__" + ts + ".json")
  {
    var key := UploadKey(ProcessedPrefix, IdListPrefix, ts);
    var tail := "location_id_list__" + ts + ".json";
    assert key == ProcessedPrefix + "/" + (DatePath(ts) + "/" + tail);
    assert key == (ProcessedPrefix + "/" + DatePath(ts) + "/") + tail;
  }

  // ---------------------------------------------------------------------------
  // The archive loop

  /** Archiving every key in order, each failure swallowed (a failed archive keeps
      whatever its copy did). */
  function ArchiveEach(b: Bucket, keys: seq<string>): Bucket
  {
    if keys == [] then b else Archive(ArchiveEach(b, keys[..|keys| - 1]), keys[|keys| - 1]).state
  }

  predicate AllRaw(keys: seq<string>)
  {
    forall i :: 0 <= i < |keys| ==> StartsWith(keys[i], "raw/")
  }

  /** The store holds `k` and grants the accesses archiving it needs. */
  predicate Movable(b: Bucket, k: string)
  {
    k in b.objects && Refusal(b, Read, k).None? && Refusal(b, Write, ArchiveKey(k)).None? &&
    Refusal(b, Remove, k).None?
  }

  /** A raw key's archive key starts with `archive/`, and distinct raw keys have
      distinct archive keys. */
  lemma RawArchiveKey(k: string)
    requires StartsWith(k, "raw/")
    ensures ArchiveKey(k) == "archive/" + k[4..]
    ensures !StartsWith(ArchiveKey(k), "raw/")
  {
    assert k == "raw/" + k[4..];
    ArchiveKeyOfRawKey(k[4..]);
    assert ArchiveKey(k)[0] == 'a';
  }

  lemma RawArchiveKeysDistinct(k1: string, k2: string)
    requires StartsWith(k1, "raw/") && StartsWith(k2, "raw/") && k1 != k2
    ensures ArchiveKey(k1) != ArchiveKey(k2) && ArchiveKey(k1) != k2
  {
    RawArchiveKey(k1);
    RawArchiveKey(k2);
    assert k1 == "raw/" + k1[4..] && k2 == "raw/" + k2[4..];
    assert k1[4..] != k2[4..];
    assert ArchiveKey(k1)[8..] == k1[4..] && ArchiveKey(k2)[8..] == k2[4..];
    assert ArchiveKey(k1)[0] == 'a' && k2[0] == 'r';
  }

  /** The archive loop visits every key and goes past failures: each distinct raw key
      that was movable at the start is moved to its archive key with its content, and
      every key that is neither a listed key nor its archive key is left alone. */
  lemma ArchiveEachSpec(b: Bucket, keys: seq<string>, k: string)
    requires AllRaw(keys) && NoDuplicates(keys)
    ensures var b' := ArchiveEach(b, keys);
      k in keys && Movable(b, k) ==>
        k !in b'.objects && ArchiveKey(k) in b'.objects && b'.objects[ArchiveKey(k)].doc == b.objects[k].doc
    ensures var b' := ArchiveEach(b, keys);
      (forall i :: 0 <= i < |keys| ==> k != keys[i] && k != ArchiveKey(keys[i])) ==>
        (k in b'.objects <==> k in b.objects) && (k in b.objects ==> b'.objects[k] == b.objects[k])
    ensures ArchiveEach(b, keys).name == b.name && ArchiveEach(b, keys).denied == b.denied
  {
    ArchiveEachKeeps(b, keys);
    if forall i :: 0 <= i < |keys| ==> k != keys[i] && k != ArchiveKey(keys[i]) {
      ArchiveEachFrame(b, keys, k);
    }
    if k in keys && Movable(b, k) {
      ArchiveEachMoves(b, keys, k);
    }
  }

  /** The loop keeps the bucket's name and refusals. */
  lemma {:induction false} ArchiveEachKeeps(b: Bucket, keys: seq<string>)
    ensures ArchiveEach(b, keys).name == b.name && ArchiveEach(b, keys).denied == b.denied
  {
    if keys != [] {
      ArchiveEachKeeps(b, keys[..|keys| - 1]);
      ArchiveMoves(ArchiveEach(b, keys[..|keys| - 1]), keys[|keys| - 1]);
    }
  }

  /** A key that is neither listed nor the archive key of a listed key is untouched. */
  lemma {:induction false} ArchiveEachFrame(b: Bucket, keys: seq<string>, k: string)
    requires forall i :: 0 <= i < |keys| ==> k != keys[i] && k != ArchiveKey(keys[i])
    ensures var b' := ArchiveEach(b, keys);
      (k in b'.objects <==> k in b.objects) && (k in b.objects ==> b'.objects[k] == b.objects[k])
  {
    if keys != [] {
      var init := keys[..|keys| - 1];
      assert forall i :: 0 <= i < |init| ==> init[i] == keys[i];
      ArchiveEachFrame(b, init, k);
      ArchiveMoves(ArchiveEach(b, init), keys[|keys| - 1]);
    }
  }

  /** A listed key that was movable at the start ends up archived with its content. */
  lemma {:induction false} ArchiveEachMoves(b: Bucket, keys: seq<string>, k: string)
    requires AllRaw(keys) && NoDuplicates(keys) && k in keys && Movable(b, k)
    ensures var b' := ArchiveEach(b, keys);
      k !in b'.objects && ArchiveKey(k) in b'.objects && b'.objects[ArchiveKey(k)].doc == b.objects[k].doc
  {
    var init := keys[..|keys| - 1];
    var last := keys[|keys| - 1];
    var b1 := ArchiveEach(b, init);
    assert forall i :: 0 <= i < |init| ==> init[i] == keys[i];
    if k == last {
      forall i | 0 <= i < |init| ensures last != init[i] && last != ArchiveKey(init[i]) {
        RawArchiveKey(init[i]);
      }
      ArchiveEachFrame(b, init, last);
      ArchiveEachKeeps(b, init);
      ArchiveMoves(b1, last);
      assert Contains(last, "raw/") by { assert OccursAt(last, "raw/", 0); }
    } else {
      assert k in init;
      ArchiveEachMoves(b, init, k);
      MovedStaysMoved(b1, last, k, b.objects[k].doc);
    }
  }

  /** Archiving another raw key, whether it succeeds or not, leaves an already
      archived key where it was. */
  lemma MovedStaysMoved(s: Bucket, last: string, k: string, d: Doc)
    requires StartsWith(k, "raw/") && StartsWith(last, "raw/") && k != last
    requires k !in s.objects && ArchiveKey(k) in s.objects && s.objects[ArchiveKey(k)].doc == d
    ensures var r := Archive(s, last).state;
      k !in r.objects && ArchiveKey(k) in r.objects && r.objects[ArchiveKey(k)].doc == d
  {
    RawArchiveKeysDistinct(k, last);
    RawArchiveKeysDistinct(last, k);
    ArchiveMoves(s, last);
  }

  method ArchiveKeys(s3: Store, keys: seq<string>)
    modifies s3
    ensures s3.State() == ArchiveEach(old(s3.State()), keys)
  {
    ghost var b0 := s3.State();
    for i := 0 to |keys|
      invariant s3.State() == ArchiveEach(b0, keys[..i])
    {
      assert keys[..i + 1][..i] == keys[..i];
      var _ := ArchiveS3File(s3, keys[i]);
    }
    assert keys[..|keys|] == keys;
  }

  // ---------------------------------------------------------------------------
  // The stage

  datatype StageRun = StageRun(out: Outcome<Error>, state: Bucket)

  /** `main`: a listing failure raises; with no table the stage ends; a failure to
      build or upload the id list ends it without archiving; otherwise every raw key
      is archived. */
  function LocationRun(b: Bucket, listing: Listing, transform: Transform, ts: Timestamp): StageRun
  {
    match listing
    case ListFailed(e) => StageRun(Fail(e), b)
    case Listed(pages) =>
      var keys := KeysOf(Concat(pages));
      var tables := TransformAll(b, keys, transform, Config);
      if tables == [] then StageRun(Pass, b)
      else
        match LocationIds(tables)
        case Err(_) => StageRun(Pass, b)
        case Ok(ids) =>
          if !Serialisable(ids) then StageRun(Pass, b)
          else
            var up := Upload(b, ProcessedPrefix, IdListDoc(ids), IdListPrefix, ts);
            if up.out.Fail? then StageRun(Pass, up.state)
            else StageRun(Pass, ArchiveEach(up.state, keys))
  }

  /** Every step up to the id-list upload passed. */
  predicate IdListWritten(b: Bucket, listing: Listing, transform: Transform, ts: Timestamp)
  {
    listing.Listed? &&
    var tables := TransformAll(b, KeysOf(Concat(listing.pages)), transform, Config);
    tables != [] && LocationIds(tables).Ok? && Serialisable(LocationIds(tables).value) &&
    Upload(b, ProcessedPrefix, IdListDoc(LocationIds(tables).value), IdListPrefix, ts).out.Pass?
  }

  lemma LexLessIrreflexive(a: string)
    ensures !LexLess(a, a)
  {
  }

  /** The listed keys under a `raw/` prefix are distinct raw keys, and they are the
      stored keys under that prefix. */
  lemma ListedRawKeys(b: Bucket, prefix: string, listing: Listing)
    requires ListingOf(b, prefix, listing) && listing.Listed? && StartsWith(prefix, "raw/")
    ensures var keys := KeysOf(Concat(listing.pages));
      AllRaw(keys) && NoDuplicates(keys) &&
      forall k :: k in keys <==> k in b.objects && StartsWith(k, prefix)
  {
    var objs := Concat(listing.pages);
    var keys := KeysOf(objs);
    forall i | 0 <= i < |keys| ensures StartsWith(keys[i], "raw/") {
      assert StartsWith(objs[i].key, prefix);
      assert keys[i][..4] == keys[i][..|prefix|][..4];
    }
    forall i, j | 0 <= i < j < |keys| ensures keys[i] != keys[j] {
      LexLessIrreflexive(keys[i]);
    }
    forall k | k in b.objects && StartsWith(k, prefix) ensures k in keys {
      var i :| 0 <= i < |objs| && objs[i].key == k;
      assert keys[i] == k;
    }
  }

  /** The id list written, the state is the upload's, then the archive loop's. */
  lemma LocationRunWritten(b: Bucket, listing: Listing, transform: Transform, ts: Timestamp)
    requires IdListWritten(b, listing, transform, ts)
    ensures var keys := KeysOf(Concat(listing.pages));
      var ids := LocationIds(TransformAll(b, keys, transform, Config)).value;
      LocationRun(b, listing, transform, ts) ==
        StageRun(Pass, ArchiveEach(Upload(b, ProcessedPrefix, IdListDoc(ids), IdListPrefix, ts).state, keys))
  {
  }

  lemma LocationRunNotWritten(b: Bucket, listing: Listing, transform: Transform, ts: Timestamp)
    requires listing.Listed? && !IdListWritten(b, listing, transform, ts)
    ensures LocationRun(b, listing, transform, ts) == StageRun(Pass, b)
  {
  }

  /** Archiving is gated on the id-list upload. A listing failure is raised; otherwise
      the stage passes. Unless the id list was written, the store is as the stage found
      it; when it was, the store holds the list, and every raw file that was movable
      is archived with its content, whatever happened to the others. */
  lemma LocationRunGating(b: Bucket, listing: Listing, transform: Transform, ts: Timestamp, k: string)
    requires ListingOf(b, ListPrefix(RawPrefix), listing)
    ensures listing.ListFailed? ==> LocationRun(b, listing, transform, ts) == StageRun(Fail(listing.error), b)
    ensures listing.Listed? ==> LocationRun(b, listing, transform, ts).out == Pass
    ensures !IdListWritten(b, listing, transform, ts) ==> LocationRun(b, listing, transform, ts).state == b
    ensures IdListWritten(b, listing, transform, ts) ==>
      var r := LocationRun(b, listing, transform, ts);
      var ids := LocationIds(TransformAll(b, KeysOf(Concat(listing.pages)), transform, Config)).value;
      var key := UploadKey(ProcessedPrefix, IdListPrefix, ts);
      key in r.state.objects && r.state.objects[key].doc == IdListDoc(ids)
    ensures IdListWritten(b, listing, transform, ts) && StartsWith(k, ListPrefix(RawPrefix)) && Movable(b, k) ==>
      var r := LocationRun(b, listing, transform, ts);
      k !in r.state.objects && ArchiveKey(k) in r.state.objects && r.state.objects[ArchiveKey(k)].doc == b.objects[k].doc
  {
    if listing.Listed? && !IdListWritten(b, listing, transform, ts) {
      LocationRunNotWritten(b, listing, transform, ts);
    }
    if IdListWritten(b, listing, transform, ts) {
      LocationRunWritten(b, listing, transform, ts);
      var keys := KeysOf(Concat(listing.pages));
      var ids := LocationIds(TransformAll(b, keys, transform, Config)).value;
      ListPrefixRaw();
      ListedRawKeys(b, ListPrefix(RawPrefix), listing);
      WrittenArchives(b, keys, IdListDoc(ids), ts, k);
    }
  }

  /** After the id list is put, archiving the raw keys keeps it and moves every
      movable raw key under the raw location prefix. */
  lemma WrittenArchives(b: Bucket, keys: seq<string>, doc: Doc, ts: Timestamp, k: string)
    requires AllRaw(keys) && NoDuplicates(keys)
    requires forall k :: k in keys <==> k in b.objects && StartsWith(k, "raw/locations/")
    requires StartsWith(ListPrefix(RawPrefix), "raw/") && ListPrefix(RawPrefix) == "raw/locations/"
    requires Upload(b, ProcessedPrefix, doc, IdListPrefix, ts).out.Pass?
    ensures var r := ArchiveEach(Upload(b, ProcessedPrefix, doc, IdListPrefix, ts).state, keys);
      var key := UploadKey(ProcessedPrefix, IdListPrefix, ts);
      key in r.objects && r.objects[key].doc == doc
    ensures StartsWith(k, ListPrefix(RawPrefix)) && Movable(b, k) ==>
      var r := ArchiveEach(Upload(b, ProcessedPrefix, doc, IdListPrefix, ts).state, keys);
      k !in r.objects && ArchiveKey(k) in r.objects && r.objects[ArchiveKey(k)].doc == b.objects[k].doc
  {
    var key := UploadKey(ProcessedPrefix, IdListPrefix, ts);
    var up := Upload(b, ProcessedPrefix, doc, IdListPrefix, ts).state;
    IdListKeyNotRaw(keys, ts);
    ArchiveEachFrame(up, keys, key);
    if StartsWith(k, ListPrefix(RawPrefix)) && Movable(b, k) {
      assert k in keys;
      RawArchiveKey(k);
      IdListKey(ts);
      assert k != key by { assert k[0] == 'r' && key[0] == 'p'; }
      assert Movable(up, k);
      ArchiveEachMoves(up, keys, k);
    }
  }

  /** The id-list key is neither a raw key nor the archive key of one. */
  lemma IdListKeyNotRaw(keys: seq<string>, ts: Timestamp)
    requires AllRaw(keys)
    ensures var key := UploadKey(ProcessedPrefix, IdListPrefix, ts);
      forall i :: 0 <= i < |keys| ==> key != keys[i] && key != ArchiveKey(keys[i])
  {
    var key := UploadKey(ProcessedPrefix, IdListPrefix, ts);
    IdListKey(ts);
    forall i | 0 <= i < |keys| ensures key != keys[i] && key != ArchiveKey(keys[i]) {
      RawArchiveKey(keys[i]);
      assert key[0] == 'p';
      assert keys[i][0] == 'r' && ArchiveKey(keys[i])[0] == 'a';
    }
  }

  /** `raw/locations` is listed as `raw/locations/`, a `raw/` prefix. */
  lemma ListPrefixRaw()
    ensures ListPrefix(RawPrefix) == "raw/locations/" && StartsWith(ListPrefix(RawPrefix), "raw/")
  {
    assert RStrip(RawPrefix, '/') == RawPrefix;
  }

  method TransformStage(s3: Store, listing: Listing, transform: Transform, ts: Timestamp) returns (out: Outcome<Error>)
    requires ListingOf(s3.State(), ListPrefix(RawPrefix), listing)
    modifies s3
    ensures StageRun(out, s3.State()) == LocationRun(old(s3.State()), listing, transform, ts)
  {
    var rawKeys := ListS3KeysByPrefix(s3, RawPrefix, listing);
    if rawKeys.Err? {
      return Fail(rawKeys.error);
    }
    var keys := rawKeys.value;
    var allProcessed := TransformKeys(s3, keys, transform, Config);
    if allProcessed == [] {
      return Pass;
    }
    var locationIds := LocationIds(allProcessed);
    if locationIds.Err? || !Serialisable(locationIds.value) {
      return Pass;
    }
    var uploaded := UploadToS3(s3, ProcessedPrefix, IdListDoc(locationIds.value), IdListPrefix, ts);
    if uploaded.Fail? {
      return Pass;
    }
    ArchiveKeys(s3, keys);
    out := Pass;
  }
}

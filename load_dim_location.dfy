// The location dimension load: truncate `dim_location`, then copy into it the
// newest file of the `dim_location` stage whose URL is `LIKE '%locations_%'`.

module LoadDimLocation {
  import opened Values
  import opened Text
  import opened ObjectStore
  import opened Warehouse

  const ProcessedPrefix: string := "processed/dim_location"

  /** The `LIKE` pattern; its `_` is a wildcard, not an underscore. */
  const NamePattern: string := "%locations_%"

  /** The parquet fields read, in the order of the table's eight columns
      OPENAQ_LOCATION_ID ... INGEST_TS. */
  const Fields: seq<string> := [
    "openaq_location_id", "location_name", "locality", "location_latitude",
    "location_longitude", "country_code", "timezone", "ingest_ts"
  ]

  /** The name contains `locations` with at least one character after it. */
  predicate NamesLocations(name: string)
  {
    exists i :: 0 <= i < |name| && OccursAt(name, "locations", i) && i + 9 < |name|
  }

  /** What the filter admits: any name holding `locations` followed by any one
      character, underscore or not. */
  lemma NamePatternMeaning(name: string)
    ensures Like(name, NamePattern) <==> NamesLocations(name)
  {
    assert NamePattern == "%" + "locations" + "_%";
    LikeContainsFollowed(name, "locations");
  }

  /** A file ending in `locations.parquet` passes the filter as well as one holding
      `locations_`. */
  lemma PatternAdmitsPlural(pre: string)
    ensures Like(pre + "locations.parquet", NamePattern)
  {
    var name := pre + "locations.parquet";
    assert OccursAt(name, "locations", |pre|) by {
      assert name[|pre|..|pre| + 9] == "locations";
    }
    NamePatternMeaning(name);
  }

  /** `load_dim_location`. */
  method LoadDimLocation(table: DimTable, conn: Outcome<Error>, b: Bucket, files: seq<StageFile>)
    returns (failure: Option<Error>)
    modifies table
    ensures LoadRun(table.State(), failure) ==
      DimLoad(old(table.State()), conn, b, files, ProcessedPrefix, Some(NamePattern), Fields)
  {
    failure := LoadDimension(table, conn, b, files, ProcessedPrefix, Some(NamePattern), Fields);
  }

  /** Once connected, over the stage's real listing: with no file whose URL holds
      `locations` and a character after it, the table is left empty and TypeError is
      printed; a load without error holds the eight fields of every row of the newest
      such file, and nothing else. */
  lemma LoadDimLocationSpec(s: DimState, b: Bucket, files: seq<StageFile>)
    requires StageListingOf(b, ProcessedPrefix, files) && UrlOnlyLeading(b, ProcessedPrefix, files)
    ensures var r := DimLoad(s, Pass, b, files, ProcessedPrefix, Some(NamePattern), Fields);
      (forall i :: 0 <= i < |files| ==> !NamesLocations(files[i].name)) ==>
        r == LoadRun(DimState([], {}), Some(TypeError))
    ensures var r := DimLoad(s, Pass, b, files, ProcessedPrefix, Some(NamePattern), Fields);
      r.failure.None? ==> exists k :: LoadedNewest(b, files, Some(NamePattern), Fields, k, r.state)
  {
    forall i | 0 <= i < |files| ensures Selected(files[i], Some(NamePattern)) <==> NamesLocations(files[i].name) {
      NamePatternMeaning(files[i].name);
    }
    DimLoadLoadsNewest(s, b, files, ProcessedPrefix, Some(NamePattern), Fields);
  }
}

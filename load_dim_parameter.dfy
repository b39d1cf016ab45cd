// The parameter dimension load: truncate `dim_parameter`, then copy into it the
// newest file of the `dim_parameter` stage, whatever its name.

module LoadDimParameter {
  import opened Values
  import opened Text
  import opened ObjectStore
  import opened Warehouse

  const ProcessedPrefix: string := "processed/dim_parameter"

  /** The parquet fields read, in the order of the table's five columns. */
  const Fields: seq<string> := [
    "openaq_parameter_id", "parameter_name", "parameter_display_name", "parameter_unit", "ingest_ts"
  ]

  /** `load_dim_parameter`: no name filter. */
  method LoadDimParameter(table: DimTable, conn: Outcome<Error>, b: Bucket, files: seq<StageFile>)
    returns (failure: Option<Error>)
    modifies table
    ensures LoadRun(table.State(), failure) == DimLoad(old(table.State()), conn, b, files, ProcessedPrefix, None, Fields)
  {
    failure := LoadDimension(table, conn, b, files, ProcessedPrefix, None, Fields);
  }

  /** Once connected, over the stage's real listing: with nothing stored under
      `processed/dim_parameter/` the table is left empty and TypeError is printed; a
      load without error holds the five fields of every row of the newest staged
      file of any name, and nothing else. */
  lemma LoadDimParameterSpec(s: DimState, b: Bucket, files: seq<StageFile>)
    requires StageListingOf(b, ProcessedPrefix, files) && UrlOnlyLeading(b, ProcessedPrefix, files)
    ensures var r := DimLoad(s, Pass, b, files, ProcessedPrefix, None, Fields);
      (forall k :: k in b.objects ==> !StartsWith(k, ProcessedPrefix + "/")) ==>
        r == LoadRun(DimState([], {}), Some(TypeError))
    ensures var r := DimLoad(s, Pass, b, files, ProcessedPrefix, None, Fields);
      r.failure.None? ==>
        exists k :: LoadedNewest(b, files, None, Fields, k, r.state) &&
          forall i :: 0 <= i < |files| ==>
            ModifiedAt(files[i]).Some? && ModifiedAt(files[i]).value <= b.objects[k].lastModified
  {
    EmptyStageFails(s, b, files);
    LoadsNewestOfAll(s, b, files);
  }

  /** Nothing stored under the stage prefix: the table is emptied and TypeError printed. */
  lemma EmptyStageFails(s: DimState, b: Bucket, files: seq<StageFile>)
    requires StageListingOf(b, ProcessedPrefix, files) && UrlOnlyLeading(b, ProcessedPrefix, files)
    ensures (forall k :: k in b.objects ==> !StartsWith(k, ProcessedPrefix + "/")) ==>
      DimLoad(s, Pass, b, files, ProcessedPrefix, None, Fields) == LoadRun(DimState([], {}), Some(TypeError))
  {
    if |files| > 0 {
      var url := StageUrl(b.name, ProcessedPrefix);
      assert StagedKey(ProcessedPrefix, files[0].name[|url|..]) in b.objects;
    }
    DimLoadLoadsNewest(s, b, files, ProcessedPrefix, None, Fields);
  }

  /** A load without error holds the newest staged file, whatever its name. */
  lemma LoadsNewestOfAll(s: DimState, b: Bucket, files: seq<StageFile>)
    requires StageListingOf(b, ProcessedPrefix, files) && UrlOnlyLeading(b, ProcessedPrefix, files)
    ensures var r := DimLoad(s, Pass, b, files, ProcessedPrefix, None, Fields);
      r.failure.None? ==>
        exists k :: LoadedNewest(b, files, None, Fields, k, r.state) &&
          forall i :: 0 <= i < |files| ==>
            ModifiedAt(files[i]).Some? && ModifiedAt(files[i]).value <= b.objects[k].lastModified
  {
    DimLoadLoadsNewest(s, b, files, ProcessedPrefix, None, Fields);
    var r := DimLoad(s, Pass, b, files, ProcessedPrefix, None, Fields);
    if r.failure.None? {
      var k :| LoadedNewest(b, files, None, Fields, k, r.state);
      assert forall i :: 0 <= i < |files| ==> Selected(files[i], None);
    }
  }
}

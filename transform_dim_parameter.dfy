// The parameter transform stage: transform every raw parameter file on its own,
// then archive every raw file whatever the transforms did. The tables produced
// are collected and never used. The module refers to `Path` without importing
// it, so loading it raises NameError before `main` can run; `main` is modelled
// as written all the same.

module TransformDimParameter {
  import opened Values
  import opened Text
  import opened ObjectStore
  import opened TransformUtils
  import opened TransformDimLocation

  const RawPrefix: string := "raw/parameters"
  const ProcessedPrefix: string := "processed/dim_parameter"

  const ParametersColumnMap: RenameMap := [
    ("id", "openaq_parameter_id"),
    ("name", "parameter_name"),
    ("displayName", "parameter_display_name"),
    ("units", "parameter_unit")
  ]

  const DeduplicationColumns: seq<string> := ["openaq_sensor_id"]

  /** The final columns: the rename map's new names, then the ingestion time. */
  const FinalColumns: seq<string> := MapValues(ParametersColumnMap) + ["ingest_ts"]

  const Config: TransformConfig :=
    TransformConfig(ProcessedPrefix, ParametersColumnMap, DeduplicationColumns, FinalColumns)

  /** Loading the module evaluates `Path(...)` with no `Path` in scope. */
  const ImportOutcome: Outcome<Error> := Fail(NameError)

  /** `main`: a listing failure raises; otherwise every listed raw key is archived,
      failures swallowed. */
  function ParameterRun(b: Bucket, listing: Listing): StageRun
  {
    match listing
    case ListFailed(e) => StageRun(Fail(e), b)
    case Listed(pages) => StageRun(Pass, ArchiveEach(b, KeysOf(Concat(pages))))
  }

  /** `raw/parameters` is listed as `raw/parameters/`. */
  lemma ListPrefixParameters()
    ensures ListPrefix(RawPrefix) == "raw/parameters/" && StartsWith(ListPrefix(RawPrefix), "raw/")
  {
    assert RStrip(RawPrefix, '/') == RawPrefix;
  }

  /** A raw parameter key is archived under `archive/parameters/`. */
  lemma ParameterArchiveKey(k: string)
    requires StartsWith(k, "raw/parameters/")
    ensures StartsWith(ArchiveKey(k), "archive/parameters/")
  {
    assert StartsWith(k, "raw/") by { assert k[..4] == k[..15][..4]; }
    RawArchiveKey(k);
    assert k[4..][..11] == k[4..15] == "parameters/";
    assert ArchiveKey(k)[..19] == "archive/" + k[4..][..11];
  }

  /** The archive loop runs whether or not any file transformed. A listing failure
      is raised with the store untouched. Otherwise the stage passes; every raw
      parameter file that was movable is moved to its archive key with its content;
      and every key outside `raw/parameters/` and `archive/parameters/` (the
      processed prefix included) is left as it was. */
  lemma ParameterRunSpec(b: Bucket, listing: Listing, k: string)
    requires ListingOf(b, ListPrefix(RawPrefix), listing)
    ensures listing.ListFailed? ==> ParameterRun(b, listing) == StageRun(Fail(listing.error), b)
    ensures listing.Listed? ==> ParameterRun(b, listing).out == Pass
    ensures listing.Listed? && StartsWith(k, "raw/parameters/") && Movable(b, k) ==>
      var r := ParameterRun(b, listing).state;
      k !in r.objects && ArchiveKey(k) in r.objects && r.objects[ArchiveKey(k)].doc == b.objects[k].doc
    ensures !StartsWith(k, "raw/parameters/") && !StartsWith(k, "archive/parameters/") ==>
      var r := ParameterRun(b, listing).state;
      (k in r.objects <==> k in b.objects) && (k in b.objects ==> r.objects[k] == b.objects[k])
  {
    if listing.Listed? {
      var keys := KeysOf(Concat(listing.pages));
      ListPrefixParameters();
      ListedRawKeys(b, ListPrefix(RawPrefix), listing);
      if !StartsWith(k, "raw/parameters/") && !StartsWith(k, "archive/parameters/") {
        forall i | 0 <= i < |keys| ensures k != keys[i] && k != ArchiveKey(keys[i]) {
          ParameterArchiveKey(keys[i]);
        }
      }
      ArchiveEachSpec(b, keys, k);
    }
  }

  /** The deduplication subset names a column the rename map never produces: it is
      none of the new names and none of the final columns. */
  lemma DeduplicationColumnNotProduced()
    ensures forall c :: c in DeduplicationColumns ==> c !in MapValues(ParametersColumnMap)
    ensures forall c :: c in DeduplicationColumns ==> c !in FinalColumns
  {
    assert MapValues(ParametersColumnMap) ==
      ["openaq_parameter_id", "parameter_name", "parameter_display_name", "parameter_unit"];
  }

  method TransformStage(s3: Store, listing: Listing, transform: Transform) returns (out: Outcome<Error>)
    requires ListingOf(s3.State(), ListPrefix(RawPrefix), listing)
    modifies s3
    ensures StageRun(out, s3.State()) == ParameterRun(old(s3.State()), listing)
  {
    var rawKeys := ListS3KeysByPrefix(s3, RawPrefix, listing);
    if rawKeys.Err? {
      return Fail(rawKeys.error);
    }
    var keys := rawKeys.value;
    var allProcessed := TransformKeys(s3, keys, transform, Config);
    ArchiveKeys(s3, keys);
    out := Pass;
  }
}

// The hourly measurement extract: find the newest sensor-id list, read it, and
// for every sensor fetch its hourly measurements since yesterday midnight and
// upload the page list as one raw file. A failure for one sensor is logged and
// the loop goes on; a missing list ends the stage early.

module ExtractMeasurements {
  import opened Values
  import opened Text
  import opened ObjectStore
  import opened ExtractUtils

  const RawEndpoint: string := "raw/measurements"
  const BaseUrl: string := "https://api.openaq.org/v3"
  const SensorsPrefix: string := "processed/dim_sensor"
  const SensorListPattern: string := "sensor_id_list"

  /** The second segment of `raw/measurements`, which names the raw files. */
  const Resource: string := "measurements"

  /** A sensor id, one element of the JSON id list, as an f-string renders it. */
  function IdString(id: Json): string
  {
    PyStr(id, false)
  }

  /** The API endpoint of one sensor's hourly measurements. */
  function Endpoint(id: Json): string
  {
    "sensors/" + IdString(id) + "/hours"
  }

  /** The file prefix of one sensor's raw file. */
  function FilePrefix(id: Json): string
  {
    Resource + "_sensor_" + IdString(id)
  }

  /** The URL a counted sensor is logged under: the full request URL, `?`, and the
      parameter dictionary as Python prints it. */
  function FetchedUrl(id: Json, yesterday: string): string
  {
    BaseUrl + "/" + Endpoint(id) + "?" + "{'datetime_from': '" + yesterday + "'}"
  }

  /** The request parameters shared by every sensor: the start of yesterday. */
  function UrlParams(yesterday: string): Params
  {
    map["datetime_from" := JStr(yesterday)]
  }

  /** The outcome of one sensor's iteration: the store afterwards and whether the
      sensor's URL is counted as fetched. */
  datatype SensorRun = SensorRun(state: Bucket, counted: bool)

  /** One sensor: fetch; a raised error, an empty page list (`[0]` raises) or a first
      page without results ends the iteration with nothing uploaded; otherwise the
      URL is counted and the page list uploaded, an upload error being swallowed. */
  function SensorStep(b: Bucket, apiKey: string, yesterday: string, pagesOf: string -> seq<Response>,
                      id: Json, ts: Timestamp): SensorRun
  {
    var fetched := FetchAllPages(apiKey, Some(UrlParams(yesterday)), pagesOf(Endpoint(id))).result;
    if fetched.Err? || fetched.value == [] then SensorRun(b, false)
    else
      var first := fetched.value[0];
      if first.results.None? then SensorRun(b, false)
      else
        var counted := first.results.value != [];
        SensorRun(Upload(b, RawEndpoint, Pages(fetched.value), FilePrefix(id), ts).state, counted)
  }

  /** The sensor loop over `ids`, the sensor at position `i` uploading at `clock(i)`:
      the final store and the counted URLs. */
  function SensorLoop(b: Bucket, apiKey: string, yesterday: string, pagesOf: string -> seq<Response>,
                      ids: seq<Json>, clock: nat -> Timestamp): (Bucket, seq<string>)
  {
    if ids == [] then (b, [])
    else
      var (b1, urls) := SensorLoop(b, apiKey, yesterday, pagesOf, ids[..|ids| - 1], clock);
      var id := ids[|ids| - 1];
      var step := SensorStep(b1, apiKey, yesterday, pagesOf, id, clock(|ids| - 1));
      (step.state, if step.counted then urls + [FetchedUrl(id, yesterday)] else urls)
  }

  /** A sensor is counted exactly when its fetch returned at least one page, and only
      then is anything written for it. */
  lemma SensorStepSpec(b: Bucket, apiKey: string, yesterday: string, pagesOf: string -> seq<Response>,
                       id: Json, ts: Timestamp)
    ensures var f := FetchAllPages(apiKey, Some(UrlParams(yesterday)), pagesOf(Endpoint(id))).result;
      SensorStep(b, apiKey, yesterday, pagesOf, id, ts).counted <==> f.Ok? && f.value != []
    ensures var f := FetchAllPages(apiKey, Some(UrlParams(yesterday)), pagesOf(Endpoint(id))).result;
      !(f.Ok? && f.value != []) ==> SensorStep(b, apiKey, yesterday, pagesOf, id, ts).state == b
    ensures var f := FetchAllPages(apiKey, Some(UrlParams(yesterday)), pagesOf(Endpoint(id))).result;
      f.Ok? && f.value != [] ==>
        SensorStep(b, apiKey, yesterday, pagesOf, id, ts).state ==
          Upload(b, RawEndpoint, Pages(f.value), FilePrefix(id), ts).state
  {
    if apiKey != "" {
      FetchedPagesHaveResults(pagesOf(Endpoint(id)), 1);
    }
  }

  /** The one key a sensor's upload may write. */
  function UploadedKey(id: Json, ts: Timestamp): string
  {
    UploadKey(RawEndpoint, FilePrefix(id), ts)
  }

  /** The sensor loop writes at most one key per sensor, its upload key, and leaves
      every other key, the bucket name and the refusals as they were. */
  lemma {:induction false} SensorLoopFrame(b: Bucket, apiKey: string, yesterday: string,
                                           pagesOf: string -> seq<Response>,
                                           ids: seq<Json>, clock: nat -> Timestamp, k: string)
    requires forall i :: 0 <= i < |ids| ==> k != UploadedKey(ids[i], clock(i))
    ensures var b' := SensorLoop(b, apiKey, yesterday, pagesOf, ids, clock).0;
      (k in b'.objects <==> k in b.objects) && (k in b.objects ==> b'.objects[k] == b.objects[k])
    ensures var b' := SensorLoop(b, apiKey, yesterday, pagesOf, ids, clock).0;
      b'.name == b.name && b'.denied == b.denied
  {
    if ids != [] {
      var init := ids[..|ids| - 1];
      assert forall i :: 0 <= i < |init| ==> init[i] == ids[i];
      SensorLoopFrame(b, apiKey, yesterday, pagesOf, init, clock, k);
    }
  }

  /** The URLs of the sensors, in order, whose fetch returned at least one page. */
  function CountedUrls(apiKey: string, yesterday: string, pagesOf: string -> seq<Response>,
                       ids: seq<Json>): seq<string>
  {
    if ids == [] then []
    else
      var init := CountedUrls(apiKey, yesterday, pagesOf, ids[..|ids| - 1]);
      var id := ids[|ids| - 1];
      var f := FetchAllPages(apiKey, Some(UrlParams(yesterday)), pagesOf(Endpoint(id))).result;
      if f.Ok? && f.value != [] then init + [FetchedUrl(id, yesterday)] else init
  }

  /** The counted URLs are those of the sensors whose fetch returned pages, whatever
      the uploads do; there is at most one per sensor, and none without an API key. */
  lemma {:induction false} SensorLoopCounts(b: Bucket, apiKey: string, yesterday: string,
                                            pagesOf: string -> seq<Response>,
                                            ids: seq<Json>, clock: nat -> Timestamp)
    ensures SensorLoop(b, apiKey, yesterday, pagesOf, ids, clock).1 == CountedUrls(apiKey, yesterday, pagesOf, ids)
    ensures |CountedUrls(apiKey, yesterday, pagesOf, ids)| <= |ids|
    ensures apiKey == "" ==> SensorLoop(b, apiKey, yesterday, pagesOf, ids, clock) == (b, [])
  {
    if ids != [] {
      var init := ids[..|ids| - 1];
      SensorLoopCounts(b, apiKey, yesterday, pagesOf, init, clock);
      var b1 := SensorLoop(b, apiKey, yesterday, pagesOf, init, clock).0;
      SensorStepSpec(b1, apiKey, yesterday, pagesOf, ids[|ids| - 1], clock(|ids| - 1));
    }
  }

  /** How the stage ends and what it leaves. */
  datatype StageRun = StageRun(out: Outcome<Error>, state: Bucket, fetchedUrls: seq<string>, fetches: seq<string>)

  /** `main`: no sensor-list key ends the stage before any fetch; an unreadable list
      raises (`len(None)`); otherwise every element of the id list runs as a sensor,
      none of them raising. A document of pages or location maps is reported as
      TypeError. */
  function ExtractRun(b: Bucket, listing: Listing, apiKey: string, yesterday: string,
                      pagesOf: string -> seq<Response>, clock: nat -> Timestamp): StageRun
  {
    match LatestKey(listing, SensorListPattern)
    case None => StageRun(Pass, b, [], [])
    case Some(key) =>
      match ReadJson(b, key)
      case None => StageRun(Fail(TypeError), b, [], [])
      case Some(doc) =>
        if !doc.IdList? then StageRun(Fail(TypeError), b, [], [])
        else
          var (b', urls) := SensorLoop(b, apiKey, yesterday, pagesOf, doc.ids, clock);
          StageRun(Pass, b', urls, seq(|doc.ids|, i requires 0 <= i < |doc.ids| => Endpoint(doc.ids[i])))
  }

  /** One iteration of the sensor loop. */
  method ExtractSensor(s3: Store, apiKey: string, yesterday: string, pagesOf: string -> seq<Response>,
                       id: Json, ts: Timestamp) returns (counted: bool)
    modifies s3
    ensures s3.State() == SensorStep(old(s3.State()), apiKey, yesterday, pagesOf, id, ts).state
    ensures counted == SensorStep(old(s3.State()), apiKey, yesterday, pagesOf, id, ts).counted
  {
    var responseData, _, _ := FetchAllPagesNew(apiKey, Some(UrlParams(yesterday)), pagesOf(Endpoint(id)));
    if responseData.Err? || responseData.value == [] {
      return false;
    }
    var first := responseData.value[0];
    if first.results.None? {
      return false;
    }
    counted := first.results.value != [];
    var _ := UploadToS3(s3, RawEndpoint, Pages(responseData.value), FilePrefix(id), ts);
  }

  /** The sensor loop: each id in order, every failure swallowed. */
  method ExtractSensors(s3: Store, apiKey: string, yesterday: string, pagesOf: string -> seq<Response>,
                        ids: seq<Json>, clock: nat -> Timestamp)
    returns (fetchedUrls: seq<string>, fetches: seq<string>)
    modifies s3
    ensures (s3.State(), fetchedUrls) == SensorLoop(old(s3.State()), apiKey, yesterday, pagesOf, ids, clock)
    ensures fetches == seq(|ids|, j requires 0 <= j < |ids| => Endpoint(ids[j]))
  {
    fetchedUrls, fetches := [], [];
    ghost var b0 := s3.State();
    for i := 0 to |ids|
      invariant (s3.State(), fetchedUrls) == SensorLoop(b0, apiKey, yesterday, pagesOf, ids[..i], clock)
      invariant fetches == seq(i, j requires 0 <= j < i => Endpoint(ids[j]))
    {
      var id := ids[i];
      assert ids[..i + 1][..i] == ids[..i];
      fetches := fetches + [Endpoint(id)];
      var counted := ExtractSensor(s3, apiKey, yesterday, pagesOf, id, clock(i));
      if counted {
        fetchedUrls := fetchedUrls + [FetchedUrl(id, yesterday)];
      }
    }
    assert ids[..|ids|] == ids;
  }

  method ExtractStage(s3: Store, listing: Listing, apiKey: string, yesterday: string,
              pagesOf: string -> seq<Response>, clock: nat -> Timestamp)
    returns (out: Outcome<Error>, fetchedUrls: seq<string>, fetches: seq<string>)
    requires ListingOf(s3.State(), SensorsPrefix, listing)
    modifies s3
    ensures StageRun(out, s3.State(), fetchedUrls, fetches) ==
      ExtractRun(old(s3.State()), listing, apiKey, yesterday, pagesOf, clock)
  {
    fetchedUrls, fetches := [], [];
    var sensorKey := FindLatestS3Key(s3, SensorsPrefix, SensorListPattern, listing);
    if sensorKey.None? {
      return Pass, fetchedUrls, fetches;
    }
    var sensorIds := ReadJsonFromS3(s3, sensorKey.value);
    if sensorIds.None? || !sensorIds.value.IdList? {
      return Fail(TypeError), fetchedUrls, fetches;
    }
    fetchedUrls, fetches := ExtractSensors(s3, apiKey, yesterday, pagesOf, sensorIds.value.ids, clock);
    out := Pass;
  }
}

// The extract stages' shared utilities: the date-partitioned key layout of the
// files they write, the search for the newest file matching a pattern, the
// paginated fetch from the measurement API, and the reads and writes of the
// object store. The HTTP API is an oracle from page number to response; the
// wall clock only enters as the fourteen-digit timestamp of a write.

module ExtractUtils {
  import opened Values
  import opened Text
  import opened ObjectStore
  import opened TransformUtils

  /** The page size requested from the API. */
  const Limit: nat := 1000

  // ---------------------------------------------------------------------------
  // Key layout

  /** A `%Y%m%d%H%M%S` rendering of the current time. */
  type Timestamp = ts: string | |ts| == 14 && AllDigits(ts) witness "00000000000000"

  /** The `YYYY/MM/DD` folder of a timestamp. */
  function DatePath(ts: Timestamp): string
  {
    ts[..4] + "/" + ts[4..6] + "/" + ts[6..8]
  }

  /** `create_s3_key`: the base path without trailing slashes, the date folders, and
      a file name made of the file prefix, the timestamp and the extension. */
  function CreateS3Key(prefix: string, filePrefix: string, ext: string, ts: Timestamp): string
  {
    RStrip(prefix, '/') + "/" + DatePath(ts) + "/" + filePrefix + "_" + ts + ext
  }

  /** The key `upload_to_s3` writes: the same layout with a `.json` extension, but the
      endpoint is used as given. */
  function UploadKey(endpoint: string, filePrefix: string, ts: Timestamp): string
  {
    endpoint + "/" + DatePath(ts) + "/" + filePrefix + "_" + ts + ".json"
  }

  /** Where the timestamp sits in a created key: after the stripped base path, the
      slash, the ten characters of the date folders, the slash, the file prefix and
      the underscore, a position that does not depend on the timestamp. */
  function StampOffset(prefix: string, filePrefix: string): nat
  {
    |RStrip(prefix, '/')| + 1 + 10 + 1 + |filePrefix| + 1
  }

  /** The timestamp can be read back from a created key. */
  lemma CreateS3KeyStamp(prefix: string, filePrefix: string, ext: string, ts: Timestamp)
    ensures var n := StampOffset(prefix, filePrefix);
      n + 14 <= |CreateS3Key(prefix, filePrefix, ext, ts)| && CreateS3Key(prefix, filePrefix, ext, ts)[n..n + 14] == ts
  {
    var head := RStrip(prefix, '/') + "/";
    var k := CreateS3Key(prefix, filePrefix, ext, ts);
    assert k == (head + DatePath(ts) + "/" + filePrefix + "_") + ts + ext;
  }

  /** Keys made at different times differ. */
  lemma CreateS3KeyUnique(prefix: string, filePrefix: string, ext: string, ts1: Timestamp, ts2: Timestamp)
    requires CreateS3Key(prefix, filePrefix, ext, ts1) == CreateS3Key(prefix, filePrefix, ext, ts2)
    ensures ts1 == ts2
  {
    CreateS3KeyStamp(prefix, filePrefix, ext, ts1);
    CreateS3KeyStamp(prefix, filePrefix, ext, ts2);
  }

  lemma UploadKeyUnique(endpoint: string, filePrefix: string, ts1: Timestamp, ts2: Timestamp)
    requires UploadKey(endpoint, filePrefix, ts1) == UploadKey(endpoint, filePrefix, ts2)
    ensures ts1 == ts2
  {
    var n := |endpoint| + 1 + 10 + 1 + |filePrefix| + 1;
    var k1 := UploadKey(endpoint, filePrefix, ts1);
    var k2 := UploadKey(endpoint, filePrefix, ts2);
    assert k1 == (endpoint + "/" + DatePath(ts1) + "/" + filePrefix + "_") + ts1 + ".json";
    assert k2 == (endpoint + "/" + DatePath(ts2) + "/" + filePrefix + "_") + ts2 + ".json";
    assert k1[n..n + 14] == ts1;
    assert k2[n..n + 14] == ts2;
  }

  /** A created key lies under the prefix that listing the same base path sends, so
      the transform stages find the files the extract stages write. */
  lemma CreateS3KeyIsListed(prefix: string, filePrefix: string, ext: string, ts: Timestamp)
    ensures StartsWith(CreateS3Key(prefix, filePrefix, ext, ts), ListPrefix(prefix))
  {
    var key := CreateS3Key(prefix, filePrefix, ext, ts);
    var p := ListPrefix(prefix);
    assert key == p + (DatePath(ts) + "/" + filePrefix + "_" + ts + ext);
    assert key[..|p|] == p;
  }

  /** `upload_to_s3` and `create_s3_key` agree when the endpoint has no trailing
      slash; with one, the upload key has an empty path segment that the other lacks. */
  lemma UploadKeyVersusCreateS3Key(endpoint: string, filePrefix: string, ts: Timestamp)
    ensures !EndsWith(endpoint, "/") ==> UploadKey(endpoint, filePrefix, ts) == CreateS3Key(endpoint, filePrefix, ".json", ts)
    ensures EndsWith(endpoint, "/") ==> OccursAt(UploadKey(endpoint, filePrefix, ts), "//", |endpoint| - 1)
    ensures EndsWith(endpoint, "/") ==> UploadKey(endpoint, filePrefix, ts) != CreateS3Key(endpoint, filePrefix, ".json", ts)
  {
    var up := UploadKey(endpoint, filePrefix, ts);
    if EndsWith(endpoint, "/") {
      var n := |endpoint|;
      assert up[n - 1] == '/' && up[n] == '/';
      assert up[n - 1..n + 1] == "//";
      var cr := CreateS3Key(endpoint, filePrefix, ".json", ts);
      var d := RStrip(endpoint, '/');
      assert |d| < n;
      assert cr == d + "/" + (DatePath(ts) + "/" + filePrefix + "_" + ts + ".json");
      assert up == endpoint + "/" + (DatePath(ts) + "/" + filePrefix + "_" + ts + ".json");
      assert |cr| < |up|;
    } else {
      if endpoint != [] {
        assert endpoint[|endpoint| - 1..] != "/";
        assert endpoint[|endpoint| - 1] != '/';
      }
      assert RStrip(endpoint, '/') == endpoint;
    }
  }

  // ---------------------------------------------------------------------------
  // Writes and reads

  /** `upload_to_s3`: an unset bucket name raises before anything is written;
      otherwise the document is put under the upload key and a refusal re-raised. */
  function Upload(b: Bucket, endpoint: string, doc: Doc, filePrefix: string, ts: Timestamp): (e: Effect)
    ensures b.name == "" ==> e == Effect(b, Fail(ValueError))
    ensures b.name != "" ==> e == PutObject(b, UploadKey(endpoint, filePrefix, ts), doc)
    ensures e.out.Pass? ==>
      UploadKey(endpoint, filePrefix, ts) in e.state.objects &&
      e.state.objects[UploadKey(endpoint, filePrefix, ts)].doc == doc
  {
    if b.name == "" then Effect(b, Fail(ValueError))
    else PutObject(b, UploadKey(endpoint, filePrefix, ts), doc)
  }

  method UploadToS3(s3: Store, endpoint: string, doc: Doc, filePrefix: string, ts: Timestamp)
    returns (out: Outcome<Error>)
    modifies s3
    ensures s3.State() == Upload(old(s3.State()), endpoint, doc, filePrefix, ts).state
    ensures out == Upload(old(s3.State()), endpoint, doc, filePrefix, ts).out
  {
    if s3.name == "" {
      return Fail(ValueError);
    }
    var key := UploadKey(endpoint, filePrefix, ts);
    out := s3.Put(key, doc);
  }

  /** `upload_bytes_to_s3`: the Parquet bytes of a table, put under the given key. */
  method UploadBytesToS3(s3: Store, key: string, table: Table) returns (out: Outcome<Error>)
    modifies s3
    ensures s3.State() == PutObject(old(s3.State()), key, Parquet(table)).state
    ensures out == PutObject(old(s3.State()), key, Parquet(table)).out
  {
    out := s3.Put(key, Parquet(table));
  }

  /** `read_json_from_s3`: the parsed document, or None when the store refuses or
      lacks the key, or the content is not JSON; it never raises. */
  function ReadJson(b: Bucket, key: string): (r: Option<Doc>)
    ensures r.Some? <==> key in b.objects && Refusal(b, Read, key).None? && !b.objects[key].doc.Parquet?
    ensures r.Some? ==> r.value == b.objects[key].doc
  {
    match GetObject(b, key)
    case Err(_) => None
    case Ok(doc) => if doc.Parquet? then None else Some(doc)
  }

  method ReadJsonFromS3(s3: Store, key: string) returns (r: Option<Doc>)
    ensures r == ReadJson(s3.State(), key)
  {
    var got := s3.Get(key);
    if got.Err? {
      return None;
    }
    match got.value
    case Parquet(_) => r := None;
    case _ => r := Some(got.value);
  }

  // ---------------------------------------------------------------------------
  // Newest matching file

  /** The object a left-to-right scan keeps: a matching object replaces the kept one
      only when it is strictly newer. */
  function Newest(objs: seq<ObjectInfo>, pattern: string): Option<ObjectInfo>
  {
    if objs == [] then None
    else
      var prev := Newest(objs[..|objs| - 1], pattern);
      var o := objs[|objs| - 1];
      if Contains(o.key, pattern) && (prev.None? || o.lastModified > prev.value.lastModified) then Some(o)
      else prev
  }

  /** `objs[i]` matches, no matching object is newer, and every earlier matching
      object is strictly older: the first of the newest. */
  predicate IsFirstNewest(objs: seq<ObjectInfo>, pattern: string, i: int)
  {
    0 <= i < |objs| && Contains(objs[i].key, pattern) &&
    (forall j :: 0 <= j < |objs| && Contains(objs[j].key, pattern) ==> objs[j].lastModified <= objs[i].lastModified) &&
    (forall j :: 0 <= j < i && Contains(objs[j].key, pattern) ==> objs[j].lastModified < objs[i].lastModified)
  }

  ghost predicate IsNewestObject(objs: seq<ObjectInfo>, pattern: string, o: ObjectInfo)
  {
    exists i :: IsFirstNewest(objs, pattern, i) && objs[i] == o
  }

  /** The scan finds nothing exactly when nothing matches; otherwise it keeps the
      first of the newest matching objects. */
  lemma {:induction false} NewestSpec(objs: seq<ObjectInfo>, pattern: string)
    ensures Newest(objs, pattern).None? <==> forall j :: 0 <= j < |objs| ==> !Contains(objs[j].key, pattern)
    ensures Newest(objs, pattern).Some? ==> IsNewestObject(objs, pattern, Newest(objs, pattern).value)
  {
    if objs != [] {
      var init := objs[..|objs| - 1];
      var o := objs[|objs| - 1];
      NewestSpec(init, pattern);
      var prev := Newest(init, pattern);
      assert forall j :: 0 <= j < |init| ==> init[j] == objs[j];
      if Contains(o.key, pattern) && (prev.None? || o.lastModified > prev.value.lastModified) {
        if prev.Some? {
          var i :| IsFirstNewest(init, pattern, i) && init[i] == prev.value;
        }
        assert IsFirstNewest(objs, pattern, |objs| - 1);
      } else if prev.Some? {
        var i :| IsFirstNewest(init, pattern, i) && init[i] == prev.value;
        assert IsFirstNewest(objs, pattern, i);
      } else {
        assert forall j :: 0 <= j < |objs| ==> !Contains(objs[j].key, pattern) by {
          forall j | 0 <= j < |objs| ensures !Contains(objs[j].key, pattern) {
            if j < |init| { assert init[j] == objs[j]; }
          }
        }
      }
    }
  }

  /** One more object: it becomes the newest when it matches and is strictly newer. */
  lemma NewestAppend(objs: seq<ObjectInfo>, o: ObjectInfo, pattern: string)
    ensures Newest(objs + [o], pattern) ==
      var prev := Newest(objs, pattern);
      if Contains(o.key, pattern) && (prev.None? || o.lastModified > prev.value.lastModified) then Some(o)
      else prev
  {
    assert (objs + [o])[..|objs|] == objs;
  }

  lemma ConcatNextPage<T>(pages: seq<seq<T>>, p: nat)
    requires p < |pages|
    ensures Concat(pages[..p + 1]) == Concat(pages[..p]) + pages[p]
  {
    assert pages[..p + 1][..p] == pages[..p];
  }

  /** What `find_latest_s3_key` returns for a listing: None when listing failed, when
      nothing matched, or when the newest key is empty (and so false). */
  function LatestKey(listing: Listing, pattern: string): Option<string>
  {
    match listing
    case ListFailed(_) => None
    case Listed(pages) =>
      var n := Newest(Concat(pages), pattern);
      if n.Some? && n.value.key != "" then Some(n.value.key) else None
  }

  /** `find_latest_s3_key`: scans every listed object, keeping the newest key that
      contains the pattern; any listing error gives None. */
  method FindLatestS3Key(s3: Store, prefix: string, pattern: string, listing: Listing) returns (r: Option<string>)
    requires ListingOf(s3.State(), prefix, listing)
    ensures r == LatestKey(listing, pattern)
  {
    if listing.ListFailed? {
      return None;
    }
    var pages := listing.pages;
    var latestFile: Option<string> := None;
    var latestModTime: Option<int> := None;
    for p := 0 to |pages|
      invariant var n := Newest(Concat(pages[..p]), pattern);
        (n.None? <==> latestModTime.None?) && (n.None? ==> latestFile.None?) &&
        (n.Some? ==> latestFile == Some(n.value.key) && latestModTime == Some(n.value.lastModified))
    {
      var page := pages[p];
      ghost var seen := Concat(pages[..p]);
      assert seen + page[..0] == seen;
      for q := 0 to |page|
        invariant var n := Newest(seen + page[..q], pattern);
          (n.None? <==> latestModTime.None?) && (n.None? ==> latestFile.None?) &&
          (n.Some? ==> latestFile == Some(n.value.key) && latestModTime == Some(n.value.lastModified))
      {
        var obj := page[q];
        assert seen + page[..q + 1] == (seen + page[..q]) + [obj];
        NewestAppend(seen + page[..q], obj, pattern);
        if Contains(obj.key, pattern) {
          if latestModTime.None? || obj.lastModified > latestModTime.value {
            latestModTime := Some(obj.lastModified);
            latestFile := Some(obj.key);
          }
        }
      }
      assert page[..|page|] == page;
      ConcatNextPage(pages, p);
    }
    assert pages[..|pages|] == pages;
    if latestFile.Some? && latestFile.value != "" {
      r := latestFile;
    } else {
      r := None;
    }
  }

  /** Against the store: a returned key is stored under the prefix, contains the
      pattern, and no matching key under the prefix is newer; among equally new keys
      it is the first in listing (lexicographic) order. For a non-empty pattern,
      a successful listing gives None exactly when no key under the prefix matches. */
  lemma LatestKeyInStore(b: Bucket, prefix: string, pattern: string, listing: Listing)
    requires ListingOf(b, prefix, listing)
    ensures var r := LatestKey(listing, pattern);
      r.Some? ==> r.value in b.objects && StartsWith(r.value, prefix) && Contains(r.value, pattern)
    ensures var r := LatestKey(listing, pattern);
      r.Some? ==> forall k :: k in b.objects && StartsWith(k, prefix) && Contains(k, pattern) ==>
        b.objects[k].lastModified <= b.objects[r.value].lastModified &&
        (b.objects[k].lastModified == b.objects[r.value].lastModified && k != r.value ==> LexLess(r.value, k))
    ensures listing.Listed? && pattern != "" ==>
      (LatestKey(listing, pattern).None? <==>
       forall k :: k in b.objects && StartsWith(k, prefix) ==> !Contains(k, pattern))
  {
    if listing.Listed? {
      var objs := Concat(listing.pages);
      NewestSpec(objs, pattern);
      var n := Newest(objs, pattern);
      if n.Some? {
        var i :| IsFirstNewest(objs, pattern, i) && objs[i] == n.value;
        forall k | k in b.objects && StartsWith(k, prefix) && Contains(k, pattern)
          ensures b.objects[k].lastModified <= b.objects[n.value.key].lastModified
          ensures b.objects[k].lastModified == b.objects[n.value.key].lastModified && k != n.value.key ==> LexLess(n.value.key, k)
        {
          var j :| 0 <= j < |objs| && objs[j].key == k;
          if j < i {
            assert objs[j].lastModified < objs[i].lastModified;
          }
        }
      }
      if pattern != "" && n.Some? {
        assert Contains(n.value.key, pattern);
        assert n.value.key != "";
      }
      if pattern != "" && n.None? {
        forall k | k in b.objects && StartsWith(k, prefix) ensures !Contains(k, pattern) {
          var j :| 0 <= j < |objs| && objs[j].key == k;
        }
      }
    }
  }

  // ---------------------------------------------------------------------------
  // Paginated fetch

  /** Request parameters: a JSON object's fields by name. */
  type Params = map<string, Json>

  /** What the API answers for one page request: a transport or status failure, or a
      response body. */
  datatype Response = RequestFailed | Got(page: Page)

  /** The answer to the request for page `n` (counting from 1): the oracle's entry, and
      an empty page past its end. */
  function ResponseAt(api: seq<Response>, n: nat): Response
  {
    if 1 <= n <= |api| then api[n - 1] else Got(Page(Some([])))
  }

  /** The parameters of the request for page `n`: a copy of the caller's parameters
      with the page size and the page number set. */
  function RequestParams(params: Params, n: nat): (r: Params)
    ensures "limit" in r && r["limit"] == JNum(Limit)
    ensures "page" in r && r["page"] == JNum(n)
    ensures forall k :: k != "limit" && k != "page" ==> (k in r <==> k in params)
    ensures forall k :: k != "limit" && k != "page" && k in params ==> r[k] == params[k]
  {
    params["limit" := JNum(Limit)]["page" := JNum(n)]
  }

  /** The result of a fetch, the number of requests sent and the number of waits. */
  datatype Fetched = Fetched(result: Result<seq<Page>, Error>, requests: nat, waits: nat)

  /** A page is full when it carries at least `Limit` results: the fetch keeps it and
      asks for the next page. */
  predicate IsFull(r: Response)
  {
    r.Got? && r.page.results.Some? && |r.page.results.value| >= Limit
  }

  /** The fetch from page `n` on: a failed request raises; a body without `results`
      raises KeyError; every parsed body is followed by a wait; an empty page stops
      without being kept, a short page stops after being kept, a full page continues
      with the next page number. */
  function FetchFrom(api: seq<Response>, n: nat): Fetched
    requires n >= 1
    decreases |api| + 1 - n
  {
    match ResponseAt(api, n)
    case RequestFailed => Fetched(Err(RequestError), 1, 0)
    case Got(p) =>
      if p.results.None? then Fetched(Err(KeyError), 1, 0)
      else if |p.results.value| == 0 then Fetched(Ok([]), 1, 1)
      else if |p.results.value| < Limit then Fetched(Ok([p]), 1, 1)
      else
        assert n <= |api|;
        After([p], FetchFrom(api, n + 1))
  }

  /** `done` kept before a fetch continued with `rest`. */
  function After(done: seq<Page>, rest: Fetched): Fetched
  {
    Fetched(if rest.result.Ok? then Ok(done + rest.result.value) else rest.result,
            |done| + rest.requests, |done| + rest.waits)
  }

  lemma AfterNothing(f: Fetched)
    ensures After([], f) == f
  {
    if f.result.Ok? {
      assert [] + f.result.value == f.result.value;
    }
  }

  lemma AfterAfter(a: seq<Page>, b: seq<Page>, f: Fetched)
    ensures After(a, After(b, f)) == After(a + b, f)
  {
    if f.result.Ok? {
      assert a + (b + f.result.value) == (a + b) + f.result.value;
    }
  }

  /** `fetch_all_pages_new`: a missing API key raises before any request, absent
      parameters raise on the first copy, then pages are fetched from 1. */
  function FetchAllPages(apiKey: string, params: Option<Params>, api: seq<Response>): Fetched
  {
    if apiKey == "" then Fetched(Err(RuntimeError), 0, 0)
    else if params.None? then Fetched(Err(AttributeError), 0, 0)
    else FetchFrom(api, 1)
  }

  method FetchAllPagesNew(apiKey: string, params: Option<Params>, api: seq<Response>)
    returns (r: Result<seq<Page>, Error>, sent: seq<Params>, waits: nat)
    ensures r == FetchAllPages(apiKey, params, api).result
    ensures waits == FetchAllPages(apiKey, params, api).waits
    ensures |sent| == FetchAllPages(apiKey, params, api).requests
    ensures forall i :: 0 <= i < |sent| ==> params.Some? && sent[i] == RequestParams(params.value, i + 1)
  {
    sent, waits := [], 0;
    if apiKey == "" {
      return Err(RuntimeError), sent, waits;
    }
    var allResults: seq<Page> := [];
    var page: nat := 1;
    AfterNothing(FetchFrom(api, 1));
    while true
      invariant 1 <= page <= |api| + 1
      invariant params.Some? || page == 1
      invariant |allResults| == page - 1 && |sent| == page - 1 && waits == page - 1
      invariant forall i :: 0 <= i < |sent| ==> params.Some? && sent[i] == RequestParams(params.value, i + 1)
      invariant FetchAllPages(apiKey, params, api) ==
        if params.None? then Fetched(Err(AttributeError), 0, 0) else After(allResults, FetchFrom(api, page))
      decreases |api| + 1 - page
    {
      if params.None? {
        return Err(AttributeError), sent, waits;
      }
      var requestParams := RequestParams(params.value, page);
      sent := sent + [requestParams];
      var response := ResponseAt(api, page);
      if response.RequestFailed? {
        return Err(RequestError), sent, waits;
      }
      var results := response.page.results;
      if results.None? {
        return Err(KeyError), sent, waits;
      }
      var numItems := |results.value|;
      waits := waits + 1;
      if numItems == 0 {
        assert allResults + [] == allResults;
        return Ok(allResults), sent, waits;
      }
      AfterAfter(allResults, [response.page], FetchFrom(api, page + 1));
      allResults := allResults + [response.page];
      if numItems < Limit {
        return Ok(allResults), sent, waits;
      }
      page := page + 1;
    }
  }

  /** Pages `n` to `n + k - 1` as they were answered. */
  predicate AllFull(api: seq<Response>, n: nat, k: nat)
  {
    forall i :: n <= i < n + k ==> IsFull(ResponseAt(api, i))
  }

  function PagesOf(api: seq<Response>, n: nat, k: nat): (ps: seq<Page>)
    requires AllFull(api, n, k)
    ensures |ps| == k
  {
    seq(k, i requires 0 <= i < k => ResponseAt(api, n + i).page)
  }

  /** A run of full pages is kept whole, one request and one wait each, and the fetch
      goes on after it. */
  lemma {:induction false} FetchThroughFullPages(api: seq<Response>, n: nat, k: nat)
    requires n >= 1 && AllFull(api, n, k)
    ensures FetchFrom(api, n) == After(PagesOf(api, n, k), FetchFrom(api, n + k))
    decreases k
  {
    if k == 0 {
      assert PagesOf(api, n, 0) == [];
      AfterNothing(FetchFrom(api, n));
    } else {
      assert IsFull(ResponseAt(api, n));
      assert n <= |api|;
      FetchThroughFullPages(api, n + 1, k - 1);
      assert PagesOf(api, n, k) == [ResponseAt(api, n).page] + PagesOf(api, n + 1, k - 1);
      AfterAfter([ResponseAt(api, n).page], PagesOf(api, n + 1, k - 1), FetchFrom(api, n + k));
    }
  }

  /** The two stopping rules and fail-fast: after `N` full pages, an empty page gives
      the `N` pages, a short non-empty page gives `N + 1`, a failed request gives the
      error and no pages, and a body without `results` gives KeyError and no pages; in
      each case `N + 1` requests were sent and none after. */
  lemma FetchStops(api: seq<Response>, n: nat)
    requires AllFull(api, 1, n)
    ensures var f := FetchFrom(api, 1);
      ResponseAt(api, n + 1) == Got(Page(Some([]))) ==> f == Fetched(Ok(PagesOf(api, 1, n)), n + 1, n + 1)
    ensures var f := FetchFrom(api, 1); var r := ResponseAt(api, n + 1);
      r.Got? && r.page.results.Some? && 0 < |r.page.results.value| < Limit ==>
        f == Fetched(Ok(PagesOf(api, 1, n) + [r.page]), n + 1, n + 1)
    ensures var f := FetchFrom(api, 1);
      ResponseAt(api, n + 1) == RequestFailed ==> f == Fetched(Err(RequestError), n + 1, n)
    ensures var f := FetchFrom(api, 1); var r := ResponseAt(api, n + 1);
      r.Got? && r.page.results.None? ==> f == Fetched(Err(KeyError), n + 1, n)
  {
    FetchThroughFullPages(api, 1, n);
    var ps := PagesOf(api, 1, n);
    assert ps + [] == ps;
  }

  /** Every API answer falls under `FetchStops`: after some run of full pages comes
      a page that fails, lacks `results`, is empty or is short. */
  lemma {:induction false} FirstNotFull(api: seq<Response>, n: nat) returns (k: nat)
    requires n >= 1
    ensures AllFull(api, n, k) && !IsFull(ResponseAt(api, n + k))
    ensures var r := ResponseAt(api, n + k);
      r == RequestFailed || (r.Got? && r.page.results.None?) || r == Got(Page(Some([]))) ||
      (r.Got? && r.page.results.Some? && 0 < |r.page.results.value| < Limit)
    decreases |api| + 1 - n
  {
    if IsFull(ResponseAt(api, n)) {
      assert n <= |api|;
      var k' := FirstNotFull(api, n + 1);
      k := k' + 1;
    } else {
      k := 0;
    }
  }

  /** Every fetch ends: it sends one request past a run of full pages, and what it
      keeps is that run, possibly followed by one short page. */
  lemma FetchEnds(api: seq<Response>) returns (k: nat)
    ensures AllFull(api, 1, k)
    ensures FetchFrom(api, 1).requests == k + 1
    ensures FetchFrom(api, 1).result.Ok? ==>
      PagesOf(api, 1, k) <= FetchFrom(api, 1).result.value && |FetchFrom(api, 1).result.value| <= k + 1
  {
    k := FirstNotFull(api, 1);
    FetchStops(api, k);
  }

  /** Every kept page carries a non-empty `results` list. */
  lemma {:induction false} FetchedPagesHaveResults(api: seq<Response>, n: nat)
    requires n >= 1
    ensures var f := FetchFrom(api, n);
      f.result.Ok? ==> forall i :: 0 <= i < |f.result.value| ==>
        f.result.value[i].results.Some? && |f.result.value[i].results.value| > 0
    decreases |api| + 1 - n
  {
    var r := ResponseAt(api, n);
    if r.Got? && r.page.results.Some? && |r.page.results.value| >= Limit {
      assert n <= |api|;
      FetchedPagesHaveResults(api, n + 1);
    }
  }
}

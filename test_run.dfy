// The sequential multi-URL fetch: one request per URL, in order, each followed
// by a wait; a failed URL is logged and skipped. The HTTP call is an oracle
// from URL to the parsed body, or None when the request fails.

module TestRun {
  import opened Values

  /** The bodies of the URLs that answered, in URL order. */
  function Successes(urls: seq<string>, get: string -> Option<Json>): seq<Json>
  {
    if urls == [] then []
    else
      var init := Successes(urls[..|urls| - 1], get);
      var r := get(urls[|urls| - 1]);
      if r.Some? then init + [r.value] else init
  }

  /** At most one body per URL; one per URL exactly when every URL answers, and then
      the bodies are the URLs' answers in order. */
  lemma {:induction false} SuccessesCount(urls: seq<string>, get: string -> Option<Json>)
    ensures |Successes(urls, get)| <= |urls|
    ensures |Successes(urls, get)| == |urls| <==> forall i :: 0 <= i < |urls| ==> get(urls[i]).Some?
    ensures (forall i :: 0 <= i < |urls| ==> get(urls[i]).Some?) ==>
      forall i :: 0 <= i < |urls| ==> Successes(urls, get)[i] == get(urls[i]).value
  {
    if urls != [] {
      var init := urls[..|urls| - 1];
      SuccessesCount(init, get);
      assert forall i :: 0 <= i < |init| ==> init[i] == urls[i];
    }
  }

  /** Every body in the result is the answer of one of the URLs. */
  lemma {:induction false} SuccessesFromUrls(urls: seq<string>, get: string -> Option<Json>, x: Json)
    requires x in Successes(urls, get)
    ensures exists i :: 0 <= i < |urls| && get(urls[i]) == Some(x)
  {
    var init := urls[..|urls| - 1];
    if x in Successes(init, get) {
      SuccessesFromUrls(init, get, x);
      var i :| 0 <= i < |init| && get(init[i]) == Some(x);
      assert urls[i] == init[i];
    } else {
      assert get(urls[|urls| - 1]) == Some(x);
    }
  }

  /** `fetch_sequentially_test`. A missing API key raises before any request; a zero
      rate raises when the delay is computed; a negative rate makes the first wait
      raise, after the first request. Otherwise every URL is requested once, in
      order, with the same parameters, and waited after. */
  method FetchSequentiallyTest(apiKey: string, urls: seq<string>, urlParams: map<string, Json>,
                               requestsPerMinute: int, get: string -> Option<Json>)
    returns (r: Result<seq<Json>, Error>, sent: seq<(string, map<string, Json>)>, waits: nat)
    ensures apiKey == "" ==> r == Err(RuntimeError) && sent == [] && waits == 0
    ensures apiKey != "" && requestsPerMinute == 0 ==> r == Err(ZeroDivisionError) && sent == [] && waits == 0
    ensures apiKey != "" && requestsPerMinute > 0 ==>
      r == Ok(Successes(urls, get)) && waits == |urls| &&
      sent == seq(|urls|, i requires 0 <= i < |urls| => (urls[i], urlParams))
    ensures apiKey != "" && requestsPerMinute < 0 && urls == [] ==> r == Ok([]) && sent == [] && waits == 0
    ensures apiKey != "" && requestsPerMinute < 0 && urls != [] ==>
      r == Err(ValueError) && sent == [(urls[0], urlParams)] && waits == 0
  {
    sent, waits := [], 0;
    if apiKey == "" {
      return Err(RuntimeError), sent, waits;
    }
    if requestsPerMinute == 0 {
      return Err(ZeroDivisionError), sent, waits;
    }
    var allResults: seq<Json> := [];
    for i := 0 to |urls|
      invariant allResults == Successes(urls[..i], get)
      invariant sent == seq(i, j requires 0 <= j < i => (urls[j], urlParams))
      invariant waits == i
      invariant requestsPerMinute < 0 ==> i == 0
    {
      sent := sent + [(urls[i], urlParams)];
      var response := get(urls[i]);
      if response.Some? {
        allResults := allResults + [response.value];
      }
      assert urls[..i + 1][..i] == urls[..i];
      if requestsPerMinute < 0 {
        return Err(ValueError), sent, waits;
      }
      waits := waits + 1;
    }
    assert urls[..|urls|] == urls;
    r := Ok(allResults);
  }
}

/**
 * The client's second request helper (client/src/utils/apiHelper.js): a
 * fetch wrapper that tries the local server and then the hosted one, and
 * an axios wrapper over '|'-separated URLs. Replies are parameters, as in
 * `ApiRequest`.
 */
module ApiHelper {
  import opened Common
  import opened Text
  import opened ApiRequest

  /** The defaults of client/src/utils/apiConfig.js; the environment overrides are not modelled. */
  const BaseUrl: string := "http://localhost:5000"
  const FallbackUrl: string := "https://cse471-project-backend-51jt.onrender.com"
  const NoUrlsMessage: string := "No valid URLs provided"

  /** What the wrapper reads of a fetch response. */
  datatype Response = Response(ok: bool, status: int)

  /** The endpoint with exactly one leading '/' added when it has none. */
  function Rooted(u: string): (r: string)
    ensures StartsWith(r, "/")
    ensures StartsWith(u, "/") ==> r == u
    ensures !StartsWith(u, "/") ==> |r| == |u| + 1 && r[1..] == u
  {
    if StartsWith(u, "/") then u else "/" + u
  }

  /**
   * The fetch wrapper's candidates: an absolute "http" URL alone; any other
   * endpoint under the local server and then under the hosted server, the
   * same rooted path on both.
   */
  function HelperCandidates(url: string): (r: seq<string>)
    ensures StartsWith(url, "http") <==> |r| == 1
    ensures |r| == 1 ==> r[0] == url
    ensures |r| != 1 ==> (|r| == 2
      && BaseUrl <= r[0] && FallbackUrl <= r[1]
      && r[0][|BaseUrl|..] == r[1][|FallbackUrl|..] == Rooted(url))
  {
    if StartsWith(url, "http") then [url]
    else
      var path := Rooted(url);
      assert (BaseUrl + path)[|BaseUrl|..] == path;
      assert (FallbackUrl + path)[|FallbackUrl|..] == path;
      [BaseUrl + path, FallbackUrl + path]
  }

  /** `response.ok || response.status`: a response counts unless it is not ok and its status is 0. */
  function HasStatus(): Response -> bool {
    (resp: Response) => resp.ok || resp.status != 0
  }

  /**
   * `fetchWithFallback`: the first response that is ok or has a status is
   * returned; a thrown error moves on to the next candidate; when none
   * returns, the last error is rethrown, or "No valid URLs provided" when
   * none was thrown.
   */
  method HelperFetch(url: string, replies: seq<Attempt<Response>>) returns (r: Attempt<Response>)
    requires |replies| == |HelperCandidates(url)|
    ensures r == Settle(replies, HasStatus(), None, NoUrlsMessage)
  {
    var urls := HelperCandidates(url);
    var lastError: Option<string> := None;
    var i := 0;
    while i < |urls|
      invariant 0 <= i <= |urls|
      invariant Settle(replies, HasStatus(), None, NoUrlsMessage)
             == Settle(replies[i..], HasStatus(), lastError, NoUrlsMessage)
    {
      // requesting urls[i] gives replies[i]
      match replies[i] {
        case Threw(e) =>
          SettleStep(replies, i, HasStatus(), lastError, NoUrlsMessage);
          lastError := Some(e);
        case Returned(resp) =>
          if resp.ok || resp.status != 0 {
            assert replies[i..][0] == replies[i];
            return replies[i];
          }
          SettleStep(replies, i, HasStatus(), lastError, NoUrlsMessage);
      }
      i := i + 1;
    }
    assert replies[i..] == [];
    r := Threw(lastError.GetOr(NoUrlsMessage));
  }

  /** When every candidate answers with status 0 and none throws, the wrapper throws its "no URLs" error. */
  lemma SilentRepliesGiveNoUrlsError(replies: seq<Attempt<Response>>)
    requires forall j :: 0 <= j < |replies| ==> replies[j].Returned? && !replies[j].response.ok && replies[j].response.status == 0
    ensures Settle(replies, HasStatus(), None, NoUrlsMessage) == Threw(NoUrlsMessage)
  {
    var r := Settle(replies, HasStatus(), None, NoUrlsMessage);
    assert forall j :: 0 <= j < |replies| ==> !Accepted(replies[j], HasStatus());
    assert LastThrown(replies).None?;
  }

  // ----- axios wrapper -----

  /**
   * The loop of each `axiosWithFallback` method as written: a failing
   * candidate rethrows as soon as its URL string equals the last candidate's,
   * so an earlier copy of the last URL ends the loop there.
   */
  function AsWritten<R>(urls: seq<string>, rs: seq<Attempt<R>>, last: string): (r: Attempt<R>)
    requires |urls| == |rs| >= 1 && urls[|urls| - 1] == last
    ensures exists i :: (0 <= i < |rs| && r == rs[i] && (r.Returned? || urls[i] == last)
      && forall j :: 0 <= j < i ==> rs[j].Threw? && urls[j] != last)
    decreases |urls|
  {
    if rs[0].Returned? || urls[0] == last then rs[0]
    else
      var r := AsWritten(urls[1..], rs[1..], last);
      ghost var i :| 0 <= i < |rs[1..]| && r == rs[1..][i] && (r.Returned? || urls[1..][i] == last)
        && forall j :: 0 <= j < i ==> rs[1..][j].Threw? && urls[1..][j] != last;
      assert rs[i + 1] == rs[1..][i] && urls[i + 1] == urls[1..][i];
      assert forall j :: 1 <= j < i + 1 ==> rs[j] == rs[1..][j - 1] && urls[j] == urls[1..][j - 1];
      r
  }

  method AxiosAsWritten<R>(url: string, replies: seq<Attempt<R>>) returns (r: Attempt<R>)
    requires |replies| == |Candidates(url)|
    ensures r == AsWritten(Candidates(url), replies, Candidates(url)[|replies| - 1])
  {
    var urls := Candidates(url);
    var last := urls[|urls| - 1];
    var i := 0;
    while i < |urls| - 1
      invariant 0 <= i <= |urls| - 1
      invariant AsWritten(urls, replies, last) == AsWritten(urls[i..], replies[i..], last)
    {
      assert urls[i..][0] == urls[i] && replies[i..][0] == replies[i];
      if replies[i].Returned? || urls[i] == last {
        return replies[i];
      }
      assert urls[i..][1..] == urls[i + 1..] && replies[i..][1..] == replies[i + 1..];
      i := i + 1;
    }
    assert urls[i..] == [last] && replies[i..] == [replies[i]];
    r := replies[i];
  }

  /**
   * The loop as intended: a failure rethrows only at the last candidate by
   * position, so every candidate is tried in order, as in `ApiRequest`.
   */
  method AxiosWithFallback<R>(url: string, replies: seq<Attempt<R>>) returns (r: Attempt<R>)
    requires |replies| == |Candidates(url)|
    ensures r == Settle(replies, AnyResponse(), None, NoUrlsMessage)
    ensures r.Threw? ==> r == replies[|replies| - 1]
  {
    var urls := Candidates(url);
    var lastError: Option<string> := None;
    var i := 0;
    while i < |urls| - 1
      invariant 0 <= i <= |urls| - 1
      invariant Settle(replies, AnyResponse(), None, NoUrlsMessage)
             == Settle(replies[i..], AnyResponse(), lastError, NoUrlsMessage)
    {
      if replies[i].Returned? {
        assert replies[i..][0] == replies[i];
        assert AnyResponse<R>()(replies[i].response);
        return replies[i];
      }
      SettleStep(replies, i, AnyResponse(), lastError, NoUrlsMessage);
      lastError := Some(replies[i].error);
      i := i + 1;
    }
    r := replies[i];
    assert replies[i..][0] == r;
    if r.Returned? {
      assert AnyResponse<R>()(r.response);
      assert Settle(replies[i..], AnyResponse(), lastError, NoUrlsMessage) == r;
    } else {
      SettleStep(replies, i, AnyResponse(), lastError, NoUrlsMessage);
      assert replies[i + 1..] == [];
      assert Settle(replies[i + 1..], AnyResponse(), Some(r.error), NoUrlsMessage) == Threw(r.error);
    }
  }

  /** Without an earlier copy of the last URL, the loop as written behaves as intended. */
  lemma {:induction false} AsWrittenAgreesWhenLastIsUnique<R>(urls: seq<string>, rs: seq<Attempt<R>>,
                                                               lastError: Option<string>, noError: string)
    requires |urls| == |rs| >= 1
    requires forall j :: 0 <= j < |urls| - 1 ==> urls[j] != urls[|urls| - 1]
    ensures AsWritten(urls, rs, urls[|urls| - 1]) == Settle(rs, AnyResponse(), lastError, noError)
    decreases |urls|
  {
    var last := urls[|urls| - 1];
    if rs[0].Returned? {
      assert Accepted(rs[0], AnyResponse());
    } else if urls[0] == last {
      assert |urls| == 1;
      assert rs[1..] == [];
    } else {
      assert urls[1..][|urls[1..]| - 1] == last;
      AsWrittenAgreesWhenLastIsUnique(urls[1..], rs[1..], Some(rs[0].error), noError);
    }
  }

  /**
   * The shortest case: candidates "a|b|a" where the first "a" fails and "b"
   * would answer. As written the first failure already rethrows; as intended
   * "b" is tried and answers.
   */
  lemma DuplicateOfLastUrlStopsEarly()
    ensures Candidates("a|b|a") == ["a", "b", "a"]
    ensures AsWritten(["a", "b", "a"], [Threw("down"), Returned(Response(true, 200)), Threw("down")], "a")
         == Threw("down")
    ensures Settle([Threw("down"), Returned(Response(true, 200)), Threw("down")], AnyResponse(), None, NoUrlsMessage)
         == Returned(Response(true, 200))
  {
    var urls := ["a", "b", "a"];
    assert Join(urls, Separator) == "a|b|a";
    CandidatesRoundTrip(urls);
    var rs: seq<Attempt<Response>> := [Threw("down"), Returned(Response(true, 200)), Threw("down")];
    assert Accepted(rs[1], AnyResponse());
  }
}

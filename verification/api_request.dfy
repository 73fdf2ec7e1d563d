/**
 * The client's dual-URL request helpers (client/src/utils/apiRequest.js).
 * A URL may carry fallbacks after a '|'; the helpers try the parts in
 * order. The network is a parameter: `replies[i]` is what requesting the
 * i-th candidate gave, an error it threw or a response it returned.
 */
module ApiRequest {
  import opened Common
  import opened Text

  const Separator: char := '|'
  const AllFailedMessage: string := "All API endpoints failed"

  /** The outcome of one request: the message of the error it threw, or the response it returned. */
  datatype Attempt<R> = Threw(error: string) | Returned(response: R)

  /** `cleanUrl`: the primary URL, the text before the first '|'. */
  function CleanUrl(u: string): (r: string)
    ensures Separator !in r
    ensures Separator !in u ==> r == u
    ensures Separator in u ==> |r| < |u| && u[..|r|] == r && u[|r|] == Separator
  {
    Split(u, Separator)[0]
  }

  /** The candidates in order: every '|'-separated part, or the URL alone. */
  function Candidates(u: string): (r: seq<string>)
    ensures |r| >= 1 && r[0] == CleanUrl(u)
    ensures forall k :: 0 <= k < |r| ==> Separator !in r[k]
    ensures Join(r, Separator) == u
  {
    if Separator in u then Split(u, Separator) else [u]
  }

  /** Joining separator-free URLs with '|' gives a URL whose candidates are exactly those URLs. */
  lemma CandidatesRoundTrip(urls: seq<string>)
    requires |urls| >= 1
    requires forall k :: 0 <= k < |urls| ==> Separator !in urls[k]
    ensures Candidates(Join(urls, Separator)) == urls
  {
    SplitJoin(urls, Separator);
  }

  /** A reply the loop returns. */
  predicate Accepted<R>(a: Attempt<R>, accept: R -> bool) {
    a.Returned? && accept(a.response)
  }

  /** `fetch` in this file returns any response, whatever its status. */
  function AnyResponse<R>(): R -> bool {
    (_: R) => true
  }

  /** The message of the last error among the replies, if any threw. */
  function LastThrown<R>(rs: seq<Attempt<R>>): (r: Option<string>)
    ensures r.None? <==> forall j :: 0 <= j < |rs| ==> !rs[j].Threw?
    ensures r.Some? ==> exists j :: (0 <= j < |rs| && rs[j].Threw? && rs[j].error == r.value
      && forall k :: j < k < |rs| ==> !rs[k].Threw?)
  {
    if rs == [] then None
    else
      var rest := LastThrown(rs[1..]);
      if rest.Some? then
        ghost var j :| 0 <= j < |rs[1..]| && rs[1..][j].Threw? && rs[1..][j].error == rest.value
          && forall k :: j < k < |rs[1..]| ==> !rs[1..][k].Threw?;
        assert rs[j + 1] == rs[1..][j];
        assert forall k :: j + 1 < k < |rs| ==> rs[k] == rs[1..][k - 1];
        rest
      else
        assert forall k :: 1 <= k < |rs| ==> rs[k] == rs[1..][k - 1];
        if rs[0].Threw? then Some(rs[0].error) else None
  }

  /**
   * The try-in-order semantics: the first reply the loop accepts; when there
   * is none, the last error thrown, or `lastError` (the one carried in from
   * earlier candidates), or else `noError`.
   */
  function Settle<R>(rs: seq<Attempt<R>>, accept: R -> bool, lastError: Option<string>, noError: string): (r: Attempt<R>)
    ensures r.Returned? <==> exists i :: 0 <= i < |rs| && Accepted(rs[i], accept)
    ensures r.Returned? ==> exists i :: (0 <= i < |rs| && r == rs[i] && Accepted(rs[i], accept)
      && forall j :: 0 <= j < i ==> !Accepted(rs[j], accept))
    ensures r.Threw? ==> r.error == (if LastThrown(rs).Some? then LastThrown(rs).value else lastError.GetOr(noError))
  {
    if rs == [] then Threw(lastError.GetOr(noError))
    else if Accepted(rs[0], accept) then rs[0]
    else
      var carried := if rs[0].Threw? then Some(rs[0].error) else lastError;
      var r := Settle(rs[1..], accept, carried, noError);
      assert forall k :: 1 <= k < |rs| ==> rs[k] == rs[1..][k - 1];
      if r.Returned? then
        ghost var i :| 0 <= i < |rs[1..]| && r == rs[1..][i] && Accepted(rs[1..][i], accept)
          && forall j :: 0 <= j < i ==> !Accepted(rs[1..][j], accept);
        assert rs[i + 1] == rs[1..][i];
        r
      else
        r
  }

  /** One step of the loop: a reply that is not accepted moves the error on to the next candidate. */
  lemma SettleStep<R>(rs: seq<Attempt<R>>, i: nat, accept: R -> bool, lastError: Option<string>, noError: string)
    requires i < |rs| && !Accepted(rs[i], accept)
    ensures Settle(rs[i..], accept, lastError, noError)
         == Settle(rs[i + 1..], accept, if rs[i].Threw? then Some(rs[i].error) else lastError, noError)
  {
    assert rs[i..][0] == rs[i];
    assert rs[i..][1..] == rs[i + 1..];
  }

  /**
   * `fetchWithFallback`, and each method of `getAxiosWithFallback`, which
   * run the same loop: the first candidate that does not throw gives the
   * result; when all throw, the last error is rethrown.
   */
  method FetchWithFallback<R>(url: string, replies: seq<Attempt<R>>) returns (r: Attempt<R>)
    requires |replies| == |Candidates(url)|
    ensures r == Settle(replies, AnyResponse(), None, AllFailedMessage)
  {
    var urls := Candidates(url);
    var lastError: Option<string> := None;
    var i := 0;
    while i < |urls|
      invariant 0 <= i <= |urls|
      invariant Settle(replies, AnyResponse(), None, AllFailedMessage)
             == Settle(replies[i..], AnyResponse(), lastError, AllFailedMessage)
    {
      // requesting urls[i] gives replies[i]
      if replies[i].Returned? {
        assert replies[i..][0] == replies[i];
        assert AnyResponse<R>()(replies[i].response);
        return replies[i];
      }
      SettleStep(replies, i, AnyResponse(), lastError, AllFailedMessage);
      lastError := Some(replies[i].error);
      i := i + 1;
    }
    assert replies[i..] == [];
    r := Threw(lastError.GetOr(AllFailedMessage));
  }

  /** Since a URL has at least one candidate, a failure is always the last candidate's own error. */
  lemma FailureIsLastCandidateError<R>(url: string, replies: seq<Attempt<R>>)
    requires |replies| == |Candidates(url)|
    ensures Settle(replies, AnyResponse(), None, AllFailedMessage).Threw? ==>
      (forall j :: 0 <= j < |replies| ==> replies[j].Threw?)
      && Settle(replies, AnyResponse(), None, AllFailedMessage) == replies[|replies| - 1]
  {
    var r := Settle(replies, AnyResponse(), None, AllFailedMessage);
    if r.Threw? {
      forall j | 0 <= j < |replies| ensures replies[j].Threw? {
        if replies[j].Returned? {
          assert Accepted(replies[j], AnyResponse());
        }
      }
      var last := |replies| - 1;
      assert LastThrown(replies).Some?;
      var j :| 0 <= j < |replies| && replies[j].Threw? && replies[j].error == LastThrown(replies).value
        && forall k :: j < k < |replies| ==> !replies[k].Threw?;
      assert replies[last].Threw?;
      assert j == last;
    }
  }
}

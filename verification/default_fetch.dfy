/** The default strategy: one GET per candidate URL, joined by Promise.all (defaultFetch,
    repositoryRequests). The transport is a parameter mapping a URL to its response. */
module DefaultFetch {
  import opened Wrappers
  import opened XmlTree
  import opened FetchStrategy
  import opened RepositoryLayout

  /** What one GET request ends in: a response with its body (absent for `null` or
      `undefined`), an error carrying a non-2xx status, or an error with no response. */
  datatype Response = Delivered(data: Option<string>) | StatusError(status: int) | NoResponse

  /** The settled state of one candidate promise. */
  datatype Settled = Fulfilled(value: Option<string>) | Failed

  /** Whether a response carries a body that survives the `!= undefined` filter. */
  predicate Carries(r: Response) {
    r.Delivered? && r.data.Some?
  }

  /** One candidate's `.then/.catch`: a 4xx status fulfils with `undefined`; any other
      status rejects (`new error` on the caught error throws), and so does an error without
      a response (reading `status` of `undefined` throws). */
  function Settle(r: Response): (s: Settled)
    ensures s.Failed? <==> r.NoResponse? || (r.StatusError? && !(400 <= r.status < 500))
    ensures s.Fulfilled? ==> (s.value.Some? <==> Carries(r))
    ensures s.Fulfilled? && Carries(r) ==> s.value == r.data
  {
    match r
    case Delivered(data) => Fulfilled(data)
    case StatusError(status) => if status > 399 && status < 500 then Fulfilled(None) else Failed
    case NoResponse => Failed
  }

  /** Promise.all: the values in index order when every candidate fulfils, otherwise a
      rejection. */
  function All(candidates: seq<Settled>): (r: Option<seq<Option<string>>>)
    ensures r.None? <==> exists i :: 0 <= i < |candidates| && candidates[i].Failed?
    ensures r.Some? ==> |r.value| == |candidates| && forall i :: 0 <= i < |candidates| ==> r.value[i] == candidates[i].value
  {
    if |candidates| == 0 then Some([])
    else
      var rest := All(candidates[1..]);
      if candidates[0].Failed? then None
      else if rest.None? then
        ghost var i :| 0 <= i < |candidates[1..]| && candidates[1..][i].Failed?;
        assert candidates[i + 1].Failed?;
        None
      else
        Some([candidates[0].value] + rest.value)
  }

  /** `.filter(v => v != undefined)`: the present values, in order. */
  function Present(values: seq<Option<string>>): (present: seq<string>)
    ensures |present| <= |values|
    ensures present == [] <==> forall i :: 0 <= i < |values| ==> values[i].None?
    ensures present != [] ==>
      exists i :: 0 <= i < |values| && values[i] == Some(present[0]) && forall j :: 0 <= j < i ==> values[j].None?
  {
    if |values| == 0 then []
    else
      var rest := Present(values[1..]);
      if values[0].Some? then [values[0].value] + rest
      else if rest != [] then
        ghost var i :| 0 <= i < |values[1..]| && values[1..][i] == Some(rest[0])
          && forall j :: 0 <= j < i ==> values[1..][j].None?;
        assert values[i + 1] == Some(rest[0]) && forall j :: 0 <= j < i + 1 ==> values[j].None?;
        rest
      else
        assert forall i :: 0 <= i < |values| ==> values[i].None? by {
          forall i | 0 <= i < |values|
            ensures values[i].None?
          {
            if i > 0 {
              assert values[i] == values[1..][i - 1];
            }
          }
        }
        rest
  }

  /** Every candidate's settled state, in order. */
  function SettleEach(responses: seq<Response>): (settled: seq<Settled>)
    ensures |settled| == |responses| && forall i :: 0 <= i < |responses| ==> settled[i] == Settle(responses[i])
  {
    if |responses| == 0 then [] else [Settle(responses[0])] + SettleEach(responses[1..])
  }

  /** The selection rule applied to the responses of the candidates, in repository order:
      any candidate that fails sinks the whole fetch; otherwise the result is the first
      body actually delivered, or nothing when no candidate delivered one. */
  function Select(responses: seq<Response>): (r: Fetched)
    ensures !r.Threw?
    ensures r.Rejected? <==> exists i :: 0 <= i < |responses| && Settle(responses[i]).Failed?
    ensures r.Resolved? ==> (r.body.Some? <==> exists i :: 0 <= i < |responses| && Carries(responses[i]))
    ensures r.Resolved? && r.body.Some? ==>
      exists i :: 0 <= i < |responses| && responses[i] == Delivered(r.body) && forall j :: 0 <= j < i ==> !Carries(responses[j])
  {
    var all := All(SettleEach(responses));
    SettledValues(responses);
    if all.None? then
      Rejected
    else
      var present := Present(all.value);
      if |present| > 0 then
        Resolved(Some(present[0]))
      else
        Resolved(None)
  }

  /** Promise.all over the settled candidates, stated in terms of the responses: it
      rejects exactly when one of them fails, and otherwise holds a value exactly where a
      response carries a body, namely that body. */
  lemma SettledValues(responses: seq<Response>)
    ensures All(SettleEach(responses)).None? <==> exists i :: 0 <= i < |responses| && Settle(responses[i]).Failed?
    ensures All(SettleEach(responses)).Some? ==>
      var values := All(SettleEach(responses)).value;
      |values| == |responses| && forall i :: 0 <= i < |responses| ==>
        (values[i].Some? <==> Carries(responses[i])) && (values[i].Some? ==> responses[i] == Delivered(values[i]))
  {
    var settled := SettleEach(responses);
    if All(settled).None? {
      var i :| 0 <= i < |settled| && settled[i].Failed?;
      assert Settle(responses[i]).Failed?;
    }
  }

  /** The responses of the candidate URLs, in order. */
  function Requests(urls: seq<string>, get: string -> Response): (responses: seq<Response>)
    ensures |responses| == |urls| && forall i :: 0 <= i < |urls| ==> responses[i] == get(urls[i])
  {
    seq(|urls|, i requires 0 <= i < |urls| => get(urls[i]))
  }

  /** defaultFetch. It throws when the URLs cannot be assembled; otherwise it asks every
      candidate URL and applies the selection rule in repository declaration order, so the
      answer does not depend on which request completes first. */
  function Fetch(info: ParentInformation, get: string -> Response): (r: Fetched)
    ensures r.Threw? <==> !CanAssemble(info)
    ensures CanAssemble(info) ==>
      var urls := AssembleUrls(info);
      && (r.Rejected? <==> exists i :: 0 <= i < |urls| && Settle(get(urls[i])).Failed?)
      && (r.Resolved? ==> (r.body.Some? <==> exists i :: 0 <= i < |urls| && Carries(get(urls[i]))))
      && (r.Resolved? && r.body.Some? ==>
            exists i :: 0 <= i < |urls| && get(urls[i]) == Delivered(r.body) && forall j :: 0 <= j < i ==> !Carries(get(urls[j])))
  {
    if !CanAssemble(info) then Threw
    else
      var urls := AssembleUrls(info);
      SelectRequestsRejects(urls, get);
      SelectRequestsFinds(urls, get);
      SelectRequestsFirst(urls, get);
      Select(Requests(urls, get))
  }

  /** The selection rule over the requests rejects exactly when some URL's request fails. */
  lemma SelectRequestsRejects(urls: seq<string>, get: string -> Response)
    ensures Select(Requests(urls, get)).Rejected? <==> exists i :: 0 <= i < |urls| && Settle(get(urls[i])).Failed?
  {
    var responses := Requests(urls, get);
    if Select(responses).Rejected? {
      var i :| 0 <= i < |responses| && Settle(responses[i]).Failed?;
      assert Settle(get(urls[i])).Failed?;
    }
  }

  /** Without a rejection, the selection over the requests finds a body exactly when some
      URL delivers one. */
  lemma SelectRequestsFinds(urls: seq<string>, get: string -> Response)
    ensures Select(Requests(urls, get)).Resolved? ==>
      (Select(Requests(urls, get)).body.Some? <==> exists i :: 0 <= i < |urls| && Carries(get(urls[i])))
  {
    var responses := Requests(urls, get);
    if Select(responses).Resolved? && Select(responses).body.Some? {
      var i :| 0 <= i < |responses| && Carries(responses[i]);
      assert Carries(get(urls[i]));
    }
  }

  /** The body found is the one of the first URL that delivers a body. */
  lemma SelectRequestsFirst(urls: seq<string>, get: string -> Response)
    ensures Select(Requests(urls, get)).Resolved? && Select(Requests(urls, get)).body.Some? ==>
      exists i :: 0 <= i < |urls| && get(urls[i]) == Delivered(Select(Requests(urls, get)).body)
        && forall j :: 0 <= j < i ==> !Carries(get(urls[j]))
  {
    var responses := Requests(urls, get);
    var r := Select(responses);
    if r.Resolved? && r.body.Some? {
      var i :| 0 <= i < |responses| && responses[i] == Delivered(r.body) && forall j :: 0 <= j < i ==> !Carries(responses[j]);
      assert get(urls[i]) == Delivered(r.body);
      assert forall j :: 0 <= j < i ==> !Carries(get(urls[j])) by {
        forall j | 0 <= j < i
          ensures !Carries(get(urls[j]))
        {
          assert responses[j] == get(urls[j]);
        }
      }
    }
  }

  /** The default strategy over a given transport. */
  function DefaultStrategy(get: string -> Response): Strategy {
    info => Fetch(info, get)
  }
}

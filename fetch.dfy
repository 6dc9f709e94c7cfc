/**
 * Fetching the organization feed: `get` retries a request that raises, and
 * `sync` refuses to go on unless a 200 response arrived.
 */
module Fetch {
  import opened Common

  datatype Response = Response(status: int, content: string)

  /** What one `requests.get` does: raise, or return a response of any status. */
  datatype Attempt = Raised | Returned(response: Response)

  /** The value `get` returns, and how many requests it issued to get it. */
  datatype Fetched = Fetched(response: Option<Response>, requests: nat)

  /** `get` is first called without `retry`, which then becomes 6. */
  const DefaultRetry: nat := 6

  /**
   * get(url, retry): `net(i)` is the outcome of the i-th request sent to the url,
   * `first` the number of requests sent before this call. It returns the first
   * response that does not raise, whatever its status, and None only when every
   * one of its retry + 1 requests raised.
   */
  function Get(net: nat -> Attempt, retry: nat, first: nat): (r: Fetched)
    ensures 1 <= r.requests <= retry + 1
    ensures forall i :: first <= i < first + r.requests - 1 ==> net(i).Raised?
    ensures r.response.Some? ==> net(first + r.requests - 1) == Returned(r.response.value)
    ensures r.response.None? <==> r.requests == retry + 1 && net(first + retry).Raised?
    decreases retry
  {
    match net(first)
    case Returned(resp) => Fetched(Some(resp), 1)
    case Raised =>
      if retry > 0 then
        var rest := Get(net, retry - 1, first + 1);
        Fetched(rest.response, rest.requests + 1)
      else Fetched(None, 1)
  }

  /** The call `sync` makes: self.get(self.json_url). */
  function FetchFeed(net: nat -> Attempt): Fetched {
    Get(net, DefaultRetry, 0)
  }

  /** At most seven requests (the first and six retries); None only if all seven raised. */
  lemma FetchFeedBound(net: nat -> Attempt)
    ensures FetchFeed(net).requests <= 7
    ensures FetchFeed(net).response.None? <==> forall i :: 0 <= i < 7 ==> net(i).Raised?
  {
  }

  /** What `sync` does with the fetched response before parsing it. */
  datatype Gate = Proceed(content: string) | Exit(code: int) | AttributeError

  /**
   * Lines 333-335 as written: the error message formats r.status_code, which
   * raises AttributeError when `get` gave up and returned None.
   */
  function FeedGateAsWritten(r: Option<Response>): (g: Gate)
    ensures r.None? ==> g == AttributeError
    ensures r.Some? && r.value.status != 200 ==> g == Exit(1)
    ensures r.Some? && r.value.status == 200 ==> g == Proceed(r.value.content)
  {
    if r.None? then AttributeError
    else if r.value.status != 200 then Exit(1)
    else Proceed(r.value.content)
  }

  /** The gate as intended: log the failure and exit with status 1. */
  function FeedGate(r: Option<Response>): (g: Gate)
    ensures g.Proceed? <==> r.Some? && r.value.status == 200
    ensures g.Proceed? ==> g.content == r.value.content
    ensures !g.Proceed? ==> g == Exit(1)
  {
    if r.None? || r.value.status != 200 then Exit(1) else Proceed(r.value.content)
  }

  /** When every request raises, the script as written crashes instead of exiting with status 1. */
  lemma GateCrashesWhenFetchGivesUp(net: nat -> Attempt)
    requires forall i :: 0 <= i < 7 ==> net(i).Raised?
    ensures FeedGateAsWritten(FetchFeed(net).response) == AttributeError
    ensures FeedGate(FetchFeed(net).response) == Exit(1)
  {
    FetchFeedBound(net);
  }
}

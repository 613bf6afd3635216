/** The request-with-retry logic of the cloud platforms (`async_solax_dashboard_request`,
    identical in the battery and inverter files). Every attempt's network result is an
    input; the schema that shapes a received body is a parameter. */
module Client {
  import opened Errors

  /** What one attempt of the network call produced. */
  datatype Attempt<+B> =
    | Timeout             // `asyncio.TimeoutError` inside the request timeout
    | ClientError         // `aiohttp.ClientError`
    | Received(body: B)   // a response body, still to be decoded and validated

  /** What decoding and validating a body gave. */
  datatype Decoded<+T> =
    | Accepted(value: T)  // the schema returned its shaped value
    | NotJson             // `ValueError`: the body is not JSON
    | SchemaInvalid       // `vol.Invalid`: JSON of the wrong shape

  /** How a request ended, and the `wait_time` each attempt was called with. */
  datatype Trace<+T> = Trace(result: Outcome<T>, waits: seq<nat>)

  /** The `retry` the refresh methods pass. */
  const InitialRetry: int := 3

  /** The backoff step: `new_wait = (wait_time*2)+5`. */
  function NextWait(w: nat): nat { 2 * w + 5 }

  /** The most attempts a request called with `retry` can make. */
  function MaxAttempts(retry: int): nat { if retry <= 1 then 1 else retry }

  /** How the attempt that settled a request determines its result; `last` tells
      whether the retry budget was used up by that attempt. */
  ghost predicate Settles<B, T>(accept: B -> Decoded<T>, a: Attempt<B>, last: bool, r: Outcome<T>)
  {
    match a
    case Timeout => last && r == Raised(SolaxRequestError)
    case ClientError => r == Raised(SolaxRequestError)
    case Received(b) =>
      if accept(b).Accepted? then r == Returned(accept(b).value) else r == Raised(SolaxRequestError)
  }

  /** The result of a settling attempt, as the `try`/`except` ladder computes it. */
  function SettleWith<B, T>(accept: B -> Decoded<T>, a: Attempt<B>): Outcome<T>
  {
    match a
    case Received(b) =>
      (match accept(b)
       case Accepted(v) => Returned(v)
       case _ => Raised(SolaxRequestError))
    case _ => Raised(SolaxRequestError)
  }

  /** The recursive request: attempt `outcomes[0]`; on a timeout recurse with the
      decremented `retry` and the next wait while that `retry` is positive. */
  function Request<B, T>(accept: B -> Decoded<T>, outcomes: seq<Attempt<B>>, retry: int, wait: nat): (t: Trace<T>)
    requires MaxAttempts(retry) <= |outcomes|
    ensures 1 <= |t.waits| <= MaxAttempts(retry)
    ensures t.waits[0] == wait
    ensures forall i :: 0 < i < |t.waits| ==> t.waits[i] == NextWait(t.waits[i - 1])
    ensures forall i :: 0 <= i < |t.waits| - 1 ==> outcomes[i].Timeout?
    ensures Settles(accept, outcomes[|t.waits| - 1], |t.waits| == MaxAttempts(retry), t.result)
    decreases retry
  {
    var left := retry - 1;
    if outcomes[0].Timeout? && left > 0 then
      var rest := Request(accept, outcomes[1..], left, NextWait(wait));
      assert outcomes[1..][|rest.waits| - 1] == outcomes[|rest.waits|];
      Trace(rest.result, [wait] + rest.waits)
    else
      Trace(SettleWith(accept, outcomes[0]), [wait])
  }

  /** The same request as a bounded loop carrying `(retry, wait_time)` and recording
      the wait of every attempt it makes. */
  method RequestLoop<B, T>(accept: B -> Decoded<T>, outcomes: seq<Attempt<B>>, retry: int) returns (t: Trace<T>)
    requires MaxAttempts(retry) <= |outcomes|
    ensures t == Request(accept, outcomes, retry, 0)
  {
    var i, left, wait, waits := 0, retry, 0, [];
    while true
      invariant 0 <= i < |outcomes| && MaxAttempts(left) <= |outcomes| - i
      invariant Request(accept, outcomes, retry, 0).waits == waits + Request(accept, outcomes[i..], left, wait).waits
      invariant Request(accept, outcomes, retry, 0).result == Request(accept, outcomes[i..], left, wait).result
      decreases left
    {
      if outcomes[i].Timeout? && left - 1 > 0 {
        assert outcomes[i..][1..] == outcomes[i + 1..];
        waits := waits + [wait];
        i, left, wait := i + 1, left - 1, NextWait(wait);
      } else {
        return Trace(SettleWith(accept, outcomes[i]), waits + [wait]);
      }
    }
  }

  /** With the refresh methods' `retry = 3`, the waits are a prefix of 0, 5, 15. */
  lemma DefaultWaits<B, T>(accept: B -> Decoded<T>, outcomes: seq<Attempt<B>>)
    requires InitialRetry <= |outcomes|
    ensures var w := Request(accept, outcomes, InitialRetry, 0).waits;
      1 <= |w| <= 3 && w == [0, 5, 15][..|w|]
  {
  }

  /** Three timeouts in a row exhaust the default budget: three attempts, then
      `SolaxRequestError`. */
  lemma ThreeTimeoutsFail<B, T>(accept: B -> Decoded<T>, outcomes: seq<Attempt<B>>)
    requires InitialRetry <= |outcomes|
    requires outcomes[0].Timeout? && outcomes[1].Timeout? && outcomes[2].Timeout?
    ensures Request(accept, outcomes, InitialRetry, 0) == Trace(Raised(SolaxRequestError), [0, 5, 15])
  {
  }

  /** A failure other than a timeout ends the request after one attempt, with
      `SolaxRequestError` unless the body was accepted. */
  lemma NoRetryUnlessTimeout<B, T>(accept: B -> Decoded<T>, outcomes: seq<Attempt<B>>, retry: int, wait: nat)
    requires MaxAttempts(retry) <= |outcomes|
    requires !outcomes[0].Timeout?
    ensures var t := Request(accept, outcomes, retry, wait);
      t.waits == [wait] &&
      (t.result.Returned? <==> outcomes[0].Received? && accept(outcomes[0].body).Accepted?) &&
      (t.result.Raised? ==> t.result.error == SolaxRequestError)
  {
  }

  /** The only exception a request raises is `SolaxRequestError`, and it returns
      exactly when some attempt's body was accepted after timeouts only. */
  lemma ReturnsOnlyAccepted<B, T>(accept: B -> Decoded<T>, outcomes: seq<Attempt<B>>, retry: int, wait: nat)
    requires MaxAttempts(retry) <= |outcomes|
    ensures var t := Request(accept, outcomes, retry, wait);
      (t.result.Raised? ==> t.result.error == SolaxRequestError) &&
      (t.result.Returned? ==>
         exists k :: 0 <= k < |outcomes| && outcomes[k].Received? && accept(outcomes[k].body) == Accepted(t.result.value))
  {
    var t := Request(accept, outcomes, retry, wait);
    var k := |t.waits| - 1;
    if t.result.Returned? {
      assert outcomes[k].Received? && accept(outcomes[k].body) == Accepted(t.result.value);
    }
  }

  /** Two to the power `i`. */
  function Pow2(i: nat): nat { if i == 0 then 1 else 2 * Pow2(i - 1) }

  /** Closed form of the backoff: the `i`-th wait of a request started at 0 is 5*(2^i - 1). */
  lemma {:induction false} WaitsClosedForm<B, T>(accept: B -> Decoded<T>, outcomes: seq<Attempt<B>>, retry: int, i: nat)
    requires MaxAttempts(retry) <= |outcomes|
    requires i < |Request(accept, outcomes, retry, 0).waits|
    ensures Request(accept, outcomes, retry, 0).waits[i] == 5 * (Pow2(i) - 1)
  {
    if i > 0 {
      WaitsClosedForm(accept, outcomes, retry, i - 1);
    }
  }
}

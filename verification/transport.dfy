/**
 * BaseFetcher._request: a GET retried at most three times while GitHub
 * answers 403, sleeping between attempts either until the rate-limit reset
 * (capped at 10 s) or by a doubling backoff capped at 5 s.
 */
module Transport {

  import opened Wrappers

  const MaxRetries: nat := 3
  const RateLimited: int := 403

  /**
   * The part of an HTTP response the retry policy looks at: the status code
   * and the X-RateLimit-Reset header, present only when it is a string of
   * decimal digits.
   */
  datatype Response = Response(status: int, reset: Option<nat>)

  /** One GET as seen by the client: the response and the clock reading (seconds) taken after it. */
  datatype Attempt = Attempt(response: Response, now: int)

  function Min(a: int, b: int): int { if a <= b then a else b }
  function Max(a: int, b: int): int { if a >= b then a else b }

  /** The backoff in force before attempt k: 2, doubled after each 403 without a usable reset, capped at 5. */
  function BackoffAt(world: nat -> Attempt, k: nat): int
  {
    if k == 0 then 2
    else if world(k - 1).response.reset.Some? then BackoffAt(world, k - 1)
    else Min(BackoffAt(world, k - 1) * 2, 5)
  }

  /** The sleep that follows a 403 at attempt k. */
  function WaitAt(world: nat -> Attempt, k: nat): int
  {
    var a := world(k);
    if a.response.reset.Some? then Min(Max(0, a.response.reset.value - a.now) + 1, 10)
    else Min(BackoffAt(world, k), 5)
  }

  /**
   * Performs the GETs world(0), world(1), ... and returns the first response
   * that is not a 403, or the third 403 once the retries are exhausted; the
   * sleeps taken are recorded in waits.
   */
  method Request(world: nat -> Attempt) returns (resp: Response, waits: seq<int>, gets: nat)
    ensures 1 <= gets <= MaxRetries
    ensures resp == world(gets - 1).response
    ensures forall k :: 0 <= k < gets - 1 ==> world(k).response.status == RateLimited
    ensures resp.status == RateLimited ==> gets == MaxRetries
    ensures |waits| == (if resp.status == RateLimited then gets else gets - 1)
    ensures forall k :: 0 <= k < |waits| ==> waits[k] == WaitAt(world, k)
  {
    var backoff := 2;
    var attempt := 0;
    waits := [];
    gets := 0;
    while attempt < MaxRetries
      invariant 0 <= attempt <= MaxRetries - 1
      invariant gets == attempt
      invariant backoff == BackoffAt(world, attempt)
      invariant |waits| == attempt
      invariant forall k :: 0 <= k < attempt ==> world(k).response.status == RateLimited
      invariant forall k :: 0 <= k < attempt ==> waits[k] == WaitAt(world, k)
      decreases MaxRetries - attempt
    {
      var a := world(attempt);
      resp := a.response;
      gets := gets + 1;
      if resp.status == RateLimited {
        var wait;
        if resp.reset.Some? {
          wait := Min(Max(0, resp.reset.value - a.now) + 1, 10);
        } else {
          wait := Min(backoff, 5);
          backoff := Min(backoff * 2, 5);
        }
        waits := waits + [wait];
        if attempt == MaxRetries - 1 {
          break;
        }
        attempt := attempt + 1;
        continue;
      }
      return;
    }
  }

  /** Every sleep lies between 1 and 10 seconds, whichever branch computed it. */
  lemma {:induction false} WaitBounds(world: nat -> Attempt, k: nat)
    ensures 1 <= WaitAt(world, k) <= 10
  {
    BackoffBounds(world, k);
  }

  lemma {:induction false} BackoffBounds(world: nat -> Attempt, k: nat)
    ensures 2 <= BackoffAt(world, k) <= 5
  {
    if k > 0 {
      BackoffBounds(world, k - 1);
    }
  }

  /** With a numeric reset header the wait is the time to the reset plus one second, capped at 10. */
  lemma ResetWait(world: nat -> Attempt, k: nat)
    requires world(k).response.reset.Some?
    ensures world(k).response.reset.value >= world(k).now + 9 ==> WaitAt(world, k) == 10
    ensures world(k).response.reset.value <= world(k).now ==> WaitAt(world, k) == 1
    ensures world(k).now < world(k).response.reset.value < world(k).now + 9 ==>
              WaitAt(world, k) == world(k).response.reset.value - world(k).now + 1
  {
  }

  /** Three rate-limited answers without a usable reset header: sleeps of 2, 4 and 5 seconds. */
  lemma BackoffSchedule(world: nat -> Attempt)
    requires forall k :: 0 <= k < MaxRetries ==> world(k).response == Response(RateLimited, None)
    ensures WaitAt(world, 0) == 2 && WaitAt(world, 1) == 4 && WaitAt(world, 2) == 5
  {
    assert BackoffAt(world, 1) == 4 by { assert world(0).response.reset.None?; }
    assert BackoffAt(world, 2) == 5 by { assert world(1).response.reset.None?; }
  }

  /** An exhausted request returns the last 403 after sleeping 2, 4 and 5 seconds. */
  method RequestExhausted(world: nat -> Attempt) returns (resp: Response, waits: seq<int>)
    requires forall k :: 0 <= k < MaxRetries ==> world(k).response == Response(RateLimited, None)
    ensures resp == Response(RateLimited, None)
    ensures waits == [2, 4, 5]
  {
    var gets;
    resp, waits, gets := Request(world);
    BackoffSchedule(world);
  }
}

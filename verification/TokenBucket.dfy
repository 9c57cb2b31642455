/**
  The token bucket that throttles the transport (raiden/network/throttle.py), over real numbers. The
  clock is a parameter: `now` is what it would show if the operation read it.
 */
module TokenBucket {
  import opened Wrappers

  datatype Bucket = Bucket(tokens: real, timestamp: real)

  datatype Rates = Rates(capacity: real, fillRate: real)

  function Refilled(b: Bucket, rates: Rates, now: real): Bucket {
    var tokens := b.tokens + rates.fillRate * (now - b.timestamp);
    Bucket(if tokens > rates.capacity then rates.capacity else tokens, now)
  }

  /** Takes the tokens first and refills only when that leaves a debt. */
  function Consumed(b: Bucket, rates: Rates, amount: real, now: real): Bucket {
    var taken := b.(tokens := b.tokens - amount);
    if taken.tokens < 0.0 then Refilled(taken, rates, now) else taken
  }

  /** How long the caller has to wait; with a debt and no fill rate the division raises. */
  function WaitTime(b: Bucket, rates: Rates): Option<real> {
    if b.tokens >= 0.0 then Some(0.0)
    else if rates.fillRate == 0.0 then None
    else Some(-b.tokens / rates.fillRate)
  }

  class Throttle {
    const rates: Rates
    var tokens: real
    var timestamp: real

    ghost function View(): Bucket
      reads this
    {
      Bucket(tokens, timestamp)
    }

    constructor (capacity: real, fillRate: real, now: real)
      ensures rates == Rates(capacity, fillRate) && View() == Bucket(capacity, now)
    {
      rates, tokens, timestamp := Rates(capacity, fillRate), capacity, now;
    }

    method Consume(amount: real, now: real) returns (waitTime: Option<real>)
      modifies this
      ensures View() == Consumed(old(View()), rates, amount, now)
      ensures waitTime == WaitTime(View(), rates)
    {
      waitTime := Some(0.0);
      tokens := tokens - amount;
      if tokens < 0.0 {
        GetTokens(now);
      }
      if tokens < 0.0 {
        if rates.fillRate == 0.0 {
          return None;
        }
        waitTime := Some(-tokens / rates.fillRate);
      }
    }

    method GetTokens(now: real)
      modifies this
      ensures View() == Refilled(old(View()), rates, now)
    {
      tokens := tokens + rates.fillRate * (now - timestamp);
      if tokens > rates.capacity {
        tokens := rates.capacity;
      }
      timestamp := now;
    }
  }

  // ---------------------------------------------------------------- every run

  datatype Request = Request(amount: real, now: real)

  function Total(requests: seq<Request>): real {
    if requests == [] then 0.0 else requests[0].amount + Total(requests[1..])
  }

  function After(b: Bucket, rates: Rates, requests: seq<Request>): Bucket
    decreases |requests|
  {
    if requests == [] then b else After(Consumed(b, rates, requests[0].amount, requests[0].now), rates, requests[1..])
  }

  /** The clock never runs backwards and nobody asks for a negative amount. */
  ghost predicate Orderly(time: real, requests: seq<Request>)
    decreases |requests|
  {
    requests == [] ||
    (time <= requests[0].now && requests[0].amount >= 0.0 && Orderly(requests[0].now, requests[1..]))
  }

  /** What has been taken and what is left never exceed the capacity and what has flowed in. */
  ghost predicate Balanced(b: Bucket, rates: Rates, start: real, taken: real, time: real) {
    && b.timestamp <= time && b.tokens <= rates.capacity
    && b.tokens + taken <= rates.capacity + rates.fillRate * (b.timestamp - start)
  }

  lemma ConsumeKeepsBalance(b: Bucket, rates: Rates, start: real, taken: real, time: real, r: Request)
    requires rates.fillRate >= 0.0 && Balanced(b, rates, start, taken, time)
    requires time <= r.now && r.amount >= 0.0
    ensures Balanced(Consumed(b, rates, r.amount, r.now), rates, start, taken + r.amount, r.now)
  {
    var rate := rates.fillRate;
    assert rate * (b.timestamp - start) + rate * (r.now - b.timestamp) == rate * (r.now - start);
    assert rate * (r.now - b.timestamp) >= 0.0;
  }

  lemma {:induction false} RunKeepsBalance(b: Bucket, rates: Rates, start: real, taken: real, time: real, requests: seq<Request>)
    requires rates.fillRate >= 0.0 && Balanced(b, rates, start, taken, time) && Orderly(time, requests)
    ensures Balanced(After(b, rates, requests), rates, start, taken + Total(requests), LastTime(time, requests))
    decreases |requests|
  {
    if requests != [] {
      ConsumeKeepsBalance(b, rates, start, taken, time, requests[0]);
      RunKeepsBalance(Consumed(b, rates, requests[0].amount, requests[0].now), rates, start,
                      taken + requests[0].amount, requests[0].now, requests[1..]);
    }
  }

  function LastTime(time: real, requests: seq<Request>): real
    decreases |requests|
  {
    if requests == [] then time else LastTime(requests[0].now, requests[1..])
  }

  /** A full bucket and what has flowed in since `start`. */
  function FlowedIn(rates: Rates, start: real, until: real): real {
    rates.capacity + rates.fillRate * (until - start)
  }

  /**
    By the time the last caller has waited as told, everything taken since the bucket was created fits
    in one full bucket plus what has flowed in, however the requests were spaced.
   */
  lemma TakenFitsWhatFlowedIn(rates: Rates, start: real, requests: seq<Request>)
    requires rates.fillRate >= 0.0 && Orderly(start, requests)
    ensures var b := After(Bucket(rates.capacity, start), rates, requests);
      && b.tokens <= rates.capacity
      && (WaitTime(b, rates) == None <==> rates.fillRate == 0.0 && b.tokens < 0.0)
      && (WaitTime(b, rates).Some? ==>
           && 0.0 <= WaitTime(b, rates).value
           && Total(requests) <= FlowedIn(rates, start, LastTime(start, requests) + WaitTime(b, rates).value))
  {
    FullBucketRun(rates, start, requests);
    var b := After(Bucket(rates.capacity, start), rates, requests);
    if WaitTime(b, rates).Some? {
      WaitCoversDebt(b, rates, start, Total(requests), LastTime(start, requests));
    }
  }

  lemma FullBucketRun(rates: Rates, start: real, requests: seq<Request>)
    requires rates.fillRate >= 0.0 && Orderly(start, requests)
    ensures Balanced(After(Bucket(rates.capacity, start), rates, requests), rates, start, Total(requests),
                     LastTime(start, requests))
  {
    assert Balanced(Bucket(rates.capacity, start), rates, start, 0.0, start);
    RunKeepsBalance(Bucket(rates.capacity, start), rates, start, 0.0, start, requests);
    assert 0.0 + Total(requests) == Total(requests);
  }

  lemma WaitCoversDebt(b: Bucket, rates: Rates, start: real, taken: real, time: real)
    requires rates.fillRate >= 0.0 && Balanced(b, rates, start, taken, time)
    requires WaitTime(b, rates).Some?
    ensures 0.0 <= WaitTime(b, rates).value
    ensures taken <= FlowedIn(rates, start, time + WaitTime(b, rates).value)
  {
    var rate, wait := rates.fillRate, WaitTime(b, rates).value;
    assert rate * (time - start) == rate * (b.timestamp - start) + rate * (time - b.timestamp);
    assert rate * (time - b.timestamp) >= 0.0;
    assert rate * (time + wait - start) == rate * (time - start) + rate * wait;
    if b.tokens < 0.0 {
      DivideThenMultiply(-b.tokens, rate);
    }
  }

  /**
    The wait is exact: after it the debt is gone and nothing more has come in, and after any shorter time
    there is still a debt.
   */
  lemma WaitIsExact(b: Bucket, rates: Rates, waited: real)
    requires rates.fillRate > 0.0 && rates.capacity >= 0.0 && b.tokens < 0.0 && waited >= 0.0
    ensures WaitTime(b, rates).Some? && WaitTime(b, rates).value > 0.0
    ensures Refilled(b, rates, b.timestamp + WaitTime(b, rates).value).tokens == 0.0
    ensures Refilled(b, rates, b.timestamp + waited).tokens < 0.0 <==> waited < WaitTime(b, rates).value
  {
    var rate, wait := rates.fillRate, WaitTime(b, rates).value;
    DivideThenMultiply(-b.tokens, rate);
    assert b.timestamp + wait - b.timestamp == wait && b.timestamp + waited - b.timestamp == waited;
    if waited < wait {
      assert rate * (wait - waited) > 0.0;
      assert rate * wait == rate * waited + rate * (wait - waited);
    } else {
      assert rate * (waited - wait) >= 0.0;
      assert rate * waited == rate * wait + rate * (waited - wait);
    }
  }

  /** A request that the bucket can serve takes exactly its amount, at once, and leaves the clock alone. */
  lemma ServedAtOnce(b: Bucket, rates: Rates, amount: real, now: real)
    requires amount <= b.tokens
    ensures Consumed(b, rates, amount, now) == Bucket(b.tokens - amount, b.timestamp)
    ensures WaitTime(Consumed(b, rates, amount, now), rates) == Some(0.0)
  {
  }

  /** A request beyond that is served from what has come in since the last refill, up to the capacity. */
  lemma ServedFromRefill(b: Bucket, rates: Rates, amount: real, now: real)
    requires amount > b.tokens
    ensures var after := Consumed(b, rates, amount, now);
      && after.timestamp == now
      && after.tokens + amount <= b.tokens + rates.fillRate * (now - b.timestamp) && after.tokens <= rates.capacity
      && (after.tokens + amount == b.tokens + rates.fillRate * (now - b.timestamp) || after.tokens == rates.capacity)
  {
  }

  /** Refilling in between makes no difference. */
  lemma RefillsCompose(b: Bucket, rates: Rates, between: real, now: real)
    requires rates.fillRate >= 0.0 && b.timestamp <= between <= now
    ensures Refilled(Refilled(b, rates, between), rates, now) == Refilled(b, rates, now)
  {
    var rate := rates.fillRate;
    assert rate * (now - b.timestamp) == rate * (between - b.timestamp) + rate * (now - between);
    assert rate * (now - between) >= 0.0;
  }

  lemma DivideThenMultiply(x: real, y: real)
    requires x > 0.0 && y > 0.0
    ensures y * (x / y) == x && x / y > 0.0
  {
    var q := x / y;
    assert q * y == x;
    assert q > 0.0;
  }
}

/**
  The item rate limiter: a token bucket refilled by elapsed time. Reals stand for the program's floating
  point; clock readings and cancellation are inputs.
*/
module TokenBucket {
  datatype Bucket = Bucket(rate: real, capacity: real, tokens: real, lastRefill: real)

  /** What the loop finds each time round: cancelled (also while waiting), or the time. */
  datatype Reading = Cancelled | Clock(now: real)

  datatype Outcome = Granted | Refused | Waiting

  predicate Valid(b: Bucket) {
    b.capacity >= 1.0 && 0.0 <= b.tokens <= b.capacity
  }

  function New(rate: nat, burst: nat, now: real): (b: Bucket)
    ensures Valid(b) && b.tokens == b.capacity && b.lastRefill == now
    ensures b.rate == rate as real && b.capacity >= burst as real && (burst >= 1 ==> b.capacity == burst as real)
    ensures burst == 0 ==> b.capacity == 1.0
  {
    var capacity := if burst >= 1 then burst as real else 1.0;
    Bucket(rate as real, capacity, capacity, now)
  }

  /** duration_since saturates at zero. */
  function Elapsed(b: Bucket, now: real): real {
    if now >= b.lastRefill then now - b.lastRefill else 0.0
  }

  function Refilled(b: Bucket, now: real): real {
    var tokens := b.tokens + Elapsed(b, now) * b.rate;
    if tokens <= b.capacity then tokens else b.capacity
  }

  predicate Grants(b: Bucket, now: real) {
    Refilled(b, now) >= 1.0
  }

  /** One turn of the loop. */
  function Poll(b: Bucket, now: real): Bucket {
    var tokens := Refilled(b, now);
    b.(tokens := if tokens >= 1.0 then tokens - 1.0 else tokens, lastRefill := now)
  }

  /** How long a refused caller waits before looking again. */
  function Wait(b: Bucket): real
    requires b.rate > 0.0
  {
    (1.0 - b.tokens) / b.rate
  }

  lemma ProductNonNegative(x: real, y: real)
    requires x >= 0.0 && y >= 0.0
    ensures x * y >= 0.0
  {
  }

  lemma PollValid(b: Bucket, now: real)
    requires Valid(b) && b.rate > 0.0
    ensures Valid(Poll(b, now))
  {
  }

  lemma ProductOrder(x: real, y: real, r: real)
    requires r > 0.0
    ensures x >= y / r <==> x * r >= y
  {
  }

  /** The wait is exact: after a refusal, a poll succeeds from the end of the wait on and not before. */
  lemma WaitIsExact(b: Bucket, now: real, later: real)
    requires Valid(b) && b.rate > 0.0 && !Grants(b, now) && now <= later
    ensures Grants(Poll(b, now), later) <==> later >= now + Wait(Poll(b, now))
  {
    var p := Poll(b, now);
    ProductOrder(later - now, 1.0 - p.tokens, b.rate);
  }

  /** A poll loses nothing but what does not fit the bucket. */
  lemma NothingLost(b: Bucket, now: real)
    requires Valid(b) && b.rate > 0.0 && now >= b.lastRefill
    ensures var after := Poll(b, now).tokens + if Grants(b, now) then 1.0 else 0.0;
            if b.tokens + (now - b.lastRefill) * b.rate <= b.capacity
            then after == b.tokens + (now - b.lastRefill) * b.rate else after == b.capacity
    ensures Poll(b, now).lastRefill == now
    ensures Grants(b, now) <==> b.tokens + (now - b.lastRefill) * b.rate >= 1.0
  {
    assert Elapsed(b, now) == now - b.lastRefill;
    var brought := Elapsed(b, now) * b.rate;
    assert brought == (now - b.lastRefill) * b.rate;
  }

  function Polled(b: Bucket, now: real, n: nat): Bucket {
    if n == 0 then b else Poll(Polled(b, now, n - 1), now)
  }

  lemma NothingAtOnce(b: Bucket, now: real)
    requires b.lastRefill == now && b.tokens <= b.capacity
    ensures Refilled(b, now) == b.tokens
  {
    assert Elapsed(b, now) == 0.0;
  }

  /** As many calls are let through at once as there are whole tokens. */
  lemma {:induction false} BurstIsServed(b: Bucket, now: real, n: nat)
    requires b.tokens <= b.capacity && b.lastRefill == now && n as real + 1.0 <= b.tokens
    ensures Grants(Polled(b, now, n), now)
    ensures Polled(b, now, n) == b.(tokens := b.tokens - n as real)
  {
    if n > 0 {
      BurstIsServed(b, now, n - 1);
      NothingAtOnce(Polled(b, now, n - 1), now);
    }
    NothingAtOnce(Polled(b, now, n), now);
  }

  // ---------------------------------------------------------------- the limiter object

  /** acquire over the readings its loop takes; Waiting when they run out. */
  function Acquired(b: Bucket, readings: seq<Reading>): (Outcome, Bucket)
    decreases |readings|
  {
    if readings == [] then (Waiting, b)
    else if b.rate <= 0.0 then (if readings[0].Cancelled? then Refused else Granted, b)
    else if readings[0].Cancelled? then (Refused, b)
    else
      var p := Poll(b, readings[0].now);
      if Grants(b, readings[0].now) then (Granted, p) else Acquired(p, readings[1..])
  }

  /** The bucket after polls at these readings that were all refused. */
  function AfterPolls(b: Bucket, readings: seq<Reading>): Bucket {
    if readings == [] then b
    else
      var front := AfterPolls(b, readings[..|readings| - 1]);
      var last := readings[|readings| - 1];
      if last.Clock? then Poll(front, last.now) else front
  }

  predicate Passes(b: Bucket, readings: seq<Reading>, i: nat)
    requires i < |readings|
  {
    readings[i].Clock? && !Grants(AfterPolls(b, readings[..i]), readings[i].now)
  }

  lemma {:induction false} AfterPollsFrom(b: Bucket, readings: seq<Reading>)
    requires readings != [] && readings[0].Clock?
    ensures AfterPolls(b, readings) == AfterPolls(Poll(b, readings[0].now), readings[1..])
  {
    var n := |readings| - 1;
    if n == 0 {
      assert readings[..0] == [] && readings[1..] == [];
    } else {
      AfterPollsFrom(b, readings[..n]);
      assert readings[..n][1..] == readings[1..][..n - 1];
    }
  }

  /** Without a rate only a cancellation refuses. */
  lemma NoRateNoLimit(b: Bucket, readings: seq<Reading>)
    requires b.rate == 0.0 && readings != []
    ensures Acquired(b, readings).0 == Refused <==> readings[0].Cancelled?
    ensures Acquired(b, readings).0 == Granted <==> readings[0].Clock?
  {
  }

  /** With a rate set, the first reading that is a cancellation or finds a token decides. */
  lemma {:induction false} FirstDecides(b: Bucket, readings: seq<Reading>, i: nat)
    requires b.rate > 0.0 && i <= |readings| && forall j :: 0 <= j < i ==> Passes(b, readings, j)
    ensures i == |readings| ==> Acquired(b, readings) == (Waiting, AfterPolls(b, readings))
    ensures i < |readings| && readings[i].Cancelled? ==> Acquired(b, readings).0 == Refused
    ensures i < |readings| && readings[i].Clock? && Grants(AfterPolls(b, readings[..i]), readings[i].now) ==>
              Acquired(b, readings) == (Granted, Poll(AfterPolls(b, readings[..i]), readings[i].now))
    decreases |readings|
  {
    if i > 0 {
      assert Passes(b, readings, 0) && readings[..0] == [];
      var p, rest := Poll(b, readings[0].now), readings[1..];
      forall j | 0 <= j < i - 1 ensures Passes(p, rest, j) {
        assert Passes(b, readings, j + 1);
        AfterPollsFrom(b, readings[..j + 1]);
        assert readings[..j + 1][1..] == rest[..j];
      }
      FirstDecides(p, rest, i - 1);
      AfterPollsFrom(b, readings[..i]);
      assert readings[..i][1..] == rest[..i - 1];
      assert i == |readings| ==> readings[..i] == readings;
    } else {
      assert readings[..0] == [];
    }
  }

  class ItemRateLimiter {
    const rate: real
    const capacity: real
    var tokens: real
    var lastRefill: real

    function View(): Bucket
      reads this
    {
      Bucket(rate, capacity, tokens, lastRefill)
    }

    constructor (itemRate: nat, burst: nat, now: real)
      ensures View() == New(itemRate, burst, now)
    {
      rate := itemRate as real;
      var room := if burst >= 1 then burst as real else 1.0;
      capacity, tokens, lastRefill := room, room, now;
    }

    method TryOnce(now: real) returns (granted: bool)
      requires Valid(View()) && rate > 0.0
      modifies this
      ensures Valid(View()) && View() == Poll(old(View()), now) && granted == Grants(old(View()), now)
    {
      PollValid(View(), now);
      var elapsed := if now >= lastRefill then now - lastRefill else 0.0;
      var filled := tokens + elapsed * rate;
      tokens := if filled <= capacity then filled else capacity;
      lastRefill := now;
      granted := tokens >= 1.0;
      if granted {
        tokens := tokens - 1.0;
      }
    }

    method Acquire(readings: seq<Reading>) returns (outcome: Outcome)
      requires Valid(View())
      modifies this
      ensures Valid(View())
      ensures (outcome, View()) == Acquired(old(View()), readings)
    {
      if readings == [] {
        return Waiting;
      }
      if rate <= 0.0 {
        return if readings[0].Cancelled? then Refused else Granted;
      }
      var i := 0;
      while i < |readings|
        invariant 0 <= i <= |readings| && Valid(View())
        invariant Acquired(View(), readings[i..]) == Acquired(old(View()), readings)
      {
        if readings[i].Cancelled? {
          return Refused;
        }
        assert readings[i..][0] == readings[i] && readings[i..][1..] == readings[i + 1..];
        var granted := TryOnce(readings[i].now);
        if granted {
          return Granted;
        }
        i := i + 1;
      }
      outcome := Waiting;
    }
  }

  // ---------------------------------------------------------------- the rate bound

  /** The bucket before each poll of a run, and after the last. */
  ghost predicate Run(buckets: seq<Bucket>, times: seq<real>) {
    && |buckets| == |times| + 1
    && Valid(buckets[0]) && buckets[0].rate > 0.0
    && (forall i :: 0 <= i < |times| ==> buckets[0].lastRefill <= times[i])
    && (forall i, j :: 0 <= i < j < |times| ==> times[i] <= times[j])
    && (forall i :: 0 <= i < |times| ==> Turn(buckets, times, i))
  }

  ghost predicate Turn(buckets: seq<Bucket>, times: seq<real>, i: nat)
    requires i < |times| && |buckets| == |times| + 1
  {
    buckets[i + 1] == Poll(buckets[i], times[i])
  }

  ghost function Granting(buckets: seq<Bucket>, times: seq<real>): (g: seq<bool>)
    requires |buckets| == |times| + 1
    ensures |g| == |times|
  {
    seq(|times|, i requires 0 <= i < |times| => Grants(buckets[i], times[i]))
  }

  /** Grants among entries i..j. */
  function Count(grants: seq<bool>, i: nat, j: nat): (n: nat)
    requires i <= j <= |grants|
    decreases j
  {
    if i == j then 0 else Count(grants, i, j - 1) + (if grants[j - 1] then 1 else 0)
  }

  lemma {:induction false} RunValid(buckets: seq<Bucket>, times: seq<real>, n: nat)
    requires Run(buckets, times) && n <= |times|
    ensures Valid(buckets[n]) && buckets[n].rate == buckets[0].rate && buckets[n].capacity == buckets[0].capacity
    ensures n > 0 ==> buckets[n].lastRefill == times[n - 1]
  {
    if n > 0 {
      RunValid(buckets, times, n - 1);
      assert Turn(buckets, times, n - 1);
      PollValid(buckets[n - 1], times[n - 1]);
    }
  }

  /** A poll spends out of what was there and what time brought, and out of a full bucket at most. */
  lemma PollSpends(b: Bucket, now: real)
    requires Valid(b) && b.rate > 0.0 && now >= b.lastRefill
    ensures (if Grants(b, now) then 1.0 else 0.0) + Poll(b, now).tokens <= b.tokens + (now - b.lastRefill) * b.rate
    ensures (if Grants(b, now) then 1.0 else 0.0) + Poll(b, now).tokens <= b.capacity
  {
  }

  function Paid(granted: bool): real {
    if granted then 1.0 else 0.0
  }

  /** The run as an account: earned[k] is what the clock has brought by poll k. */
  ghost predicate Ledger(tokens: seq<real>, grants: seq<bool>, earned: seq<real>, capacity: real) {
    && |tokens| == |grants| + 1 && |earned| == |grants|
    && (forall k :: 0 <= k < |grants| ==> Paid(grants[k]) + tokens[k + 1] <= capacity)
    && (forall k :: 0 < k < |grants| ==> Paid(grants[k]) + tokens[k + 1] <= tokens[k] + earned[k] - earned[k - 1])
  }

  /** What polls i..j spent plus what is left is at most a full bucket plus what time brought. */
  lemma {:induction false} Spent(tokens: seq<real>, grants: seq<bool>, earned: seq<real>, capacity: real, i: nat, j: nat)
    requires Ledger(tokens, grants, earned, capacity) && i < j <= |grants|
    ensures Count(grants, i, j) as real + tokens[j] <= capacity + earned[j - 1] - earned[i]
  {
    assert Count(grants, i, j) as real == Count(grants, i, j - 1) as real + Paid(grants[j - 1]);
    if j > i + 1 {
      Spent(tokens, grants, earned, capacity, i, j - 1);
    }
  }

  lemma Difference(x: real, y: real, r: real)
    ensures (x - y) * r == x * r - y * r
  {
  }

  function Earned(times: seq<real>, r: real): (e: seq<real>)
    ensures |e| == |times|
    ensures forall k :: 0 <= k < |times| ==> e[k] == times[k] * r
  {
    seq(|times|, k requires 0 <= k < |times| => times[k] * r)
  }

  ghost function Held(buckets: seq<Bucket>): (t: seq<real>)
    ensures |t| == |buckets|
    ensures forall k :: 0 <= k < |buckets| ==> t[k] == buckets[k].tokens
  {
    seq(|buckets|, k requires 0 <= k < |buckets| => buckets[k].tokens)
  }

  lemma RunIsLedger(buckets: seq<Bucket>, times: seq<real>)
    requires Run(buckets, times)
    ensures Ledger(Held(buckets), Granting(buckets, times), Earned(times, buckets[0].rate), buckets[0].capacity)
  {
    var grants, earned, held := Granting(buckets, times), Earned(times, buckets[0].rate), Held(buckets);
    forall k | 0 <= k < |times|
      ensures Paid(grants[k]) + held[k + 1] <= buckets[0].capacity
      ensures k > 0 ==> Paid(grants[k]) + held[k + 1] <= held[k] + earned[k] - earned[k - 1]
    {
      RunEntry(buckets, times, k);
    }
  }

  lemma RunEntry(buckets: seq<Bucket>, times: seq<real>, k: nat)
    requires Run(buckets, times) && k < |times|
    ensures Paid(Grants(buckets[k], times[k])) + buckets[k + 1].tokens <= buckets[0].capacity
    ensures k > 0 ==>
              Paid(Grants(buckets[k], times[k])) + buckets[k + 1].tokens
              <= buckets[k].tokens + times[k] * buckets[0].rate - times[k - 1] * buckets[0].rate
  {
    RunValid(buckets, times, k);
    assert Turn(buckets, times, k);
    assert times[k] >= buckets[k].lastRefill;
    PollSpends(buckets[k], times[k]);
    if k > 0 {
      Difference(times[k], times[k - 1], buckets[0].rate);
    }
  }

  lemma CountBound(tokens: seq<real>, grants: seq<bool>, earned: seq<real>, capacity: real, i: nat, j: nat, gain: real)
    requires Ledger(tokens, grants, earned, capacity) && i <= j <= |grants|
    requires 0.0 <= tokens[j] && 0.0 <= capacity && 0.0 <= gain
    requires i < j ==> earned[j - 1] - earned[i] <= gain
    ensures Count(grants, i, j) as real <= capacity + gain
  {
    if i < j {
      Spent(tokens, grants, earned, capacity, i, j);
    }
  }

  lemma EarnedIn(times: seq<real>, r: real, i: nat, j: nat, window: real)
    requires i < j <= |times| && times[j - 1] - times[i] <= window && r > 0.0
    ensures Earned(times, r)[j - 1] - Earned(times, r)[i] <= window * r
  {
  }

  /** capacity + rate · T */
  predicate Within(grants: nat, capacity: real, rate: real, window: real) {
    grants as real <= capacity + window * rate
  }

  lemma WindowBound(held: seq<real>, grants: seq<bool>, times: seq<real>, rate: real, capacity: real, i: nat, j: nat, window: real)
    requires |times| == |grants| && Ledger(held, grants, Earned(times, rate), capacity) && i <= j <= |times|
    requires rate > 0.0 && 0.0 <= capacity && 0.0 <= held[j] && window >= 0.0
    requires i < j ==> times[j - 1] - times[i] <= window
    ensures Within(Count(grants, i, j), capacity, rate, window)
  {
    ProductNonNegative(window, rate);
    if i < j {
      EarnedIn(times, rate, i, j, window);
    }
    CountBound(held, grants, Earned(times, rate), capacity, i, j, window * rate);
  }

  /** In every run the tokens stay within the bucket, and any window of length T sees at most
      capacity + rate · T grants. */
  lemma RateBound(buckets: seq<Bucket>, times: seq<real>, i: nat, j: nat, window: real)
    requires Run(buckets, times) && i <= j <= |times| && window >= 0.0
    requires i < j ==> times[j - 1] - times[i] <= window
    ensures 0.0 <= buckets[j].tokens <= buckets[0].capacity
    ensures Within(Count(Granting(buckets, times), i, j), buckets[0].capacity, buckets[0].rate, window)
  {
    RunValid(buckets, times, j);
    RunIsLedger(buckets, times);
    WindowBound(Held(buckets), Granting(buckets, times), times, buckets[0].rate, buckets[0].capacity, i, j, window);
  }
}

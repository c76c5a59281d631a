/** The gateway's fixed-window rate limiter: one Redis counter per key, expiring a minute after its first request. */
module RateLimit {
  import opened Collections

  const MINUTE: nat := 60_000
  const IP_LIMIT: nat := 60
  const USER_LIMIT: nat := 500

  /** The counter and the last millisecond at which Redis still answers it. */
  datatype Counter = Counter(count: nat, until: int)

  /** What INCR, and EXPIRE when it answers 1, leave behind. */
  function Bump(c: Option<Counter>, now: int): Counter {
    var live := c.Some? && now <= c.value.until;
    var count := if live then c.value.count + 1 else 1;
    Counter(count, if count > 1 then c.value.until else now + MINUTE)
  }

  function Look(counters: map<string, Counter>, key: string): Option<Counter> {
    if key in counters then Some(counters[key]) else None
  }

  /** The request goes on, or is answered 429 or 500. */
  datatype Status = Passed | TooMany | ServerError

  class Gateway {
    var counters: map<string, Counter>

    constructor ()
      ensures counters == map[]
    {
      counters := map[];
    }

    method Incr(key: string, now: int) returns (count: nat)
      modifies this
      ensures var bumped := Bump(Look(old(counters), key), now);
              counters == old(counters)[key := bumped] && count == bumped.count
    {
      if key in counters && counters[key].until < now {
        counters := counters - {key};
      }
      count := if key in counters then counters[key].count + 1 else 1;
      var until := if key in counters then counters[key].until else now;
      counters := counters[key := Counter(count, until)];
      if count == 1 {
        Expire(key, now + MINUTE);
      }
      assert counters == old(counters)[key := counters[key]];
    }

    method Expire(key: string, until: int)
      requires key in counters
      modifies this
      ensures counters == old(counters)[key := Counter(old(counters)[key].count, until)]
    {
      counters := counters[key := counters[key].(until := until)];
    }

    method Limit(key: string, now: int, limit: nat, redisUp: bool) returns (r: Status)
      modifies this
      ensures !redisUp ==> r == ServerError && counters == old(counters)
      ensures redisUp ==> var bumped := Bump(Look(old(counters), key), now);
                          counters == old(counters)[key := bumped]
                          && r == if bumped.count > limit then TooMany else Passed
    {
      if !redisUp {
        return ServerError;
      }
      var count := Incr(key, now);
      r := if count > limit then TooMany else Passed;
    }

    method IpLimit(ip: string, now: int, redisUp: bool) returns (r: Status)
      modifies this
      ensures redisUp ==> counters == Served(old(counters), Request("ratelimit:" + ip, now))
      ensures redisUp ==>
                r == if Lets(old(counters), Request("ratelimit:" + ip, now), IP_LIMIT) then Passed else TooMany
      ensures !redisUp ==> counters == old(counters) && r == ServerError
    {
      r := Limit("ratelimit:" + ip, now, IP_LIMIT, redisUp);
    }

    method RateLimit(userID: Option<string>, now: int, redisUp: bool) returns (r: Status)
      modifies this
      ensures redisUp && userID.Some? ==> counters == Served(old(counters), Request("ratelimit:" + userID.value, now))
      ensures redisUp && userID.Some? ==>
                var req := Request("ratelimit:" + userID.value, now);
                r == if Lets(old(counters), req, USER_LIMIT) then Passed else TooMany
      ensures !redisUp || userID.None? ==> counters == old(counters) && r == ServerError
    {
      if userID.None? {
        return ServerError;
      }
      r := Limit("ratelimit:" + userID.value, now, USER_LIMIT, redisUp);
    }
  }

  // ---- Many keys -------------------------------------------------------------------------------------

  datatype Request = Request(key: string, time: int)

  function Served(counters: map<string, Counter>, r: Request): map<string, Counter> {
    counters[r.key := Bump(Look(counters, r.key), r.time)]
  }

  predicate Lets(counters: map<string, Counter>, r: Request, limit: nat) {
    Bump(Look(counters, r.key), r.time).count <= limit
  }

  /** The counters after a trace, from an empty store. */
  function After(trace: seq<Request>): map<string, Counter> {
    if trace == [] then map[] else Served(After(trace[..|trace| - 1]), trace[|trace| - 1])
  }

  function OwnTimes(trace: seq<Request>, key: string): seq<int> {
    if trace == [] then []
    else
      var last := trace[|trace| - 1];
      OwnTimes(trace[..|trace| - 1], key) + if last.key == key then [last.time] else []
  }

  // ---- One key ---------------------------------------------------------------------------------------

  predicate InOrder(times: seq<int>) {
    forall i, j :: 0 <= i < j < |times| ==> times[i] <= times[j]
  }

  /** The request that opened the window request k falls in. */
  function Opener(times: seq<int>, k: nat): (w: nat)
    requires k < |times|
    ensures w <= k && (InOrder(times) ==> times[k] <= times[w] + MINUTE)
  {
    if k == 0 then 0
    else
      var w := Opener(times, k - 1);
      if times[k] <= times[w] + MINUTE then w else k
  }

  /** The limiter lets request k of the key through. */
  predicate Admits(times: seq<int>, limit: nat, k: nat)
    requires k < |times|
  {
    k - Opener(times, k) < limit
  }

  lemma {:induction false} OpenerOfPrefix(times: seq<int>, n: nat, k: nat)
    requires k < n <= |times|
    ensures Opener(times[..n], k) == Opener(times, k)
  {
    if k > 0 {
      OpenerOfPrefix(times, n, k - 1);
    }
  }

  /** The stored counter is the position in the window and expires a minute after the window's opener. */
  lemma {:induction false} CounterIsPosition(trace: seq<Request>, key: string)
    ensures var own := OwnTimes(trace, key);
            Look(After(trace), key) ==
              if own == [] then None
              else var w := Opener(own, |own| - 1); Some(Counter(|own| - w, own[w] + MINUTE))
    decreases |trace|
  {
    if trace != [] {
      var before, last := trace[..|trace| - 1], trace[|trace| - 1];
      CounterIsPosition(before, key);
      var own, own' := OwnTimes(before, key), OwnTimes(trace, key);
      if last.key != key {
        assert own' == own;
        assert Look(After(trace), key) == Look(After(before), key);
      } else if own == [] {
        assert own' == [last.time];
      } else {
        assert own'[..|own|] == own;
        OpenerOfPrefix(own', |own|, |own| - 1);
      }
    }
  }

  /** The gateway's decision on a request depends only on the times of its own key: it is Admits. */
  lemma DecisionIsAdmits(trace: seq<Request>, r: Request, limit: nat)
    ensures var own := OwnTimes(trace + [r], r.key);
            own == OwnTimes(trace, r.key) + [r.time]
            && (Lets(After(trace), r, limit) <==> Admits(own, limit, |own| - 1))
  {
    assert (trace + [r])[..|trace|] == trace;
    CounterIsPosition(trace, r.key);
    CounterIsPosition(trace + [r], r.key);
  }

  function Admissions(times: seq<int>, limit: nat, lo: nat, hi: nat): nat
    requires lo <= hi <= |times|
  {
    if lo == hi then 0 else Admissions(times, limit, lo, hi - 1) + if Admits(times, limit, hi - 1) then 1 else 0
  }

  lemma {:induction false} AdmissionsSplit(times: seq<int>, limit: nat, lo: nat, mid: nat, hi: nat)
    requires lo <= mid <= hi <= |times|
    ensures Admissions(times, limit, lo, hi) == Admissions(times, limit, lo, mid) + Admissions(times, limit, mid, hi)
    decreases hi - mid
  {
    if mid < hi {
      AdmissionsSplit(times, limit, lo, mid, hi - 1);
    }
  }

  /** Between the opener and k every request is in the same window. */
  lemma {:induction false} OneWindow(times: seq<int>, k: nat, m: nat)
    requires k < |times| && Opener(times, k) <= m <= k
    ensures Opener(times, m) == Opener(times, k)
  {
    if m < k {
      OneWindow(times, k - 1, m);
    }
  }

  /** Requests that all fall in the window opened by w: only the first limit after w pass. */
  lemma {:induction false} WindowAdmissions(times: seq<int>, limit: nat, w: nat, lo: nat, hi: nat)
    requires w <= lo <= hi <= |times|
    requires forall k: nat :: lo <= k < hi ==> Opener(times, k) == w
    ensures Admissions(times, limit, lo, hi) ==
            var end := if hi < w + limit then hi else w + limit;
            if end < lo then 0 else end - lo
    decreases hi - lo
  {
    if lo < hi {
      WindowAdmissions(times, limit, w, lo, hi - 1);
    }
  }

  /** A whole window lets through exactly its first limit requests. */
  lemma PerWindow(times: seq<int>, limit: nat, k: nat)
    requires k < |times|
    ensures var w := Opener(times, k);
            Admissions(times, limit, w, k + 1) == if k + 1 - w < limit then k + 1 - w else limit
  {
    var w := Opener(times, k);
    forall m: nat | w <= m < k + 1
      ensures Opener(times, m) == w
    {
      OneWindow(times, k, m);
    }
    WindowAdmissions(times, limit, w, w, k + 1);
  }

  /** A stretch of at most a minute that reaches into window w touches only the window before it, and not its opener. */
  lemma Straddles(times: seq<int>, i: nat, j: nat)
    requires InOrder(times) && i <= j < |times| && times[j] - times[i] <= MINUTE && i < Opener(times, j)
    ensures Opener(times, Opener(times, j) - 1) < i
  {
    var w := Opener(times, j);
    var v := Opener(times, w - 1);
    OpensLate(times, j);
    assert times[v] + MINUTE < times[w] <= times[j] <= times[i] + MINUTE;
  }

  /** In any stretch no longer than a minute fewer than twice the limit pass. */
  lemma AnyMinute(times: seq<int>, limit: nat, i: nat, j: nat)
    requires InOrder(times) && i <= j < |times| && times[j] - times[i] <= MINUTE && limit > 0
    ensures Admissions(times, limit, i, j + 1) <= 2 * limit - 1
  {
    var w := Opener(times, j);
    if w <= i {
      WithinWindow(times, limit, i, j);
    } else {
      Straddles(times, i, j);
      WithinWindow(times, limit, i, w - 1);
      OneWindow(times, j, w);
      WithinWindow(times, limit, w, j);
      AdmissionsSplit(times, limit, i, w, j + 1);
    }
  }

  lemma WithinWindow(times: seq<int>, limit: nat, i: nat, j: nat)
    requires i <= j < |times| && Opener(times, j) <= i
    ensures Admissions(times, limit, i, j + 1) <= limit
    ensures Opener(times, j) < i && limit > 0 ==> Admissions(times, limit, i, j + 1) <= limit - 1
  {
    var w := Opener(times, j);
    forall m: nat | i <= m < j + 1
      ensures Opener(times, m) == w
    {
      OneWindow(times, j, m);
    }
    WindowAdmissions(times, limit, w, i, j + 1);
  }

  /** A window opens only after the one before it has run out. */
  lemma {:induction false} OpensLate(times: seq<int>, k: nat)
    requires k < |times| && Opener(times, k) > 0
    ensures var w := Opener(times, k); times[w] > times[Opener(times, w - 1)] + MINUTE
  {
    if Opener(times, k) != k {
      OpensLate(times, k - 1);
    }
  }

  /** The gateway's own limits: in any minute at most 119 requests of an address and 999 of a user pass, of one window
      exactly the first 60 and the first 500. */
  lemma PublishedBounds(times: seq<int>, i: nat, j: nat)
    requires InOrder(times) && i <= j < |times|
    ensures times[j] - times[i] <= 60_000 ==>
              Admissions(times, IP_LIMIT, i, j + 1) <= 119 && Admissions(times, USER_LIMIT, i, j + 1) <= 999
    ensures var w := Opener(times, j); var n := j + 1 - w;
            && Admissions(times, IP_LIMIT, w, j + 1) == (if n < 60 then n else 60)
            && Admissions(times, USER_LIMIT, w, j + 1) == (if n < 500 then n else 500)
            && times[w] <= times[j] <= times[w] + 60_000
  {
    if times[j] - times[i] <= 60_000 {
      AnyMinute(times, IP_LIMIT, i, j);
      AnyMinute(times, USER_LIMIT, i, j);
    }
    PerWindow(times, IP_LIMIT, j);
    PerWindow(times, USER_LIMIT, j);
  }

  /** The bound is reached: one request, the rest of its window at the last moment, then a full new window. */
  lemma AnyMinuteTight(limit: nat)
    requires limit > 0
    ensures exists times: seq<int>, i: nat, j: nat ::
              InOrder(times) && i <= j < |times| && times[j] - times[i] <= MINUTE
              && Admissions(times, limit, i, j + 1) == 2 * limit - 1
  {
    var times := seq(2 * limit, k requires 0 <= k < 2 * limit =>
                       if k == 0 then 0 else if k < limit then MINUTE else MINUTE + 1);
    BurstOpeners(times, limit, 2 * limit - 1);
    WindowAdmissions(times, limit, 0, 1, limit);
    WindowAdmissions(times, limit, limit, limit, 2 * limit);
    AdmissionsSplit(times, limit, 1, limit, 2 * limit);
    assert InOrder(times) && 1 <= 2 * limit - 1 < |times| && times[2 * limit - 1] - times[1] <= MINUTE
           && Admissions(times, limit, 1, 2 * limit - 1 + 1) == 2 * limit - 1;
  }

  lemma {:induction false} BurstOpeners(times: seq<int>, limit: nat, n: nat)
    requires 0 < limit && n < 2 * limit == |times|
    requires forall k :: 0 <= k < |times| ==> times[k] == if k == 0 then 0 else if k < limit then MINUTE else MINUTE + 1
    ensures forall k: nat :: k <= n ==> Opener(times, k) == if k < limit then 0 else limit
  {
    if n > 0 {
      BurstOpeners(times, limit, n - 1);
    }
  }

  /** A request is refused only when at least limit earlier ones fell within the last minute. */
  lemma RefusedOnlyWhenBusy(times: seq<int>, limit: nat, k: nat)
    requires InOrder(times) && k < |times| && limit > 0 && !Admits(times, limit, k)
    ensures k >= limit && forall m :: k - limit <= m < k ==> times[k] - times[m] <= MINUTE
  {
    var w := Opener(times, k);
    forall m | k - limit <= m < k
      ensures times[k] - times[m] <= MINUTE
    {
      assert w <= m && times[w] <= times[m];
    }
  }
}

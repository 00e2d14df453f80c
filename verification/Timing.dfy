/** Time and rate arithmetic: the admission counter of http.c, the next periodic time of event.c
    and the retry wait of cwmp.c. Times are whole seconds. */
module Timing {

  // ---- http_server_listen: which connection requests are served ----

  const CONNECTION_REQUEST_RESTRICT_PERIOD := 5
  const CONNECTION_REQUEST_RESTRICT_REQUEST := 50

  datatype Counter = Counter(restrictStartTime: int, crRequest: int)

  predicate Fresh(c: Counter, now: int) {
    c.restrictStartTime == 0 || now - c.restrictStartTime > CONNECTION_REQUEST_RESTRICT_PERIOD
  }

  predicate Served(c: Counter, now: int) {
    Fresh(c, now) || c.crRequest < CONNECTION_REQUEST_RESTRICT_REQUEST
  }

  function Next(c: Counter, now: int): Counter {
    if Fresh(c, now) then Counter(now, 1)
    else if Served(c, now) then c.(crRequest := c.crRequest + 1)
    else Counter(now, c.crRequest + 1)
  }

  class Listener {
    var restrictStartTime: int
    var crRequest: int

    constructor ()
      ensures Value() == Counter(0, 0)
    {
      restrictStartTime, crRequest := 0, 0;
    }

    function Value(): Counter
      reads this
    {
      Counter(restrictStartTime, crRequest)
    }

    // One accepted connection: service_available.
    method Accept(currentTime: int) returns (serviceAvailable: bool)
      modifies this
      ensures serviceAvailable == Served(old(Value()), currentTime)
      ensures Value() == Next(old(Value()), currentTime)
    {
      serviceAvailable := true;
      if restrictStartTime == 0 || currentTime - restrictStartTime > CONNECTION_REQUEST_RESTRICT_PERIOD {
        restrictStartTime := currentTime;
        crRequest := 1;
      } else {
        crRequest := crRequest + 1;
        if crRequest > CONNECTION_REQUEST_RESTRICT_REQUEST {
          restrictStartTime := currentTime;
          serviceAvailable := false;
        }
      }
    }
  }

  function After(times: seq<int>): Counter {
    if times == [] then Counter(0, 0) else Next(After(times[..|times| - 1]), times[|times| - 1])
  }

  // The arrival times of the requests that were served.
  function ServedTimes(times: seq<int>): seq<int> {
    if times == [] then [] else
      ServedTimes(times[..|times| - 1]) +
      (if Served(After(times[..|times| - 1]), times[|times| - 1]) then [times[|times| - 1]] else [])
  }

  predicate Arrivals(times: seq<int>) {
    && (forall i :: 0 <= i < |times| ==> times[i] > 0)
    && forall i, j :: 0 <= i < j < |times| ==> times[i] <= times[j]
  }

  // How many of the times lie in the closed interval.
  function CountIn(times: seq<int>, lo: int, hi: int): nat {
    if times == [] then 0 else
      CountIn(times[..|times| - 1], lo, hi) + (if lo <= times[|times| - 1] <= hi then 1 else 0)
  }

  // ... in the restriction period that begins at lo.
  function Span(times: seq<int>, lo: int): nat {
    CountIn(times, lo, lo + CONNECTION_REQUEST_RESTRICT_PERIOD)
  }

  lemma CountOneMore(times: seq<int>, t: int, lo: int, hi: int)
    ensures CountIn(times + [t], lo, hi) == CountIn(times, lo, hi) + (if lo <= t <= hi then 1 else 0)
  {
    assert (times + [t])[..|times|] == times;
  }

  lemma {:induction false} CountNone(times: seq<int>, lo: int, hi: int)
    requires forall i :: 0 <= i < |times| ==> times[i] < lo
    ensures CountIn(times, lo, hi) == 0
  {
    if times != [] {
      CountNone(times[..|times| - 1], lo, hi);
    }
  }

  // What is known of the served times when the present window was opened at time w and the
  // latest arrival was at 'last'; ten seconds or more lie between the openings of a window and
  // of the one after the next.
  ghost predicate Bounded(served: seq<int>, c: Counter, w: int, last: int) {
    var cur := if c.crRequest < CONNECTION_REQUEST_RESTRICT_REQUEST then c.crRequest
               else CONNECTION_REQUEST_RESTRICT_REQUEST;
    && 0 < w <= c.restrictStartTime <= last && 1 <= cur
    && (forall i :: 0 <= i < |served| ==> served[i] <= last)
    && (forall lo :: lo > w ==> CountIn(served, lo, last) <= cur - 1)
    && (forall lo :: lo <= w <= lo + 5 ==> Span(served, lo) <= 49 + cur)
    && (forall lo :: Span(served, lo) <= 99)
  }

  lemma OpenWindow(served: seq<int>, c: Counter, w: int, last: int, now: int)
    requires Bounded(served, c, w, last) && last <= now && Fresh(c, now)
    ensures Bounded(served + [now], Counter(now, 1), now, now)
  {
    var s := served + [now];
    forall lo ensures Span(s, lo) <= 99
      ensures lo > now ==> CountIn(s, lo, now) <= 0
      ensures lo <= now <= lo + 5 ==> Span(s, lo) <= 50
    {
      assert Span(served, lo) <= 99;
      CountOneMore(served, now, lo, lo + 5);
      CountOneMore(served, now, lo, now);
      if lo > now {
        CountNone(served, lo, now);
      }
      if lo <= now <= lo + 5 {
        assert lo > w;
        BeyondLast(served, lo, last, lo + 5);
      }
    }
  }

  // No served time lies after the last arrival.
  lemma {:induction false} BeyondLast(served: seq<int>, lo: int, last: int, hi: int)
    requires forall i :: 0 <= i < |served| ==> served[i] <= last
    ensures CountIn(served, lo, hi) <= CountIn(served, lo, last)
  {
    if served != [] {
      BeyondLast(served[..|served| - 1], lo, last, hi);
    }
  }

  lemma WithinWindow(served: seq<int>, c: Counter, w: int, last: int, now: int)
    requires Bounded(served, c, w, last) && last <= now && !Fresh(c, now) && Served(c, now)
    ensures Bounded(served + [now], c.(crRequest := c.crRequest + 1), w, now)
  {
    var s := served + [now];
    forall lo ensures Span(s, lo) <= 99
      ensures lo > w ==> CountIn(s, lo, now) <= c.crRequest
      ensures lo <= w <= lo + 5 ==> Span(s, lo) <= 50 + c.crRequest
    {
      CountOneMore(served, now, lo, lo + 5);
      CountOneMore(served, now, lo, now);
      assert Span(served, lo) <= 99;
      BeyondLast(served, lo, last, now);
      BeyondLast(served, lo, last, lo + 5);
    }
  }

  lemma RefusedInWindow(served: seq<int>, c: Counter, w: int, last: int, now: int)
    requires Bounded(served, c, w, last) && last <= now && !Served(c, now)
    ensures Bounded(served, Counter(now, c.crRequest + 1), w, now)
  {
    forall lo | lo > w ensures CountIn(served, lo, now) <= 49 {
      BeyondLast(served, lo, last, now);
    }
  }

  lemma {:induction false} RunBounded(times: seq<int>) returns (w: int)
    requires Arrivals(times) && times != []
    ensures Bounded(ServedTimes(times), After(times), w, times[|times| - 1])
  {
    hide Bounded;
    var init, now := times[..|times| - 1], times[|times| - 1];
    if init == [] {
      w := now;
      FirstBounded(now);
      assert ServedTimes(times) == [] + [now];
    } else {
      w := RunBounded(init);
      var served, c, last := ServedTimes(init), After(init), init[|init| - 1];
      assert last <= now;
      if Fresh(c, now) {
        OpenWindow(served, c, w, last, now);
        w := now;
      } else if Served(c, now) {
        WithinWindow(served, c, w, last, now);
      } else {
        RefusedInWindow(served, c, w, last, now);
        assert served + [] == served;
      }
    }
  }

  lemma FirstBounded(now: int)
    requires now > 0
    ensures Bounded([] + [now], Counter(now, 1), now, now)
  {
    hide CountIn;
    forall lo ensures Span([] + [now], lo) <= 1
      ensures lo > now ==> CountIn([] + [now], lo, now) == 0
    {
      CountOneMore([], now, lo, lo + 5);
      CountOneMore([], now, lo, now);
      CountNone([], lo, lo + 5);
      CountNone([], lo, now);
    }
  }

  // At most 99 requests are served in any five seconds, both ends included.
  lemma AtMost99(times: seq<int>, lo: int)
    requires Arrivals(times)
    ensures Span(ServedTimes(times), lo) <= 99
  {
    if times != [] {
      var w := RunBounded(times);
    }
  }

  function Burst(t: int, n: nat): seq<int> {
    if n == 0 then [] else Burst(t, n - 1) + [t]
  }

  lemma BurstStep(times: seq<int>, t: int, n: nat)
    ensures times + Burst(t, n) == if n == 0 then times else times + Burst(t, n - 1) + [t]
  {
  }

  lemma OneMoreServed(times: seq<int>, t: int)
    ensures After(times + [t]) == Next(After(times), t)
    ensures Served(After(times), t) ==> ServedTimes(times + [t]) == ServedTimes(times) + [t]
  {
    assert (times + [t])[..|times|] == times;
  }

  // Requests at one time are all served while the counter has room.
  lemma {:induction false} BurstServed(times: seq<int>, t: int, n: nat, lo: int)
    requires !Fresh(After(times), t) && After(times).crRequest + n <= CONNECTION_REQUEST_RESTRICT_REQUEST
    requires lo <= t <= lo + 5
    ensures After(times + Burst(t, n)) == After(times).(crRequest := After(times).crRequest + n)
    ensures Span(ServedTimes(times + Burst(t, n)), lo) == Span(ServedTimes(times), lo) + n
  {
    hide After, ServedTimes, Burst, Span;
    BurstStep(times, t, n);
    if n > 0 {
      var before := times + Burst(t, n - 1);
      BurstServed(times, t, n - 1, lo);
      OneMoreServed(before, t);
      SpanOneMore(ServedTimes(before), t, lo);
    }
  }

  lemma SpanOneMore(times: seq<int>, t: int, lo: int)
    requires lo <= t <= lo + 5
    ensures Span(times + [t], lo) == Span(times, lo) + 1
  {
    CountOneMore(times, t, lo, lo + 5);
  }

  // The bound is reached: 49 requests end one window, and 50 a second later open the next.
  lemma NinetyNineServed() returns (times: seq<int>)
    ensures Span(ServedTimes(times), 6) == 99
  {
    assert [1][..0] == [] && After([1]) == Counter(1, 1) && ServedTimes([1]) == [] + [1];
    CountOneMore([], 1, 6, 11);
    BurstServed([1], 6, 49, 6);
    var first := [1] + Burst(6, 49);
    assert (first + [7])[..|first|] == first;
    assert After(first + [7]) == Counter(7, 1);
    CountOneMore(ServedTimes(first), 7, 6, 11);
    BurstServed(first + [7], 7, 49, 6);
    times := first + [7] + Burst(7, 49);
  }

  // After a refusal the next request is refused, too, unless it comes more than five seconds later.
  lemma RefusedUntilQuiet(times: seq<int>, refused: int, now: int)
    requires Arrivals(times + [refused, now]) && !Served(After(times), refused)
    ensures Served(After(times + [refused]), now) <==> now - refused > CONNECTION_REQUEST_RESTRICT_PERIOD
  {
    assert (times + [refused])[..|times|] == times;
    assert (times + [refused, now])[|times|] == refused;
  }

  // ---- thread_event_periodic: the next periodic time ----

  // The remainder of C, which takes the sign of the dividend.
  function Remainder(a: int, b: int): int
    requires b > 0
  {
    if a >= 0 then a % b else -(-a % b)
  }

  lemma RemainderCongruent(a: int, b: int)
    requires b > 0
    ensures -b < Remainder(a, b) < b && (a - Remainder(a, b)) % b == 0
    ensures a >= 0 ==> Remainder(a, b) >= 0
    ensures a <= 0 ==> Remainder(a, b) <= 0
  {
    var r := Remainder(a, b);
    if a >= 0 {
      assert a - r == b * (a / b);
      Multiple(a / b, b);
    } else {
      assert a - r == b * -(-a / b);
      Multiple(-(-a / b), b);
    }
  }

  lemma Multiple(q: int, b: int)
    requires b > 0
    ensures b * q % b == 0
  {
    assert b * q == q * b + 0;
    QuotientUnique(b * q, b, q, 0);
  }

  lemma QuotientUnique(a: int, b: int, q: int, r: int)
    requires b > 0 && a == q * b + r && 0 <= r < b
    ensures a % b == r
  {
    var d := q - a / b;
    assert a == a / b * b + a % b;
    assert d * b == a % b - r;
    assert d > 0 ==> d * b >= b;
    assert d < 0 ==> d * b <= -b;
  }

  // A whole number of intervals from the reference.
  predicate OnGrid(u: int, reference: int, interval: int)
    requires interval > 0
  {
    (u - reference) % interval == 0
  }

  lemma GridShift(u: int, reference: int, interval: int)
    requires interval > 0 && OnGrid(u, reference, interval)
    ensures OnGrid(u + interval, reference, interval) && OnGrid(u - interval, reference, interval)
  {
    var a := u - reference;
    assert a == a / interval * interval;
    QuotientUnique(a + interval, interval, a / interval + 1, 0);
    QuotientUnique(a - interval, interval, a / interval - 1, 0);
  }

  // Between two neighbours on the grid there is nothing.
  lemma GridGap(u: int, reference: int, interval: int, v: int)
    requires interval > 0 && OnGrid(u, reference, interval) && u < v < u + interval
    ensures !OnGrid(v, reference, interval)
  {
    var a := u - reference;
    assert a == a / interval * interval;
    QuotientUnique(v - reference, interval, a / interval, v - u);
  }

  // The branches on periodic_time: with a reference, the least instant after now that is a whole
  // number of intervals from it, whether the reference is past or future.
  method NextPeriodic(currentTime: int, periodicTime: int, periodicInterval: int) returns (next: int)
    requires periodicInterval > 0
    ensures periodicTime == 0 ==> next == currentTime + periodicInterval
    ensures periodicTime != 0 ==> next > currentTime && OnGrid(next, periodicTime, periodicInterval)
    ensures periodicTime != 0 ==> forall u :: currentTime < u < next ==> !OnGrid(u, periodicTime, periodicInterval)
  {
    hide Remainder, OnGrid;
    if periodicTime != 0 {
      var deltaTime := Remainder(currentTime - periodicTime, periodicInterval);
      GridBelow(currentTime, periodicTime, periodicInterval);
      if deltaTime >= 0 {
        next := currentTime + periodicInterval - deltaTime;
        GridShift(currentTime - deltaTime, periodicTime, periodicInterval);
      } else {
        next := currentTime - deltaTime;
        GridShift(next, periodicTime, periodicInterval);
      }
      forall u | currentTime < u < next ensures !OnGrid(u, periodicTime, periodicInterval) {
        GridGap(next - periodicInterval, periodicTime, periodicInterval, u);
      }
    } else {
      next := currentTime + periodicInterval;
    }
  }

  lemma GridBelow(currentTime: int, reference: int, interval: int)
    requires interval > 0
    ensures var delta := Remainder(currentTime - reference, interval);
      -interval < delta < interval && OnGrid(currentTime - delta, reference, interval)
  {
    RemainderCongruent(currentTime - reference, interval);
  }

  // ---- cwmp_get_retry_interval ----

  const MAX_INT32 := 2147483646

  // pow with a whole exponent
  function Pow(x: real, n: nat): real {
    if n == 0 then 1.0 else Pow(x, n - 1) * x
  }

  lemma {:induction false} PowGrows(x: real, n: nat)
    requires x >= 1.0
    ensures 1.0 <= Pow(x, n) <= Pow(x, n + 1)
  {
    if n > 0 {
      PowGrows(x, n - 1);
    }
    Product(Pow(x, n), x);
  }

  lemma Product(p: real, x: real)
    requires p >= 1.0 && x >= 1.0
    ensures p * x >= p
  {
    assert p * x - p == p * (x - 1.0);
  }

  // The retry table of section 3.2.1.1 of TR-069: the ends of the range for the n-th retry.
  function Bound(m: int, k: int, n: nat): int {
    (Pow(k as real / 1000.0, n) * m as real).Floor
  }

  function IntPow(x: nat, n: nat): nat {
    if n == 0 then 1 else IntPow(x, n - 1) * x
  }

  // A product that no proof below looks into.
  function Prod(a: real, b: real): real {
    a * b
  }

  lemma ProdLaws(a: real, b: real, c: real)
    ensures Prod(Prod(a, b), c) == Prod(Prod(a, c), b) && Prod(a, b) == Prod(b, a)
    ensures a <= b && c > 0.0 ==> Prod(a, c) <= Prod(b, c)
    ensures a < b && c > 0.0 ==> Prod(a, c) < Prod(b, c)
  {
    if a < b && c > 0.0 {
      assert (b - a) * c > 0.0;
    }
  }

  lemma IntProd(a: int, b: int)
    ensures (a * b) as real == Prod(a as real, b as real)
  {
  }

  lemma PowStep(x: real, k: nat, n: nat)
    requires n > 0
    ensures Pow(x, n) == Prod(Pow(x, n - 1), x) && IntPow(k, n) as real == Prod(IntPow(k, n - 1) as real, k as real)
    ensures k >= 1 && IntPow(k, n - 1) >= 1 ==> IntPow(k, n) >= 1
  {
    IntProd(IntPow(k, n - 1), k);
  }

  lemma {:induction false} PowIsRatio(k: nat, n: nat)
    ensures Prod(Pow(k as real / 1000.0, n), IntPow(1000, n) as real) == IntPow(k, n) as real && IntPow(1000, n) >= 1
  {
    var x := k as real / 1000.0;
    if n == 0 {
      assert Pow(x, 0) == 1.0 && IntPow(1000, 0) == IntPow(k, 0) == 1;
    } else {
      PowIsRatio(k, n - 1);
      PowStep(x, k, n);
      PowStep(x, 1000, n);
      hide Pow, IntPow;
      RatioStep(Pow(x, n - 1), x, IntPow(1000, n - 1) as real, k as real);
    }
  }

  lemma RatioStep(p: real, x: real, q: real, k: real)
    requires x == k / 1000.0
    ensures Prod(Prod(p, x), Prod(q, 1000.0)) == Prod(Prod(p, q), k)
  {
    assert p * x * (q * 1000.0) == p * q * (x * 1000.0);
  }

  // An end of the range is m * (k / 1000)^n, rounded down.
  lemma BoundIs(m: nat, k: nat, n: nat)
    ensures Bound(m, k, n) * IntPow(1000, n) <= m * IntPow(k, n) < (Bound(m, k, n) + 1) * IntPow(1000, n)
  {
    PowIsRatio(k, n);
    BoundIsFloor(m, k, n);
    hide Pow, IntPow, Bound, Prod;
    FloorOfRatio(Pow(k as real / 1000.0, n), m as real, IntPow(1000, n) as real, IntPow(k, n) as real);
    IntCompare(Bound(m, k, n), IntPow(1000, n), m, IntPow(k, n));
  }

  lemma BoundIsFloor(m: nat, k: nat, n: nat)
    ensures Bound(m, k, n) == Prod(Pow(k as real / 1000.0, n), m as real).Floor
  {
    hide Pow;
  }

  lemma FloorOfRatio(p: real, m: real, q: real, whole: real)
    requires Prod(p, q) == whole && q >= 1.0
    ensures var b := Prod(p, m).Floor as real; Prod(b, q) <= Prod(m, whole) < Prod(b + 1.0, q)
  {
    hide Prod;
    var x := Prod(p, m);
    ProdLaws(x.Floor as real, x, q);
    ProdLaws(x, x.Floor as real + 1.0, q);
    ProdLaws(p, m, q);
    ProdLaws(m, whole, 1.0);
  }

  lemma IntCompare(b: int, q: int, m: int, whole: int)
    requires Prod(b as real, q as real) <= Prod(m as real, whole as real) < Prod(b as real + 1.0, q as real)
    ensures b * q <= m * whole < (b + 1) * q
  {
    hide Prod;
    IntProd(b, q);
    IntProd(m, whole);
    IntProd(b + 1, q);
  }

  lemma BoundsGrow(m: int, k: int, n: nat)
    requires m >= 1 && k >= 1000
    ensures 1 <= Bound(m, k, n) <= Bound(m, k, n + 1)
  {
    var x := k as real / 1000.0;
    PowGrows(x, n);
    Scaled(Pow(x, n), Pow(x, n + 1), m as real);
    Scaled(1.0, Pow(x, n), m as real);
  }

  lemma Scaled(p: real, q: real, m: real)
    requires p <= q && m >= 0.0
    ensures p * m <= q * m
  {
  }

  function Capped(count: nat): nat { if count > 10 then 10 else count }

  // 'random' is what rand() returns; every wait of the range comes up for some value of it.
  method GetRetryInterval(m: int, k: int, retryCount: nat, random: nat) returns (wait: int)
    requires m >= 1 && k >= 1000
    ensures retryCount == 0 ==> wait == MAX_INT32
    ensures retryCount > 0 ==>
              var n := if retryCount > 10 then 10 else retryCount;
              && Bound(m, k, n - 1) <= wait <= Bound(m, k, n)
              && (random <= Bound(m, k, n) - Bound(m, k, n - 1) ==> wait == Bound(m, k, n - 1) + random)
  {
    hide Pow;
    var exp := retryCount;
    if exp == 0 {
      return MAX_INT32;
    }
    if exp > 10 {
      exp := 10;
    }
    BoundsGrow(m, k, exp - 1);
    var min := Pow(k as real / 1000.0, exp - 1) * m as real;
    var max := Pow(k as real / 1000.0, exp) * m as real;
    assert min.Floor == Bound(m, k, exp - 1) && max.Floor == Bound(m, k, exp);
    Draw(min.Floor, max.Floor, random);
    wait := random % (max.Floor + 1 - min.Floor) + min.Floor;
  }

  lemma Draw(lo: int, hi: int, random: nat)
    requires lo <= hi
    ensures lo <= random % (hi + 1 - lo) + lo <= hi
    ensures random <= hi - lo ==> random % (hi + 1 - lo) == random
  {
  }

  // The range of a retry begins where that of the retry before ended, so waits never decrease
  // up to the tenth.
  lemma WaitsNeverDecrease(m: int, k: int, n: nat, earlier: int, later: int)
    requires m >= 1 && k >= 1000 && 1 <= n < 10
    requires Bound(m, k, Capped(n) - 1) <= earlier <= Bound(m, k, Capped(n))
    requires Bound(m, k, Capped(n + 1) - 1) <= later <= Bound(m, k, Capped(n + 1))
    ensures earlier <= later && Bound(m, k, Capped(n)) == Bound(m, k, Capped(n + 1) - 1)
  {
  }
}

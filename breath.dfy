/** The software "breathing" effect, as a trace: both the older
    (src/animation.rs) and the newer (src/capability/sw_animate.rs)
    drivers issue one request per brightness level, 0 up to 100 and then
    100 down to 0, each followed by one sleep of the step interval. The
    request is what differs between them, so it is a parameter here:
    `request(p)` is what the driver issues at level p percent. */
module Breath {
  import opened Base

  /** A brightness level in percent: the loop index `i` of the source,
      which it turns into the floating level `i as f32 / 100`. */
  type Percent = p: int | 0 <= p <= 100

  /** One observable step of a driver. */
  datatype Step<+T> = Request(payload: T) | Sleep(ms: nat)

  /** The level of the k-th request of a pass: the ascending loop issues
      k = 0..100 at level k, the descending one k = 101..201 at 201 - k. */
  function LevelAt(k: nat): Percent
    requires k < 202
  {
    if k <= 100 then k else 201 - k
  }

  /** The first k requests of a pass, each with the sleep after it. */
  function Prefix<T>(request: Percent -> T, interval: nat, k: nat): seq<Step<T>>
    requires k <= 202
  {
    if k == 0 then []
    else Prefix(request, interval, k - 1) + [Request(request(LevelAt(k - 1))), Sleep(interval)]
  }

  /** One pass (`_breathing`): all 202 requests. */
  function Pass<T>(request: Percent -> T, interval: nat): seq<Step<T>>
  {
    Prefix(request, interval, 202)
  }

  /** n passes one after the other. */
  function Repeated<T>(s: seq<T>, n: nat): seq<T>
  {
    if n == 0 then [] else Repeated(s, n - 1) + s
  }

  /** The passes a `FiniteCount(count)` repeat policy runs: none when count <= 0. */
  function Passes(count: I32): (n: nat)
    ensures count <= 0 ==> n == 0
    ensures count > 0 ==> n == count
  {
    if count > 0 then count else 0
  }

  /** The requests of a trace, in order. */
  function Requests<T>(t: seq<Step<T>>): seq<T>
  {
    if t == [] then []
    else Requests(t[..|t| - 1]) + (if t[|t| - 1].Request? then [t[|t| - 1].payload] else [])
  }

  /** The milliseconds a trace sleeps in all. */
  function TotalSleep<T>(t: seq<Step<T>>): nat
  {
    if t == [] then 0
    else TotalSleep(t[..|t| - 1]) + (if t[|t| - 1].Sleep? then t[|t| - 1].ms else 0)
  }

  //--------------------//
  // The level sequence //
  //--------------------//

  /** The levels go 0..100 up, then 100..0 down: a palindrome that
      reaches 100 twice in a row and starts and ends at 0. */
  lemma LevelShape()
    ensures LevelAt(0) == 0 && LevelAt(100) == 100 && LevelAt(101) == 100 && LevelAt(201) == 0
    ensures forall k :: 0 <= k < 202 ==> LevelAt(k) == LevelAt(201 - k)
    ensures forall k :: 0 <= k < 100 ==> LevelAt(k) + 1 == LevelAt(k + 1)
    ensures forall k :: 101 <= k < 201 ==> LevelAt(k) == LevelAt(k + 1) + 1
  {
  }

  //------------------//
  // Traces of a pass //
  //------------------//

  lemma {:induction false} RequestsAppend<T>(a: seq<Step<T>>, b: seq<Step<T>>)
    ensures Requests(a + b) == Requests(a) + Requests(b)
    decreases |b|
  {
    if b == [] {
      assert a + b == a;
    } else {
      var b' := b[..|b| - 1];
      assert (a + b)[..|a + b| - 1] == a + b';
      RequestsAppend(a, b');
    }
  }

  lemma {:induction false} TotalSleepAppend<T>(a: seq<Step<T>>, b: seq<Step<T>>)
    ensures TotalSleep(a + b) == TotalSleep(a) + TotalSleep(b)
    decreases |b|
  {
    if b == [] {
      assert a + b == a;
    } else {
      var b' := b[..|b| - 1];
      assert (a + b)[..|a + b| - 1] == a + b';
      TotalSleepAppend(a, b');
    }
  }

  /** Position j of a prefix: requests at even positions, each followed
      by one sleep of the interval. */
  lemma {:induction false} PrefixAt<T>(request: Percent -> T, interval: nat, k: nat, j: nat)
    requires k <= 202 && j < 2 * k
    ensures |Prefix(request, interval, k)| == 2 * k
    ensures Prefix(request, interval, k)[j] ==
              if j % 2 == 0 then Request(request(LevelAt(j / 2))) else Sleep(interval)
  {
    PrefixLength(request, interval, k);
    if j < 2 * (k - 1) {
      PrefixAt(request, interval, k - 1, j);
    }
  }

  lemma {:induction false} PrefixLength<T>(request: Percent -> T, interval: nat, k: nat)
    requires k <= 202
    ensures |Prefix(request, interval, k)| == 2 * k
  {
    if k > 0 {
      PrefixLength(request, interval, k - 1);
    }
  }

  /** Appending a request and its sleep adds one request and one interval. */
  lemma StepAppended<T>(t: seq<Step<T>>, x: T, interval: nat)
    ensures Requests(t + [Request(x), Sleep(interval)]) == Requests(t) + [x]
    ensures TotalSleep(t + [Request(x), Sleep(interval)]) == TotalSleep(t) + interval
  {
    var t1 := t + [Request(x)];
    var t2 := t + [Request(x), Sleep(interval)];
    assert t2[..|t2| - 1] == t1;
    assert t1[..|t1| - 1] == t;
  }

  /** A prefix of k steps requests exactly the levels of the first k
      positions, in order. */
  lemma {:induction false} PrefixRequests<T>(request: Percent -> T, interval: nat, k: nat)
    requires k <= 202
    ensures |Requests(Prefix(request, interval, k))| == k
    ensures forall i :: 0 <= i < k ==> Requests(Prefix(request, interval, k))[i] == request(LevelAt(i))
  {
    if k > 0 {
      var t := Prefix(request, interval, k - 1);
      PrefixRequests(request, interval, k - 1);
      StepAppended(t, request(LevelAt(k - 1)), interval);
      assert Requests(Prefix(request, interval, k)) == Requests(t) + [request(LevelAt(k - 1))];
    }
  }

  /** A prefix of k steps sleeps k intervals. */
  lemma {:induction false} PrefixSleep<T>(request: Percent -> T, interval: nat, k: nat)
    requires k <= 202
    ensures TotalSleep(Prefix(request, interval, k)) == k * interval
  {
    if k > 0 {
      var t := Prefix(request, interval, k - 1);
      PrefixSleep(request, interval, k - 1);
      StepAppended(t, request(LevelAt(k - 1)), interval);
      OneMore(k, interval);
    }
  }

  lemma OneMore(k: nat, x: nat)
    requires k > 0
    ensures (k - 1) * x + x == k * x
  {
  }

  /** One pass: 404 steps alternating request and sleep, 202 requests in
      the order of `LevelAt`, 202 intervals of sleep. */
  lemma PassShape<T>(request: Percent -> T, interval: nat)
    ensures |Pass(request, interval)| == 404
    ensures forall j :: 0 <= j < 404 ==>
              Pass(request, interval)[j] ==
                if j % 2 == 0 then Request(request(LevelAt(j / 2))) else Sleep(interval)
    ensures |Requests(Pass(request, interval))| == 202
    ensures forall k :: 0 <= k < 202 ==> Requests(Pass(request, interval))[k] == request(LevelAt(k))
    ensures TotalSleep(Pass(request, interval)) == 202 * interval
  {
    PrefixLength(request, interval, 202);
    forall j | 0 <= j < 404
      ensures Pass(request, interval)[j] ==
                if j % 2 == 0 then Request(request(LevelAt(j / 2))) else Sleep(interval)
    {
      PrefixAt(request, interval, 202, j);
    }
    PrefixRequests(request, interval, 202);
    PrefixSleep(request, interval, 202);
  }

  //----------------//
  // Repeated passes //
  //----------------//

  /** n copies of a trace: n times its length, its requests and its sleep. */
  lemma {:induction false} RepeatedCounts<T>(t: seq<Step<T>>, n: nat)
    ensures |Repeated(t, n)| == n * |t|
    ensures |Requests(Repeated(t, n))| == n * |Requests(t)|
    ensures TotalSleep(Repeated(t, n)) == n * TotalSleep(t)
  {
    if n > 0 {
      RepeatedCounts(t, n - 1);
      RequestsAppend(Repeated(t, n - 1), t);
      TotalSleepAppend(Repeated(t, n - 1), t);
      assert n * |t| == (n - 1) * |t| + |t|;
      assert n * |Requests(t)| == (n - 1) * |Requests(t)| + |Requests(t)|;
      assert n * TotalSleep(t) == (n - 1) * TotalSleep(t) + TotalSleep(t);
    }
  }

  /** One more pass: the repetition grows by the pass, and a log holding
      the requests of the first n passes, extended by the pass's requests,
      holds those of the first n + 1. */
  lemma NextPass<T>(one: seq<Step<T>>, n: nat, log: seq<T>, prior: seq<T>)
    requires log == prior + Requests(Repeated(one, n))
    ensures Repeated(one, n + 1) == Repeated(one, n) + one
    ensures log + Requests(one) == prior + Requests(Repeated(one, n + 1))
  {
    RequestsAppend(Repeated(one, n), one);
  }

  /** Every pass of a repetition is the same pass: position i of pass q
      is position i of the repeated trace. */
  lemma {:induction false} RepeatedAt<T>(t: seq<T>, n: nat, q: nat, i: nat)
    requires q < n && i < |t|
    ensures |Repeated(t, n)| == n * |t|
    ensures q * |t| + i < n * |t|
    ensures Repeated(t, n)[q * |t| + i] == t[i]
  {
    RepeatedLength(t, n);
    RepeatedLength(t, n - 1);
    assert n * |t| == (n - 1) * |t| + |t|;
    if q < n - 1 {
      RepeatedAt(t, n - 1, q, i);
    } else {
      assert q * |t| == (n - 1) * |t|;
    }
  }

  lemma {:induction false} RepeatedLength<T>(t: seq<T>, n: nat)
    ensures |Repeated(t, n)| == n * |t|
  {
    if n > 0 {
      RepeatedLength(t, n - 1);
      assert n * |t| == (n - 1) * |t| + |t|;
    }
  }

  /** n passes issue 202 n requests and sleep 202 n intervals. */
  lemma RepeatedPasses<T>(request: Percent -> T, interval: nat, n: nat)
    ensures |Repeated(Pass(request, interval), n)| == 404 * n
    ensures |Requests(Repeated(Pass(request, interval), n))| == 202 * n
    ensures TotalSleep(Repeated(Pass(request, interval), n)) == 202 * n * interval
  {
    PassShape(request, interval);
    RepeatedCounts(Pass(request, interval), n);
    Regroup(n, interval);
  }

  lemma Regroup(n: nat, interval: nat)
    ensures n * (202 * interval) == 202 * n * interval
  {
  }
}

/**
 The fixed-window rate limiter: a counter that starts with the first request of
 a window and vanishes when the window is over.
 */
module RateLimiter {
  import opened Common

  /** A policy; its window is in seconds, while the store's clock counts milliseconds. */
  datatype Limit = Limit(requests: nat, window: nat) {
    /** Parsed policies allow at least one request, and windows are not empty. */
    predicate Valid() { requests >= 1 && window >= 1 }

    function Span(): nat { 1000 * window }
  }

  /** A stored counter and the moment it vanishes. */
  datatype Counter = Counter(count: nat, expires: int)

  datatype Verdict = Allowed | Exceeded(retryAfter: nat) | Unavailable

  // ----- one key

  predicate Alive(c: Option<Counter>, now: int) {
    c.Some? && now < c.value.expires
  }

  /** Increment, and give a counter without an expiry one. */
  function Counted(c: Option<Counter>, l: Limit, now: int): Counter {
    if Alive(c, now) then c.value.(count := c.value.count + 1) else Counter(1, now + l.Span())
  }

  predicate Admits(c: Option<Counter>, l: Limit, now: int) {
    Counted(c, l, now).count <= l.requests
  }

  /** The counter after requests at these moments. */
  function After(times: seq<int>, l: Limit): Option<Counter> {
    if times == [] then None
    else Some(Counted(After(times[..|times| - 1], l), l, times[|times| - 1]))
  }

  predicate InOrder(times: seq<int>) {
    forall i, j :: 0 <= i < j < |times| ==> times[i] <= times[j]
  }

  /** How many requests of the interval from `a` up to but not including `b` are let through. */
  function Admitted(times: seq<int>, l: Limit, a: int, b: int): nat {
    if times == [] then 0
    else
      var front := times[..|times| - 1];
      var now := times[|times| - 1];
      Admitted(front, l, a, b) + if a <= now < b && Admits(After(front, l), l, now) then 1 else 0
  }

  function Requests(times: seq<int>, a: int, b: int): nat {
    if times == [] then 0
    else
      var now := times[|times| - 1];
      Requests(times[..|times| - 1], a, b) + if a <= now < b then 1 else 0
  }

  function Min(x: nat, y: nat): nat {
    if x <= y then x else y
  }

  /** The last request lies in the current window. */
  lemma {:induction false} LastIsInWindow(times: seq<int>, l: Limit)
    requires l.Valid() && InOrder(times) && times != []
    ensures var c := After(times, l).value; c.expires - l.Span() <= times[|times| - 1] < c.expires && c.count >= 1
  {
    if |times| > 1 {
      LastIsInWindow(times[..|times| - 1], l);
    }
  }

  lemma {:induction false} NothingEarlier(times: seq<int>, l: Limit, a: int, b: int)
    requires forall i :: 0 <= i < |times| ==> times[i] < a
    ensures Admitted(times, l, a, b) == 0 && Requests(times, a, b) == 0
  {
    if times != [] {
      NothingEarlier(times[..|times| - 1], l, a, b);
    }
  }

  /** Each window lets through exactly as many requests as it may, or all of them. */
  lemma {:induction false} WindowAdmitsItsShare(times: seq<int>, l: Limit)
    requires l.Valid() && InOrder(times) && times != []
    ensures var c := After(times, l).value; var start := c.expires - l.Span();
      && Requests(times, start, c.expires) == c.count
      && Admitted(times, l, start, c.expires) == Min(c.count, l.requests)
  {
    var front := times[..|times| - 1];
    var now := times[|times| - 1];
    LastIsInWindow(times, l);
    var c := After(times, l).value;
    if Alive(After(front, l), now) {
      WindowAdmitsItsShare(front, l);
    } else {
      if front != [] {
        LastIsInWindow(front, l);
        assert forall i :: 0 <= i < |front| ==> front[i] <= front[|front| - 1] < now;
      }
      NothingEarlier(front, l, c.expires - l.Span(), c.expires);
    }
  }

  /** What has been let through in an interval of at most one window's length, given the current window. */
  ghost predicate Bounded(times: seq<int>, l: Limit, a: int, b: int) {
    var n := Admitted(times, l, a, b);
    match After(times, l)
    case None => n == 0
    case Some(c) =>
      var start := c.expires - l.Span();
      if start < a then n + 1 <= Min(c.count, l.requests)
      else if start == a then n <= Min(c.count, l.requests)
      else if start < b then n + 1 <= l.requests + Min(c.count, l.requests)
      else n + 1 <= 2 * l.requests
  }

  lemma {:induction false} AlwaysBounded(times: seq<int>, l: Limit, a: int, b: int)
    requires l.Valid() && InOrder(times) && a <= b <= a + l.Span()
    ensures Bounded(times, l, a, b)
  {
    if times != [] {
      var front := times[..|times| - 1];
      AlwaysBounded(front, l, a, b);
      if front != [] {
        LastIsInWindow(front, l);
        assert front[|front| - 1] == times[|times| - 2];
        if After(front, l).value.expires <= a {
          assert forall i :: 0 <= i < |front| ==> front[i] <= front[|front| - 1];
          NothingEarlier(front, l, a, b);
        }
      }
    }
  }

  /** No interval of one window's length sees more than twice the limit less one request. */
  lemma IntervalAdmitsLessThanTwice(times: seq<int>, l: Limit, a: int)
    requires l.Valid() && InOrder(times)
    ensures Admitted(times, l, a, a + 1000 * l.window) < 2 * l.requests
  {
    AlwaysBounded(times, l, a, a + l.Span());
  }

  function Repeat(t: int, n: nat): seq<int> {
    if n == 0 then [] else Repeat(t, n - 1) + [t]
  }

  /** Requests at one moment of a live window use it up one by one. */
  lemma {:induction false} BurstCounts(times: seq<int>, l: Limit, t: int, n: nat, a: int, b: int)
    requires times != [] && Alive(After(times, l), t) && a <= t < b
    requires After(times, l).value.count + n <= l.requests
    ensures var all := times + Repeat(t, n);
      && After(all, l) == Some(Counter(After(times, l).value.count + n, After(times, l).value.expires))
      && Admitted(all, l, a, b) == Admitted(times, l, a, b) + n
  {
    if n == 0 {
      assert times + Repeat(t, 0) == times;
    } else {
      BurstCounts(times, l, t, n - 1, a, b);
      assert (times + Repeat(t, n))[..|times + Repeat(t, n)| - 1] == times + Repeat(t, n - 1);
    }
  }

  /** Bursts on both sides of a window's end. */
  function TwoBursts(l: Limit): seq<int>
    requires l.Valid()
  {
    [0] + Repeat(l.Span() - 1, l.requests - 1) + [l.Span()] + Repeat(l.Span(), l.requests - 1)
  }

  /** The bound is reached: two bursts around the end of a window get through within one window's length. */
  lemma TheBoundIsReached(l: Limit)
    requires l.Valid()
    ensures Admitted(TwoBursts(l), l, 1, 1 + l.Span()) == 2 * l.requests - 1
  {
    var a, b := 1, 1 + l.Span();
    var first := [0];
    assert first[..0] == [];
    assert After(first, l) == Some(Counter(1, l.Span())) && Admitted(first, l, a, b) == 0;
    BurstCounts(first, l, l.Span() - 1, l.requests - 1, a, b);
    var burst := first + Repeat(l.Span() - 1, l.requests - 1);
    var turned := burst + [l.Span()];
    assert turned[..|turned| - 1] == burst;
    assert After(turned, l) == Some(Counter(1, 2 * l.Span()));
    BurstCounts(turned, l, l.Span(), l.requests - 1, a, b);
    assert TwoBursts(l) == turned + Repeat(l.Span(), l.requests - 1);
  }

  lemma {:induction false} BurstAt(l: Limit, n: nat)
    requires l.Valid() && n >= 1
    ensures After(Repeat(0, n), l) == Some(Counter(n, l.Span()))
  {
    var front := Repeat(0, n - 1);
    assert (front + [0])[..|front|] == front;
    if n > 1 {
      BurstAt(l, n - 1);
    }
  }

  /** A shorter wait than the window is not enough in general: after a burst at its start every call up to its end is rejected. */
  lemma ShorterWaitIsNotEnough(l: Limit)
    requires l.Valid()
    ensures var burst := Repeat(0, l.requests);
      && !Admits(After(burst, l), l, 0)
      && (forall now :: 0 <= now < 1000 * l.window ==> !Admits(After(burst + [0], l), l, now))
      && Admits(After(burst + [0], l), l, 1000 * l.window)
  {
    BurstAt(l, l.requests);
    var burst := Repeat(0, l.requests);
    assert (burst + [0])[..|burst|] == burst;
    assert |burst + [0]| == |burst| + 1;
  }

  // ----- all keys

  function Key(prefix: string, bucket: string, principal: string): string {
    prefix + ":rate:" + bucket + ":" + principal
  }

  /** A bucket's name holds no colon, so the counters of different principals and buckets are different. */
  lemma KeysAreSeparate(prefix: string, bucket: string, principal: string, bucket': string, principal': string)
    requires ':' !in bucket && ':' !in bucket'
    requires Key(prefix, bucket, principal) == Key(prefix, bucket', principal')
    ensures bucket == bucket' && principal == principal'
  {
    var n := |prefix + ":rate:"|;
    var rest, rest' := bucket + ":" + principal, bucket' + ":" + principal';
    assert Key(prefix, bucket, principal) == prefix + ":rate:" + rest && Key(prefix, bucket', principal') == prefix + ":rate:" + rest';
    assert Key(prefix, bucket, principal)[n..] == rest && Key(prefix, bucket', principal')[n..] == rest';
    assert rest[|bucket|] == ':' && rest'[|bucket'|] == ':';
    assert forall i :: 0 <= i < |bucket| ==> rest[i] == bucket[i];
    assert forall i :: 0 <= i < |bucket'| ==> rest'[i] == bucket'[i];
    assert |bucket| == |bucket'|;
    assert rest[..|bucket|] == bucket && rest'[..|bucket|] == bucket';
    assert rest[|bucket| + 1..] == principal && rest'[|bucket| + 1..] == principal';
  }

  /** A request counted on a key; `up` says whether the counters could be reached. */
  datatype Call = Call(key: string, now: int, up: bool)

  function Lookup(counters: map<string, Counter>, key: string): Option<Counter> {
    if key in counters then Some(counters[key]) else None
  }

  function Step(counters: map<string, Counter>, l: Limit, c: Call): map<string, Counter> {
    if c.up then counters[c.key := Counted(Lookup(counters, c.key), l, c.now)] else counters
  }

  function Decision(counters: map<string, Counter>, l: Limit, failOpen: bool, c: Call): Verdict {
    if !c.up then (if failOpen then Allowed else Unavailable)
    else if Admits(Lookup(counters, c.key), l, c.now) then Allowed
    else Exceeded(l.window)
  }

  function Run(calls: seq<Call>, l: Limit): map<string, Counter> {
    if calls == [] then map[] else Step(Run(calls[..|calls| - 1], l), l, calls[|calls| - 1])
  }

  /** The counted requests of one key. */
  function TimesOf(calls: seq<Call>, key: string): seq<int> {
    if calls == [] then []
    else
      var front := TimesOf(calls[..|calls| - 1], key);
      var c := calls[|calls| - 1];
      if c.up && c.key == key then front + [c.now] else front
  }

  /** How many counted requests of the key are let through in the interval, with all the other keys in use. */
  function AdmittedTo(calls: seq<Call>, l: Limit, failOpen: bool, key: string, a: int, b: int): nat {
    if calls == [] then 0
    else
      var front := calls[..|calls| - 1];
      var c := calls[|calls| - 1];
      AdmittedTo(front, l, failOpen, key, a, b) +
      if c.up && c.key == key && a <= c.now < b && Decision(Run(front, l), l, failOpen, c).Allowed? then 1 else 0
  }

  predicate CallsInOrder(calls: seq<Call>) {
    forall i, j :: 0 <= i < j < |calls| ==> calls[i].now <= calls[j].now
  }

  /** One more request at the end of a list. */
  lemma OneMore(times: seq<int>, now: int, l: Limit, a: int, b: int)
    ensures After(times + [now], l) == Some(Counted(After(times, l), l, now))
    ensures Admitted(times + [now], l, a, b) ==
      Admitted(times, l, a, b) + if a <= now < b && Admits(After(times, l), l, now) then 1 else 0
  {
    assert (times + [now])[..|times|] == times;
    hide Counted, Admits;
  }

  lemma {:induction false} CounterIsOwn(calls: seq<Call>, l: Limit, key: string)
    ensures Lookup(Run(calls, l), key) == After(TimesOf(calls, key), l)
  {
    if calls != [] {
      var front := calls[..|calls| - 1];
      var c := calls[|calls| - 1];
      CounterIsOwn(front, l, key);
      OneMore(TimesOf(front, key), c.now, l, 0, 0);
      hide After, Counted;
    }
  }

  /** A key's counter and what it lets through depend on its own requests only. */
  lemma {:induction false} KeysAreIndependent(calls: seq<Call>, l: Limit, failOpen: bool, key: string, a: int, b: int)
    ensures Lookup(Run(calls, l), key) == After(TimesOf(calls, key), l)
    ensures AdmittedTo(calls, l, failOpen, key, a, b) == Admitted(TimesOf(calls, key), l, a, b)
  {
    CounterIsOwn(calls, l, key);
    if calls != [] {
      var front := calls[..|calls| - 1];
      var c := calls[|calls| - 1];
      KeysAreIndependent(front, l, failOpen, key, a, b);
      OneMore(TimesOf(front, key), c.now, l, a, b);
      hide After, Counted, Admits, Admitted, Run, Lookup;
    }
  }

  lemma {:induction false} TimesAreInOrder(calls: seq<Call>, key: string)
    requires CallsInOrder(calls)
    ensures InOrder(TimesOf(calls, key))
    ensures forall t :: t in TimesOf(calls, key) ==> exists i :: 0 <= i < |calls| && calls[i].now == t
  {
    if calls != [] {
      var front := calls[..|calls| - 1];
      TimesAreInOrder(front, key);
      forall t | t in TimesOf(calls, key) ensures exists i :: 0 <= i < |calls| && calls[i].now == t {
        if t in TimesOf(front, key) {
          var i :| 0 <= i < |front| && front[i].now == t;
          assert calls[i].now == t;
        } else {
          assert calls[|calls| - 1].now == t;
        }
      }
      assert forall i :: 0 <= i < |TimesOf(front, key)| ==> TimesOf(front, key)[i] in TimesOf(front, key);
    }
  }

  /** Whatever the other principals do, a principal gets fewer than twice the limit through in any interval of one window's length. */
  lemma PrincipalIsLimited(calls: seq<Call>, l: Limit, failOpen: bool, key: string, a: int)
    requires l.Valid() && CallsInOrder(calls)
    ensures AdmittedTo(calls, l, failOpen, key, a, a + 1000 * l.window) < 2 * l.requests
  {
    KeysAreIndependent(calls, l, failOpen, key, a, a + l.Span());
    TimesAreInOrder(calls, key);
    IntervalAdmitsLessThanTwice(TimesOf(calls, key), l, a);
  }

  /** A rejected request does not prolong its window: waiting for the announced time is enough when nobody else calls. */
  lemma WaitingIsEnough(calls: seq<Call>, l: Limit, failOpen: bool, c: Call, again: int)
    requires l.Valid() && CallsInOrder(calls + [c])
    requires Decision(Run(calls, l), l, failOpen, c).Exceeded?
    requires again >= c.now + 1000 * Decision(Run(calls, l), l, failOpen, c).retryAfter
    ensures Lookup(Run(calls + [c], l), c.key).value.expires == Lookup(Run(calls, l), c.key).value.expires
    ensures Decision(Run(calls + [c], l), l, failOpen, c.(now := again)).Allowed?
  {
    assert (calls + [c])[..|calls|] == calls;
    assert CallsInOrder(calls) by {
      forall i, j | 0 <= i < j < |calls| ensures calls[i].now <= calls[j].now {
        assert (calls + [c])[i].now <= (calls + [c])[j].now;
      }
    }
    KeysAreIndependent(calls, l, failOpen, c.key, 0, 0);
    TimesAreInOrder(calls, c.key);
    var times := TimesOf(calls, c.key);
    LastIsInWindow(times, l);
    assert times[|times| - 1] in times;
    var last :| 0 <= last < |calls| && calls[last].now == times[|times| - 1];
    assert (calls + [c])[last].now <= (calls + [c])[|calls|].now;
  }

  /** A rejected call is told to wait for one window; without the store every call is let through or none, as configured, and nothing is counted. */
  lemma VerdictsSay(counters: map<string, Counter>, l: Limit, failOpen: bool, c: Call)
    requires l.Valid()
    ensures var v := Decision(counters, l, failOpen, c);
      && (v.Exceeded? ==> v.retryAfter == l.window && c.up)
      && (!c.up ==> v == (if failOpen then Allowed else Unavailable) && Step(counters, l, c) == counters)
      && (c.up ==> !v.Unavailable? && (v.Exceeded? <==> Step(counters, l, c)[c.key].count > l.requests))
      && (c.up ==> forall key :: key in counters && key != c.key ==> key in Step(counters, l, c) && Step(counters, l, c)[key] == counters[key])
  {
  }

  // ----- the limiter

  class Limiter {
    const prefix: string
    const failOpen: bool
    var counters: map<string, Counter>

    constructor (prefix: string, failOpen: bool)
      ensures this.prefix == prefix && this.failOpen == failOpen && counters == map[]
    {
      this.prefix, this.failOpen, counters := prefix, failOpen, map[];
    }

    /** `up` stands for the store answering, `now` for its clock. */
    method Check(bucket: string, principal: string, l: Limit, now: int, up: bool) returns (v: Verdict)
      modifies this`counters
      ensures var c := Call(Key(prefix, bucket, principal), now, up);
        counters == Step(old(counters), l, c) && v == Decision(old(counters), l, failOpen, c)
    {
      var key := Key(prefix, bucket, principal);
      if !up {
        return if failOpen then Allowed else Unavailable;
      }
      var stored := Lookup(counters, key);
      var counter: Counter;
      if stored.Some? && now < stored.value.expires {
        counter := stored.value.(count := stored.value.count + 1);
      } else {
        counter := Counter(1, now + l.Span());
      }
      counters := counters[key := counter];
      v := if counter.count > l.requests then Exceeded(l.window) else Allowed;
    }
  }
}

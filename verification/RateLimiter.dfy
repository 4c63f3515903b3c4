/** The API's request limiter: each caller gets a window with a quota. Times are whole milliseconds. */
module RateLimiter {
  import opened Base

  datatype Options = Options(limit: int, windowMs: int)

  datatype Window = Window(count: nat, resetAt: int)

  datatype Decision = Decision(allowed: bool, retryAfterSeconds: int)

  datatype OptionError = LimitTooSmall | WindowTooSmall

  datatype Call = Call(key: string, now: int)

  type Windows = map<string, Window>

  predicate Usable(o: Options) {
    SafePositive(o.limit) && SafePositive(o.windowMs)
  }

  // ---------------------------------------------------------------------
  // What one check decides, and what it leaves behind
  // ---------------------------------------------------------------------

  predicate Live(ws: Windows, key: string, now: int) {
    key in ws && ws[key].resetAt > now
  }

  /** Whole seconds, rounded up. */
  function SecondsUntil(ms: int): (s: int)
    requires ms > 0
    ensures s >= 1 && (s - 1) * 1000 < ms <= s * 1000
  {
    (ms + 999) / 1000
  }

  function Decide(o: Options, ws: Windows, c: Call): (d: Decision)
    ensures d.allowed <==> d.retryAfterSeconds == 0
  {
    if Live(ws, c.key, c.now) && ws[c.key].count >= o.limit then
      Decision(false, SecondsUntil(ws[c.key].resetAt - c.now))
    else Decision(true, 0)
  }

  function Unexpired(ws: Windows, now: int): Windows {
    map k | k in ws && ws[k].resetAt > now :: ws[k]
  }

  /** The windows after a check; `evicts` tells whether opening a window sweeps out the expired ones. */
  function Next(o: Options, evicts: bool, ws: Windows, c: Call): Windows {
    if !Live(ws, c.key, c.now) then
      var grown := ws[c.key := Window(1, c.now + o.windowMs)];
      if evicts then Unexpired(grown, c.now) else grown
    else if ws[c.key].count >= o.limit then ws
    else ws[c.key := Window(ws[c.key].count + 1, ws[c.key].resetAt)]
  }

  class RateLimiter {
    const options: Options
    var windows: Windows

    constructor (options: Options)
      requires Usable(options)
      ensures this.options == options && windows == map[]
    {
      this.options := options;
      windows := map[];
    }

    method Check(key: string, now: int) returns (d: Decision)
      requires Usable(options)
      modifies this
      ensures d == Decide(options, old(windows), Call(key, now))
      ensures windows == Next(options, true, old(windows), Call(key, now))
    {
      if key !in windows || windows[key].resetAt <= now {
        windows := windows[key := Window(1, now + options.windowMs)];
        EvictExpired(now);
        return Decision(true, 0);
      }
      var window := windows[key];
      if window.count >= options.limit {
        return Decision(false, SecondsUntil(window.resetAt - now));
      }
      windows := windows[key := window.(count := window.count + 1)];
      return Decision(true, 0);
    }

    method EvictExpired(now: int)
      modifies this
      ensures windows == Unexpired(old(windows), now)
    {
      var rest := windows.Keys;
      ghost var before := windows;
      while rest != {}
        invariant rest <= windows.Keys <= before.Keys
        invariant forall k | k in windows :: windows[k] == before[k]
        invariant forall k | k in before :: k in windows <==> k in rest || before[k].resetAt > now
        decreases |rest|
      {
        var key :| key in rest;
        rest := rest - {key};
        if windows[key].resetAt <= now {
          windows := windows - {key};
        }
      }
    }
  }

  /** The constructor's own checks: a limiter exists only for a positive limit and window. */
  method Open(o: Options) returns (r: Result<RateLimiter, OptionError>)
    ensures r.Ok? <==> Usable(o)
    ensures r.Ok? ==> fresh(r.value) && r.value.options == o && r.value.windows == map[]
    ensures r == Err(LimitTooSmall) <==> !SafePositive(o.limit)
  {
    if !SafePositive(o.limit) {
      return Err(LimitTooSmall);
    }
    if !SafePositive(o.windowMs) {
      return Err(WindowTooSmall);
    }
    var limiter := new RateLimiter(o);
    return Ok(limiter);
  }

  // ---------------------------------------------------------------------
  // Whole runs
  // ---------------------------------------------------------------------

  function Last<T>(s: seq<T>): T
    requires s != []
  {
    s[|s| - 1]
  }

  function Before<T>(s: seq<T>): seq<T>
    requires s != []
  {
    s[..|s| - 1]
  }

  function After(o: Options, evicts: bool, calls: seq<Call>): Windows {
    if calls == [] then map[]
    else Next(o, evicts, After(o, evicts, Before(calls)), Last(calls))
  }

  predicate Monotone(calls: seq<Call>) {
    forall i, j :: 0 <= i < j < |calls| ==> calls[i].now <= calls[j].now
  }

  // ---------------------------------------------------------------------
  // When sweeping out windows shows
  // ---------------------------------------------------------------------

  /** What the sweep of this check drops. */
  function Swept(ws: Windows, c: Call): Windows {
    if Live(ws, c.key, c.now) then map[] else map k | k in ws && k != c.key && ws[k].resetAt <= c.now :: ws[k]
  }

  /** The windows swept out of the limiter whose keys have not been checked since. */
  function Gone(o: Options, calls: seq<Call>): Windows {
    if calls == [] then map[]
    else
      var past, c := Before(calls), Last(calls);
      (Gone(o, past) - {c.key}) + Swept(After(o, true, past), c)
  }

  /** A check that comes before the end of a window already swept out. */
  predicate Early(o: Options, past: seq<Call>, c: Call) {
    Live(Gone(o, past), c.key, c.now)
  }

  /** No check of the run came early. */
  predicate InTime(o: Options, calls: seq<Call>) {
    calls != [] ==> InTime(o, Before(calls)) && !Early(o, Before(calls), Last(calls))
  }

  /** One limiter's windows are the other's with the swept-out ones put back. */
  ghost predicate Split(us: Windows, ws: Windows, gone: Windows) {
    ws.Keys !! gone.Keys && us == ws + gone
  }

  lemma SplitStep(o: Options, us: Windows, ws: Windows, gone: Windows, c: Call)
    requires Usable(o) && Split(us, ws, gone) && !Live(gone, c.key, c.now)
    ensures Split(Next(o, false, us, c), Next(o, true, ws, c), (gone - {c.key}) + Swept(ws, c))
  {
    assert Live(us, c.key, c.now) == Live(ws, c.key, c.now);
    if Live(ws, c.key, c.now) {
      assert (gone - {c.key}) + map[] == gone;
    }
  }

  lemma {:induction false} SplitRun(o: Options, calls: seq<Call>)
    requires Usable(o) && InTime(o, calls)
    ensures Split(After(o, false, calls), After(o, true, calls), Gone(o, calls))
  {
    if calls != [] {
      var past := Before(calls);
      SplitRun(o, past);
      SplitStep(o, After(o, false, past), After(o, true, past), Gone(o, past), Last(calls));
    }
  }

  /**
   * As long as no check has come early, the limiter and one that never sweeps decide the next
   * check differently exactly when it comes before the end of a full window that was swept out
   * earlier and whose key has not been checked since.
   */
  lemma WhenEvictionShows(o: Options, calls: seq<Call>, c: Call)
    requires Usable(o) && InTime(o, calls)
    ensures
      Decide(o, After(o, true, calls), c) != Decide(o, After(o, false, calls), c)
      <==> Early(o, calls, c) && Gone(o, calls)[c.key].count >= o.limit
  {
    SplitRun(o, calls);
  }

  /** Whatever has been swept out has ended by the time of the last check. */
  lemma {:induction false} SweptHasEnded(o: Options, calls: seq<Call>)
    requires Monotone(calls) && calls != []
    ensures forall k | k in Gone(o, calls) :: Gone(o, calls)[k].resetAt <= Last(calls).now
  {
    if Before(calls) != [] {
      SweptHasEnded(o, Before(calls));
    }
  }

  lemma {:induction false} MonotoneIsInTime(o: Options, calls: seq<Call>)
    requires Monotone(calls)
    ensures InTime(o, calls)
  {
    if calls != [] {
      MonotoneIsInTime(o, Before(calls));
      if Before(calls) != [] {
        SweptHasEnded(o, Before(calls));
      }
    }
  }

  /** With a clock that never goes back, every decision of a run is the one a limiter without sweeps makes. */
  lemma EvictionNeverShows(o: Options, calls: seq<Call>, i: nat)
    requires Usable(o) && Monotone(calls) && i < |calls|
    ensures Decide(o, After(o, true, calls[..i]), calls[i]) == Decide(o, After(o, false, calls[..i]), calls[i])
  {
    MonotoneIsInTime(o, calls[..i + 1]);
    assert Before(calls[..i + 1]) == calls[..i];
    WhenEvictionShows(o, calls[..i], calls[i]);
  }

  /** The condition is met by a run of three checks, the third of them back in time. */
  lemma EvictionShowsWhenTheClockGoesBack()
    ensures
      var o, calls := Options(1, 10), [Call("a", 0), Call("b", 20)];
      && InTime(o, calls) && Early(o, calls, Call("a", 5))
      && Decide(o, After(o, true, calls), Call("a", 5)).allowed
      && !Decide(o, After(o, false, calls), Call("a", 5)).allowed
  {
    var o := Options(1, 10);
    var calls := [Call("a", 0), Call("b", 20)];
    assert Before(calls) == [Call("a", 0)] && Before(Before(calls)) == [];
    MonotoneIsInTime(o, calls);
    assert After(o, true, Before(calls)) == map["a" := Window(1, 10)];
    assert Gone(o, calls) == map["a" := Window(1, 10)];
    SplitRun(o, calls);
    WhenEvictionShows(o, calls, Call("a", 5));
  }

  // ---------------------------------------------------------------------
  // How many checks an interval can see allowed
  // ---------------------------------------------------------------------

  predicate Counts(o: Options, evicts: bool, past: seq<Call>, c: Call, key: string, a: int, b: int) {
    c.key == key && a <= c.now < b && Decide(o, After(o, evicts, past), c).allowed
  }

  /** Checks of `key` allowed at a time in [a, b). */
  function Served(o: Options, evicts: bool, calls: seq<Call>, key: string, a: int, b: int): nat {
    if calls == [] then 0
    else
      Served(o, evicts, Before(calls), key, a, b)
      + if Counts(o, evicts, Before(calls), Last(calls), key, a, b) then 1 else 0
  }

  lemma {:induction false} ServedTheSame(o: Options, calls: seq<Call>, key: string, a: int, b: int)
    requires Usable(o) && Monotone(calls)
    ensures Served(o, true, calls, key, a, b) == Served(o, false, calls, key, a, b)
  {
    if calls != [] {
      ServedTheSame(o, Before(calls), key, a, b);
      EvictionNeverShows(o, calls, |calls| - 1);
    }
  }

  /**
   * What is known once a run of `key` has reached `now`: `served` so far in [a, a + span * W),
   * with `full` whole windows between a and the start of the present one.
   */
  ghost predicate Within(o: Options, w: Option<Window>, now: int, a: int, span: nat, served: int, full: nat) {
    var start := if w.Some? then w.value.resetAt - o.windowMs else a;
    && 0 <= served
    && (now < a ==> served == 0)
    && (w.None? ==> served == 0)
    && (w.Some? ==>
          && 1 <= w.value.count <= o.limit && start <= now
          && (start < a ==> served < w.value.count)
          && (a <= start < a + span * o.windowMs ==>
                && full < span && a + full * o.windowMs <= start
                && served <= o.limit - 1 + full * o.limit + w.value.count)
          && (start >= a + span * o.windowMs ==> served <= o.limit - 1 + span * o.limit))
  }

  function WindowOf(ws: Windows, key: string): Option<Window> {
    if key in ws then Some(ws[key]) else None
  }

  lemma Times(n: nat, m: nat, x: nat)
    requires n <= m
    ensures n * x <= m * x
    ensures (n + 1) * x == n * x + x
  {
    Multiples(n, m, x);
  }

  /** Opening a window at `now`: the whole windows counted between a and it. */
  lemma OpensWindow(o: Options, w: Option<Window>, now: int, later: int, a: int, span: nat, served: int, full: nat)
    returns (full': nat)
    requires Usable(o) && span >= 1 && Within(o, w, now, a, span, served, full) && now <= later
    requires w.Some? ==> w.value.resetAt <= later
    ensures
      var served' := served + if a <= later < a + span * o.windowMs then 1 else 0;
      Within(o, Some(Window(1, later + o.windowMs)), later, a, span, served', full')
  {
    full' := 0;
    if w.Some? {
      var start := w.value.resetAt - o.windowMs;
      if a <= start < a + span * o.windowMs {
        Times(full, span - 1, o.limit);
        Times(full + 1, span, o.limit);
        Times(full, full, o.windowMs);
        if later < a + span * o.windowMs {
          full' := full + 1;
          FewerWindows(o, full', span, later - a);
        }
      }
    }
    Times(0, span - 1, o.windowMs);
    Times(0, span, o.limit);
  }

  lemma FewerWindows(o: Options, full: nat, span: nat, ms: int)
    requires o.windowMs > 0 && full * o.windowMs <= ms < span * o.windowMs
    ensures full < span
  {
    if full >= span {
      Times(span, full, o.windowMs);
    }
  }

  lemma {:induction false} StaysWithin(o: Options, calls: seq<Call>, key: string, a: int, span: nat) returns (full: nat)
    requires Usable(o) && Monotone(calls) && span >= 1 && calls != []
    ensures
      Within(o, WindowOf(After(o, false, calls), key), Last(calls).now, a, span,
             Served(o, false, calls, key, a, a + span * o.windowMs), full)
  {
    var past, c := Before(calls), Last(calls);
    var now, served := c.now, 0;
    full := 0;
    if past != [] {
      full := StaysWithin(o, past, key, a, span);
      now := Last(past).now;
      served := Served(o, false, past, key, a, a + span * o.windowMs);
    }
    var w := WindowOf(After(o, false, past), key);
    assert Within(o, w, now, a, span, served, full);
    if c.key == key && !Live(After(o, false, past), key, c.now) {
      full := OpensWindow(o, w, now, c.now, a, span, served, full);
    }
  }

  /**
   * In any interval of span windows' length, however it lies against the windows, at most
   * (span + 1) * limit - 1 checks of a key are allowed.
   */
  lemma SlidingBound(o: Options, calls: seq<Call>, key: string, a: int, span: nat)
    requires Usable(o) && Monotone(calls) && span >= 1
    ensures Served(o, true, calls, key, a, a + span * o.windowMs) <= (span + 1) * o.limit - 1
  {
    ServedTheSame(o, calls, key, a, a + span * o.windowMs);
    Times(0, span, o.limit);
    Times(span, span, o.limit);
    if calls != [] {
      var full := StaysWithin(o, calls, key, a, span);
      if full < span {
        Times(full, span - 1, o.limit);
        Times(span - 1, span, o.limit);
      }
    }
  }

  // ---------------------------------------------------------------------
  // The bound is reached
  // ---------------------------------------------------------------------

  function Burst(key: string, now: int, n: nat): (calls: seq<Call>)
    ensures |calls| == n && forall c | c in calls :: c == Call(key, now)
  {
    seq(n, i => Call(key, now))
  }

  /** n more checks inside a window that has room for them are all allowed. */
  lemma {:induction false} BurstServed(o: Options, past: seq<Call>, key: string, now: int, n: nat, a: int, b: int)
    requires a <= now < b
    requires Live(After(o, false, past), key, now) && After(o, false, past)[key].count + n <= o.limit
    ensures
      var w := After(o, false, past)[key];
      WindowOf(After(o, false, past + Burst(key, now, n)), key) == Some(Window(w.count + n, w.resetAt))
    ensures
      Served(o, false, past + Burst(key, now, n), key, a, b) == Served(o, false, past, key, a, b) + n
  {
    if n == 0 {
      assert past + Burst(key, now, 0) == past;
    } else {
      BurstServed(o, past, key, now, n - 1, a, b);
      assert past + Burst(key, now, n) == (past + Burst(key, now, n - 1)) + [Call(key, now)];
      OneServed(o, past + Burst(key, now, n - 1), key, now, a, b);
    }
  }

  lemma OneServed(o: Options, past: seq<Call>, key: string, now: int, a: int, b: int)
    requires a <= now < b
    requires Live(After(o, false, past), key, now) && After(o, false, past)[key].count < o.limit
    ensures
      var w, calls := After(o, false, past)[key], past + [Call(key, now)];
      && WindowOf(After(o, false, calls), key) == Some(Window(w.count + 1, w.resetAt))
      && Served(o, false, calls, key, a, b) == Served(o, false, past, key, a, b) + 1
  {
    var calls := past + [Call(key, now)];
    assert Before(calls) == past && Last(calls) == Call(key, now);
  }

  /** One check at 0, the rest of that window just before it ends, then span windows filled as they open. */
  function Worst(o: Options, key: string, span: nat): seq<Call>
    requires Usable(o)
  {
    if span == 0 then [Call(key, 0)] + Burst(key, o.windowMs - 1, o.limit - 1)
    else Worst(o, key, span - 1) + [Call(key, span * o.windowMs)] + Burst(key, span * o.windowMs, o.limit - 1)
  }

  /** After the worst run for `span` windows the last of them is full, and every check was allowed. */
  ghost predicate Filled(o: Options, calls: seq<Call>, key: string, span: nat, a: int, b: int) {
    && Usable(o) && Monotone(calls) && calls != [] && Last(calls).now < (span + 1) * o.windowMs
    && WindowOf(After(o, false, calls), key) == Some(Window(o.limit, (span + 1) * o.windowMs))
    && Served(o, false, calls, key, a, b) == o.limit - 1 + span * o.limit
  }

  lemma {:induction false} WorstServed(o: Options, key: string, span: nat, total: nat)
    requires Usable(o) && o.windowMs >= 2 && span <= total && total >= 1
    ensures Filled(o, Worst(o, key, span), key, span, o.windowMs - 1, o.windowMs - 1 + total * o.windowMs)
  {
    var a, b := o.windowMs - 1, o.windowMs - 1 + total * o.windowMs;
    Times(1, total, o.windowMs);
    if span == 0 {
      FirstWindow(o, key, b);
    } else {
      WorstServed(o, key, span - 1, total);
      Times(span, total, o.windowMs);
      FillsNext(o, Worst(o, key, span - 1), key, span - 1, a, b);
    }
  }

  lemma FirstWindow(o: Options, key: string, b: int)
    requires Usable(o) && o.windowMs >= 2 && b > o.windowMs - 1
    ensures Filled(o, Worst(o, key, 0), key, 0, o.windowMs - 1, b)
  {
    var first := [Call(key, 0)];
    assert Before(first) == [];
    BurstServed(o, first, key, o.windowMs - 1, o.limit - 1, o.windowMs - 1, b);
  }

  lemma FillsNext(o: Options, past: seq<Call>, key: string, span: nat, a: int, b: int)
    requires Filled(o, past, key, span, a, b) && a <= (span + 1) * o.windowMs < b
    ensures
      Filled(o, past + [Call(key, (span + 1) * o.windowMs)] + Burst(key, (span + 1) * o.windowMs, o.limit - 1),
             key, span + 1, a, b)
  {
    Times(span, span, o.limit);
    Times(span + 1, span + 1, o.windowMs);
    OpenAndFill(o, past, key, (span + 1) * o.windowMs, a, b);
  }

  /** A window opened the moment the last one ends serves `limit` checks. */
  lemma OpenAndFill(o: Options, past: seq<Call>, key: string, now: int, a: int, b: int)
    requires Usable(o) && past != [] && Monotone(past) && Last(past).now <= now && a <= now < b
    requires key in After(o, false, past) && After(o, false, past)[key].resetAt <= now
    ensures
      var calls := past + [Call(key, now)] + Burst(key, now, o.limit - 1);
      && Monotone(calls) && calls != [] && Last(calls).now == now
      && WindowOf(After(o, false, calls), key) == Some(Window(o.limit, now + o.windowMs))
      && Served(o, false, calls, key, a, b) == Served(o, false, past, key, a, b) + o.limit
  {
    var first := past + [Call(key, now)];
    assert Before(first) == past && Last(first) == Call(key, now);
    BurstServed(o, first, key, now, o.limit - 1, a, b);
    AllAt(past, [Call(key, now)], now);
    AllAt(first, Burst(key, now, o.limit - 1), now);
  }

  lemma AllAt(calls: seq<Call>, more: seq<Call>, now: int)
    requires calls != [] && Monotone(calls) && Last(calls).now <= now
    requires forall c | c in more :: c.now == now
    ensures Monotone(calls + more) && (more != [] || Last(calls).now == now ==> Last(calls + more).now == now)
  {
    forall i | 0 <= i < |calls + more|
      ensures (calls + more)[i].now <= now && (i >= |calls| ==> (calls + more)[i].now == now)
    {
      if i >= |calls| {
        assert (calls + more)[i] == more[i - |calls|];
      } else {
        assert calls[i].now <= Last(calls).now;
      }
    }
  }

  /** Some run of this key has as many checks allowed in some interval as SlidingBound lets through. */
  ghost predicate Reaches(o: Options, key: string, span: nat, calls: seq<Call>, a: int) {
    Monotone(calls) && Served(o, true, calls, key, a, a + span * o.windowMs) == (span + 1) * o.limit - 1
  }

  /** The bound is reached exactly when windows last two milliseconds or more, or one check fills them. */
  lemma BoundIsTight(o: Options, key: string, span: nat)
    requires Usable(o) && span >= 1
    ensures (exists calls, a :: Reaches(o, key, span, calls, a)) <==> o.windowMs >= 2 || o.limit == 1
  {
    Times(span, span, o.limit);
    if o.windowMs >= 2 {
      WorstServed(o, key, span, span);
      ServedTheSame(o, Worst(o, key, span), key, o.windowMs - 1, o.windowMs - 1 + span * o.windowMs);
      assert Reaches(o, key, span, Worst(o, key, span), o.windowMs - 1);
    } else if o.limit == 1 {
      OneEachServed(o, key, span, span);
      ServedTheSame(o, OneEach(key, span), key, 0, span);
      assert Reaches(o, key, span, OneEach(key, span), 0);
    } else {
      forall calls, a | Monotone(calls) ensures !Reaches(o, key, span, calls, a) {
        ShortWindows(o, calls, key, a, span);
      }
    }
  }

  /** One check a millisecond. */
  function OneEach(key: string, n: nat): (calls: seq<Call>)
    ensures |calls| == n && forall i | 0 <= i < n :: calls[i] == Call(key, i)
  {
    seq(n, i => Call(key, i))
  }

  lemma {:induction false} OneEachServed(o: Options, key: string, n: nat, total: nat)
    requires Usable(o) && o.windowMs == 1 && n <= total
    ensures Served(o, false, OneEach(key, n), key, 0, total) == n
    ensures WindowOf(After(o, false, OneEach(key, n)), key) == if n == 0 then None else Some(Window(1, n))
  {
    if n > 0 {
      OneEachServed(o, key, n - 1, total);
      assert Before(OneEach(key, n)) == OneEach(key, n - 1);
    }
  }

  /** With windows of one millisecond an interval of `span` of them lets `span` quotas through. */
  lemma ShortWindows(o: Options, calls: seq<Call>, key: string, a: int, span: nat)
    requires Usable(o) && o.windowMs == 1 && Monotone(calls)
    ensures Served(o, true, calls, key, a, a + span) <= span * o.limit
  {
    ServedTheSame(o, calls, key, a, a + span);
    Times(0, span, o.limit);
    if calls != [] {
      StaysShort(o, calls, key, a, span);
      var w := WindowOf(After(o, false, calls), key);
      if w.Some? && a <= w.value.resetAt - 1 < a + span {
        Times(w.value.resetAt - a, span, o.limit);
        Times(w.value.resetAt - 1 - a, span, o.limit);
      }
    }
  }

  /** What is known of a key whose windows last one millisecond, `served` counted in [a, a + span). */
  ghost predicate Short(o: Options, w: Option<Window>, now: int, a: int, span: nat, served: int) {
    && (w.None? ==> served == 0)
    && (w.Some? ==>
          var start := w.value.resetAt - 1;
          && 1 <= w.value.count <= o.limit && start <= now
          && (start < a ==> served == 0)
          && (a <= start < a + span ==> served <= (start - a) * o.limit + w.value.count)
          && (start >= a + span ==> served <= span * o.limit))
  }

  lemma OpensShort(o: Options, w: Option<Window>, now: int, later: int, a: int, span: nat, served: int)
    requires Usable(o) && Short(o, w, now, a, span, served) && now <= later
    requires w.Some? ==> w.value.resetAt <= later
    ensures Short(o, Some(Window(1, later + 1)), later, a, span, served + if a <= later < a + span then 1 else 0)
  {
    Times(0, span, o.limit);
    if w.Some? && a <= w.value.resetAt - 1 < a + span {
      var start := w.value.resetAt - 1;
      Times(start - a, start - a, o.limit);
      Times(start + 1 - a, span, o.limit);
      if later < a + span {
        Times(start + 1 - a, later - a, o.limit);
      }
    } else if a <= later {
      Times(0, later - a, o.limit);
    }
  }

  lemma {:induction false} StaysShort(o: Options, calls: seq<Call>, key: string, a: int, span: nat)
    requires Usable(o) && o.windowMs == 1 && Monotone(calls) && calls != []
    ensures
      Short(o, WindowOf(After(o, false, calls), key), Last(calls).now, a, span,
            Served(o, false, calls, key, a, a + span))
  {
    var past, c := Before(calls), Last(calls);
    var now, served := c.now, 0;
    if past != [] {
      StaysShort(o, past, key, a, span);
      now := Last(past).now;
      served := Served(o, false, past, key, a, a + span);
    }
    var w := WindowOf(After(o, false, past), key);
    assert Short(o, w, now, a, span, served);
    if c.key == key && !Live(After(o, false, past), key, c.now) {
      OpensShort(o, w, now, c.now, a, span, served);
    }
  }

  // ---------------------------------------------------------------------
  // What a refusal promises
  // ---------------------------------------------------------------------

  lemma {:induction false} OthersLeaveItAlone(o: Options, calls: seq<Call>, others: seq<Call>, key: string)
    requires forall c | c in others :: c.key != key
    ensures WindowOf(After(o, false, calls + others), key) == WindowOf(After(o, false, calls), key)
  {
    if others == [] {
      assert calls + others == calls;
    } else {
      OthersLeaveItAlone(o, calls, Before(others), key);
      assert Before(calls + others) == calls + Before(others);
    }
  }

  /**
   * After a refusal at `now`, and whatever other keys do meanwhile, the key's next check is
   * allowed once retryAfterSeconds have passed, and still refused a second earlier or more.
   */
  lemma RetryAfterIsExact(o: Options, calls: seq<Call>, refused: Call, others: seq<Call>, next: Call)
    requires Usable(o) && Monotone(calls + [refused] + others + [next])
    requires next.key == refused.key && forall c | c in others :: c.key != refused.key
    requires !Decide(o, After(o, true, calls), refused).allowed
    ensures
      var wait := Decide(o, After(o, true, calls), refused).retryAfterSeconds;
      var later := Decide(o, After(o, true, calls + [refused] + others), next);
      && wait >= 1
      && (next.now >= refused.now + wait * 1000 ==> later.allowed)
      && (next.now <= refused.now + (wait - 1) * 1000 ==> !later.allowed)
  {
    var whole := calls + [refused] + others + [next];
    var i := |calls|;
    EvictionNeverShows(o, whole, i);
    EvictionNeverShows(o, whole, |whole| - 1);
    assert whole[..i] == calls && whole[i] == refused;
    assert whole[..|whole| - 1] == calls + [refused] + others;
    assert Before(calls + [refused]) == calls;
    OthersLeaveItAlone(o, calls + [refused], others, refused.key);
  }

  // ---------------------------------------------------------------------
  // The rule itself: a window opens at a check, and its first `limit` checks are allowed
  // ---------------------------------------------------------------------

  /** How many of these checks are of this key. */
  function ChecksOf(calls: seq<Call>, key: string): nat {
    if calls == [] then 0 else ChecksOf(Before(calls), key) + if Last(calls).key == key then 1 else 0
  }

  /** No window of its key is open when this check comes. */
  predicate Opens(o: Options, past: seq<Call>, c: Call) {
    !Live(After(o, false, past), c.key, c.now)
  }

  /** While check i's window lasts, it counts the checks of its key since, up to the limit. */
  lemma {:induction false} WindowCounts(o: Options, calls: seq<Call>, i: nat, j: nat)
    requires Usable(o) && i < j <= |calls| && Opens(o, calls[..i], calls[i])
    requires forall k | i <= k < j :: calls[k].now < calls[i].now + o.windowMs
    ensures
      var ws := After(o, false, calls[..j]);
      && calls[i].key in ws
      && ws[calls[i].key] == Window(Min(ChecksOf(calls[i..j], calls[i].key), o.limit), calls[i].now + o.windowMs)
  {
    var key := calls[i].key;
    assert Before(calls[..j]) == calls[..j - 1] && Last(calls[..j]) == calls[j - 1];
    assert Before(calls[i..j]) == calls[i..j - 1] && Last(calls[i..j]) == calls[j - 1];
    if j == i + 1 {
      assert ChecksOf(calls[i..i], key) == 0;
    } else {
      WindowCounts(o, calls, i, j - 1);
    }
  }

  /**
   * With a clock that never goes back: from a check that opens a window until the window ends, a check of
   * the same key is allowed exactly when fewer than `limit` came before it in the window; the first check
   * of the key from then on opens the next one, and so does the first of all.
   */
  lemma FixedWindows(o: Options, calls: seq<Call>, i: nat, j: nat)
    requires Usable(o) && Monotone(calls) && i < j < |calls| && calls[i].key == calls[j].key
    requires Opens(o, calls[..i], calls[i])
    ensures Decide(o, After(o, true, calls[..i]), calls[i]).allowed
    ensures calls[j].now < calls[i].now + o.windowMs ==>
              (Decide(o, After(o, true, calls[..j]), calls[j]).allowed
               <==> ChecksOf(calls[i..j], calls[i].key) < o.limit)
    ensures
      && calls[j].now >= calls[i].now + o.windowMs
      && (forall k | i < k < j :: calls[k].key == calls[i].key ==> calls[k].now < calls[i].now + o.windowMs)
      ==> Opens(o, calls[..j], calls[j])
  {
    EvictionNeverShows(o, calls, i);
    EvictionNeverShows(o, calls, j);
    if calls[j].now < calls[i].now + o.windowMs {
      WindowCounts(o, calls, i, j);
    } else if forall k | i < k < j :: calls[k].key == calls[i].key ==> calls[k].now < calls[i].now + o.windowMs {
      StaysClosing(o, calls, i, j);
    }
  }

  /** As long as no check of the key comes after its end, a window ends when it was to end. */
  lemma {:induction false} StaysClosing(o: Options, calls: seq<Call>, i: nat, j: nat)
    requires Usable(o) && i < j <= |calls| && Opens(o, calls[..i], calls[i])
    requires forall k | i < k < j :: calls[k].key == calls[i].key ==> calls[k].now < calls[i].now + o.windowMs
    ensures
      var ws := After(o, false, calls[..j]);
      calls[i].key in ws && ws[calls[i].key].resetAt == calls[i].now + o.windowMs
  {
    assert Before(calls[..j]) == calls[..j - 1] && Last(calls[..j]) == calls[j - 1];
    if j > i + 1 {
      StaysClosing(o, calls, i, j - 1);
    }
  }

  lemma {:induction false} FirstOpens(o: Options, past: seq<Call>, c: Call)
    requires ChecksOf(past, c.key) == 0
    ensures c.key !in After(o, false, past) && Opens(o, past, c)
  {
    if past != [] {
      FirstOpens(o, Before(past), c);
    }
  }
}

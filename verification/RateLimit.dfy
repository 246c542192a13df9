/** The per-principal rate and concurrency limiter (src/arknights_mcp/middleware/rate_limit.py).

    The middleware keeps one deque of timestamps and one counter per principal, and throws
    information away: arrivals purge old timestamps, `_gc` forgets idle principals, and a `_gc`
    may run long after the decision it belongs to, with other requests in between.  It is compared
    here with a limiter that never forgets: the full served log plus the set of running requests. */
module RateLimit {

  const WINDOW_SECONDS: real := 60.0

  type Principal = string
  type RequestId = nat

  /** Line 86 reads the oldest timestamp of a deque of at least `rpm` entries, so `rpm` is positive. */
  datatype Limits = Limits(rpm: int, maxConcurrent: int) {
    predicate Valid() { rpm >= 1 }
  }

  datatype Verdict =
    | Served
    | RateLimited(retryAfter: int)
    | ConcurrencyLimited(retryAfter: int)

  // ---------------------------------------------------------------- the middleware's state

  /** The two dictionaries of the middleware. A missing key reads as the default value. */
  datatype State = State(window: map<Principal, seq<real>>, inflight: map<Principal, int>) {
    function Window(p: Principal): seq<real> { if p in window then window[p] else [] }
    function Inflight(p: Principal): int { if p in inflight then inflight[p] else 0 }
  }

  function Ceil(x: real): int { -((-x).Floor) }

  function Purge(w: seq<real>, cutoff: real): seq<real> {
    if w != [] && w[0] <= cutoff then Purge(w[1..], cutoff) else w
  }

  function RetryAfter(oldest: real, now: real): int {
    var wait := Ceil(oldest + WINDOW_SECONDS - now);
    if wait > 1 then wait else 1
  }

  /** The critical section: verdict and both dictionaries afterwards. */
  function Reserve(lim: Limits, s: State, p: Principal, now: real): (State, Verdict)
    requires lim.Valid()
  {
    var w := Purge(s.Window(p), now - WINDOW_SECONDS);
    var purged := s.(window := s.window[p := w]);
    if |w| >= lim.rpm then
      (purged, RateLimited(RetryAfter(w[0], now)))
    else
      var touched := purged.(inflight := s.inflight[p := s.Inflight(p)]);
      if s.Inflight(p) >= lim.maxConcurrent then
        (touched, ConcurrencyLimited(1))
      else
        (State(s.window[p := w + [now]], s.inflight[p := s.Inflight(p) + 1]), Served)
  }

  function Gc(s: State, p: Principal): State {
    if s.Window(p) == [] && s.Inflight(p) <= 0 then State(s.window - {p}, s.inflight - {p}) else s
  }

  /** The `finally` clause of a served request. */
  function Release(s: State, p: Principal): State {
    Gc(s.(inflight := s.inflight[p := s.Inflight(p) - 1]), p)
  }

  /** The middleware object: the methods below are its code, the functions above their specification. */
  class RateLimitMiddleware {
    const limits: Limits
    var window: map<Principal, seq<real>>
    var inflight: map<Principal, int>

    ghost function Snapshot(): State
      reads this
    {
      State(window, inflight)
    }

    constructor (rpm: int, maxConcurrent: int)
      ensures limits == Limits(rpm, maxConcurrent)
      ensures Snapshot() == State(map[], map[])
    {
      limits := Limits(rpm, maxConcurrent);
      window, inflight := map[], map[];
    }

    /** Lines 80-108: purge, test both limits, reserve. No `await` inside, so one atomic step. */
    method Arrive(p: Principal, now: real) returns (verdict: Verdict)
      requires limits.Valid()
      modifies this
      ensures (Snapshot(), verdict) == Reserve(limits, old(Snapshot()), p, now)
    {
      if p !in window {
        window := window[p := []];
      }
      var cutoff := now - WINDOW_SECONDS;
      while window[p] != [] && window[p][0] <= cutoff
        invariant p in window && window == old(window)[p := window[p]]
        invariant inflight == old(inflight)
        invariant Purge(window[p], cutoff) == Purge(old(Snapshot()).Window(p), cutoff)
        decreases |window[p]|
      {
        window := window[p := window[p][1..]];
      }
      if |window[p]| >= limits.rpm {
        return RateLimited(RetryAfter(window[p][0], now));
      }
      if p !in inflight {
        inflight := inflight[p := 0];
      }
      if inflight[p] >= limits.maxConcurrent {
        assert inflight == old(inflight)[p := inflight[p]];
        return ConcurrencyLimited(1);
      }
      window := window[p := window[p] + [now]];
      inflight := inflight[p := inflight[p] + 1];
      assert window == old(window)[p := window[p]] && inflight == old(inflight)[p := inflight[p]];
      return Served;
    }

    /** Lines 113-115. The counter of a running request always has an entry (`CounterIsExact`). */
    method Finish(p: Principal)
      modifies this
      ensures Snapshot() == Release(old(Snapshot()), p)
    {
      inflight := inflight[p := (if p in inflight then inflight[p] else 0) - 1];
      Collect(p);
    }

    /** `_gc`, lines 117-121. */
    method Collect(p: Principal)
      modifies this
      ensures Snapshot() == Gc(old(Snapshot()), p)
    {
      if (p !in window || window[p] == []) && (p !in inflight || inflight[p] <= 0) {
        window := window - {p};
        inflight := inflight - {p};
      }
    }
  }

  // ---------------------------------------------------------------- runs

  /** What can happen on the event loop, in any interleaving. `Sweep` is the `_gc` that follows the
      error response of a rejected request; it may come arbitrarily late, or never. */
  datatype Event =
    | Arrival(id: RequestId, who: Principal, now: real)
    | Completion(id: RequestId)
    | Sweep(who: Principal)

  /** The middleware together with the requests now inside the inner application. */
  datatype Live = Live(state: State, running: map<RequestId, Principal>, clock: real)

  predicate Enabled(running: map<RequestId, Principal>, clock: real, e: Event) {
    match e
    case Arrival(id, _, now) => id !in running && clock <= now
    case Completion(id) => id in running
    case Sweep(_) => true
  }

  function Step(lim: Limits, l: Live, e: Event): (Live, seq<Verdict>)
    requires lim.Valid() && Enabled(l.running, l.clock, e)
  {
    match e
    case Arrival(id, p, now) =>
      var (s, v) := Reserve(lim, l.state, p, now);
      (Live(s, if v.Served? then l.running[id := p] else l.running, now), [v])
    case Completion(id) =>
      (Live(Release(l.state, l.running[id]), l.running - {id}, l.clock), [])
    case Sweep(p) =>
      (l.(state := Gc(l.state, p)), [])
  }

  /** The limiter that never forgets: `served[p]` is every timestamp ever served to p. */
  datatype Ideal = Ideal(served: map<Principal, seq<real>>, running: map<RequestId, Principal>, clock: real) {
    function Served(p: Principal): seq<real> { if p in served then served[p] else [] }
  }

  function InWindow(h: seq<real>, t: real): seq<real> {
    if h == [] then []
    else (if t - 60.0 < h[0] <= t then [h[0]] else []) + InWindow(h[1..], t)
  }

  function RunningOf(running: map<RequestId, Principal>, p: Principal): set<RequestId> {
    set id | id in running && running[id] == p
  }

  function Judge(lim: Limits, m: Ideal, p: Principal, now: real): Verdict
    requires lim.Valid()
  {
    var recent := InWindow(m.Served(p), now);
    if |recent| >= lim.rpm then RateLimited(RetryAfter(recent[0], now))
    else if |RunningOf(m.running, p)| >= lim.maxConcurrent then ConcurrencyLimited(1)
    else Served
  }

  function IdealStep(lim: Limits, m: Ideal, e: Event): (Ideal, seq<Verdict>)
    requires lim.Valid() && Enabled(m.running, m.clock, e)
  {
    match e
    case Arrival(id, p, now) =>
      var v := Judge(lim, m, p, now);
      (if v.Served? then Ideal(m.served[p := m.Served(p) + [now]], m.running[id := p], now)
       else m.(clock := now), [v])
    case Completion(id) => (m.(running := m.running - {id}), [])
    case Sweep(_) => (m, [])
  }

  /** A run from clock reading `start`, replayed on both machines at once;
      `Impossible` when some event could not happen where it stands. */
  datatype Trace = Impossible | Reached(live: Live, ideal: Ideal, verdicts: seq<Verdict>, idealVerdicts: seq<Verdict>)

  function Replay(lim: Limits, start: real, events: seq<Event>): Trace
    requires lim.Valid()
  {
    if events == [] then
      Reached(Live(State(map[], map[]), map[], start), Ideal(map[], map[], start), [], [])
    else
      match Replay(lim, start, events[..|events| - 1])
      case Impossible => Impossible
      case Reached(l, m, vs, ws) =>
        var e := events[|events| - 1];
        if Enabled(l.running, l.clock, e) && Enabled(m.running, m.clock, e) then
          var (l', v) := Step(lim, l, e);
          var (m', w) := IdealStep(lim, m, e);
          Reached(l', m', vs + v, ws + w)
        else Impossible
  }

  // ---------------------------------------------------------------- main results

  /** Some run brings the two machines to l and m. */
  ghost predicate Reachable(lim: Limits, l: Live, m: Ideal)
    requires lim.Valid()
  {
    exists start, events :: var r := Replay(lim, start, events); r.Reached? && r.live == l && r.ideal == m
  }

  /** Refinement: the forgetful middleware and the limiter that remembers everything give every
      request of every run the same verdict, and no run of one is impossible for the other. */
  lemma VerdictsOfEveryRun(lim: Limits, start: real, events: seq<Event>, e: Event)
    requires lim.Valid() && Replay(lim, start, events).Reached?
    ensures var Reached(l, m, vs, ws) := Replay(lim, start, events);
            vs == ws && (Enabled(l.running, l.clock, e) <==> Enabled(m.running, m.clock, e))
  {
    RunsAgree(lim, start, events);
  }

  /** The deque of p, purged at an arrival, is the served history of p in (now-60, now], in order. */
  lemma DequeIsTheWindow(lim: Limits, l: Live, m: Ideal, p: Principal, now: real)
    requires lim.Valid() && Reachable(lim, l, m) && l.clock <= now
    ensures Reserve(lim, l.state, p, now).0.Window(p)
            == InWindow(m.Served(p), now) + (if Judge(lim, m, p, now).Served? then [now] else [])
  {
    ReachableIsGood(lim, l, m);
    SameVerdict(lim, l, m, p, now);
  }

  /** The in-flight counter is the number of requests between acceptance and their `finally`; it is
      never negative and never above the limit. */
  lemma CounterIsExact(lim: Limits, l: Live, m: Ideal, p: Principal)
    requires lim.Valid() && Reachable(lim, l, m)
    ensures l.state.Inflight(p) == |RunningOf(l.running, p)|
    ensures 0 <= l.state.Inflight(p) <= (if lim.maxConcurrent > 0 then lim.maxConcurrent else 0)
  {
    ReachableIsGood(lim, l, m);
    assert Knows(l, m, p) && GoodLog(lim, m, p);
  }

  /** Safety at every instant: whatever the interleaving, no interval (t-60, t] ever holds more than
      `rpm` served requests of one principal, for any real t and not only at arrivals. */
  lemma AtMostRpmInAnyWindow(lim: Limits, l: Live, m: Ideal, p: Principal, t: real)
    requires lim.Valid() && Reachable(lim, l, m)
    ensures |InWindow(m.Served(p), t)| <= lim.rpm
  {
    ReachableIsGood(lim, l, m);
    assert GoodLog(lim, m, p);
    SpacedLogsAreThin(m.Served(p), lim.rpm, t);
  }

  /** `Retry-After` is exact: after a rejection at l, and as long as p is served nothing in between,
      a retry `wait` whole seconds later (wait >= 1) is rate-limited again if and only if `wait` is
      below the hint.  l' is the state at the retry: any reachable state in which the served log
      of p is still the one at the rejection. */
  lemma RetryAfterIsExact(lim: Limits, l: Live, m: Ideal, p: Principal, now: real, l': Live, m': Ideal, wait: int)
    requires lim.Valid() && Reachable(lim, l, m) && l.clock <= now && Reserve(lim, l.state, p, now).1.RateLimited?
    requires Reachable(lim, l', m') && l'.clock <= now + wait as real && wait >= 1
    requires m'.Served(p) == m.Served(p)
    ensures Reserve(lim, l'.state, p, now + wait as real).1.RateLimited?
            <==> wait < Reserve(lim, l.state, p, now).1.retryAfter
  {
    ReachableIsGood(lim, l, m);
    ReachableIsGood(lim, l', m');
    SameVerdict(lim, l, m, p, now);
    SameVerdict(lim, l', m', p, now + wait as real);
    assert GoodLog(lim, m, p);
    RetryOnTheLog(lim, m, m', p, now, wait);
  }

  // ---------------------------------------------------------------- purging

  ghost predicate Ascending(h: seq<real>) {
    forall i, j :: 0 <= i < j < |h| ==> h[i] <= h[j]
  }

  lemma PurgeIsSuffix(w: seq<real>, c: real)
    ensures |Purge(w, c)| <= |w| && Purge(w, c) == w[|w| - |Purge(w, c)|..]
    ensures forall i :: 0 <= i < |w| - |Purge(w, c)| ==> w[i] <= c
    ensures Purge(w, c) != [] ==> Purge(w, c)[0] > c
  {
  }

  lemma PurgeTwice(w: seq<real>, c: real, d: real)
    requires c <= d
    ensures Purge(Purge(w, c), d) == Purge(w, d)
  {
  }

  lemma {:induction false} PurgeAppend(w: seq<real>, c: real, x: real)
    requires c < x
    ensures Purge(w + [x], c) == Purge(w, c) + [x]
  {
    if w != [] && w[0] <= c {
      assert (w + [x])[1..] == w[1..] + [x];
      PurgeAppend(w[1..], c, x);
    }
  }

  /** After a purge the deque is exactly the served history in (now-60, now], in order. */
  lemma {:induction false} PurgeIsWindow(h: seq<real>, now: real)
    requires Ascending(h) && forall i :: 0 <= i < |h| ==> h[i] <= now
    ensures Purge(h, now - WINDOW_SECONDS) == InWindow(h, now)
  {
    if h != [] {
      PurgeIsWindow(h[1..], now);
      if h[0] > now - WINDOW_SECONDS {
        assert InWindow(h[1..], now) == Purge(h[1..], now - WINDOW_SECONDS) == h[1..];
      }
    }
  }

  // ---------------------------------------------------------------- the refinement

  /** Between any two served requests that are `rpm` apart in the log lie at least 60 seconds. */
  ghost predicate Spaced(h: seq<real>, rpm: int)
    requires rpm >= 1
  {
    forall i, j :: 0 <= i && i + rpm <= j < |h| ==> h[j] - h[i] >= WINDOW_SECONDS
  }

  /** What the forgetful state still knows about p. */
  ghost predicate Knows(l: Live, m: Ideal, p: Principal) {
    && Purge(l.state.Window(p), l.clock - WINDOW_SECONDS) == Purge(m.Served(p), l.clock - WINDOW_SECONDS)
    && l.state.Inflight(p) == |RunningOf(l.running, p)|
  }

  ghost predicate GoodLog(lim: Limits, m: Ideal, p: Principal)
    requires lim.Valid()
  {
    && Ascending(m.Served(p))
    && (forall i :: 0 <= i < |m.Served(p)| ==> m.Served(p)[i] <= m.clock)
    && Spaced(m.Served(p), lim.rpm)
    && |RunningOf(m.running, p)| <= (if lim.maxConcurrent > 0 then lim.maxConcurrent else 0)
  }

  ghost predicate Inv(lim: Limits, l: Live, m: Ideal)
    requires lim.Valid()
  {
    (l.running, l.clock) == (m.running, m.clock) && forall p :: Knows(l, m, p) && GoodLog(lim, m, p)
  }

  lemma SameVerdict(lim: Limits, l: Live, m: Ideal, p: Principal, now: real)
    requires lim.Valid() && Inv(lim, l, m) && l.clock <= now
    ensures Purge(l.state.Window(p), now - WINDOW_SECONDS) == InWindow(m.Served(p), now)
    ensures Reserve(lim, l.state, p, now).1 == Judge(lim, m, p, now)
  {
    assert Knows(l, m, p) && GoodLog(lim, m, p);
    PurgeTwice(l.state.Window(p), l.clock - WINDOW_SECONDS, now - WINDOW_SECONDS);
    PurgeTwice(m.Served(p), l.clock - WINDOW_SECONDS, now - WINDOW_SECONDS);
    PurgeIsWindow(m.Served(p), now);
  }

  lemma LogStaysGood(lim: Limits, m: Ideal, id: RequestId, p: Principal, now: real)
    requires lim.Valid() && GoodLog(lim, m, p) && m.clock <= now && id !in m.running
    ensures GoodLog(lim, IdealStep(lim, m, Arrival(id, p, now)).0, p)
  {
    if Judge(lim, m, p, now).Served? {
      var m' := IdealStep(lim, m, Arrival(id, p, now)).0;
      assert m'.Served(p) == m.Served(p) + [now];
      SpacedNext(m.Served(p), lim.rpm, now);
      OthersUnchanged(m.running, id, p, p);
    }
  }

  /** A request served while fewer than `rpm` are in the window keeps the log spaced. */
  lemma {:induction false} SpacedNext(h: seq<real>, rpm: int, now: real)
    requires rpm >= 1 && Ascending(h) && Spaced(h, rpm) && forall i :: 0 <= i < |h| ==> h[i] <= now
    requires |InWindow(h, now)| < rpm
    ensures Spaced(h + [now], rpm)
  {
    var all := h + [now];
    PurgeIsWindow(h, now);
    PurgeIsSuffix(h, now - WINDOW_SECONDS);
    forall i, j | 0 <= i && i + rpm <= j < |all| ensures all[j] - all[i] >= WINDOW_SECONDS {
      if j == |h| {
        assert i < |h| - |InWindow(h, now)|;
      }
    }
  }

  lemma OthersUnchanged(running: map<RequestId, Principal>, id: RequestId, p: Principal, q: Principal)
    requires id !in running
    ensures RunningOf(running[id := p], q) == if q == p then RunningOf(running, q) + {id} else RunningOf(running, q)
  {
  }

  lemma KnowsLater(l: Live, m: Ideal, q: Principal, now: real)
    requires Knows(l, m, q) && l.clock <= now
    ensures Purge(l.state.Window(q), now - WINDOW_SECONDS) == Purge(m.Served(q), now - WINDOW_SECONDS)
  {
    PurgeTwice(l.state.Window(q), l.clock - WINDOW_SECONDS, now - WINDOW_SECONDS);
    PurgeTwice(m.Served(q), l.clock - WINDOW_SECONDS, now - WINDOW_SECONDS);
  }

  /** The arriving principal itself: its deque was purged, and grew if it was served. */
  lemma {:induction false} ArrivalOwn(lim: Limits, l: Live, m: Ideal, id: RequestId, p: Principal, now: real)
    requires lim.Valid() && Inv(lim, l, m) && id !in l.running && l.clock <= now
    ensures Knows(Step(lim, l, Arrival(id, p, now)).0, IdealStep(lim, m, Arrival(id, p, now)).0, p)
  {
    assert Knows(l, m, p) && GoodLog(lim, m, p);
    var c := now - WINDOW_SECONDS;
    SameVerdict(lim, l, m, p, now);
    KnowsLater(l, m, p, now);
    PurgeTwice(l.state.Window(p), c, c);
    OthersUnchanged(l.running, id, p, p);
    if Judge(lim, m, p, now).Served? {
      PurgeAppend(Purge(l.state.Window(p), c), c, now);
      PurgeAppend(m.Served(p), c, now);
    }
  }

  lemma {:induction false} ArrivalOther(lim: Limits, l: Live, m: Ideal, id: RequestId, p: Principal, now: real)
    requires lim.Valid() && Inv(lim, l, m) && id !in l.running && l.clock <= now
    ensures var l', m' := Step(lim, l, Arrival(id, p, now)).0, IdealStep(lim, m, Arrival(id, p, now)).0;
            forall q :: q != p ==> Knows(l', m', q) && GoodLog(lim, m', q)
  {
    var l', m' := Step(lim, l, Arrival(id, p, now)).0, IdealStep(lim, m, Arrival(id, p, now)).0;
    SameVerdict(lim, l, m, p, now);
    forall q | q != p ensures Knows(l', m', q) && GoodLog(lim, m', q) {
      assert Knows(l, m, q) && GoodLog(lim, m, q);
      KnowsLater(l, m, q, now);
      OthersUnchanged(l.running, id, p, q);
    }
  }

  lemma ArrivalKeepsInv(lim: Limits, l: Live, m: Ideal, e: Event)
    requires lim.Valid() && Inv(lim, l, m) && e.Arrival? && Enabled(l.running, l.clock, e)
    ensures Inv(lim, Step(lim, l, e).0, IdealStep(lim, m, e).0)
    ensures Step(lim, l, e).1 == IdealStep(lim, m, e).1
  {
    var Arrival(id, p, now) := e;
    var l', m' := Step(lim, l, e).0, IdealStep(lim, m, e).0;
    SameVerdict(lim, l, m, p, now);
    ArrivalOwn(lim, l, m, id, p, now);
    LogStaysGood(lim, m, id, p, now);
    ArrivalOther(lim, l, m, id, p, now);
  }

  lemma GcForgetsNothing(s: State, p: Principal, q: Principal)
    requires s.Inflight(p) >= 0
    ensures Gc(s, p).Window(q) == s.Window(q) && Gc(s, p).Inflight(q) == s.Inflight(q)
  {
  }

  lemma CompletionKeepsInv(lim: Limits, l: Live, m: Ideal, e: Event)
    requires lim.Valid() && Inv(lim, l, m) && e.Completion? && Enabled(l.running, l.clock, e)
    ensures Inv(lim, Step(lim, l, e).0, IdealStep(lim, m, e).0)
  {
    var id := e.id;
    var p := l.running[id];
    var (l', _) := Step(lim, l, e);
    var (m', _) := IdealStep(lim, m, e);
    assert Knows(l, m, p);
    assert id in RunningOf(l.running, p);
    var s := l.state.(inflight := l.state.inflight[p := l.state.Inflight(p) - 1]);
    forall q ensures Knows(l', m', q) && GoodLog(lim, m', q) {
      assert Knows(l, m, q) && GoodLog(lim, m, q);
      assert RunningOf(l'.running, q) == RunningOf(l.running, q) - {id};
      GcForgetsNothing(s, p, q);
    }
  }

  lemma SweepKeepsInv(lim: Limits, l: Live, m: Ideal, e: Event)
    requires lim.Valid() && Inv(lim, l, m) && e.Sweep?
    ensures Inv(lim, Step(lim, l, e).0, IdealStep(lim, m, e).0)
  {
    var (l', _) := Step(lim, l, e);
    assert Knows(l, m, e.who);
    forall q ensures Knows(l', m, q) {
      assert Knows(l, m, q);
      GcForgetsNothing(l.state, e.who, q);
    }
  }

  /** Whenever an event is possible for the middleware it is possible for the reference, both give
      the same verdict, and the invariant holds after every run. */
  lemma {:induction false} RunsAgree(lim: Limits, start: real, events: seq<Event>)
    requires lim.Valid()
    ensures Replay(lim, start, events).Reached? ==>
              var Reached(l, m, vs, ws) := Replay(lim, start, events);
              Inv(lim, l, m) && vs == ws
  {
    if events != [] {
      var past := events[..|events| - 1];
      RunsAgree(lim, start, past);
      if Replay(lim, start, events).Reached? {
        var Reached(l, m, _, _) := Replay(lim, start, past);
        var e := events[|events| - 1];
        match e
        case Arrival(_, _, _) => ArrivalKeepsInv(lim, l, m, e);
        case Completion(_) => CompletionKeepsInv(lim, l, m, e);
        case Sweep(_) => SweepKeepsInv(lim, l, m, e);
      }
    } else {
      assert forall p :: RunningOf(map[], p) == {};
    }
  }

  lemma ReachableIsGood(lim: Limits, l: Live, m: Ideal)
    requires lim.Valid() && Reachable(lim, l, m)
    ensures Inv(lim, l, m)
  {
    var start, events :| var r := Replay(lim, start, events); r.Reached? && r.live == l && r.ideal == m;
    RunsAgree(lim, start, events);
  }

  // ---------------------------------------------------------------- windows of a log

  lemma WindowOfPrefix(h: seq<real>, k: nat, t: real)
    requires k <= |h| && forall i :: k <= i < |h| ==> h[i] > t
    ensures |InWindow(h, t)| <= k
    decreases |h|
  {
    if h != [] {
      WindowOfPrefix(h[1..], if k == 0 then 0 else k - 1, t);
    }
  }

  lemma {:induction false} SpacedLogsAreThin(h: seq<real>, rpm: int, t: real)
    requires rpm >= 1 && Ascending(h) && Spaced(h, rpm)
    ensures |InWindow(h, t)| <= rpm
  {
    if h != [] {
      if t - 60.0 < h[0] <= t {
        WindowOfPrefix(h, if rpm < |h| then rpm else |h|, t);
      } else {
        SpacedLogsAreThin(h[1..], rpm, t);
      }
    }
  }

  lemma {:induction false} WindowShrinks(h: seq<real>, now: real, later: real)
    requires now <= later && Ascending(h) && forall i :: 0 <= i < |h| ==> h[i] <= now
    ensures |InWindow(h, later)| <= |InWindow(h, now)|
    ensures |InWindow(h, later)| == |InWindow(h, now)| > 0
            <==> InWindow(h, now) != [] && InWindow(h, now)[0] > later - WINDOW_SECONDS
  {
    PurgeIsWindow(h, now);
    PurgeIsWindow(h, later);
    PurgeTwice(h, now - WINDOW_SECONDS, later - WINDOW_SECONDS);
    PurgeIsSuffix(InWindow(h, now), later - WINDOW_SECONDS);
  }

  lemma RetryOnTheLog(lim: Limits, m: Ideal, m': Ideal, p: Principal, now: real, wait: int)
    requires lim.Valid() && GoodLog(lim, m, p) && m.clock <= now && wait >= 1
    requires Judge(lim, m, p, now).RateLimited? && m'.Served(p) == m.Served(p)
    ensures Judge(lim, m', p, now + wait as real).RateLimited? <==> wait < Judge(lim, m, p, now).retryAfter
  {
    var h := m.Served(p);
    SpacedLogsAreThin(h, lim.rpm, now);
    WindowShrinks(h, now, now + wait as real);
    var x := InWindow(h, now)[0] + WINDOW_SECONDS - now;
    assert Ceil(x) <= wait <==> x <= wait as real;
  }
}

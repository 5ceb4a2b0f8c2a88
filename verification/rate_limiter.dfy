/** The sliding-window rate limiter: pruned, reaped windows that agree with the whole admission history. */
module RateLimiter {
  import opened Sums

  // The clock is monotonic, in nanoseconds.
  const WINDOW := 60000000000
  const CLEANUP_INTERVAL := 60000000000

  type Hits = map<string, seq<int>>

  datatype Limiter = Limiter(hits: Hits, lastCleanup: int)

  // Drop leading entries that have left the window.
  function Prune(window: seq<int>, now: int): (r: seq<int>)
    ensures r != [] ==> now - r[0] <= WINDOW
  {
    if window != [] && now - window[0] > WINDOW then Prune(window[1..], now) else window
  }

  function Entry(hits: Hits, client: string): seq<int> {
    if client in hits then hits[client] else []
  }

  predicate Idle(window: seq<int>, now: int) {
    window == [] || now - window[|window| - 1] > WINDOW
  }

  function Reap(l: Limiter, now: int): Limiter {
    if now - l.lastCleanup < CLEANUP_INTERVAL then l
    else Limiter(map c | c in l.hits && !Idle(l.hits[c], now) :: l.hits[c], now)
  }

  // One request under a non-zero limit; `reaping` says whether idle entries are dropped at all.
  function Request(l: Limiter, client: string, now: int, limit: int, reaping: bool): (Limiter, bool) {
    var swept := if reaping then Reap(l, now) else l;
    var window := Prune(Entry(swept.hits, client), now);
    if |window| >= limit then (swept.(hits := swept.hits[client := window]), false)
    else (swept.(hits := swept.hits[client := window + [now]]), true)
  }

  class RateLimitMiddleware {
    var hits: Hits
    var lastCleanup: int

    function View(): Limiter
      reads this
    {
      Limiter(hits, lastCleanup)
    }

    constructor ()
      ensures View() == Limiter(map[], 0)
    {
      hits, lastCleanup := map[], 0;
    }

    method ReapIdle(now: int)
      modifies this
      ensures View() == Reap(old(View()), now)
      // nothing happens within an interval of the last cleanup; then exactly the idle entries go
      ensures now - old(lastCleanup) < 60000000000 ==> hits == old(hits) && lastCleanup == old(lastCleanup)
      ensures now - old(lastCleanup) >= 60000000000 ==> lastCleanup == now && forall c ::
        && (c in hits <==> c in old(hits) && var w := old(hits)[c]; w != [] && now - w[|w| - 1] <= 60000000000)
        && (c in hits ==> hits[c] == old(hits)[c])
    {
      if now - lastCleanup < CLEANUP_INTERVAL {
        return;
      }
      var stale := set c | c in hits && Idle(hits[c], now);
      hits, lastCleanup := hits - stale, now;
    }

    // A zero limit turns the limiter off.
    method Dispatch(client: string, now: int, limit: int) returns (admitted: bool)
      modifies this
      ensures limit == 0 ==> admitted && View() == old(View())
      ensures limit != 0 ==> (View(), admitted) == Request(old(View()), client, now, limit, true)
    {
      if limit == 0 {
        return true;
      }
      ReapIdle(now);
      var window := if client in hits then hits[client] else [];
      ghost var pruned := Prune(window, now);
      while window != [] && now - window[0] > WINDOW
        invariant Prune(window, now) == pruned
        decreases |window|
      {
        window := window[1..];
      }
      assert window == pruned;
      if |window| >= limit {
        hits := hits[client := window];
        return false;
      }
      hits := hits[client := window + [now]];
      return true;
    }
  }

  // ----- The reference: an unbounded history of admissions -----

  datatype Hit = Hit(client: string, at: int)

  // 1 for an admission of the client at most 60 s before `now`.
  function Recent(client: string, now: int): Hit -> int {
    (h: Hit) => if h.client == client && now - h.at <= 60000000000 then 1 else 0
  }

  function AdmitsBy(history: seq<Hit>, r: Hit, limit: int): bool {
    Sum(Recent(r.client, r.at), history) < limit
  }

  function HistoryDecisions(history: seq<Hit>, requests: seq<Hit>, limit: int): seq<bool>
    decreases requests
  {
    if requests == [] then []
    else
      var r := requests[0];
      var ok := AdmitsBy(history, r, limit);
      [ok] + HistoryDecisions(if ok then history + [r] else history, requests[1..], limit)
  }

  function Decisions(l: Limiter, requests: seq<Hit>, limit: int, reaping: bool): seq<bool>
    decreases requests
  {
    if requests == [] then []
    else
      var (l', ok) := Request(l, requests[0].client, requests[0].at, limit, reaping);
      [ok] + Decisions(l', requests[1..], limit, reaping)
  }

  predicate ClockFrom(requests: seq<Hit>, start: int) {
    requests == [] || (start <= requests[0].at && ClockFrom(requests[1..], requests[0].at))
  }

  // ----- Windows and the history -----

  // The client's admission times.
  function TimesOf(history: seq<Hit>, client: string): seq<int> {
    if history == [] then []
    else (if history[0].client == client then [history[0].at] else []) + TimesOf(history[1..], client)
  }

  predicate Ordered(times: seq<int>, clock: int) {
    && (forall i, j :: 0 <= i < j < |times| ==> times[i] <= times[j])
    && (forall i :: 0 <= i < |times| ==> times[i] <= clock)
  }

  // From now on the window and the client's whole history cannot be told apart.
  ghost predicate Agrees(window: seq<int>, times: seq<int>, clock: int) {
    forall now :: now >= clock ==> Prune(window, now) == Prune(times, now)
  }

  ghost predicate Matches(window: seq<int>, times: seq<int>, clock: int) {
    Ordered(window, clock) && Ordered(times, clock) && Agrees(window, times, clock)
  }

  ghost predicate Refines(l: Limiter, history: seq<Hit>, clock: int) {
    forall c :: Matches(Entry(l.hits, c), TimesOf(history, c), clock)
  }

  lemma {:induction false} PruneTwice(window: seq<int>, earlier: int, later: int)
    requires earlier <= later
    ensures Prune(Prune(window, earlier), later) == Prune(window, later)
  {
    if window != [] && earlier - window[0] > WINDOW {
      PruneTwice(window[1..], earlier, later);
    }
  }

  lemma {:induction false} PruneOrdered(window: seq<int>, clock: int, now: int)
    requires Ordered(window, clock)
    ensures Ordered(Prune(window, now), clock)
  {
    if window != [] && now - window[0] > WINDOW {
      PruneOrdered(window[1..], clock, now);
    }
  }

  lemma {:induction false} PruneSnoc(window: seq<int>, t: int, now: int)
    ensures Prune(window + [t], now) == if Prune(window, now) == [] then Prune([t], now) else Prune(window, now) + [t]
  {
    if window == [] {
      assert window + [t] == [t];
    } else {
      assert (window + [t])[1..] == window[1..] + [t] && (window + [t])[0] == window[0];
      if now - window[0] > WINDOW {
        PruneSnoc(window[1..], t, now);
      }
    }
  }

  lemma {:induction false} IdlePrunesToNothing(window: seq<int>, clock: int, now: int)
    requires Ordered(window, clock) && Idle(window, now)
    ensures Prune(window, now) == []
  {
    if window != [] {
      assert window[0] <= window[|window| - 1];
      IdlePrunesToNothing(window[1..], clock, now);
    }
  }

  lemma {:induction false} TimesSnoc(history: seq<Hit>, r: Hit, client: string)
    ensures TimesOf(history + [r], client) == TimesOf(history, client) + if r.client == client then [r.at] else []
  {
    if history == [] {
      assert history + [r] == [r];
    } else {
      var first, rest := if history[0].client == client then [history[0].at] else [], history[1..];
      TimesSnoc(rest, r, client);
      assert history + [r] == [history[0]] + (rest + [r]);
      assert (history + [r])[1..] == rest + [r];
      assert first + (TimesOf(rest, client) + [r.at]) == first + TimesOf(rest, client) + [r.at];
    }
  }

  // On ordered times, pruning counts the recent admissions.
  lemma {:induction false} PruneCounts(history: seq<Hit>, client: string, clock: int, now: int)
    requires Ordered(TimesOf(history, client), clock)
    ensures |Prune(TimesOf(history, client), now)| == Sum(Recent(client, now), history)
  {
    if history != [] {
      var times, rest := TimesOf(history, client), TimesOf(history[1..], client);
      if history[0].client == client {
        assert times[1..] == rest;
        assert Ordered(rest, clock) by {
          assert forall i :: 0 <= i < |rest| ==> rest[i] == times[i + 1];
        }
        PruneCounts(history[1..], client, clock, now);
        if now - times[0] <= WINDOW {
          NothingOld(rest, times[0], now);
        }
      } else {
        assert times == rest;
        PruneCounts(history[1..], client, clock, now);
      }
    }
  }

  lemma NothingOld(times: seq<int>, first: int, now: int)
    requires now - first <= WINDOW
    requires times != [] ==> first <= times[0]
    ensures Prune(times, now) == times
  {
  }

  lemma LaterMatches(window: seq<int>, times: seq<int>, clock: int, now: int)
    requires Matches(window, times, clock) && clock <= now
    ensures Matches(window, times, now)
  {
  }

  lemma IdleMatches(window: seq<int>, times: seq<int>, clock: int, now: int)
    requires Matches(window, times, clock) && clock <= now && Idle(window, now)
    ensures Matches([], times, now)
  {
    IdlePrunesToNothing(window, clock, now);
    forall t | t >= now ensures Prune([], t) == Prune(times, t) {
      PruneTwice(window, now, t);
    }
  }

  lemma ReapRefines(l: Limiter, history: seq<Hit>, clock: int, now: int, reaping: bool)
    requires Refines(l, history, clock) && clock <= now
    ensures Refines(if reaping then Reap(l, now) else l, history, now)
  {
    forall c ensures Matches(Entry((if reaping then Reap(l, now) else l).hits, c), TimesOf(history, c), now) {
      var before, times := Entry(l.hits, c), TimesOf(history, c);
      assert Matches(before, times, clock);
      LaterMatches(before, times, clock, now);
      if Idle(before, now) {
        IdleMatches(before, times, clock, now);
      }
    }
  }

  // Storing the pruned window, with or without the new hit.
  lemma StoreMatches(window: seq<int>, times: seq<int>, now: int)
    requires Matches(window, times, now)
    ensures Matches(Prune(window, now), times, now)
    ensures Matches(Prune(window, now) + [now], times + [now], now)
  {
    var w := Prune(window, now);
    PruneOrdered(window, now, now);
    forall t | t >= now ensures Prune(w, t) == Prune(times, t) && Prune(w + [now], t) == Prune(times + [now], t) {
      PruneTwice(window, now, t);
      PruneSnoc(w, now, t);
      PruneSnoc(times, now, t);
    }
  }

  // A request changes its own client's entry only.
  lemma EntryAfter(l: Limiter, r: Hit, limit: int, c: string)
    ensures var (l', ok) := Request(l, r.client, r.at, limit, false);
      Entry(l'.hits, c) ==
        if c != r.client then Entry(l.hits, c)
        else if ok then Prune(Entry(l.hits, c), r.at) + [r.at]
        else Prune(Entry(l.hits, c), r.at)
  {
  }

  lemma EntryMatches(l: Limiter, history: seq<Hit>, r: Hit, limit: int, l': Limiter, ok: bool, c: string)
    requires Refines(l, history, r.at) && (l', ok) == Request(l, r.client, r.at, limit, false)
    ensures Matches(Entry(l'.hits, c), TimesOf(if ok then history + [r] else history, c), r.at)
  {
    var window, times := Entry(l.hits, c), TimesOf(history, c);
    assert Matches(window, times, r.at);
    EntryAfter(l, r, limit, c);
    TimesSnoc(history, r, c);
    if c == r.client {
      StoreMatches(window, times, r.at);
    } else {
      assert times + [] == times;
    }
  }

  lemma RequestRefines(l: Limiter, history: seq<Hit>, clock: int, r: Hit, limit: int, reaping: bool)
    requires Refines(l, history, clock) && clock <= r.at
    ensures var (l', ok) := Request(l, r.client, r.at, limit, reaping);
      && ok == AdmitsBy(history, r, limit)
      && Refines(l', if ok then history + [r] else history, r.at)
  {
    ReapRefines(l, history, clock, r.at, reaping);
    var swept := if reaping then Reap(l, r.at) else l;
    var (l', ok) := Request(l, r.client, r.at, limit, reaping);
    var window, times := Entry(swept.hits, r.client), TimesOf(history, r.client);
    assert Matches(window, times, r.at);
    StoreMatches(window, times, r.at);
    PruneCounts(history, r.client, r.at, r.at);
    assert (l', ok) == Request(swept, r.client, r.at, limit, false);
    forall c ensures Matches(Entry(l'.hits, c), TimesOf(if ok then history + [r] else history, c), r.at) {
      EntryMatches(swept, history, r, limit, l', ok, c);
    }
  }

  lemma {:induction false} DecisionsRefine(l: Limiter, history: seq<Hit>, clock: int, requests: seq<Hit>, limit: int, reaping: bool)
    requires Refines(l, history, clock) && ClockFrom(requests, clock)
    ensures Decisions(l, requests, limit, reaping) == HistoryDecisions(history, requests, limit)
    decreases requests
  {
    if requests != [] {
      var r := requests[0];
      RequestRefines(l, history, clock, r, limit, reaping);
      var (l', ok) := Request(l, r.client, r.at, limit, reaping);
      DecisionsRefine(l', if ok then history + [r] else history, r.at, requests[1..], limit, reaping);
    }
  }

  /** The limiter decides as the unbounded history does: a request is admitted iff fewer than `limit` earlier admissions
      of its client are at most 60 s old. Reaping idle entries never changes a decision. */
  lemma LimiterMatchesHistory(requests: seq<Hit>, start: int, cleanup: int, limit: int)
    requires ClockFrom(requests, start)
    ensures Decisions(Limiter(map[], cleanup), requests, limit, true) == HistoryDecisions([], requests, limit)
    ensures Decisions(Limiter(map[], cleanup), requests, limit, true) == Decisions(Limiter(map[], cleanup), requests, limit, false)
  {
    var l := Limiter(map[], cleanup);
    assert Refines(l, [], start);
    DecisionsRefine(l, [], start, requests, limit, true);
    DecisionsRefine(l, [], start, requests, limit, false);
  }

  // ----- What the limit guarantees -----

  // The requests that were admitted.
  function Admitted(requests: seq<Hit>, decisions: seq<bool>): seq<Hit>
    requires |requests| == |decisions|
  {
    if requests == [] then []
    else (if decisions[0] then [requests[0]] else []) + Admitted(requests[1..], decisions[1..])
  }

  function Within(client: string, from: int): Hit -> int {
    (h: Hit) => if h.client == client && from <= h.at <= from + 60000000000 then 1 else 0
  }

  lemma {:induction false} WithinAtMostRecent(history: seq<Hit>, client: string, from: int, now: int)
    requires now <= from + WINDOW
    ensures Sum(Within(client, from), history) <= Sum(Recent(client, now), history)
  {
    if history != [] {
      WithinAtMostRecent(history[1..], client, from, now);
    }
  }

  lemma {:induction false} DecisionCount(history: seq<Hit>, requests: seq<Hit>, limit: int)
    ensures |HistoryDecisions(history, requests, limit)| == |requests|
    decreases requests
  {
    if requests != [] {
      var ok := AdmitsBy(history, requests[0], limit);
      DecisionCount(if ok then history + [requests[0]] else history, requests[1..], limit);
    }
  }

  lemma AdmissionFits(history: seq<Hit>, r: Hit, limit: int, client: string, from: int)
    requires Sum(Within(client, from), history) <= limit && AdmitsBy(history, r, limit)
    ensures Sum(Within(client, from), history + [r]) <= limit
  {
    SumConcat(Within(client, from), history, [r]);
    SumOne(Within(client, from), r);
    if r.client == client && r.at <= from + WINDOW {
      WithinAtMostRecent(history, client, from, r.at);
    }
  }

  // The admissions after the first request are those of the rest.
  lemma FirstDecision(history: seq<Hit>, requests: seq<Hit>, limit: int)
    requires requests != []
    ensures var ok := AdmitsBy(history, requests[0], limit);
            var history' := if ok then history + [requests[0]] else history;
            && |HistoryDecisions(history, requests, limit)| == |requests|
            && |HistoryDecisions(history', requests[1..], limit)| == |requests[1..]|
            && history + Admitted(requests, HistoryDecisions(history, requests, limit))
            == history' + Admitted(requests[1..], HistoryDecisions(history', requests[1..], limit))
  {
    var ok := AdmitsBy(history, requests[0], limit);
    var history' := if ok then history + [requests[0]] else history;
    DecisionCount(history, requests, limit);
    DecisionCount(history', requests[1..], limit);
    var later := HistoryDecisions(history', requests[1..], limit);
    assert ([ok] + later)[1..] == later;
    var rest := Admitted(requests[1..], later);
    if ok {
      Associate(history, [requests[0]], rest);
    } else {
      assert [] + rest == rest;
    }
  }

  lemma {:induction false} HistoryKeepsLimit(history: seq<Hit>, requests: seq<Hit>, limit: int, client: string, from: int)
    requires 0 < limit && Sum(Within(client, from), history) <= limit
    ensures |HistoryDecisions(history, requests, limit)| == |requests|
    ensures Sum(Within(client, from), history + Admitted(requests, HistoryDecisions(history, requests, limit))) <= limit
    decreases requests
  {
    DecisionCount(history, requests, limit);
    if requests == [] {
      assert history + [] == history;
    } else {
      var r := requests[0];
      var ok := AdmitsBy(history, r, limit);
      var history' := if ok then history + [r] else history;
      if ok {
        AdmissionFits(history, r, limit, client, from);
      }
      HistoryKeepsLimit(history', requests[1..], limit, client, from);
      FirstDecision(history, requests, limit);
    }
  }

  /** Every closed interval of 60 s holds at most `limit` admissions of a client by the limiter. */
  lemma AtMostLimitPerWindow(requests: seq<Hit>, start: int, cleanup: int, limit: int, client: string, from: int)
    requires ClockFrom(requests, start) && 0 < limit
    ensures var decisions := Decisions(Limiter(map[], cleanup), requests, limit, true);
      |decisions| == |requests| && Sum(Within(client, from), Admitted(requests, decisions)) <= limit
  {
    LimiterMatchesHistory(requests, start, cleanup, limit);
    HistoryKeepsLimit([], requests, limit, client, from);
    var admitted := Admitted(requests, HistoryDecisions([], requests, limit));
    assert [] + admitted == admitted;
  }
}

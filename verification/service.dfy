/**
  The coroutines of the submit endpoint, the job handler, the reconciler and the worker, each run
  without interruption against the table and the lists. Module Protocol interleaves their steps.
 */
module Service {
  import opened Wrappers
  import opened RunStore
  import opened JobQueue
  import opened Sums
  import Protocol

  datatype Handle = Accepted(id: string) | Refused

  // submit: the idempotency fast path, the race-safe insert, the hand-off to the queue.
  method Submit(store: Store, queue: RedisQueue, key: Option<string>, goal: string, freshId: string, now: int) returns (h: Handle)
    requires store.Valid() && freshId !in store.rows
    modifies store, queue`main
    ensures store.Valid()
    // a new row and a new job together, or neither
    ensures h == Accepted(freshId) <==> !(key.Some? && KeyTaken(old(store.rows), Protocol.KIND, key.value))
    ensures h == Accepted(freshId) ==>
      && store.rows == old(store.rows)[freshId := Row(Protocol.KIND, Pending, Payload(goal, None), key, None, now, now)]
      && queue.main == [Encoded(Job(Protocol.KIND, freshId, Payload(goal, None), 0))] + old(queue.main)
    ensures h != Accepted(freshId) ==> store.rows == old(store.rows) && queue.main == old(queue.main)
    // otherwise the caller gets the run that has its key, and an empty key gets an error
    ensures h.Accepted? && h.id != freshId ==>
      && key.Some? && h.id in store.rows
      && store.rows[h.id].kind == Protocol.KIND && store.rows[h.id].key == key
    ensures h.Refused? <==> key == Some("") && KeyTaken(old(store.rows), Protocol.KIND, "")
  {
    if key.Some? && key.value != "" {
      var existing := store.GetRunByIdempotencyKey(Protocol.KIND, key.value);
      if existing.Some? {
        return Accepted(existing.value);
      }
    }
    var payload := Payload(goal, None);
    CreateFresh(store.rows, freshId, NewRow(Protocol.KIND, payload, key, now));
    var created := store.CreateRun(freshId, NewRow(Protocol.KIND, payload, key, now));
    match created
    case Raised =>
      return Refused;
    case Stored(id) =>
      if id == freshId {
        queue.Enqueue(Job(Protocol.KIND, freshId, payload, 0));
      }
      return Accepted(id);
  }

  // What run_autonomous does: a result, complete or not, or an exception.
  datatype Outcome = Result(text: string, complete: bool) | Exception(message: string)

  function FinalStatus(o: Outcome): Status {
    if o.Exception? then Failed else if o.complete then Completed else MaxStepsReached
  }

  function FinalPayload(goal: string, o: Outcome): Payload {
    Payload(goal, if o.Result? then Some(o.text) else None)
  }

  function FinalError(o: Outcome): Option<string> {
    if o.Exception? then Some(o.message) else None
  }

  // The table after an uninterrupted execution that starts at `start` and writes its outcome at `end`.
  function Executed(rows: Rows, job: Job, lease: int, start: int, end: int, o: Outcome): Rows {
    if ClaimWins(rows, job.runId, lease, start) then
      Upsert(Claim(rows, job.runId, lease, start), job.runId, Protocol.KIND, FinalStatus(o),
             FinalPayload(job.payload.goal, o), None, FinalError(o), end)
    else
      rows
  }

  // From rows to rows' the job's run has ended with the outcome.
  ghost predicate Ends(rows: Rows, rows': Rows, job: Job, end: int, o: Outcome) {
    && job.runId in rows && job.runId in rows' && rows' == rows[job.runId := rows'[job.runId]]
    && var before, row, goal := rows[job.runId], rows'[job.runId], job.payload.goal;
       && row.kind == before.kind && row.key == before.key && row.created == before.created && row.updated == end
       && match o
          case Result(text, true) => row.status == Completed && row.payload == Payload(goal, Some(text)) && row.error == None
          case Result(text, false) =>
            row.status == MaxStepsReached && row.payload == Payload(goal, Some(text)) && row.error == None
          case Exception(message) =>
            row.status == Failed && row.payload == Payload(goal, None) && row.error == Some(message)
  }

  /** An execution that wins its claim leaves the outcome in its run's row: a complete result is `completed`, an
      incomplete one `max_steps_reached`, both with their text, and an exception `failed` with its message. */
  lemma ExecutedEnds(rows: Rows, job: Job, lease: int, start: int, end: int, o: Outcome)
    ensures ClaimWins(rows, job.runId, lease, start) ==> Ends(rows, Executed(rows, job, lease, start, end, o), job, end, o)
    ensures !ClaimWins(rows, job.runId, lease, start) ==> Executed(rows, job, lease, start, end, o) == rows
  {
  }

  // _execute_run with its heartbeat: the beats stored while the agent runs leave no trace in the final row.
  method ExecuteRun(store: Store, job: Job, lease: int, start: int, beats: seq<int>, end: int, o: Outcome)
    requires store.Valid()
    modifies store
    ensures store.Valid() && store.rows == Executed(old(store.rows), job, lease, start, end, o)
    // a lost claim changes nothing
    ensures !ClaimWins(old(store.rows), job.runId, lease, start) ==> store.rows == old(store.rows)
    // a won claim writes the outcome into its own row and nothing else
    ensures ClaimWins(old(store.rows), job.runId, lease, start) ==>
      Ends(old(store.rows), store.rows, job, end, o)
  {
    ExecutedEnds(store.rows, job, lease, start, end, o);
    var won := store.ClaimRun(job.runId, lease, start);
    if !won {
      return;
    }
    ghost var claimed := store.rows;
    for i := 0 to |beats|
      invariant store.Valid() && store.rows.Keys == claimed.Keys
      invariant forall r :: r in claimed && r != job.runId ==> store.rows[r] == claimed[r]
      invariant store.rows[job.runId].(updated := start) == claimed[job.runId]
    {
      store.TouchRun(job.runId, beats[i]);
    }
    var stored := store.UpsertRun(job.runId, Protocol.KIND, FinalStatus(o), FinalPayload(job.payload.goal, o), None,
                                  FinalError(o), end);
  }

  /** A redelivery of a run that has reached a terminal state changes nothing; an execution that wins its claim
      leaves the run terminal, so of two executions of one run the second changes nothing. */
  lemma SecondExecutionIsIdle(rows: Rows, job: Job, lease: int, start: int, end: int, o: Outcome,
                              start': int, end': int, o': Outcome)
    requires ClaimWins(rows, job.runId, lease, start)
    ensures var once := Executed(rows, job, lease, start, end, o);
      && once[job.runId].status.Terminal()
      && Executed(once, job, lease, start', end', o') == once
  {
  }

  // One turn of consume_forever: pop, dispatch, acknowledge.
  method ConsumeOne(store: Store, queue: RedisQueue, kinds: set<string>, lease: int, start: int, beats: seq<int>, end: int, o: Outcome)
    requires store.Valid()
    modifies store, queue`main, queue`processing
    ensures store.Valid() && queue.processing == old(queue.processing)
    ensures old(queue.main) == [] ==> queue.main == [] && store.rows == old(store.rows)
    ensures old(queue.main) != [] ==>
      var m := old(queue.main)[|old(queue.main)| - 1];
      && old(queue.main) == queue.main + [m]
      && store.rows == if m.Encoded? && m.job.kind in kinds then Executed(old(store.rows), m.job, lease, start, end, o)
                       else old(store.rows)
  {
    var raw := queue.BlMove();
    if raw.None? {
      return;
    }
    if raw.value.Encoded? && raw.value.job.kind in kinds {
      ExecuteRun(store, raw.value.job, lease, start, beats, end, o);
    }
    queue.Acknowledge(raw.value);
  }

  function Reverse(ms: seq<Message>): seq<Message> {
    if ms == [] then [] else Reverse(ms[1..]) + [ms[0]]
  }

  lemma {:induction false} ReverseMember(ms: seq<Message>, m: Message)
    ensures m in Reverse(ms) <==> m in ms
  {
    if ms != [] {
      ReverseMember(ms[1..], m);
    }
  }

  lemma ReverseFirst(m: Message, rest: seq<Message>, main: seq<Message>)
    ensures Reverse([m] + rest) + main == Reverse(rest) + ([m] + main)
  {
    assert ([m] + rest)[1..] == rest;
  }

  lemma {:induction false} ReverseAt(ms: seq<Message>, k: nat)
    requires k < |ms|
    ensures |Reverse(ms)| == |ms| && Reverse(ms)[k] == ms[|ms| - 1 - k]
  {
    if |ms| > 1 {
      ReverseAt(ms[1..], if k < |ms| - 1 then k else 0);
    }
  }

  // Reconcile treats each listed run by itself, in order.
  lemma {:induction false} JobsConcat(rows: Rows, kinds: set<string>, a: seq<string>, b: seq<string>)
    requires (forall k :: 0 <= k < |a| ==> a[k] in rows) && (forall k :: 0 <= k < |b| ==> b[k] in rows)
    ensures Protocol.JobsFor(rows, kinds, a + b) == Protocol.JobsFor(rows, kinds, a) + Protocol.JobsFor(rows, kinds, b)
  {
    if a == [] {
      assert a + b == b;
    } else {
      JobsConcat(rows, kinds, a[1..], b);
      assert (a + b)[0] == a[0] && (a + b)[1..] == a[1..] + b;
      var first := if rows[a[0]].kind in kinds then [Encoded(Job(rows[a[0]].kind, a[0], rows[a[0]].payload, 0))] else [];
      Associate(first, Protocol.JobsFor(rows, kinds, a[1..]), Protocol.JobsFor(rows, kinds, b));
    }
  }

  /** A listed run whose kind has a handler gets one job with its kind, id and payload and no attempts; another run
      none. */
  lemma JobOfOne(rows: Rows, kinds: set<string>, id: string)
    requires id in rows
    ensures rows[id].kind in kinds ==>
      Protocol.JobsFor(rows, kinds, [id]) == [Encoded(Job(rows[id].kind, id, rows[id].payload, 0))]
    ensures rows[id].kind !in kinds ==> Protocol.JobsFor(rows, kinds, [id]) == []
  {
    assert Protocol.JobsFor(rows, kinds, [id][1..]) == [];
  }

  // reconcile_runs over the answer of list_nonterminal_runs.
  method ReconcileRuns(store: Store, queue: RedisQueue, kinds: set<string>, listing: seq<string>) returns (n: nat)
    requires IsListing(store.rows, Protocol.LIST_LIMIT, listing)
    modifies queue`main
    ensures queue.main == Reverse(Protocol.JobsFor(store.rows, kinds, listing)) + old(queue.main)
    ensures n == |Protocol.JobsFor(store.rows, kinds, listing)|
  {
    n := 0;
    ghost var jobs := Protocol.JobsFor(store.rows, kinds, listing);
    for i := 0 to |listing|
      invariant Reverse(Protocol.JobsFor(store.rows, kinds, listing[i..])) + queue.main == Reverse(jobs) + old(queue.main)
      invariant n + |Protocol.JobsFor(store.rows, kinds, listing[i..])| == |jobs|
    {
      var id := listing[i];
      ghost var rest := Protocol.JobsFor(store.rows, kinds, listing[i + 1..]);
      assert listing[i..][0] == id && listing[i..][1..] == listing[i + 1..];
      assert [] + rest == rest;
      if store.rows[id].kind in kinds {
        var job := Job(store.rows[id].kind, id, store.rows[id].payload, 0);
        ReverseFirst(Encoded(job), rest, queue.main);
        queue.Enqueue(job);
        n := n + 1;
      }
    }
  }

  lemma {:induction false} JobsForComplete(rows: Rows, kinds: set<string>, ids: seq<string>, id: string)
    requires forall k :: 0 <= k < |ids| ==> ids[k] in rows
    requires id in ids && rows[id].kind in kinds
    ensures Encoded(Job(rows[id].kind, id, rows[id].payload, 0)) in Protocol.JobsFor(rows, kinds, ids)
  {
    if id != ids[0] {
      JobsForComplete(rows, kinds, ids[1..], id);
    }
  }

  // The worker's start-up: reclaim, then reconcile.
  method StartUp(store: Store, queue: RedisQueue, kinds: set<string>, listing: seq<string>)
    requires IsListing(store.rows, Protocol.LIST_LIMIT, listing)
    modifies queue
    ensures queue.processing == []
    ensures queue.dead == old(queue.dead) + DeadLettered(old(queue.processing))
    ensures queue.main == Reverse(Protocol.JobsFor(store.rows, kinds, listing)) + old(queue.main) + Requeued(old(queue.processing))
    ensures |NonTerminal(store.rows)| <= Protocol.LIST_LIMIT ==>
      forall id :: id in NonTerminal(store.rows) && store.rows[id].kind in kinds ==>
        Encoded(Job(store.rows[id].kind, id, store.rows[id].payload, 0)) in queue.main
  {
    var reclaimed := queue.Reclaim();
    var reconciled := ReconcileRuns(store, queue, kinds, listing);
    if |NonTerminal(store.rows)| <= Protocol.LIST_LIMIT {
      ListingComplete(store.rows, Protocol.LIST_LIMIT, listing);
      forall id | id in NonTerminal(store.rows) && store.rows[id].kind in kinds
        ensures Encoded(Job(store.rows[id].kind, id, store.rows[id].payload, 0)) in queue.main
      {
        var m := Encoded(Job(store.rows[id].kind, id, store.rows[id].payload, 0));
        JobsForComplete(store.rows, kinds, listing, id);
        ReverseMember(Protocol.JobsFor(store.rows, kinds, listing), m);
      }
    }
  }
}

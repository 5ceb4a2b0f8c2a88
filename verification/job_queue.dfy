/** The Redis-backed queue: three lists of messages, index 0 being the left end. */
module JobQueue {
  import opened Wrappers
  import opened RunStore
  import opened Sums

  const MAX_ATTEMPTS := 5

  datatype Job = Job(kind: string, runId: string, payload: Payload, attempts: int)

  // What a list holds: the JSON form of a job, or text that does not parse as one. Equal jobs have
  // equal JSON, so two copies of a job with the same attempts are the same value.
  datatype Message = Encoded(job: Job) | Malformed(text: string)

  // The message without its reclaim count.
  function Erase(m: Message): Message {
    if m.Encoded? then Encoded(m.job.(attempts := 0)) else m
  }

  // LREM key 1 m: remove the leftmost equal value, if any.
  function RemoveFirst(ms: seq<Message>, m: Message): seq<Message> {
    if ms == [] then [] else if ms[0] == m then ms[1..] else [ms[0]] + RemoveFirst(ms[1..], m)
  }

  lemma {:induction false} RemoveFirstSplit(ms: seq<Message>, m: Message) returns (i: nat)
    requires m in ms
    ensures i < |ms| && ms[i] == m && m !in ms[..i] && RemoveFirst(ms, m) == ms[..i] + ms[i + 1..]
  {
    if ms[0] == m {
      i := 0;
    } else {
      i := RemoveFirstSplit(ms[1..], m);
      i := i + 1;
    }
  }

  lemma {:induction false} RemoveAbsent(ms: seq<Message>, m: Message)
    requires m !in ms
    ensures RemoveFirst(ms, m) == ms
  {
    if ms != [] {
      RemoveAbsent(ms[1..], m);
    }
  }

  // ----- reclaim, one orphan -----

  // The message reclaim pushes for an orphan: one more attempt, unparseable text as it is.
  function Retried(m: Message): Message {
    if m.Encoded? then Encoded(m.job.(attempts := m.job.attempts + 1)) else m
  }

  // It goes to the dead-letter list rather than back to the main list.
  predicate Dead(m: Message) {
    m.Malformed? || m.job.attempts + 1 > MAX_ATTEMPTS
  }

  // The pushes reclaim makes on the main list and on the dead-letter list, in order.
  function Requeued(orphans: seq<Message>): seq<Message> {
    if orphans == [] then []
    else (if Dead(orphans[0]) then [] else [Retried(orphans[0])]) + Requeued(orphans[1..])
  }

  function DeadLettered(orphans: seq<Message>): seq<Message> {
    if orphans == [] then []
    else (if Dead(orphans[0]) then [Retried(orphans[0])] else []) + DeadLettered(orphans[1..])
  }

  // Reclaim treats each orphan by itself, in order.

  lemma {:induction false} RequeuedConcat(a: seq<Message>, b: seq<Message>)
    ensures Requeued(a + b) == Requeued(a) + Requeued(b)
  {
    if a == [] {
      assert a + b == b;
    } else {
      RequeuedConcat(a[1..], b);
      assert (a + b)[0] == a[0] && (a + b)[1..] == a[1..] + b;
      Associate(if Dead(a[0]) then [] else [Retried(a[0])], Requeued(a[1..]), Requeued(b));
    }
  }

  lemma {:induction false} DeadLetteredConcat(a: seq<Message>, b: seq<Message>)
    ensures DeadLettered(a + b) == DeadLettered(a) + DeadLettered(b)
  {
    if a == [] {
      assert a + b == b;
    } else {
      DeadLetteredConcat(a[1..], b);
      assert (a + b)[0] == a[0] && (a + b)[1..] == a[1..] + b;
      Associate(if Dead(a[0]) then [Retried(a[0])] else [], DeadLettered(a[1..]), DeadLettered(b));
    }
  }

  /** An orphan with fewer than five attempts goes back with one more, any other parsed one to the dead letters with one
      more, and unparseable text to the dead letters as it is. */
  lemma OrphanFate(m: Message)
    ensures m.Encoded? && m.job.attempts < 5 ==>
      && Requeued([m]) == [Encoded(Job(m.job.kind, m.job.runId, m.job.payload, m.job.attempts + 1))]
      && DeadLettered([m]) == []
    ensures m.Encoded? && m.job.attempts >= 5 ==>
      && Requeued([m]) == []
      && DeadLettered([m]) == [Encoded(Job(m.job.kind, m.job.runId, m.job.payload, m.job.attempts + 1))]
    ensures m.Malformed? ==> Requeued([m]) == [] && DeadLettered([m]) == [m]
  {
    assert Requeued([m][1..]) == [] && DeadLettered([m][1..]) == [];
  }

  // ----- The lists, updated in place -----

  class RedisQueue {
    var main: seq<Message>
    var processing: seq<Message>
    var dead: seq<Message>

    constructor ()
      ensures main == [] && processing == [] && dead == []
    {
      main, processing, dead := [], [], [];
    }

    // LPUSH
    method Enqueue(job: Job)
      modifies this`main
      ensures main == [Encoded(job)] + old(main)
    {
      main := [Encoded(job)] + main;
    }

    // BLMOVE main -> processing, from the right end to the left end; None when the wait times out.
    method BlMove() returns (raw: Option<Message>)
      modifies this`main, this`processing
      ensures old(main) == [] ==> raw == None && main == [] && processing == old(processing)
      ensures old(main) != [] ==> raw.Some? && old(main) == main + [raw.value] && processing == [raw.value] + old(processing)
    {
      if main == [] {
        return None;
      }
      var m := main[|main| - 1];
      main, processing := main[..|main| - 1], [m] + processing;
      return Some(m);
    }

    // LREM processing 1 raw
    method Acknowledge(raw: Message)
      modifies this`processing
      ensures processing == RemoveFirst(old(processing), raw)
    {
      processing := RemoveFirst(processing, raw);
    }

    // Run alone: the interleaved form, one list operation at a time, is in module Protocol.
    method Reclaim() returns (moved: nat)
      modifies this
      ensures processing == []
      ensures main == old(main) + Requeued(old(processing))
      ensures dead == old(dead) + DeadLettered(old(processing))
      ensures moved == |Requeued(old(processing))|
    {
      moved := 0;
      while processing != []
        invariant main + Requeued(processing) == old(main) + Requeued(old(processing))
        invariant dead + DeadLettered(processing) == old(dead) + DeadLettered(old(processing))
        invariant moved + |Requeued(processing)| == |Requeued(old(processing))|
        decreases |processing|
      {
        var raw := processing[0];
        processing := processing[1..];
        if Dead(raw) {
          dead := dead + [Retried(raw)];
        } else {
          main := main + [Retried(raw)];
          moved := moved + 1;
        }
      }
    }
  }
}

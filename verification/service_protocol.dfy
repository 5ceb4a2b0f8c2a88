/**
  The coroutines of module Service are runs of module Protocol: whatever one of them does to the
  table and the lists, the transition system reaches by stepping that process alone.
 */
module ServiceProtocol {
  import opened Wrappers
  import opened RunStore
  import opened JobQueue
  import opened Protocol
  import opened Sums
  import Service

  // The actions, taken one after the other from s, are enabled and end in t.
  ghost predicate Leads(cfg: Config, s: State, actions: seq<Action>, t: State)
    decreases |actions|
  {
    if actions == [] then s == t
    else Enabled(cfg, s, actions[0]) && Leads(cfg, Next(cfg, s, actions[0]), actions[1..], t)
  }

  lemma LeadsFirst(cfg: Config, s: State, a: Action, rest: seq<Action>, t: State)
    requires Enabled(cfg, s, a) && Leads(cfg, Next(cfg, s, a), rest, t)
    ensures Leads(cfg, s, [a] + rest, t)
  {
    assert ([a] + rest)[1..] == rest;
  }

  lemma {:induction false} LeadsThen(cfg: Config, s: State, first: seq<Action>, t: State, second: seq<Action>, u: State)
    requires Leads(cfg, s, first, t) && Leads(cfg, t, second, u)
    ensures Leads(cfg, s, first + second, u)
    decreases |first|
  {
    if first == [] {
      assert first + second == second;
    } else {
      LeadsThen(cfg, Next(cfg, s, first[0]), first[1..], t, second, u);
      assert first + second == [first[0]] + (first[1..] + second);
      LeadsFirst(cfg, s, first[0], first[1..] + second, u);
    }
  }

  /** Leading is running: the states in between form a run. */
  lemma {:induction false} LeadsIsRun(cfg: Config, s: State, actions: seq<Action>, t: State) returns (states: seq<State>)
    requires Leads(cfg, s, actions, t)
    ensures IsRun(cfg, states, actions) && states[0] == s && states[|actions|] == t
    decreases |actions|
  {
    if actions == [] {
      states := [s];
    } else {
      var later := LeadsIsRun(cfg, Next(cfg, s, actions[0]), actions[1..], t);
      states := [s] + later;
      forall i | 0 <= i < |actions| ensures StepsAt(cfg, states, actions, i) {
        if i > 0 {
          assert StepsAt(cfg, later, actions[1..], i - 1);
        }
      }
    }
  }

  function Reclaimed(s: State, p: nat): State
    requires At(s, p)
  {
    State(s.now, s.rows, s.main + Requeued(s.processing), [], s.dead + DeadLettered(s.processing), s.procs[p := Listing])
  }

  lemma FirstOrphan(m: Message, rest: seq<Message>, main: seq<Message>, dead: seq<Message>)
    ensures Dead(m) ==> main + Requeued([m] + rest) == main + Requeued(rest)
                        && dead + DeadLettered([m] + rest) == (dead + [Retried(m)]) + DeadLettered(rest)
    ensures !Dead(m) ==> main + Requeued([m] + rest) == (main + [Retried(m)]) + Requeued(rest)
                         && dead + DeadLettered([m] + rest) == dead + DeadLettered(rest)
  {
    assert ([m] + rest)[1..] == rest && ([m] + rest)[0] == m;
    if Dead(m) {
      assert [] + Requeued(rest) == Requeued(rest);
      Associate(dead, [Retried(m)], DeadLettered(rest));
    } else {
      assert [] + DeadLettered(rest) == DeadLettered(rest);
      Associate(main, [Retried(m)], Requeued(rest));
    }
  }

  lemma OrphanMoved(cfg: Config, s: State, p: nat, s': State)
    requires At(s, p) && s.procs[p].Reclaiming? && s.processing != []
    requires s' == Next(cfg, Next(cfg, s, PopOrphan(p)), PushOrphan(p))
    ensures At(s', p) && s'.procs == s.procs && s'.processing == s.processing[1..] && Reclaimed(s', p) == Reclaimed(s, p)
  {
    var m, rest := s.processing[0], s.processing[1..];
    assert s'.procs == s.procs;
    FirstOrphan(m, rest, s.main, s.dead);
    assert [m] + rest == s.processing;
  }

  /** Stepping a reclaimer alone does what the method RedisQueue.Reclaim does. */
  lemma {:induction false} ReclaimAlone(cfg: Config, s: State, p: nat) returns (actions: seq<Action>)
    requires At(s, p) && s.procs[p].Reclaiming?
    ensures Leads(cfg, s, actions, Reclaimed(s, p))
    decreases |s.processing|
  {
    if s.processing == [] {
      assert s.main + [] == s.main && s.dead + [] == s.dead;
      LeadsFirst(cfg, s, PopOrphan(p), [], Reclaimed(s, p));
      actions := [PopOrphan(p)] + [];
    } else {
      var s1 := Next(cfg, s, PopOrphan(p));
      var s2 := Next(cfg, s1, PushOrphan(p));
      OrphanMoved(cfg, s, p, s2);
      var rest := ReclaimAlone(cfg, s2, p);
      LeadsFirst(cfg, s1, PushOrphan(p), rest, Reclaimed(s, p));
      LeadsFirst(cfg, s, PopOrphan(p), [PushOrphan(p)] + rest, Reclaimed(s, p));
      actions := [PopOrphan(p)] + ([PushOrphan(p)] + rest);
    }
  }

  function Reconciled(s: State, p: nat, todo: seq<Message>): State
    requires At(s, p)
  {
    s.(main := Service.Reverse(todo) + s.main, procs := s.procs[p := Consuming])
  }

  lemma {:induction false} RequeueAlone(cfg: Config, s: State, p: nat, todo: seq<Message>) returns (actions: seq<Action>)
    requires At(s, p) && s.procs[p] == Reconciling(todo)
    ensures Leads(cfg, s, actions, Reconciled(s, p, todo))
    decreases |todo|
  {
    var s' := Next(cfg, s, Requeue(p));
    if todo == [] {
      assert [] + s.main == s.main;
      LeadsFirst(cfg, s, Requeue(p), [], Reconciled(s, p, todo));
      actions := [Requeue(p)] + [];
    } else {
      var rest := RequeueAlone(cfg, s', p, todo[1..]);
      assert Service.Reverse(todo) + s.main == Service.Reverse(todo[1..]) + ([todo[0]] + s.main);
      assert s'.procs[p := Consuming] == s.procs[p := Consuming];
      LeadsFirst(cfg, s, Requeue(p), rest, Reconciled(s, p, todo));
      actions := [Requeue(p)] + rest;
    }
  }

  function StartedUp(s: State, p: nat, jobs: seq<Message>): State
    requires At(s, p)
  {
    s.(main := Service.Reverse(jobs) + s.main + Requeued(s.processing), processing := [],
       dead := s.dead + DeadLettered(s.processing), procs := s.procs[p := Consuming])
  }

  lemma BothPhases(s: State, p: nat, jobs: seq<Message>)
    requires At(s, p)
    ensures Reconciled(Become(Reclaimed(s, p), p, Reconciling(jobs)), p, jobs) == StartedUp(s, p, jobs)
  {
    var added := Service.Reverse(jobs);
    assert added + (s.main + Requeued(s.processing)) == added + s.main + Requeued(s.processing);
    assert s.procs[p := Listing][p := Reconciling(jobs)][p := Consuming] == s.procs[p := Consuming];
  }

  /** Stepping a starting worker alone does what the method StartUp does: reclaim, then reconcile. */
  lemma StartUpAlone(cfg: Config, s: State, p: nat, ids: seq<string>) returns (actions: seq<Action>)
    requires At(s, p) && s.procs[p].Reclaiming? && IsListing(s.rows, LIST_LIMIT, ids)
    ensures Leads(cfg, s, actions, StartedUp(s, p, JobsFor(s.rows, cfg.kinds, ids)))
  {
    var reclaim := ReclaimAlone(cfg, s, p);
    var s1 := Reclaimed(s, p);
    var jobs := JobsFor(s.rows, cfg.kinds, ids);
    var s2 := Next(cfg, s1, ListRuns(p, ids));
    var requeue := RequeueAlone(cfg, s2, p, jobs);
    var t := Reconciled(s2, p, jobs);
    LeadsFirst(cfg, s1, ListRuns(p, ids), requeue, t);
    LeadsThen(cfg, s, reclaim, s1, [ListRuns(p, ids)] + requeue, t);
    actions := reclaim + ([ListRuns(p, ids)] + requeue);
    BothPhases(s, p, jobs);
  }

  // ----- One delivery -----

  // The heartbeats are stored at these times, one after the other.
  predicate BeatsFrom(beats: seq<int>, start: int, end: int) {
    if beats == [] then start <= end else start <= beats[0] && BeatsFrom(beats[1..], beats[0], end)
  }

  // The executor at p goes on with its job, and only its row's time has moved.
  predicate StillExecuting(s: State, p: nat, t: State) {
    && At(s, p) && s.procs[p].Executing? && At(t, p) && t.procs[p].Executing? && t.procs[p].job == s.procs[p].job
    && var id := s.procs[p].job.runId;
       && id in s.rows && id in t.rows
       && t == State(t.now, s.rows[id := s.rows[id].(updated := t.rows[id].updated)], s.main, s.processing, s.dead,
                     s.procs[p := t.procs[p]])
  }

  lemma {:induction false} BeatsAlone(cfg: Config, s: State, p: nat, beats: seq<int>, end: int)
    returns (actions: seq<Action>, t: State)
    requires At(s, p) && s.procs[p].Executing? && s.procs[p].job.runId in s.rows && BeatsFrom(beats, s.now, end)
    ensures Leads(cfg, s, actions, t) && StillExecuting(s, p, t) && t.now == end
    decreases |beats|
  {
    if beats == [] {
      t := Next(cfg, s, Tick(end));
      LeadsFirst(cfg, s, Tick(end), [], t);
      actions := [Tick(end)] + [];
      assert s.procs[p := s.procs[p]] == s.procs;
      assert s.rows[s.procs[p].job.runId := s.rows[s.procs[p].job.runId]] == s.rows;
    } else {
      var s1 := Next(cfg, s, Tick(beats[0]));
      var s2 := Next(cfg, s1, Beat(p, true));
      var rest;
      rest, t := BeatsAlone(cfg, s2, p, beats[1..], end);
      LeadsFirst(cfg, s1, Beat(p, true), rest, t);
      LeadsFirst(cfg, s, Tick(beats[0]), [Beat(p, true)] + rest, t);
      actions := [Tick(beats[0])] + ([Beat(p, true)] + rest);
      assert s2.procs[p := t.procs[p]] == s.procs[p := t.procs[p]];
      var id := s.procs[p].job.runId;
      assert s2.rows[id := s2.rows[id].(updated := t.rows[id].updated)] == s.rows[id := s.rows[id].(updated := t.rows[id].updated)];
    }
  }

  // The state after a delivered message has been dealt with, the agent running from now until `end`.
  function Dealt(cfg: Config, s: State, p: nat, end: int, o: Service.Outcome): State
    requires At(s, p) && s.procs[p].Delivered?
  {
    var m := s.procs[p].msg;
    s.(now := end,
       rows := if Handled(cfg, m) then Service.Executed(s.rows, m.job, cfg.lease, s.now, end, o) else s.rows,
       processing := RemoveFirst(s.processing, m), procs := s.procs[p := Gone])
  }

  lemma FinishAlone(cfg: Config, s: State, p: nat, o: Service.Outcome) returns (actions: seq<Action>)
    requires At(s, p) && s.procs[p].Executing?
    ensures var job := s.procs[p].job;
            Leads(cfg, s, actions, s.(
              rows := Upsert(s.rows, job.runId, KIND, Service.FinalStatus(o), Service.FinalPayload(job.payload.goal, o), None,
                             Service.FinalError(o), s.now),
              processing := RemoveFirst(s.processing, Encoded(job)), procs := s.procs[p := Gone]))
  {
    var goal := s.procs[p].job.payload.goal;
    var finish := Finish(p, Service.FinalStatus(o), Service.FinalPayload(goal, o).result, Service.FinalError(o));
    var s1 := Next(cfg, s, finish);
    var s2 := Next(cfg, s1, Stop(p));
    var t := Next(cfg, s2, Ack(p));
    assert t.procs == s.procs[p := Gone];
    LeadsFirst(cfg, s2, Ack(p), [], t);
    LeadsFirst(cfg, s1, Stop(p), [Ack(p)] + [], t);
    LeadsFirst(cfg, s, finish, [Stop(p)] + ([Ack(p)] + []), t);
    actions := [finish] + ([Stop(p)] + ([Ack(p)] + []));
  }

  // A row that was claimed and kept alive ends as if it had only been claimed.
  lemma BeatsLeaveNoTrace(cfg: Config, rows: Rows, job: Job, start: int, end: int, beat: int, o: Service.Outcome)
    requires ClaimWins(rows, job.runId, cfg.lease, start)
    ensures var claimed, goal := Claim(rows, job.runId, cfg.lease, start), job.payload.goal;
            var kept := claimed[job.runId := claimed[job.runId].(updated := beat)];
            Upsert(kept, job.runId, KIND, Service.FinalStatus(o), Service.FinalPayload(goal, o), None, Service.FinalError(o), end)
            == Service.Executed(rows, job, cfg.lease, start, end, o)
  {
  }

  /** Stepping a delivered message alone, with any heartbeats while the agent runs, does what the methods ExecuteRun
      and Acknowledge do. */
  lemma ExecuteAlone(cfg: Config, s: State, p: nat, beats: seq<int>, end: int, o: Service.Outcome)
    returns (actions: seq<Action>)
    requires At(s, p) && s.procs[p].Delivered? && BeatsFrom(beats, s.now, end) && s.now <= end
    ensures Leads(cfg, s, actions, Dealt(cfg, s, p, end, o))
  {
    var m := s.procs[p].msg;
    var s1 := Next(cfg, s, ClaimRun(p));
    var t := Dealt(cfg, s, p, end, o);
    if s1.procs[p].Executing? {
      var beating, s2 := BeatsAlone(cfg, s1, p, beats, end);
      var finish := FinishAlone(cfg, s2, p, o);
      BeatsLeaveNoTrace(cfg, s.rows, m.job, s.now, end, s2.rows[m.job.runId].updated, o);
      assert s2.procs[p := Gone] == s.procs[p := Gone];
      LeadsThen(cfg, s1, beating, s2, finish, t);
      LeadsFirst(cfg, s, ClaimRun(p), beating + finish, t);
      actions := [ClaimRun(p)] + (beating + finish);
    } else {
      var s2 := Next(cfg, s1, Tick(end));
      assert Next(cfg, s2, Ack(p)).procs == s.procs[p := Gone];
      LeadsFirst(cfg, s2, Ack(p), [], t);
      LeadsFirst(cfg, s1, Tick(end), [Ack(p)] + [], t);
      LeadsFirst(cfg, s, ClaimRun(p), [Tick(end)] + ([Ack(p)] + []), t);
      actions := [ClaimRun(p)] + ([Tick(end)] + ([Ack(p)] + []));
    }
  }

  /** Stepping a worker's pop and the task it starts does what the method ConsumeOne does. */
  lemma ConsumeAlone(cfg: Config, s: State, p: nat, beats: seq<int>, end: int, o: Service.Outcome)
    returns (actions: seq<Action>)
    requires Enabled(cfg, s, Deliver(p)) && BeatsFrom(beats, s.now, end) && s.now <= end
    ensures var m := s.main[|s.main| - 1];
            Leads(cfg, s, actions, s.(
              now := end, main := s.main[..|s.main| - 1],
              rows := if Handled(cfg, m) then Service.Executed(s.rows, m.job, cfg.lease, s.now, end, o) else s.rows,
              procs := s.procs + [Gone]))
  {
    var q := |s.procs|;
    var s1 := Next(cfg, s, Deliver(p));
    var rest := ExecuteAlone(cfg, s1, q, beats, end, o);
    var t := Dealt(cfg, s1, q, end, o);
    assert t.procs == s.procs + [Gone];
    assert t.processing == s.processing;
    LeadsFirst(cfg, s, Deliver(p), rest, t);
    actions := [Deliver(p)] + rest;
  }

  // ----- Submit -----

  // What a submit leaves, in the terms of the method Submit.
  ghost predicate Submitted(s: State, key: Option<string>, goal: string, id: string, t: State) {
    && |t.procs| == |s.procs| + 1 && t.procs[..|s.procs|] == s.procs
    && t.now == s.now && t.processing == s.processing && t.dead == s.dead
    && var x := t.procs[|s.procs|];
       if !(key.Some? && KeyTaken(s.rows, KIND, key.value)) then
         && x == Returned(key, id)
         && t.rows == s.rows[id := NewRow(KIND, Payload(goal, None), key, s.now)]
         && t.main == [Encoded(Job(KIND, id, Payload(goal, None), 0))] + s.main
       else
         && t.rows == s.rows && t.main == s.main
         && if key == Some("") then x.Refused?
            else x.Returned? && x.key == key && x.id in s.rows && s.rows[x.id].kind == KIND && s.rows[x.id].key == key
  }

  /** Stepping a submit alone does what the method Submit does. */
  lemma SubmitAlone(cfg: Config, s: State, key: Option<string>, goal: string, id: string)
    returns (actions: seq<Action>, t: State)
    requires UniqueKeys(s.rows) && id !in s.rows
    ensures Leads(cfg, s, actions, t) && Submitted(s, key, goal, id, t)
  {
    var p := |s.procs|;
    var s1 := Next(cfg, s, Submit(key, goal));
    var s2 := Next(cfg, s1, LookUp(p));
    var rest: seq<Action> := [];
    t := s2;
    if s2.procs[p].Creating? {
      CreateFresh(s.rows, id, NewRow(KIND, Payload(goal, None), key, s.now));
      var s3 := Next(cfg, s2, Insert(p, id));
      var push: seq<Action> := [];
      t := s3;
      if s3.procs[p].Submitting? {
        t := Next(cfg, s3, Push(p));
        LeadsFirst(cfg, s3, Push(p), [], t);
        push := [Push(p)] + [];
      }
      LeadsFirst(cfg, s2, Insert(p, id), push, t);
      rest := [Insert(p, id)] + push;
    }
    LeadsFirst(cfg, s1, LookUp(p), rest, t);
    LeadsFirst(cfg, s, Submit(key, goal), [LookUp(p)] + rest, t);
    actions := [Submit(key, goal)] + ([LookUp(p)] + rest);
  }
}

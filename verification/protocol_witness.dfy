/**
  The timing conditions are not idle: from a quiet start, one submitted run and one worker reach a
  stolen lease and an overwritten sweep as soon as a heartbeat is late.
 */
module ProtocolWitness {
  import opened Wrappers
  import opened RunStore
  import opened JobQueue
  import opened Protocol
  import opened ProtocolLease
  import opened ProtocolStatus
  import opened ServiceProtocol

  function Task(): Message {
    Encoded(Job(KIND, "r", Payload("goal", None), 0))
  }

  function Waiting(): Row {
    NewRow(KIND, Payload("goal", None), None, 0)
  }

  // One pending run, its job on the main list, nothing running.
  function Quiet(): State {
    State(0, map["r" := Waiting()], [Task()], [], [], [])
  }

  function InProgress(now: int): Row {
    Waiting().(status := Running, updated := now)
  }

  // The worker has put a second copy on the list, both are delivered, and the first has won the claim.
  function Claimed(cfg: Config): State {
    var job := Task().job;
    State(0, map["r" := InProgress(0)], [], [Task(), Task()], [],
          [Consuming, Executing(job, 0, cfg.interval, 0), Delivered(Task())])
  }

  // The clock has passed the lease without a heartbeat.
  function Late(cfg: Config): State {
    Claimed(cfg).(now := cfg.lease + 1)
  }

  function Doubled(cfg: Config): State {
    var now := cfg.lease + 1;
    Late(cfg).(rows := map["r" := InProgress(now)],
               procs := Late(cfg).procs[2 := Executing(Task().job, now, now + cfg.interval, 0)])
  }

  lemma OneListing(kinds: set<string>)
    requires KIND in kinds
    ensures IsListing(Quiet().rows, LIST_LIMIT, ["r"])
    ensures JobsFor(Quiet().rows, kinds, ["r"]) == [Task()]
  {
  }

  // The worker has started: reconcile has put a second copy beside the first.
  function Started(): State {
    Quiet().(main := [Task(), Task()], procs := [Consuming])
  }

  lemma StartsUp(cfg: Config) returns (actions: seq<Action>)
    requires KIND in cfg.kinds
    ensures Leads(cfg, Quiet(), actions, Started())
  {
    OneListing(cfg.kinds);
    var s1 := Next(cfg, Quiet(), StartWorker);
    var startUp := StartUpAlone(cfg, s1, 0, ["r"]);
    assert StartedUp(s1, 0, [Task()]).main == [Task(), Task()];
    assert StartedUp(s1, 0, [Task()]) == Started();
    LeadsFirst(cfg, Quiet(), StartWorker, startUp, Started());
    actions := [StartWorker] + startUp;
  }

  lemma Delivers(cfg: Config) returns (actions: seq<Action>)
    requires KIND in cfg.kinds && 0 <= cfg.lease
    ensures Leads(cfg, Started(), actions, Claimed(cfg))
  {
    var s1 := Next(cfg, Started(), Deliver(0));
    assert s1.main == [Task()] && s1.processing == [Task()] && s1.procs == [Consuming, Delivered(Task())];
    var s2 := Next(cfg, s1, Deliver(0));
    assert s2.main == [] && s2.procs == [Consuming, Delivered(Task()), Delivered(Task())];
    assert Next(cfg, s2, ClaimRun(1)) == Claimed(cfg);
    LeadsFirst(cfg, s2, ClaimRun(1), [], Claimed(cfg));
    LeadsFirst(cfg, s1, Deliver(0), [ClaimRun(1)] + [], Claimed(cfg));
    LeadsFirst(cfg, Started(), Deliver(0), [Deliver(0)] + ([ClaimRun(1)] + []), Claimed(cfg));
    actions := [Deliver(0)] + ([Deliver(0)] + ([ClaimRun(1)] + []));
  }

  lemma WorkerStarts(cfg: Config) returns (actions: seq<Action>)
    requires KIND in cfg.kinds && 0 <= cfg.lease
    ensures Leads(cfg, Quiet(), actions, Claimed(cfg))
  {
    var start := StartsUp(cfg);
    var deliver := Delivers(cfg);
    LeadsThen(cfg, Quiet(), start, Started(), deliver, Claimed(cfg));
    actions := start + deliver;
  }

  /** For every lease there is a run of the system, from a start with one queued run, that ends with two live executors
      of it: one heartbeat is late and the second copy's delivery wins the claim. */
  lemma TwoExecutorsReachable(cfg: Config) returns (states: seq<State>, actions: seq<Action>)
    requires KIND in cfg.kinds && 0 <= cfg.lease
    ensures IsRun(cfg, states, actions) && Init(states[0])
    ensures var end := states[|actions|]; ExecutingRun(end, 1, "r") && ExecutingRun(end, 2, "r")
  {
    var start := WorkerStarts(cfg);
    var steal := [Tick(cfg.lease + 1)] + ([ClaimRun(2)] + []);
    assert Next(cfg, Late(cfg), ClaimRun(2)) == Doubled(cfg);
    LeadsFirst(cfg, Late(cfg), ClaimRun(2), [], Doubled(cfg));
    LeadsFirst(cfg, Claimed(cfg), Tick(cfg.lease + 1), [ClaimRun(2)] + [], Doubled(cfg));
    LeadsThen(cfg, Quiet(), start, Claimed(cfg), steal, Doubled(cfg));
    actions := start + steal;
    states := LeadsIsRun(cfg, Quiet(), actions, Doubled(cfg));
  }

  lemma RunSnoc(cfg: Config, states: seq<State>, actions: seq<Action>, a: Action)
    requires IsRun(cfg, states, actions) && Enabled(cfg, states[|actions|], a)
    ensures IsRun(cfg, states + [Next(cfg, states[|actions|], a)], actions + [a])
  {
    var states', actions' := states + [Next(cfg, states[|actions|], a)], actions + [a];
    forall i | 0 <= i < |actions'| ensures StepsAt(cfg, states', actions', i) {
      if i < |actions| {
        assert StepsAt(cfg, states, actions, i);
      }
    }
  }

  // The late executor's run has been swept.
  function Swept(cfg: Config): State {
    var now := cfg.lease + 1;
    Late(cfg).(rows := map["r" := InProgress(now).(status := Failed, error := NO_HEARTBEAT)])
  }

  lemma SweptReachable(cfg: Config) returns (actions: seq<Action>)
    requires KIND in cfg.kinds && 0 <= cfg.lease
    ensures Leads(cfg, Quiet(), actions, Swept(cfg))
  {
    var start := WorkerStarts(cfg);
    assert Next(cfg, Late(cfg), SweepRuns) == Swept(cfg);
    LeadsFirst(cfg, Late(cfg), SweepRuns, [], Swept(cfg));
    LeadsFirst(cfg, Claimed(cfg), Tick(cfg.lease + 1), [SweepRuns] + [], Swept(cfg));
    actions := start + ([Tick(cfg.lease + 1)] + ([SweepRuns] + []));
    LeadsThen(cfg, Quiet(), start, Claimed(cfg), [Tick(cfg.lease + 1)] + ([SweepRuns] + []), Swept(cfg));
  }

  /** Likewise there is a run of the system in which the sweeper fails the run and its live executor then completes
      it. */
  lemma OverwriteReachable(cfg: Config) returns (states: seq<State>, actions: seq<Action>, k: nat)
    requires KIND in cfg.kinds && 0 <= cfg.lease
    ensures IsRun(cfg, states, actions) && Init(states[0]) && k + 1 == |actions|
    ensures states[k].rows.Keys == states[k + 1].rows.Keys == {"r"}
    ensures states[k].rows["r"].status == Failed && states[k + 1].rows["r"].status == Completed
    ensures Overwrites(states[k], actions[k])
  {
    var sweep := SweptReachable(cfg);
    var before := LeadsIsRun(cfg, Quiet(), sweep, Swept(cfg));
    var write := Finish(1, Completed, Some("answer"), None);
    k := |sweep|;
    RunSnoc(cfg, before, sweep, write);
    states, actions := before + [Next(cfg, Swept(cfg), write)], sweep + [write];
  }
}

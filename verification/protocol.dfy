/**
  Durable runs as one small-step transition system: any number of submitters, worker processes and
  job tasks share the run table, the three Redis lists and a clock. An action is one atomic access
  to the shared state; actions interleave freely.
 */
module Protocol {
  import opened Wrappers
  import opened RunStore
  import opened JobQueue

  const KIND := "autonomous"
  const LIST_LIMIT: nat := 1000

  // `lease` is both the claim's lease and the sweeper's TTL; `kinds` are the kinds with a handler.
  datatype Config = Config(lease: int, interval: int, kinds: set<string>)

  datatype Proc =
    // submit
    | Looking(key: Option<string>, goal: string)
    | Creating(key: Option<string>, goal: string)
    | Submitting(key: Option<string>, job: Job)            // row inserted, job not yet pushed
    | Returned(key: Option<string>, id: string)
    | Refused                                              // create_run raised
    // worker start-up, then the pop loop
    | Reclaiming
    | Reinserting(msg: Message)                            // popped from processing, not yet pushed
    | Listing
    | Reconciling(todo: seq<Message>)
    | Consuming
    // one delivered message
    | Delivered(msg: Message)
    | Executing(job: Job, beat: int, due: int, missed: nat) // last stored heartbeat, next attempt, failures since
    | Finishing(job: Job)                                  // terminal state written, heartbeat still running
    | Acking(msg: Message)
    | Gone

  // Processes are numbered in order of creation; a crashed or finished one stays as Gone.
  datatype State = State(now: int, rows: Rows, main: seq<Message>, processing: seq<Message>, dead: seq<Message>,
                         procs: seq<Proc>)

  datatype Action =
    | Submit(key: Option<string>, goal: string)
    | LookUp(p: nat)
    | Insert(p: nat, id: string)
    | Push(p: nat)
    | StartWorker
    | PopOrphan(p: nat)
    | PushOrphan(p: nat)
    | ListRuns(p: nat, ids: seq<string>)
    | Requeue(p: nat)
    | Deliver(p: nat)
    | ClaimRun(p: nat)
    | Beat(p: nat, stored: bool)
    | Finish(p: nat, status: Status, result: Option<string>, error: Option<string>)
    | Stop(p: nat)
    | Ack(p: nat)
    | SweepRuns
    | Tick(to: int)
    | Crash(p: nat)

  predicate At(s: State, p: int) {
    0 <= p < |s.procs|
  }

  ghost predicate Enabled(cfg: Config, s: State, a: Action) {
    match a
    case Submit(_, _) => true
    case LookUp(p) => At(s, p) && s.procs[p].Looking?
    case Insert(p, id) => At(s, p) && s.procs[p].Creating? && id !in s.rows
    case Push(p) => At(s, p) && s.procs[p].Submitting?
    case StartWorker => true
    case PopOrphan(p) => At(s, p) && s.procs[p].Reclaiming?
    case PushOrphan(p) => At(s, p) && s.procs[p].Reinserting?
    case ListRuns(p, ids) => At(s, p) && s.procs[p].Listing? && IsListing(s.rows, LIST_LIMIT, ids)
    case Requeue(p) => At(s, p) && s.procs[p].Reconciling?
    case Deliver(p) => At(s, p) && s.procs[p].Consuming? && s.main != []
    case ClaimRun(p) => At(s, p) && s.procs[p].Delivered?
    case Beat(p, _) => At(s, p) && (s.procs[p].Executing? || s.procs[p].Finishing?)
    case Finish(p, status, _, _) => At(s, p) && s.procs[p].Executing? && status.Terminal()
    case Stop(p) => At(s, p) && s.procs[p].Finishing?
    case Ack(p) => At(s, p) && s.procs[p].Acking?
    case SweepRuns => true
    case Tick(to) => s.now <= to
    case Crash(p) => At(s, p)
  }

  function Become(s: State, p: nat, x: Proc): State
    requires At(s, p)
  {
    s.(procs := s.procs[p := x])
  }

  function Spawn(s: State, x: Proc): State {
    s.(procs := s.procs + [x])
  }

  // The jobs reconcile_runs pushes for a listing: those whose kind has a handler, in order.
  function JobsFor(rows: Rows, kinds: set<string>, ids: seq<string>): seq<Message>
    requires forall k :: 0 <= k < |ids| ==> ids[k] in rows
  {
    if ids == [] then []
    else
      (if rows[ids[0]].kind in kinds then [Encoded(Job(rows[ids[0]].kind, ids[0], rows[ids[0]].payload, 0))] else [])
      + JobsFor(rows, kinds, ids[1..])
  }

  ghost function Next(cfg: Config, s: State, a: Action): State
    requires Enabled(cfg, s, a)
  {
    match a
    case Submit(key, goal) => Spawn(s, Looking(key, goal))
    case LookUp(p) =>
      var key := s.procs[p].key;
      var found := if key.Some? then FindByKey(s.rows, KIND, key.value) else None;
      Become(s, p, if found.Some? then Returned(key, found.value) else Creating(key, s.procs[p].goal))
    case Insert(p, id) =>
      var key, payload := s.procs[p].key, Payload(s.procs[p].goal, None);
      var (rows, c) := Create(s.rows, id, NewRow(KIND, payload, key, s.now));
      Become(s.(rows := rows), p,
        if c.Raised? then Refused
        else if c.id != id then Returned(key, c.id)
        else Submitting(key, Job(KIND, id, payload, 0)))
    case Push(p) =>
      var job := s.procs[p].job;
      Become(s.(main := [Encoded(job)] + s.main), p, Returned(s.procs[p].key, job.runId))
    case StartWorker => Spawn(s, Reclaiming)
    case PopOrphan(p) =>
      if s.processing == [] then Become(s, p, Listing)
      else Become(s.(processing := s.processing[1..]), p, Reinserting(s.processing[0]))
    case PushOrphan(p) =>
      var m := s.procs[p].msg;
      Become(if Dead(m) then s.(dead := s.dead + [Retried(m)]) else s.(main := s.main + [Retried(m)]), p, Reclaiming)
    case ListRuns(p, ids) => Become(s, p, Reconciling(JobsFor(s.rows, cfg.kinds, ids)))
    case Requeue(p) =>
      var todo := s.procs[p].todo;
      if todo == [] then Become(s, p, Consuming)
      else Become(s.(main := [todo[0]] + s.main), p, Reconciling(todo[1..]))
    case Deliver(p) =>
      var m := s.main[|s.main| - 1];
      Spawn(s.(main := s.main[..|s.main| - 1], processing := [m] + s.processing), Delivered(m))
    case ClaimRun(p) =>
      var m := s.procs[p].msg;
      // an unparseable message and a kind without a handler go straight to the ack
      if Handled(cfg, m) && ClaimWins(s.rows, m.job.runId, cfg.lease, s.now) then
        Become(s.(rows := Claim(s.rows, m.job.runId, cfg.lease, s.now)), p,
               Executing(m.job, s.now, s.now + cfg.interval, 0))
      else
        Become(s, p, Acking(m))
    case Beat(p, stored) =>
      var x := s.procs[p];
      var s' := if stored then s.(rows := Touch(s.rows, x.job.runId, s.now)) else s;
      if x.Finishing? then s'
      else if stored then Become(s', p, Executing(x.job, s.now, s.now + cfg.interval, 0))
      else Become(s', p, Executing(x.job, x.beat, s.now + cfg.interval, x.missed + 1))
    case Finish(p, status, result, error) =>
      var job := s.procs[p].job;
      Become(s.(rows := Upsert(s.rows, job.runId, KIND, status, Payload(job.payload.goal, result), None, error, s.now)),
             p, Finishing(job))
    case Stop(p) => Become(s, p, Acking(Encoded(s.procs[p].job)))
    case Ack(p) => Become(s.(processing := RemoveFirst(s.processing, s.procs[p].msg)), p, Gone)
    case SweepRuns => s.(rows := Sweep(s.rows, cfg.lease, s.now))
    case Tick(to) => s.(now := to)
    case Crash(p) => Become(s, p, Gone)
  }

  // The action creates a process.
  predicate Spawns(a: Action) {
    a.Submit? || a.StartWorker? || a.Deliver?
  }

  // The action steps process a.p.
  predicate Steps(a: Action) {
    !a.Submit? && !a.StartWorker? && !a.SweepRuns? && !a.Tick?
  }

  // An action changes one process, the one it steps or the one it creates, and no other.
  lemma OneProcessChanges(cfg: Config, s: State, a: Action, s': State)
    requires Enabled(cfg, s, a) && s' == Next(cfg, s, a)
    ensures Spawns(a) ==> s'.procs != [] && s'.procs == s.procs + [s'.procs[|s'.procs| - 1]]
    ensures Steps(a) && !Spawns(a) ==> At(s, a.p) && At(s', a.p) && s'.procs == s.procs[a.p := s'.procs[a.p]]
    ensures !Steps(a) && !Spawns(a) ==> s'.procs == s.procs
  {
  }

  // The process it changes.
  function Changed(a: Action, s': State): Proc
    requires (Spawns(a) && s'.procs != []) || (Steps(a) && !Spawns(a) && At(s', a.p))
  {
    if Spawns(a) then s'.procs[|s'.procs| - 1] else s'.procs[a.p]
  }

  // The message is a job whose kind has a handler.
  predicate Handled(cfg: Config, m: Message) {
    m.Encoded? && m.job.kind in cfg.kinds
  }

  // ----- Initial states and runs -----

  // Nothing is running; the lists and the table may hold anything earlier processes left there.
  ghost predicate Init(s: State) {
    && s.procs == []
    && UniqueKeys(s.rows)
    && forall i :: i in s.rows ==> s.rows[i].updated <= s.now
  }

  // states[0] -actions[0]-> states[1] -actions[1]-> ...
  ghost predicate IsRun(cfg: Config, states: seq<State>, actions: seq<Action>) {
    && |states| == |actions| + 1
    && forall i :: 0 <= i < |actions| ==> StepsAt(cfg, states, actions, i)
  }

  ghost predicate StepsAt(cfg: Config, states: seq<State>, actions: seq<Action>, i: int)
    requires |states| == |actions| + 1 && 0 <= i < |actions|
  {
    Enabled(cfg, states[i], actions[i]) && states[i + 1] == Next(cfg, states[i], actions[i])
  }
}

/**
  The status of a run. Terminal writes are unconditional, so nothing in the code itself keeps a
  terminal status; the theorems say exactly which writes break it and what timing excludes them.
 */
module ProtocolStatus {
  import opened Wrappers
  import opened RunStore
  import opened Protocol
  import opened ProtocolLease
  import opened ProtocolDelivery

  // From s to s', no row disappears, its status moves pending -> running -> terminal, and a terminal status stays.
  ghost predicate StatusForward(s: State, s': State) {
    forall id :: id in s.rows ==>
      && id in s'.rows
      && s.rows[id].status.Rank() <= s'.rows[id].status.Rank()
      && (s.rows[id].status.Terminal() ==> s'.rows[id].status == s.rows[id].status)
  }

  // The action writes a terminal status over a different one that is already stored.
  predicate Overwrites(s: State, a: Action) {
    && a.Finish? && At(s, a.p) && s.procs[a.p].Executing?
    && var id := s.procs[a.p].job.runId;
       id in s.rows && s.rows[id].status.Terminal() && s.rows[id].status != a.status
  }

  lemma StatusForwardIff(cfg: Config, s: State, a: Action)
    requires LeaseInv(s) && Enabled(cfg, s, a)
    ensures StatusForward(s, Next(cfg, s, a)) <==> !Overwrites(s, a)
  {
    if a.Finish? {
      assert ExecutingRun(s, a.p, s.procs[a.p].job.runId);
    }
  }

  lemma ForwardTransitive(s: State, t: State, u: State)
    requires StatusForward(s, t) && StatusForward(t, u)
    ensures StatusForward(s, u)
  {
  }

  lemma {:induction false} ForwardBetween(cfg: Config, states: seq<State>, actions: seq<Action>, i: nat, n: nat)
    requires IsRun(cfg, states, actions) && Init(states[0]) && i <= n < |states|
    requires forall k :: i <= k < n ==> !Overwrites(states[k], actions[k])
    ensures StatusForward(states[i], states[n])
    decreases n
  {
    if i < n {
      ForwardBetween(cfg, states, actions, i, n - 1);
      InvariantsHold(cfg, states, actions, n - 1);
      assert StepsAt(cfg, states, actions, n - 1);
      StatusForwardIff(cfg, states[n - 1], actions[n - 1]);
      ForwardTransitive(states[i], states[n - 1], states[n]);
    }
  }

  /** With no assumption on timing: along a run of the system no status ever goes back and no terminal status changes
      exactly when no executor writes its outcome over a different terminal status. */
  lemma StatusForwardExactly(cfg: Config, states: seq<State>, actions: seq<Action>, n: nat)
    requires IsRun(cfg, states, actions) && Init(states[0]) && n < |states|
    ensures (forall i, j :: 0 <= i <= j <= n ==> StatusForward(states[i], states[j]))
        <==> (forall k :: 0 <= k < n ==> !Overwrites(states[k], actions[k]))
  {
    if forall k :: 0 <= k < n ==> !Overwrites(states[k], actions[k]) {
      forall i, j | 0 <= i <= j <= n ensures StatusForward(states[i], states[j]) {
        ForwardBetween(cfg, states, actions, i, j);
      }
    } else {
      var k :| 0 <= k < n && Overwrites(states[k], actions[k]);
      InvariantsHold(cfg, states, actions, k);
      assert StepsAt(cfg, states, actions, k);
      StatusForwardIff(cfg, states[k], actions[k]);
      assert !StatusForward(states[k], states[k + 1]);
    }
  }

  // An executor that holds its run alone finds it running.
  lemma ExclusiveNeverOverwrites(s: State, a: Action)
    requires Exclusive(s)
    ensures !Overwrites(s, a)
  {
    if Overwrites(s, a) {
      assert ExecutingRun(s, a.p, s.procs[a.p].job.runId);
    }
  }

  /** With timely heartbeats a terminal row never changes status again, along the whole run. */
  lemma StatusMovesForward(cfg: Config, states: seq<State>, actions: seq<Action>, n: nat)
    requires IsRun(cfg, states, actions) && Init(states[0]) && n < |states|
    requires forall k :: 0 <= k < n ==> Timely(cfg, states[k])
    ensures forall i, j :: 0 <= i <= j <= n ==> StatusForward(states[i], states[j])
  {
    forall k | 0 <= k < n ensures !Overwrites(states[k], actions[k]) {
      SingleActiveExecution(cfg, states, actions, k);
      ExclusiveNeverOverwrites(states[k], actions[k]);
    }
    StatusForwardExactly(cfg, states, actions, n);
  }

  /** A live executor whose row was swept undoes the sweep with every outcome but `failed`. */
  lemma SweptThenOverwritten(cfg: Config, s: State, p: nat, id: string, status: Status, result: Option<string>,
                             error: Option<string>)
    requires LeaseInv(s) && ExecutingRun(s, p, id) && Stuck(s.rows[id], cfg.lease, s.now) && status.Terminal()
    ensures var swept, write := Next(cfg, s, SweepRuns), Finish(p, status, result, error);
      && swept.rows[id].status == Failed
      && Enabled(cfg, swept, write)
      && Next(cfg, swept, write).rows[id].status == status
      && (StatusForward(swept, Next(cfg, swept, write)) <==> status == Failed)
  {
    LeaseInvStep(cfg, s, SweepRuns);
    StatusForwardIff(cfg, Next(cfg, s, SweepRuns), Finish(p, status, result, error));
  }

  /** A TTL of at least three heartbeat intervals tolerates two missed beats in a row: no live run is stolen or
      swept, and status moves forward between any two points of the run. */
  lemma HeartbeatRatioSuffices(cfg: Config, states: seq<State>, actions: seq<Action>, n: nat)
    requires IsRun(cfg, states, actions) && Init(states[0]) && n < |states|
    requires 0 <= cfg.interval && 3 * cfg.interval <= cfg.lease
    requires forall i :: 0 <= i < n ==> Disciplined(states[i])
    ensures Exclusive(states[n])
    ensures forall i, j :: 0 <= i <= j <= n ==> StatusForward(states[i], states[j])
  {
    forall i | 0 <= i < n ensures Timely(cfg, states[i]) {
      DisciplinedRunIsTimely(cfg, states, actions, i);
    }
    SingleActiveExecution(cfg, states, actions, n);
    StatusMovesForward(cfg, states, actions, n);
  }

  // ----- Each run is finished once -----

  function FinishedBy(id: string): (State, Action) -> int {
    (s: State, a: Action) =>
      if a.Finish? && At(s, a.p) && s.procs[a.p].Executing? && s.procs[a.p].job.runId == id then 1 else 0
  }

  function Ended(id: string, s: State): int {
    if id in s.rows && s.rows[id].status.Terminal() then 1 else 0
  }

  lemma FinishEnds(cfg: Config, s: State, a: Action, id: string)
    requires LeaseInv(s) && Exclusive(s) && Enabled(cfg, s, a)
    ensures FinishedBy(id)(s, a) <= Ended(id, Next(cfg, s, a)) - Ended(id, s)
  {
    ExclusiveNeverOverwrites(s, a);
    StatusForwardIff(cfg, s, a);
    if a.Finish? {
      assert ExecutingRun(s, a.p, s.procs[a.p].job.runId);
    }
  }

  /** With timely heartbeats each run is finished at most once along the whole run of the system, and not at all if it
      was terminal from the start. */
  lemma {:induction false} FinishedOnce(cfg: Config, states: seq<State>, actions: seq<Action>, n: nat, id: string)
    requires IsRun(cfg, states, actions) && Init(states[0]) && n < |states|
    requires forall k :: 0 <= k < n ==> Timely(cfg, states[k])
    ensures Total(FinishedBy(id), states, actions, n) <= Ended(id, states[n]) - Ended(id, states[0])
  {
    if n > 0 {
      FinishedOnce(cfg, states, actions, n - 1, id);
      InvariantsHold(cfg, states, actions, n - 1);
      assert StepsAt(cfg, states, actions, n - 1);
      FinishEnds(cfg, states[n - 1], actions[n - 1], id);
    }
  }

  // ----- An abandoned run -----

  // No live task has the run: nobody can touch its row without winning a claim first.
  ghost predicate Abandoned(s: State, id: string) {
    forall p :: At(s, p) && (s.procs[p].Executing? || s.procs[p].Finishing?) ==> s.procs[p].job.runId != id
  }

  // The row as it was, or failed by a sweep that found it older than the lease.
  predicate LeftAlone(cfg: Config, row: Row, s: State, id: string) {
    && id in s.rows
    && (s.rows[id] == row || (s.rows[id].status == Failed && s.now > row.updated + cfg.lease))
  }

  lemma StaysAbandoned(cfg: Config, s: State, a: Action, id: string)
    requires Enabled(cfg, s, a) && Abandoned(s, id) && !WinsClaim(cfg, s, a, id)
    ensures Abandoned(Next(cfg, s, a), id)
  {
  }

  lemma StaysLeftAlone(cfg: Config, s: State, a: Action, id: string, row: Row)
    requires Enabled(cfg, s, a) && Abandoned(s, id) && LeftAlone(cfg, row, s, id) && row.status == Running
    requires !WinsClaim(cfg, s, a, id)
    ensures LeftAlone(cfg, row, Next(cfg, s, a), id)
  {
  }

  /** A dead owner's run, whatever everyone else does meanwhile, until a delivery wins it: the row keeps its time; it is
      failed only by a sweep, and by every sweep, after the lease has passed; and while it is running a delivery wins
      its claim exactly from then on. */
  lemma {:induction false} AbandonedUntilTheLease(cfg: Config, states: seq<State>, actions: seq<Action>, k: nat, n: nat, id: string)
    requires IsRun(cfg, states, actions) && k <= n < |states|
    requires id in states[k].rows && states[k].rows[id].status == Running && Abandoned(states[k], id)
    requires forall i :: k <= i < n ==> !WinsClaim(cfg, states[i], actions[i], id)
    ensures Abandoned(states[n], id) && LeftAlone(cfg, states[k].rows[id], states[n], id)
    ensures ClaimWins(states[n].rows, id, cfg.lease, states[n].now)
        <==> states[n].rows[id].status == Running && states[n].now > states[k].rows[id].updated + cfg.lease
    ensures Next(cfg, states[n], SweepRuns).rows[id].status == Failed
        <==> states[n].now > states[k].rows[id].updated + cfg.lease
    decreases n
  {
    if k < n {
      AbandonedUntilTheLease(cfg, states, actions, k, n - 1, id);
      assert StepsAt(cfg, states, actions, n - 1);
      StaysAbandoned(cfg, states[n - 1], actions[n - 1], id);
      StaysLeftAlone(cfg, states[n - 1], actions[n - 1], id, states[k].rows[id]);
    }
    if states[n].rows[id].status == Running {
      AbandonedRun(states[n].rows, id, cfg.lease, states[n].now);
    }
  }
}

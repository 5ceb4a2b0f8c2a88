/**
  Single active execution. The claim is a lease without a fencing token, so exclusion rests on
  timing: the theorems say exactly which timing.
 */
module ProtocolLease {
  import opened RunStore
  import opened Protocol

  ghost predicate ExecutingRun(s: State, p: int, id: string) {
    At(s, p) && s.procs[p].Executing? && s.procs[p].job.runId == id
  }

  ghost predicate WinsClaim(cfg: Config, s: State, a: Action, id: string) {
    && a.ClaimRun? && At(s, a.p) && s.procs[a.p].Delivered? && Handled(cfg, s.procs[a.p].msg)
    && s.procs[a.p].msg.job.runId == id && ClaimWins(s.rows, id, cfg.lease, s.now)
  }

  // At most one live executor per run, and its row is still `running`.
  ghost predicate Exclusive(s: State) {
    && (forall p, id :: ExecutingRun(s, p, id) ==> id in s.rows && s.rows[id].status == Running)
    && (forall p, q, id :: ExecutingRun(s, p, id) && ExecutingRun(s, q, id) ==> p == q)
  }

  // Every live executor's last stored heartbeat is at most a lease old.
  ghost predicate Timely(cfg: Config, s: State) {
    forall p :: At(s, p) && s.procs[p].Executing? ==> s.now - s.procs[p].beat <= cfg.lease
  }

  // What holds with no assumption on timing.
  ghost predicate LeaseInv(s: State) {
    && (forall i :: i in s.rows ==> s.rows[i].updated <= s.now)
    && (forall p, id :: ExecutingRun(s, p, id) ==>
         id in s.rows && s.rows[id].status != Pending && s.procs[p].beat <= s.rows[id].updated)
  }

  // An executor was one before, or has just won its claim.
  lemma ExecutorFrom(cfg: Config, s: State, a: Action, p: int, id: string)
    requires Enabled(cfg, s, a) && ExecutingRun(Next(cfg, s, a), p, id)
    ensures ExecutingRun(s, p, id) || (a == ClaimRun(p) && WinsClaim(cfg, s, a, id))
    ensures Next(cfg, s, a).procs[p].beat == s.now || (ExecutingRun(s, p, id) && Next(cfg, s, a).procs[p].beat == s.procs[p].beat)
    ensures a == ClaimRun(p) || (a.Beat? && a.p == p) || Next(cfg, s, a).procs[p] == s.procs[p]
  {
  }

  lemma LeaseInvStep(cfg: Config, s: State, a: Action)
    requires LeaseInv(s) && Enabled(cfg, s, a)
    ensures LeaseInv(Next(cfg, s, a))
  {
    var s' := Next(cfg, s, a);
    forall p, id | ExecutingRun(s', p, id)
      ensures id in s'.rows && s'.rows[id].status != Pending && s'.procs[p].beat <= s'.rows[id].updated
    {
      ExecutorFrom(cfg, s, a, p, id);
    }
  }

  // The action takes a run from a live executor: a delivery wins its claim, or the sweeper fails it. Both test that
  // the row's heartbeat is older than the lease.
  ghost predicate Steals(cfg: Config, s: State, a: Action) {
    exists p, id :: ExecutingRun(s, p, id) && (WinsClaim(cfg, s, a, id) || (a.SweepRuns? && Sweeps(cfg, s, id)))
  }

  predicate Sweeps(cfg: Config, s: State, id: string) {
    id in s.rows && Stuck(s.rows[id], cfg.lease, s.now)
  }

  lemma {:induction false} NoTheftKeepsExclusion(cfg: Config, s: State, a: Action)
    requires Exclusive(s) && Enabled(cfg, s, a) && !Steals(cfg, s, a)
    ensures Exclusive(Next(cfg, s, a))
  {
    var s' := Next(cfg, s, a);
    forall p, id | ExecutingRun(s', p, id)
      ensures id in s'.rows && s'.rows[id].status == Running
      ensures forall q :: ExecutingRun(s', q, id) ==> p == q
    {
      ExecutorFrom(cfg, s, a, p, id);
      forall q | ExecutingRun(s', q, id) ensures p == q {
        ExecutorFrom(cfg, s, a, q, id);
      }
      if a.Finish? {
        assert ExecutingRun(s, a.p, s.procs[a.p].job.runId);
      }
    }
  }

  lemma TheftBreaksExclusion(cfg: Config, s: State, a: Action)
    requires Enabled(cfg, s, a) && Steals(cfg, s, a)
    ensures !Exclusive(Next(cfg, s, a))
  {
    var s' := Next(cfg, s, a);
    var p, id :| ExecutingRun(s, p, id) && (WinsClaim(cfg, s, a, id) || (a.SweepRuns? && Sweeps(cfg, s, id)));
    assert ExecutingRun(s', p, id);
    if a.ClaimRun? {
      assert ExecutingRun(s', a.p, id);
    } else {
      assert s'.rows[id].status == Failed;
    }
  }

  // A timely executor's row is too fresh to be stolen.
  lemma TimelyNeverStolen(cfg: Config, s: State, a: Action)
    requires LeaseInv(s) && Exclusive(s) && Timely(cfg, s)
    ensures !Steals(cfg, s, a)
  {
  }

  lemma {:induction false} InvariantsHold(cfg: Config, states: seq<State>, actions: seq<Action>, n: nat)
    requires IsRun(cfg, states, actions) && Init(states[0]) && n < |states|
    ensures LeaseInv(states[n])
    ensures (forall i :: 0 <= i < n ==> Timely(cfg, states[i])) ==> Exclusive(states[n])
  {
    if n > 0 {
      InvariantsHold(cfg, states, actions, n - 1);
      assert StepsAt(cfg, states, actions, n - 1);
      LeaseInvStep(cfg, states[n - 1], actions[n - 1]);
      if forall i :: 0 <= i < n ==> Timely(cfg, states[i]) {
        TimelyNeverStolen(cfg, states[n - 1], actions[n - 1]);
        NoTheftKeepsExclusion(cfg, states[n - 1], actions[n - 1]);
      }
    }
  }

  /** Over every interleaving in which no live executor's heartbeat gets older than the lease, at most one live
      executor holds a run. */
  lemma SingleActiveExecution(cfg: Config, states: seq<State>, actions: seq<Action>, n: nat)
    requires IsRun(cfg, states, actions) && Init(states[0]) && n < |states|
    requires forall i :: 0 <= i < n ==> Timely(cfg, states[i])
    ensures Exclusive(states[n])
  {
    InvariantsHold(cfg, states, actions, n);
  }

  /** With no assumption on timing: a run of the system keeps exclusion exactly when none of its actions claims or
      sweeps, its heartbeat older than the lease, a run that has a live executor. */
  lemma {:induction false} ExclusionNeedsTheLease(cfg: Config, states: seq<State>, actions: seq<Action>, n: nat)
    requires IsRun(cfg, states, actions) && Init(states[0]) && n < |states|
    ensures (forall i :: 0 <= i <= n ==> Exclusive(states[i]))
        <==> (forall i :: 0 <= i < n ==> !Steals(cfg, states[i], actions[i]))
  {
    if n > 0 {
      ExclusionNeedsTheLease(cfg, states, actions, n - 1);
      var s, a := states[n - 1], actions[n - 1];
      assert StepsAt(cfg, states, actions, n - 1);
      if Steals(cfg, s, a) {
        TheftBreaksExclusion(cfg, s, a);
      } else if Exclusive(s) {
        NoTheftKeepsExclusion(cfg, s, a);
      }
    }
  }

  // ----- Two claims of one run, without any timing assumption -----

  // Once claimed at time t, a row is never pending again and never older than t.
  predicate ClaimedSince(s: State, id: string, t: int) {
    t <= s.now && id in s.rows && s.rows[id].status != Pending && t <= s.rows[id].updated
  }

  lemma {:induction false} ClaimPersists(cfg: Config, states: seq<State>, actions: seq<Action>, i: nat, n: nat, id: string)
    requires IsRun(cfg, states, actions) && i < n < |states| && WinsClaim(cfg, states[i], actions[i], id)
    ensures ClaimedSince(states[n], id, states[i].now)
    decreases n
  {
    assert StepsAt(cfg, states, actions, n - 1);
    if n > i + 1 {
      ClaimPersists(cfg, states, actions, i, n - 1, id);
    }
  }

  /** Any two successful claims of one run are more than a lease apart, whatever the heartbeats do. */
  lemma ClaimsApart(cfg: Config, states: seq<State>, actions: seq<Action>, i: nat, j: nat, id: string)
    requires IsRun(cfg, states, actions) && i < j < |actions|
    requires WinsClaim(cfg, states[i], actions[i], id) && WinsClaim(cfg, states[j], actions[j], id)
    ensures states[j].now > states[i].now + cfg.lease
  {
    ClaimPersists(cfg, states, actions, i, j, id);
  }

  // ----- Heartbeats one interval apart -----

  // Each live executor attempts a heartbeat no later than one interval after the last attempt, and never
  // misses more than two in a row.
  ghost predicate Disciplined(s: State) {
    forall p :: At(s, p) && s.procs[p].Executing? ==> s.now <= s.procs[p].due && s.procs[p].missed <= 2
  }

  // The next attempt falls due at most missed + 1 intervals after the last stored beat.
  ghost predicate DueInv(cfg: Config, s: State) {
    forall p :: At(s, p) && s.procs[p].Executing? ==>
      s.procs[p].due <= s.procs[p].beat + (s.procs[p].missed + 1) * cfg.interval
  }

  lemma DueInvStep(cfg: Config, s: State, a: Action)
    requires DueInv(cfg, s) && Disciplined(s) && Enabled(cfg, s, a)
    ensures DueInv(cfg, Next(cfg, s, a))
  {
    if a.Beat? && s.procs[a.p].Executing? && !a.stored {
      var x := s.procs[a.p];
      assert (x.missed + 2) * cfg.interval == (x.missed + 1) * cfg.interval + cfg.interval;
    }
  }

  lemma {:induction false} DisciplinedRunIsTimely(cfg: Config, states: seq<State>, actions: seq<Action>, n: nat)
    requires IsRun(cfg, states, actions) && Init(states[0]) && n < |states|
    requires 0 <= cfg.interval && 3 * cfg.interval <= cfg.lease
    requires forall i :: 0 <= i <= n ==> Disciplined(states[i])
    ensures DueInv(cfg, states[n]) && Timely(cfg, states[n])
  {
    if n > 0 {
      DisciplinedRunIsTimely(cfg, states, actions, n - 1);
      assert StepsAt(cfg, states, actions, n - 1);
      DueInvStep(cfg, states[n - 1], actions[n - 1]);
    }
    var s := states[n];
    forall p | At(s, p) && s.procs[p].Executing? ensures s.now - s.procs[p].beat <= cfg.lease {
      assert (s.procs[p].missed + 1) * cfg.interval <= 3 * cfg.interval;
    }
  }
}

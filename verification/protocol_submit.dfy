/** Idempotent submission: any number of interleaved submits with one key make one run. */
module ProtocolSubmit {
  import opened Wrappers
  import opened RunStore
  import opened Protocol
  import opened ProtocolMeasure
  import opened ProtocolDelivery
  import opened Sums
  import Lease = ProtocolLease

  // The id is that of the run stored under the key.
  predicate Stores(rows: Rows, key: Option<string>, id: string) {
    id in rows && rows[id].kind == KIND && rows[id].key == key
  }

  ghost predicate KeyInv(s: State) {
    UniqueKeys(s.rows) && forall p :: At(s, p) ==> HasItsRun(s.rows, s.procs[p])
  }

  predicate HasItsRun(rows: Rows, x: Proc) {
    && (x.Returned? && x.key.Some? && x.key != Some("") ==> Stores(rows, x.key, x.id))
    && (x.Submitting? ==> Stores(rows, x.key, x.job.runId))
  }

  lemma RowIdentityKept(cfg: Config, s: State, a: Action)
    requires Enabled(cfg, s, a)
    ensures forall k, i :: Stores(s.rows, k, i) ==> Stores(Next(cfg, s, a).rows, k, i)
    ensures !a.Insert? && !a.Finish? ==> Next(cfg, s, a).rows.Keys == s.rows.Keys
    ensures a.Finish? && s.procs[a.p].job.runId in s.rows ==> Next(cfg, s, a).rows.Keys == s.rows.Keys
  {
  }

  lemma UniqueKeysStep(cfg: Config, s: State, a: Action)
    requires UniqueKeys(s.rows) && Enabled(cfg, s, a) && Lease.LeaseInv(s)
    ensures UniqueKeys(Next(cfg, s, a).rows)
  {
    var s' := Next(cfg, s, a);
    if a.Insert? {
      CreateFresh(s.rows, a.id, NewRow(KIND, Payload(s.procs[a.p].goal, None), s.procs[a.p].key, s.now));
    } else {
      if a.Finish? {
        assert Lease.ExecutingRun(s, a.p, s.procs[a.p].job.runId);
      }
      forall i, j | i in s'.rows && j in s'.rows && SameKey(s'.rows[i], s'.rows[j]) ensures i == j {
        assert i in s.rows && j in s.rows && SameKey(s.rows[i], s.rows[j]);
      }
    }
  }

  lemma ChangeHasItsRun(cfg: Config, s: State, a: Action)
    requires KeyInv(s) && Enabled(cfg, s, a) && Steps(a)
    ensures var s' := Next(cfg, s, a); a.p < |s'.procs| && HasItsRun(s'.rows, Changed(a, s'))
  {
    if a.Insert? {
      CreateFresh(s.rows, a.id, NewRow(KIND, Payload(s.procs[a.p].goal, None), s.procs[a.p].key, s.now));
    }
  }

  lemma KeyInvStep(cfg: Config, s: State, a: Action)
    requires KeyInv(s) && Enabled(cfg, s, a) && Lease.LeaseInv(s)
    ensures KeyInv(Next(cfg, s, a))
  {
    UniqueKeysStep(cfg, s, a);
    RowIdentityKept(cfg, s, a);
    OneProcessChanges(cfg, s, a, Next(cfg, s, a));
    if Steps(a) {
      ChangeHasItsRun(cfg, s, a);
    }
  }

  lemma {:induction false} KeysHold(cfg: Config, states: seq<State>, actions: seq<Action>, n: nat)
    requires IsRun(cfg, states, actions) && Init(states[0]) && n < |states|
    ensures KeyInv(states[n]) && Lease.LeaseInv(states[n])
  {
    Lease.InvariantsHold(cfg, states, actions, n);
    if n > 0 {
      KeysHold(cfg, states, actions, n - 1);
      assert StepsAt(cfg, states, actions, n - 1);
      KeyInvStep(cfg, states[n - 1], actions[n - 1]);
    }
  }

  /** Along every run at most one row holds a (kind, key) pair, and every submit that returned for a non-empty key
      returned the id of that row. */
  lemma OneRunPerKey(cfg: Config, states: seq<State>, actions: seq<Action>, n: nat, p: nat, q: nat)
    requires IsRun(cfg, states, actions) && Init(states[0]) && n < |states|
    requires At(states[n], p) && At(states[n], q) && states[n].procs[p].Returned? && states[n].procs[q].Returned?
    requires states[n].procs[p].key == states[n].procs[q].key && states[n].procs[p].key.Some?
    requires states[n].procs[p].key != Some("")
    ensures UniqueKeys(states[n].rows)
    ensures states[n].procs[p].id == states[n].procs[q].id
    ensures Stores(states[n].rows, states[n].procs[p].key, states[n].procs[p].id)
  {
    KeysHold(cfg, states, actions, n);
    var s := states[n];
    assert Stores(s.rows, s.procs[p].key, s.procs[p].id) && Stores(s.rows, s.procs[q].key, s.procs[q].id);
    assert SameKey(s.rows[s.procs[p].id], s.rows[s.procs[q].id]);
  }

  /** A submit fails with the integrity error exactly when its key is the empty string and a run already has that
      key: submit treats an empty key as no key, create_run stores it. */
  lemma RefusedOnlyForRepeatedEmptyKey(cfg: Config, s: State, p: nat, id: string)
    requires UniqueKeys(s.rows) && Enabled(cfg, s, Insert(p, id))
    ensures Next(cfg, s, Insert(p, id)).procs[p].Refused? <==>
      s.procs[p].key == Some("") && KeyTaken(s.rows, KIND, "")
    ensures Next(cfg, s, Insert(p, id)).procs[p].Submitting? <==>
      !(s.procs[p].key.Some? && KeyTaken(s.rows, KIND, s.procs[p].key.value))
  {
    CreateFresh(s.rows, id, NewRow(KIND, Payload(s.procs[p].goal, None), s.procs[p].key, s.now));
  }

  // ----- The inserting caller enqueues once -----

  function Holds(id: string): Proc -> int {
    (x: Proc) => if x.Submitting? && x.job.runId == id then 1 else 0
  }

  function Unpushed(id: string): Weights {
    Weights(Nothing(), Nothing(), Nothing(), Holds(id))
  }

  function SubmitPushes(id: string): (State, Action) -> int {
    (s: State, a: Action) => if a.Push? && At(s, a.p) then Holds(id)(s.procs[a.p]) else 0
  }

  function SubmitCrashes(id: string): (State, Action) -> int {
    (s: State, a: Action) => if a.Crash? && At(s, a.p) then Holds(id)(s.procs[a.p]) else 0
  }

  function Stored(id: string, s: State): int {
    if id in s.rows then 1 else 0
  }

  lemma UnpushedStep(cfg: Config, s: State, a: Action, id: string)
    requires UniqueKeys(s.rows) && Lease.LeaseInv(s) && Enabled(cfg, s, a)
    ensures Delta(Unpushed(id), cfg, s, a)
      == Stored(id, Next(cfg, s, a)) - Stored(id, s) - SubmitPushes(id)(s, a) - SubmitCrashes(id)(s, a)
  {
    RowIdentityKept(cfg, s, a);
    if a.Insert? {
      CreateFresh(s.rows, a.id, NewRow(KIND, Payload(s.procs[a.p].goal, None), s.procs[a.p].key, s.now));
    } else if a.Finish? {
      assert Lease.ExecutingRun(s, a.p, s.procs[a.p].job.runId);
    }
  }

  lemma UnpushedAfter(cfg: Config, states: seq<State>, actions: seq<Action>, i: nat, id: string)
    requires IsRun(cfg, states, actions) && i < |actions| && UniqueKeys(states[i].rows) && Lease.LeaseInv(states[i])
    ensures Measure(Unpushed(id), states[i + 1]) == Measure(Unpushed(id), states[i])
      + Stored(id, states[i + 1]) - Stored(id, states[i])
      - SubmitPushes(id)(states[i], actions[i]) - SubmitCrashes(id)(states[i], actions[i])
  {
    assert StepsAt(cfg, states, actions, i);
    MeasureStep(Unpushed(id), cfg, states[i], actions[i]);
    UnpushedStep(cfg, states[i], actions[i], id);
  }

  // The submitters between their insert and their push.
  function InFlight(id: string, s: State): int {
    Sum(Holds(id), s.procs)
  }

  lemma InFlightIsUnpushed(id: string, s: State)
    ensures Measure(Unpushed(id), s) == InFlight(id, s)
  {
    SumOfNothing(s.main);
    SumOfNothing(s.processing);
    SumOfNothing(s.dead);
  }

  /** For every run id: its submitter's enqueues, its crashes before the enqueue and its submits still to enqueue add
      up to one if the run was created during this run of the system, and to zero otherwise. So the inserting caller
      enqueues exactly once unless it crashes first, and no other caller does. */
  lemma {:induction false} EnqueuedOnce(cfg: Config, states: seq<State>, actions: seq<Action>, n: nat, id: string)
    requires IsRun(cfg, states, actions) && Init(states[0]) && n < |states|
    ensures Total(SubmitPushes(id), states, actions, n) + Total(SubmitCrashes(id), states, actions, n)
      + InFlight(id, states[n]) == Stored(id, states[n]) - Stored(id, states[0])
  {
    InFlightIsUnpushed(id, states[n]);
    if n > 0 {
      EnqueuedOnce(cfg, states, actions, n - 1, id);
      KeysHold(cfg, states, actions, n - 1);
      InFlightIsUnpushed(id, states[n - 1]);
      UnpushedAfter(cfg, states, actions, n - 1, id);
    }
  }
}

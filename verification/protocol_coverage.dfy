/** No pending run is lost: some copy of its job stays within reach of a worker. */
module ProtocolCoverage {
  import opened RunStore
  import opened JobQueue
  import opened Protocol
  import opened ProtocolMeasure
  import opened Sums

  // The copies a process holds that are on no list.
  function Hand(x: Proc): seq<Message> {
    match x
    case Submitting(_, job) => [Encoded(job)]
    case Reinserting(m) => [m]
    case Reconciling(todo) => todo
    case _ => []
  }

  predicate IsCopy(cfg: Config, id: string, m: Message) {
    Handled(cfg, m) && m.job.runId == id
  }

  predicate HasCopy(cfg: Config, id: string, ms: seq<Message>) {
    exists m :: m in ms && IsCopy(cfg, id, m)
  }

  ghost predicate Covered(cfg: Config, id: string, s: State) {
    || HasCopy(cfg, id, s.main) || HasCopy(cfg, id, s.processing) || HasCopy(cfg, id, s.dead)
    || exists x :: x in s.procs && HasCopy(cfg, id, Hand(x))
  }

  // A pending run whose kind has a handler.
  predicate Waiting(cfg: Config, id: string, s: State) {
    id in s.rows && s.rows[id].status == Pending && s.rows[id].kind in cfg.kinds
  }

  // ----- Coverage as a positive count -----

  function CopyWeight(cfg: Config, id: string): Message -> int {
    m => if IsCopy(cfg, id, m) then 1 else 0
  }

  function HandWeight(cfg: Config, id: string): Proc -> int {
    x => Sum(CopyWeight(cfg, id), Hand(x))
  }

  function CopyWeights(cfg: Config, id: string): Weights {
    Weights(CopyWeight(cfg, id), CopyWeight(cfg, id), CopyWeight(cfg, id), HandWeight(cfg, id))
  }

  lemma CopyCount(cfg: Config, id: string, ms: seq<Message>)
    ensures Sum(CopyWeight(cfg, id), ms) >= 0
    ensures Sum(CopyWeight(cfg, id), ms) > 0 <==> HasCopy(cfg, id, ms)
  {
    SumNonNegative(CopyWeight(cfg, id), ms);
    SumPositive(CopyWeight(cfg, id), ms);
    if HasCopy(cfg, id, ms) {
      var m :| m in ms && IsCopy(cfg, id, m);
      assert CopyWeight(cfg, id)(m) > 0;
    }
  }

  lemma CoveredCount(cfg: Config, id: string, s: State)
    ensures Covered(cfg, id, s) <==> Measure(CopyWeights(cfg, id), s) > 0
  {
    CopyCount(cfg, id, s.main);
    CopyCount(cfg, id, s.processing);
    CopyCount(cfg, id, s.dead);
    forall x: Proc ensures HandWeight(cfg, id)(x) >= 0 && (HandWeight(cfg, id)(x) > 0 <==> HasCopy(cfg, id, Hand(x))) {
      CopyCount(cfg, id, Hand(x));
    }
    SumNonNegative(HandWeight(cfg, id), s.procs);
    SumPositive(HandWeight(cfg, id), s.procs);
  }

  // ----- Invariants -----

  // The messages a process carries, held or not.
  function Carried(x: Proc): seq<Message> {
    match x
    case Delivered(m) => [m]
    case Executing(job, _, _, _) => [Encoded(job)]
    case Finishing(job) => [Encoded(job)]
    case Acking(m) => [m]
    case _ => Hand(x)
  }

  predicate AllKnown(cfg: Config, rows: Rows, ms: seq<Message>) {
    forall m :: m in ms && Handled(cfg, m) ==> m.job.runId in rows
  }

  // A handled job names a stored run.
  ghost predicate Known(cfg: Config, s: State) {
    && AllKnown(cfg, s.rows, s.main) && AllKnown(cfg, s.rows, s.processing) && AllKnown(cfg, s.rows, s.dead)
    && forall p :: At(s, p) ==> AllKnown(cfg, s.rows, Carried(s.procs[p]))
  }

  // Past its claim.
  predicate Claimed(x: Proc) {
    x.Executing? || x.Finishing? || x.Acking?
  }

  // Past its claim, a task's run is no longer pending.
  ghost predicate Settled(cfg: Config, s: State) {
    forall p, m :: At(s, p) && Claimed(s.procs[p]) && m in Carried(s.procs[p]) && Handled(cfg, m) ==>
      m.job.runId in s.rows && s.rows[m.job.runId].status != Pending
  }

  // Initially, and after any earlier processes have died.
  ghost predicate InitKnown(cfg: Config, s: State) {
    Init(s) && Known(cfg, s)
  }

  lemma {:induction false} JobsForKnown(cfg: Config, rows: Rows, ids: seq<string>)
    requires forall k :: 0 <= k < |ids| ==> ids[k] in rows
    ensures AllKnown(cfg, rows, JobsFor(rows, cfg.kinds, ids))
    ensures forall id :: HasCopy(cfg, id, JobsFor(rows, cfg.kinds, ids)) <==> id in ids && rows[id].kind in cfg.kinds
  {
    if ids != [] {
      JobsForKnown(cfg, rows, ids[1..]);
      var rest, all := JobsFor(rows, cfg.kinds, ids[1..]), JobsFor(rows, cfg.kinds, ids);
      forall id ensures HasCopy(cfg, id, all) <==> id in ids && rows[id].kind in cfg.kinds {
        if id == ids[0] && rows[id].kind in cfg.kinds {
          assert IsCopy(cfg, id, all[0]);
        } else {
          assert id in ids && rows[id].kind in cfg.kinds <==> id in ids[1..] && rows[id].kind in cfg.kinds;
          assert HasCopy(cfg, id, all) <==> HasCopy(cfg, id, rest);
        }
      }
    }
  }

  lemma RowsKept(cfg: Config, s: State, a: Action)
    requires Enabled(cfg, s, a)
    ensures forall i :: i in s.rows ==> i in Next(cfg, s, a).rows
    ensures forall i :: i in s.rows && s.rows[i].status != Pending ==> Next(cfg, s, a).rows[i].status != Pending
    ensures forall i :: i in s.rows ==> Next(cfg, s, a).rows[i].kind == s.rows[i].kind && Next(cfg, s, a).rows[i].key == s.rows[i].key
  {
  }

  lemma KnownLists(cfg: Config, s: State, a: Action)
    requires Known(cfg, s) && Enabled(cfg, s, a)
    ensures var s' := Next(cfg, s, a);
      AllKnown(cfg, s'.rows, s'.main) && AllKnown(cfg, s'.rows, s'.processing) && AllKnown(cfg, s'.rows, s'.dead)
  {
    var s' := Next(cfg, s, a);
    RowsKept(cfg, s, a);
    if a.Push? || a.PushOrphan? || a.Requeue? {
      assert AllKnown(cfg, s.rows, Carried(s.procs[a.p]));
    } else if a.Ack? {
      if s.procs[a.p].msg in s.processing {
        var i := RemoveFirstSplit(s.processing, s.procs[a.p].msg);
      } else {
        RemoveAbsent(s.processing, s.procs[a.p].msg);
      }
    }
  }

  lemma KnownProcs(cfg: Config, s: State, a: Action, p: int)
    requires Known(cfg, s) && Enabled(cfg, s, a) && At(Next(cfg, s, a), p)
    ensures AllKnown(cfg, Next(cfg, s, a).rows, Carried(Next(cfg, s, a).procs[p]))
  {
    RowsKept(cfg, s, a);
    var x := Next(cfg, s, a).procs[p];
    if At(s, p) && x == s.procs[p] {
    } else if a.ListRuns? {
      JobsForKnown(cfg, s.rows, a.ids);
    } else {
      CarriedFrom(cfg, s, a, p);
    }
  }

  // A process that changed carries what it carried, an element of a list, or the job just inserted.
  lemma CarriedFrom(cfg: Config, s: State, a: Action, p: int)
    requires Enabled(cfg, s, a) && !a.ListRuns? && At(Next(cfg, s, a), p)
    requires !(At(s, p) && Next(cfg, s, a).procs[p] == s.procs[p])
    ensures forall m :: m in Carried(Next(cfg, s, a).procs[p]) ==>
      || m in s.main || m in s.processing || (At(s, p) && m in Carried(s.procs[p]))
      || (m.Encoded? && m.job.runId in Next(cfg, s, a).rows)
  {
  }

  lemma KnownStep(cfg: Config, s: State, a: Action)
    requires Known(cfg, s) && Enabled(cfg, s, a)
    ensures Known(cfg, Next(cfg, s, a))
  {
    KnownLists(cfg, s, a);
    forall p | At(Next(cfg, s, a), p) ensures AllKnown(cfg, Next(cfg, s, a).rows, Carried(Next(cfg, s, a).procs[p])) {
      KnownProcs(cfg, s, a, p);
    }
  }

  // A process becomes claimed only through its claim, and keeps its message from then on.
  lemma ClaimedFrom(cfg: Config, s: State, a: Action, p: int)
    requires Enabled(cfg, s, a) && At(Next(cfg, s, a), p) && Claimed(Next(cfg, s, a).procs[p])
    ensures At(s, p) && (Claimed(s.procs[p]) || a == ClaimRun(p))
    ensures Carried(Next(cfg, s, a).procs[p]) == Carried(s.procs[p])
  {
  }

  lemma SettledStep(cfg: Config, s: State, a: Action)
    requires Known(cfg, s) && Settled(cfg, s) && Enabled(cfg, s, a)
    ensures Settled(cfg, Next(cfg, s, a))
  {
    var s' := Next(cfg, s, a);
    RowsKept(cfg, s, a);
    forall p, m | At(s', p) && Claimed(s'.procs[p]) && m in Carried(s'.procs[p]) && Handled(cfg, m)
      ensures m.job.runId in s'.rows && s'.rows[m.job.runId].status != Pending
    {
      ClaimedFrom(cfg, s, a, p);
      assert AllKnown(cfg, s.rows, Carried(s.procs[p])) && m in Carried(s.procs[p]);
    }
  }

  lemma {:induction false} KnownAndSettled(cfg: Config, states: seq<State>, actions: seq<Action>, n: nat)
    requires IsRun(cfg, states, actions) && InitKnown(cfg, states[0]) && n < |states|
    ensures Known(cfg, states[n]) && Settled(cfg, states[n])
  {
    if n > 0 {
      KnownAndSettled(cfg, states, actions, n - 1);
      assert StepsAt(cfg, states, actions, n - 1);
      KnownStep(cfg, states[n - 1], actions[n - 1]);
      SettledStep(cfg, states[n - 1], actions[n - 1]);
    }
  }

  // ----- The theorem -----

  // The action is a crash of a process holding a copy that is on no list.
  ghost predicate Drops(cfg: Config, id: string, s: State, a: Action) {
    a.Crash? && At(s, a.p) && HasCopy(cfg, id, Hand(s.procs[a.p]))
  }

  ghost predicate CoveredIfWaiting(cfg: Config, id: string, s: State) {
    Waiting(cfg, id, s) ==> Covered(cfg, id, s)
  }

  lemma PopDelta(cfg: Config, id: string, s: State, p: nat)
    requires Enabled(cfg, s, PopOrphan(p))
    ensures Delta(CopyWeights(cfg, id), cfg, s, PopOrphan(p)) == 0
  {
    if s.processing != [] {
      SumOne(CopyWeight(cfg, id), s.processing[0]);
    }
  }

  lemma PushBackDelta(cfg: Config, id: string, s: State, p: nat)
    requires Enabled(cfg, s, PushOrphan(p))
    ensures Delta(CopyWeights(cfg, id), cfg, s, PushOrphan(p)) == 0
  {
    SumOne(CopyWeight(cfg, id), s.procs[p].msg);
  }

  lemma ListingDelta(cfg: Config, id: string, s: State, p: nat, ids: seq<string>)
    requires Enabled(cfg, s, ListRuns(p, ids))
    ensures Delta(CopyWeights(cfg, id), cfg, s, ListRuns(p, ids)) >= 0
  {
    CopyCount(cfg, id, JobsFor(s.rows, cfg.kinds, ids));
  }

  lemma RequeueDelta(cfg: Config, id: string, s: State, p: nat)
    requires Enabled(cfg, s, Requeue(p))
    ensures Delta(CopyWeights(cfg, id), cfg, s, Requeue(p)) == 0
  {
  }

  // Reclaim and reconcile move copies between hands and lists without losing any.
  lemma StartupDelta(cfg: Config, id: string, s: State, a: Action)
    requires Enabled(cfg, s, a) && (a.PopOrphan? || a.PushOrphan? || a.ListRuns? || a.Requeue?)
    ensures Delta(CopyWeights(cfg, id), cfg, s, a) >= 0
  {
    match a {
      case PopOrphan(p) => PopDelta(cfg, id, s, p);
      case PushOrphan(p) => PushBackDelta(cfg, id, s, p);
      case ListRuns(p, ids) => ListingDelta(cfg, id, s, p, ids);
      case Requeue(p) => RequeueDelta(cfg, id, s, p);
    }
  }

  lemma CoverageDelta(cfg: Config, id: string, s: State, a: Action)
    requires Enabled(cfg, s, a) && Settled(cfg, s) && !Drops(cfg, id, s, a)
    requires Waiting(cfg, id, Next(cfg, s, a))
    ensures Delta(CopyWeights(cfg, id), cfg, s, a) >= 0
  {
    var w := CopyWeight(cfg, id);
    if a.PopOrphan? || a.PushOrphan? || a.ListRuns? || a.Requeue? {
      StartupDelta(cfg, id, s, a);
    } else if a.Push? {
      SumOne(w, Encoded(s.procs[a.p].job));
    } else if a.Insert? {
      CopyCount(cfg, id, Hand(Next(cfg, s, a).procs[a.p]));
    } else if a.Crash? {
      CopyCount(cfg, id, Hand(s.procs[a.p]));
    } else if a.Ack? {
      assert s.procs[a.p].msg in Carried(s.procs[a.p]);
      RowsKept(cfg, s, a);
    }
  }

  lemma CoveredStep(cfg: Config, id: string, s: State, a: Action)
    requires KIND in cfg.kinds
    requires Enabled(cfg, s, a) && Settled(cfg, s) && !Drops(cfg, id, s, a) && CoveredIfWaiting(cfg, id, s)
    ensures CoveredIfWaiting(cfg, id, Next(cfg, s, a))
  {
    var s' := Next(cfg, s, a);
    if Waiting(cfg, id, s') {
      if Waiting(cfg, id, s) {
        CoveredCount(cfg, id, s);
        CoveredCount(cfg, id, s');
        CoverageDelta(cfg, id, s, a);
        MeasureStep(CopyWeights(cfg, id), cfg, s, a);
      } else {
        assert a.Insert? && a.id == id && s'.procs[a.p].Submitting?;
        assert IsCopy(cfg, id, Hand(s'.procs[a.p])[0]);
        assert s'.procs[a.p] in s'.procs;
      }
    }
  }

  lemma {:induction false} CoveredFrom(cfg: Config, id: string, states: seq<State>, actions: seq<Action>, k: nat, n: nat)
    requires KIND in cfg.kinds && IsRun(cfg, states, actions) && InitKnown(cfg, states[0]) && k <= n < |states|
    requires CoveredIfWaiting(cfg, id, states[k])
    requires forall i :: k <= i < n ==> !Drops(cfg, id, states[i], actions[i])
    ensures CoveredIfWaiting(cfg, id, states[n])
    decreases n
  {
    if k < n {
      CoveredFrom(cfg, id, states, actions, k, n - 1);
      KnownAndSettled(cfg, states, actions, n - 1);
      assert StepsAt(cfg, states, actions, n - 1);
      CoveredStep(cfg, id, states[n - 1], actions[n - 1]);
    }
  }

  /** A pending run keeps a copy of its job on a list or in a live process's hands, through every interleaving of
      submits, deliveries, reclaims and crashes, unless a crash drops a copy in hand. */
  lemma NoPendingRunLost(cfg: Config, id: string, states: seq<State>, actions: seq<Action>, n: nat)
    requires KIND in cfg.kinds && IsRun(cfg, states, actions) && InitKnown(cfg, states[0]) && n < |states|
    requires CoveredIfWaiting(cfg, id, states[0])
    requires forall i :: 0 <= i < n ==> !Drops(cfg, id, states[i], actions[i])
    ensures Waiting(cfg, id, states[n]) ==> Covered(cfg, id, states[n])
  {
    CoveredFrom(cfg, id, states, actions, 0, n);
  }

  /** The exception is real: a crash loses the run exactly when nobody else has a copy. */
  lemma CrashLosesTheOnlyCopy(cfg: Config, id: string, s: State, p: nat)
    requires At(s, p)
    ensures Covered(cfg, id, Next(cfg, s, Crash(p))) <==>
      || HasCopy(cfg, id, s.main) || HasCopy(cfg, id, s.processing) || HasCopy(cfg, id, s.dead)
      || exists q :: At(s, q) && q != p && HasCopy(cfg, id, Hand(s.procs[q]))
  {
    var s' := Next(cfg, s, Crash(p));
    forall x | x in s'.procs && HasCopy(cfg, id, Hand(x))
      ensures exists q :: At(s, q) && q != p && HasCopy(cfg, id, Hand(s.procs[q]))
    {
      var q :| 0 <= q < |s'.procs| && s'.procs[q] == x;
      assert At(s, q) && q != p && s.procs[q] == x;
    }
    forall q | At(s, q) && q != p && HasCopy(cfg, id, Hand(s.procs[q])) ensures s.procs[q] in s'.procs {
      assert s'.procs[q] == s.procs[q];
    }
  }

  /** Exactly what a listing restores: after it a waiting run has a copy iff it had one before or is listed. */
  lemma ListingCoversIff(cfg: Config, id: string, s: State, p: nat, ids: seq<string>)
    requires Enabled(cfg, s, ListRuns(p, ids)) && Waiting(cfg, id, s)
    ensures Covered(cfg, id, Next(cfg, s, ListRuns(p, ids))) <==> Covered(cfg, id, s) || id in ids
  {
    var s' := Next(cfg, s, ListRuns(p, ids));
    JobsForKnown(cfg, s.rows, ids);
    assert Hand(s'.procs[p]) == JobsFor(s.rows, cfg.kinds, ids) && Hand(s.procs[p]) == [];
    forall x | x in s.procs && HasCopy(cfg, id, Hand(x)) ensures x in s'.procs {
      var q :| 0 <= q < |s.procs| && s.procs[q] == x;
      assert s'.procs[q] == x;
    }
    forall x | x in s'.procs && HasCopy(cfg, id, Hand(x)) ensures x in s.procs || id in ids {
      var q :| 0 <= q < |s'.procs| && s'.procs[q] == x;
      assert q != p ==> s.procs[q] == x;
    }
    if id in ids {
      assert s'.procs[p] in s'.procs;
    }
  }

  /** One listing restores a waiting run, whatever was lost before it, if it is listed, as it is with at most 1000
      non-terminal runs; and the run then stays covered until a crash drops a copy in hand. */
  lemma ReconcileRestores(cfg: Config, id: string, states: seq<State>, actions: seq<Action>, k: nat, n: nat)
    requires KIND in cfg.kinds && IsRun(cfg, states, actions) && InitKnown(cfg, states[0]) && k < n < |states|
    requires actions[k].ListRuns? && (id in actions[k].ids || |NonTerminal(states[k].rows)| <= 1000)
    requires forall i :: k < i < n ==> !Drops(cfg, id, states[i], actions[i])
    ensures Waiting(cfg, id, states[n]) ==> Covered(cfg, id, states[n])
  {
    var s, a := states[k], actions[k];
    assert StepsAt(cfg, states, actions, k);
    if Waiting(cfg, id, s) {
      if |NonTerminal(s.rows)| <= 1000 {
        ListingComplete(s.rows, LIST_LIMIT, a.ids);
        assert id in NonTerminal(s.rows);
      }
      ListingCoversIff(cfg, id, s, a.p, a.ids);
    }
    CoveredFrom(cfg, id, states, actions, k + 1, n);
  }
}

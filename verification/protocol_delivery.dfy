/**
  Queue copies are conserved, and each is delivered a bounded number of times. Copies are counted by
  value with the attempts erased, since equal messages have no identity of their own.
 */
module ProtocolDelivery {
  import opened RunStore
  import opened JobQueue
  import opened Protocol
  import opened ProtocolMeasure
  import opened Sums

  function Is(v: Message): Message -> int {
    m => if Erase(m) == v then 1 else 0
  }

  // A weight for the message a reclaimer has in hand between LPOP and RPUSH.
  function InReclaim(f: Message -> int): Proc -> int {
    (x: Proc) => if x.Reinserting? then f(x.msg) else 0
  }

  // ----- What one action pushes, delivers, acknowledges and loses -----

  function PushedBy(v: Message): (State, Action) -> int {
    (s: State, a: Action) =>
      if a.Push? && At(s, a.p) && s.procs[a.p].Submitting? then Is(v)(Encoded(s.procs[a.p].job))
      else if a.Requeue? && At(s, a.p) && s.procs[a.p].Reconciling? && s.procs[a.p].todo != [] then Is(v)(s.procs[a.p].todo[0])
      else 0
  }

  function DeliveredBy(v: Message): (State, Action) -> int {
    (s: State, a: Action) => if a.Deliver? && s.main != [] then Is(v)(s.main[|s.main| - 1]) else 0
  }

  function AckedBy(v: Message): (State, Action) -> int {
    (s: State, a: Action) =>
      if a.Ack? && At(s, a.p) && s.procs[a.p].Acking? && s.procs[a.p].msg in s.processing then Is(v)(s.procs[a.p].msg) else 0
  }

  function LostBy(v: Message): (State, Action) -> int {
    (s: State, a: Action) => if a.Crash? && At(s, a.p) then InReclaim(Is(v))(s.procs[a.p]) else 0
  }

  // The total of one of these over the first n actions of a run.
  function Total(of: (State, Action) -> int, states: seq<State>, actions: seq<Action>, n: nat): int
    requires n <= |actions| && n <= |states|
  {
    if n == 0 then 0 else Total(of, states, actions, n - 1) + of(states[n - 1], actions[n - 1])
  }

  // ----- Conservation -----

  function Everywhere(v: Message): Weights {
    Weights(Is(v), Is(v), Is(v), InReclaim(Is(v)))
  }

  // The copies of v on the three lists and in reclaimers' hands.
  function Copies(v: Message, s: State): int {
    Measure(Everywhere(v), s)
  }

  /** Every queue copy ever pushed is still on a list or in a reclaimer's hand, was removed by an ack, or was lost
      to a crash inside reclaim: nothing is duplicated and nothing else disappears. */
  lemma {:induction false} CopiesConserved(cfg: Config, v: Message, states: seq<State>, actions: seq<Action>, n: nat)
    requires IsRun(cfg, states, actions) && n < |states|
    ensures Copies(v, states[n])
      + Total(AckedBy(v), states, actions, n)
      + Total(LostBy(v), states, actions, n)
      == Copies(v, states[0]) + Total(PushedBy(v), states, actions, n)
  {
    if n > 0 {
      CopiesConserved(cfg, v, states, actions, n - 1);
      assert StepsAt(cfg, states, actions, n - 1);
      var s, a := states[n - 1], actions[n - 1];
      MeasureStep(Everywhere(v), cfg, s, a);
      CopiesStep(cfg, v, s, a);
    }
  }

  lemma CopiesStep(cfg: Config, v: Message, s: State, a: Action)
    requires Enabled(cfg, s, a)
    ensures Delta(Everywhere(v), cfg, s, a) == PushedBy(v)(s, a) - AckedBy(v)(s, a) - LostBy(v)(s, a)
  {
  }

  // ----- The attempts bound -----

  predicate WithinLimit(ms: seq<Message>) {
    forall m :: m in ms && m.Encoded? ==> m.job.attempts <= MAX_ATTEMPTS
  }

  predicate NewJobs(ms: seq<Message>) {
    forall m :: m in ms ==> m.Encoded? && m.job.attempts == 0
  }

  // No message past the limit is on the main or processing list, and jobs are pushed with no attempts.
  ghost predicate Bounded(s: State) {
    && WithinLimit(s.main) && WithinLimit(s.processing)
    && forall p :: At(s, p) ==> BoundedProc(s.procs[p])
  }

  predicate BoundedProc(x: Proc) {
    && (x.Reinserting? ==> WithinLimit([x.msg]))
    && (x.Submitting? ==> x.job.attempts == 0)
    && (x.Reconciling? ==> NewJobs(x.todo))
  }

  lemma {:induction false} JobsForNew(rows: Rows, kinds: set<string>, ids: seq<string>)
    requires forall k :: 0 <= k < |ids| ==> ids[k] in rows
    ensures NewJobs(JobsFor(rows, kinds, ids))
  {
    if ids != [] {
      JobsForNew(rows, kinds, ids[1..]);
    }
  }

  lemma BoundedLists(cfg: Config, s: State, a: Action)
    requires Bounded(s) && Enabled(cfg, s, a)
    ensures WithinLimit(Next(cfg, s, a).main) && WithinLimit(Next(cfg, s, a).processing)
  {
    if a.Ack? {
      if s.procs[a.p].msg in s.processing {
        var i := RemoveFirstSplit(s.processing, s.procs[a.p].msg);
      } else {
        RemoveAbsent(s.processing, s.procs[a.p].msg);
      }
    }
  }

  lemma BoundedChange(cfg: Config, s: State, a: Action)
    requires Bounded(s) && Enabled(cfg, s, a) && Steps(a)
    ensures var s' := Next(cfg, s, a);
            |s'.procs| >= |s.procs| && |s'.procs| > 0 && a.p < |s'.procs| && BoundedProc(Changed(a, s'))
  {
    if a.ListRuns? {
      JobsForNew(s.rows, cfg.kinds, a.ids);
    }
  }

  lemma BoundedStep(cfg: Config, s: State, a: Action)
    requires Bounded(s) && Enabled(cfg, s, a)
    ensures Bounded(Next(cfg, s, a))
  {
    BoundedLists(cfg, s, a);
    OneProcessChanges(cfg, s, a, Next(cfg, s, a));
    if Steps(a) {
      BoundedChange(cfg, s, a);
    }
  }

  /** Along every run no message on the main or processing list has more than 5 attempts. */
  lemma {:induction false} AttemptsBounded(cfg: Config, states: seq<State>, actions: seq<Action>, n: nat)
    requires IsRun(cfg, states, actions) && Init(states[0]) && n < |states|
    requires WithinLimit(states[0].main) && WithinLimit(states[0].processing)
    ensures Bounded(states[n])
  {
    if n > 0 {
      AttemptsBounded(cfg, states, actions, n - 1);
      assert StepsAt(cfg, states, actions, n - 1);
      BoundedStep(cfg, states[n - 1], actions[n - 1]);
    }
  }

  // ----- The delivery bound -----

  // How often a message with these attempts can be delivered again once it is on the main list.
  function Remaining(m: Message): int {
    if m.Encoded? then MAX_ATTEMPTS + 1 - m.job.attempts else 1
  }

  function Future(v: Message): Message -> int {
    m => if Erase(m) == v then Remaining(m) else 0
  }

  function FutureDelivered(v: Message): Message -> int {
    m => if Erase(m) == v then Remaining(m) - 1 else 0
  }

  function Nothing(): Message -> int {
    m => 0
  }

  function Budget(v: Message): Weights {
    Weights(Future(v), FutureDelivered(v), Nothing(), InReclaim(FutureDelivered(v)))
  }

  // The deliveries of v the present copies still allow.
  function Allowed(v: Message, s: State): int {
    Measure(Budget(v), s)
  }

  lemma {:induction false} SumOfNothing(ms: seq<Message>)
    ensures Sum(Nothing(), ms) == 0
  {
    if ms != [] {
      SumOfNothing(ms[1..]);
    }
  }

  lemma AllowedNonNegative(v: Message, s: State)
    requires Bounded(s)
    ensures Allowed(v, s) >= 0
  {
    SumNonNegative(Future(v), s.main);
    SumNonNegative(FutureDelivered(v), s.processing);
    SumOfNothing(s.dead);
    forall x | x in s.procs ensures InReclaim(FutureDelivered(v))(x) >= 0 {
      var p :| 0 <= p < |s.procs| && s.procs[p] == x;
      assert At(s, p);
      if x.Reinserting? {
        assert x.msg in [x.msg];
      }
    }
    SumNonNegative(InReclaim(FutureDelivered(v)), s.procs);
  }

  // A push grants six deliveries.
  lemma PushGrants(cfg: Config, v: Message, s: State, a: Action)
    requires Bounded(s) && Enabled(cfg, s, a) && (a.Push? || a.Requeue?)
    ensures Delta(Budget(v), cfg, s, a) == 6 * PushedBy(v)(s, a)
  {
    if a.Push? {
      assert Future(v)(Encoded(s.procs[a.p].job)) == 6 * Is(v)(Encoded(s.procs[a.p].job));
    } else if s.procs[a.p].todo != [] {
      var m := s.procs[a.p].todo[0];
      assert m in s.procs[a.p].todo && Future(v)(m) == 6 * Is(v)(m);
    }
  }

  lemma AllowedStep(cfg: Config, v: Message, s: State, a: Action)
    requires Bounded(s) && Enabled(cfg, s, a)
    ensures Delta(Budget(v), cfg, s, a) <= 6 * PushedBy(v)(s, a) - DeliveredBy(v)(s, a)
  {
    if a.Push? || a.Requeue? {
      PushGrants(cfg, v, s, a);
    } else if a.PushOrphan? || (a.Crash? && s.procs[a.p].Reinserting?) {
      assert s.procs[a.p].msg in [s.procs[a.p].msg];
    }
  }

  lemma AllowedAfter(cfg: Config, v: Message, states: seq<State>, actions: seq<Action>, i: nat)
    requires IsRun(cfg, states, actions) && i < |actions| && Bounded(states[i])
    ensures Allowed(v, states[i + 1]) <= Allowed(v, states[i]) + 6 * PushedBy(v)(states[i], actions[i])
      - DeliveredBy(v)(states[i], actions[i])
  {
    assert StepsAt(cfg, states, actions, i);
    MeasureStep(Budget(v), cfg, states[i], actions[i]);
    AllowedStep(cfg, v, states[i], actions[i]);
  }

  /** Each pushed copy is delivered at most 6 times: over any run, the deliveries of v, together with those the
      remaining copies still allow, are at most 6 for each push of v and what the initial copies allowed. */
  lemma {:induction false} DeliveriesBounded(cfg: Config, v: Message, states: seq<State>, actions: seq<Action>, n: nat)
    requires IsRun(cfg, states, actions) && Init(states[0]) && n < |states|
    requires WithinLimit(states[0].main) && WithinLimit(states[0].processing)
    ensures Allowed(v, states[n]) >= 0
    ensures Total(DeliveredBy(v), states, actions, n) + Allowed(v, states[n])
      <= Allowed(v, states[0]) + 6 * Total(PushedBy(v), states, actions, n)
  {
    AttemptsBounded(cfg, states, actions, n);
    AllowedNonNegative(v, states[n]);
    if n > 0 {
      DeliveriesBounded(cfg, v, states, actions, n - 1);
      AttemptsBounded(cfg, states, actions, n - 1);
      AllowedAfter(cfg, v, states, actions, n - 1);
    }
  }

  // ----- Reclaim makes progress -----

  function Lives(): Message -> int {
    m => Remaining(m)
  }

  function AllLives(): Weights {
    Weights(Lives(), Lives(), Nothing(), InReclaim(Lives()))
  }

  /** The attempts left over all live copies fall by exactly one each time reclaim pushes an orphan, whether it goes
      back to the main list or to the dead-letter list. */
  lemma ReclaimUsesAttempts(cfg: Config, s: State, p: nat)
    requires Bounded(s) && At(s, p) && s.procs[p].Reinserting?
    ensures Measure(AllLives(), Next(cfg, s, PushOrphan(p))) == Measure(AllLives(), s) - 1
  {
    assert s.procs[p].msg in [s.procs[p].msg];
    MeasureStep(AllLives(), cfg, s, PushOrphan(p));
  }
}

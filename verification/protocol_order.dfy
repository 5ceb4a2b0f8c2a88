/**
  Delivery order with one worker process. New jobs enter the main list on the left and are taken from
  its right end onto the left end of the processing list, so `main ++ in hand ++ processing` is the
  history of arrivals, newest first, and reclaim puts orphans back where they were.
 */
module ProtocolOrder {
  import opened JobQueue
  import opened Protocol
  import opened Sums

  predicate WorkerPhase(x: Proc) {
    x.Reclaiming? || x.Reinserting? || x.Listing? || x.Reconciling? || x.Consuming?
  }

  // At most one worker process; tasks of earlier, crashed workers may still be around.
  predicate SoleWorker(s: State) {
    Sum(WorkerCount(), s.procs) <= 1
  }

  function WorkerCount(): Proc -> int {
    (x: Proc) => if WorkerPhase(x) then 1 else 0
  }

  function Held(x: Proc): seq<Message> {
    if x.Reinserting? then [x.msg] else []
  }

  function InHand(procs: seq<Proc>): seq<Message> {
    if procs == [] then [] else Held(procs[0]) + InHand(procs[1..])
  }

  function EraseAll(ms: seq<Message>): (r: seq<Message>)
    ensures |r| == |ms|
  {
    seq(|ms|, i requires 0 <= i < |ms| => Erase(ms[i]))
  }

  // Every copy that is not acknowledged, dead or lost, newest first, attempts erased.
  function Timeline(s: State): seq<Message> {
    Line(s.main, InHand(s.procs), s.processing)
  }

  function Line(main: seq<Message>, hand: seq<Message>, processing: seq<Message>): seq<Message> {
    EraseAll(main) + EraseAll(hand) + EraseAll(processing)
  }

  lemma EraseConcat(a: seq<Message>, b: seq<Message>)
    ensures EraseAll(a + b) == EraseAll(a) + EraseAll(b)
  {
  }

  lemma {:induction false} InHandConcat(a: seq<Proc>, b: seq<Proc>)
    ensures InHand(a + b) == InHand(a) + InHand(b)
  {
    if a == [] {
      assert a + b == b;
    } else {
      InHandConcat(a[1..], b);
      assert (a + b)[0] == a[0] && (a + b)[1..] == a[1..] + b;
      Associate(Held(a[0]), InHand(a[1..]), InHand(b));
    }
  }

  lemma InHandAt(procs: seq<Proc>, p: nat)
    requires p < |procs|
    ensures InHand(procs) == InHand(procs[..p]) + Held(procs[p]) + InHand(procs[p + 1..])
  {
    var l, r := procs[..p], procs[p..];
    assert procs == l + r;
    InHandConcat(l, r);
    assert r[1..] == procs[p + 1..] && r[0] == procs[p];
    assert InHand(r) == Held(procs[p]) + InHand(procs[p + 1..]);
  }

  lemma {:induction false} NothingHeld(procs: seq<Proc>)
    requires forall x :: x in procs ==> !x.Reinserting?
    ensures InHand(procs) == []
  {
    if procs != [] {
      NothingHeld(procs[1..]);
    }
  }

  // The one worker holds everything that is in hand.
  lemma SoleHolder(s: State, p: nat)
    requires SoleWorker(s) && At(s, p) && WorkerPhase(s.procs[p])
    ensures InHand(s.procs) == Held(s.procs[p])
    ensures InHand(s.procs[..p]) == [] && InHand(s.procs[p + 1..]) == []
  {
    var l, r := s.procs[..p], s.procs[p + 1..];
    InHandAt(s.procs, p);
    SumSplit(WorkerCount(), s.procs, p);
    SumPositive(WorkerCount(), l);
    SumPositive(WorkerCount(), r);
    SumNonNegative(WorkerCount(), l);
    SumNonNegative(WorkerCount(), r);
    assert forall x :: x in l || x in r ==> WorkerCount()(x) <= 0;
    NothingHeld(s.procs[..p]);
    NothingHeld(s.procs[p + 1..]);
  }

  lemma InHandUpdate(procs: seq<Proc>, p: nat, x: Proc)
    requires p < |procs|
    ensures InHand(procs[p := x]) == InHand(procs[..p]) + Held(x) + InHand(procs[p + 1..])
  {
    InHandAt(procs[p := x], p);
    assert procs[p := x][..p] == procs[..p] && procs[p := x][p + 1..] == procs[p + 1..];
  }

  // ----- One action -----

  // What the action adds at the new end.
  function Arrival(s: State, a: Action): seq<Message> {
    if a.Push? && At(s, a.p) && s.procs[a.p].Submitting? then [Erase(Encoded(s.procs[a.p].job))]
    else if a.Requeue? && At(s, a.p) && s.procs[a.p].Reconciling? && s.procs[a.p].todo != [] then [Erase(s.procs[a.p].todo[0])]
    else []
  }

  // An ack, a dead letter, or a crash with an orphan in hand.
  predicate Removes(s: State, a: Action) {
    || a.Ack?
    || (a.PushOrphan? && At(s, a.p) && s.procs[a.p].Reinserting? && Dead(s.procs[a.p].msg))
    || (a.Crash? && At(s, a.p) && s.procs[a.p].Reinserting?)
  }

  lemma SpawnHolds(s: State, x: Proc)
    requires !x.Reinserting?
    ensures InHand(s.procs + [x]) == InHand(s.procs)
  {
    InHandConcat(s.procs, [x]);
    assert [x][1..] == [];
  }

  // The moves between the lists, as facts about sequences.

  lemma MoveToHand(main: seq<Message>, m: Message, rest: seq<Message>)
    ensures Line(main, [m], rest) == Line(main, [], [m] + rest)
  {
    EraseConcat([m], rest);
  }

  lemma MoveBack(main: seq<Message>, m: Message, rest: seq<Message>)
    ensures Line(main + [Retried(m)], [], rest) == Line(main, [m], rest)
  {
    EraseConcat(main, [Retried(m)]);
    assert EraseAll([m]) == EraseAll([Retried(m)]);
  }

  lemma MoveToProcessing(main: seq<Message>, m: Message, processing: seq<Message>)
    ensures Line(main, [], [m] + processing) == Line(main + [m], [], processing)
    ensures Line(main + [m], [], processing) == EraseAll(main) + [Erase(m)] + EraseAll(processing)
  {
    EraseConcat(main, [m]);
    EraseConcat([m], processing);
    assert EraseAll([m]) == [Erase(m)];
  }

  lemma Arrive(m: Message, main: seq<Message>, hand: seq<Message>, processing: seq<Message>)
    ensures Line([m] + main, hand, processing) == [Erase(m)] + Line(main, hand, processing)
  {
    EraseConcat([m], main);
    assert EraseAll([m]) == [Erase(m)];
  }

  lemma DropHeld(main: seq<Message>, m: Message, processing: seq<Message>)
    ensures Subseq(Line(main, [], processing), Line(main, [m], processing))
  {
    assert EraseAll([m]) == [Erase(m)];
    SubseqRemove(EraseAll(main), Erase(m), EraseAll(processing));
    assert Line(main, [], processing) == EraseAll(main) + EraseAll(processing);
  }

  lemma ErasedRemoval(ms: seq<Message>, m: Message)
    ensures Subseq(EraseAll(RemoveFirst(ms, m)), EraseAll(ms))
  {
    if m in ms {
      var i := RemoveFirstSplit(ms, m);
      EraseConcat(ms[..i], ms[i + 1..]);
      EraseConcat(ms[..i + 1], ms[i + 1..]);
      assert ms == ms[..i + 1] + ms[i + 1..];
      assert EraseAll(ms[..i + 1]) == EraseAll(ms[..i]) + [Erase(m)];
      SubseqRemove(EraseAll(ms[..i]), Erase(m), EraseAll(ms[i + 1..]));
    } else {
      RemoveAbsent(ms, m);
      SubseqSelf(EraseAll(ms));
    }
  }

  lemma DropAcked(main: seq<Message>, hand: seq<Message>, processing: seq<Message>, m: Message)
    ensures Subseq(Line(main, hand, RemoveFirst(processing, m)), Line(main, hand, processing))
  {
    ErasedRemoval(processing, m);
    SubseqPrefix(EraseAll(main) + EraseAll(hand), EraseAll(RemoveFirst(processing, m)), EraseAll(processing));
  }

  // What the sole worker holds after its own step.
  lemma WorkerHand(cfg: Config, s: State, a: Action)
    requires SoleWorker(s) && Enabled(cfg, s, a) && (a.PopOrphan? || a.PushOrphan? || (a.Crash? && s.procs[a.p].Reinserting?))
    ensures InHand(s.procs) == Held(s.procs[a.p])
    ensures InHand(Next(cfg, s, a).procs) == Held(Next(cfg, s, a).procs[a.p])
  {
    SoleHolder(s, a.p);
    InHandUpdate(s.procs, a.p, Next(cfg, s, a).procs[a.p]);
  }

  // What a pop of an orphan moves.
  lemma PopMoves(cfg: Config, s: State, a: Action, s': State)
    requires SoleWorker(s) && Enabled(cfg, s, a) && a.PopOrphan? && s' == Next(cfg, s, a)
    ensures s'.main == s.main && InHand(s.procs) == []
    ensures s.processing == [] ==> s'.processing == [] && InHand(s'.procs) == []
    ensures s.processing != [] ==> s'.processing == s.processing[1..] && InHand(s'.procs) == [s.processing[0]]
  {
    WorkerHand(cfg, s, a);
  }

  lemma PopLine(s: State, s': State)
    requires s'.main == s.main && InHand(s.procs) == []
    requires s.processing == [] ==> s'.processing == [] && InHand(s'.procs) == []
    requires s.processing != [] ==> s'.processing == s.processing[1..] && InHand(s'.procs) == [s.processing[0]]
    ensures Timeline(s') == Timeline(s)
  {
    if s.processing != [] {
      MoveToHand(s.main, s.processing[0], s.processing[1..]);
      assert [s.processing[0]] + s.processing[1..] == s.processing;
    }
  }

  lemma PopKeepsTimeline(cfg: Config, s: State, a: Action)
    requires SoleWorker(s) && Enabled(cfg, s, a) && a.PopOrphan?
    ensures Timeline(Next(cfg, s, a)) == Timeline(s)
  {
    PopMoves(cfg, s, a, Next(cfg, s, a));
    PopLine(s, Next(cfg, s, a));
  }

  lemma RetryKeepsTimeline(cfg: Config, s: State, a: Action)
    requires SoleWorker(s) && Enabled(cfg, s, a) && a.PushOrphan? && !Dead(s.procs[a.p].msg)
    ensures Timeline(Next(cfg, s, a)) == Timeline(s)
  {
    WorkerHand(cfg, s, a);
    MoveBack(s.main, s.procs[a.p].msg, s.processing);
  }

  lemma DeliverKeepsTimeline(cfg: Config, s: State, a: Action)
    requires SoleWorker(s) && Enabled(cfg, s, a) && a.Deliver?
    ensures Timeline(Next(cfg, s, a)) == Timeline(s)
    ensures Timeline(s) == EraseAll(s.main[..|s.main| - 1]) + [Erase(s.main[|s.main| - 1])] + EraseAll(s.processing)
  {
    var m, rest := s.main[|s.main| - 1], s.main[..|s.main| - 1];
    assert s.main == rest + [m];
    MoveToProcessing(rest, m, s.processing);
    assert Timeline(s) == Line(rest + [m], [], s.processing) by {
      SoleHolder(s, a.p);
    }
    assert Timeline(Next(cfg, s, a)) == Line(rest, [], [m] + s.processing) by {
      SoleHolder(s, a.p);
      SpawnHolds(s, Delivered(m));
    }
  }

  // The other actions leave what is in hand alone.
  predicate LeavesHand(s: State, a: Action) {
    && !a.PopOrphan? && !a.PushOrphan?
    && !(a.Crash? && At(s, a.p) && s.procs[a.p].Reinserting?)
  }

  lemma HeldKept(cfg: Config, s: State, a: Action, s': State)
    requires Enabled(cfg, s, a) && s' == Next(cfg, s, a) && LeavesHand(s, a)
    ensures Spawns(a) ==> s'.procs != [] && !s'.procs[|s'.procs| - 1].Reinserting?
    ensures Steps(a) && !Spawns(a) ==> At(s, a.p) && At(s', a.p) && Held(s'.procs[a.p]) == Held(s.procs[a.p])
  {
  }

  lemma OthersKeepHand(cfg: Config, s: State, a: Action)
    requires Enabled(cfg, s, a) && LeavesHand(s, a)
    ensures InHand(Next(cfg, s, a).procs) == InHand(s.procs)
  {
    var s' := Next(cfg, s, a);
    OneProcessChanges(cfg, s, a, s');
    HeldKept(cfg, s, a, s');
    HandsKept(s, a, s');
  }

  lemma HandsKept(s: State, a: Action, s': State)
    requires Spawns(a) ==> |s'.procs| > 0 && s'.procs == s.procs + [s'.procs[|s'.procs| - 1]]
                           && !s'.procs[|s'.procs| - 1].Reinserting?
    requires Steps(a) && !Spawns(a) ==> At(s, a.p) && At(s', a.p) && s'.procs == s.procs[a.p := s'.procs[a.p]]
                                        && Held(s'.procs[a.p]) == Held(s.procs[a.p])
    requires !Steps(a) && !Spawns(a) ==> s'.procs == s.procs
    ensures InHand(s'.procs) == InHand(s.procs)
  {
    if Spawns(a) {
      SpawnHolds(s, s'.procs[|s'.procs| - 1]);
    } else if Steps(a) {
      InHandAt(s.procs, a.p);
      InHandUpdate(s.procs, a.p, s'.procs[a.p]);
    }
  }

  /** A delivery and a reclaim leave the timeline as it is, and new jobs go to its front, whatever else is
      interleaved. */
  lemma TimelineStep(cfg: Config, s: State, a: Action)
    requires SoleWorker(s) && Enabled(cfg, s, a) && !Removes(s, a)
    ensures Timeline(Next(cfg, s, a)) == Arrival(s, a) + Timeline(s)
  {
    if a.PopOrphan? {
      PopKeepsTimeline(cfg, s, a);
    } else if a.PushOrphan? {
      RetryKeepsTimeline(cfg, s, a);
    } else if a.Deliver? {
      DeliverKeepsTimeline(cfg, s, a);
    } else {
      OthersKeepHand(cfg, s, a);
      if Arrival(s, a) != [] {
        Arrive(Next(cfg, s, a).main[0], s.main, InHand(s.procs), s.processing);
      }
    }
  }

  lemma AckDrops(cfg: Config, s: State, a: Action)
    requires Enabled(cfg, s, a) && a.Ack?
    ensures Subseq(Timeline(Next(cfg, s, a)), Timeline(s))
  {
    var m := s.procs[a.p].msg;
    assert Timeline(Next(cfg, s, a)) == Line(s.main, InHand(s.procs), RemoveFirst(s.processing, m)) by {
      OthersKeepHand(cfg, s, a);
    }
    DropAcked(s.main, InHand(s.procs), s.processing, m);
  }

  lemma HeldDrops(cfg: Config, s: State, a: Action)
    requires SoleWorker(s) && Enabled(cfg, s, a) && Removes(s, a) && !a.Ack?
    ensures Subseq(Timeline(Next(cfg, s, a)), Timeline(s))
  {
    var m := s.procs[a.p].msg;
    assert Timeline(Next(cfg, s, a)) == Line(s.main, [], s.processing) && Timeline(s) == Line(s.main, [m], s.processing) by {
      WorkerHand(cfg, s, a);
    }
    DropHeld(s.main, m, s.processing);
  }

  lemma RemovalStep(cfg: Config, s: State, a: Action)
    requires SoleWorker(s) && Enabled(cfg, s, a) && Removes(s, a)
    ensures Subseq(Timeline(Next(cfg, s, a)), Timeline(s)) && Arrival(s, a) == []
  {
    if a.Ack? {
      AckDrops(cfg, s, a);
    } else {
      HeldDrops(cfg, s, a);
    }
  }

  // ----- Runs -----

  // The un-acknowledged jobs stand in the order of the history.
  predicate InOrder(s: State, history: seq<Message>) {
    Subseq(Timeline(s), history)
  }

  // One step, relative to any longer history.
  lemma OrderKept(cfg: Config, s: State, a: Action, s': State, earlier: seq<Message>, later: seq<Message>)
    requires Enabled(cfg, s, a) && s' == Next(cfg, s, a) && later == Arrival(s, a) + earlier
    requires SoleWorker(s) && InOrder(s, earlier)
    ensures InOrder(s', later)
  {
    if Removes(s, a) {
      RemovalStep(cfg, s, a);
      SubseqTrans(Timeline(s'), Timeline(s), earlier);
      assert [] + earlier == earlier;
    } else {
      TimelineStep(cfg, s, a);
      SubseqPrefix(Arrival(s, a), Timeline(s), earlier);
    }
  }

  // The timeline at k with everything that arrived in actions k .. n-1 put in front, newest first.
  function History(states: seq<State>, actions: seq<Action>, k: nat, n: nat): seq<Message>
    requires k <= n <= |actions| && n < |states|
    decreases n
  {
    if k == n then Timeline(states[k]) else Arrival(states[n - 1], actions[n - 1]) + History(states, actions, k, n - 1)
  }

  /** FIFO across crashes and restarts: with one worker process at a time, the un-acknowledged jobs are always in
      order of arrival. */
  lemma {:induction false} FifoAcrossCrashes(cfg: Config, states: seq<State>, actions: seq<Action>, k: nat, n: nat)
    requires IsRun(cfg, states, actions) && k <= n < |states|
    requires forall i :: k <= i < n ==> SoleWorker(states[i])
    ensures InOrder(states[n], History(states, actions, k, n))
    decreases n
  {
    if k == n {
      SubseqSelf(Timeline(states[n]));
    } else {
      FifoAcrossCrashes(cfg, states, actions, k, n - 1);
      assert StepsAt(cfg, states, actions, n - 1);
      OrderKept(cfg, states[n - 1], actions[n - 1], states[n], History(states, actions, k, n - 1), History(states, actions, k, n));
    }
  }

  /** As long as nothing is acknowledged, dead-lettered or lost, the timeline is the whole history. */
  lemma {:induction false} NothingRemoved(cfg: Config, states: seq<State>, actions: seq<Action>, k: nat, n: nat)
    requires IsRun(cfg, states, actions) && k <= n < |states|
    requires forall i :: k <= i < n ==> SoleWorker(states[i]) && !Removes(states[i], actions[i])
    ensures Timeline(states[n]) == History(states, actions, k, n)
    decreases n
  {
    if k < n {
      NothingRemoved(cfg, states, actions, k, n - 1);
      assert StepsAt(cfg, states, actions, n - 1);
      TimelineStep(cfg, states[n - 1], actions[n - 1]);
    }
  }

  /** A delivery hands out the oldest job not yet delivered: everything older is on the processing list, everything
      newer stays on the main list. */
  lemma DispatchOldestFirst(cfg: Config, s: State, p: nat)
    requires SoleWorker(s) && Enabled(cfg, s, Deliver(p))
    ensures var s' := Next(cfg, s, Deliver(p));
      var m := s'.procs[|s.procs|].msg;
      && Timeline(s) == EraseAll(s'.main) + [Erase(m)] + EraseAll(s.processing)
      && Timeline(s') == Timeline(s)
  {
    DeliverKeepsTimeline(cfg, s, Deliver(p));
  }

  /** When the restarted worker has drained the processing list, the main list is the history: what was un-acked at
      the crash is delivered again in its original order, ahead of everything newer. */
  lemma RedeliveredInOrder(cfg: Config, states: seq<State>, actions: seq<Action>, k: nat, n: nat, p: nat)
    requires IsRun(cfg, states, actions) && k <= n < |states|
    requires forall i :: k <= i < n ==> SoleWorker(states[i]) && !Removes(states[i], actions[i])
    requires SoleWorker(states[n]) && At(states[n], p) && states[n].procs[p].Reclaiming? && states[n].processing == []
    ensures EraseAll(states[n].main) == History(states, actions, k, n)
  {
    NothingRemoved(cfg, states, actions, k, n);
    SoleHolder(states[n], p);
    assert Timeline(states[n]) == EraseAll(states[n].main);
  }
}

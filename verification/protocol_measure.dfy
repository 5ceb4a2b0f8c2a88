/**
  How one action changes a weighted count of the messages in the system. The counting arguments of
  module ProtocolDelivery are all instances.
 */
module ProtocolMeasure {
  import opened JobQueue
  import opened Protocol
  import opened Sums

  // A weight for a message on each list, and for what a process holds.
  datatype Weights = Weights(main: Message -> int, processing: Message -> int, dead: Message -> int, hand: Proc -> int)

  predicate Holding(x: Proc) {
    x.Submitting? || x.Reinserting? || x.Reconciling?
  }

  function Measure(w: Weights, s: State): int {
    Sum(w.main, s.main) + Sum(w.processing, s.processing) + Sum(w.dead, s.dead) + Sum(w.hand, s.procs)
  }

  // What the pushes, pops and removals of an action add to the lists.
  ghost function ListDelta(w: Weights, s: State, a: Action, cfg: Config): int
    requires Enabled(cfg, s, a)
  {
    match a
    case Push(p) => w.main(Encoded(s.procs[p].job))
    case PopOrphan(p) => if s.processing == [] then 0 else -w.processing(s.processing[0])
    case PushOrphan(p) =>
      if Dead(s.procs[p].msg) then w.dead(Retried(s.procs[p].msg)) else w.main(Retried(s.procs[p].msg))
    case Requeue(p) => if s.procs[p].todo == [] then 0 else w.main(s.procs[p].todo[0])
    case Deliver(p) => var m := s.main[|s.main| - 1]; w.processing(m) - w.main(m)
    case Ack(p) => if s.procs[p].msg in s.processing then -w.processing(s.procs[p].msg) else 0
    case _ => 0
  }

  ghost function Delta(w: Weights, cfg: Config, s: State, a: Action): int
    requires Enabled(cfg, s, a)
  {
    ListDelta(w, s, a, cfg)
    + if Steps(a) then w.hand(Next(cfg, s, a).procs[a.p]) - w.hand(s.procs[a.p]) else 0
  }

  lemma HandChange(w: Weights, s: State, p: int, x: Proc)
    requires At(s, p)
    ensures Sum(w.hand, s.procs[p := x]) == Sum(w.hand, s.procs) - w.hand(s.procs[p]) + w.hand(x)
  {
    SumUpdate(w.hand, s.procs, p, x);
  }

  lemma Pushed(f: Message -> int, ms: seq<Message>, m: Message)
    ensures Sum(f, [m] + ms) == f(m) + Sum(f, ms)
    ensures Sum(f, ms + [m]) == f(m) + Sum(f, ms)
  {
    SumConcat(f, [m], ms);
    SumConcat(f, ms, [m]);
    SumOne(f, m);
  }

  lemma Removed(f: Message -> int, ms: seq<Message>, m: Message)
    ensures Sum(f, RemoveFirst(ms, m)) == Sum(f, ms) - if m in ms then f(m) else 0
  {
    if m in ms {
      var i := RemoveFirstSplit(ms, m);
      SumSplit(f, ms, i);
      SumConcat(f, ms[..i], ms[i + 1..]);
    } else {
      RemoveAbsent(ms, m);
    }
  }

  lemma HandsStep(w: Weights, cfg: Config, s: State, a: Action)
    requires Enabled(cfg, s, a)
    requires forall x: Proc :: !Holding(x) ==> w.hand(x) == 0
    ensures Sum(w.hand, Next(cfg, s, a).procs) == Sum(w.hand, s.procs)
      + if Steps(a) then w.hand(Next(cfg, s, a).procs[a.p]) - w.hand(s.procs[a.p]) else 0
  {
    var s' := Next(cfg, s, a);
    OneProcessChanges(cfg, s, a, s');
    if Spawns(a) {
      var x := s'.procs[|s.procs|];
      SumConcat(w.hand, s.procs, [x]);
      SumOne(w.hand, x);
    } else if Steps(a) {
      HandChange(w, s, a.p, s'.procs[a.p]);
    }
  }

  function Lists(w: Weights, s: State): int {
    Sum(w.main, s.main) + Sum(w.processing, s.processing) + Sum(w.dead, s.dead)
  }

  lemma OrphanLists(w: Weights, cfg: Config, s: State, a: Action)
    requires Enabled(cfg, s, a) && (a.PopOrphan? || a.PushOrphan?)
    ensures Lists(w, Next(cfg, s, a)) == Lists(w, s) + ListDelta(w, s, a, cfg)
  {
    if a.PushOrphan? {
      Pushed(w.main, s.main, Retried(s.procs[a.p].msg));
      Pushed(w.dead, s.dead, Retried(s.procs[a.p].msg));
    } else if s.processing != [] {
      assert s.processing == [s.processing[0]] + s.processing[1..];
      Pushed(w.processing, s.processing[1..], s.processing[0]);
    }
  }

  lemma DeliverLists(w: Weights, cfg: Config, s: State, a: Action)
    requires Enabled(cfg, s, a) && a.Deliver?
    ensures Lists(w, Next(cfg, s, a)) == Lists(w, s) + ListDelta(w, s, a, cfg)
  {
    var m, rest := s.main[|s.main| - 1], s.main[..|s.main| - 1];
    assert s.main == rest + [m];
    Pushed(w.main, rest, m);
    Pushed(w.processing, s.processing, m);
  }

  lemma PushLists(w: Weights, cfg: Config, s: State, a: Action)
    requires Enabled(cfg, s, a) && (a.Push? || a.Requeue? || a.Ack?)
    ensures Lists(w, Next(cfg, s, a)) == Lists(w, s) + ListDelta(w, s, a, cfg)
  {
    if a.Push? {
      Pushed(w.main, s.main, Encoded(s.procs[a.p].job));
    } else if a.Ack? {
      Removed(w.processing, s.processing, s.procs[a.p].msg);
    } else if s.procs[a.p].todo != [] {
      Pushed(w.main, s.main, s.procs[a.p].todo[0]);
    }
  }

  /** Every action changes the measure by its Delta. */
  lemma MeasureStep(w: Weights, cfg: Config, s: State, a: Action)
    requires Enabled(cfg, s, a)
    requires forall x: Proc :: !Holding(x) ==> w.hand(x) == 0
    ensures Measure(w, Next(cfg, s, a)) == Measure(w, s) + Delta(w, cfg, s, a)
  {
    HandsStep(w, cfg, s, a);
    if a.PopOrphan? || a.PushOrphan? {
      OrphanLists(w, cfg, s, a);
    } else if a.Deliver? {
      DeliverLists(w, cfg, s, a);
    } else if a.Push? || a.Requeue? || a.Ack? {
      PushLists(w, cfg, s, a);
    }
  }
}

/**
  The attempt log alone determines the run. A reference machine reads the log one entry at a time and
  knows nothing of loops, budgets or gates; the engine's log is the one this machine accepts, and the
  machine's final position is the run's state, place and outcome.
 */
module WorkflowReplay {
  import opened Wrappers
  import opened Workflow
  import Gates = WorkflowGates

  // Where the reference machine is: the state, the step to run, the retries already made of it, and whether it failed.
  datatype Position = Position(vars: Vars, current: Option<string>, tries: nat, halted: bool)

  predicate CanRun(def: Def, p: Position) {
    p.current.Some? && Known(def, p.current.value) && !p.halted
  }

  // The entry that the next attempt, the i-th of the run, must leave in the log.
  predicate IsEntry(def: Def, oracle: Oracle, p: Position, i: nat, e: Attempt) {
    CanRun(def, p) &&
    var step := StepNamed(def, p.current.value);
    && e.step == step.name
    && e.attempt == p.tries + 1 <= step.maxAttempts
    && match oracle(step.name, p.vars, i)
       case Updates(u) => e.status == Succeeded && e.updates == u && e.error == None
       case Failure(msg) =>
         && e.updates == map[] && e.error == Some(msg)
         && e.status == if e.attempt < step.maxAttempts then Retried else Failed
  }

  function Advance(def: Def, p: Position, e: Attempt): Position {
    if !CanRun(def, p) then p
    else match e.status
      case Succeeded =>
        var vars := p.vars + e.updates;
        Position(vars, Following(StepNamed(def, p.current.value), vars), 0, false)
      case Retried => p.(tries := p.tries + 1)
      case Failed => p.(halted := true)
  }

  function Replay(def: Def, input: Vars, log: seq<Attempt>): Position
    requires def != []
  {
    if log == [] then Position(input, Some(def[0].name), 0, false)
    else Advance(def, Replay(def, input, log[..|log| - 1]), log[|log| - 1])
  }

  predicate Legal(def: Def, oracle: Oracle, input: Vars, log: seq<Attempt>)
    requires def != []
  {
    log == [] ||
    var front := log[..|log| - 1];
    Legal(def, oracle, input, front) && IsEntry(def, oracle, Replay(def, input, front), |front|, log[|front|])
  }

  lemma {:induction false} LegalAt(def: Def, oracle: Oracle, input: Vars, log: seq<Attempt>, i: nat)
    requires def != [] && Legal(def, oracle, input, log) && i < |log|
    ensures IsEntry(def, oracle, Replay(def, input, log[..i]), i, log[i])
  {
    var front := log[..|log| - 1];
    if i < |front| {
      LegalAt(def, oracle, input, front, i);
      assert front[..i] == log[..i];
    }
  }

  // The groups of a log: each ends with an attempt that is not retried.
  function Groups(log: seq<Attempt>): nat {
    if log == [] then 0 else Groups(log[..|log| - 1]) + if log[|log| - 1].status == Retried then 0 else 1
  }

  lemma LegalSnoc(def: Def, oracle: Oracle, input: Vars, log: seq<Attempt>, e: Attempt)
    requires def != [] && Legal(def, oracle, input, log) && IsEntry(def, oracle, Replay(def, input, log), |log|, e)
    ensures Legal(def, oracle, input, log + [e])
    ensures Replay(def, input, log + [e]) == Advance(def, Replay(def, input, log), e)
    ensures Groups(log + [e]) == Groups(log) + if e.status == Retried then 0 else 1
  {
    var longer := log + [e];
    assert longer[..|longer| - 1] == log;
  }

  // The run's log is legal and leaves the reference machine at `current`.
  ghost predicate Tracks(def: Def, oracle: Oracle, input: Vars, run: Run, current: Option<string>, tries: nat)
    requires def != []
  {
    Legal(def, oracle, input, run.attempts) && Replay(def, input, run.attempts) == Position(run.vars, current, tries, false)
  }

  // After a step has used up its attempts.
  ghost predicate Exhausted(def: Def, oracle: Oracle, input: Vars, run: Run, step: Step)
    requires def != []
  {
    && Legal(def, oracle, input, run.attempts)
    && var p := Replay(def, input, run.attempts);
       p.vars == run.vars && p.current == Some(step.name) && p.halted == (step.maxAttempts >= 1)
  }

  // Logging one attempt moves the reference machine as the attempt's outcome says.
  lemma LogOne(def: Def, oracle: Oracle, input: Vars, step: Step, run: Run, k: int, o: Outcome)
    requires ValidDef(def) && Known(def, step.name) && StepNamed(def, step.name) == step
    requires 1 <= k <= step.maxAttempts && Tracks(def, oracle, input, run, Some(step.name), k - 1)
    requires o == oracle(step.name, run.vars, |run.attempts|)
    ensures var logged := run.(attempts := run.attempts + [LogEntry(step, k, o)]);
      if o.Updates? then
        && Tracks(def, oracle, input, logged.(vars := run.vars + o.updates), Following(step, run.vars + o.updates), 0)
        && Groups(logged.attempts) == Groups(run.attempts) + 1
      else if k < step.maxAttempts then
        Tracks(def, oracle, input, logged, Some(step.name), k) && Groups(logged.attempts) == Groups(run.attempts)
      else
        Exhausted(def, oracle, input, logged, step) && Groups(logged.attempts) == Groups(run.attempts) + 1
  {
    LegalSnoc(def, oracle, input, run.attempts, LogEntry(step, k, o));
  }

  lemma {:induction false} TryTracks(def: Def, oracle: Oracle, input: Vars, step: Step, run: Run, k: int,
                                     r: Run, ok: bool)
    requires ValidDef(def) && Known(def, step.name) && StepNamed(def, step.name) == step
    requires k >= 1 && (k <= step.maxAttempts || k == 1) && Tracks(def, oracle, input, run, Some(step.name), k - 1)
    requires (r, ok) == TryStep(oracle, step, run, k)
    ensures ok ==> Tracks(def, oracle, input, r, Following(step, r.vars), 0)
    ensures !ok ==> Exhausted(def, oracle, input, r, step)
    ensures Groups(r.attempts) == Groups(run.attempts) + if step.maxAttempts >= 1 then 1 else 0
    decreases step.maxAttempts - k
  {
    if k <= step.maxAttempts {
      var o := oracle(step.name, run.vars, |run.attempts|);
      var logged := run.(attempts := run.attempts + [LogEntry(step, k, o)]);
      LogOne(def, oracle, input, step, run, k, o);
      if o.Updates? {
        assert r == logged.(vars := run.vars + o.updates);
      } else {
        if k < step.maxAttempts {
          TryTracks(def, oracle, input, step, logged, k + 1, r, ok);
        } else {
          assert TryStep(oracle, step, logged, k + 1) == (logged, false);
        }
      }
    }
  }

  // What the log says about the run record.
  ghost predicate Explained(def: Def, oracle: Oracle, input: Vars, run: Run)
    requires def != []
  {
    var p := Replay(def, input, run.attempts);
    && Legal(def, oracle, input, run.attempts)
    && run.vars == p.vars
    && (run.status == Completed <==> p.current.None?)
    && (run.status in {Completed, AwaitingApproval, Refused} ==> !p.halted && p.tries == 0)
    && (run.status in {Completed, AwaitingApproval} ==> run.error.None?)
    && (run.status == AwaitingApproval ==> run.pending == p.current)
    && (run.status == Refused ==> RefusedRun(run, p))
    && (run.status == Broken ==> BrokenRun(def, run, p))
    && run.steps == Groups(run.attempts) + if NoAttemptsAllowed(run) then 1 else 0
  }

  // The failing step was configured with no attempts at all.
  predicate NoAttemptsAllowed(run: Run) {
    run.error.Some? && run.error.value.StepFailed? && run.error.value.attempts < 1
  }

  predicate RefusedRun(run: Run, p: Position) {
    && run.approvals != []
    && var last := run.approvals[|run.approvals| - 1];
       p.current == Some(last.step) && run.error == Some(RejectedBy(last.step, last.actor))
  }

  predicate BrokenRun(def: Def, run: Run, p: Position) {
    && p.current.Some? && Known(def, p.current.value)
    && var step := StepNamed(def, p.current.value);
      || (run.error == Some(StepFailed(step.name, step.maxAttempts)) && (p.halted || (step.maxAttempts < 1 && p.tries == 0)))
      || (run.error == Some(BudgetExceeded) && !p.halted && p.tries == 0 && run.steps >= MAX_STEPS_PER_RUN)
  }

  // The four ways a pass stops, each explained by the log.

  lemma StopExplained(def: Def, oracle: Oracle, input: Vars, run: Run, current: Option<string>)
    requires ValidDef(def) && KnownOrEnd(def, current) && run.status == Running && run.pending.None? && run.error.None?
    requires Tracks(def, oracle, input, run, current, 0) && run.steps == Groups(run.attempts)
    ensures current.None? ==> Explained(def, oracle, input, run.(status := Completed))
    ensures current.Some? && run.steps >= MAX_STEPS_PER_RUN ==>
      Explained(def, oracle, input, run.(status := Broken, error := Some(BudgetExceeded)))
    ensures current.Some? ==> Explained(def, oracle, input, run.(status := AwaitingApproval, pending := current))
  {
  }

  lemma ExhaustedExplained(def: Def, oracle: Oracle, input: Vars, run: Run, step: Step)
    requires ValidDef(def) && Known(def, step.name) && StepNamed(def, step.name) == step
    requires run.status == Running && run.pending.None? && Exhausted(def, oracle, input, run, step)
    requires run.steps == Groups(run.attempts) + if step.maxAttempts >= 1 then 0 else 1
    ensures Explained(def, oracle, input, run.(status := Broken, error := Some(StepFailed(step.name, step.maxAttempts))))
  {
  }

  lemma {:induction false} DriveExplained(def: Def, oracle: Oracle, input: Vars, run: Run, current: Option<string>, r: Run)
    requires ValidDef(def) && KnownOrEnd(def, current) && run.status == Running && run.pending.None? && run.error.None?
    requires Tracks(def, oracle, input, run, current, 0) && run.steps == Groups(run.attempts)
    requires r == Drive(def, oracle, run, current)
    ensures Explained(def, oracle, input, r)
    decreases MAX_STEPS_PER_RUN - run.steps
  {
    StopExplained(def, oracle, input, run, current);
    if current.Some? && run.steps < MAX_STEPS_PER_RUN {
      var step := StepNamed(def, current.value);
      if step.requiresApproval && !IsApproved(run.approvals, step.name) {
        assert r == run.(status := AwaitingApproval, pending := current);
      } else {
        var counted := run.(steps := run.steps + 1);
        var (tried, ok) := TryStep(oracle, step, counted, 1);
        TryTracks(def, oracle, input, step, counted, 1, tried, ok);
        DriveStep(def, oracle, run, current.value, step, tried, ok);
        if ok {
          SucceedsWithinAttempts(oracle, step, counted, 1);
          DriveExplained(def, oracle, input, tried, Following(step, tried.vars), r);
        } else {
          assert r == tried.(status := Broken, error := Some(StepFailed(step.name, step.maxAttempts)));
          ExhaustedExplained(def, oracle, input, tried, step);
        }
      }
    }
  }

  lemma SucceedsWithinAttempts(oracle: Oracle, step: Step, run: Run, k: int)
    requires k >= 1 && TryStep(oracle, step, run, k).1
    ensures step.maxAttempts >= k
  {
  }

  lemma AnswerExplained(def: Def, oracle: Oracle, input: Vars, run: Run, a: Gates.Answer)
    requires ValidDef(def) && Gates.GateInv(def, run) && Explained(def, oracle, input, run)
    ensures Explained(def, oracle, input, Gates.Answered(def, oracle, run, a))
  {
    if AtGate(run) {
      var decided := Decided(run, a.decision, a.actor, a.reason);
      if a.decision == Approved {
        assert Tracks(def, oracle, input, decided, run.pending, 0);
        DriveExplained(def, oracle, input, decided, run.pending, Drive(def, oracle, decided, run.pending));
      } else {
        assert decided.approvals[|decided.approvals| - 1] == Approval(run.pending.value, Rejected, a.actor, a.reason);
      }
    }
  }

  /** After any answers at the gates, the log explains the run: it is a sequence of groups `retried* (succeeded or
      failed)` numbered from 1 within the step's attempts, each step being the one the transitions lead to; the state
      is the input folded with the updates of the succeeded attempts; and status, place and step count follow. */
  lemma {:induction false} LogExplainsRun(def: Def, oracle: Oracle, input: Vars, answers: seq<Gates.Answer>)
    requires ValidDef(def)
    ensures Explained(def, oracle, input, Gates.Session(def, oracle, input, answers))
    ensures Gates.Session(def, oracle, input, answers).steps <= MAX_STEPS_PER_RUN
    decreases |answers|
  {
    if answers == [] {
      assert def[0].name == def[0].name;
      DriveExplained(def, oracle, input, Start(input), Some(def[0].name), Execute(def, oracle, input));
    } else {
      var front, a := answers[..|answers| - 1], answers[|answers| - 1];
      LogExplainsRun(def, oracle, input, front);
      AnswerExplained(def, oracle, input, Gates.Session(def, oracle, input, front), a);
    }
  }

  // What the entry at i says of itself and of its step.
  lemma {:induction false} EntryShape(def: Def, oracle: Oracle, input: Vars, log: seq<Attempt>, i: nat)
    requires ValidDef(def) && Legal(def, oracle, input, log) && i < |log|
    ensures Known(def, log[i].step) && 1 <= log[i].attempt <= StepNamed(def, log[i].step).maxAttempts
    ensures log[i].status == Retried ==> log[i].attempt < StepNamed(def, log[i].step).maxAttempts
    ensures i == 0 ==> log[i].attempt == 1
  {
    LegalAt(def, oracle, input, log, i);
    assert i == 0 ==> log[..i] == [];
  }

  // What the entry at i says of the next one.
  lemma {:induction false} NextEntryShape(def: Def, oracle: Oracle, input: Vars, log: seq<Attempt>, i: nat)
    requires ValidDef(def) && Legal(def, oracle, input, log) && i + 1 < |log|
    ensures log[i].status != Failed
    ensures log[i].status == Succeeded ==> log[i + 1].attempt == 1
    ensures log[i].status == Retried ==> log[i + 1].step == log[i].step && log[i + 1].attempt == log[i].attempt + 1
  {
    LegalAt(def, oracle, input, log, i);
    LegalAt(def, oracle, input, log, i + 1);
    assert log[..i + 1][..i] == log[..i] && log[..i + 1][i] == log[i];
  }

  /** The attempts of a group are numbered 1, 2, ... and only its last is not `retried`; a failed attempt ends the log. */
  lemma {:induction false} LogShape(def: Def, oracle: Oracle, input: Vars, log: seq<Attempt>, i: nat)
    requires ValidDef(def) && Legal(def, oracle, input, log) && i < |log|
    ensures i == 0 || log[i - 1].status != Retried ==> log[i].attempt == 1
    ensures i > 0 && log[i - 1].status == Retried ==> log[i].step == log[i - 1].step && log[i].attempt == log[i - 1].attempt + 1
    ensures log[i].status == Failed ==> i == |log| - 1
    ensures Known(def, log[i].step) && 1 <= log[i].attempt <= StepNamed(def, log[i].step).maxAttempts
    ensures log[i].status == Retried ==> log[i].attempt < StepNamed(def, log[i].step).maxAttempts
  {
    EntryShape(def, oracle, input, log, i);
    if i > 0 {
      NextEntryShape(def, oracle, input, log, i - 1);
    }
    if i + 1 < |log| {
      NextEntryShape(def, oracle, input, log, i);
    }
  }
}

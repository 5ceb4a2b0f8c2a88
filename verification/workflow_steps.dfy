/**
  Which step comes next. The laws here are on a run's log and its definition alone: each entry is
  what the step function answered, each step is where the one before it leads, and the status is
  what the last entry makes it.
 */
module WorkflowSteps {
  import opened Wrappers
  import opened Workflow
  import opened WorkflowReplay
  import Gates = WorkflowGates

  // The input with the updates of the succeeded entries, in order.
  function Folded(input: Vars, log: seq<Attempt>): Vars {
    if log == [] then input
    else
      var before, last := Folded(input, log[..|log| - 1]), log[|log| - 1];
      if last.status == Succeeded then before + last.updates else before
  }

  // The transition, taken in this state, leads to this step, or to the end.
  ghost predicate LeadsTo(next: Transition, vars: Vars, to: Option<string>) {
    match next
    case End => to == None
    case Goto(name) => to == Some(name)
    case Branch(choose) => to == choose(vars)
  }

  // After the log the run is at this step, or at the end.
  ghost predicate Place(def: Def, input: Vars, log: seq<Attempt>, to: Option<string>)
    requires def != []
  {
    if log == [] then to == Some(def[0].name)
    else
      var last := log[|log| - 1];
      last.status == Succeeded && Known(def, last.step) && LeadsTo(StepNamed(def, last.step).next, Folded(input, log), to)
  }

  // Entry i records what its step answered in the state it saw.
  predicate Records(def: Def, oracle: Oracle, input: Vars, log: seq<Attempt>, i: int)
    requires 0 <= i < |log|
  {
    var e := log[i];
    && Known(def, e.step)
    && 1 <= e.attempt <= StepNamed(def, e.step).maxAttempts
    && match oracle(e.step, Folded(input, log[..i]), i)
       case Updates(u) => e.status == Succeeded && e.updates == u && e.error == None
       case Failure(msg) =>
         && e.updates == map[] && e.error == Some(msg)
         && (e.status == Failed <==> e.attempt == StepNamed(def, e.step).maxAttempts)
         && (e.status == Retried <==> e.attempt < StepNamed(def, e.step).maxAttempts)
  }

  // Entry i is the next attempt of the step before it, or the first of the step that one leads to.
  ghost predicate Follows(def: Def, input: Vars, log: seq<Attempt>, i: int)
    requires def != [] && 0 <= i < |log|
  {
    if i > 0 && log[i - 1].status == Retried then log[i].step == log[i - 1].step && log[i].attempt == log[i - 1].attempt + 1
    else log[i].attempt == 1 && Place(def, input, log[..i], Some(log[i].step))
  }

  // Where the reference machine stands, read off the last entry.
  lemma {:induction false} ReplayPlace(def: Def, oracle: Oracle, input: Vars, log: seq<Attempt>)
    requires def != [] && Legal(def, oracle, input, log)
    ensures var p := Replay(def, input, log);
      && p.vars == Folded(input, log)
      && (log == [] || log[|log| - 1].status == Succeeded ==> !p.halted && p.tries == 0 && Place(def, input, log, p.current))
      && (log != [] && log[|log| - 1].status != Succeeded ==>
           && p.current == Some(log[|log| - 1].step)
           && (p.halted <==> log[|log| - 1].status == Failed)
           && (!p.halted ==> p.tries == log[|log| - 1].attempt))
  {
    if log != [] {
      ReplayPlace(def, oracle, input, log[..|log| - 1]);
    }
  }

  lemma {:induction false} EntryLaws(def: Def, oracle: Oracle, input: Vars, log: seq<Attempt>, i: nat)
    requires def != [] && Legal(def, oracle, input, log) && i < |log|
    ensures Records(def, oracle, input, log, i) && Follows(def, input, log, i)
  {
    LegalPrefix(def, oracle, input, log, i);
    LegalAt(def, oracle, input, log, i);
    ReplayPlace(def, oracle, input, log[..i]);
    if i > 0 {
      assert log[..i][i - 1] == log[i - 1];
    }
  }

  lemma {:induction false} LegalPrefix(def: Def, oracle: Oracle, input: Vars, log: seq<Attempt>, i: nat)
    requires def != [] && Legal(def, oracle, input, log) && i <= |log|
    ensures Legal(def, oracle, input, log[..i])
  {
    if i < |log| {
      LegalPrefix(def, oracle, input, log[..|log| - 1], i);
      assert log[..|log| - 1][..i] == log[..i];
    } else {
      assert log[..i] == log;
    }
  }

  // A failed run's error names the reason: the budget, the step's last attempt, or a step allowed no attempt.
  ghost predicate SaysWhy(def: Def, input: Vars, run: Run)
    requires def != []
  {
    var log := run.attempts;
    || (&& run.error == Some(BudgetExceeded) && run.steps >= 25
        && exists name :: Place(def, input, log, Some(name)))
    || (&& log != [] && log[|log| - 1].status == Failed
        && run.error == Some(StepFailed(log[|log| - 1].step, log[|log| - 1].attempt)))
    || exists name :: Place(def, input, log, Some(name)) && Known(def, name)
                      && StepNamed(def, name).maxAttempts < 1
                      && run.error == Some(StepFailed(name, StepNamed(def, name).maxAttempts))
  }

  // What the record says, in terms of the log.
  ghost predicate RecordFits(def: Def, input: Vars, run: Run)
    requires def != []
  {
    && run.vars == Folded(input, run.attempts) && run.steps <= 25
    && (run.status == Completed <==> Place(def, input, run.attempts, None))
    && (run.status == AwaitingApproval ==> Place(def, input, run.attempts, run.pending))
    && (run.status == Refused ==>
         && run.approvals != []
         && var last := run.approvals[|run.approvals| - 1];
            Place(def, input, run.attempts, Some(last.step)) && run.error == Some(RejectedBy(last.step, last.actor)))
    && (run.status == Broken ==> SaysWhy(def, input, run))
    && (run.attempts != [] ==> run.attempts[|run.attempts| - 1].status != Retried)
  }

  lemma RecordFitsLog(def: Def, oracle: Oracle, input: Vars, run: Run)
    requires ValidDef(def) && Explained(def, oracle, input, run) && run.status != Running && run.steps <= MAX_STEPS_PER_RUN
    ensures RecordFits(def, input, run)
  {
    ReplayPlace(def, oracle, input, run.attempts);
    var p, log := Replay(def, input, run.attempts), run.attempts;
    if log != [] {
      EntryLaws(def, oracle, input, log, |log| - 1);
    }
    if run.status == Broken {
      var name := p.current.value;
      assert log == [] || log[|log| - 1].status == Succeeded ==> Place(def, input, log, Some(name));
    }
  }

  /** After any answers at the gates: the log starts with the entry step; every entry is what its step answered in the
      input folded with the updates before it; after a success comes the step that the transition leads to in that state;
      a run is completed iff the last transition leads to the end; a waiting or refused run is at its gate; and a failed
      one says why. */
  lemma StepsFollowTransitions(def: Def, oracle: Oracle, input: Vars, answers: seq<Gates.Answer>)
    requires ValidDef(def)
    ensures var run := Gates.Session(def, oracle, input, answers);
      && (forall i :: 0 <= i < |run.attempts| ==> Records(def, oracle, input, run.attempts, i))
      && (forall i :: 0 <= i < |run.attempts| ==> Follows(def, input, run.attempts, i))
      && RecordFits(def, input, run)
  {
    var run := Gates.Session(def, oracle, input, answers);
    LogExplainsRun(def, oracle, input, answers);
    forall i | 0 <= i < |run.attempts|
      ensures Records(def, oracle, input, run.attempts, i) && Follows(def, input, run.attempts, i)
    {
      EntryLaws(def, oracle, input, run.attempts, i);
    }
    RecordFitsLog(def, oracle, input, run);
  }
}

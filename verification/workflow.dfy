/** The workflow engine: branching steps, retries, a step budget and approval gates. */
module Workflow {
  import opened Wrappers

  const MAX_STEPS_PER_RUN: nat := 25

  // The shared state dict.
  type Vars = map<string, string>

  datatype Transition = End | Goto(name: string) | Branch(choose: Vars -> Option<string>)

  datatype Step = Step(name: string, next: Transition, maxAttempts: int, requiresApproval: bool)

  type Def = seq<Step>

  // What one call of a step function does.
  datatype Outcome = Updates(updates: Vars) | Failure(error: string)

  // The step functions, as an oracle over the step, the state it sees and the attempts made so far in the run.
  type Oracle = (string, Vars, nat) -> Outcome

  datatype AttemptStatus = Succeeded | Failed | Retried

  datatype Attempt = Attempt(step: string, attempt: int, status: AttemptStatus, error: Option<string>, updates: Vars)

  datatype Decision = Approved | Rejected

  datatype Approval = Approval(step: string, decision: Decision, actor: string, reason: Option<string>)

  datatype Status = Running | Completed | Broken | AwaitingApproval | Refused

  datatype Error = BudgetExceeded | StepFailed(step: string, attempts: int) | RejectedBy(step: string, actor: string)

  // The run record, without its id, timestamps and latencies.
  datatype Run = Run(status: Status, vars: Vars, attempts: seq<Attempt>, approvals: seq<Approval>,
                     pending: Option<string>, error: Option<Error>, steps: nat)

  // ----- Definitions -----

  predicate Known(def: Def, name: string) {
    exists i :: 0 <= i < |def| && def[i].name == name
  }

  // The checks made when a definition is built, and branch functions that name known steps.
  ghost predicate ValidDef(def: Def) {
    && def != []
    && (forall i, j :: 0 <= i < j < |def| ==> def[i].name != def[j].name)
    && (forall i :: 0 <= i < |def| ==> KnownTargets(def, def[i].next))
  }

  ghost predicate KnownTargets(def: Def, next: Transition) {
    match next
    case End => true
    case Goto(name) => Known(def, name)
    case Branch(choose) => forall vars :: choose(vars).Some? ==> Known(def, choose(vars).value)
  }

  function StepNamed(def: Def, name: string): (step: Step)
    requires Known(def, name)
    ensures step in def && step.name == name
  {
    if def[0].name == name then def[0]
    else
      assert Known(def[1..], name) by {
        var i :| 0 <= i < |def| && def[i].name == name;
        assert def[1..][i - 1].name == name;
      }
      StepNamed(def[1..], name)
  }

  function Following(step: Step, vars: Vars): Option<string> {
    match step.next
    case End => None
    case Goto(name) => Some(name)
    case Branch(choose) => choose(vars)
  }

  predicate KnownOrEnd(def: Def, current: Option<string>) {
    current.Some? ==> Known(def, current.value)
  }

  lemma FollowingKnown(def: Def, step: Step, vars: Vars)
    requires ValidDef(def) && step in def
    ensures KnownOrEnd(def, Following(step, vars))
  {
    var i :| 0 <= i < |def| && def[i] == step;
    assert KnownTargets(def, def[i].next);
  }

  predicate IsApproved(approvals: seq<Approval>, name: string) {
    exists i :: 0 <= i < |approvals| && approvals[i].step == name && approvals[i].decision == Approved
  }

  predicate IsGate(def: Def, name: string) {
    exists i :: 0 <= i < |def| && def[i].name == name && def[i].requiresApproval
  }

  // ----- The engine -----

  function LogEntry(step: Step, k: int, o: Outcome): Attempt {
    match o
    case Updates(u) => Attempt(step.name, k, Succeeded, None, u)
    case Failure(e) => Attempt(step.name, k, if k == step.maxAttempts then Failed else Retried, Some(e), map[])
  }

  // Attempts k, k+1, ... of a step, up to a success or the last one.
  function TryStep(oracle: Oracle, step: Step, run: Run, k: int): (r: (Run, bool))
    requires k >= 1
    ensures r.0.(vars := run.vars, attempts := run.attempts) == run
    decreases step.maxAttempts - k
  {
    if k > step.maxAttempts then (run, false)
    else
      var o := oracle(step.name, run.vars, |run.attempts|);
      var logged := run.(attempts := run.attempts + [LogEntry(step, k, o)]);
      if o.Updates? then (logged.(vars := run.vars + o.updates), true) else TryStep(oracle, step, logged, k + 1)
  }

  function Close(run: Run): Run {
    if run.status == Running then run.(status := Completed) else run
  }

  // One pass of the engine from `current`, up to the end, a failure or a gate.
  ghost function Drive(def: Def, oracle: Oracle, run: Run, current: Option<string>): (r: Run)
    requires ValidDef(def) && KnownOrEnd(def, current)
    requires run.status == Running && run.pending.None?
    ensures r.approvals == run.approvals && r.status != Running && r.status != Refused
    ensures r.steps <= MAX_STEPS_PER_RUN || r.steps == run.steps
    ensures r.status == AwaitingApproval <==> r.pending.Some?
    ensures r.pending.Some? ==> IsGate(def, r.pending.value) && !IsApproved(run.approvals, r.pending.value)
    decreases MAX_STEPS_PER_RUN - run.steps
  {
    if current.None? then Close(run)
    else if run.steps >= MAX_STEPS_PER_RUN then run.(status := Broken, error := Some(BudgetExceeded))
    else
      var step := StepNamed(def, current.value);
      if step.requiresApproval && !IsApproved(run.approvals, step.name) then
        run.(status := AwaitingApproval, pending := Some(step.name))
      else
        var (tried, succeeded) := TryStep(oracle, step, run.(steps := run.steps + 1), 1);
        if !succeeded then tried.(status := Broken, error := Some(StepFailed(step.name, step.maxAttempts)))
        else
          FollowingKnown(def, step, tried.vars);
          Drive(def, oracle, tried, Following(step, tried.vars))
  }

  // A pass through a step that is not a closed gate.
  lemma {:induction false} DriveStep(def: Def, oracle: Oracle, run: Run, name: string, step: Step, tried: Run, ok: bool)
    requires ValidDef(def) && Known(def, name) && run.status == Running && run.pending.None?
    requires run.steps < MAX_STEPS_PER_RUN && step == StepNamed(def, name)
    requires !(step.requiresApproval && !IsApproved(run.approvals, name))
    requires (tried, ok) == TryStep(oracle, step, run.(steps := run.steps + 1), 1)
    ensures KnownOrEnd(def, Following(step, tried.vars))
    ensures Drive(def, oracle, run, Some(name)) ==
      if ok then Drive(def, oracle, tried, Following(step, tried.vars))
      else tried.(status := Broken, error := Some(StepFailed(name, step.maxAttempts)))
  {
    FollowingKnown(def, step, tried.vars);
  }

  function Start(input: Vars): Run {
    Run(Running, input, [], [], None, None, 0)
  }

  ghost function Execute(def: Def, oracle: Oracle, input: Vars): Run
    requires ValidDef(def)
  {
    assert def[0].name == def[0].name;
    Drive(def, oracle, Start(input), Some(def[0].name))
  }

  // The run is at a gate, which resume demands of its caller.
  predicate AtGate(run: Run) {
    run.status == AwaitingApproval && run.pending.Some?
  }

  function Decided(run: Run, d: Decision, actor: string, reason: Option<string>): Run
    requires AtGate(run)
  {
    var gate := run.pending.value;
    var recorded := run.(approvals := run.approvals + [Approval(gate, d, actor, reason)], pending := None);
    if d.Rejected? then recorded.(status := Refused, error := Some(RejectedBy(gate, actor)))
    else recorded.(status := Running)
  }

  datatype Resumption = Resumed(run: Run) | NotAwaiting

  ghost function Resume(def: Def, oracle: Oracle, run: Run, d: Decision, actor: string, reason: Option<string>): Resumption
    requires ValidDef(def) && (run.pending.Some? ==> Known(def, run.pending.value))
  {
    if !AtGate(run) then NotAwaiting
    else
      var decided := Decided(run, d, actor, reason);
      Resumed(if d.Rejected? then decided else Drive(def, oracle, decided, run.pending))
  }

  // ----- The run record, updated in place -----

  class WorkflowRun {
    var status: Status
    var vars: Vars
    var attempts: seq<Attempt>
    var approvals: seq<Approval>
    var pending: Option<string>
    var error: Option<Error>
    var steps: nat

    function View(): Run
      reads this
    {
      Run(status, vars, attempts, approvals, pending, error, steps)
    }

    constructor (input: Vars)
      ensures View() == Start(input)
    {
      status, vars, attempts, approvals, pending, error, steps := Running, input, [], [], None, None, 0;
    }

    // The retry loop.
    method RunAttempts(oracle: Oracle, step: Step) returns (succeeded: bool)
      modifies this`vars, this`attempts
      ensures (View(), succeeded) == TryStep(oracle, step, old(View()), 1)
    {
      for k := 1 to if step.maxAttempts < 1 then 1 else step.maxAttempts + 1
        invariant k > step.maxAttempts ==> step.maxAttempts < 1 || k == step.maxAttempts + 1
        invariant TryStep(oracle, step, View(), k) == TryStep(oracle, step, old(View()), 1)
      {
        var o := oracle(step.name, vars, |attempts|);
        attempts := attempts + [LogEntry(step, k, o)];
        if o.Updates? {
          vars := vars + o.updates;
          return true;
        }
      }
      return false;
    }

    // One counted step with its retries; a failure ends the run.
    method TakeStep(oracle: Oracle, step: Step) returns (succeeded: bool)
      modifies this`steps, this`vars, this`attempts, this`status, this`error
      ensures var (tried, ok) := TryStep(oracle, step, old(View()).(steps := old(steps) + 1), 1);
              && succeeded == ok
              && View() == if ok then tried else tried.(status := Broken, error := Some(StepFailed(step.name, step.maxAttempts)))
    {
      steps := steps + 1;
      succeeded := RunAttempts(oracle, step);
      if !succeeded {
        status, error := Broken, Some(StepFailed(step.name, step.maxAttempts));
      }
    }

    // One turn of the engine's loop.
    method Turn(def: Def, oracle: Oracle, name: string) returns (next: Option<string>, stopped: bool)
      requires ValidDef(def) && Known(def, name) && status == Running && pending.None?
      modifies this
      ensures stopped ==> View() == Drive(def, oracle, old(View()), Some(name))
      ensures !stopped ==>
        && old(steps) < steps <= MAX_STEPS_PER_RUN && status == Running && pending.None? && KnownOrEnd(def, next)
        && Drive(def, oracle, View(), next) == Drive(def, oracle, old(View()), Some(name))
    {
      if steps >= MAX_STEPS_PER_RUN {
        status, error := Broken, Some(BudgetExceeded);
        return None, true;
      }
      ghost var before := View();
      var step := StepNamed(def, name);
      if step.requiresApproval && !IsApproved(approvals, step.name) {
        status, pending := AwaitingApproval, Some(step.name);
        return None, true;
      }
      var succeeded := TakeStep(oracle, step);
      ghost var tried := TryStep(oracle, step, before.(steps := before.steps + 1), 1);
      DriveStep(def, oracle, before, name, step, tried.0, tried.1);
      return Following(step, vars), !succeeded;
    }

    method DriveFrom(def: Def, oracle: Oracle, start: Option<string>)
      requires ValidDef(def) && KnownOrEnd(def, start) && status == Running && pending.None?
      modifies this
      ensures View() == Drive(def, oracle, old(View()), start)
    {
      var current := start;
      while current.Some?
        invariant KnownOrEnd(def, current) && status == Running && pending.None?
        invariant Drive(def, oracle, View(), current) == Drive(def, oracle, old(View()), start)
        decreases MAX_STEPS_PER_RUN - steps, current.Some?
      {
        var next, stopped := Turn(def, oracle, current.value);
        if stopped {
          return;
        }
        current := next;
      }
      status := Completed;
    }

    method ResumeRun(def: Def, oracle: Oracle, d: Decision, actor: string, reason: Option<string>) returns (ok: bool)
      requires ValidDef(def) && (pending.Some? ==> Known(def, pending.value))
      modifies this
      ensures ok == AtGate(old(View()))
      ensures if ok then Resume(def, oracle, old(View()), d, actor, reason) == Resumed(View()) else View() == old(View())
    {
      if status != AwaitingApproval || pending.None? {
        return false;
      }
      var gate := pending;
      approvals := approvals + [Approval(gate.value, d, actor, reason)];
      pending := None;
      if d.Rejected? {
        status, error := Refused, Some(RejectedBy(gate.value, actor));
        return true;
      }
      status := Running;
      DriveFrom(def, oracle, gate);
      return true;
    }
  }

  method ExecuteRun(def: Def, oracle: Oracle, input: Vars) returns (run: WorkflowRun)
    requires ValidDef(def)
    ensures fresh(run) && run.View() == Execute(def, oracle, input)
  {
    run := new WorkflowRun(input);
    assert def[0].name == def[0].name;
    run.DriveFrom(def, oracle, Some(def[0].name));
  }
}

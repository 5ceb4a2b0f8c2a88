/** Approval gates: approving them all is running without them, and no gated step runs unapproved. */
module WorkflowGates {
  import opened Wrappers
  import opened Workflow

  // ----- One pass -----

  // Gates are still closed: a suspended run waits at a gate without an approval.
  ghost predicate Suspension(def: Def, run: Run) {
    && (run.status == AwaitingApproval <==> run.pending.Some?)
    && (run.pending.Some? ==> IsGate(def, run.pending.value) && !IsApproved(run.approvals, run.pending.value))
  }

  function Unapproved(def: Def, approvals: seq<Approval>): set<string> {
    set i | 0 <= i < |def| && def[i].requiresApproval && !IsApproved(approvals, def[i].name) :: def[i].name
  }

  lemma ApprovalShrinks(def: Def, run: Run, actor: string)
    requires AtGate(run) && Suspension(def, run)
    ensures var decided := Decided(run, Approved, actor, None);
      && IsApproved(decided.approvals, run.pending.value)
      && |Unapproved(def, decided.approvals)| < |Unapproved(def, run.approvals)|
  {
    var gate, after := run.pending.value, Decided(run, Approved, actor, None).approvals;
    assert after[|run.approvals|].step == gate;
    forall name | IsApproved(run.approvals, name) ensures IsApproved(after, name) {
      var i :| 0 <= i < |run.approvals| && run.approvals[i].step == name && run.approvals[i].decision == Approved;
      assert after[i] == run.approvals[i];
    }
    assert gate in Unapproved(def, run.approvals);
    assert Unapproved(def, after) <= Unapproved(def, run.approvals) - {gate};
    Smaller(Unapproved(def, after), Unapproved(def, run.approvals) - {gate});
  }

  lemma Smaller<T>(a: set<T>, b: set<T>)
    requires a <= b
    ensures |a| <= |b|
  {
    assert |b - a| == |b| - |a|;
  }

  // Approve every suspension until the run ends.
  ghost function ApproveAll(def: Def, oracle: Oracle, run: Run, actor: string): (r: Run)
    requires ValidDef(def) && Suspension(def, run)
    ensures !AtGate(r)
    ensures |r.approvals| <= |run.approvals| + |Unapproved(def, run.approvals)|
    decreases |Unapproved(def, run.approvals)|
  {
    if !AtGate(run) then run
    else
      ApprovalShrinks(def, run, actor);
      ApproveAll(def, oracle, Drive(def, oracle, Decided(run, Approved, actor, None), run.pending), actor)
  }

  // ----- The same workflow without gates -----

  function Open(step: Step): Step {
    step.(requiresApproval := false)
  }

  function Ungated(def: Def): (r: Def)
    ensures |r| == |def|
  {
    seq(|def|, i requires 0 <= i < |def| => Open(def[i]))
  }

  lemma {:induction false} KnownUngated(def: Def, name: string)
    ensures Known(Ungated(def), name) <==> Known(def, name)
  {
    if Known(def, name) {
      var i :| 0 <= i < |def| && def[i].name == name;
      assert Ungated(def)[i].name == name;
    }
  }

  lemma UngatedValid(def: Def)
    requires ValidDef(def)
    ensures ValidDef(Ungated(def))
  {
    forall name ensures Known(Ungated(def), name) <==> Known(def, name) {
      KnownUngated(def, name);
    }
    forall i | 0 <= i < |def| ensures KnownTargets(Ungated(def), Ungated(def)[i].next) {
      assert KnownTargets(def, def[i].next);
    }
  }

  lemma {:induction false} StepUngated(def: Def, name: string)
    requires ValidDef(def) && Known(def, name)
    ensures Known(Ungated(def), name) && StepNamed(Ungated(def), name) == Open(StepNamed(def, name))
  {
    KnownUngated(def, name);
    var step, open := StepNamed(def, name), StepNamed(Ungated(def), name);
    var i :| 0 <= i < |def| && def[i] == step;
    var j :| 0 <= j < |def| && Ungated(def)[j] == open;
    assert def[j].name == name;
  }

  // A step's attempts depend neither on its gate nor on the approvals so far.
  lemma {:induction false} TryIgnoresGate(oracle: Oracle, step: Step, run: Run, k: int, approvals: seq<Approval>)
    requires k >= 1
    ensures var (r, ok) := TryStep(oracle, step, run, k);
      TryStep(oracle, Open(step), run.(approvals := approvals), k) == (r.(approvals := approvals), ok)
    decreases step.maxAttempts - k
  {
    if k <= step.maxAttempts {
      var o := oracle(step.name, run.vars, |run.attempts|);
      TryIgnoresGate(oracle, step, run.(attempts := run.attempts + [LogEntry(step, k, o)]), k + 1, approvals);
    }
  }

  // The ungated workflow takes such a step alike.
  lemma {:induction false} SameStep(def: Def, oracle: Oracle, run: Run, name: string, approvals: seq<Approval>, step: Step, tried: Run, ok: bool)
    requires ValidDef(def) && ValidDef(Ungated(def)) && Known(def, name) && Known(Ungated(def), name)
    requires run.status == Running && run.pending.None? && run.steps < MAX_STEPS_PER_RUN
    requires step == StepNamed(def, name) && (tried, ok) == TryStep(oracle, step, run.(steps := run.steps + 1), 1)
    ensures KnownOrEnd(Ungated(def), Following(step, tried.vars))
    ensures Drive(Ungated(def), oracle, run.(approvals := approvals), Some(name)) ==
      if ok then Drive(Ungated(def), oracle, tried.(approvals := approvals), Following(step, tried.vars))
      else tried.(approvals := approvals, status := Broken, error := Some(StepFailed(name, step.maxAttempts)))
  {
    StepUngated(def, name);
    TryIgnoresGate(oracle, step, run.(steps := run.steps + 1), 1, approvals);
    DriveStep(Ungated(def), oracle, run.(approvals := approvals), name, Open(step), tried.(approvals := approvals), ok);
  }

  /** From any point of a pass: approving every suspension gives what the ungated workflow gives, but for the
      approval records. */
  lemma {:induction false} DriveTransparent(def: Def, oracle: Oracle, run: Run, current: Option<string>, actor: string,
                                            approvals: seq<Approval>, gated: Run, plain: Run)
    requires ValidDef(def) && ValidDef(Ungated(def))
    requires KnownOrEnd(def, current) && KnownOrEnd(Ungated(def), current)
    requires run.status == Running && run.pending.None?
    requires gated == Drive(def, oracle, run, current)
    requires plain == Drive(Ungated(def), oracle, run.(approvals := approvals), current)
    ensures ApproveAll(def, oracle, gated, actor).(approvals := approvals) == plain
    decreases MAX_STEPS_PER_RUN - run.steps, |Unapproved(def, run.approvals)|
  {
    if current.Some? && run.steps < MAX_STEPS_PER_RUN {
      var step := StepNamed(def, current.value);
      if step.requiresApproval && !IsApproved(run.approvals, step.name) {
        var waiting := run.(status := AwaitingApproval, pending := current);
        assert gated == waiting;
        ApprovalShrinks(def, waiting, actor);
        var decided := Decided(waiting, Approved, actor, None);
        DriveTransparent(def, oracle, decided, current, actor, approvals, Drive(def, oracle, decided, current), plain);
      } else {
        var (tried, ok) := TryStep(oracle, step, run.(steps := run.steps + 1), 1);
        DriveStep(def, oracle, run, current.value, step, tried, ok);
        SameStep(def, oracle, run, current.value, approvals, step, tried, ok);
        if ok {
          DriveTransparent(def, oracle, tried, Following(step, tried.vars), actor, approvals, gated, plain);
        }
      }
    }
  }

  /** Approve-all transparency: the gated run, every suspension approved, ends with the status, state, attempt log,
      step count and error of the same workflow without gates, after at most one suspension for each gate. */
  lemma ApproveAllTransparency(def: Def, oracle: Oracle, input: Vars, actor: string)
    requires ValidDef(def)
    ensures ValidDef(Ungated(def))
    ensures var approved := ApproveAll(def, oracle, Execute(def, oracle, input), actor);
      && approved.(approvals := []) == Execute(Ungated(def), oracle, input)
      && |approved.approvals| <= |set i | 0 <= i < |def| && def[i].requiresApproval :: def[i].name|
  {
    UngatedValid(def);
    assert Ungated(def)[0].name == def[0].name;
    DriveTransparent(def, oracle, Start(input), Some(def[0].name), actor, [],
                     Execute(def, oracle, input), Execute(Ungated(def), oracle, input));
    assert Unapproved(def, []) == set i | 0 <= i < |def| && def[i].requiresApproval :: def[i].name;
  }

  // ----- Whole sessions: any answers at the gates -----

  datatype Answer = Answer(decision: Decision, actor: string, reason: Option<string>)

  predicate GatedAttemptsApproved(def: Def, attempts: seq<Attempt>, from: int, approvals: seq<Approval>) {
    forall k :: 0 <= from <= k < |attempts| && IsGate(def, attempts[k].step) ==> IsApproved(approvals, attempts[k].step)
  }

  ghost predicate GateInv(def: Def, run: Run) {
    && Suspension(def, run)
    && run.status != Running
    && (forall i :: 0 <= i < |run.approvals| ==> IsGate(def, run.approvals[i].step))
    // one record for each gate
    && (forall i, j :: 0 <= i < j < |run.approvals| ==> run.approvals[i].step != run.approvals[j].step)
    && (run.pending.Some? ==> forall i :: 0 <= i < |run.approvals| ==> run.approvals[i].step != run.pending.value)
    // a rejection ends the run
    && (forall i :: 0 <= i < |run.approvals| ==>
         (run.approvals[i].decision == Rejected <==> run.status == Refused && i == |run.approvals| - 1))
    && (run.status == Refused ==> run.approvals != [])
    && GatedAttemptsApproved(def, run.attempts, 0, run.approvals)
    && run.steps <= MAX_STEPS_PER_RUN
  }

  lemma GateIsUnique(def: Def, step: Step)
    requires ValidDef(def) && step in def
    ensures IsGate(def, step.name) <==> step.requiresApproval
  {
    var i :| 0 <= i < |def| && def[i] == step;
  }

  lemma {:induction false} TryAppends(oracle: Oracle, step: Step, run: Run, k: int)
    requires k >= 1
    ensures var r := TryStep(oracle, step, run, k).0;
      && run.attempts <= r.attempts
      && forall i :: |run.attempts| <= i < |r.attempts| ==> r.attempts[i].step == step.name
    decreases step.maxAttempts - k
  {
    if k <= step.maxAttempts {
      var o := oracle(step.name, run.vars, |run.attempts|);
      TryAppends(oracle, step, run.(attempts := run.attempts + [LogEntry(step, k, o)]), k + 1);
    }
  }

  /** Within one pass, every new attempt of a gated step follows an approval that was there before the pass began. */
  lemma {:induction false} DriveRespectsGates(def: Def, oracle: Oracle, run: Run, current: Option<string>)
    requires ValidDef(def) && KnownOrEnd(def, current) && run.status == Running && run.pending.None?
    ensures run.attempts <= Drive(def, oracle, run, current).attempts
    ensures GatedAttemptsApproved(def, Drive(def, oracle, run, current).attempts, |run.attempts|, run.approvals)
    decreases MAX_STEPS_PER_RUN - run.steps
  {
    if current.Some? && run.steps < MAX_STEPS_PER_RUN {
      var step := StepNamed(def, current.value);
      GateIsUnique(def, step);
      if !(step.requiresApproval && !IsApproved(run.approvals, step.name)) {
        var counted := run.(steps := run.steps + 1);
        TryAppends(oracle, step, counted, 1);
        var (tried, ok) := TryStep(oracle, step, counted, 1);
        if ok {
          FollowingKnown(def, step, tried.vars);
          DriveRespectsGates(def, oracle, tried, Following(step, tried.vars));
        }
      }
    }
  }

  // The run after answering suspensions; an answer to a run that is not suspended is refused and changes nothing.
  ghost function Session(def: Def, oracle: Oracle, input: Vars, answers: seq<Answer>): (run: Run)
    requires ValidDef(def)
    ensures GateInv(def, run)
    decreases |answers|
  {
    if answers == [] then
      DriveRespectsGates(def, oracle, Start(input), Some(def[0].name));
      Execute(def, oracle, input)
    else
      var before := Session(def, oracle, input, answers[..|answers| - 1]);
      AnswerKeepsGates(def, oracle, before, answers[|answers| - 1]);
      Answered(def, oracle, before, answers[|answers| - 1])
  }

  ghost function Answered(def: Def, oracle: Oracle, run: Run, a: Answer): Run
    requires ValidDef(def) && GateInv(def, run)
  {
    match Resume(def, oracle, run, a.decision, a.actor, a.reason)
    case Resumed(r) => r
    case NotAwaiting => run
  }

  lemma ApprovedAppend(approvals: seq<Approval>, a: Approval, name: string)
    ensures IsApproved(approvals + [a], name) <==> IsApproved(approvals, name) || (a.step == name && a.decision == Approved)
  {
    if IsApproved(approvals, name) {
      var i :| 0 <= i < |approvals| && approvals[i].step == name && approvals[i].decision == Approved;
      assert (approvals + [a])[i] == approvals[i];
    }
    assert (approvals + [a])[|approvals|] == a;
  }

  lemma AnswerKeepsGates(def: Def, oracle: Oracle, run: Run, a: Answer)
    requires ValidDef(def) && GateInv(def, run)
    ensures GateInv(def, Answered(def, oracle, run, a))
    ensures run.attempts <= Answered(def, oracle, run, a).attempts
    ensures run.approvals <= Answered(def, oracle, run, a).approvals
  {
    if AtGate(run) {
      var decided := Decided(run, a.decision, a.actor, a.reason);
      var record := decided.approvals[|run.approvals|];
      forall name ensures IsApproved(decided.approvals, name) <==>
          IsApproved(run.approvals, name) || (record.step == name && record.decision == Approved) {
        ApprovedAppend(run.approvals, record, name);
      }
      assert forall i :: 0 <= i < |run.approvals| ==> run.approvals[i].decision == Approved;
      if a.decision == Approved {
        DriveRespectsGates(def, oracle, decided, run.pending);
        var r := Drive(def, oracle, decided, run.pending);
        forall k | 0 <= k < |r.attempts| && IsGate(def, r.attempts[k].step) ensures IsApproved(r.approvals, r.attempts[k].step) {
          if k < |run.attempts| {
            assert run.attempts[k] == r.attempts[k];
          }
        }
        if r.pending.Some? {
          PendingIsNew(r.approvals, r.pending.value);
        }
      }
    }
  }

  /** An answer to a waiting run adds one record, with its gate and the answer's own words; a rejection ends the run there
      with nothing executed, and names the gate and the actor; an answer to any other run changes nothing. */
  lemma AnswerRecorded(def: Def, oracle: Oracle, run: Run, a: Answer)
    requires ValidDef(def) && GateInv(def, run)
    ensures var r := Answered(def, oracle, run, a);
      && (run.status == AwaitingApproval ==>
           r.approvals == run.approvals + [Approval(run.pending.value, a.decision, a.actor, a.reason)])
      && (run.status == AwaitingApproval && a.decision == Rejected ==>
           && r.status == Refused && r.error == Some(RejectedBy(run.pending.value, a.actor)) && r.pending == None
           && r.attempts == run.attempts && r.vars == run.vars && r.steps == run.steps)
      && (run.status != AwaitingApproval ==> r == run)
  {
  }

  // When every record is an approval, a step without approval has no record.
  lemma PendingIsNew(approvals: seq<Approval>, name: string)
    requires !IsApproved(approvals, name)
    requires forall i :: 0 <= i < |approvals| ==> approvals[i].decision == Approved
    ensures forall i :: 0 <= i < |approvals| ==> approvals[i].step != name
  {
  }

  lemma RejectedNotApproved(approvals: seq<Approval>, i: nat)
    requires forall j, k :: 0 <= j < k < |approvals| ==> approvals[j].step != approvals[k].step
    requires i < |approvals| && approvals[i].decision == Rejected
    ensures !IsApproved(approvals, approvals[i].step)
  {
  }

  /** Gate safety over whole sessions: the run awaits approval iff a gate is pending, an attempt of a gated step has an
      approval, a rejected gate never has an attempt, and each gate has at most one record. */
  lemma GateSafety(def: Def, oracle: Oracle, input: Vars, answers: seq<Answer>)
    requires ValidDef(def)
    ensures var run := Session(def, oracle, input, answers);
      && (run.status == AwaitingApproval <==> run.pending.Some?)
      && (forall k :: 0 <= k < |run.attempts| && IsGate(def, run.attempts[k].step) ==>
           IsApproved(run.approvals, run.attempts[k].step))
      && (forall i, k :: 0 <= i < |run.approvals| && 0 <= k < |run.attempts| && run.approvals[i].decision == Rejected ==>
           run.attempts[k].step != run.approvals[i].step)
      && (forall i, j :: 0 <= i < j < |run.approvals| ==> run.approvals[i].step != run.approvals[j].step)
  {
    var run := Session(def, oracle, input, answers);
    assert GatedAttemptsApproved(def, run.attempts, 0, run.approvals);
    forall i, k | 0 <= i < |run.approvals| && 0 <= k < |run.attempts| && run.approvals[i].decision == Rejected
      ensures run.attempts[k].step != run.approvals[i].step
    {
      assert IsGate(def, run.approvals[i].step);
      RejectedNotApproved(run.approvals, i);
    }
  }

  /** What was logged or approved by an earlier answer is still there: an attempt already in the log after the first
      j answers was approved by then. */
  lemma {:induction false} LogsOnlyGrow(def: Def, oracle: Oracle, input: Vars, answers: seq<Answer>, j: nat)
    requires ValidDef(def) && j <= |answers|
    ensures Session(def, oracle, input, answers[..j]).attempts <= Session(def, oracle, input, answers).attempts
    ensures Session(def, oracle, input, answers[..j]).approvals <= Session(def, oracle, input, answers).approvals
    decreases |answers|
  {
    if j < |answers| {
      var front := answers[..|answers| - 1];
      LogsOnlyGrow(def, oracle, input, front, j);
      assert front[..j] == answers[..j];
      AnswerKeepsGates(def, oracle, Session(def, oracle, input, front), answers[|answers| - 1]);
    } else {
      assert answers[..j] == answers;
    }
  }

  // The j-th answer approved the gate.
  ghost predicate ApprovesAt(def: Def, oracle: Oracle, input: Vars, answers: seq<Answer>, j: nat, gate: string)
    requires ValidDef(def)
  {
    && j < |answers| && answers[j].decision == Approved
    && var before := Session(def, oracle, input, answers[..j]);
       AtGate(before) && before.pending.value == gate
  }

  lemma {:induction false} ApprovedBy(def: Def, oracle: Oracle, input: Vars, answers: seq<Answer>, gate: string) returns (j: nat)
    requires ValidDef(def) && IsApproved(Session(def, oracle, input, answers).approvals, gate)
    ensures ApprovesAt(def, oracle, input, answers, j, gate)
    decreases |answers|
  {
    var front, a := answers[..|answers| - 1], answers[|answers| - 1];
    var run := Session(def, oracle, input, front);
    if IsApproved(run.approvals, gate) {
      j := ApprovedBy(def, oracle, input, front, gate);
      assert front[..j] == answers[..j];
    } else {
      j := |front|;
      var decided := Decided(run, a.decision, a.actor, a.reason);
      ApprovedAppend(run.approvals, decided.approvals[|run.approvals|], gate);
    }
  }

  lemma ApprovesEarlier(def: Def, oracle: Oracle, input: Vars, answers: seq<Answer>, n: nat, j: nat, gate: string)
    requires ValidDef(def) && n <= |answers| && ApprovesAt(def, oracle, input, answers[..n], j, gate)
    ensures ApprovesAt(def, oracle, input, answers, j, gate) && answers[..n][..j] == answers[..j]
  {
    assert answers[..n][..j] == answers[..j];
  }

  // An attempt that the last answer did not add was there before, for the same step.
  lemma LoggedBefore(def: Def, oracle: Oracle, input: Vars, answers: seq<Answer>, n: nat, k: nat)
    requires ValidDef(def) && n <= |answers| && k < |Session(def, oracle, input, answers[..n]).attempts|
    ensures k < |Session(def, oracle, input, answers).attempts|
    ensures Session(def, oracle, input, answers[..n]).attempts[k] == Session(def, oracle, input, answers).attempts[k]
  {
    LogsOnlyGrow(def, oracle, input, answers, n);
  }

  // The length of the log after the first n answers.
  ghost function LogLength(def: Def, oracle: Oracle, input: Vars, answers: seq<Answer>, n: nat): nat
    requires ValidDef(def) && n <= |answers|
  {
    |Session(def, oracle, input, answers[..n]).attempts|
  }

  lemma {:induction false} LogLengthGrows(def: Def, oracle: Oracle, input: Vars, answers: seq<Answer>, j: nat, n: nat)
    requires ValidDef(def) && j <= n <= |answers|
    ensures LogLength(def, oracle, input, answers, j) <= LogLength(def, oracle, input, answers, n)
  {
    LogsOnlyGrow(def, oracle, input, answers[..n], j);
    assert answers[..n][..j] == answers[..j];
  }

  // The first answers after which attempt k is in the log.
  lemma {:induction false} FirstLogged(def: Def, oracle: Oracle, input: Vars, answers: seq<Answer>, n: nat, k: nat)
    returns (m: nat)
    requires ValidDef(def) && n <= |answers| && k < LogLength(def, oracle, input, answers, n)
    ensures m <= n && k < LogLength(def, oracle, input, answers, m)
    ensures forall i :: 0 <= i < m ==> LogLength(def, oracle, input, answers, i) <= k
    decreases n
  {
    if n > 0 && k < LogLength(def, oracle, input, answers, n - 1) {
      m := FirstLogged(def, oracle, input, answers, n - 1, k);
    } else {
      m := n;
      forall i | 0 <= i < m ensures LogLength(def, oracle, input, answers, i) <= k {
        LogLengthGrows(def, oracle, input, answers, i, n - 1);
      }
    }
  }

  lemma {:induction false} ApprovedWhenLogged(def: Def, oracle: Oracle, input: Vars, answers: seq<Answer>, n: nat, k: nat, gate: string)
    returns (j: nat)
    requires ValidDef(def) && n <= |answers| && k < |Session(def, oracle, input, answers[..n]).attempts|
    requires k < |Session(def, oracle, input, answers).attempts|
    requires gate == Session(def, oracle, input, answers).attempts[k].step && IsGate(def, gate)
    ensures j < n && ApprovesAt(def, oracle, input, answers, j, gate)
  {
    LoggedBefore(def, oracle, input, answers, n, k);
    j := ApprovedBy(def, oracle, input, answers[..n], gate);
    ApprovesEarlier(def, oracle, input, answers, n, j, gate);
  }

  /** Any attempt of a gated step comes after its approval: some answer approved the gate before the attempt was in the
      log. */
  lemma {:induction false} ApprovalPrecedesAttempt(def: Def, oracle: Oracle, input: Vars, answers: seq<Answer>, k: nat,
                                                   gate: string)
    returns (j: nat)
    requires ValidDef(def) && k < |Session(def, oracle, input, answers).attempts|
    requires gate == Session(def, oracle, input, answers).attempts[k].step && IsGate(def, gate)
    ensures ApprovesAt(def, oracle, input, answers, j, gate) && j <= |answers|
    ensures LogLength(def, oracle, input, answers, j) <= k
  {
    assert answers[..|answers|] == answers;
    var n := FirstLogged(def, oracle, input, answers, |answers|, k);
    j := ApprovedWhenLogged(def, oracle, input, answers, n, k, gate);
  }
}

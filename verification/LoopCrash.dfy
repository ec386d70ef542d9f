/** The outer loop, its state file and its runtime record as a machine of atomic steps that can stop anywhere
    (loop-modules/outer-loop.ts, loop-modules/state-file.ts, loop-modules/goal-manager.ts). A save writes a temporary
    file and renames it; the runtime record is written in place. One run of a goal is active at a time. */
module LoopCrash {
  import opened Wrappers
  import opened GateRunner
  import opened LoopModel

  datatype RuntimeStatus = Pending | Running | CompletedStatus | FailedStatus | ImpossibleStatus

  /** A file that is written in place: absent, cut off in the middle of a write, or whole. */
  datatype File<+T> = Absent | Torn | Whole(content: T)

  /** The turn being worked on: its gate outcomes are remembered until it is over. */
  datatype Phase =
    | Idle
    | Head(st: LoopState)
    | Gates(st: LoopState)                                 // the inner loop is done
    | Evaluating(st: LoopState, exec: Exec)                // the gates have passed
    | Saving(st: LoopState, exec: Exec, after: RuntimeStatus)
    | Renaming(st: LoopState, exec: Exec, after: RuntimeStatus) // the temporary file is written
    | Marking(st: LoopState, status: RuntimeStatus)        // about to write the runtime record

  /** Where the run stands, and the state file, its temporary file and the runtime record. */
  datatype Machine = Machine(phase: Phase, state: File<LoopState>, tmp: File<LoopState>, runtime: File<RuntimeStatus>)

  datatype Event =
    | Start
    | Stop                                                 // abort or budget at the loop head
    | InnerLoop(messages: seq<string>, tokensUsed: nat)
    | CheckGates(exec: Exec)
    | Evaluate(evaluation: Evaluation)
    | WriteTmp(whole: bool)                                // the write begins, or is over
    | Rename
    | WriteRuntime(whole: bool)
    | Throw                                                // the current call throws
    | Crash

  /** A state file that cannot be read loads like none. */
  function Load(m: Machine): LoopState { if m.state.Whole? then m.state.content else INITIAL }

  /** Gate commands that all pass. */
  function NoExec(): Exec { (k: nat, command: string) => CommandResult(command, true, 0, "", "") }

  /** After a save the run goes back to the loop head, or to the runtime record when the goal is decided. */
  function AfterSave(st: LoopState, after: RuntimeStatus): Phase {
    if after == Running then Head(st) else Marking(st, after)
  }

  /** After the runtime record the run begins its loop, or is over. */
  function AfterMark(st: LoopState, status: RuntimeStatus): Phase { if status == Running then Head(st) else Idle }

  function StatusFor(e: Evaluation): RuntimeStatus {
    match e.verdict
    case OkVerdict => CompletedStatus
    case ImpossibleVerdict => ImpossibleStatus
    case FalseVerdict => Running
  }

  /** One step; an event that cannot happen in the current phase has no effect. */
  function Next(commands: seq<string>, m: Machine, e: Event): Machine {
    match (e, m.phase)
    case (Crash, _) => m.(phase := Idle)
    case (Start, Idle) =>
      var st := Load(m);
      if st.completed then m
      else if m.runtime.Whole? then m.(phase := Marking(st, Running))
      else m                                               // updateStatus finds no record and throws
    case (Stop, Head(_)) => m.(phase := Idle)
    case (InnerLoop(messages, tokensUsed), Head(st)) => m.(phase := Gates(AfterInner(st, messages, tokensUsed)))
    case (CheckGates(exec), Gates(st)) =>
      var goal := Goal(0, 0, commands);
      var gate := CheckOutcome(commands, exec, false);
      var checked := AfterGates(goal, st, gate);
      m.(phase := if commands != [] && !gate.passed then Saving(checked, exec, Running) else Evaluating(checked, exec))
    case (Evaluate(evaluation), Evaluating(st, exec)) =>
      m.(phase := Saving(AfterEvaluation(st, evaluation), exec, StatusFor(evaluation)))
    case (WriteTmp(whole), Saving(st, exec, after)) =>
      if whole then m.(tmp := Whole(st), phase := Renaming(st, exec, after)) else m.(tmp := Torn)
    case (Rename, Renaming(st, _, after)) =>
      if m.tmp.Absent? then m                              // there is nothing to rename
      else m.(state := m.tmp, tmp := Absent, phase := AfterSave(st, after))
    case (WriteRuntime(whole), Marking(st, status)) =>
      if whole then m.(runtime := Whole(status), phase := AfterMark(st, status)) else m.(runtime := Torn)
    case (Throw, Marking(st, status)) =>
      // before the loop nothing catches it, and the handler's own failure is not caught either
      if status == Running || status == FailedStatus then m.(phase := Idle)
      else if m.runtime.Whole? then m.(phase := Marking(st, FailedStatus)) else m.(phase := Idle)
    case (Throw, Idle) => m
    case (Throw, _) => if m.runtime.Whole? then m.(phase := Marking(m.phase.st, FailedStatus)) else m.(phase := Idle)
    case _ => m
  }

  function Execute(commands: seq<string>, m: Machine, events: seq<Event>): Machine {
    if events == [] then m
    else Next(commands, Execute(commands, m, events[..|events| - 1]), events[|events| - 1])
  }

  /** A goal that has just been created. */
  const CREATED := Machine(Idle, Absent, Absent, Whole(Pending))

  // ---- what every step keeps

  /** The state says completed, its last evaluation is ok, and these gate outcomes let every command pass. */
  ghost predicate Earned(commands: seq<string>, st: LoopState, exec: Exec) {
    && st.lastEvaluation.Some? && st.lastEvaluation.value.verdict == OkVerdict
    && (commands != [] ==> AllPass(commands, exec) && st.lastGateFailure == None)
  }

  ghost predicate OneAhead(m: Machine, st: LoopState) { st.turns == Load(m).turns + 1 && !Load(m).completed }

  ghost predicate AboutToSave(commands: seq<string>, m: Machine, st: LoopState, exec: Exec, after: RuntimeStatus) {
    && OneAhead(m, st) && after in {Running, CompletedStatus, ImpossibleStatus}
    && (st.completed <==> after == CompletedStatus) && (st.completed ==> Earned(commands, st, exec))
  }

  ghost predicate PhaseInv(commands: seq<string>, m: Machine) {
    match m.phase
    case Idle => true
    case Head(st) => st == Load(m) && !st.completed
    case Gates(st) => OneAhead(m, st) && !st.completed
    case Evaluating(st, exec) =>
      OneAhead(m, st) && !st.completed && (commands != [] ==> AllPass(commands, exec) && st.lastGateFailure == None)
    case Saving(st, exec, after) => AboutToSave(commands, m, st, exec, after)
    case Renaming(st, exec, after) => AboutToSave(commands, m, st, exec, after) && m.tmp == Whole(st)
    case Marking(st, status) =>
      if status == FailedStatus then st == Load(m) || st.turns == Load(m).turns + 1
      else st == Load(m) && (st.completed <==> status == CompletedStatus)
  }

  ghost predicate Inv(commands: seq<string>, m: Machine) {
    && PhaseInv(commands, m) && !m.state.Torn?
    && (m.runtime == Whole(CompletedStatus) ==> Load(m).completed && m.phase.Idle?)
    && (!m.phase.Idle? && !m.phase.Marking? ==> m.runtime == Whole(Running))
  }

  lemma GatesKeepInv(commands: seq<string>, m: Machine, exec: Exec)
    requires Inv(commands, m) && m.phase.Gates?
    ensures Inv(commands, Next(commands, m, CheckGates(exec)))
  {
    CheckMeaning(commands, exec, false);
  }

  lemma EvaluateKeepsInv(commands: seq<string>, m: Machine, evaluation: Evaluation)
    requires Inv(commands, m)
    ensures Inv(commands, Next(commands, m, Evaluate(evaluation)))
  {
  }

  lemma RenameKeepsInv(commands: seq<string>, m: Machine)
    requires Inv(commands, m)
    ensures Inv(commands, Next(commands, m, Rename))
  {
  }

  lemma ThrowKeepsInv(commands: seq<string>, m: Machine)
    requires Inv(commands, m)
    ensures Inv(commands, Next(commands, m, Throw))
  {
  }

  lemma NextKeepsInv(commands: seq<string>, m: Machine, e: Event)
    requires Inv(commands, m)
    ensures Inv(commands, Next(commands, m, e))
  {
    match e
    case CheckGates(exec) => if m.phase.Gates? { GatesKeepInv(commands, m, exec); }
    case Evaluate(evaluation) => EvaluateKeepsInv(commands, m, evaluation);
    case Rename => RenameKeepsInv(commands, m);
    case Throw => ThrowKeepsInv(commands, m);
    case _ =>
  }

  lemma {:induction false} ExecutionKeepsInv(commands: seq<string>, m: Machine, events: seq<Event>)
    requires Inv(commands, m)
    ensures Inv(commands, Execute(commands, m, events))
  {
    if events != [] {
      ExecutionKeepsInv(commands, m, events[..|events| - 1]);
      NextKeepsInv(commands, Execute(commands, m, events[..|events| - 1]), events[|events| - 1]);
    }
  }

  /** The turns a running loop holds in memory, if it holds any. */
  function InMemory(m: Machine): Option<LoopState> { if m.phase.Idle? then None else Some(m.phase.st) }

  /** A save that was carried through: the state a run meant to save, and the gate outcomes of its turn. */
  datatype Save = Save(st: LoopState, exec: Exec)

  /** The last save that a course of events carried through, as the run that made it knew it. */
  function LastSave(commands: seq<string>, events: seq<Event>): Option<Save> {
    if events == [] then None
    else
      var init, e := events[..|events| - 1], events[|events| - 1];
      var phase := Execute(commands, CREATED, init).phase;
      if e.Rename? && phase.Renaming? then Some(Save(phase.st, phase.exec)) else LastSave(commands, init)
  }

  /** What is on disk is what the last save meant to put there. */
  ghost predicate Kept(commands: seq<string>, m: Machine, last: Option<Save>) {
    && Load(m) == (if last.Some? then last.value.st else INITIAL)
    && (Load(m).completed ==> last.Some? && Earned(commands, Load(m), last.value.exec))
  }

  lemma {:induction false} LastSaveIsKept(commands: seq<string>, events: seq<Event>)
    ensures Kept(commands, Execute(commands, CREATED, events), LastSave(commands, events))
  {
    if events != [] {
      var init := events[..|events| - 1];
      LastSaveIsKept(commands, init);
      ExecutionKeepsInv(commands, CREATED, init);
      SaveStep(commands, Execute(commands, CREATED, init), events[|events| - 1], LastSave(commands, init));
    }
  }

  lemma SaveStep(commands: seq<string>, m: Machine, e: Event, last: Option<Save>)
    requires Inv(commands, m) && Kept(commands, m, last)
    ensures Kept(commands, Next(commands, m, e),
                 if e.Rename? && m.phase.Renaming? then Some(Save(m.phase.st, m.phase.exec)) else last)
  {
  }

  /** For every order of runs, crashes, errors and resumes: loading gives the state of the last save that was carried
      through, never a torn one; a running loop is ahead of the disk
        by at most one turn; a persisted completion rests on
      an ok verdict and on gates that all passed; and a goal is only recorded as completed when its state is. */
  lemma CrashSafety(commands: seq<string>, events: seq<Event>)
    ensures var (m, last) := (Execute(commands, CREATED, events), LastSave(commands, events));
      && Load(m) == (if last.Some? then last.value.st else INITIAL) && !m.state.Torn?
      && (InMemory(m).Some? ==> Load(m).turns <= InMemory(m).value.turns <= Load(m).turns + 1)
      && (Load(m).completed ==> last.Some? && Earned(commands, Load(m), last.value.exec))
      && (m.runtime == Whole(CompletedStatus) ==> Load(m).completed)
  {
    ExecutionKeepsInv(commands, CREATED, events);
    LastSaveIsKept(commands, events);
  }

  // ---- progress on disk

  /** A step leaves the saved state alone or replaces it by one that is one turn further; a completed one stays. */
  lemma SavedTurnsGrow(commands: seq<string>, m: Machine, e: Event)
    requires Inv(commands, m)
    ensures var m' := Next(commands, m, e);
      m'.state == m.state || (!Load(m).completed && m'.state.Whole? && m'.state.content.turns == Load(m).turns + 1)
  {
  }

  lemma {:induction false} CompletionIsFinal(commands: seq<string>, m: Machine, events: seq<Event>)
    requires Inv(commands, m) && Load(m).completed
    ensures Execute(commands, m, events).state == m.state
  {
    if events != [] {
      var before := Execute(commands, m, events[..|events| - 1]);
      CompletionIsFinal(commands, m, events[..|events| - 1]);
      ExecutionKeepsInv(commands, m, events[..|events| - 1]);
      SavedTurnsGrow(commands, before, events[|events| - 1]);
    }
  }

  /** Idle, and no run can begin. */
  ghost predicate Stuck(m: Machine) { m.phase.Idle? && (Load(m).completed || !m.runtime.Whole?) }

  lemma {:induction false} StuckForever(commands: seq<string>, m: Machine, events: seq<Event>)
    requires Stuck(m)
    ensures Execute(commands, m, events) == m
  {
    if events != [] { StuckForever(commands, m, events[..|events| - 1]); }
  }

  lemma ExecuteSnoc(commands: seq<string>, m: Machine, events: seq<Event>, e: Event)
    ensures Execute(commands, m, events + [e]) == Next(commands, Execute(commands, m, events), e)
  {
    assert (events + [e])[..|events|] == events;
  }

  lemma {:induction false} ExecuteCons(commands: seq<string>, m: Machine, e: Event, events: seq<Event>)
    ensures Execute(commands, m, [e] + events) == Execute(commands, Next(commands, m, e), events)
    decreases |events|
  {
    var all := [e] + events;
    if events == [] {
      assert all[..0] == [];
    } else {
      ExecuteCons(commands, m, e, events[..|events| - 1]);
      assert all[..|all| - 1] == [e] + events[..|events| - 1];
    }
  }

  lemma ExecuteStep(commands: seq<string>, m: Machine, events: seq<Event>, k: nat)
    requires k < |events|
    ensures Execute(commands, m, events[..k + 1]) == Next(commands, Execute(commands, m, events[..k]), events[k])
  {
    assert events[..k + 1][..k] == events[..k];
  }

  /** One turn of a new run, from its start to its save: all gates pass and the evaluator gives this verdict. */
  function OneTurn(verdict: EvalVerdict): seq<Event> {
    [Start, WriteRuntime(true), InnerLoop([], 0), CheckGates(NoExec()), Evaluate(Evaluation(verdict, "")),
      WriteTmp(true), Rename]
  }

  function Judged(st: LoopState, e: Evaluation, gated: bool): LoopState {
    var worked := AfterInner(st, [], 0);
    AfterEvaluation(if gated then worked.(lastGateFailure := None) else worked, e)
  }

  lemma TurnBegins(commands: seq<string>, m: Machine, verdict: EvalVerdict)
    requires m.phase.Idle? && !Load(m).completed && m.runtime.Whole?
    ensures Execute(commands, m, OneTurn(verdict)[..3])
         == m.(runtime := Whole(Running), phase := Gates(AfterInner(Load(m), [], 0)))
  {
    var events := OneTurn(verdict);
    ExecuteStep(commands, m, events, 0);
    ExecuteStep(commands, m, events, 1);
    ExecuteStep(commands, m, events, 2);
  }

  lemma GatesPass(commands: seq<string>, m: Machine)
    requires m.phase.Gates?
    ensures var st := if commands != [] then m.phase.st.(lastGateFailure := None) else m.phase.st;
      Next(commands, m, CheckGates(NoExec())) == m.(phase := Evaluating(st, NoExec()))
  {
    CheckMeaning(commands, NoExec(), false);
  }

  lemma TurnIsSaved(commands: seq<string>, m: Machine, e: Evaluation)
    requires m.phase.Evaluating?
    ensures var after := Next(commands, Next(commands, Next(commands, m, Evaluate(e)), WriteTmp(true)), Rename);
      var st := AfterEvaluation(m.phase.st, e);
      after.state == Whole(st) && after.phase == AfterSave(st, StatusFor(e)) && after.runtime == m.runtime
  {
  }

  lemma OneTurnIs(commands: seq<string>, m: Machine, verdict: EvalVerdict)
    requires m.phase.Idle? && !Load(m).completed && m.runtime.Whole?
    ensures var (after, e) := (Execute(commands, m, OneTurn(verdict)), Evaluation(verdict, ""));
      var st := Judged(Load(m), e, commands != []);
      after.state == Whole(st) && after.phase == AfterSave(st, StatusFor(e)) && after.runtime == Whole(Running)
      && st.turns == Load(m).turns + 1 && st.completed == (verdict == OkVerdict)
  {
    var events := OneTurn(verdict);
    TurnBegins(commands, m, verdict);
    GatesPass(commands, Execute(commands, m, events[..3]));
    ExecuteStep(commands, m, events, 3);
    TurnIsSaved(commands, Execute(commands, m, events[..4]), Evaluation(verdict, ""));
    ExecuteStep(commands, m, events, 4);
    ExecuteStep(commands, m, events, 5);
    ExecuteStep(commands, m, events, 6);
    assert events[..7] == events;
  }

  /** From an idle goal some course of events gets any further on disk exactly when the goal is not completed and its
      runtime record can be read. */
  lemma CanProceedIff(commands: seq<string>, m: Machine)
    requires m.phase.Idle?
    ensures (exists events :: Execute(commands, m, events).state != m.state) <==> !Load(m).completed && m.runtime.Whole?
  {
    if !Load(m).completed && m.runtime.Whole? {
      OneTurnIs(commands, m, FalseVerdict);
      assert Execute(commands, m, OneTurn(FalseVerdict)).state != m.state;
    } else {
      forall events ensures Execute(commands, m, events) == m { StuckForever(commands, m, events); }
    }
  }

  /** A crash while the runtime record is being written leaves a goal that nothing can run again. */
  lemma TornRecordEndsTheGoal(commands: seq<string>, events: seq<Event>)
    ensures var m := Execute(commands, CREATED, [Start, WriteRuntime(false), Crash]);
      m.phase == Idle && m.runtime == Torn && !Load(m).completed && Execute(commands, m, events) == m
  {
    var two := [Start, WriteRuntime(false)];
    ExecuteSnoc(commands, CREATED, [], Start);
    ExecuteSnoc(commands, CREATED, [Start], WriteRuntime(false));
    ExecuteSnoc(commands, CREATED, two, Crash);
    assert [] + [Start] == [Start] && [Start] + [WriteRuntime(false)] == two
      && two + [Crash] == [Start, WriteRuntime(false), Crash];
    StuckForever(commands, Execute(commands, CREATED, [Start, WriteRuntime(false), Crash]), events);
  }

  // ---- the record of a completed goal

  /** The completed state is saved, and its record is about to be written. */
  predicate MarkingCompleted(m: Machine) { m.phase.Marking? && m.phase.status == CompletedStatus }

  /** A completed goal whose record says something else, with nothing left that would correct it. */
  ghost predicate Stale(m: Machine) {
    Load(m).completed && m.runtime != Whole(CompletedStatus)
    && (m.phase.Idle? || (m.phase.Marking? && m.phase.status == FailedStatus))
  }

  lemma {:induction false} StaleStays(commands: seq<string>, m: Machine, events: seq<Event>)
    requires Stale(m)
    ensures Stale(Execute(commands, m, events))
  {
    if events != [] { StaleStays(commands, m, events[..|events| - 1]); }
  }

  /** A crash or an error between the last save and the end of the record's write leaves a completed goal recorded as
      something else, and no later event corrects the record. */
  lemma RecordStaysStale(commands: seq<string>, m: Machine, e: Event, events: seq<Event>)
    requires Inv(commands, m) && MarkingCompleted(m) && (e == Crash || e == Throw)
    ensures var after := Execute(commands, Next(commands, m, e), events);
      Load(after).completed && after.runtime != Whole(CompletedStatus)
  {
    StaleStays(commands, Next(commands, m, e), events);
  }

  /** Some crash or error came between the save of a completed state and the end of the record's write. */
  ghost predicate Interrupted(commands: seq<string>, events: seq<Event>) {
    exists k :: 0 <= k < |events| && MarkingCompleted(Execute(commands, CREATED, events[..k]))
                && (events[k] == Crash || events[k] == Throw)
  }

  lemma InterruptedSnoc(commands: seq<string>, events: seq<Event>, e: Event)
    ensures Interrupted(commands, events + [e])
       <==> Interrupted(commands, events)
            || (MarkingCompleted(Execute(commands, CREATED, events)) && (e == Crash || e == Throw))
  {
    var all := events + [e];
    assert forall k :: 0 <= k <= |events| ==> all[..k] == events[..k];
    assert events[..|events|] == events;
    if MarkingCompleted(Execute(commands, CREATED, events)) && (e == Crash || e == Throw) { assert all[|events|] == e; }
    if k :| 0 <= k < |events| && MarkingCompleted(Execute(commands, CREATED, events[..k]))
            && (events[k] == Crash || events[k] == Throw) {
      assert all[k] == events[k];
    }
  }

  /** What the record of a completed goal says depends on whether its writing was interrupted. */
  ghost predicate RecordInv(m: Machine, interrupted: bool) {
    (interrupted ==> Stale(m))
    && (!interrupted && Load(m).completed
       ==> MarkingCompleted(m) || (m.phase.Idle? && m.runtime == Whole(CompletedStatus)))
  }

  lemma RecordInvNext(commands: seq<string>, m: Machine, e: Event, interrupted: bool)
    requires Inv(commands, m) && RecordInv(m, interrupted)
    ensures RecordInv(Next(commands, m, e), interrupted || (MarkingCompleted(m) && (e == Crash || e == Throw)))
  {
  }

  lemma {:induction false} ExecutionKeepsRecordInv(commands: seq<string>, events: seq<Event>)
    ensures RecordInv(Execute(commands, CREATED, events), Interrupted(commands, events))
  {
    if events != [] {
      var init, e := events[..|events| - 1], events[|events| - 1];
      ExecutionKeepsRecordInv(commands, init);
      ExecutionKeepsInv(commands, CREATED, init);
      assert events == init + [e];
      InterruptedSnoc(commands, init, e);
      RecordInvNext(commands, Execute(commands, CREATED, init), e, Interrupted(commands, init));
    }
  }

  /** In every course of events: once a completed goal is idle, its record says so exactly if no crash and no error came
      between the save of its state and the end of the record's write. */
  lemma RecordIff(commands: seq<string>, events: seq<Event>)
    requires var m := Execute(commands, CREATED, events); m.phase.Idle? && Load(m).completed
    ensures Execute(commands, CREATED, events).runtime == Whole(CompletedStatus) <==> !Interrupted(commands, events)
  {
    ExecutionKeepsRecordInv(commands, events);
  }

  /** An error does occur there: the goal is completed and recorded as failed. */
  lemma CompletedButFailed(commands: seq<string>)
    ensures var m := Execute(commands, CREATED, OneTurn(OkVerdict) + [Throw] + [WriteRuntime(true)]);
      m.phase.Idle? && Load(m).completed && m.runtime == Whole(FailedStatus)
  {
    OneTurnIs(commands, CREATED, OkVerdict);
    ExecuteSnoc(commands, CREATED, OneTurn(OkVerdict), Throw);
    ExecuteSnoc(commands, CREATED, OneTurn(OkVerdict) + [Throw], WriteRuntime(true));
  }
}

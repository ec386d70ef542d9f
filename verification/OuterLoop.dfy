/** The outer loop as it runs against its files (loop-modules/outer-loop.ts). Every file operation and every answer
    of the world is recorded as an event of the crash machine, so a crash anywhere in a run is a prefix of its trace. */
module OuterLoop {
  import opened Wrappers
  import opened GateRunner
  import opened LoopModel
  import opened LoopCrash

  /** The state file, its temporary file and the runtime record of one goal. */
  class GoalFiles {
    const commands: seq<string>
    var state: File<LoopState>
    var tmp: File<LoopState>
    var runtime: File<RuntimeStatus>
    ghost const origin: Machine
    ghost var trace: seq<Event>
    ghost var machine: Machine

    /** The files are those of the machine that has executed the trace, in the given phase. */
    ghost predicate In(phase: Phase)
      reads this
    {
      && machine == Execute(commands, origin, trace)
      && machine.phase == phase && machine.state == state && machine.tmp == tmp && machine.runtime == runtime
    }

    /** A created goal. */
    constructor (commands: seq<string>)
      ensures In(Idle) && this.commands == commands && origin == CREATED && trace == []
    {
      this.commands := commands;
      state, tmp, runtime := Absent, Absent, Whole(Pending);
      origin, trace, machine := CREATED, [], CREATED;
    }

    ghost method Record(e: Event)
      requires machine == Execute(commands, origin, trace)
      modifies `trace, `machine
      ensures trace == old(trace) + [e] && machine == Next(commands, old(machine), e)
      ensures machine == Execute(commands, origin, trace)
    {
      ExecuteSnoc(commands, origin, trace, e);
      trace, machine := trace + [e], Next(commands, machine, e);
    }

    method LoadState() returns (st: LoopState)
      ensures st == if state.Whole? then state.content else INITIAL
    {
      st := if state.Whole? then state.content else INITIAL;
    }

    /** The temporary file is written; a failing write leaves it torn. */
    method WriteTemporary(st: LoopState, ok: bool, ghost exec: Exec, ghost after: RuntimeStatus)
      requires In(Saving(st, exec, after))
      modifies `tmp, `trace, `machine
      ensures old(trace) <= trace && tmp == if ok then Whole(st) else Torn
      ensures In(if ok then Renaming(st, exec, after) else Saving(st, exec, after))
    {
      tmp := Torn;
      Record(WriteTmp(false));
      if ok {
        tmp := Whole(st);
        Record(WriteTmp(true));
      }
    }

    /** Write the temporary file, then rename it. */
    method Save(st: LoopState, ok: bool, ghost exec: Exec, ghost after: RuntimeStatus) returns (saved: bool)
      requires In(Saving(st, exec, after))
      modifies this
      ensures saved == ok && old(trace) <= trace && runtime == old(runtime)
      ensures if ok then In(AfterSave(st, after)) && state == Whole(st)
        else In(Saving(st, exec, after)) && state == old(state)
    {
      WriteTemporary(st, ok, exec, after);
      if !ok { return false; }
      state, tmp := tmp, Absent;
      Record(Rename);
      return true;
    }

    /** The runtime record is written in place. */
    method UpdateStatus(ghost st: LoopState, status: RuntimeStatus)
      requires In(Marking(st, status))
      modifies this
      ensures In(AfterMark(st, status)) && runtime == Whole(status) && state == old(state) && old(trace) <= trace
    {
      runtime := Torn;
      Record(WriteRuntime(false));
      runtime := Whole(status);
      Record(WriteRuntime(true));
    }

    /** The handler around the loop: the goal is recorded as failed. */
    method Fail(ghost st: LoopState)
      requires machine.phase.Head? || machine.phase.Evaluating? || machine.phase.Saving?
      requires In(machine.phase) && machine.phase.st == st && runtime.Whole?
      modifies this
      ensures In(Idle) && runtime == Whole(FailedStatus) && state == old(state) && old(trace) <= trace
    {
      Record(Throw);
      UpdateStatus(st, FailedStatus);
    }

    /** Saving a finished turn and recording what it decided. */
    method Conclude(st: LoopState, ok: bool, after: RuntimeStatus, ghost exec: Exec) returns (saved: bool)
      requires In(Saving(st, exec, after)) && runtime == Whole(Running)
        && after in {Running, CompletedStatus, ImpossibleStatus}
      modifies this
      ensures saved == ok && old(trace) <= trace && state == if ok then Whole(st) else old(state)
      ensures In(if ok && after == Running then Head(st) else Idle)
      ensures runtime == Whole(if ok then after else FailedStatus)
    {
      saved := Save(st, ok, exec, after);
      if !saved { Fail(st); } else if after != Running { UpdateStatus(st, after); }
    }

    /** One turn: inner loop, gates, evaluator, save. */
    method DoTurn(goal: Goal, o: Oracle, st: LoopState, history: seq<Evaluation>) returns (turn: Turn)
      requires In(Head(st)) && runtime == Whole(Running) && goal.gateCommands == commands && !st.completed
      modifies this
      ensures turn == TakeTurn(goal, o, st, history) && old(trace) <= trace
      ensures In(if turn.stop.None? then Head(turn.state) else Idle)
      ensures turn.stop.None? ==> runtime == Whole(Running) && state == Whole(turn.state)
      ensures turn.stop.Some? ==> runtime == Whole(RecordFor(turn.stop.value))
      ensures state == if turn.kept then Whole(turn.state) else old(state)
    {
      match o.inner(st) {
        case InnerThrows(_) =>
          Fail(st);
          return Turn(Some(Failed), st, [], [], None, false);
        case InnerDone(messages, tokensUsed) =>
          var worked := AfterInner(st, messages, tokensUsed);
          Record(InnerLoop(messages, tokensUsed));
          turn := FinishTurn(goal, o, worked, history, tokensUsed);
      }
    }

    /** A turn once the inner loop is done. */
    method FinishTurn(goal: Goal, o: Oracle, worked: LoopState, history: seq<Evaluation>, cost: nat)
      returns (turn: Turn)
      requires In(Phase.Gates(worked)) && runtime == Whole(Running) && goal.gateCommands == commands
        && !worked.completed
      modifies this
      ensures turn == AfterWork(goal, o, worked, history, cost) && old(trace) <= trace
      ensures In(if turn.stop.None? then Head(turn.state) else Idle)
      ensures turn.stop.None? ==> runtime == Whole(Running) && state == Whole(turn.state)
      ensures turn.stop.Some? ==> runtime == Whole(RecordFor(turn.stop.value))
      ensures state == if turn.kept then Whole(turn.state) else old(state)
    {
      var exec := o.gates(worked.turns);
      var gate, checked := RunGates(goal, worked, exec);
      if |goal.gateCommands| > 0 && !gate.passed {
        var saved := Conclude(checked, o.saves(worked.turns), Running, exec);
        turn := Turn(if saved then None else Some(Failed), checked, [], [gate], Some(cost), saved);
      } else {
        turn := Judge(o, checked, history, o.saves(worked.turns), exec, cost);
      }
    }

    method RunGates(goal: Goal, worked: LoopState, exec: Exec) returns (gate: GateResult, checked: LoopState)
      requires In(Phase.Gates(worked)) && goal.gateCommands == commands
      modifies `trace, `machine
      ensures gate == CheckOutcome(commands, exec, false) && checked == AfterGates(goal, worked, gate)
      ensures In(if commands != [] && !gate.passed then Saving(checked, exec, Running) else Evaluating(checked, exec))
      ensures old(trace) <= trace
    {
      gate := Check(goal.gateCommands, exec, false);
      checked := AfterGates(goal, worked, gate);
      Record(CheckGates(exec));
    }

    /** The second half of a turn whose gates let it pass. */
    method Judge(o: Oracle, st: LoopState, history: seq<Evaluation>, ok: bool, ghost exec: Exec, cost: nat)
      returns (turn: Turn)
      requires In(Evaluating(st, exec)) && runtime == Whole(Running) && !st.completed
      modifies this
      ensures turn == Judgement(o, st, history, ok, cost) && old(trace) <= trace
      ensures In(if turn.stop.None? then Head(turn.state) else Idle)
      ensures turn.stop.None? ==> runtime == Whole(Running) && state == Whole(turn.state)
      ensures turn.stop.Some? ==> runtime == Whole(RecordFor(turn.stop.value))
      ensures state == if turn.kept then Whole(turn.state) else old(state)
    {
      match o.evaluate(st, history) {
        case EvaluatorThrows(_) =>
          Fail(st);
          return Turn(Some(Failed), st, [], [], Some(cost), false);
        case Verdict(e) => turn := Settle(st, e, ok, exec, cost);
      }
    }

    /** Saving and recording a verdict. */
    method Settle(st: LoopState, e: Evaluation, ok: bool, ghost exec: Exec, cost: nat) returns (turn: Turn)
      requires In(Evaluating(st, exec)) && runtime == Whole(Running) && !st.completed
      modifies this
      ensures turn == Turn(StopFor(e, ok), AfterEvaluation(st, e), [e], [], Some(cost), ok) && old(trace) <= trace
      ensures In(if turn.stop.None? then Head(turn.state) else Idle)
      ensures turn.stop.None? ==> runtime == Whole(Running) && state == Whole(turn.state)
      ensures turn.stop.Some? ==> runtime == Whole(RecordFor(turn.stop.value))
      ensures state == if ok then Whole(turn.state) else old(state)
    {
      var judged := AfterEvaluation(st, e);
      Record(Evaluate(e));
      var saved := Conclude(judged, ok, StatusFor(e), exec);
      var stop := Stops(e, saved);
      return Turn(stop, judged, [e], [], Some(cost), saved);
    }

    method Stops(e: Evaluation, saved: bool) returns (stop: Option<Status>)
      ensures stop == StopFor(e, saved)
    {
      if !saved { return Some(Failed); }
      if e.verdict == OkVerdict { return Some(Completed); }
      if e.verdict == ImpossibleVerdict { return Some(Impossible); }
      return None;
    }

    /** A run of the goal. It is refused without a readable runtime record; a completed goal is left alone. Otherwise
        its result and the state on disk are those of the model, and every step of it is a step of the machine. */
    method Run(goal: Goal, o: Oracle, aborted: nat -> bool) returns (result: RunResult)
      requires In(Idle) && goal.gateCommands == commands
      modifies this
      ensures In(Idle) && old(trace) <= trace
      ensures var st := old(Load(machine));
        if st.completed then result == AlreadyDone(st) && Load(machine) == st && runtime == old(runtime)
        else if !old(runtime).Whole? then result == Rejected && Load(machine) == st && runtime == old(runtime)
        else
          var run := RunFrom(goal, o, aborted, st, []);
          result == Ran(run) && Load(machine) == run.saved
          && runtime == match run.status
                        case Completed => Whole(CompletedStatus)
                        case Impossible => Whole(ImpossibleStatus)
                        case Failed => Whole(FailedStatus)
                        case _ => Whole(Running)
    {
      var st := LoadState();
      if st.completed { return AlreadyDone(st); }
      if !runtime.Whole? { return Rejected; }
      Record(Start);
      UpdateStatus(st, Running);
      var run := Loop(goal, o, aborted, st);
      return Ran(run);
    }

    method Loop(goal: Goal, o: Oracle, aborted: nat -> bool, start: LoopState) returns (run: LoopRun)
      requires In(Head(start)) && runtime == Whole(Running) && goal.gateCommands == commands
      requires !start.completed && start == Load(machine)
      modifies this
      ensures In(Idle) && old(trace) <= trace
      ensures run == RunFrom(goal, o, aborted, start, []) && Load(machine) == run.saved
      ensures runtime == Whole(RecordFor(run.status))
    {
      var st := start;
      var sofar := LoopRun(Aborted, st, [], [], [], st);
      JoinedNothing(sofar, RunFrom(goal, o, aborted, st, []));
      while true
        invariant In(Head(st)) && runtime == Whole(Running) && old(trace) <= trace
        invariant !st.completed && st == Load(machine)
        invariant Joined(sofar, RunFrom(goal, o, aborted, st, sofar.evaluations))
             == RunFrom(goal, o, aborted, start, [])
        decreases goal.maxTurns - st.turns
      {
        var head := HeadStop(goal, st, aborted(st.turns));
        if head.Some? {
          Record(Stop);
          return Joined(sofar, LoopRun(head.value, st, [], [], [], st));
        }
        var turn := DoTurn(goal, o, st, sofar.evaluations);
        var saved := if turn.kept then turn.state else st;
        var now := LoopRun(Aborted, turn.state, turn.evaluations, turn.gateFailures, Costs(turn), saved);
        if turn.stop.Some? { return Joined(sofar, now.(status := turn.stop.value)); }
        JoinedTwice(sofar, now, RunFrom(goal, o, aborted, turn.state, sofar.evaluations + turn.evaluations));
        PrependIsJoined(turn, now, RunFrom(goal, o, aborted, turn.state, sofar.evaluations + turn.evaluations));
        sofar, st := Joined(sofar, now), turn.state;
      }
    }
  }

  datatype RunResult = AlreadyDone(state: LoopState) | Rejected | Ran(run: LoopRun)

  /** What the runtime record says after a run with this status. */
  function RecordFor(status: Status): RuntimeStatus {
    match status
    case Completed => CompletedStatus
    case Impossible => ImpossibleStatus
    case Failed => FailedStatus
    case _ => Running
  }

  lemma JoinedTwice(a: LoopRun, b: LoopRun, c: LoopRun)
    ensures Joined(Joined(a, b), c) == Joined(a, Joined(b, c))
  {
  }

  lemma PrependIsJoined(turn: Turn, now: LoopRun, rest: LoopRun)
    requires now.evaluations == turn.evaluations && now.gateFailures == turn.gateFailures && now.costs == Costs(turn)
    ensures Prepend(turn, rest) == Joined(now, rest)
  {
  }
}

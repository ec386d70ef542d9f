/** The outer loop as a function of what its inner loop, gates and evaluator answer (loop-modules/outer-loop.ts).
    Timestamps, prompts, artifacts and checkpoints are left out. */
module LoopModel {
  import opened Wrappers
  import opened GateRunner

  datatype EvalVerdict = OkVerdict | FalseVerdict | ImpossibleVerdict

  datatype Evaluation = Evaluation(verdict: EvalVerdict, reason: string)

  datatype LoopState = LoopState(turns: nat, tokensUsed: nat, completed: bool, lastGateFailure: Option<GateResult>,
                                 lastEvaluation: Option<Evaluation>, messages: seq<string>)

  const INITIAL := LoopState(0, 0, false, None, None, [])

  /** A goal; a token limit of 0 is no limit. */
  datatype Goal = Goal(maxTurns: int, maxTokens: nat, gateCommands: seq<string>)

  datatype Inner = InnerThrows(message: string) | InnerDone(messages: seq<string>, tokensUsed: nat)

  datatype Judged = EvaluatorThrows(message: string) | Verdict(evaluation: Evaluation)

  /** The world a run talks to: the inner loop answers to a state, the gate commands have outcomes after a turn,
      the evaluator sees the state and the evaluations of its own run, and a save may fail. */
  datatype Oracle = Oracle(inner: LoopState -> Inner, gates: nat -> Exec,
                           evaluate: (LoopState, seq<Evaluation>) -> Judged,
                           saves: nat -> bool)

  datatype Status = Completed | MaxTurnsReached | BudgetExhausted | Impossible | Aborted | Failed

  /** A finished run: its result, and what is on disk (the last saved state) when it returns. `costs` lists the
      tokens of the turns it took. */
  datatype LoopRun = LoopRun(status: Status, state: LoopState, evaluations: seq<Evaluation>,
                             gateFailures: seq<GateResult>, costs: seq<nat>, saved: LoopState)

  // ---- one turn

  function AfterInner(st: LoopState, messages: seq<string>, tokensUsed: nat): LoopState {
    st.(turns := st.turns + 1, tokensUsed := st.tokensUsed + tokensUsed, messages := messages)
  }

  function GateCheck(goal: Goal, o: Oracle, turn: nat): GateResult {
    GateRunner.CheckOutcome(goal.gateCommands, o.gates(turn), false)
  }

  function AfterGates(goal: Goal, st: LoopState, gate: GateResult): LoopState {
    if goal.gateCommands == [] then st
    else st.(lastGateFailure := if gate.passed then None else Some(gate))
  }

  function AfterEvaluation(st: LoopState, e: Evaluation): LoopState {
    st.(lastEvaluation := Some(e), completed := st.completed || e.verdict == OkVerdict)
  }

  /** What ends a run at the loop head, if anything: an abort comes before the budgets. */
  function HeadStop(goal: Goal, st: LoopState, aborted: bool): Option<Status> {
    if st.completed then Some(Completed)
    else if aborted then Some(Aborted)
    else if st.turns >= goal.maxTurns then Some(MaxTurnsReached)
    else if goal.maxTokens != 0 && st.tokensUsed >= goal.maxTokens then Some(BudgetExhausted)
    else None
  }

  /** A turn's outcome: `stop` is the status it ends the run with, and `kept` says whether its state was saved. */
  datatype Turn = Turn(stop: Option<Status>, state: LoopState, evaluations: seq<Evaluation>,
                       gateFailures: seq<GateResult>, cost: Option<nat>, kept: bool)

  /** What a verdict ends the run with, if anything; a failing save comes first. */
  function StopFor(e: Evaluation, saves: bool): Option<Status> {
    if !saves then Some(Failed)
    else
      match e.verdict
      case OkVerdict => Some(Completed)
      case ImpossibleVerdict => Some(Impossible)
      case FalseVerdict => None
  }

  /** The second half of a turn whose gates let it pass. */
  function Judgement(o: Oracle, st: LoopState, history: seq<Evaluation>, saves: bool, cost: nat): Turn {
    match o.evaluate(st, history)
    case EvaluatorThrows(_) => Turn(Some(Failed), st, [], [], Some(cost), false)
    case Verdict(e) => Turn(StopFor(e, saves), AfterEvaluation(st, e), [e], [], Some(cost), saves)
  }

  /** A turn once the inner loop is done. */
  function AfterWork(goal: Goal, o: Oracle, worked: LoopState, history: seq<Evaluation>, cost: nat): Turn {
    var gate := GateCheck(goal, o, worked.turns);
    var checked := AfterGates(goal, worked, gate);
    var saves := o.saves(worked.turns);
    if goal.gateCommands != [] && !gate.passed then
      Turn(if saves then None else Some(Failed), checked, [], [gate], Some(cost), saves)
    else
      Judgement(o, checked, history, saves, cost)
  }

  function TakeTurn(goal: Goal, o: Oracle, st: LoopState, history: seq<Evaluation>): Turn {
    match o.inner(st)
    case InnerThrows(_) => Turn(Some(Failed), st, [], [], None, false)
    case InnerDone(messages, tokensUsed) =>
      AfterWork(goal, o, AfterInner(st, messages, tokensUsed), history, tokensUsed)
  }

  // ---- a run

  /** The run from a loop head. `aborted` tells, by the number of turns, whether the signal is set by then. */
  function RunFrom(goal: Goal, o: Oracle, aborted: nat -> bool, st: LoopState, history: seq<Evaluation>): LoopRun
    decreases goal.maxTurns - st.turns
  {
    var head := HeadStop(goal, st, aborted(st.turns));
    if head.Some? then LoopRun(head.value, st, [], [], [], st)
    else
      var turn := TakeTurn(goal, o, st, history);
      var saved := if turn.kept then turn.state else st;
      if turn.stop.Some? then
        LoopRun(turn.stop.value, turn.state, turn.evaluations, turn.gateFailures, Costs(turn), saved)
      else
        Prepend(turn, RunFrom(goal, o, aborted, turn.state, history + turn.evaluations))
  }

  function Costs(turn: Turn): seq<nat> { if turn.cost.Some? then [turn.cost.value] else [] }

  function Prepend(turn: Turn, rest: LoopRun): LoopRun {
    rest.(evaluations := turn.evaluations + rest.evaluations, gateFailures := turn.gateFailures + rest.gateFailures,
          costs := Costs(turn) + rest.costs)
  }

  function Sum(costs: seq<nat>): nat { if costs == [] then 0 else costs[0] + Sum(costs[1..]) }

  // ---- accounting

  /** The bill of a run that started at st: bounded turns; tokens grow by exactly what the turns cost; every turn is
      an evaluation or a gate failure, except that a failing run may lack one; a token limit is overshot by less than
      the last turn's cost. */
  ghost predicate Accounts(goal: Goal, st: LoopState, r: LoopRun) {
    TurnsAccounted(goal, st, r) && TokensAccounted(goal, st, r) && SavedAccounted(r)
  }

  ghost predicate TurnsAccounted(goal: Goal, st: LoopState, r: LoopRun) {
    && r.state.turns == st.turns + |r.costs|
    && (|r.costs| > 0 ==> r.state.turns <= goal.maxTurns)
    && |r.evaluations| + |r.gateFailures| <= |r.costs| <= |r.evaluations| + |r.gateFailures| + 1
    && (r.status != Failed ==> |r.costs| == |r.evaluations| + |r.gateFailures|)
  }

  ghost predicate TokensAccounted(goal: Goal, st: LoopState, r: LoopRun) {
    && r.state.tokensUsed == st.tokensUsed + Sum(r.costs)
    && (goal.maxTokens != 0 && |r.costs| > 0 ==> r.state.tokensUsed < goal.maxTokens + r.costs[|r.costs| - 1])
  }

  ghost predicate SavedAccounted(r: LoopRun) {
    && (r.state == r.saved || (r.status == Failed && r.state.turns == r.saved.turns + 1))
    && (r.status in {Completed, Impossible, Aborted, MaxTurnsReached, BudgetExhausted} ==> r.saved == r.state)
  }

  /** What a turn that the run goes on after adds to the bill. */
  lemma TurnAdds(goal: Goal, o: Oracle, st: LoopState, history: seq<Evaluation>)
    requires HeadStop(goal, st, false).None? && TakeTurn(goal, o, st, history).stop.None?
    ensures var turn := TakeTurn(goal, o, st, history);
      turn.cost.Some? && turn.state.turns == st.turns + 1 <= goal.maxTurns
      && turn.state.tokensUsed == st.tokensUsed + turn.cost.value
      && (goal.maxTokens != 0 ==> st.tokensUsed < goal.maxTokens)
      && |turn.evaluations| + |turn.gateFailures| == 1
  {
  }

  lemma TokensMore(goal: Goal, st: LoopState, turn: Turn, r: LoopRun)
    requires turn.cost.Some? && turn.state.tokensUsed == st.tokensUsed + turn.cost.value
    requires goal.maxTokens != 0 ==> st.tokensUsed < goal.maxTokens
    requires TokensAccounted(goal, turn.state, r)
    ensures TokensAccounted(goal, st, Prepend(turn, r))
  {
    var all := Costs(turn) + r.costs;
    assert all[1..] == r.costs && all[0] == turn.cost.value;
    if |r.costs| == 0 { assert Sum(r.costs) == 0; }
  }

  lemma AccountsMore(goal: Goal, o: Oracle, st: LoopState, history: seq<Evaluation>, r: LoopRun)
    requires HeadStop(goal, st, false).None?
    requires var turn := TakeTurn(goal, o, st, history); turn.stop.None? && Accounts(goal, turn.state, r)
    ensures Accounts(goal, st, Prepend(TakeTurn(goal, o, st, history), r))
  {
    TurnAdds(goal, o, st, history);
    TokensMore(goal, st, TakeTurn(goal, o, st, history), r);
  }

  lemma {:induction false} RunAccounts(goal: Goal, o: Oracle, aborted: nat -> bool, st: LoopState,
                                       history: seq<Evaluation>)
    ensures Accounts(goal, st, RunFrom(goal, o, aborted, st, history))
    decreases goal.maxTurns - st.turns
  {
    if HeadStop(goal, st, aborted(st.turns)).None? {
      var turn := TakeTurn(goal, o, st, history);
      assert HeadStop(goal, st, false).None?;
      if turn.stop.None? {
        RunAccounts(goal, o, aborted, turn.state, history + turn.evaluations);
        AccountsMore(goal, o, st, history, RunFrom(goal, o, aborted, turn.state, history + turn.evaluations));
      }
    }
  }

  // ---- aborting and resuming

  /** The evaluator does not depend on the evaluations that its own run has already made. */
  ghost predicate ForgetfulEvaluator(o: Oracle) {
    forall st, h1, h2 :: o.evaluate(st, h1) == o.evaluate(st, h2)
  }

  function Never(): nat -> bool { (turns: nat) => false }

  lemma SameTurn(goal: Goal, o: Oracle, st: LoopState, h1: seq<Evaluation>, h2: seq<Evaluation>)
    requires ForgetfulEvaluator(o)
    ensures TakeTurn(goal, o, st, h1) == TakeTurn(goal, o, st, h2)
  {
    if o.inner(st).InnerDone? {
      var worked := AfterInner(st, o.inner(st).messages, o.inner(st).tokensUsed);
      var checked := AfterGates(goal, worked, GateCheck(goal, o, worked.turns));
      assert o.evaluate(checked, h1) == o.evaluate(checked, h2);
    }
  }

  /** One run after the other: the second one's result, with both lists. */
  function Joined(first: LoopRun, second: LoopRun): LoopRun {
    second.(evaluations := first.evaluations + second.evaluations,
            gateFailures := first.gateFailures + second.gateFailures,
            costs := first.costs + second.costs)
  }

  /** Up to where it stops, an aborted run is the run that was never aborted; what is left of that goes on from the
      saved state, its evaluator knowing the evaluations so far. */
  lemma {:induction false} AbortSplits(goal: Goal, o: Oracle, aborted: nat -> bool, st: LoopState,
                                       history: seq<Evaluation>)
    ensures var (first, whole) := (RunFrom(goal, o, aborted, st, history), RunFrom(goal, o, Never(), st, history));
      if first.status == Aborted then
        whole == Joined(first, RunFrom(goal, o, Never(), first.saved, history + first.evaluations))
      else whole == first
    decreases goal.maxTurns - st.turns
  {
    var head := HeadStop(goal, st, aborted(st.turns));
    if head == Some(Aborted) {
      assert history + [] == history;
      JoinedNothing(LoopRun(Aborted, st, [], [], [], st), RunFrom(goal, o, Never(), st, history));
    } else if head.None? {
      var turn := TakeTurn(goal, o, st, history);
      if turn.stop.None? {
        AbortSplits(goal, o, aborted, turn.state, history + turn.evaluations);
        var rest := RunFrom(goal, o, aborted, turn.state, history + turn.evaluations);
        if rest.status == Aborted { AbortSplitsMore(goal, o, turn, history, rest); }
      }
    }
  }

  lemma AbortSplitsMore(goal: Goal, o: Oracle, turn: Turn, history: seq<Evaluation>, rest: LoopRun)
    ensures var known := history + turn.evaluations + rest.evaluations;
      Prepend(turn, Joined(rest, RunFrom(goal, o, Never(), rest.saved, known)))
      == Joined(Prepend(turn, rest), RunFrom(goal, o, Never(), rest.saved, history + Prepend(turn, rest).evaluations))
  {
    assert history + turn.evaluations + rest.evaluations == history + (turn.evaluations + rest.evaluations);
    PrependJoined(turn, rest, RunFrom(goal, o, Never(), rest.saved, history + turn.evaluations + rest.evaluations));
  }

  /** With either history, every turn from here on comes to the same. */
  predicate SameTurns(goal: Goal, o: Oracle, st: LoopState, h1: seq<Evaluation>, h2: seq<Evaluation>)
    decreases goal.maxTurns - st.turns
  {
    HeadStop(goal, st, false).Some? ||
    var turn := TakeTurn(goal, o, st, h1);
    turn == TakeTurn(goal, o, st, h2)
    && (turn.stop.Some? || SameTurns(goal, o, turn.state, h1 + turn.evaluations, h2 + turn.evaluations))
  }

  /** A run's lists begin with those of its first turn. */
  lemma FirstTurnShows(goal: Goal, o: Oracle, st: LoopState, history: seq<Evaluation>)
    requires HeadStop(goal, st, false).None?
    ensures var (run, turn) := (RunFrom(goal, o, Never(), st, history), TakeTurn(goal, o, st, history));
      |turn.evaluations| <= |run.evaluations| && run.evaluations[..|turn.evaluations|] == turn.evaluations
      && (turn.stop.Some? ==> run.evaluations == turn.evaluations)
  {
  }

  /** Turns from one state differ only in what the evaluator says, and that shows in the evaluations. */
  lemma TurnsDiffer(goal: Goal, o: Oracle, st: LoopState, h1: seq<Evaluation>, h2: seq<Evaluation>)
    requires TakeTurn(goal, o, st, h1) != TakeTurn(goal, o, st, h2)
    ensures var (a, b) := (TakeTurn(goal, o, st, h1), TakeTurn(goal, o, st, h2));
      a.evaluations != b.evaluations && (|a.evaluations| == |b.evaluations| || (a.evaluations == [] && a.stop.Some?)
        || (b.evaluations == [] && b.stop.Some?))
  {
  }

  lemma DifferentTurnsDifferentRuns(goal: Goal, o: Oracle, st: LoopState, h1: seq<Evaluation>, h2: seq<Evaluation>)
    requires HeadStop(goal, st, false).None? && TakeTurn(goal, o, st, h1) != TakeTurn(goal, o, st, h2)
    ensures RunFrom(goal, o, Never(), st, h1) != RunFrom(goal, o, Never(), st, h2)
  {
    FirstTurnShows(goal, o, st, h1);
    FirstTurnShows(goal, o, st, h2);
    TurnsDiffer(goal, o, st, h1, h2);
  }

  lemma PrependCancels(turn: Turn, a: LoopRun, b: LoopRun)
    requires Prepend(turn, a) == Prepend(turn, b)
    ensures a == b
  {
    CancelPrefix(turn.evaluations, a.evaluations, b.evaluations);
    CancelPrefix(turn.gateFailures, a.gateFailures, b.gateFailures);
    CancelPrefix(Costs(turn), a.costs, b.costs);
  }

  lemma CancelPrefix<T>(prefix: seq<T>, a: seq<T>, b: seq<T>)
    requires prefix + a == prefix + b
    ensures a == b
  {
    assert (prefix + a)[|prefix|..] == a && (prefix + b)[|prefix|..] == b;
  }

  lemma {:induction false} SameRunIff(goal: Goal, o: Oracle, st: LoopState, h1: seq<Evaluation>, h2: seq<Evaluation>)
    ensures RunFrom(goal, o, Never(), st, h1) == RunFrom(goal, o, Never(), st, h2) <==> SameTurns(goal, o, st, h1, h2)
    decreases goal.maxTurns - st.turns
  {
    if HeadStop(goal, st, false).None? {
      var turn := TakeTurn(goal, o, st, h1);
      if turn != TakeTurn(goal, o, st, h2) {
        DifferentTurnsDifferentRuns(goal, o, st, h1, h2);
      } else if turn.stop.None? {
        SameRunIff(goal, o, turn.state, h1 + turn.evaluations, h2 + turn.evaluations);
        var a := RunFrom(goal, o, Never(), turn.state, h1 + turn.evaluations);
        var b := RunFrom(goal, o, Never(), turn.state, h2 + turn.evaluations);
        if Prepend(turn, a) == Prepend(turn, b) { PrependCancels(turn, a, b); }
      }
    }
  }

  lemma JoinedCancels(first: LoopRun, a: LoopRun, b: LoopRun)
    ensures Joined(first, a) == Joined(first, b) <==> a == b
  {
    if Joined(first, a) == Joined(first, b) {
      CancelPrefix(first.evaluations, a.evaluations, b.evaluations);
      CancelPrefix(first.gateFailures, a.gateFailures, b.gateFailures);
      CancelPrefix(first.costs, a.costs, b.costs);
    }
  }

  /** An aborted run followed by a run from the saved state is the run that was never aborted, exactly when the
      turns after the abort come to the same whether or not the evaluator knows the evaluations before it. */
  lemma AbortThenResumeIff(goal: Goal, o: Oracle, aborted: nat -> bool, st: LoopState)
    requires RunFrom(goal, o, aborted, st, []).status == Aborted
    ensures var first := RunFrom(goal, o, aborted, st, []);
      RunFrom(goal, o, Never(), st, []) == Joined(first, RunFrom(goal, o, Never(), first.saved, []))
      <==> SameTurns(goal, o, first.saved, first.evaluations, [])
  {
    var first := RunFrom(goal, o, aborted, st, []);
    AbortSplits(goal, o, aborted, st, []);
    assert [] + first.evaluations == first.evaluations;
    SameRunIff(goal, o, first.saved, first.evaluations, []);
    JoinedCancels(first, RunFrom(goal, o, Never(), first.saved, first.evaluations),
      RunFrom(goal, o, Never(), first.saved, []));
  }

  lemma {:induction false} ForgetfulSameTurns(goal: Goal, o: Oracle, st: LoopState, h1: seq<Evaluation>,
                                              h2: seq<Evaluation>)
    requires ForgetfulEvaluator(o)
    ensures SameTurns(goal, o, st, h1, h2)
    decreases goal.maxTurns - st.turns
  {
    if HeadStop(goal, st, false).None? {
      SameTurn(goal, o, st, h1, h2);
      var turn := TakeTurn(goal, o, st, h1);
      if turn.stop.None? { ForgetfulSameTurns(goal, o, turn.state, h1 + turn.evaluations, h2 + turn.evaluations); }
    }
  }

  lemma JoinedNothing(first: LoopRun, second: LoopRun)
    requires first.evaluations == [] && first.gateFailures == [] && first.costs == []
    ensures Joined(first, second) == second
  {
  }

  lemma PrependJoined(turn: Turn, first: LoopRun, second: LoopRun)
    ensures Prepend(turn, Joined(first, second)) == Joined(Prepend(turn, first), second)
  {
  }

  /** A whole history of aborts: each run starts from what the one before saved, and the last one is left alone. */
  function Resumed(goal: Goal, o: Oracle, aborts: seq<nat -> bool>, st: LoopState): LoopRun
    decreases |aborts|
  {
    if aborts == [] then RunFrom(goal, o, Never(), st, [])
    else
      var first := RunFrom(goal, o, aborts[0], st, []);
      if first.status != Aborted then first else Joined(first, Resumed(goal, o, aborts[1..], first.saved))
  }

  /** However often a loop is aborted and resumed, it ends in the same state, with the same status and the same
      evaluations, gate failures and costs, as if it had been left alone. */
  lemma {:induction false} ResumeIsContinue(goal: Goal, o: Oracle, aborts: seq<nat -> bool>, st: LoopState)
    requires ForgetfulEvaluator(o)
    ensures Resumed(goal, o, aborts, st) == RunFrom(goal, o, Never(), st, [])
    decreases |aborts|
  {
    if aborts != [] {
      var first := RunFrom(goal, o, aborts[0], st, []);
      AbortSplits(goal, o, aborts[0], st, []);
      if first.status == Aborted {
        ForgetfulSameTurns(goal, o, first.saved, first.evaluations, []);
        AbortThenResumeIff(goal, o, aborts[0], st);
        ResumeIsContinue(goal, o, aborts[1..], first.saved);
      }
    }
  }

  // ---- what can be told at the abort

  /** Another evaluator in the same world. */
  function Evaluating(o: Oracle, evaluate: (LoopState, seq<Evaluation>) -> Judged): Oracle { o.(evaluate := evaluate) }

  /** From this state on the evaluator is never asked: every turn ends before it, until the run stops. */
  predicate NeverJudged(goal: Goal, o: Oracle, st: LoopState)
    decreases goal.maxTurns - st.turns
  {
    HeadStop(goal, st, false).Some? || o.inner(st).InnerThrows? ||
    var worked := AfterInner(st, o.inner(st).messages, o.inner(st).tokensUsed);
    var gate := GateCheck(goal, o, worked.turns);
    goal.gateCommands != [] && !gate.passed
    && (!o.saves(worked.turns) || NeverJudged(goal, o, AfterGates(goal, worked, gate)))
  }

  /** Turns without the evaluator do not depend on what it knows. */
  lemma {:induction false} UnjudgedSame(goal: Goal, o: Oracle, st: LoopState, h1: seq<Evaluation>, h2: seq<Evaluation>)
    requires NeverJudged(goal, o, st)
    ensures SameTurns(goal, o, st, h1, h2)
    decreases goal.maxTurns - st.turns
  {
    if HeadStop(goal, st, false).None? {
      var turn := TakeTurn(goal, o, st, h1);
      if turn.stop.None? { UnjudgedSame(goal, o, turn.state, h1 + turn.evaluations, h2 + turn.evaluations); }
    }
  }

  lemma {:induction false} NeverJudgedByNone(goal: Goal, o: Oracle, evaluate: (LoopState, seq<Evaluation>) -> Judged,
                                             st: LoopState)
    ensures NeverJudged(goal, Evaluating(o, evaluate), st) == NeverJudged(goal, o, st)
    decreases goal.maxTurns - st.turns
  {
    if HeadStop(goal, st, false).None? && o.inner(st).InnerDone? {
      var worked := AfterInner(st, o.inner(st).messages, o.inner(st).tokensUsed);
      NeverJudgedByNone(goal, o, evaluate, AfterGates(goal, worked, GateCheck(goal, o, worked.turns)));
    }
  }

  /** The same answers up to a number of turns; behind it the answer tells whether there is a history. */
  function Telling(o: Oracle, turns: nat): (LoopState, seq<Evaluation>) -> Judged {
    (st: LoopState, history: seq<Evaluation>) =>
      if st.turns <= turns then o.evaluate(st, history)
      else Verdict(Evaluation(FalseVerdict, if history == [] then "new" else "known"))
  }

  lemma TellingSameTurn(goal: Goal, o: Oracle, turns: nat, st: LoopState, history: seq<Evaluation>)
    requires st.turns < turns
    ensures TakeTurn(goal, Evaluating(o, Telling(o, turns)), st, history) == TakeTurn(goal, o, st, history)
  {
  }

  lemma TurnsGrow(goal: Goal, o: Oracle, aborted: nat -> bool, st: LoopState, history: seq<Evaluation>)
    requires RunFrom(goal, o, aborted, st, history).status == Aborted
    ensures RunFrom(goal, o, aborted, st, history).saved == RunFrom(goal, o, aborted, st, history).state
    ensures RunFrom(goal, o, aborted, st, history).state.turns >= st.turns
  {
    RunAccounts(goal, o, aborted, st, history);
  }

  /** Up to the abort the telling evaluator cannot be told from the given one. */
  lemma {:induction false} TellingSameRun(goal: Goal, o: Oracle, turns: nat, aborted: nat -> bool, st: LoopState,
                                          history: seq<Evaluation>)
    requires RunFrom(goal, o, aborted, st, history).status == Aborted
    requires RunFrom(goal, o, aborted, st, history).state.turns <= turns
    ensures RunFrom(goal, Evaluating(o, Telling(o, turns)), aborted, st, history)
         == RunFrom(goal, o, aborted, st, history)
    decreases goal.maxTurns - st.turns
  {
    if HeadStop(goal, st, aborted(st.turns)).None? {
      var turn := TakeTurn(goal, o, st, history);
      TurnGoesOn(goal, o, st, history);
      TurnsGrow(goal, o, aborted, turn.state, history + turn.evaluations);
      TellingSameTurn(goal, o, turns, st, history);
      TellingSameRun(goal, o, turns, aborted, turn.state, history + turn.evaluations);
    }
  }

  lemma TurnGoesOn(goal: Goal, o: Oracle, st: LoopState, history: seq<Evaluation>)
    ensures var turn := TakeTurn(goal, o, st, history);
      turn.stop != Some(Aborted) && (turn.stop.None? ==> turn.state.turns == st.turns + 1)
  {
  }

  /** Behind the abort it tells the histories apart as soon as it is asked. */
  lemma {:induction false} TellingDiffers(goal: Goal, o: Oracle, turns: nat, st: LoopState, history: seq<Evaluation>)
    requires turns <= st.turns && history != [] && !NeverJudged(goal, o, st)
    ensures !SameTurns(goal, Evaluating(o, Telling(o, turns)), st, history, [])
    decreases goal.maxTurns - st.turns
  {
    var told := Evaluating(o, Telling(o, turns));
    var worked := AfterInner(st, o.inner(st).messages, o.inner(st).tokensUsed);
    var gate := GateCheck(goal, o, worked.turns);
    var checked := AfterGates(goal, worked, gate);
    if goal.gateCommands != [] && !gate.passed {
      TellingDiffers(goal, o, turns, checked, history);
      assert TakeTurn(goal, told, st, history).state == checked;
      assert history + [] == history;
    } else {
      assert TakeTurn(goal, told, st, history).evaluations == [Evaluation(FalseVerdict, "known")];
      assert TakeTurn(goal, told, st, []).evaluations == [Evaluation(FalseVerdict, "new")];
    }
  }

  /** Resuming continues the aborted run whatever evaluator answers, as long as it answered so far as it did. */
  ghost predicate AlwaysContinues(goal: Goal, o: Oracle, aborted: nat -> bool, st: LoopState) {
    var first := RunFrom(goal, o, aborted, st, []);
    forall evaluate :: RunFrom(goal, Evaluating(o, evaluate), aborted, st, []) == first ==>
      RunFrom(goal, Evaluating(o, evaluate), Never(), st, [])
      == Joined(first, RunFrom(goal, Evaluating(o, evaluate), Never(), first.saved, []))
  }

  /** This can be told at the abort, before anything is resumed: nothing was evaluated so far, or nothing will be. */
  lemma AlwaysContinuesIff(goal: Goal, o: Oracle, aborted: nat -> bool, st: LoopState)
    requires RunFrom(goal, o, aborted, st, []).status == Aborted
    ensures var first := RunFrom(goal, o, aborted, st, []);
      AlwaysContinues(goal, o, aborted, st) <==> first.evaluations == [] || NeverJudged(goal, o, first.saved)
  {
    var first := RunFrom(goal, o, aborted, st, []);
    if first.evaluations == [] || NeverJudged(goal, o, first.saved) {
      forall evaluate | RunFrom(goal, Evaluating(o, evaluate), aborted, st, []) == first
        ensures RunFrom(goal, Evaluating(o, evaluate), Never(), st, [])
             == Joined(first, RunFrom(goal, Evaluating(o, evaluate), Never(), first.saved, []))
      {
        ContinuesFor(goal, Evaluating(o, evaluate), aborted, st, NeverJudged(goal, o, first.saved)) by {
          NeverJudgedByNone(goal, o, evaluate, first.saved);
        }
      }
    } else {
      var told := Evaluating(o, Telling(o, first.state.turns));
      TurnsGrow(goal, o, aborted, st, []);
      TellingSameRun(goal, o, first.state.turns, aborted, st, []);
      TellingDiffers(goal, o, first.state.turns, first.saved, first.evaluations);
      AbortThenResumeIff(goal, told, aborted, st);
    }
  }

  lemma ContinuesFor(goal: Goal, o: Oracle, aborted: nat -> bool, st: LoopState, unjudged: bool)
    requires RunFrom(goal, o, aborted, st, []).status == Aborted
    requires var first := RunFrom(goal, o, aborted, st, []);
      (unjudged ==> NeverJudged(goal, o, first.saved)) && (unjudged || first.evaluations == [])
    ensures var first := RunFrom(goal, o, aborted, st, []);
      RunFrom(goal, o, Never(), st, []) == Joined(first, RunFrom(goal, o, Never(), first.saved, []))
  {
    var first := RunFrom(goal, o, aborted, st, []);
    if unjudged { UnjudgedSame(goal, o, first.saved, first.evaluations, []); }
    SameRunIff(goal, o, first.saved, first.evaluations, []);
    AbortThenResumeIff(goal, o, aborted, st);
  }

  // ---- an evaluator that looks at its own history

  function LenientOracle(): Oracle {
    Oracle((st: LoopState) => InnerDone([], 1),
      (turn: nat) => (k: nat, command: string) => CommandResult(command, true, 0, "", ""),
           (st: LoopState, history: seq<Evaluation>) =>
             Verdict(Evaluation(if history == [] then FalseVerdict else OkVerdict, "")),
           (turn: nat) => true)
  }

  lemma LenientTurn(goal: Goal, st: LoopState, history: seq<Evaluation>)
    requires goal.gateCommands == [] && !st.completed
    ensures var e := Evaluation(if history == [] then FalseVerdict else OkVerdict, "");
      var next := st.(turns := st.turns + 1, tokensUsed := st.tokensUsed + 1, messages := [], lastEvaluation := Some(e),
                      completed := history != []);
      TakeTurn(goal, LenientOracle(), st, history)
      == Turn(if history == [] then None else Some(Completed), next, [e], [], Some(1), true)
  {
  }

  /** A resumed run hands its evaluator an empty history, so one that grants a second try never gets there. */
  lemma ResumeCanDiffer()
    ensures var (goal, o) := (Goal(2, 0, []), LenientOracle());
      && RunFrom(goal, o, Never(), INITIAL, []).status == Completed
      && Resumed(goal, o, [(turns: nat) => turns == 1], INITIAL).status == MaxTurnsReached
  {
    var goal, o := Goal(2, 0, []), LenientOracle();
    var abort := (turns: nat) => turns == 1;
    LenientTurn(goal, INITIAL, []);
    var turn := TakeTurn(goal, o, INITIAL, []);
    var one := turn.state;
    LenientTurn(goal, one, turn.evaluations);
    LenientTurn(goal, one, []);
    assert [] + turn.evaluations == turn.evaluations;
    assert RunFrom(goal, o, Never(), one, turn.evaluations).status == Completed;
    assert RunFrom(goal, o, abort, one, turn.evaluations) == LoopRun(Aborted, one, [], [], [], one);
    var second := TakeTurn(goal, o, one, []);
    assert RunFrom(goal, o, Never(), second.state, [] + second.evaluations).status == MaxTurnsReached;
    assert RunFrom(goal, o, Never(), one, []).status == MaxTurnsReached;
    assert [abort][1..] == [];
    assert Resumed(goal, o, [], one) == RunFrom(goal, o, Never(), one, []);
  }
}

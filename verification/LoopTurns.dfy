/** A run of the outer loop told turn by turn (loop-modules/outer-loop.ts): what the loop knew before and after every
    turn, what each turn did, and what ended the run. */
module LoopTurns {
  import opened Wrappers
  import opened Sequences
  import opened GateRunner
  import opened LoopModel

  /** What the loop knows at its head: its state, and the evaluations and gate failures so far. */
  datatype Moment = Moment(state: LoopState, evaluations: seq<Evaluation>, gateFailures: seq<GateResult>)

  /** Neither completed nor aborted, and within both budgets: the next turn begins. */
  ghost predicate Begins(goal: Goal, aborted: nat -> bool, st: LoopState) {
    && !st.completed && !aborted(st.turns) && st.turns < goal.maxTurns
    && (goal.maxTokens == 0 || st.tokensUsed < goal.maxTokens)
  }

  predicate GateFails(goal: Goal, o: Oracle, turn: nat) {
    goal.gateCommands != [] && !CheckOutcome(goal.gateCommands, o.gates(turn), false).passed
  }

  /** The evaluator looks at the state with the new messages and the gates' success, but still the old verdict. */
  function Asked(goal: Goal, o: Oracle, a: Moment, b: Moment): Judged {
    o.evaluate(b.state.(lastEvaluation := a.state.lastEvaluation, completed := a.state.completed), a.evaluations)
  }

  /** The turn from a to b: the inner loop got the state with the conversation so far; what it answered is the
      conversation from then on, and what it used is paid. Then the gates fail and nothing is evaluated, or they are
      passed and the verdict is noted. */
  ghost predicate TookTurn(goal: Goal, o: Oracle, a: Moment, b: Moment, cost: nat) {
    && o.inner(a.state) == InnerDone(b.state.messages, cost)
    && b.state.turns == a.state.turns + 1 && b.state.tokensUsed == a.state.tokensUsed + cost
    && if GateFails(goal, o, b.state.turns) then
         var failure := CheckOutcome(goal.gateCommands, o.gates(b.state.turns), false);
         && b.evaluations == a.evaluations && b.gateFailures == a.gateFailures + [failure]
         && b.state.lastGateFailure == Some(failure) && b.state.lastEvaluation == a.state.lastEvaluation
         && b.state.completed == a.state.completed
       else
         && b.gateFailures == a.gateFailures
         && b.state.lastGateFailure == (if goal.gateCommands == [] then a.state.lastGateFailure else None)
         && match Asked(goal, o, a, b)
            case EvaluatorThrows(_) =>
              b.evaluations == a.evaluations && b.state.lastEvaluation == a.state.lastEvaluation
              && b.state.completed == a.state.completed
            case Verdict(e) =>
              b.evaluations == a.evaluations + [e] && b.state.lastEvaluation == Some(e)
              && b.state.completed == (e.verdict == OkVerdict)
  }

  /** The turn from a to b was saved, and after it the loop goes on: its gates failed, or its verdict was false. */
  ghost predicate GoesOn(goal: Goal, o: Oracle, a: Moment, b: Moment) {
    && o.saves(b.state.turns)
    && (GateFails(goal, o, b.state.turns)
        || (Asked(goal, o, a, b).Verdict? && Asked(goal, o, a, b).evaluation.verdict == FalseVerdict))
  }

  /** At the loop head nothing begins any more, or the inner loop throws; the state is the saved one. */
  ghost predicate EndsAtHead(goal: Goal, o: Oracle, aborted: nat -> bool, at: LoopState, status: Status) {
    match status
    case Completed => at.completed
    case Aborted => !at.completed && aborted(at.turns)
    case MaxTurnsReached => !at.completed && !aborted(at.turns) && at.turns >= goal.maxTurns
    case BudgetExhausted =>
      !at.completed && !aborted(at.turns) && at.turns < goal.maxTurns && 0 < goal.maxTokens <= at.tokensUsed
    case Failed => Begins(goal, aborted, at) && o.inner(at).InnerThrows?
    case Impossible => false
  }

  /** The turn from a to b ends the run: a save failed, the evaluator threw, or it found the goal reached or out of
      reach. */
  ghost predicate EndsInTurn(goal: Goal, o: Oracle, a: Moment, b: Moment, status: Status) {
    var asked := Asked(goal, o, a, b);
    if GateFails(goal, o, b.state.turns) then status == Failed && !o.saves(b.state.turns)
    else if asked.EvaluatorThrows? || !o.saves(b.state.turns) then status == Failed
    else
      match asked.evaluation.verdict
      case OkVerdict => status == Completed
      case ImpossibleVerdict => status == Impossible
      case FalseVerdict => false
  }

  /** The turns between the moments; the loop went on after each, but perhaps the last one. */
  ghost predicate Turns(goal: Goal, o: Oracle, aborted: nat -> bool, moments: seq<Moment>, costs: seq<nat>) {
    && |moments| == |costs| + 1
    && (forall k :: 0 <= k < |costs| ==>
          Begins(goal, aborted, moments[k].state) && TookTurn(goal, o, moments[k], moments[k + 1], costs[k]))
    && forall k :: 0 <= k < |costs| - 1 ==> GoesOn(goal, o, moments[k], moments[k + 1])
  }

  /** How the run ends, and which state is on disk then: the last one but where the last turn could not be saved. */
  ghost predicate Ends(goal: Goal, o: Oracle, aborted: nat -> bool, moments: seq<Moment>, r: LoopRun) {
    var m := |moments| - 1;
    m >= 0
    && if m > 0 && !GoesOn(goal, o, moments[m - 1], moments[m]) then
         && EndsInTurn(goal, o, moments[m - 1], moments[m], r.status)
         && r.saved == (if r.status == Failed then moments[m - 1].state else moments[m].state)
       else
         EndsAtHead(goal, o, aborted, moments[m].state, r.status) && r.saved == moments[m].state
  }

  /** The run tells of these moments, the first of which it started from. */
  ghost predicate Tells(goal: Goal, o: Oracle, aborted: nat -> bool, moments: seq<Moment>, r: LoopRun) {
    && Turns(goal, o, aborted, moments, r.costs) && Ends(goal, o, aborted, moments, r)
    && moments[|r.costs|] == Moment(r.state, moments[0].evaluations + r.evaluations,
                                    moments[0].gateFailures + r.gateFailures)
  }

  function After(m: Moment, turn: Turn): Moment {
    Moment(turn.state, m.evaluations + turn.evaluations, m.gateFailures + turn.gateFailures)
  }

  lemma TurnTells(goal: Goal, o: Oracle, m: Moment)
    requires !m.state.completed
    ensures var turn := TakeTurn(goal, o, m.state, m.evaluations);
      match turn.cost
      case None => o.inner(m.state).InnerThrows? && turn == Turn(Some(Failed), m.state, [], [], None, false)
      case Some(cost) =>
        && TookTurn(goal, o, m, After(m, turn), cost) && (turn.stop.None? <==> GoesOn(goal, o, m, After(m, turn)))
        && (turn.stop.Some? ==> EndsInTurn(goal, o, m, After(m, turn), turn.stop.value))
        && (turn.kept <==> turn.stop != Some(Failed))
  {
  }

  lemma HeadTells(goal: Goal, o: Oracle, aborted: nat -> bool, st: LoopState)
    ensures var head := HeadStop(goal, st, aborted(st.turns));
      if head.None? then Begins(goal, aborted, st) else EndsAtHead(goal, o, aborted, st, head.value)
  {
  }

  lemma TurnsMore(goal: Goal, o: Oracle, aborted: nat -> bool, m: Moment, cost: nat, moments: seq<Moment>,
                  costs: seq<nat>)
    requires Turns(goal, o, aborted, moments, costs)
    requires Begins(goal, aborted, m.state) && TookTurn(goal, o, m, moments[0], cost) && GoesOn(goal, o, m, moments[0])
    ensures Turns(goal, o, aborted, [m] + moments, [cost] + costs)
  {
    var all, paid := [m] + moments, [cost] + costs;
    forall k | 0 <= k < |paid|
      ensures Begins(goal, aborted, all[k].state) && TookTurn(goal, o, all[k], all[k + 1], paid[k])
    {
      if k > 0 { assert TookTurn(goal, o, moments[k - 1], moments[k], costs[k - 1]); }
    }
    forall k | 0 <= k < |paid| - 1 ensures GoesOn(goal, o, all[k], all[k + 1]) {
      if k > 0 { assert GoesOn(goal, o, moments[k - 1], moments[k]); }
    }
  }

  lemma EndsMore(goal: Goal, o: Oracle, aborted: nat -> bool, m: Moment, moments: seq<Moment>, turn: Turn,
                 rest: LoopRun)
    requires moments != [] && Ends(goal, o, aborted, moments, rest) && GoesOn(goal, o, m, moments[0])
    ensures Ends(goal, o, aborted, [m] + moments, Prepend(turn, rest))
  {
    var all, n := [m] + moments, |moments|;
    assert all[n] == moments[n - 1];
    if n > 1 { assert all[n - 1] == moments[n - 2]; }
  }

  lemma TellsMore(goal: Goal, o: Oracle, aborted: nat -> bool, m: Moment, turn: Turn, rest: LoopRun,
                  moments: seq<Moment>)
    requires Begins(goal, aborted, m.state) && turn.cost.Some?
    requires TookTurn(goal, o, m, After(m, turn), turn.cost.value) && GoesOn(goal, o, m, After(m, turn))
    requires Tells(goal, o, aborted, moments, rest) && moments[0] == After(m, turn)
    ensures Tells(goal, o, aborted, [m] + moments, Prepend(turn, rest))
  {
    TurnsMore(goal, o, aborted, m, turn.cost.value, moments, rest.costs);
    EndsMore(goal, o, aborted, m, moments, turn, rest);
    Associative(m.evaluations, turn.evaluations, rest.evaluations);
    Associative(m.gateFailures, turn.gateFailures, rest.gateFailures);
  }

  /** Every run tells of its moments. */
  lemma {:induction false} RunTells(goal: Goal, o: Oracle, aborted: nat -> bool, m: Moment)
    returns (moments: seq<Moment>)
    ensures moments != [] && moments[0] == m
    ensures Tells(goal, o, aborted, moments, RunFrom(goal, o, aborted, m.state, m.evaluations))
    decreases goal.maxTurns - m.state.turns
  {
    HeadTells(goal, o, aborted, m.state);
    if HeadStop(goal, m.state, aborted(m.state.turns)).Some? {
      moments := [m];
    } else {
      var turn := TakeTurn(goal, o, m.state, m.evaluations);
      TurnTells(goal, o, m);
      if turn.cost.None? {
        moments := [m];
      } else if turn.stop.Some? {
        moments := [m, After(m, turn)];
      } else {
        var rest := RunTells(goal, o, aborted, After(m, turn));
        TellsMore(goal, o, aborted, m, turn, RunFrom(goal, o, aborted, turn.state, After(m, turn).evaluations), rest);
        moments := [m] + rest;
      }
    }
  }

  // ---- no other run tells of them

  lemma TurnIs(goal: Goal, o: Oracle, a: Moment, b: Moment, cost: nat)
    requires !a.state.completed && TookTurn(goal, o, a, b, cost)
    ensures var turn := TakeTurn(goal, o, a.state, a.evaluations); turn.cost == Some(cost) && After(a, turn) == b
  {
  }

  /** What the moments say of the run from the first of them. */
  ghost predicate RunsTo(goal: Goal, o: Oracle, aborted: nat -> bool, moments: seq<Moment>, costs: seq<nat>,
                         status: Status, saved: LoopState)
    requires |moments| == |costs| + 1
  {
    var r := RunFrom(goal, o, aborted, moments[0].state, moments[0].evaluations);
    && r.costs == costs && r.status == status && r.saved == saved
    && moments[|costs|] == Moment(r.state, moments[0].evaluations + r.evaluations,
                                  moments[0].gateFailures + r.gateFailures)
  }

  lemma TurnsTail(goal: Goal, o: Oracle, aborted: nat -> bool, moments: seq<Moment>, costs: seq<nat>, r: LoopRun)
    requires Turns(goal, o, aborted, moments, costs) && Ends(goal, o, aborted, moments, r)
    requires costs != [] && GoesOn(goal, o, moments[0], moments[1])
    ensures Turns(goal, o, aborted, moments[1..], costs[1..]) && Ends(goal, o, aborted, moments[1..], r)
  {
    var all, paid, n := moments[1..], costs[1..], |costs|;
    forall k | 0 <= k < |paid|
      ensures Begins(goal, aborted, all[k].state) && TookTurn(goal, o, all[k], all[k + 1], paid[k])
      ensures k < |paid| - 1 ==> GoesOn(goal, o, all[k], all[k + 1])
    {
      assert TookTurn(goal, o, moments[k + 1], moments[k + 2], costs[k + 1]);
    }
  }

  /** A run whose first turn goes on is that turn and the run from there. */
  lemma FirstTurn(goal: Goal, o: Oracle, aborted: nat -> bool, a: Moment, b: Moment, cost: nat)
    requires Begins(goal, aborted, a.state) && TookTurn(goal, o, a, b, cost) && GoesOn(goal, o, a, b)
    ensures var turn := TakeTurn(goal, o, a.state, a.evaluations);
      turn.cost == Some(cost) && After(a, turn) == b
      && RunFrom(goal, o, aborted, a.state, a.evaluations)
         == Prepend(turn, RunFrom(goal, o, aborted, b.state, b.evaluations))
  {
    HeadTells(goal, o, aborted, a.state);
    TurnIs(goal, o, a, b, cost);
    TurnTells(goal, o, a);
  }

  lemma RunsToMore(goal: Goal, o: Oracle, aborted: nat -> bool, moments: seq<Moment>, costs: seq<nat>, status: Status,
                   saved: LoopState)
    requires |moments| == |costs| + 1 > 1 && Begins(goal, aborted, moments[0].state)
    requires TookTurn(goal, o, moments[0], moments[1], costs[0]) && GoesOn(goal, o, moments[0], moments[1])
    requires RunsTo(goal, o, aborted, moments[1..], costs[1..], status, saved)
    ensures RunsTo(goal, o, aborted, moments, costs, status, saved)
  {
    FirstTurn(goal, o, aborted, moments[0], moments[1], costs[0]);
    var turn := TakeTurn(goal, o, moments[0].state, moments[0].evaluations);
    MomentsPrepend(moments, costs, turn, RunFrom(goal, o, aborted, moments[1].state, moments[1].evaluations));
  }

  /** Where a run gets from the first moment, in terms of where it gets from the second. */
  lemma MomentsPrepend(moments: seq<Moment>, costs: seq<nat>, turn: Turn, rest: LoopRun)
    requires |moments| == |costs| + 1 > 1 && moments[1] == After(moments[0], turn)
    requires turn.cost == Some(costs[0]) && rest.costs == costs[1..]
    requires moments[|costs|] == Moment(rest.state, moments[1].evaluations + rest.evaluations,
                                        moments[1].gateFailures + rest.gateFailures)
    ensures var r := Prepend(turn, rest);
      r.costs == costs && moments[|costs|] == Moment(r.state, moments[0].evaluations + r.evaluations,
                                                     moments[0].gateFailures + r.gateFailures)
  {
    Associative(moments[0].evaluations, turn.evaluations, rest.evaluations);
    Associative(moments[0].gateFailures, turn.gateFailures, rest.gateFailures);
    assert costs == [costs[0]] + costs[1..];
  }

  lemma {:induction false} MomentsRun(goal: Goal, o: Oracle, aborted: nat -> bool, moments: seq<Moment>,
                                      costs: seq<nat>, r: LoopRun)
    requires Turns(goal, o, aborted, moments, costs) && Ends(goal, o, aborted, moments, r)
    ensures RunsTo(goal, o, aborted, moments, costs, r.status, r.saved)
    decreases |costs|
  {
    var m := moments[0];
    HeadTells(goal, o, aborted, m.state);
    if costs == [] {
      HeadEnds(goal, o, aborted, m, r);
    } else if GoesOn(goal, o, m, moments[1]) {
      TurnsTail(goal, o, aborted, moments, costs, r);
      MomentsRun(goal, o, aborted, moments[1..], costs[1..], r);
      RunsToMore(goal, o, aborted, moments, costs, r.status, r.saved);
    } else {
      TurnIs(goal, o, m, moments[1], costs[0]);
      TurnTells(goal, o, m);
    }
  }

  lemma HeadEnds(goal: Goal, o: Oracle, aborted: nat -> bool, m: Moment, r: LoopRun)
    requires Ends(goal, o, aborted, [m], r)
    ensures RunsTo(goal, o, aborted, [m], [], r.status, r.saved)
  {
    HeadTells(goal, o, aborted, m.state);
    if HeadStop(goal, m.state, aborted(m.state.turns)).None? { TurnTells(goal, o, m); }
  }

  /** Moments are those of a run that started from the first one exactly when the model's run is that run: a run is all
      that can be told of its goal, its inner loop, its gates, its evaluator, its saves and its aborts. */
  lemma TellsIff(goal: Goal, o: Oracle, aborted: nat -> bool, m: Moment, r: LoopRun)
    ensures (exists moments :: moments != [] && moments[0] == m && Tells(goal, o, aborted, moments, r))
            <==> r == RunFrom(goal, o, aborted, m.state, m.evaluations)
  {
    var all := RunTells(goal, o, aborted, m);
    if moments :| moments != [] && moments[0] == m && Tells(goal, o, aborted, moments, r) {
      MomentsRun(goal, o, aborted, moments, r.costs, r);
      var run := RunFrom(goal, o, aborted, m.state, m.evaluations);
      CancelPrefix(m.evaluations, run.evaluations, r.evaluations);
      CancelPrefix(m.gateFailures, run.gateFailures, r.gateFailures);
    }
  }
}

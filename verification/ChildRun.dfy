/** One child run as its handlers see it: closure variables updated in place, and the set of parent-signal
    states that all runs share (scripts/control-ui-i18n.ts, POSIX). */
module ChildRun {
  import opened Wrappers
  import opened SignalRelay

  /** What all runs share: who is registered, and the signals the parent has re-raised to itself. */
  class ParentSignals {
    var active: set<Run>
    var reraised: seq<Signal>

    constructor ()
      ensures active == {} && reraised == []
    {
      active, reraised := {}, [];
    }

    ghost predicate NobodyObjects()
      reads this, active
    {
      forall run :: run in active ==> run.relay.signal.Some? && run.relay.done
    }

    /** The loop over the shared set: the first registered run that objects ends it. */
    method MaybeReraise(signal: Signal)
      modifies `reraised
      ensures reraised == old(reraised) + if NobodyObjects() then [signal] else []
    {
      var rest := active;
      while rest != {}
        invariant rest <= active && unchanged(this)
        invariant forall run :: run in active && run !in rest ==> run.relay.signal.Some? && run.relay.done
        decreases |rest|
      {
        var run :| run in rest;
        if run.relay.signal.None? || !run.relay.done { return; }
        rest := rest - {run};
      }
      reraised := reraised + [signal];
    }
  }

  class Run {
    const shared: ParentSignals
    var child: Child
    var group: Group
    var relay: Relay
    var timers: Timers
    var promise: Promise

    ghost predicate Valid()
      reads this, shared`active
    {
      relay.registered <==> this in shared.active
    }

    function View(): RunState
      reads this
    {
      RunState(child, group, relay, timers, promise)
    }

    constructor (shared: ParentSignals, rejectOnFailure: bool)
      modifies shared`active
      ensures this.shared == shared && Valid() && View() == Started(rejectOnFailure)
      ensures shared.active == old(shared.active) + {this}
    {
      this.shared := shared;
      child, group := Child(rejectOnFailure, false, false, None), Group(true, false, false);
      relay, timers := Relay(true, true, None, false), Timers(true, false, false, NoTimer);
      promise := Promise(false, None, 0);
      new;
      shared.active := shared.active + {this};
    }

    method ProcessGroupIsAlive() returns (r: bool)
      modifies `group
      ensures r == old(group).alive && group == Probed(old(group))
    {
      r := group.alive;
      group := group.(sawDead := group.sawDead || !r);
    }

    /** Settling also clears timers and handlers and, unless a signal was relayed, leaves the shared set. */
    method SettleWith(outcome: Outcome)
      requires Valid()
      modifies this, shared`active
      ensures Valid() && View() == Settle(old(View()), outcome)
      ensures shared.active == if relay.registered then old(shared.active) else old(shared.active) - {this}
    {
      if promise.settled { return; }
      promise := Promise(true, Some(outcome), promise.settles + 1);
      timers := timers.(timeoutArmed := false);
      if relay.signal.None? {
        timers := timers.(killTimer := NoTimer);
        relay := relay.(registered := false);
        shared.active := shared.active - {this};
      }
      relay := relay.(listening := false);
    }

    method CloseWith(code: int)
      requires Valid()
      modifies this, shared`active
      ensures Valid() && View() == FinishClose(old(View()), code)
      ensures shared.active == if relay.registered then old(shared.active) else old(shared.active) - {this}
    {
      if timers.timedOut {
        SettleWith(RejectedTimeout);
      } else if code != 0 && child.rejectOnFailure {
        SettleWith(RejectedFailure);
      } else if code == 0 && child.truncated {
        SettleWith(RejectedTruncated);
      } else {
        SettleWith(Resolved);
      }
    }

    /** The signal handler up to its re-raise: the group is asked for, then either the run is done or a kill
        timer replaces any earlier one. */
    method RelaySignal(signal: Signal) returns (ask: Option<Signal>)
      requires Valid() && relay.listening
      modifies this
      ensures Valid() && Effect(View(), ask) == OnSignal(old(View()), signal)
    {
      relay := relay.(signal := Some(signal), listening := false);
      var up := ProcessGroupIsAlive();
      if !up {
        relay := relay.(done := true);
        return Some(signal);
      }
      timers := timers.(waitingForKillGrace := true, killTimer := RelayTimer(signal));
      return None;
    }

    method FireKillTimer() returns (ask: Option<Signal>)
      requires Valid() && timers.killTimer != NoTimer
      modifies this, shared`active
      ensures Valid() && Effect(View(), ask) == OnKillTimer(old(View()))
      ensures shared.active == if relay.registered then old(shared.active) else old(shared.active) - {this}
    {
      var timer := timers.killTimer;
      timers := timers.(waitingForKillGrace := false, killTimer := NoTimer);
      group := group.(sentKill := true);
      match timer {
        case RelayTimer(signal) =>
          relay := relay.(done := true);
          return Some(signal);
        case GraceTimer =>
          if child.closedCode.Some? { CloseWith(child.closedCode.value); }
          return None;
      }
    }

    method TimeoutHandler()
      requires Valid() && timers.timeoutArmed
      modifies this
      ensures Valid() && View() == OnTimeout(old(View())).run
    {
      timers := timers.(timedOut := true, timeoutArmed := false);
      if timers.waitingForKillGrace { return; }
      timers := timers.(waitingForKillGrace := true, killTimer := GraceTimer);
    }

    method Close(code: int) returns (ask: Option<Signal>)
      requires Valid() && !child.closed
      modifies this, shared`active
      ensures Valid() && Effect(View(), ask) == OnClose(old(View()), code)
      ensures shared.active == if relay.registered then old(shared.active) else old(shared.active) - {this}
    {
      child := child.(closed := true);
      if relay.signal.Some? || timers.waitingForKillGrace {
        var up := ProcessGroupIsAlive();
        if up {
          child := child.(closedCode := Some(code));
          return None;
        }
      }
      if relay.signal.Some? {
        timers := timers.(killTimer := NoTimer);
        relay := relay.(done := true);
        return relay.signal;
      }
      CloseWith(code);
      return None;
    }

    method ErrorHandler()
      requires Valid()
      modifies this, shared`active
      ensures Valid() && View() == OnError(old(View())).run
      ensures shared.active == if relay.registered then old(shared.active) else old(shared.active) - {this}
    {
      SettleWith(RejectedSpawn);
    }

    /** Every handler ends by asking for the re-raise, which happens exactly when, after the handler's own
        changes, no registered run objects. */
    method Ask(ask: Option<Signal>)
      modifies shared`reraised
      ensures shared.reraised == old(shared.reraised) + if ask.Some? && shared.NobodyObjects() then [ask.value] else []
    {
      if ask.Some? { shared.MaybeReraise(ask.value); }
    }

    method SignalHandler(signal: Signal)
      requires Valid() && relay.listening
      modifies this, shared`reraised
      ensures Valid() && View() == OnSignal(old(View()), signal).run
      ensures shared.reraised == old(shared.reraised)
                + if OnSignal(old(View()), signal).ask.Some? && shared.NobodyObjects() then [signal] else []
    {
      var ask := RelaySignal(signal);
      Ask(ask);
    }

    method KillTimerHandler()
      requires Valid() && timers.killTimer != NoTimer
      modifies this, shared
      ensures Valid() && View() == OnKillTimer(old(View())).run
      ensures var ask := OnKillTimer(old(View())).ask;
        shared.reraised == old(shared.reraised) + if ask.Some? && shared.NobodyObjects() then [ask.value] else []
      ensures shared.active == if relay.registered then old(shared.active) else old(shared.active) - {this}
    {
      var ask := FireKillTimer();
      Ask(ask);
    }

    method CloseHandler(code: int)
      requires Valid() && !child.closed
      modifies this, shared
      ensures Valid() && View() == OnClose(old(View()), code).run
      ensures var ask := OnClose(old(View()), code).ask;
        shared.reraised == old(shared.reraised) + if ask.Some? && shared.NobodyObjects() then [ask.value] else []
      ensures shared.active == if relay.registered then old(shared.active) else old(shared.active) - {this}
    {
      var ask := Close(code);
      Ask(ask);
    }

    method GroupDied()
      requires Valid()
      modifies `group
      ensures Valid() && group == old(group).(alive := false)
    {
      group := group.(alive := false);
    }

    method Truncate()
      requires Valid()
      modifies `child
      ensures Valid() && child == old(child).(truncated := true)
    {
      child := child.(truncated := true);
    }

    /** Whatever can happen to a run: its variables follow the machine, it leaves the shared set when the machine says
        so, and the parent re-raises exactly if the run asks for it and, with its changes, nobody objects. */
    method Happen(e: Event)
      requires Valid() && !e.Start? && Enabled(View(), e)
      modifies this, shared
      ensures Valid() && View() == Handle(old(View()), e).run
      ensures shared.active == if relay.registered then old(shared.active) else old(shared.active) - {this}
      ensures var ask := Handle(old(View()), e).ask;
        shared.reraised == old(shared.reraised) + if ask.Some? && shared.NobodyObjects() then [ask.value] else []
    {
      match e {
        case ParentSignal(_, signal) => SignalHandler(signal);
        case TimeoutFires(_) => TimeoutHandler();
        case KillTimerFires(_) => KillTimerHandler();
        case Closes(_, code) => CloseHandler(code);
        case Fails(_) => ErrorHandler();
        case GroupDies(_) => GroupDied();
        case OutputTruncated(_) => Truncate();
      }
    }
  }

  // ---- all runs together

  function Signals(reraised: seq<(Signal, seq<RunState>)>): seq<Signal> {
    if reraised == [] then [] else Signals(reraised[..|reraised| - 1]) + [reraised[|reraised| - 1].0]
  }

  lemma SignalsSnoc(reraised: seq<(Signal, seq<RunState>)>, signal: Signal, runs: seq<RunState>)
    ensures Signals(reraised + [(signal, runs)]) == Signals(reraised) + [signal]
  {
  }

  /** What an event that can happen adds to the signals re-raised. */
  lemma SignalsNext(w: World, e: Event)
    requires !e.Start? && e.i < |w.runs| && Enabled(w.runs[e.i], e)
    ensures var (effect, next) := (Handle(w.runs[e.i], e), Next(w, e));
      next.runs == w.runs[e.i := effect.run]
      && Signals(next.reraised)
      == Signals(w.reraised) + if effect.ask.Some? && Ready(next.runs) then [effect.ask.value] else []
  {
    var effect := Handle(w.runs[e.i], e);
    if effect.ask.Some? { SignalsSnoc(w.reraised, effect.ask.value, w.runs[e.i := effect.run]); }
  }

  /** The objects have the machine's states, and the shared set holds those of them that are registered. */
  ghost predicate Mirrors(shared: ParentSignals, runs: seq<Run>, states: seq<RunState>)
    reads shared, runs
  {
    && |runs| == |states| && (forall i, j :: 0 <= i < j < |runs| ==> runs[i] != runs[j])
    && (forall i :: 0 <= i < |runs| ==> runs[i].shared == shared && runs[i].Valid() && runs[i].View() == states[i])
    && forall run :: run in shared.active ==> run in runs
  }

  /** Nobody in the shared set objects exactly when no run of the machine does. */
  lemma NobodyIsReady(shared: ParentSignals, runs: seq<Run>, states: seq<RunState>)
    requires Mirrors(shared, runs, states)
    ensures shared.NobodyObjects() <==> Ready(states)
  {
    if shared.NobodyObjects() {
      forall i | 0 <= i < |states| ensures !Objects(states[i]) {
        assert runs[i].View() == states[i];
        assert runs[i].relay.registered ==> runs[i] in shared.active;
      }
    }
    if Ready(states) {
      forall run | run in shared.active ensures run.relay.signal.Some? && run.relay.done {
        var i :| 0 <= i < |runs| && runs[i] == run;
        assert !Objects(states[i]);
      }
    }
  }

  /** The parent process with all the runs it ever started. */
  class Parent {
    const shared: ParentSignals
    var runs: seq<Run>
    ghost var world: World

    ghost predicate Valid()
      reads this, shared, runs
    {
      Mirrors(shared, runs, world.runs) && shared.reraised == Signals(world.reraised)
    }

    constructor ()
      ensures Valid() && world == INITIAL && fresh(shared)
    {
      shared := new ParentSignals();
      runs, world := [], INITIAL;
    }

    method StartRun(rejectOnFailure: bool)
      requires Valid()
      modifies this, shared
      ensures Valid() && world == Next(old(world), Start(rejectOnFailure))
    {
      var run := new Run(shared, rejectOnFailure);
      runs := runs + [run];
      world := Next(world, Start(rejectOnFailure));
    }

    /** One run makes its step; the others stay as they are. */
    method StepRun(i: nat, e: Event)
      requires Valid() && !e.Start? && i < |runs| && Enabled(runs[i].View(), e)
      modifies shared, runs
      ensures Mirrors(shared, runs, world.runs[i := Handle(world.runs[i], e).run])
      ensures var ask := Handle(world.runs[i], e).ask;
        shared.reraised == old(shared.reraised) + if ask.Some? && shared.NobodyObjects() then [ask.value] else []
    {
      var run := runs[i];
      run.Happen(e);
    }

    /** An event of a run that can happen now. */
    method StepWorld(e: Event)
      requires Valid() && !e.Start? && e.i < |runs| && Enabled(runs[e.i].View(), e)
      modifies `world, shared, runs
      ensures Valid() && world == Next(old(world), e)
    {
      ghost var after := world.runs[e.i := Handle(world.runs[e.i], e).run];
      StepRun(e.i, e);
      NobodyIsReady(shared, runs, after);
      SignalsNext(world, e);
      world := Next(world, e);
    }

    /** Any event, in any order: the runs, the shared set and the re-raised signals are those of the machine. */
    method Happen(e: Event)
      requires Valid()
      modifies this, shared, runs
      ensures Valid() && world == Next(old(world), e)
    {
      if e.Start? {
        StartRun(e.rejectOnFailure);
      } else if e.i < |runs| && Enabled(runs[e.i].View(), e) {
        StepWorld(e);
      }
    }
  }
}

/** Child runs that share one set of parent-signal states (scripts/control-ui-i18n.ts, POSIX): time-outs, relayed
    signals, kill timers and close events in any order, over any number of runs. */
module SignalRelay {
  import opened Wrappers

  datatype Signal = SIGINT | SIGTERM | SIGHUP

  /** What the one kill-timer variable of a run holds: nothing, the timer of a relayed signal, or the
      timer set by the run's own time-out. */
  datatype Timer = NoTimer | RelayTimer(signal: Signal) | GraceTimer

  datatype Outcome = Resolved | RejectedTimeout | RejectedFailure | RejectedTruncated | RejectedSpawn

  /** The process group. `sawDead` and `sentKill` record that it was found dead and that SIGKILL was sent to it. */
  datatype Group = Group(alive: bool, sawDead: bool, sentKill: bool)

  /** The run's entry in the shared set and its signal handlers. A run listens to SIGINT, SIGTERM and SIGHUP
      together and stops listening to all of them together; `signal` is the relayed one. */
  datatype Relay = Relay(registered: bool, listening: bool, signal: Option<Signal>, done: bool)

  datatype Timers = Timers(timeoutArmed: bool, timedOut: bool, waitingForKillGrace: bool, killTimer: Timer)

  /** The promise; `settles` counts the calls that settled it. */
  datatype Promise = Promise(settled: bool, outcome: Option<Outcome>, settles: nat)

  datatype Child = Child(rejectOnFailure: bool, truncated: bool, closed: bool, closedCode: Option<int>)

  datatype RunState = RunState(child: Child, group: Group, relay: Relay, timers: Timers, promise: Promise)

  function Started(rejectOnFailure: bool): RunState {
    RunState(Child(rejectOnFailure, false, false, None), Group(true, false, false), Relay(true, true, None, false),
             Timers(true, false, false, NoTimer), Promise(false, None, 0))
  }

  function Settle(r: RunState, outcome: Outcome): RunState {
    if r.promise.settled then r
    else
      var relayed := r.relay.signal.Some?;
      r.(promise := Promise(true, Some(outcome), r.promise.settles + 1),
         timers := r.timers.(timeoutArmed := false, killTimer := if relayed then r.timers.killTimer else NoTimer),
         relay := r.relay.(registered := r.relay.registered && relayed, listening := false))
  }

  function FinishOutcome(r: RunState, code: int): Outcome {
    if r.timers.timedOut then RejectedTimeout
    else if code != 0 && r.child.rejectOnFailure then RejectedFailure
    else if code == 0 && r.child.truncated then RejectedTruncated
    else Resolved
  }

  function FinishClose(r: RunState, code: int): RunState { Settle(r, FinishOutcome(r, code)) }

  /** Asking whether the process group is alive; a negative answer is remembered. */
  function Probed(g: Group): Group { g.(sawDead := g.sawDead || !g.alive) }

  /** A handler's effect: the run's new state, and the signal to re-raise if no registered run objects. */
  datatype Effect = Effect(run: RunState, ask: Option<Signal>)

  function OnSignal(r: RunState, signal: Signal): Effect {
    if r.group.alive then
      Effect(r.(relay := Relay(r.relay.registered, false, Some(signal), r.relay.done),
                timers := r.timers.(waitingForKillGrace := true, killTimer := RelayTimer(signal))), None)
    else
      Effect(r.(relay := Relay(r.relay.registered, false, Some(signal), true), group := Probed(r.group)), Some(signal))
  }

  function OnKillTimer(r: RunState): Effect {
    var s := r.(timers := r.timers.(waitingForKillGrace := false, killTimer := NoTimer),
      group := r.group.(sentKill := true));
    match r.timers.killTimer
    case RelayTimer(signal) => Effect(s.(relay := s.relay.(done := true)), Some(signal))
    case _ => Effect(if r.child.closedCode.Some? then FinishClose(s, r.child.closedCode.value) else s, None)
  }

  function OnTimeout(r: RunState): Effect {
    Effect(r.(timers := if r.timers.waitingForKillGrace then r.timers.(timedOut := true, timeoutArmed := false)
                        else Timers(false, true, true, GraceTimer)), None)
  }

  function OnClose(r: RunState, code: int): Effect {
    var s := r.(child := r.child.(closed := true));
    if r.relay.signal.Some? || r.timers.waitingForKillGrace then
      var t := s.(group := Probed(s.group));
      if r.group.alive then Effect(t.(child := t.child.(closedCode := Some(code))), None)
      else if r.relay.signal.Some? then
        Effect(t.(timers := t.timers.(killTimer := NoTimer), relay := t.relay.(done := true)), r.relay.signal)
      else Effect(FinishClose(t, code), None)
    else Effect(FinishClose(s, code), None)
  }

  function OnError(r: RunState): Effect { Effect(Settle(r, RejectedSpawn), None) }

  // ---- all runs together

  datatype Event =
    | Start(rejectOnFailure: bool)
    | ParentSignal(i: nat, signal: Signal)
    | TimeoutFires(i: nat)
    | KillTimerFires(i: nat)
    | Closes(i: nat, code: int)
    | Fails(i: nat)
    | GroupDies(i: nat)
    | OutputTruncated(i: nat)

  /** Every re-raise is kept with the states of all runs at that moment. */
  datatype World = World(runs: seq<RunState>, reraised: seq<(Signal, seq<RunState>)>)

  /** A registered run that has seen no signal or is not done holds the re-raise back. */
  predicate Objects(r: RunState) { r.relay.registered && !(r.relay.signal.Some? && r.relay.done) }

  predicate Ready(runs: seq<RunState>) { forall i :: 0 <= i < |runs| ==> !Objects(runs[i]) }

  predicate Enabled(r: RunState, e: Event) {
    match e
    case Start(_) => false
    case ParentSignal(_, _) => r.relay.listening
    case TimeoutFires(_) => r.timers.timeoutArmed
    case KillTimerFires(_) => r.timers.killTimer != NoTimer
    case Closes(_, _) => !r.child.closed
    case Fails(_) => true
    case GroupDies(_) => true
    case OutputTruncated(_) => !r.child.closed
  }

  function Handle(r: RunState, e: Event): Effect {
    match e
    case Start(_) => Effect(r, None)
    case ParentSignal(_, signal) => OnSignal(r, signal)
    case TimeoutFires(_) => OnTimeout(r)
    case KillTimerFires(_) => OnKillTimer(r)
    case Closes(_, code) => OnClose(r, code)
    case Fails(_) => OnError(r)
    case GroupDies(_) => Effect(r.(group := r.group.(alive := false)), None)
    case OutputTruncated(_) => Effect(r.(child := r.child.(truncated := true)), None)
  }

  /** One event; an event that cannot happen now has no effect. */
  function Next(w: World, e: Event): World {
    if e.Start? then w.(runs := w.runs + [Started(e.rejectOnFailure)])
    else if e.i >= |w.runs| || !Enabled(w.runs[e.i], e) then w
    else
      var effect := Handle(w.runs[e.i], e);
      var runs := w.runs[e.i := effect.run];
      World(runs, if effect.ask.Some? && Ready(runs) then w.reraised + [(effect.ask.value, runs)] else w.reraised)
  }

  function Execute(w: World, events: seq<Event>): World {
    if events == [] then w else Next(Execute(w, events[..|events| - 1]), events[|events| - 1])
  }

  const INITIAL := World([], [])

  // ---- invariant of one run

  predicate Accounted(r: RunState) { r.group.sawDead || r.group.sentKill }

  predicate ClosedByItself(r: RunState) { r.promise.outcome.Some? && r.promise.outcome.value != RejectedSpawn }

  predicate Relayed(r: RunState) { r.relay.signal.Some? }

  predicate CoreInv(r: RunState) {
    && (r.relay.done ==> Accounted(r) && Relayed(r))
    && r.promise.settled == r.promise.outcome.Some? && r.promise.settles == (if r.promise.settled then 1 else 0)
    && (r.promise.outcome == Some(Resolved) ==> !r.timers.timedOut)
    && (r.promise.outcome == Some(RejectedTimeout) ==> r.timers.timedOut)
    && (r.timers.killTimer != NoTimer ==> r.timers.waitingForKillGrace)
    && (r.timers.killTimer.RelayTimer? ==> r.relay.signal == Some(r.timers.killTimer.signal) && !r.relay.done)
    && (r.relay.listening <==> !Relayed(r) && !r.promise.settled)
    && (r.timers.timeoutArmed <==> !r.promise.settled && !r.timers.timedOut)
    && (r.timers.timedOut && !Relayed(r) && !r.promise.settled ==>
          r.group.sentKill || (r.timers.waitingForKillGrace && r.timers.killTimer == GraceTimer))
    && (r.timers.waitingForKillGrace && !Relayed(r) ==> r.timers.timedOut)
    && (r.timers.waitingForKillGrace && !Relayed(r) && !r.promise.settled ==> r.timers.killTimer == GraceTimer)
    && (r.child.closedCode.Some? ==> r.child.closed)
    && (r.relay.registered <==> !(r.promise.settled && !Relayed(r)))
    && (!Relayed(r) && !r.timers.timedOut ==> !Accounted(r))
    && (ClosedByItself(r) ==> r.child.closed && (r.timers.timedOut || Relayed(r) ==> Accounted(r)))
    && (ClosedByItself(r) && r.timers.timedOut ==> r.promise.outcome == Some(RejectedTimeout))
  }

  /** A run whose child has closed, but that has neither settled nor seen a signal, still has its timer to come. */
  predicate TimerToCome(r: RunState) {
    r.child.closed && !r.promise.settled && !Relayed(r) ==> r.timers.killTimer == GraceTimer && r.child.closedCode.Some?
  }

  predicate RunInv(r: RunState) { CoreInv(r) && TimerToCome(r) }

  lemma SettleKeepsInv(r: RunState, outcome: Outcome)
    requires CoreInv(r)
    requires outcome == Resolved ==> !r.timers.timedOut
    requires outcome == RejectedTimeout ==> r.timers.timedOut
    requires outcome != RejectedSpawn && !r.promise.settled
         ==> r.child.closed && (r.timers.timedOut || Relayed(r) ==> Accounted(r))
    requires outcome != RejectedSpawn && r.timers.timedOut ==> outcome == RejectedTimeout
    ensures CoreInv(Settle(r, outcome))
  {
  }

  lemma OnSignalKeepsInv(r: RunState, signal: Signal)
    requires RunInv(r) && r.relay.listening
    ensures RunInv(OnSignal(r, signal).run)
  {
  }

  lemma OnKillTimerKeepsInv(r: RunState)
    requires RunInv(r) && r.timers.killTimer != NoTimer
    ensures RunInv(OnKillTimer(r).run)
  {
    var s := r.(timers := r.timers.(waitingForKillGrace := false, killTimer := NoTimer),
      group := r.group.(sentKill := true));
    assert CoreInv(s);
    if r.timers.killTimer == GraceTimer && r.child.closedCode.Some? {
      SettleKeepsInv(s, FinishOutcome(s, r.child.closedCode.value));
    }
  }

  lemma OnCloseKeepsInv(r: RunState, code: int)
    requires RunInv(r) && !r.child.closed
    ensures RunInv(OnClose(r, code).run)
  {
    var s := r.(child := r.child.(closed := true));
    assert CoreInv(s);
    if !Relayed(r) && !(r.timers.waitingForKillGrace && r.group.alive) {
      var t := if r.timers.waitingForKillGrace then s.(group := Probed(s.group)) else s;
      assert CoreInv(t);
      SettleKeepsInv(t, FinishOutcome(t, code));
    }
  }

  lemma HandleKeepsInv(r: RunState, e: Event)
    requires RunInv(r) && Enabled(r, e)
    ensures RunInv(Handle(r, e).run)
  {
    match e
    case ParentSignal(_, signal) => OnSignalKeepsInv(r, signal);
    case KillTimerFires(_) => OnKillTimerKeepsInv(r);
    case Closes(_, code) => OnCloseKeepsInv(r, code);
    case Fails(_) => SettleKeepsInv(r, RejectedSpawn);
    case _ =>
  }

  // ---- what each event changes

  /** What is kept of a run, field by field: which events change it, and to what. */
  lemma EventsChange(r: RunState, e: Event)
    requires RunInv(r) && Enabled(r, e)
    ensures var after := Handle(r, e).run;
      && (after.timers.timedOut <==> r.timers.timedOut || e.TimeoutFires?)
      && after.relay.signal == (if e.ParentSignal? then Some(e.signal) else r.relay.signal)
      && (after.child.closed <==> r.child.closed || e.Closes?)
      && (after.child.truncated <==> r.child.truncated || e.OutputTruncated?)
      && after.child.rejectOnFailure == r.child.rejectOnFailure
      && (after.group.alive <==> r.group.alive && !e.GroupDies?)
      && (after.group.sentKill <==> r.group.sentKill || e.KillTimerFires?)
  {
  }

  /** Whether a run waits for its group, and what it notes of it: only then does its child's end look at the group, and
      an end that finds it alive is noted with its exit code. */
  lemma WaitingChanges(r: RunState, e: Event)
    requires RunInv(r) && Enabled(r, e)
    ensures var (after, waits) := (Handle(r, e).run, Relayed(r) || r.timers.waitingForKillGrace);
      && (after.timers.waitingForKillGrace <==> match e
                                                case ParentSignal(_, _) => r.timers.waitingForKillGrace || r.group.alive
                                                case TimeoutFires(_) => true
                                                case KillTimerFires(_) => false
                                                case _ => r.timers.waitingForKillGrace)
      && (after.group.sawDead
          <==> r.group.sawDead || (!r.group.alive && (e.ParentSignal? || (e.Closes? && waits))))
      && after.child.closedCode == (if e.Closes? && waits && r.group.alive then Some(e.code) else r.child.closedCode)
  {
  }

  /** A promise is settled by a failed start; by the child's end, if no signal was relayed and no timer runs for a group
      that is still alive; and by the run's own timer, if the child has ended before. */
  predicate Settling(r: RunState, e: Event) {
    !r.promise.settled
    && match e
       case Fails(_) => true
       case Closes(_, _) => !Relayed(r) && !(r.timers.killTimer == GraceTimer && r.group.alive)
       case KillTimerFires(_) => r.timers.killTimer == GraceTimer && r.child.closedCode.Some?
       case _ => false
  }

  /** The exit code that the child ended with. */
  function CodeOf(r: RunState, e: Event): int {
    if e.Closes? then e.code else if r.child.closedCode.Some? then r.child.closedCode.value else 0
  }

  /** When a promise is settled, and with what: a time-out comes before a failure, and a failure before cut output. */
  lemma SettlesIff(r: RunState, e: Event)
    requires RunInv(r) && Enabled(r, e)
    ensures var (after, code) := (Handle(r, e).run.promise, CodeOf(r, e));
      if !Settling(r, e) then after == r.promise
      else
        && (after.outcome == Some(RejectedSpawn) <==> e.Fails?)
        && (after.outcome == Some(RejectedTimeout) <==> !e.Fails? && r.timers.timedOut)
        && (after.outcome == Some(RejectedFailure)
            <==> !e.Fails? && !r.timers.timedOut && code != 0 && r.child.rejectOnFailure)
        && (after.outcome == Some(RejectedTruncated)
            <==> !e.Fails? && !r.timers.timedOut && code == 0 && r.child.truncated)
        && after.settled && after.outcome.Some?
  {
  }

  /** When a run asks for its signal to be re-raised, becoming done: when the group is found dead or sent SIGKILL. */
  lemma AsksIff(r: RunState, e: Event)
    requires RunInv(r) && Enabled(r, e)
    ensures var (after, asks) := (Handle(r, e).run, Handle(r, e).ask.Some?);
      && (asks <==> match e
                    case ParentSignal(_, _) => !r.group.alive
                    case Closes(_, _) => Relayed(r) && !r.group.alive
                    case KillTimerFires(_) => r.timers.killTimer.RelayTimer?
                    case _ => false)
      && (after.relay.done <==> r.relay.done || asks)
  {
  }

  /** The one kill timer: a relayed signal's replaces the run's own, and the end of the run or of its group clears it.
      */
  lemma TimerChanges(r: RunState, e: Event)
    requires RunInv(r) && Enabled(r, e)
    ensures var (before, after, asks) := (r.timers.killTimer, Handle(r, e).run.timers.killTimer,
      Handle(r, e).ask.Some?);
      after == match e
               case ParentSignal(_, signal) => if r.group.alive then RelayTimer(signal) else before
               case TimeoutFires(_) => if before == NoTimer && !r.timers.waitingForKillGrace then GraceTimer else before
               case KillTimerFires(_) => NoTimer
               case Closes(_, _) => if Relayed(r) && r.group.alive then before
                                    else if !Relayed(r) && !Settling(r, e) then before else NoTimer
               case Fails(_) => if Relayed(r) || r.promise.settled then before else NoTimer
               case _ => before
  {
  }

  /** A promise is settled once and for all. */
  lemma OutcomeIsFinal(r: RunState, e: Event)
    requires RunInv(r) && Enabled(r, e) && r.promise.outcome.Some?
    ensures Handle(r, e).run.promise == r.promise
  {
    assert r.promise.settled;
  }

  // ---- safety over every run of events

  /** What must hold of all runs ever started when the parent re-raises: a run still registered has seen a
      signal, is done, and its group was found dead or sent SIGKILL; any other had settled before a signal. */
  ghost predicate Justified(runs: seq<RunState>) {
    forall i :: 0 <= i < |runs| ==>
      if runs[i].relay.registered then Relayed(runs[i]) && runs[i].relay.done && Accounted(runs[i])
      else runs[i].promise.settled && !Relayed(runs[i])
  }

  ghost predicate WorldInv(w: World) {
    && (forall i :: 0 <= i < |w.runs| ==> RunInv(w.runs[i]))
    && (forall k :: 0 <= k < |w.reraised| ==> Justified(w.reraised[k].1))
  }

  lemma NextKeepsInv(w: World, e: Event)
    requires WorldInv(w)
    ensures WorldInv(Next(w, e))
  {
    if !e.Start? && e.i < |w.runs| && Enabled(w.runs[e.i], e) { HandleKeepsInv(w.runs[e.i], e); }
  }

  /** Whatever happens to any number of runs, in any order. */
  lemma {:induction false} ExecutionIsSafe(events: seq<Event>)
    ensures WorldInv(Execute(INITIAL, events))
  {
    if events != [] {
      ExecutionIsSafe(events[..|events| - 1]);
      NextKeepsInv(Execute(INITIAL, events[..|events| - 1]), events[|events| - 1]);
    }
  }

  /** The parent re-raises only when every run it ever started is accounted for. */
  lemma ReraiseIsJustified(events: seq<Event>, k: nat, i: nat)
    requires k < |Execute(INITIAL, events).reraised| && i < |Execute(INITIAL, events).reraised[k].1|
    ensures var r := Execute(INITIAL, events).reraised[k].1[i];
      if r.relay.registered then Relayed(r) && r.relay.done && Accounted(r) else r.promise.settled && !Relayed(r)
  {
    ExecutionIsSafe(events);
    assert Justified(Execute(INITIAL, events).reraised[k].1);
  }

  // ---- which signal is re-raised

  /** A run that asks, asks for the signal that was relayed to its group. */
  lemma AsksForRelayed(r: RunState, e: Event)
    requires RunInv(r) && Enabled(r, e) && Handle(r, e).ask.Some?
    ensures Handle(r, e).run.relay.signal == Handle(r, e).ask
  {
  }

  /** A run's relayed signal reached the parent while the run was listening. */
  lemma {:induction false} RelayedWasSent(events: seq<Event>, i: nat) returns (m: nat)
    requires i < |Execute(INITIAL, events).runs| && Relayed(Execute(INITIAL, events).runs[i])
    ensures m < |events| && events[m] == ParentSignal(i, Execute(INITIAL, events).runs[i].relay.signal.value)
  {
    var n := |events| - 1;
    var w, e := Execute(INITIAL, events[..n]), events[n];
    ExecutionIsSafe(events[..n]);
    if i < |w.runs| && Enabled(w.runs[i], e) { EventsChange(w.runs[i], e); }
    if i < |w.runs| && !(e.ParentSignal? && e.i == i && Enabled(w.runs[i], e)) {
      m := RelayedWasSent(events[..n], i);
    } else {
      m := n;
    }
  }

  /** Event n re-raised the signal: it is the one relayed by that event's run, to which event m had brought it. */
  ghost predicate ReraisedBy(events: seq<Event>, signal: Signal, runs: seq<RunState>, n: nat, m: nat) {
    && m <= n < |events| && !events[n].Start? && events[n].i < |runs|
    && runs[events[n].i].relay.signal == Some(signal) && events[m] == ParentSignal(events[n].i, signal)
    && Execute(INITIAL, events[..n + 1])
       == World(runs, Execute(INITIAL, events[..n]).reraised + [(signal, runs)])
  }

  /** The event that was the last one re-raises its run's signal, or nothing. */
  lemma LastReraise(events: seq<Event>) returns (m: nat)
    requires events != []
    requires Execute(INITIAL, events).reraised != Execute(INITIAL, events[..|events| - 1]).reraised
    ensures var (n, w) := (|events| - 1, Execute(INITIAL, events));
      |w.reraised| == |Execute(INITIAL, events[..n]).reraised| + 1
      && ReraisedBy(events, w.reraised[|w.reraised| - 1].0, w.reraised[|w.reraised| - 1].1, n, m)
  {
    var n := |events| - 1;
    var w, e := Execute(INITIAL, events[..n]), events[n];
    ExecutionIsSafe(events[..n]);
    AsksForRelayed(w.runs[e.i], e);
    m := RelayedWasSent(events, e.i);
    assert events[..n + 1] == events;
  }

  /** Every signal re-raised is one that the parent received and that the run causing the re-raise had relayed. */
  lemma {:induction false} ReraisedIsRelayed(events: seq<Event>, k: nat) returns (n: nat, m: nat)
    requires k < |Execute(INITIAL, events).reraised|
    ensures var reraised := Execute(INITIAL, events).reraised;
      ReraisedBy(events, reraised[k].0, reraised[k].1, n, m)
      && Execute(INITIAL, events[..n]).reraised == reraised[..k]
  {
    var init := events[..|events| - 1];
    if k < |Execute(INITIAL, init).reraised| {
      n, m := ReraisedIsRelayed(init, k);
      assert init[..n] == events[..n] && init[..n + 1] == events[..n + 1];
    } else {
      n := |events| - 1;
      m := LastReraise(events);
    }
  }

  /** Every run settles at most once; one that timed out never resolves; done means accounted for. A run that was
      settled by its child's end was checked on exactly when it had timed out or a signal had been relayed. */
  lemma RunsAreSafe(events: seq<Event>, i: nat)
    requires i < |Execute(INITIAL, events).runs|
    ensures var r := Execute(INITIAL, events).runs[i];
      && r.promise.settles <= 1
      && (r.timers.timedOut ==> r.promise.outcome != Some(Resolved))
      && (r.relay.done ==> Relayed(r) && Accounted(r))
      && (r.promise.outcome == Some(RejectedTimeout) ==> Accounted(r))
      && (ClosedByItself(r) ==> (Accounted(r) <==> r.timers.timedOut || Relayed(r)))
  {
    ExecutionIsSafe(events);
  }

  lemma ExecuteSnoc(w: World, events: seq<Event>, e: Event)
    ensures Execute(w, events + [e]) == Next(Execute(w, events), e)
  {
    assert (events + [e])[..|events|] == events;
  }

  /** A plain failure is reported without a look at the process group, which may well live on. */
  lemma RejectionWithoutCheck()
    ensures var r := Execute(INITIAL, [Start(true), Closes(0, 1)]).runs[0];
      r.promise.outcome == Some(RejectedFailure) && r.group == Group(true, false, false)
  {
    ExecuteSnoc(INITIAL, [], Start(true));
    ExecuteSnoc(INITIAL, [Start(true)], Closes(0, 1));
    assert [] + [Start(true)] == [Start(true)] && [Start(true)] + [Closes(0, 1)] == [Start(true), Closes(0, 1)];
  }

  // ---- when the re-raise is missed

  /** A run stops objecting either by becoming done, and then it asks for the re-raise, or by leaving the set. */
  lemma StopsObjecting(r: RunState, e: Event)
    requires RunInv(r) && Enabled(r, e) && Objects(r) && !Objects(Handle(r, e).run)
    ensures Handle(r, e).ask.Some? <==> Handle(r, e).run.relay.registered
  {
  }

  lemma StartObjects(w: World, e: Event)
    requires e.Start?
    ensures !Ready(Next(w, e).runs)
  {
    assert Objects(Next(w, e).runs[|w.runs|]);
  }

  /** The event concerns a run that has been signalled, or signals it. */
  predicate Signalled(w: World, e: Event) {
    !e.Start? && e.i < |w.runs| && (e.ParentSignal? || w.runs[e.i].relay.signal.Some?)
  }

  /** The last objection disappears without a re-raise exactly when the event neither signals its run nor concerns one
      that was signalled before; it is then the end of a run that had seen nothing of the signal. */
  lemma ReraiseMissedIff(w: World, e: Event)
    requires WorldInv(w) && !Ready(w.runs) && Ready(Next(w, e).runs)
    ensures !e.Start? && e.i < |w.runs|
    ensures Next(w, e).reraised == w.reraised <==> !e.ParentSignal? && w.runs[e.i].relay.signal.None?
  {
    if e.Start? { StartObjects(w, e); }
    if !e.Start? && e.i < |w.runs| && Enabled(w.runs[e.i], e) {
      assert Objects(w.runs[e.i]) by {
        forall i | 0 <= i < |w.runs| && i != e.i ensures !Objects(w.runs[i]) { assert Next(w, e).runs[i] == w.runs[i]; }
      }
      assert !Objects(Next(w, e).runs[e.i]);
      StopsObjecting(w.runs[e.i], e);
      LeavesUnsignalled(w.runs[e.i], e);
    }
  }

  /** A registered run leaves the set exactly by settling without a signal. */
  lemma LeavesUnsignalled(r: RunState, e: Event)
    requires RunInv(r) && Enabled(r, e) && Objects(r) && !Objects(Handle(r, e).run)
    ensures Handle(r, e).run.relay.registered <==> e.ParentSignal? || r.relay.signal.Some?
  {
  }

  /** From the given moment to the last one there is always a run that objects. */
  ghost predicate ObjectedSince(events: seq<Event>, from: nat) {
    forall k: nat :: from <= k <= |events| ==> ObjectedAt(events, k)
  }

  ghost predicate ObjectedAt(events: seq<Event>, k: nat)
    requires k <= |events|
  {
    !Ready(Execute(INITIAL, events[..k]).runs)
  }

  /** While some run objects, nothing is re-raised. */
  lemma {:induction false} NothingWhileObjecting(events: seq<Event>, from: nat)
    requires from <= |events| && ObjectedSince(events, from)
    ensures Execute(INITIAL, events).reraised == Execute(INITIAL, events[..from]).reraised
    decreases |events|
  {
    assert events[..|events|] == events;
    if from < |events| {
      var init := events[..|events| - 1];
      forall k: nat | from <= k <= |init| ensures ObjectedAt(init, k) {
        assert init[..k] == events[..k] && ObjectedAt(events, k);
      }
      NothingWhileObjecting(init, from);
      assert init[..from] == events[..from];
      assert ObjectedAt(events, |events|);
      NothingUnlessReady(Execute(INITIAL, init), events[|events| - 1]);
    }
  }

  lemma NothingUnlessReady(w: World, e: Event)
    requires !Ready(Next(w, e).runs)
    ensures Next(w, e).reraised == w.reraised
  {
  }

  /** Over a whole course of events: from any moment on, say that of a first relayed signal, some run objects, up to the
      event after which none does. In all that time the signal is not re-raised exactly when that last event is the end
      of a run that was never signalled. */
  lemma SignalMissedIff(events: seq<Event>, from: nat, last: Event)
    requires from <= |events| && ObjectedSince(events, from) && Ready(Execute(INITIAL, events + [last]).runs)
    ensures Execute(INITIAL, events + [last]).reraised == Execute(INITIAL, events[..from]).reraised
       <==> !Signalled(Execute(INITIAL, events), last)
  {
    ExecuteSnoc(INITIAL, events, last);
    NothingWhileObjecting(events, from);
    ExecutionIsSafe(events);
    assert ObjectedAt(events, |events|) && events[..|events|] == events;
    ReraiseMissedIff(Execute(INITIAL, events), last);
  }

  /** Signalled and done, and no event of its child is to come; or it settled before any signal. */
  predicate Quiet(r: RunState) {
    RunInv(r) && (if Relayed(r) then r.relay.done && r.child.closed else r.promise.settled)
  }

  lemma QuietHandle(r: RunState, e: Event)
    requires Quiet(r) && Enabled(r, e)
    ensures Quiet(Handle(r, e).run) && Handle(r, e).ask.None?
  {
    HandleKeepsInv(r, e);
  }

  predicate NoStart(events: seq<Event>) { forall k :: 0 <= k < |events| ==> !events[k].Start? }

  lemma {:induction false} QuietStaysQuiet(w: World, events: seq<Event>)
    requires (forall i :: 0 <= i < |w.runs| ==> Quiet(w.runs[i])) && NoStart(events)
    ensures Execute(w, events).reraised == w.reraised
    ensures forall i :: 0 <= i < |Execute(w, events).runs| ==> Quiet(Execute(w, events).runs[i])
  {
    if events != [] {
      QuietStaysQuiet(w, events[..|events| - 1]);
      var before, e := Execute(w, events[..|events| - 1]), events[|events| - 1];
      if e.i < |before.runs| && Enabled(before.runs[e.i], e) { QuietHandle(before.runs[e.i], e); }
    }
  }

  /** A signalled run whose child has not closed asks once more when it does. */
  lemma CloseAsksAgain(w: World, i: nat)
    requires WorldInv(w) && Ready(w.runs) && i < |w.runs| && Relayed(w.runs[i]) && !w.runs[i].child.closed
    ensures Execute(w, [GroupDies(i), Closes(i, 0)]).reraised != w.reraised
  {
    var dies, closes := GroupDies(i), Closes(i, 0);
    var v := Next(w, dies);
    ExecuteSnoc(w, [], dies);
    ExecuteSnoc(w, [dies], closes);
    assert [] + [dies] == [dies] && [dies] + [closes] == [dies, closes];
    assert !Objects(w.runs[i]);
    var effect := OnClose(v.runs[i], 0);
    assert effect.ask.Some? && !Objects(effect.run);
    var runs := v.runs[i := effect.run];
    forall k | 0 <= k < |runs| ensures !Objects(runs[k]) { assert k != i ==> !Objects(w.runs[k]); }
    assert |Next(v, closes).reraised| == |w.reraised| + 1;
  }

  /** Once nobody objects, whatever the course of events so far: nothing these runs can still do re-raises a signal,
      exactly when the child of every signalled run has closed. */
  lemma NothingMoreIff(events: seq<Event>)
    requires Ready(Execute(INITIAL, events).runs)
    ensures var w := Execute(INITIAL, events);
      (forall more :: NoStart(more) ==> Execute(w, more).reraised == w.reraised)
      <==> forall i :: 0 <= i < |w.runs| && w.runs[i].relay.signal.Some? ==> w.runs[i].child.closed
  {
    var w := Execute(INITIAL, events);
    ExecutionIsSafe(events);
    if i :| 0 <= i < |w.runs| && w.runs[i].relay.signal.Some? && !w.runs[i].child.closed {
      CloseAsksAgain(w, i);
      assert NoStart([GroupDies(i), Closes(i, 0)]);
    } else {
      forall i | 0 <= i < |w.runs| ensures Quiet(w.runs[i]) { assert !Objects(w.runs[i]); }
      forall more | NoStart(more) ensures Execute(w, more).reraised == w.reraised { QuietStaysQuiet(w, more); }
    }
  }

  /** A signal is lost from a moment on: it has not been re-raised since, and nothing the runs can still do will. */
  ghost predicate Lost(events: seq<Event>, from: nat)
    requires from <= |events|
  {
    var w := Execute(INITIAL, events);
    w.reraised == Execute(INITIAL, events[..from]).reraised
    && forall more :: NoStart(more) ==> Execute(w, more).reraised == w.reraised
  }

  /** When a signal is lost: some run objects from the moment on until the last event, after which none does; that event
      is the end of a run that was never signalled; and the children of all signalled runs have closed. */
  lemma SignalLostIff(events: seq<Event>, from: nat, last: Event)
    requires from <= |events| && ObjectedSince(events, from) && Ready(Execute(INITIAL, events + [last]).runs)
    ensures var w := Execute(INITIAL, events + [last]);
      Lost(events + [last], from)
      <==> !Signalled(Execute(INITIAL, events), last)
           && forall i :: 0 <= i < |w.runs| && w.runs[i].relay.signal.Some? ==> w.runs[i].child.closed
  {
    assert (events + [last])[..from] == events[..from];
    SignalMissedIff(events, from, last);
    NothingMoreIff(events + [last]);
  }

  /** A run started after the signal, and ended by itself before or after the signalled run's end. */
  const LOST_SIGNAL := [Start(false), ParentSignal(0, SIGTERM), Start(false), GroupDies(0), Closes(0, 0), Closes(1, 0)]

  lemma LostSignalRun() returns (w: World)
    ensures w == Execute(INITIAL, LOST_SIGNAL)
    ensures w.reraised == [] && Ready(w.runs) && |w.runs| == 2 && w.runs[0].relay.signal == Some(SIGTERM)
    ensures Quiet(w.runs[0]) && Quiet(w.runs[1])
  {
    var a := Started(false);
    var b := OnSignal(a, SIGTERM).run;
    var c := b.(group := b.group.(alive := false));
    var w3 := Execute(INITIAL, LOST_SIGNAL[..3]);
    assert w3 == World([b, a], []) by {
      assert LOST_SIGNAL[..1] == [Start(false)] && LOST_SIGNAL[..2] == LOST_SIGNAL[..1] + [ParentSignal(0, SIGTERM)]
          && LOST_SIGNAL[..3] == LOST_SIGNAL[..2] + [Start(false)];
      ExecuteSnoc(INITIAL, [], Start(false));
      assert [] + [Start(false)] == LOST_SIGNAL[..1];
      ExecuteSnoc(INITIAL, LOST_SIGNAL[..1], ParentSignal(0, SIGTERM));
      ExecuteSnoc(INITIAL, LOST_SIGNAL[..2], Start(false));
    }
    assert LOST_SIGNAL[..4] == LOST_SIGNAL[..3] + [GroupDies(0)]
      && LOST_SIGNAL[..5] == LOST_SIGNAL[..4] + [Closes(0, 0)]
        && LOST_SIGNAL == LOST_SIGNAL[..5] + [Closes(1, 0)];
    ExecuteSnoc(INITIAL, LOST_SIGNAL[..3], GroupDies(0));
    ExecuteSnoc(INITIAL, LOST_SIGNAL[..4], Closes(0, 0));
    ExecuteSnoc(INITIAL, LOST_SIGNAL[..5], Closes(1, 0));
    var w4 := Execute(INITIAL, LOST_SIGNAL[..4]);
    assert w4.runs == [c, a];
    var w5 := Execute(INITIAL, LOST_SIGNAL[..5]);
    assert w5.runs == [OnClose(c, 0).run, a] && Objects(w5.runs[1]);
    w := Execute(INITIAL, LOST_SIGNAL);
    assert w.runs == [OnClose(c, 0).run, OnClose(a, 0).run];
  }

  /** A signal can be lost: a run started after it holds the re-raise back, and when that run ends normally the
      set has nobody left to object, yet no later event of these runs re-raises. */
  lemma SignalCanBeLost(events: seq<Event>)
    requires NoStart(events)
    ensures var w := Execute(INITIAL, LOST_SIGNAL);
      Ready(w.runs) && |w.runs| == 2 && w.runs[0].relay.signal == Some(SIGTERM) && Execute(w, events).reraised == []
  {
    var w := LostSignalRun();
    QuietStaysQuiet(w, events);
  }
}

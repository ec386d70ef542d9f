/** Two runs of one goal (loop-modules/outer-loop.ts). Nothing locks a goal, so a second run can begin while the first
    one is under way; both work on the same state file, temporary file and runtime record. */
module LoopOverlap {
  import opened Wrappers
  import opened GateRunner
  import opened LoopModel
  import opened LoopCrash

  /** The files, and where each run stands. */
  datatype Two = Two(files: Machine, first: Phase, second: Phase)

  /** A step of one of the runs. */
  datatype Step = Step(byFirst: bool, event: Event)

  const BOTH_IDLE := Two(CREATED, Idle, Idle)

  /** What one of the runs sees. */
  function View(t: Two, byFirst: bool): Machine { t.files.(phase := if byFirst then t.first else t.second) }

  function With(t: Two, byFirst: bool, m: Machine): Two {
    Two(m.(phase := Idle), if byFirst then m.phase else t.first, if byFirst then t.second else m.phase)
  }

  function NextOfTwo(commands: seq<string>, t: Two, s: Step): Two {
    With(t, s.byFirst, Next(commands, View(t, s.byFirst), s.event))
  }

  function ExecuteTwo(commands: seq<string>, t: Two, steps: seq<Step>): Two {
    if steps == [] then t
    else NextOfTwo(commands, ExecuteTwo(commands, t, steps[..|steps| - 1]), steps[|steps| - 1])
  }

  lemma {:induction false} ExecuteTwoConcat(commands: seq<string>, t: Two, a: seq<Step>, b: seq<Step>)
    ensures ExecuteTwo(commands, t, a + b) == ExecuteTwo(commands, ExecuteTwo(commands, t, a), b)
    decreases |b|
  {
    if b == [] {
      assert a + b == a;
    } else {
      ExecuteTwoConcat(commands, t, a, b[..|b| - 1]);
      assert (a + b)[..|a + b| - 1] == a + b[..|b| - 1];
    }
  }

  // ---- runs that take turns

  /** Whenever one run makes a step, the other one is idle. */
  predicate OneAtATime(commands: seq<string>, steps: seq<Step>) {
    steps == [] ||
    var (t, s) := (ExecuteTwo(commands, BOTH_IDLE, steps[..|steps| - 1]), steps[|steps| - 1]);
    OneAtATime(commands, steps[..|steps| - 1]) && (if s.byFirst then t.second else t.first).Idle?
  }

  function Events(steps: seq<Step>): seq<Event> {
    if steps == [] then [] else Events(steps[..|steps| - 1]) + [steps[|steps| - 1].event]
  }

  /** Runs that take turns are one run after the other. */
  lemma {:induction false} OneAtATimeIsSingle(commands: seq<string>, steps: seq<Step>)
    requires OneAtATime(commands, steps)
    ensures var (t, m) := (ExecuteTwo(commands, BOTH_IDLE, steps), Execute(commands, CREATED, Events(steps)));
      (t.first.Idle? || t.second.Idle?) && t.files == m.(phase := Idle)
      && m.phase == if t.first.Idle? then t.second else t.first
  {
    if steps != [] {
      var init, s := steps[..|steps| - 1], steps[|steps| - 1];
      OneAtATimeIsSingle(commands, init);
      ExecuteSnoc(commands, CREATED, Events(init), s.event);
    }
  }

  /** So what holds of a goal through all crashes holds of one that two runs take turns at. */
  lemma OneAtATimeIsSafe(commands: seq<string>, steps: seq<Step>)
    requires OneAtATime(commands, steps)
    ensures var (m, last) := (ExecuteTwo(commands, BOTH_IDLE, steps).files, LastSave(commands, Events(steps)));
      && Load(m) == (if last.Some? then last.value.st else INITIAL)
      && (Load(m).completed ==> last.Some? && Earned(commands, Load(m), last.value.exec))
      && (m.runtime == Whole(CompletedStatus) ==> Load(m).completed)
  {
    OneAtATimeIsSingle(commands, steps);
    CrashSafety(commands, Events(steps));
  }

  // ---- a second run beside a first one

  /** The goal is recorded as completed while its saved state is not. */
  predicate Bad(t: Two) { t.files.runtime == Whole(CompletedStatus) && !Load(t.files).completed }

  /** The first run is not started again. */
  predicate NoFirstStart(steps: seq<Step>) {
    forall k :: 0 <= k < |steps| ==> !(steps[k].byFirst && steps[k].event.Start?)
  }

  /** A run that may still save, or that has a decided state to put in place. When all that is left to it is to put an
      impossible goal's state in place, it no longer can: whatever a second run saves takes the temporary file away. */
  predicate CanStillSave(p: Phase) {
    match p
    case Idle => false
    case Renaming(_, _, after) => after != ImpossibleStatus
    case Marking(_, status) => status == Running
    case _ => true
  }

  // ---- when the first run cannot save any more

  /** Nothing is left in the temporary file that the first run could put in place. */
  predicate NothingToRename(t: Two) { t.first.Renaming? ==> t.files.tmp.Absent? }

  predicate SecondPhase(t: Two) {
    match t.second
    case Idle => true
    case Head(st) => !st.completed
    case Gates(st) => !st.completed
    case Evaluating(st, _) => !st.completed
    case Saving(st, _, after) => after in {Running, CompletedStatus, ImpossibleStatus} && (st.completed
      <==> after == CompletedStatus)
    case Renaming(st, _, after) =>
      after in {Running, CompletedStatus, ImpossibleStatus} && (st.completed <==> after == CompletedStatus)
      && (t.files.tmp == Whole(st) || t.files.tmp == Absent)
    case Marking(st, status) =>
      (status == Running ==> !st.completed) && (status == CompletedStatus
        ==> Load(t.files).completed && NothingToRename(t))
  }

  /** What a second run's steps and the last ones of the first keep. */
  predicate SafeInv(t: Two) {
    && !CanStillSave(t.first) && SecondPhase(t)
    && (t.files.runtime == Whole(CompletedStatus) ==> Load(t.files).completed && t.second.Idle? && NothingToRename(t))
    && (t.first.Marking? && t.first.status == CompletedStatus ==> Load(t.files).completed && t.second.Idle?)
  }

  lemma SecondKeepsSafe(commands: seq<string>, t: Two, e: Event)
    requires SafeInv(t)
    ensures SafeInv(NextOfTwo(commands, t, Step(false, e)))
  {
  }

  lemma FirstKeepsSafe(commands: seq<string>, t: Two, e: Event)
    requires SafeInv(t) && !e.Start?
    ensures SafeInv(NextOfTwo(commands, t, Step(true, e)))
  {
  }

  lemma {:induction false} StaysSafe(commands: seq<string>, t: Two, more: seq<Step>)
    requires SafeInv(t) && NoFirstStart(more)
    ensures SafeInv(ExecuteTwo(commands, t, more))
    decreases |more|
  {
    if more != [] {
      var init, s := more[..|more| - 1], more[|more| - 1];
      StaysSafe(commands, t, init);
      if s.byFirst {
        FirstKeepsSafe(commands, ExecuteTwo(commands, t, init), s.event);
      } else {
        SecondKeepsSafe(commands, ExecuteTwo(commands, t, init), s.event);
      }
    }
  }

  lemma SafeAtFirst(commands: seq<string>, t: Two)
    requires Inv(commands, View(t, true)) && t.second.Idle? && !CanStillSave(t.first)
    ensures SafeInv(t)
  {
  }

  // ---- when it still can

  ghost predicate CanGoBad(commands: seq<string>, t: Two) {
    exists more :: NoFirstStart(more) && Bad(ExecuteTwo(commands, t, more))
  }

  lemma GoesBadLater(commands: seq<string>, t: Two, a: seq<Step>)
    requires NoFirstStart(a) && CanGoBad(commands, ExecuteTwo(commands, t, a))
    ensures CanGoBad(commands, t)
  {
    var b :| NoFirstStart(b) && Bad(ExecuteTwo(commands, ExecuteTwo(commands, t, a), b));
    ExecuteTwoConcat(commands, t, a, b);
    assert NoFirstStart(a + b);
  }

  function By(byFirst: bool, events: seq<Event>): seq<Step> {
    if events == [] then [] else By(byFirst, events[..|events| - 1]) + [Step(byFirst, events[|events| - 1])]
  }

  /** One run alone does what it does by itself. */
  lemma {:induction false} ExecuteBy(commands: seq<string>, t: Two, byFirst: bool, events: seq<Event>)
    requires t.files.phase.Idle?
    ensures ExecuteTwo(commands, t, By(byFirst, events))
         == With(t, byFirst, Execute(commands, View(t, byFirst), events))
    decreases |events|
  {
    if events != [] {
      var init := events[..|events| - 1];
      ExecuteBy(commands, t, byFirst, init);
      assert By(byFirst, events)[..|By(byFirst, init)|] == By(byFirst, init);
    }
  }

  predicate NoStart(events: seq<Event>) { forall k :: 0 <= k < |events| ==> !events[k].Start? }

  lemma {:induction false} ByHasNoFirstStart(byFirst: bool, events: seq<Event>)
    requires byFirst ==> NoStart(events)
    ensures NoFirstStart(By(byFirst, events)) && |By(byFirst, events)| == |events|
  {
    if events != [] { ByHasNoFirstStart(byFirst, events[..|events| - 1]); }
  }

  /** One run's events, after which things can go bad. */
  lemma GoesBadAfter(commands: seq<string>, t: Two, byFirst: bool, events: seq<Event>)
    requires t.files.phase.Idle? && (byFirst ==> NoStart(events))
    requires CanGoBad(commands, With(t, byFirst, Execute(commands, View(t, byFirst), events)))
    ensures CanGoBad(commands, t)
  {
    ExecuteBy(commands, t, byFirst, events);
    ByHasNoFirstStart(byFirst, events);
    GoesBadLater(commands, t, By(byFirst, events));
  }

  lemma BadNow(commands: seq<string>, t: Two)
    requires Bad(t)
    ensures CanGoBad(commands, t)
  {
    assert Bad(ExecuteTwo(commands, t, [])) && NoFirstStart([]);
  }

  /** What a run still has to do until a turn that is judged not enough is saved. */
  function Rest(p: Phase): seq<Event> {
    match p
    case Head(_) => [InnerLoop([], 0), CheckGates(NoExec()), Evaluate(Evaluation(FalseVerdict, "")), WriteTmp(true),
      Rename]
    case Gates(_) => [CheckGates(NoExec()), Evaluate(Evaluation(FalseVerdict, "")), WriteTmp(true), Rename]
    case Evaluating(_, _) => [Evaluate(Evaluation(FalseVerdict, "")), WriteTmp(true), Rename]
    case Saving(_, _, _) => [WriteTmp(true), Rename]
    case _ => []
  }

  predicate Open(p: Phase) { (p.Head? || p.Gates? || p.Evaluating? || p.Saving?) && !p.st.completed }

  lemma OneEvent(commands: seq<string>, m: Machine, e: Event)
    ensures Execute(commands, m, [e]) == Next(commands, m, e)
  {
    ExecuteCons(commands, m, e, []);
    assert [e] + [] == [e];
  }

  lemma TwoEvents(commands: seq<string>, m: Machine, a: Event, b: Event)
    ensures Execute(commands, m, [a, b]) == Next(commands, Next(commands, m, a), b)
  {
    assert [a, b] == [a] + [b];
    ExecuteCons(commands, m, a, [b]);
    OneEvent(commands, Next(commands, m, a), b);
  }

  lemma SavingSaves(commands: seq<string>, m: Machine)
    requires m.phase.Saving?
    ensures var after := Execute(commands, m, Rest(m.phase));
      after.state == Whole(m.phase.st) && after.runtime == m.runtime
        && after.phase == AfterSave(m.phase.st, m.phase.after)
      && after.tmp == Absent
  {
    TwoEvents(commands, m, WriteTmp(true), Rename);
  }

  lemma {:induction false} OpenSaves(commands: seq<string>, m: Machine)
    requires Open(m.phase)
    ensures var after := Execute(commands, m, Rest(m.phase));
      after.state.Whole? && !after.state.content.completed && after.runtime == m.runtime
    decreases |Rest(m.phase)|
  {
    if m.phase.Saving? {
      SavingSaves(commands, m);
    } else {
      var e := Rest(m.phase)[0];
      var next := Next(commands, m, e);
      if m.phase.Gates? { GatesPass(commands, m); }
      assert Rest(m.phase) == [e] + Rest(next.phase);
      ExecuteCons(commands, m, e, Rest(next.phase));
      OpenSaves(commands, next);
    }
  }

  lemma RestHasNoStart(p: Phase)
    ensures NoStart(Rest(p))
  {
  }

  /** The second run takes a turn, completes the goal and records it. */
  lemma SecondCompletes(commands: seq<string>, t: Two)
    requires t.second.Idle? && !Load(t.files).completed && t.files.runtime.Whole?
    ensures var after := Execute(commands, View(t, false), OneTurn(OkVerdict) + [WriteRuntime(true)]);
      Load(after).completed && after.runtime == Whole(CompletedStatus) && after.phase.Idle?
  {
    OneTurnIs(commands, View(t, false), OkVerdict);
    ExecuteSnoc(commands, View(t, false), OneTurn(OkVerdict), WriteRuntime(true));
  }

  /** The first run has not saved its turn: the second one completes the goal, then the first one saves. */
  lemma OpenGoesBad(commands: seq<string>, t: Two)
    requires t.files.phase.Idle? && Open(t.first) && t.second.Idle? && !Load(t.files).completed
      && t.files.runtime.Whole?
    ensures CanGoBad(commands, t)
  {
    var turn := OneTurn(OkVerdict) + [WriteRuntime(true)];
    SecondCompletes(commands, t);
    var middle := With(t, false, Execute(commands, View(t, false), turn));
    OpenSaves(commands, View(middle, true));
    RestHasNoStart(t.first);
    BadNow(commands, With(middle, true, Execute(commands, View(middle, true), Rest(t.first))));
    GoesBadAfter(commands, middle, true, Rest(t.first));
    GoesBadAfter(commands, t, false, turn);
  }

  /** The first run is about to complete the goal: the second one begins a turn, the first one saves and records, then
      the second one saves. */
  lemma CompletingGoesBad(commands: seq<string>, t: Two)
    requires t.files.phase.Idle? && t.first.Renaming? && t.first.st.completed && t.first.after == CompletedStatus
    requires t.files.tmp == Whole(t.first.st) && t.second.Idle? && !Load(t.files).completed && t.files.runtime.Whole?
    ensures CanGoBad(commands, t)
  {
    var begin, finish := OneTurn(FalseVerdict)[..3], [Rename, WriteRuntime(true)];
    TurnBegins(commands, View(t, false), FalseVerdict);
    var one := With(t, false, Execute(commands, View(t, false), begin));
    assert one.second == Gates(AfterInner(Load(t.files), [], 0)) && View(one, true).tmp == Whole(t.first.st);
    PutsInPlace(commands, View(one, true));
    var two := With(one, true, Execute(commands, View(one, true), finish));
    OpenSaves(commands, View(two, false));
    BadNow(commands, With(two, false, Execute(commands, View(two, false), Rest(two.second))));
    GoesBadAfter(commands, two, false, Rest(two.second));
    GoesBadAfter(commands, one, true, finish);
    GoesBadAfter(commands, t, false, begin);
  }

  lemma PutsInPlace(commands: seq<string>, m: Machine)
    requires m.phase.Renaming? && m.phase.after == CompletedStatus && m.tmp == Whole(m.phase.st)
    ensures var after := Execute(commands, m, [Rename, WriteRuntime(true)]);
      after == m.(state := m.tmp, tmp := Absent, runtime := Whole(CompletedStatus), phase := Idle)
  {
    TwoEvents(commands, m, Rename, WriteRuntime(true));
  }

  /** The first run makes a step, after which things can go bad. */
  lemma GoesBadAfterOne(commands: seq<string>, t: Two, e: Event)
    requires t.files.phase.Idle? && !e.Start? && CanGoBad(commands, NextOfTwo(commands, t, Step(true, e)))
    ensures CanGoBad(commands, t)
  {
    OneEvent(commands, View(t, true), e);
    GoesBadAfter(commands, t, true, [e]);
  }

  lemma CanStillSaveGoesBad(commands: seq<string>, t: Two)
    requires t.files.phase.Idle? && Inv(commands, View(t, true)) && t.second.Idle? && CanStillSave(t.first)
    ensures CanGoBad(commands, t)
  {
    match t.first {
      case Saving(st, _, after) =>
        if st.completed {
          CompletingGoesBad(commands, NextOfTwo(commands, t, Step(true, WriteTmp(true))));
          GoesBadAfterOne(commands, t, WriteTmp(true));
        } else {
          OpenGoesBad(commands, t);
        }
      case Renaming(st, _, after) =>
        if st.completed {
          CompletingGoesBad(commands, t);
        } else {
          OpenGoesBad(commands, NextOfTwo(commands, t, Step(true, Rename)));
          GoesBadAfterOne(commands, t, Rename);
        }
      case Marking(st, _) =>
        OpenGoesBad(commands, NextOfTwo(commands, t, Step(true, WriteRuntime(true))));
        GoesBadAfterOne(commands, t, WriteRuntime(true));
      case _ => OpenGoesBad(commands, t);
    }
  }

  /** When a second run may begin beside a first one, told from where the first one stands: in no course of events does
      the goal come to be recorded as completed with a state that is not, exactly if the first run can save no more. */
  lemma OverlapSafeIff(commands: seq<string>, before: seq<Step>)
    requires OneAtATime(commands, before) && ExecuteTwo(commands, BOTH_IDLE, before).second.Idle?
    ensures var t := ExecuteTwo(commands, BOTH_IDLE, before);
      (forall more :: NoFirstStart(more) ==> !Bad(ExecuteTwo(commands, BOTH_IDLE, before + more)))
        <==> !CanStillSave(t.first)
  {
    var t := ExecuteTwo(commands, BOTH_IDLE, before);
    OneAtATimeIsSingle(commands, before);
    ExecutionKeepsInv(commands, CREATED, Events(before));
    assert View(t, true) == Execute(commands, CREATED, Events(before));
    forall more ensures ExecuteTwo(commands, BOTH_IDLE, before + more) == ExecuteTwo(commands, t, more) {
      ExecuteTwoConcat(commands, BOTH_IDLE, before, more);
    }
    if CanStillSave(t.first) {
      CanStillSaveGoesBad(commands, t);
    } else {
      SafeAtFirst(commands, t);
      forall more | NoFirstStart(more) ensures !Bad(ExecuteTwo(commands, t, more)) { StaysSafe(commands, t, more); }
    }
  }

  /** It does happen: the first run is at its gates, the second one completes the goal, and the first one's turn, which
      is judged not enough, overwrites the completed state whose completion is already recorded. */
  lemma OverlapLosesCompletion(commands: seq<string>)
    ensures var t := ExecuteTwo(commands, BOTH_IDLE, By(true, OneTurn(FalseVerdict)[..3]));
      t.first == Gates(AfterInner(INITIAL, [], 0)) && t.second.Idle? && CanGoBad(commands, t)
  {
    var begin := OneTurn(FalseVerdict)[..3];
    ExecuteBy(commands, BOTH_IDLE, true, begin);
    TurnBegins(commands, CREATED, FalseVerdict);
    assert View(BOTH_IDLE, true) == CREATED;
    OpenGoesBad(commands, ExecuteTwo(commands, BOTH_IDLE, By(true, begin)));
  }
}

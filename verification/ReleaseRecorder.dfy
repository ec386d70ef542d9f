/** Recording uploaded builds as refs of a shared remote (scripts/mobile-release-ref.ts): any number of recorders look,
    push with a lease that the ref does not exist, and look again; they interleave, lose replies, crash and retry. */
module ReleaseRecorder {
  import opened Wrappers
  import ReleaseVersion

  type Ref = string
  type Sha = string

  datatype Outcome = Created | AlreadyRecorded | Refused | InspectFailed | PushFailed | NotRecorded

  datatype Phase = Idle | Looking | Pushing | Verifying | Done(outcome: Outcome)

  /** What a recorder wants to record and how far it is; clean as long as all its remote operations went through. */
  datatype Recorder = Recorder(ref: Ref, sha: Sha, phase: Phase, clean: bool)

  /** A SHA that someone was told is recorded under a ref. */
  datatype Report = Report(ref: Ref, sha: Sha)

  datatype World = World(store: map<Ref, Sha>, recorders: seq<Recorder>, reports: seq<Report>)

  /** An operation can fail, a push also on its way back: then it took effect without the pusher learning of it. */
  datatype Event =
    | Begin(r: nat, ref: Ref, sha: Sha)
    | Look(r: nat, answered: bool)
    | Push(r: nat, delivered: bool, acknowledged: bool)
    | Verify(r: nat, answered: bool)
    | Crash(r: nat)
    | Resolve(ref: Ref)

  predicate Holds(store: map<Ref, Sha>, ref: Ref, sha: Sha) { ref in store && store[ref] == sha }

  function Looked(store: map<Ref, Sha>, ref: Ref, sha: Sha): Phase {
    if ref !in store then Pushing else if store[ref] == sha then Done(AlreadyRecorded) else Done(Refused)
  }

  /** The remote creates the ref if there is none; it has nothing to do when the ref is there with this SHA. */
  function Pushed(store: map<Ref, Sha>, ref: Ref, sha: Sha, delivered: bool): map<Ref, Sha> {
    if delivered && ref !in store then store[ref := sha] else store
  }

  predicate PushAccepted(store: map<Ref, Sha>, ref: Ref, sha: Sha, delivered: bool, acknowledged: bool) {
    delivered && acknowledged && (ref !in store || store[ref] == sha)
  }

  predicate Succeeds(p: Phase) { p == Done(Created) || p == Done(AlreadyRecorded) }

  function Reports(p: Phase, ref: Ref, sha: Sha): seq<Report> { if Succeeds(p) then [Report(ref, sha)] else [] }

  /** What a recorder does next when its operation comes back; events out of turn change nothing. */
  function Advance(store: map<Ref, Sha>, rec: Recorder, e: Event): Recorder
    requires !e.Resolve?
  {
    match e
    case Begin(_, ref, sha) => if rec.phase.Idle? || rec.phase.Done? then Recorder(ref, sha, Looking, true) else rec
    case Look(_, answered) =>
      if rec.phase != Looking then rec
      else
        rec.(phase := if answered then Looked(store, rec.ref, rec.sha) else Done(InspectFailed),
             clean := rec.clean && answered)
    case Push(_, delivered, acknowledged) =>
      if rec.phase != Pushing then rec
      else
        rec.(phase := if PushAccepted(store, rec.ref, rec.sha, delivered, acknowledged) then Verifying
                      else Done(PushFailed),
             clean := rec.clean && delivered && acknowledged)
    case Verify(_, answered) =>
      if rec.phase != Verifying then rec
      else
        rec.(phase := if !answered then Done(InspectFailed)
                      else if Holds(store, rec.ref, rec.sha) then Done(Created)
                      else Done(NotRecorded),
             clean := rec.clean && answered)
    case Crash(_) => rec.(phase := Idle)
  }

  function Stored(store: map<Ref, Sha>, rec: Recorder, e: Event): map<Ref, Sha> {
    if e.Push? && rec.phase == Pushing then Pushed(store, rec.ref, rec.sha, e.delivered) else store
  }

  function Next(w: World, e: Event): (v: World)
    ensures |v.recorders| == |w.recorders|
  {
    if e.Resolve? then
      if e.ref in w.store then w.(reports := w.reports + [Report(e.ref, w.store[e.ref])]) else w
    else if e.r >= |w.recorders| then w
    else
      var rec := w.recorders[e.r];
      var after := Advance(w.store, rec, e);
      World(Stored(w.store, rec, e), w.recorders[e.r := after],
            w.reports + if after.phase != rec.phase then Reports(after.phase, after.ref, after.sha) else [])
  }

  function Start(store: map<Ref, Sha>, n: nat): World {
    World(store, seq(n, _ => Recorder("", "", Idle, true)), [])
  }

  function Execute(w: World, events: seq<Event>): (v: World)
    ensures |v.recorders| == |w.recorders|
    decreases |events|
  {
    if events == [] then w else Next(Execute(w, events[..|events| - 1]), events[|events| - 1])
  }

  // ---- what every event keeps

  predicate Keeps(before: map<Ref, Sha>, after: map<Ref, Sha>) {
    forall ref :: ref in before ==> Holds(after, ref, before[ref])
  }

  /** What a recorder knows about the remote. */
  predicate Knows(store: map<Ref, Sha>, rec: Recorder) {
    match rec.phase
    case Verifying => Holds(store, rec.ref, rec.sha)
    case Done(Created) => Holds(store, rec.ref, rec.sha)
    case Done(AlreadyRecorded) => Holds(store, rec.ref, rec.sha)
    case Done(Refused) => rec.ref in store && store[rec.ref] != rec.sha
    case Done(PushFailed) => rec.clean ==> rec.ref in store && store[rec.ref] != rec.sha
    case Done(InspectFailed) => !rec.clean
    case Done(NotRecorded) => false
    case _ => true
  }

  predicate Inv(w: World) {
    (forall k :: 0 <= k < |w.recorders| ==> Knows(w.store, w.recorders[k]))
    && (forall k :: 0 <= k < |w.reports| ==> Holds(w.store, w.reports[k].ref, w.reports[k].sha))
  }

  lemma NextKeeps(w: World, e: Event)
    ensures Keeps(w.store, Next(w, e).store)
  {
  }

  lemma KnowsMore(store: map<Ref, Sha>, more: map<Ref, Sha>, rec: Recorder)
    requires Knows(store, rec) && Keeps(store, more)
    ensures Knows(more, rec)
  {
  }

  lemma AdvanceKnows(store: map<Ref, Sha>, rec: Recorder, e: Event)
    requires Knows(store, rec) && !e.Resolve?
    ensures Knows(Stored(store, rec, e), Advance(store, rec, e))
  {
  }

  lemma NextKeepsInv(w: World, e: Event)
    requires Inv(w)
    ensures Inv(Next(w, e))
  {
    var v := Next(w, e);
    NextKeeps(w, e);
    if !e.Resolve? && e.r < |w.recorders| {
      AdvanceKnows(w.store, w.recorders[e.r], e);
      forall k | 0 <= k < |v.recorders| && k != e.r ensures Knows(v.store, v.recorders[k]) {
        KnowsMore(w.store, v.store, w.recorders[k]);
      }
    }
  }

  lemma {:induction false} ExecuteKeepsInv(w: World, events: seq<Event>)
    requires Inv(w)
    ensures Inv(Execute(w, events))
    decreases |events|
  {
    if events != [] {
      ExecuteKeepsInv(w, events[..|events| - 1]);
      NextKeepsInv(Execute(w, events[..|events| - 1]), events[|events| - 1]);
    }
  }

  lemma {:induction false} ExecuteConcat(w: World, a: seq<Event>, b: seq<Event>)
    ensures Execute(w, a + b) == Execute(Execute(w, a), b)
    decreases |b|
  {
    if b == [] {
      assert a + b == a;
    } else {
      var init := b[..|b| - 1];
      ExecuteConcat(w, a, init);
      assert (a + b)[..|a + b| - 1] == a + init;
    }
  }

  lemma KeepsTransitive(a: map<Ref, Sha>, b: map<Ref, Sha>, c: map<Ref, Sha>)
    requires Keeps(a, b) && Keeps(b, c)
    ensures Keeps(a, c)
  {
  }

  lemma {:induction false} ExecuteKeeps(w: World, events: seq<Event>)
    ensures Keeps(w.store, Execute(w, events).store)
    decreases |events|
  {
    if events != [] {
      var before := Execute(w, events[..|events| - 1]);
      ExecuteKeeps(w, events[..|events| - 1]);
      NextKeeps(before, events[|events| - 1]);
      KeepsTransitive(w.store, before.store, Next(before, events[|events| - 1]).store);
    }
  }

  // ---- main results

  /** A ref once set never changes, whatever happens later. */
  lemma RefsNeverChange(store: map<Ref, Sha>, n: nat, events: seq<Event>, later: seq<Event>, ref: Ref)
    requires ref in Execute(Start(store, n), events).store
    ensures Holds(Execute(Start(store, n), events + later).store, ref, Execute(Start(store, n), events).store[ref])
  {
    ExecuteConcat(Start(store, n), events, later);
    ExecuteKeeps(Execute(Start(store, n), events), later);
  }

  /** Whoever was told at any time that a ref is recorded, by recording or by resolving, was told the same SHA, which is
      what the remote holds and what a later resolve gives. */
  lemma RecordersAgree(store: map<Ref, Sha>, n: nat, events: seq<Event>, i: nat, j: nat)
    requires var w := Execute(Start(store, n), events);
      i < |w.reports| && j < |w.reports| && w.reports[i].ref == w.reports[j].ref
    ensures var w := Execute(Start(store, n), events);
      w.reports[i] == w.reports[j] && Next(w, Resolve(w.reports[i].ref)).reports == w.reports + [w.reports[i]]
  {
    ExecuteKeepsInv(Start(store, n), events);
  }

  /** A successful recorder reports its own SHA. */
  lemma SuccessIsReported(w: World, e: Event)
    requires Inv(w) && !e.Resolve? && e.r < |w.recorders|
    requires !Succeeds(w.recorders[e.r].phase) && Succeeds(Next(w, e).recorders[e.r].phase)
    ensures Next(w, e).reports == w.reports + [Report(w.recorders[e.r].ref, w.recorders[e.r].sha)]
    ensures Holds(Next(w, e).store, w.recorders[e.r].ref, w.recorders[e.r].sha)
  {
    NextKeepsInv(w, e);
  }

  /** When an attempt ends whose remote operations all went through, it succeeded exactly if the remote holds its SHA,
      and otherwise another SHA is there; the check behind an acknowledged push never fails. */
  lemma OutcomeIff(store: map<Ref, Sha>, n: nat, events: seq<Event>, r: nat)
    requires r < n && Execute(Start(store, n), events).recorders[r].phase.Done?
    ensures var w := Execute(Start(store, n), events);
      var rec := w.recorders[r];
      rec.phase != Done(NotRecorded)
      && (Succeeds(rec.phase) ==> Holds(w.store, rec.ref, rec.sha))
      && (rec.clean ==> rec.ref in w.store && (Succeeds(rec.phase) <==> Holds(w.store, rec.ref, rec.sha)))
  {
    ExecuteKeepsInv(Start(store, n), events);
    assert Knows(Execute(Start(store, n), events).store, Execute(Start(store, n), events).recorders[r]);
  }

  predicate Leaves(events: seq<Event>, r: nat) {
    forall k :: 0 <= k < |events| && !events[k].Resolve? ==> events[k].r != r
  }

  lemma {:induction false} OthersLeave(w: World, events: seq<Event>, r: nat)
    requires r < |w.recorders| && Leaves(events, r)
    ensures Execute(w, events).recorders[r] == w.recorders[r]
    decreases |events|
  {
    if events != [] { OthersLeave(w, events[..|events| - 1], r); }
  }

  /** A recorder tries a ref, for the first time or again, while others do as they like, up to its look. */
  function Try(r: nat, ref: Ref, sha: Sha, meanwhile: seq<Event>, answered: bool): seq<Event> {
    [Begin(r, ref, sha)] + meanwhile + [Look(r, answered)]
  }

  lemma LookIs(w: World, r: nat, ref: Ref, sha: Sha, meanwhile: seq<Event>, answered: bool)
    requires r < |w.recorders| && Leaves(meanwhile, r)
    requires w.recorders[r].phase.Idle? || w.recorders[r].phase.Done?
    ensures var v := Execute(Next(w, Begin(r, ref, sha)), meanwhile);
      Execute(w, Try(r, ref, sha, meanwhile, answered)) == Next(v, Look(r, answered))
        && v.recorders[r] == Recorder(ref, sha, Looking, true)
  {
    var begin, look := [Begin(r, ref, sha)], [Look(r, answered)];
    ExecuteConcat(w, begin + meanwhile, look);
    ExecuteConcat(w, begin, meanwhile);
    assert Execute(w, begin) == Next(Execute(w, begin[..0]), begin[0]) && begin[..0] == [];
    var v := Execute(Next(w, begin[0]), meanwhile);
    assert Execute(v, look) == Next(Execute(v, look[..0]), look[0]) && look[..0] == [];
    OthersLeave(Next(w, begin[0]), meanwhile, r);
  }

  /** Once a push has set the ref, even if its pusher crashed or saw it fail, every later attempt with that SHA succeeds
      and every later attempt with another SHA is refused, whatever others do meanwhile; neither changes the ref. */
  lemma RetryIsDecided(store: map<Ref, Sha>, n: nat, events: seq<Event>, r: nat, ref: Ref, sha: Sha,
                       meanwhile: seq<Event>)
    requires r < n && Leaves(meanwhile, r)
    requires var rec := Execute(Start(store, n), events).recorders[r]; rec.phase.Idle? || rec.phase.Done?
    requires ref in Execute(Start(store, n), events).store
    ensures var w := Execute(Start(store, n), events);
      var v := Execute(w, Try(r, ref, sha, meanwhile, true));
      v.recorders[r].phase == Done(if w.store[ref] == sha then AlreadyRecorded else Refused)
      && Holds(v.store, ref, w.store[ref])
  {
    var w := Execute(Start(store, n), events);
    LookIs(w, r, ref, sha, meanwhile, true);
    ExecuteKeeps(Next(w, Begin(r, ref, sha)), meanwhile);
  }

  /** A push seen to fail may have been the one that set the ref; so its retry must not be refused, and is not. */
  lemma FailedPushMayHaveRecorded(ref: Ref, sha: Sha)
    ensures var lost := [Begin(0, ref, sha), Look(0, true), Push(0, true, false)];
      var w := Execute(Start(map[], 1), lost);
      w.recorders[0].phase == Done(PushFailed) && Holds(w.store, ref, sha)
      && Execute(w, Try(0, ref, sha, [], true)).recorders[0].phase == Done(AlreadyRecorded)
  {
    var lost := [Begin(0, ref, sha), Look(0, true), Push(0, true, false)];
    assert lost[..2] == [Begin(0, ref, sha), Look(0, true)] && lost[..2][..1] == [Begin(0, ref, sha)]
      && lost[..2][..1][..0] == [];
    var first := Execute(Start(map[], 1), lost[..2][..1]);
    assert first == Next(Execute(Start(map[], 1), []), lost[0]);
    assert Execute(Start(map[], 1), lost[..2]) == Next(first, lost[1]);
    RetryIsDecided(map[], 1, lost, 0, ref, sha, []);
  }

  /** What a recorder is at work on, it was asked for. */
  ghost predicate Asked(events: seq<Event>, ref: Ref, sha: Sha) {
    exists k, r: nat :: 0 <= k < |events| && events[k] == Begin(r, ref, sha)
  }

  lemma AskedLonger(events: seq<Event>, ref: Ref, sha: Sha)
    requires events != [] && Asked(events[..|events| - 1], ref, sha)
    ensures Asked(events, ref, sha)
  {
    var k, r: nat :| 0 <= k < |events| - 1 && events[..|events| - 1][k] == Begin(r, ref, sha);
    assert events[k] == Begin(r, ref, sha);
  }

  ghost predicate OnlyAsked(store: map<Ref, Sha>, w: World, events: seq<Event>) {
    (forall k :: 0 <= k < |w.recorders| && (w.recorders[k].phase.Looking? || w.recorders[k].phase.Pushing?) ==>
       Asked(events, w.recorders[k].ref, w.recorders[k].sha))
    && (forall ref :: ref in w.store ==> Holds(store, ref, w.store[ref]) || Asked(events, ref, w.store[ref]))
  }

  /** Nothing is recorded but what a recorder was asked to record under that very ref. */
  lemma {:induction false} OnlyAskedIsRecorded(store: map<Ref, Sha>, n: nat, events: seq<Event>)
    ensures OnlyAsked(store, Execute(Start(store, n), events), events)
    decreases |events|
  {
    if events != [] {
      var init, e := events[..|events| - 1], events[|events| - 1];
      var w := Execute(Start(store, n), init);
      OnlyAskedIsRecorded(store, n, init);
      forall ref, sha | Asked(init, ref, sha) ensures Asked(events, ref, sha) {
        AskedLonger(events, ref, sha);
      }
      OnlyAskedNext(store, w, init, events, e);
    }
  }

  lemma OnlyAskedNext(store: map<Ref, Sha>, w: World, init: seq<Event>, events: seq<Event>, e: Event)
    requires OnlyAsked(store, w, init) && events == init + [e]
    requires forall ref, sha :: Asked(init, ref, sha) ==> Asked(events, ref, sha)
    ensures OnlyAsked(store, Next(w, e), events)
  {
    if e.Begin? { assert events[|init|] == Begin(e.r, e.ref, e.sha); }
  }

  // ---- the commands

  /** How the remote operations of one command fare, and what other recorders do before each. */
  datatype Network = Network(beforeLook: seq<Event>, looks: bool,
                             beforePush: seq<Event>, delivered: bool, acknowledged: bool,
                             beforeVerify: seq<Event>, verifies: bool)

  predicate Others(net: Network, r: nat) {
    Leaves(net.beforeLook, r) && Leaves(net.beforePush, r) && Leaves(net.beforeVerify, r)
  }

  /** The events of an attempt that gets as far as its look, its push, or its check. */
  function ToLook(r: nat, ref: Ref, sha: Sha, net: Network): seq<Event> { Try(r, ref, sha, net.beforeLook, net.looks) }

  function ToPush(r: nat, net: Network): seq<Event> { net.beforePush + [Push(r, net.delivered, net.acknowledged)] }

  function ToCheck(r: nat, net: Network): seq<Event> { net.beforeVerify + [Verify(r, net.verifies)] }

  function Attempt(r: nat, ref: Ref, sha: Sha, net: Network, operations: nat): seq<Event> {
    ToLook(r, ref, sha, net)
    + (if operations >= 2 then ToPush(r, net) else [])
    + (if operations >= 3 then ToCheck(r, net) else [])
  }

  lemma ExecuteSnoc(w: World, events: seq<Event>, e: Event)
    ensures Execute(w, events + [e]) == Next(Execute(w, events), e)
  {
    assert (events + [e])[..|events|] == events;
  }

  datatype Answer =
    | Invalid(error: ReleaseVersion.Error)
    | Missing(ref: Ref)
    | Resolved(ref: Ref, sha: Sha)
    | Finished(ref: Ref, sha: Sha, outcome: Outcome)

  /** What a preflight finds when the ref is not there. */
  datatype Checked = Available(ref: Ref) | Settled(answer: Answer)

  datatype Release = Release(platform: ReleaseVersion.Platform, version: string, build: string, code: string)

  function RefFor(release: Release): Result<string, ReleaseVersion.Error> {
    ReleaseVersion.MobileReleaseRefFor(release.platform, release.version, release.build, release.code)
  }

  predicate Ready(w: World, r: nat) { r < |w.recorders| && (w.recorders[r].phase.Idle? || w.recorders[r].phase.Done?) }

  /** The remote, with everyone at work on it. */
  class Remote {
    var world: World

    constructor (store: map<Ref, Sha>, n: nat)
      ensures world == Start(store, n)
    {
      world := Start(store, n);
    }

    /** Others do what they do. */
    method Meanwhile(events: seq<Event>)
      modifies this
      ensures world == Execute(old(world), events)
    {
      world := Execute(world, events);
    }

    /** What the remote has under a ref, if it answers. */
    method ReadRemoteRef(ref: Ref, answers: bool) returns (existing: Option<Option<Sha>>)
      ensures existing == if !answers then None else Some(if ref in world.store then Some(world.store[ref]) else None)
    {
      if !answers { return None; }
      return Some(if ref in world.store then Some(world.store[ref]) else None);
    }

    method PreflightMobileReleaseRef(r: nat, release: Release, sha: Sha, net: Network) returns (c: Checked)
      requires Ready(world, r) && Leaves(net.beforeLook, r)
      modifies this
      ensures match RefFor(release)
        case Err(error) => c == Settled(Invalid(error)) && world == old(world)
        case Ok(ref) =>
          world == Execute(old(world), ToLook(r, ref, sha, net)) && r < |world.recorders|
          && world.recorders[r].ref == ref && world.recorders[r].sha == sha
          && (match c
              case Available(given) => given == ref && world.recorders[r].phase == Pushing
              case Settled(answer) =>
                answer.Finished? && answer == Finished(ref, sha, answer.outcome)
                && world.recorders[r].phase == Done(answer.outcome))
    {
      var name := RefFor(release);
      if name.Err? { return Settled(Invalid(name.error)); }
      var ref := name.value;
      LookIs(world, r, ref, sha, net.beforeLook, net.looks);
      world := Next(world, Begin(r, ref, sha));
      Meanwhile(net.beforeLook);
      var existing := ReadRemoteRef(ref, net.looks);
      world := Next(world, Look(r, net.looks));
      if existing.None? { return Settled(Finished(ref, sha, InspectFailed)); }
      if existing.value.None? { return Available(ref); }
      if existing.value.value == sha { return Settled(Finished(ref, sha, AlreadyRecorded)); }
      return Settled(Finished(ref, sha, Refused));
    }

    /** The remote takes a push whose lease says that the ref does not exist. */
    method GitPush(r: nat, ref: Ref, sha: Sha, delivered: bool, acknowledged: bool) returns (ok: bool)
      requires r < |world.recorders| && world.recorders[r].phase == Pushing
      requires world.recorders[r].ref == ref && world.recorders[r].sha == sha
      modifies this
      ensures world == Next(old(world), Push(r, delivered, acknowledged))
      ensures ok == PushAccepted(old(world).store, ref, sha, delivered, acknowledged)
    {
      ok := delivered && acknowledged && (ref !in world.store || world.store[ref] == sha);
      world := Next(world, Push(r, delivered, acknowledged));
    }

    /** What recording does when the ref was not there. */
    method PushAndCheck(r: nat, ref: Ref, sha: Sha, net: Network) returns (outcome: Outcome, ghost checked: bool)
      requires r < |world.recorders| && world.recorders[r].phase == Pushing
      requires world.recorders[r].ref == ref && world.recorders[r].sha == sha && Others(net, r)
      modifies this
      ensures world == Execute(Execute(old(world), ToPush(r, net)), if checked then ToCheck(r, net) else [])
      ensures r < |world.recorders| && world.recorders[r].phase == Done(outcome)
      ensures world.recorders[r].ref == ref && world.recorders[r].sha == sha
    {
      checked := false;
      OthersLeave(world, net.beforePush, r);
      ExecuteSnoc(world, net.beforePush, Push(r, net.delivered, net.acknowledged));
      Meanwhile(net.beforePush);
      var ok := GitPush(r, ref, sha, net.delivered, net.acknowledged);
      if !ok { return PushFailed, false; }
      OthersLeave(world, net.beforeVerify, r);
      ExecuteSnoc(world, net.beforeVerify, Verify(r, net.verifies));
      Meanwhile(net.beforeVerify);
      var recorded := ReadRemoteRef(ref, net.verifies);
      world := Next(world, Verify(r, net.verifies));
      if recorded.None? { return InspectFailed, true; }
      if recorded.value != Some(sha) { return NotRecorded, true; }
      return Created, true;
    }

    /** Recording goes through the machine's look, push and check, stops where the machine stops, and answers with the
        machine's outcome. */
    method RecordMobileReleaseRef(r: nat, release: Release, sha: Sha, net: Network)
      returns (a: Answer, ghost operations: nat)
      requires Ready(world, r) && Others(net, r)
      modifies this
      ensures match RefFor(release)
        case Err(error) => a == Invalid(error) && world == old(world)
        case Ok(ref) =>
          a.Finished? && a == Finished(ref, sha, a.outcome)
          && world == Execute(old(world), Attempt(r, ref, sha, net, operations))
          && Ready(world, r) && world.recorders[r].phase == Done(a.outcome)
          && world.recorders[r].ref == ref && world.recorders[r].sha == sha
    {
      operations := 1;
      ghost var before := world;
      var preflight := PreflightMobileReleaseRef(r, release, sha, net);
      if preflight.Settled? {
        if preflight.answer.Finished? { AttemptStops(r, preflight.answer.ref, sha, net); }
        return preflight.answer, 1;
      }
      AttemptGoesOn(before, r, preflight.ref, sha, net);
      var outcome;
      ghost var checked;
      outcome, checked := PushAndCheck(r, preflight.ref, sha, net);
      return Finished(preflight.ref, sha, outcome), if checked then 3 else 2;
    }

    /** Resolving gives what recorders were told. */
    method ResolveMobileReleaseRef(release: Release, answers: bool) returns (a: Option<Answer>)
      modifies this
      ensures match RefFor(release)
        case Err(error) => a == Some(Invalid(error)) && world == old(world)
        case Ok(ref) =>
          world == (if answers then Next(old(world), Resolve(ref)) else old(world))
          && a == (if !answers then None else if ref !in old(world).store then Some(Missing(ref))
             else Some(Resolved(ref, old(world).store[ref])))
    {
      var name := RefFor(release);
      if name.Err? { return Some(Invalid(name.error)); }
      var existing := ReadRemoteRef(name.value, answers);
      if existing.None? { return None; }
      world := Next(world, Resolve(name.value));
      if existing.value.None? { return Some(Missing(name.value)); }
      return Some(Resolved(name.value, existing.value.value));
    }
  }

  lemma AttemptStops(r: nat, ref: Ref, sha: Sha, net: Network)
    ensures Attempt(r, ref, sha, net, 1) == ToLook(r, ref, sha, net)
  {
  }

  lemma AttemptGoesOn(w: World, r: nat, ref: Ref, sha: Sha, net: Network)
    ensures var v := Execute(Execute(w, ToLook(r, ref, sha, net)), ToPush(r, net));
      v == Execute(w, Attempt(r, ref, sha, net, 2))
        && Execute(v, ToCheck(r, net)) == Execute(w, Attempt(r, ref, sha, net, 3))
  {
    var look, push, check := ToLook(r, ref, sha, net), ToPush(r, net), ToCheck(r, net);
    assert Attempt(r, ref, sha, net, 2) == look + push;
    ExecuteConcat(w, look, push);
    ExecuteConcat(w, look + push, check);
  }
}

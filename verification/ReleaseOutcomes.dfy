/** How one attempt to record a release ends (scripts/mobile-release-ref.ts), by what the remote held when it looked and
    when it pushed. */
module ReleaseOutcomes {
  import opened ReleaseRecorder

  /** The outcome of an attempt: `seen` is what the remote held when the attempt looked, `left` when it pushed. */
  function Decided(seen: map<Ref, Sha>, left: map<Ref, Sha>, ref: Ref, sha: Sha, net: Network): Outcome {
    if !net.looks then InspectFailed
    else if ref in seen then if seen[ref] == sha then AlreadyRecorded else Refused
    else if !net.delivered || !net.acknowledged || (ref in left && left[ref] != sha) then PushFailed
    else if net.verifies then Created
    else InspectFailed
  }

  lemma LookDecides(w: World, r: nat, ref: Ref, sha: Sha, net: Network)
    requires Ready(w, r) && Others(net, r)
    ensures var (seen, v) := (Execute(w, [Begin(r, ref, sha)] + net.beforeLook).store,
                              Execute(w, ToLook(r, ref, sha, net)));
      var rec := v.recorders[r];
      && v.store == seen && rec.ref == ref && rec.sha == sha
      && rec.phase == if net.looks && ref !in seen then Pushing else Done(Decided(seen, seen, ref, sha, net))
  {
    LookIs(w, r, ref, sha, net.beforeLook, net.looks);
    ExecuteConcat(w, [Begin(r, ref, sha)], net.beforeLook);
    ExecuteSnoc(w, [], Begin(r, ref, sha));
    assert [] + [Begin(r, ref, sha)] == [Begin(r, ref, sha)];
  }

  lemma PushDecides(w: World, r: nat, net: Network)
    requires r < |w.recorders| && Others(net, r)
    ensures var (rec, left, v) := (w.recorders[r], Execute(w, net.beforePush).store, Execute(w, ToPush(r, net)));
      var after := v.recorders[r];
      if rec.phase != Pushing then after == rec && v.store == left
      else
        var held := rec.ref in left && left[rec.ref] != rec.sha;
        && after.ref == rec.ref && after.sha == rec.sha
        && after.phase == (if net.delivered && net.acknowledged && !held then Verifying else Done(PushFailed))
        && v.store == if net.delivered && rec.ref !in left then left[rec.ref := rec.sha] else left
  {
    OthersLeave(w, net.beforePush, r);
    ExecuteSnoc(w, net.beforePush, Push(r, net.delivered, net.acknowledged));
  }

  lemma CheckDecides(w: World, r: nat, net: Network)
    requires r < |w.recorders| && Others(net, r) && Inv(w)
    ensures var (rec, v) := (w.recorders[r], Execute(w, ToCheck(r, net)));
      && Keeps(w.store, v.store)
      && v.recorders[r].phase
         == if rec.phase != Verifying then rec.phase else Done(if net.verifies then Created else InspectFailed)
  {
    OthersLeave(w, net.beforeVerify, r);
    ExecuteSnoc(w, net.beforeVerify, Verify(r, net.verifies));
    ExecuteKeepsInv(w, net.beforeVerify);
    ExecuteKeeps(w, ToCheck(r, net));
    assert Knows(Execute(w, net.beforeVerify).store, w.recorders[r]);
  }

  /** The remote behind an attempt's look and behind its push. */
  lemma AttemptSteps(w: World, r: nat, ref: Ref, sha: Sha, net: Network) returns (looked: World, pushed: World)
    requires Ready(w, r) && Others(net, r) && Inv(w)
    ensures looked == Execute(w, ToLook(r, ref, sha, net)) && pushed == Execute(looked, ToPush(r, net))
    ensures Inv(pushed) && Execute(pushed, ToCheck(r, net)) == Execute(w, Attempt(r, ref, sha, net, 3))
    ensures Execute(w, ToLook(r, ref, sha, net) + net.beforePush) == Execute(looked, net.beforePush)
  {
    looked := Execute(w, ToLook(r, ref, sha, net));
    pushed := Execute(looked, ToPush(r, net));
    ExecuteConcat(w, ToLook(r, ref, sha, net), net.beforePush);
    ExecuteKeepsInv(w, ToLook(r, ref, sha, net));
    ExecuteKeepsInv(looked, ToPush(r, net));
    AttemptGoesOn(w, r, ref, sha, net);
  }

  /** An attempt, with the others doing as they like in between: what it comes to is decided by the remote's two answers
      and by which operations went through. */
  lemma AttemptDecides(w: World, r: nat, ref: Ref, sha: Sha, net: Network)
    requires Ready(w, r) && Others(net, r) && Inv(w)
    ensures var seen := Execute(w, [Begin(r, ref, sha)] + net.beforeLook).store;
      var left := Execute(w, ToLook(r, ref, sha, net) + net.beforePush).store;
      Execute(w, Attempt(r, ref, sha, net, 3)).recorders[r].phase == Done(Decided(seen, left, ref, sha, net))
  {
    var looked, pushed := AttemptSteps(w, r, ref, sha, net);
    LookDecides(w, r, ref, sha, net);
    PushDecides(looked, r, net);
    CheckDecides(pushed, r, net);
  }

  /** A push that arrived where no ref was has set it, whether or not its recorder learns of it. */
  lemma AttemptRecords(w: World, r: nat, ref: Ref, sha: Sha, net: Network)
    requires Ready(w, r) && Others(net, r) && Inv(w) && net.looks && net.delivered
    requires ref !in Execute(w, [Begin(r, ref, sha)] + net.beforeLook).store
    requires ref !in Execute(w, ToLook(r, ref, sha, net) + net.beforePush).store
    ensures Holds(Execute(w, Attempt(r, ref, sha, net, 3)).store, ref, sha)
  {
    var looked, pushed := AttemptSteps(w, r, ref, sha, net);
    LookDecides(w, r, ref, sha, net);
    PushDecides(looked, r, net);
    CheckDecides(pushed, r, net);
    assert Holds(pushed.store, ref, sha);
  }
}

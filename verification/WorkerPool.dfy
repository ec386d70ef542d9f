/** Workers that share one index and fill one output array (scripts/check-temp-path-guardrails.ts). The scheduler
    decides which worker goes on whenever one waits for a file. */
module WorkerPool {
  import opened Wrappers

  datatype File = File(relativePath: string, source: string)

  /** The paths to read, what can be read from disk, and how a path is named in the result. */
  datatype Job = Job(paths: seq<string>, disk: map<string, string>, relative: string -> string)

  /** A worker is about to take an index, waits for the file at its index, or has returned. */
  datatype Worker = Ready | Reading(index: nat) | Returned

  datatype Claim = Claim(worker: nat, index: nat)

  /** The shared index and output, the workers, and which of them took which index. */
  datatype State = State(next: nat, workers: seq<Worker>, output: seq<Option<File>>, claims: seq<Claim>)

  function FileAt(job: Job, i: nat): Option<File>
    requires i < |job.paths|
  {
    var path := job.paths[i];
    if path != "" && path in job.disk then Some(File(job.relative(path), job.disk[path])) else None
  }

  /** The readable files in the order of the paths. */
  function ReadableFrom(job: Job, i: nat): seq<File>
    requires i <= |job.paths|
    decreases |job.paths| - i
  {
    if i == |job.paths| then []
    else (if FileAt(job, i).Some? then [FileAt(job, i).value] else []) + ReadableFrom(job, i + 1)
  }

  function Readable(job: Job): seq<File> { ReadableFrom(job, 0) }

  function Start(job: Job, workers: nat): State {
    State(0, seq(workers, _ => Ready), seq(|job.paths|, _ => None), [])
  }

  /** One worker goes on to its next wait: it takes an index, or gets the file it waited for. */
  function Step(job: Job, s: State, w: nat): State
    requires w < |s.workers|
  {
    match s.workers[w]
    case Returned => s
    case Ready =>
      if s.next >= |job.paths| then s.(next := s.next + 1, workers := s.workers[w := Returned])
      else
        s.(next := s.next + 1, claims := s.claims + [Claim(w, s.next)],
           workers := s.workers[w := if job.paths[s.next] == "" then Ready else Reading(s.next)])
    case Reading(i) =>
      s.(workers := s.workers[w := Ready],
         output := if i < |job.paths| && i < |s.output| && FileAt(job, i).Some? then s.output[i := FileAt(job, i)]
           else s.output)
  }

  predicate Picks(workers: nat, schedule: seq<nat>) { forall k :: 0 <= k < |schedule| ==> schedule[k] < workers }

  /** The state after the scheduler let these workers go on, in this order. */
  function Execute(job: Job, workers: nat, schedule: seq<nat>): (s: State)
    requires Picks(workers, schedule)
    ensures |s.workers| == workers
    decreases |schedule|
  {
    if schedule == [] then Start(job, workers)
    else
      var last := |schedule| - 1;
      Step(job, Execute(job, workers, schedule[..last]), schedule[last])
  }

  predicate AllReturned(s: State) { forall w :: 0 <= w < |s.workers| ==> s.workers[w].Returned? }

  // ---- what every step keeps

  predicate Waiting(s: State, i: nat)
    requires i < |s.claims|
  {
    s.claims[i].worker < |s.workers| && s.workers[s.claims[i].worker] == Reading(i)
  }

  /** Every index below the shared one was taken, by one worker and once. */
  predicate Claimed(job: Job, s: State) {
    |s.claims| == (if s.next < |job.paths| then s.next else |job.paths|)
    && (forall k :: 0 <= k < |s.claims| ==> s.claims[k].index == k && s.claims[k].worker < |s.workers|)
  }

  /** A worker waits only for an index it has taken itself. */
  predicate Owned(s: State) {
    forall w: nat :: w < |s.workers| && s.workers[w].Reading? ==>
      s.workers[w].index < |s.claims| && s.claims[s.workers[w].index].worker == w
  }

  /** What is taken and not waited for is in the output; nothing else is. */
  predicate Filled(job: Job, s: State)
    requires |s.claims| <= |job.paths|
  {
    |s.output| == |job.paths|
    && (forall i: nat :: i < |s.claims| && !Waiting(s, i) ==> s.output[i] == FileAt(job, i))
    && (forall i: nat :: i < |s.output| && (i >= |s.claims| || Waiting(s, i)) ==> s.output[i] == None)
  }

  predicate Inv(job: Job, s: State) {
    Claimed(job, s) && Owned(s) && Filled(job, s)
    && (forall w :: 0 <= w < |s.workers| && s.workers[w].Returned? ==> s.next > |job.paths|)
  }

  lemma ClaimKeepsInv(job: Job, s: State, w: nat)
    requires Inv(job, s) && w < |s.workers| && s.workers[w].Ready?
    ensures Inv(job, Step(job, s, w))
  {
    var t := Step(job, s, w);
    if s.next < |job.paths| {
      assert t.claims[..s.next] == s.claims;
      forall i: nat | i < |s.claims| ensures Waiting(t, i) == Waiting(s, i) {
      }
    } else {
      forall i: nat | i < |s.claims| ensures Waiting(t, i) == Waiting(s, i) {
      }
    }
  }

  lemma ReadKeepsInv(job: Job, s: State, w: nat)
    requires Inv(job, s) && w < |s.workers| && s.workers[w].Reading?
    ensures Inv(job, Step(job, s, w))
  {
    var t, i := Step(job, s, w), s.workers[w].index;
    assert Waiting(s, i);
    assert t.output == s.output[i := FileAt(job, i)];
    forall k: nat | k < |s.claims| && k != i ensures Waiting(t, k) == Waiting(s, k) {
    }
  }

  lemma {:induction false} ExecuteKeepsInv(job: Job, workers: nat, schedule: seq<nat>)
    requires Picks(workers, schedule)
    ensures Inv(job, Execute(job, workers, schedule))
    decreases |schedule|
  {
    if schedule != [] {
      var last := |schedule| - 1;
      ExecuteKeepsInv(job, workers, schedule[..last]);
      var s := Execute(job, workers, schedule[..last]);
      match s.workers[schedule[last]] {
        case Returned =>
        case Ready => ClaimKeepsInv(job, s, schedule[last]);
        case Reading(_) => ReadKeepsInv(job, s, schedule[last]);
      }
    }
  }

  // ---- the result

  /** The entries that were filled in. */
  function Present(output: seq<Option<File>>): seq<File> {
    if output == [] then [] else (if output[0].Some? then [output[0].value] else []) + Present(output[1..])
  }

  lemma {:induction false} PresentIsReadable(job: Job, output: seq<Option<File>>, i: nat)
    requires i <= |job.paths| == |output| && forall k: nat :: k < |output| ==> output[k] == FileAt(job, k)
    ensures Present(output[i..]) == ReadableFrom(job, i)
    decreases |output| - i
  {
    if i < |output| {
      PresentIsReadable(job, output, i + 1);
      assert output[i..][1..] == output[i + 1..];
    }
  }

  lemma AllFilled(job: Job, s: State)
    requires Inv(job, s) && s.workers != [] && AllReturned(s)
    ensures Present(s.output) == Readable(job)
  {
    assert s.workers[0].Returned?;
    forall k: nat | k < |s.output| ensures s.output[k] == FileAt(job, k) {
      assert !Waiting(s, k);
    }
    PresentIsReadable(job, s.output, 0);
    assert s.output[0..] == s.output;
  }

  /** However the workers are scheduled and however many there are: no index is ever taken twice or left out, and
      once all have returned the result is the readable files in the order of the paths. */
  lemma ScheduleIndependence(job: Job, workers: nat, schedule: seq<nat>)
    requires workers > 0 && Picks(workers, schedule)
    ensures var s := Execute(job, workers, schedule);
      (forall k :: 0 <= k < |s.claims| ==> s.claims[k].index == k)
      && (AllReturned(s) ==> |s.claims| == |job.paths| && Present(s.output) == Readable(job))
  {
    var s := Execute(job, workers, schedule);
    ExecuteKeepsInv(job, workers, schedule);
    if AllReturned(s) {
      AllFilled(job, s);
      assert s.workers[0].Returned?;
    }
  }

  /** The place of a path that names a readable file, and that file. */
  predicate ReadAt(job: Job, i: nat, f: File) {
    i < |job.paths| && job.paths[i] != "" && job.paths[i] in job.disk
    && f.relativePath == job.relative(job.paths[i]) && f.source == job.disk[job.paths[i]]
  }

  /** The files are those of the given places, which are all from i on that name a readable file, in order. */
  ghost predicate ReadInOrder(job: Job, i: nat, files: seq<File>, places: seq<nat>) {
    && |places| == |files| && (forall k :: 0 <= k < |files| ==> places[k] >= i && ReadAt(job, places[k], files[k]))
    && (forall k, l :: 0 <= k < l < |places| ==> places[k] < places[l])
    && forall p :: i <= p < |job.paths| && job.paths[p] != "" && job.paths[p] in job.disk ==> p in places
  }

  /** What is readable: one file for every path that is not empty and on disk, in the order of the paths. */
  lemma {:induction false} ReadableAre(job: Job, i: nat) returns (places: seq<nat>)
    requires i <= |job.paths|
    ensures ReadInOrder(job, i, ReadableFrom(job, i), places)
    decreases |job.paths| - i
  {
    places := [];
    if i < |job.paths| {
      var rest := ReadableAre(job, i + 1);
      if FileAt(job, i).Some? {
        places := [i] + rest;
        FirstPlace(job, i, ReadableFrom(job, i + 1), rest);
      } else {
        places := rest;
        assert ReadableFrom(job, i) == ReadableFrom(job, i + 1);
      }
    }
  }

  lemma FirstPlace(job: Job, i: nat, files: seq<File>, rest: seq<nat>)
    requires i < |job.paths| && FileAt(job, i).Some? && ReadInOrder(job, i + 1, files, rest)
    ensures ReadInOrder(job, i, [FileAt(job, i).value] + files, [i] + rest)
  {
    var all, places := [FileAt(job, i).value] + files, [i] + rest;
    forall k | 0 <= k < |all| ensures places[k] >= i && ReadAt(job, places[k], all[k]) {
      if k > 0 { assert ReadAt(job, rest[k - 1], files[k - 1]); }
    }
    forall p | i <= p < |job.paths| && job.paths[p] != "" && job.paths[p] in job.disk ensures p in places {
      if p > i { assert p in rest; }
    }
  }

  // ---- the workers return

  function Weight(w: Worker): nat { if w.Ready? then 1 else if w.Reading? then 2 else 0 }

  function Weights(workers: seq<Worker>): nat {
    if workers == [] then 0 else Weight(workers[0]) + Weights(workers[1..])
  }

  lemma {:induction false} WeightsUpdate(workers: seq<Worker>, w: nat, v: Worker)
    requires w < |workers|
    ensures Weights(workers[w := v]) == Weights(workers) + Weight(v) - Weight(workers[w])
    decreases |workers|
  {
    var updated := workers[w := v];
    if w > 0 {
      assert updated[1..] == workers[1..][w - 1 := v];
      WeightsUpdate(workers[1..], w - 1, v);
    } else {
      assert updated[1..] == workers[1..];
    }
  }

  lemma {:induction false} ReadyWeights(workers: nat)
    ensures Weights(seq(workers, _ => Ready)) == workers
    decreases workers
  {
    if workers > 0 {
      var all := seq(workers, _ => Ready);
      assert all[1..] == seq(workers - 1, _ => Ready);
      ReadyWeights(workers - 1);
    }
  }

  /** How many steps are left at most. */
  function Remaining(job: Job, s: State): int { 2 * (|job.paths| - |s.claims|) + Weights(s.workers) }

  lemma StepUsesUp(job: Job, s: State, w: nat)
    requires Inv(job, s) && w < |s.workers| && !s.workers[w].Returned?
    ensures Remaining(job, Step(job, s, w)) < Remaining(job, s)
  {
    WeightsUpdate(s.workers, w, Step(job, s, w).workers[w]);
    assert Step(job, s, w).workers == s.workers[w := Step(job, s, w).workers[w]];
  }

  /** The scheduler lets only workers go on that have not returned. */
  predicate OnlyRunning(job: Job, workers: nat, schedule: seq<nat>)
    requires Picks(workers, schedule)
    decreases |schedule|
  {
    schedule == [] ||
    var last := |schedule| - 1;
    OnlyRunning(job, workers, schedule[..last])
      && !Execute(job, workers, schedule[..last]).workers[schedule[last]].Returned?
  }

  /** There is no endless run: each path is taken once and read at most once, and each worker returns once. */
  lemma {:induction false} RunsAreShort(job: Job, workers: nat, schedule: seq<nat>)
    requires Picks(workers, schedule) && OnlyRunning(job, workers, schedule)
    ensures |schedule| + Remaining(job, Execute(job, workers, schedule)) <= 2 * |job.paths| + workers
    ensures |schedule| <= 2 * |job.paths| + workers
    decreases |schedule|
  {
    if schedule == [] {
      ReadyWeights(workers);
    } else {
      var last := |schedule| - 1;
      RunsAreShort(job, workers, schedule[..last]);
      ExecuteKeepsInv(job, workers, schedule[..last]);
      StepUsesUp(job, Execute(job, workers, schedule[..last]), schedule[last]);
    }
    ExecuteKeepsInv(job, workers, schedule);
  }

  // ---- the pool in place

  const FILE_READ_CONCURRENCY: nat := 24

  /** The shared variables, and where each worker stands in its loop. */
  class Pool {
    const paths: seq<string>
    const disk: map<string, string>
    const relative: string -> string
    var nextIndex: nat
    const workers: array<Worker>
    const output: array<Option<File>>
    ghost var claims: seq<Claim>

    ghost function Work(): Job { Job(paths, disk, relative) }

    ghost function View(): State
      reads this, workers, output
    {
      State(nextIndex, workers[..], output[..], claims)
    }

    ghost predicate Valid()
      reads this, workers, output
    {
      Inv(Work(), View())
    }

    constructor (job: Job, count: nat)
      ensures fresh(workers) && fresh(output) && Work() == job && workers.Length == count
      ensures Valid() && View() == Start(job, count)
    {
      paths, disk, relative := job.paths, job.disk, job.relative;
      nextIndex, claims := 0, [];
      workers := new Worker[count](_ => Ready);
      output := new Option<File>[|job.paths|](_ => None);
      new;
      assert workers[..] == Start(job, count).workers;
      assert output[..] == Start(job, count).output;
      ExecuteKeepsInv(job, count, []);
    }

    /** The head of a worker's loop: take an index, and return when there is none left. */
    method Take(w: nat)
      requires Valid() && w < workers.Length && workers[w].Ready?
      modifies this`nextIndex, this`claims, workers
      ensures Valid() && View() == Step(Work(), old(View()), w)
    {
      ghost var before := View();
      ClaimKeepsInv(Work(), before, w);
      var index := nextIndex;
      nextIndex := nextIndex + 1;
      if index >= |paths| {
        workers[w] := Returned;
      } else {
        claims := claims + [Claim(w, index)];
        if paths[index] != "" { workers[w] := Reading(index); }
      }
      assert View().workers == Step(Work(), before, w).workers;
    }

    /** A worker gets its file, or learns that there is none. */
    method Receive(w: nat)
      requires Valid() && w < workers.Length && workers[w].Reading?
      modifies workers, output
      ensures Valid() && View() == Step(Work(), old(View()), w)
    {
      ghost var before := View();
      ReadKeepsInv(Work(), before, w);
      var index := workers[w].index;
      var path := paths[index];
      if path != "" && path in disk {
        output[index] := Some(File(relative(path), disk[path]));
      }
      workers[w] := Ready;
      assert View().workers == Step(Work(), before, w).workers;
      assert View().output == Step(Work(), before, w).output;
    }

    /** The worker the scheduler asks for if it has not returned, or else another one that has not. */
    method Pick(wish: nat) returns (w: Option<nat>)
      ensures w.None? ==> AllReturned(View())
      ensures w.Some? ==> w.value < workers.Length && !workers[w.value].Returned?
      ensures wish < workers.Length && !workers[wish].Returned? ==> w == Some(wish)
    {
      if wish < workers.Length && !workers[wish].Returned? { return Some(wish); }
      for k := 0 to workers.Length
        invariant forall i :: 0 <= i < k ==> workers[i].Returned?
      {
        if !workers[k].Returned? { return Some(k); }
      }
      return None;
    }

    /** Until all workers have returned, one of them goes on; which one is the scheduler's choice. */
    method RunAll(choice: nat -> nat)
      requires Valid() && workers.Length > 0
      modifies this`nextIndex, this`claims, workers, output
      ensures Valid() && AllReturned(View())
    {
      var turn := 0;
      var w: Option<nat> := Pick(choice(turn));
      while w.Some?
        invariant Valid()
        invariant w.None? ==> AllReturned(View())
        invariant w.Some? ==> w.value < workers.Length && !workers[w.value].Returned?
        decreases Remaining(Work(), View())
      {
        StepUsesUp(Work(), View(), w.value);
        if workers[w.value].Ready? { Take(w.value); } else { Receive(w.value); }
        turn := turn + 1;
        w := Pick(choice(turn));
      }
    }
  }

  /** The entries filled in, in order. */
  method Collect(output: array<Option<File>>) returns (files: seq<File>)
    ensures files == Present(output[..])
  {
    files := [];
    assert output[0..] == output[..];
    for i := 0 to output.Length
      invariant files + Present(output[i..]) == Present(output[..])
    {
      assert output[i..][1..] == output[i + 1..];
      if output[i].Some? { files := files + [output[i].value]; }
    }
  }

  /** The readable files in the order of the paths, whatever the scheduler chooses. */
  method ReadRuntimeSourceFiles(job: Job, choice: nat -> nat) returns (files: seq<File>)
    ensures files == Readable(job)
  {
    var wanted := if |job.paths| > 1 then |job.paths| else 1;
    var pool := new Pool(job, if wanted < FILE_READ_CONCURRENCY then wanted else FILE_READ_CONCURRENCY);
    pool.RunAll(choice);
    AllFilled(pool.Work(), pool.View());
    files := Collect(pool.output);
  }
}

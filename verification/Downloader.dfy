/**
 * DownloadAll as a protocol: one goroutine per file, a semaphore of four, an error channel with
 * room for one error per file, a shared result map, and a caller that waits for all of them.
 * A step of the protocol is one atomic action of one goroutine or of the caller.
 */
module Downloader {
  import opened Prelude

  const MAX_CONCURRENT := 4

  datatype Worker =
    | NotStarted
    | Waiting                 // select on the semaphore and ctx.Done
    | Cancelled               // saw ctx.Done, about to send its error
    | Downloading             // holds the semaphore
    | Broken                  // download failed, about to send its error
    | Fetched                 // download succeeded, about to store its path
    | Releasing(ok: bool)     // the deferred release of the semaphore
    | Exited(ok: bool)

  datatype Caller = Spawning(next: nat) | Collecting | Returned(ok: bool, errors: nat)

  datatype State = State(
    workers: seq<Worker>,
    caller: Caller,
    held: nat,                    // tokens in the semaphore channel
    errors: nat,                  // errors in the error channel
    paths: map<string, string>,
    cancelled: bool)

  datatype Action =
    | Spawn
    | Cancel
    | Acquire(i: nat)
    | SeeCancel(i: nat)
    | Succeed(i: nat)
    | FailDownload(i: nat)
    | SendError(i: nat)
    | Store(i: nat)
    | Release(i: nat)
    | Collect

  /** The files asked for and where each one is stored. */
  datatype Job = Job(files: seq<string>, local: string -> string)

  function Init(job: Job): State
  {
    State(seq(|job.files|, i => NotStarted), Spawning(0), 0, 0, map[], false)
  }

  predicate At(s: State, i: nat, w: Worker)
  {
    i < |s.workers| && s.workers[i] == w
  }

  predicate Enabled(job: Job, s: State, a: Action)
  {
    match a
    case Spawn => s.caller.Spawning? && s.caller.next < |s.workers| && s.workers[s.caller.next] == NotStarted
    case Cancel => !s.cancelled
    case Acquire(i) => At(s, i, Waiting) && s.held < MAX_CONCURRENT
    case SeeCancel(i) => At(s, i, Waiting) && s.cancelled
    case Succeed(i) => At(s, i, Downloading)
    case FailDownload(i) => At(s, i, Downloading)
    case SendError(i) => (At(s, i, Cancelled) || At(s, i, Broken)) && s.errors < |job.files|
    case Store(i) => At(s, i, Fetched)
    case Release(i) => i < |s.workers| && s.workers[i].Releasing? && s.held > 0
    case Collect =>
      && (s.caller == Collecting || (s.caller.Spawning? && s.caller.next == |s.workers|))
      && forall i :: 0 <= i < |s.workers| ==> s.workers[i].Exited?
  }

  function Move(s: State, i: nat, w: Worker): State
    requires i < |s.workers|
  {
    s.(workers := s.workers[i := w])
  }

  function Step(job: Job, s: State, a: Action): State
    requires Enabled(job, s, a) && |s.workers| == |job.files|
  {
    match a
    case Spawn =>
      var k := s.caller.next;
      Move(s, k, Waiting).(caller := if k + 1 == |s.workers| then Collecting else Spawning(k + 1))
    case Cancel => s.(cancelled := true)
    case Acquire(i) => Move(s, i, Downloading).(held := s.held + 1)
    case SeeCancel(i) => Move(s, i, Cancelled)
    case Succeed(i) => Move(s, i, Fetched)
    case FailDownload(i) => Move(s, i, Broken)
    case SendError(i) =>
      Move(s, i, if s.workers[i] == Cancelled then Exited(false) else Releasing(false)).(errors := s.errors + 1)
    case Store(i) =>
      Move(s, i, Releasing(true)).(paths := s.paths[job.files[i] := job.local(job.files[i])])
    case Release(i) => Move(s, i, Exited(s.workers[i].ok)).(held := s.held - 1)
    case Collect => s.(caller := Returned(s.errors == 0, s.errors))
  }

  // ---- The invariant ----------------------------------------------------------------------

  function Holds(w: Worker): nat
  {
    if w == Downloading || w == Broken || w == Fetched || w.Releasing? then 1 else 0
  }

  function Failed(w: Worker): nat
  {
    if (w.Releasing? || w.Exited?) && !w.ok then 1 else 0
  }

  ghost predicate Inv(job: Job, s: State)
  {
    && |s.workers| == |job.files|
    && Counted(s)
    && Recorded(job, s)
    && SpawnedInOrder(s)
    && ReturnIsFinal(s)
  }

  ghost predicate Counted(s: State)
  {
    && s.held == Sum(s.workers, Holds) && s.held <= MAX_CONCURRENT
    && s.errors == Sum(s.workers, Failed)
  }

  ghost predicate Recorded(job: Job, s: State)
    requires |s.workers| == |job.files|
  {
    && (forall i :: 0 <= i < |s.workers| && (s.workers[i] == Releasing(true) || s.workers[i] == Exited(true)) ==>
         job.files[i] in s.paths)
    && (forall p :: p in s.paths ==> p in job.files && s.paths[p] == job.local(p))
  }

  ghost predicate SpawnedInOrder(s: State)
  {
    && (s.caller.Spawning? ==> s.caller.next <= |s.workers|)
    && forall i :: 0 <= i < |s.workers| ==>
         (s.workers[i] == NotStarted <==> s.caller.Spawning? && s.caller.next <= i)
  }

  ghost predicate ReturnIsFinal(s: State)
  {
    s.caller.Returned? ==>
      && (forall i :: 0 <= i < |s.workers| ==> s.workers[i].Exited?)
      && s.caller.errors == s.errors
      && (s.caller.ok <==> s.errors == 0)
  }

  lemma InitInv(job: Job)
    ensures Inv(job, Init(job))
  {
    SumZero(Init(job).workers, Holds);
    SumZero(Init(job).workers, Failed);
  }

  lemma MoveSums(s: State, i: nat, w: Worker)
    requires i < |s.workers|
    ensures Sum(Move(s, i, w).workers, Holds) == Sum(s.workers, Holds) - Holds(s.workers[i]) + Holds(w)
    ensures Sum(Move(s, i, w).workers, Failed) == Sum(s.workers, Failed) - Failed(s.workers[i]) + Failed(w)
  {
    SumUpdate(s.workers, Holds, i, w);
    SumUpdate(s.workers, Failed, i, w);
  }

  lemma StepCounted(job: Job, s: State, a: Action)
    requires Inv(job, s) && Enabled(job, s, a)
    ensures Counted(Step(job, s, a))
  {
    hide Recorded, SpawnedInOrder, ReturnIsFinal, Sum;
    match a
    case Spawn => MoveSums(s, s.caller.next, Waiting);
    case Cancel =>
    case Acquire(i) => MoveSums(s, i, Downloading);
    case SeeCancel(i) => MoveSums(s, i, Cancelled);
    case Succeed(i) => MoveSums(s, i, Fetched);
    case FailDownload(i) => MoveSums(s, i, Broken);
    case SendError(i) => MoveSums(s, i, if s.workers[i] == Cancelled then Exited(false) else Releasing(false));
    case Store(i) => MoveSums(s, i, Releasing(true));
    case Release(i) => MoveSums(s, i, Exited(s.workers[i].ok));
    case Collect =>
  }

  lemma StepInv(job: Job, s: State, a: Action)
    requires Inv(job, s) && Enabled(job, s, a)
    ensures Inv(job, Step(job, s, a))
  {
    StepCounted(job, s, a);
    StepRecorded(job, s, a);
    StepOrdered(job, s, a);
    StepReturn(job, s, a);
    hide Counted, Recorded, SpawnedInOrder, ReturnIsFinal;
  }

  lemma StepRecorded(job: Job, s: State, a: Action)
    requires |s.workers| == |job.files| && Recorded(job, s) && Enabled(job, s, a)
    ensures Recorded(job, Step(job, s, a))
  {
  }

  lemma StepOrdered(job: Job, s: State, a: Action)
    requires |s.workers| == |job.files| && SpawnedInOrder(s) && Enabled(job, s, a)
    ensures SpawnedInOrder(Step(job, s, a))
  {
  }

  lemma StepReturn(job: Job, s: State, a: Action)
    requires |s.workers| == |job.files| && SpawnedInOrder(s) && ReturnIsFinal(s) && Enabled(job, s, a)
    ensures ReturnIsFinal(Step(job, s, a))
  {
  }

  // ---- Every interleaving -----------------------------------------------------------------

  ghost predicate Runs(job: Job, s: State, actions: seq<Action>)
    requires |s.workers| == |job.files|
    decreases |actions|
  {
    actions == [] || (Enabled(job, s, actions[0]) && Runs(job, Step(job, s, actions[0]), actions[1..]))
  }

  function Run(job: Job, s: State, actions: seq<Action>): State
    requires |s.workers| == |job.files| && Runs(job, s, actions)
    decreases |actions|
  {
    if actions == [] then s else Run(job, Step(job, s, actions[0]), actions[1..])
  }

  lemma {:induction false} RunInv(job: Job, s: State, actions: seq<Action>)
    requires Inv(job, s) && Runs(job, s, actions)
    ensures Inv(job, Run(job, s, actions))
    decreases |actions|
  {
    if actions != [] {
      StepInv(job, s, actions[0]);
      hide Step, Inv;
      RunInv(job, Step(job, s, actions[0]), actions[1..]);
    }
  }

  /** In every interleaving at most four downloads hold the semaphore. */
  lemma AtMostFour(job: Job, actions: seq<Action>)
    requires Runs(job, Init(job), actions)
    ensures Sum(Run(job, Init(job), actions).workers, Holds) <= 4
  {
    InitInv(job);
    RunInv(job, Init(job), actions);
  }

  function NotYetSent(w: Worker): nat
  {
    1 - Failed(w)
  }

  lemma {:induction false} SumComplement(ws: seq<Worker>)
    ensures Sum(ws, Failed) + Sum(ws, NotYetSent) == |ws|
  {
    if ws != [] {
      SumComplement(ws[1..]);
    }
  }

  /** A goroutine that has an error to send never waits for room in the channel. */
  lemma NeverBlocksOnErrors(job: Job, s: State, i: nat)
    requires Inv(job, s) && (At(s, i, Cancelled) || At(s, i, Broken))
    ensures Enabled(job, s, SendError(i))
  {
    SumComplement(s.workers);
    SumAtLeast(s.workers, NotYetSent, i);
  }

  lemma HolderCanMove(job: Job, s: State, i: nat) returns (a: Action)
    requires Inv(job, s) && i < |s.workers| && Holds(s.workers[i]) == 1
    ensures Enabled(job, s, a) && a != Cancel
  {
    SumAtLeast(s.workers, Holds, i);
    match s.workers[i]
    case Downloading => a := Succeed(i);
    case Fetched => a := Store(i);
    case Releasing(_) => a := Release(i);
    case _ =>
      NeverBlocksOnErrors(job, s, i);
      a := SendError(i);
  }

  /** No deadlock: until the call returns, some goroutine or the caller can always move. */
  lemma SomeoneCanMove(job: Job, s: State) returns (a: Action)
    requires Inv(job, s) && !s.caller.Returned?
    ensures Enabled(job, s, a) && a != Cancel
  {
    if s.caller.Spawning? && s.caller.next < |s.workers| {
      a := Spawn;
    } else if forall i :: 0 <= i < |s.workers| ==> s.workers[i].Exited? {
      a := Collect;
    } else {
      var i: nat :| i < |s.workers| && !s.workers[i].Exited?;
      if Holds(s.workers[i]) == 1 {
        a := HolderCanMove(job, s, i);
      } else if s.workers[i] == Cancelled {
        NeverBlocksOnErrors(job, s, i);
        a := SendError(i);
      } else {
        assert s.workers[i] == Waiting;
        if s.held < MAX_CONCURRENT {
          a := Acquire(i);
        } else {
          var j := SumWitness(s.workers, Holds);
          a := HolderCanMove(job, s, j);
        }
      }
    }
  }

  // ---- Termination ------------------------------------------------------------------------

  function Remaining(w: Worker): nat
  {
    match w
    case NotStarted => 5
    case Waiting => 4
    case Downloading => 3
    case Broken => 2
    case Fetched => 2
    case Cancelled => 1
    case Releasing(_) => 1
    case Exited(_) => 0
  }

  function Fuel(s: State): nat
  {
    Sum(s.workers, Remaining) + (if s.caller.Returned? then 0 else 1) + if s.cancelled then 0 else 1
  }

  lemma StepConsumes(job: Job, s: State, a: Action)
    requires |s.workers| == |job.files| && Enabled(job, s, a)
    ensures Fuel(Step(job, s, a)) < Fuel(s)
  {
    hide Sum;
    match a
    case Spawn => SumUpdate(s.workers, Remaining, s.caller.next, Waiting);
    case Cancel =>
    case Acquire(i) => SumUpdate(s.workers, Remaining, i, Downloading);
    case SeeCancel(i) => SumUpdate(s.workers, Remaining, i, Cancelled);
    case Succeed(i) => SumUpdate(s.workers, Remaining, i, Fetched);
    case FailDownload(i) => SumUpdate(s.workers, Remaining, i, Broken);
    case SendError(i) =>
      SumUpdate(s.workers, Remaining, i, if s.workers[i] == Cancelled then Exited(false) else Releasing(false));
    case Store(i) => SumUpdate(s.workers, Remaining, i, Releasing(true));
    case Release(i) => SumUpdate(s.workers, Remaining, i, Exited(s.workers[i].ok));
    case Collect =>
  }

  lemma {:induction false} RunConsumes(job: Job, s: State, actions: seq<Action>)
    requires |s.workers| == |job.files| && Runs(job, s, actions)
    ensures |actions| + Fuel(Run(job, s, actions)) <= Fuel(s)
    decreases |actions|
  {
    if actions != [] {
      StepConsumes(job, s, actions[0]);
      hide Fuel;
      RunConsumes(job, Step(job, s, actions[0]), actions[1..]);
    }
  }

  /** No run is longer than five steps a file and two more, and one that cannot go on has returned. */
  lemma EveryRunEnds(job: Job, actions: seq<Action>)
    requires Runs(job, Init(job), actions)
    ensures |actions| <= 5 * |job.files| + 2
    ensures (forall a :: Enabled(job, Run(job, Init(job), actions), a) ==> a == Cancel) ==>
      Run(job, Init(job), actions).caller.Returned?
  {
    var s := Run(job, Init(job), actions);
    InitInv(job);
    RunInv(job, Init(job), actions);
    RunConsumes(job, Init(job), actions);
    SumBound(Init(job).workers, Remaining, 5);
    if !s.caller.Returned? {
      var a := SomeoneCanMove(job, s);
    }
  }

  // ---- The outcome ------------------------------------------------------------------------

  /**
   * The call succeeds exactly when no goroutine failed or was cancelled, and reports one error for
   * each that did; on success every requested file has its local path and nothing else is listed.
   */
  lemma Outcome(job: Job, actions: seq<Action>)
    requires Runs(job, Init(job), actions) && Run(job, Init(job), actions).caller.Returned?
    ensures var s := Run(job, Init(job), actions);
      && |s.workers| == |job.files|
      && (forall i :: 0 <= i < |job.files| ==> s.workers[i].Exited?)
      && s.held == 0
      && s.caller.errors == Sum(s.workers, Failed)
      && (s.caller.ok <==> forall i :: 0 <= i < |job.files| ==> s.workers[i] == Exited(true))
      && (s.caller.ok ==> s.paths == map p | p in job.files :: job.local(p))
  {
    var s := Run(job, Init(job), actions);
    InitInv(job);
    RunInv(job, Init(job), actions);
    SumZero(s.workers, Holds);
    if s.caller.ok {
      forall i | 0 <= i < |s.workers| ensures s.workers[i] == Exited(true) {
        SumAtLeast(s.workers, Failed, i);
      }
      forall p | p in job.files ensures p in s.paths {
        var i :| 0 <= i < |job.files| && job.files[i] == p;
        assert s.workers[i] == Exited(true);
      }
    } else if forall i :: 0 <= i < |job.files| ==> s.workers[i] == Exited(true) {
      SumZero(s.workers, Failed);
      assert false;
    }
  }
}

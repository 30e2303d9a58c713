/**
 * The benchmark pipeline: a producer of requests, n workers, a closer and a collector, joined by
 * two buffered channels. Workers never wait for room in the results channel: they drop.
 */
module Benchmark {
  import opened Prelude

  datatype Worker = Idle | Busy | Sending(tokens: int) | Exited

  datatype State = State(
    workers: seq<Worker>,
    queued: nat,              // requests channel
    requestsClosed: bool,
    results: seq<int>,        // results channel
    resultsClosed: bool,
    tokenCounts: seq<int>,
    totalTokens: int,
    requestCount: nat,
    finished: bool,
    // history
    succeeded: seq<int>,      // token counts of the requests that succeeded
    sent: seq<int>,           // those put into the results channel
    dropped: seq<int>)        // those given up because it was full

  datatype Action =
    | Produce                 // a tick: enqueue, or skip when the channel is full
    | StopProducing
    | Take(i: nat)
    | RequestFails(i: nat)
    | RequestSucceeds(i: nat, tokens: int)
    | SendOrDrop(i: nat)
    | Leave(i: nat)
    | CloseResults
    | Collect
    | Finish

  function Init(n: nat): State
  {
    State(seq(n, i => Idle), 0, false, [], false, [], 0, 0, false, [], [], [])
  }

  function Capacity(s: State): nat
  {
    2 * |s.workers|
  }

  predicate IsAt(s: State, i: nat, w: Worker)
  {
    i < |s.workers| && s.workers[i] == w
  }

  predicate Enabled(s: State, a: Action)
  {
    match a
    case Produce => !s.requestsClosed
    case StopProducing => !s.requestsClosed
    case Take(i) => IsAt(s, i, Idle) && s.queued > 0
    case RequestFails(i) => IsAt(s, i, Busy)
    case RequestSucceeds(i, _) => IsAt(s, i, Busy)
    case SendOrDrop(i) => i < |s.workers| && s.workers[i].Sending?
    case Leave(i) => IsAt(s, i, Idle) && s.queued == 0 && s.requestsClosed
    case CloseResults => !s.resultsClosed && forall i :: 0 <= i < |s.workers| ==> s.workers[i] == Exited
    case Collect => !s.finished && s.results != []
    case Finish => !s.finished && s.results == [] && s.resultsClosed
  }

  function Move(s: State, i: nat, w: Worker): State
    requires i < |s.workers|
  {
    s.(workers := s.workers[i := w])
  }

  function Step(s: State, a: Action): State
    requires Enabled(s, a)
  {
    match a
    case Produce => if s.queued < Capacity(s) then s.(queued := s.queued + 1) else s
    case StopProducing => s.(requestsClosed := true)
    case Take(i) => Move(s, i, Busy).(queued := s.queued - 1)
    case RequestFails(i) => Move(s, i, Idle)
    case RequestSucceeds(i, tokens) => Move(s, i, Sending(tokens)).(succeeded := s.succeeded + [tokens])
    case SendOrDrop(i) =>
      var t := s.workers[i].tokens;
      if |s.results| < Capacity(s)
      then Move(s, i, Idle).(results := s.results + [t], sent := s.sent + [t])
      else Move(s, i, Idle).(dropped := s.dropped + [t])
    case Leave(i) => Move(s, i, Exited)
    case CloseResults => s.(resultsClosed := true)
    case Collect =>
      var t := s.results[0];
      s.(results := s.results[1..], tokenCounts := s.tokenCounts + [t],
         totalTokens := s.totalTokens + t, requestCount := s.requestCount + 1)
    case Finish => s.(finished := true)
  }

  // ---- The invariant ----------------------------------------------------------------------

  function Total(s: seq<int>): int
  {
    if s == [] then 0 else Total(s[..|s| - 1]) + s[|s| - 1]
  }

  function Held(w: Worker): multiset<int>
  {
    if w.Sending? then multiset{w.tokens} else multiset{}
  }

  /** The token counts that workers hold between a success and the send. */
  function InHand(ws: seq<Worker>): multiset<int>
  {
    if ws == [] then multiset{} else Held(ws[0]) + InHand(ws[1..])
  }

  lemma {:induction false} InHandUpdate(ws: seq<Worker>, i: nat, w: Worker)
    requires i < |ws|
    ensures Held(ws[i]) <= InHand(ws)
    ensures InHand(ws[i := w]) == InHand(ws) - Held(ws[i]) + Held(w)
  {
    hide Held;
    if i == 0 {
      assert ws[i := w][1..] == ws[1..];
    } else {
      assert ws[i := w][1..] == ws[1..][i - 1 := w];
      InHandUpdate(ws[1..], i - 1, w);
    }
  }

  lemma {:induction false} InHandEmpty(ws: seq<Worker>)
    requires forall i :: 0 <= i < |ws| ==> !ws[i].Sending?
    ensures InHand(ws) == multiset{}
  {
    if ws != [] {
      InHandEmpty(ws[1..]);
    }
  }

  /** Every success is in hand, sent or dropped, each exactly once. */
  ghost predicate Conserved(s: State)
  {
    multiset(s.succeeded) == InHand(s.workers) + multiset(s.sent) + multiset(s.dropped)
  }

  ghost predicate Collected(s: State)
  {
    && s.sent == s.tokenCounts + s.results
    && s.requestCount == |s.tokenCounts|
    && s.totalTokens == Total(s.tokenCounts)
  }

  ghost predicate Inv(s: State)
  {
    && Conserved(s)
    && Collected(s)
    && Bounded(s)
  }

  ghost predicate Bounded(s: State)
  {
    && s.queued <= Capacity(s) && |s.results| <= Capacity(s)
    && (s.resultsClosed ==> forall i :: 0 <= i < |s.workers| ==> s.workers[i] == Exited)
    && (s.finished ==> s.resultsClosed && s.results == [])
  }

  lemma InitInv(n: nat)
    ensures Inv(Init(n))
  {
    InHandEmpty(Init(n).workers);
  }

  lemma BagSnoc(s: seq<int>, t: int)
    ensures multiset(s + [t]) == multiset(s) + multiset{t}
  {
  }

  lemma SuccessConserved(s: State, i: nat, tokens: int)
    requires Conserved(s) && IsAt(s, i, Busy)
    ensures Conserved(Step(s, RequestSucceeds(i, tokens)))
  {
    hide InHand;
    InHandUpdate(s.workers, i, Sending(tokens));
    BagSnoc(s.succeeded, tokens);
  }

  lemma SendConserved(s: State, i: nat)
    requires Conserved(s) && i < |s.workers| && s.workers[i].Sending?
    ensures Conserved(Step(s, SendOrDrop(i)))
  {
    hide InHand;
    var t := s.workers[i].tokens;
    InHandUpdate(s.workers, i, Idle);
    var hand := InHand(s.workers[i := Idle]);
    assert InHand(s.workers) == hand + multiset{t};
    BagSnoc(s.sent, t);
    BagSnoc(s.dropped, t);
    var s' := Step(s, SendOrDrop(i));
    if |s.results| < Capacity(s) {
      assert multiset(s'.sent) == multiset(s.sent) + multiset{t};
    } else {
      assert multiset(s'.dropped) == multiset(s.dropped) + multiset{t};
    }
  }

  /** Moves that neither take nor give a token count. */
  lemma MoveConserved(s: State, i: nat, w: Worker)
    requires Conserved(s) && i < |s.workers| && !s.workers[i].Sending? && !w.Sending?
    ensures Conserved(Move(s, i, w))
  {
    hide InHand;
    InHandUpdate(s.workers, i, w);
  }

  lemma StepConserved(s: State, a: Action)
    requires Conserved(s) && Enabled(s, a)
    ensures Conserved(Step(s, a))
  {
    hide InHand;
    match a
    case Take(i) => MoveConserved(s, i, Busy);
    case RequestFails(i) => MoveConserved(s, i, Idle);
    case RequestSucceeds(i, tokens) => SuccessConserved(s, i, tokens);
    case SendOrDrop(i) => SendConserved(s, i);
    case Leave(i) => MoveConserved(s, i, Exited);
    case _ =>
  }

  lemma TotalSnoc(s: seq<int>, t: int)
    ensures Total(s + [t]) == Total(s) + t
  {
    assert (s + [t])[..|s|] == s;
  }

  lemma StepCollected(s: State, a: Action)
    requires Collected(s) && Enabled(s, a)
    ensures Collected(Step(s, a))
  {
    hide Total;
    match a
    case Collect =>
      TotalSnoc(s.tokenCounts, s.results[0]);
      assert s.tokenCounts + [s.results[0]] + s.results[1..] == s.tokenCounts + s.results;
    case SendOrDrop(i) =>
      assert s.tokenCounts + (s.results + [s.workers[i].tokens]) == s.tokenCounts + s.results + [s.workers[i].tokens];
    case _ =>
  }

  lemma StepInv(s: State, a: Action)
    requires Inv(s) && Enabled(s, a)
    ensures Inv(Step(s, a))
  {
    StepConserved(s, a);
    StepCollected(s, a);
    StepBounded(s, a);
    hide Conserved, Collected, Bounded, Step;
  }

  lemma StepBounded(s: State, a: Action)
    requires Bounded(s) && Enabled(s, a)
    ensures Bounded(Step(s, a))
  {
    match a
    case Produce =>
    case StopProducing =>
    case Take(i) =>
    case RequestFails(i) =>
    case RequestSucceeds(i, tokens) =>
    case SendOrDrop(i) =>
    case Leave(i) =>
    case CloseResults =>
    case Collect =>
    case Finish =>
  }

  /** No worker can be about to send once the results channel is closed. */
  lemma NoSendOnClosed(s: State, i: nat)
    requires Inv(s) && Enabled(s, SendOrDrop(i))
    ensures !s.resultsClosed
  {
  }

  // ---- Every interleaving -----------------------------------------------------------------

  ghost predicate Runs(s: State, actions: seq<Action>)
    decreases |actions|
  {
    actions == [] || (Enabled(s, actions[0]) && Runs(Step(s, actions[0]), actions[1..]))
  }

  function Run(s: State, actions: seq<Action>): State
    requires Runs(s, actions)
    decreases |actions|
  {
    if actions == [] then s else Run(Step(s, actions[0]), actions[1..])
  }

  lemma {:induction false} RunInv(s: State, actions: seq<Action>)
    requires Inv(s) && Runs(s, actions)
    ensures Inv(Run(s, actions))
    decreases |actions|
  {
    if actions != [] {
      StepInv(s, actions[0]);
      hide Inv, Step;
      RunInv(Step(s, actions[0]), actions[1..]);
    }
  }

  /**
   * In every interleaving the result counts exactly the successes that were sent, in the order in
   * which they were sent; each of the others was dropped once, and the totals agree.
   */
  lemma ResultIsWhatWasSent(n: nat, actions: seq<Action>)
    requires Runs(Init(n), actions) && Run(Init(n), actions).finished
    ensures var s := Run(Init(n), actions);
      && s.tokenCounts == s.sent
      && multiset(s.succeeded) == multiset(s.tokenCounts) + multiset(s.dropped)
      && s.requestCount == |s.tokenCounts|
      && s.totalTokens == Total(s.tokenCounts)
  {
    InitInv(n);
    RunInv(Init(n), actions);
    var s := Run(Init(n), actions);
    InHandEmpty(s.workers);
    assert s.tokenCounts + [] == s.tokenCounts;
  }

  /** No send on a closed channel in any interleaving: right before each send the channel is open. */
  lemma NeverSendsOnClosed(n: nat, actions: seq<Action>, i: nat)
    requires Runs(Init(n), actions) && Enabled(Run(Init(n), actions), SendOrDrop(i))
    ensures !Run(Init(n), actions).resultsClosed
  {
    InitInv(n);
    RunInv(Init(n), actions);
    NoSendOnClosed(Run(Init(n), actions), i);
  }

  /** Until the collector has finished, some party can always move. */
  lemma SomeoneCanMove(s: State) returns (a: Action)
    requires Inv(s) && !s.finished
    ensures Enabled(s, a)
  {
    if !s.requestsClosed {
      a := StopProducing;
    } else if i: nat :| i < |s.workers| && s.workers[i] != Exited {
      match s.workers[i]
      case Idle => a := if s.queued > 0 then Take(i) else Leave(i);
      case Busy => a := RequestFails(i);
      case Sending(_) => a := SendOrDrop(i);
    } else {
      assert forall i :: 0 <= i < |s.workers| ==> s.workers[i] == Exited;
      a := if s.results != [] then Collect else if s.resultsClosed then Finish else CloseResults;
    }
  }

  // ---- Termination once the producer stops ------------------------------------------------

  function Remaining(w: Worker): nat
  {
    match w case Sending(_) => 2 case Busy => 3 case Idle => 1 case Exited => 0
  }

  /** Bounds the steps left once the requests channel is closed. */
  function Fuel(s: State): nat
  {
    5 * s.queued + 2 * Sum(s.workers, Remaining) + |s.results|
    + (if s.resultsClosed then 0 else 1) + if s.finished then 0 else 1
  }

  /** After the producer has stopped, every step brings the end closer. */
  lemma StepConsumes(s: State, a: Action)
    requires Enabled(s, a) && s.requestsClosed
    ensures Fuel(Step(s, a)) < Fuel(s) && Step(s, a).requestsClosed
  {
    match a
    case Take(i) => SumUpdate(s.workers, Remaining, i, Busy);
    case RequestFails(i) => SumUpdate(s.workers, Remaining, i, Idle);
    case RequestSucceeds(i, tokens) => SumUpdate(s.workers, Remaining, i, Sending(tokens));
    case SendOrDrop(i) => SumUpdate(s.workers, Remaining, i, Idle);
    case Leave(i) => SumUpdate(s.workers, Remaining, i, Exited);
    case _ =>
  }

  lemma {:induction false} RunEnds(s: State, actions: seq<Action>)
    requires Runs(s, actions) && s.requestsClosed
    ensures |actions| <= Fuel(s)
    decreases |actions|
  {
    if actions != [] {
      StepConsumes(s, actions[0]);
      hide Fuel, Step;
      RunEnds(Step(s, actions[0]), actions[1..]);
    }
  }
}

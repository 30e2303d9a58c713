/**
 * What is saved and how failures are reported: the responses saved are exactly those reported as
 * completed or failed, in order, each as it was reported.
 */
module ResponseSaves {
  import opened Prelude
  import opened Framing
  import opened ResponseTypes
  import opened ResponseStream
  import opened ResponseCuts
  import opened ResponseRuns

  /** The responses that the events report as completed or failed. */
  function Ended(log: seq<Event>): seq<Response>
  {
    if log == [] then []
    else
      Ended(log[..|log| - 1])
      + match log[|log| - 1].body
        case ResponseCompleted(r) => [r]
        case ResponseFailed(r) => [r]
        case _ => []
  }

  ghost predicate Reported(persist: bool, s: State)
  {
    s.saved == if persist then Ended(s.log) else []
  }

  lemma EndedEmit(s: State, b: Body)
    ensures Ended(Emit(s, b).log) == Ended(s.log) +
      match b case ResponseCompleted(r) => [r] case ResponseFailed(r) => [r] case _ => []
  {
    assert Emit(s, b).log[..|s.log|] == s.log;
  }

  /** Nothing reported as ended, nothing saved. */
  ghost predicate NoneEnded(s: State, t: State)
  {
    t.saved == s.saved && Ended(t.log) == Ended(s.log)
  }

  lemma EmitNoneEnded(s: State, b: Body)
    requires !b.ResponseCompleted? && !b.ResponseFailed?
    ensures NoneEnded(s, Emit(s, b))
  {
    EndedEmit(s, b);
    assert Ended(s.log) + [] == Ended(s.log);
  }

  lemma ToolStepNoneEnded(s: State, f: ToolFragment)
    ensures NoneEnded(s, ToolStep(s, f))
  {
    hide Ended, FindCall;
    var i := FindCall(s.calls, f.id);
    var s1 := if i == |s.calls| then OpenCall(s, f) else s;
    forall x: State, b: Body | !b.ResponseCompleted? && !b.ResponseFailed? ensures NoneEnded(x, Emit(x, b)) {
      EmitNoneEnded(x, b);
    }
    assert NoneEnded(s, s1);
  }

  lemma {:induction false} ToolStepsNoneEnded(s: State, fs: seq<ToolFragment>)
    ensures NoneEnded(s, ToolSteps(s, fs))
    decreases |fs|
  {
    hide Ended, ToolStep;
    if fs != [] {
      ToolStepNoneEnded(s, fs[0]);
      ToolStepsNoneEnded(ToolStep(s, fs[0]), fs[1..]);
    }
  }

  lemma SayTextNoneEnded(s: State, content: string)
    ensures NoneEnded(s, SayText(s, content))
  {
    hide Ended;
    forall x: State, b: Body | !b.ResponseCompleted? && !b.ResponseFailed? ensures NoneEnded(x, Emit(x, b)) {
      EmitNoneEnded(x, b);
    }
  }

  lemma CloseMessageNoneEnded(s: State)
    ensures NoneEnded(s, CloseMessage(s))
  {
    hide Ended;
    forall x: State, b: Body | !b.ResponseCompleted? && !b.ResponseFailed? ensures NoneEnded(x, Emit(x, b)) {
      EmitNoneEnded(x, b);
    }
  }

  lemma CloseCallNoneEnded(s: State, call: Item, i: int)
    ensures NoneEnded(s, CloseCall(s, call, i))
  {
    hide Ended;
    forall x: State, b: Body | !b.ResponseCompleted? && !b.ResponseFailed? ensures NoneEnded(x, Emit(x, b)) {
      EmitNoneEnded(x, b);
    }
  }

  lemma {:induction false} CloseCallsNoneEnded(s: State, calls: seq<Item>)
    ensures NoneEnded(s, CloseCalls(s, calls))
    decreases |calls|
  {
    hide Ended, CloseCall;
    if calls != [] {
      var n := |calls| - 1;
      CloseCallsNoneEnded(s, calls[..n]);
      CloseCallNoneEnded(CloseCalls(s, calls[..n]), calls[n], n);
    }
  }

  lemma FailReported(persist: bool, s: State, code: string)
    requires Reported(persist, s)
    ensures Reported(persist, Fail(persist, s, code))
  {
    hide Ended;
    var s1 := s.(response := s.response.(status := Failed));
    EndedEmit(s1, ErrorRaised(code));
    EndedEmit(Emit(s1, ErrorRaised(code)), ResponseFailed(s1.response));
    assert Ended(s.log) + [] == Ended(s.log);
  }

  lemma FinalizeReported(persist: bool, s: State)
    requires Reported(persist, s)
    ensures Reported(persist, Finalize(persist, s))
  {
    hide Ended, CloseCalls, CloseMessage;
    CloseMessageNoneEnded(s);
    CloseCallsNoneEnded(CloseMessage(s), s.calls);
    var s1 := CloseCalls(CloseMessage(s), s.calls);
    var s2 := s1.(response := s1.response.(status := Completed));
    EndedEmit(s2, ResponseCompleted(s2.response));
  }

  lemma HeaderReported(persist: bool, s: State, code: int)
    requires Reported(persist, s)
    ensures Reported(persist, Header(persist, s, code))
  {
    hide Ended;
    FailReported(persist, s.(headersSent := true), "upstream_error");
    forall x: State, b: Body | !b.ResponseCompleted? && !b.ResponseFailed? ensures NoneEnded(x, Emit(x, b)) {
      EmitNoneEnded(x, b);
    }
  }

  lemma ChunkReported(decode: Decoder, persist: bool, s: State, data: string)
    requires Reported(persist, s)
    ensures Reported(persist, ProcessChunk(decode, persist, s, data))
  {
    hide Ended, Fail, ToolSteps, SayText;
    FailReported(persist, s, "parse_error");
    match decode(data).choices
    case None =>
    case Some(choices) =>
      if choices != [] {
        ToolStepsNoneEnded(s, choices[0].toolCalls);
        SayTextNoneEnded(s, choices[0].content);
      }
  }

  lemma LineReported(decode: Decoder, persist: bool, s: State, line: string)
    requires Reported(persist, s)
    ensures Reported(persist, ApplyLine(decode, persist, s, line))
  {
    hide Ended, Fail, Finalize, ProcessChunk, DataOf, ApplyEnvelope;
    FailReported(persist, s, "parse_error");
    FinalizeReported(persist, s);
    match DataOf(line)
    case None =>
    case Some(data) =>
      ChunkReported(decode, persist, s, data);
      match decode(data).envelope
      case None =>
      case Some(e) => ChunkReported(decode, persist, s.(response := ApplyEnvelope(s.response, e)), data);
  }

  lemma {:induction false} LinesReported(decode: Decoder, persist: bool, s: State, lines: seq<string>)
    requires Reported(persist, s)
    ensures Reported(persist, All(decode, persist, s, lines))
    decreases |lines|
  {
    hide ApplyLine, Reported;
    if lines != [] {
      LineReported(decode, persist, s, lines[0]);
      LinesReported(decode, persist, ApplyLine(decode, persist, s, lines[0]), lines[1..]);
    }
  }

  lemma {:induction false} RunReported(decode: Decoder, persist: bool, s: State, calls: seq<Call>)
    requires Reported(persist, s)
    ensures Reported(persist, Run(decode, persist, s, calls))
    decreases |calls|
  {
    hide Header, Write, Split, Ended;
    if calls != [] {
      match calls[0]
      case CallWriteHeader(code) =>
        HeaderReported(persist, s, code);
        RunReported(decode, persist, Header(persist, s, code), calls[1..]);
      case CallWrite(data) =>
        var f := Split("\n", s.buffer + data);
        HeaderReported(persist, s, OK);
        WriteIsAllKept(decode, persist, s, data);
        LinesReported(decode, persist, Header(persist, s, OK), Kept(decode, f.frames));
        RunReported(decode, persist, Write(decode, persist, s, data), calls[1..]);
    }
  }

  /**
   * In every run, whatever the status codes and the bytes: with storage asked for, the saved responses
   * are exactly those reported as completed or failed, in order; without it nothing is saved.
   */
  lemma SavedIsReported(decode: Decoder, persist: bool, r: Response, calls: seq<Call>)
    ensures var t := Run(decode, persist, Start(r), calls);
      t.saved == if persist then Ended(t.log) else []
  {
    assert Reported(persist, Start(r));
    RunReported(decode, persist, Start(r), calls);
  }

  /**
   * A payload that does not decode, as metadata or as a chunk, is reported by an error and the failed
   * response, and so is a bad status; nothing is said of items.
   */
  lemma FailureEvents(decode: Decoder, persist: bool, s: State, line: string, data: string)
    requires DataOf(line) == Some(data) && data != "" && data != DONE
    requires decode(data).envelope == None || decode(data).choices == None
    ensures var t := ApplyLine(decode, persist, s, line);
      && t.response.status == Failed && t.response.output == s.response.output
      && t.calls == s.calls && t.text == s.text
      && |t.log| == |s.log| + 2 && t.log[..|s.log|] == s.log
      && t.log[|s.log|].body == ErrorRaised("parse_error")
      && t.log[|s.log| + 1].body == ResponseFailed(t.response)
  {
    hide TrimSpace;
  }

  lemma BadStatusEvents(persist: bool, r: Response, code: int)
    requires code != 200
    ensures var t := Header(persist, Start(r), code);
      && t.log == [Event(1, ErrorRaised("upstream_error")), Event(2, ResponseFailed(r.(status := Failed)))]
      && (forall later :: Header(persist, t, later) == t)
      && t.saved == if persist then [r.(status := Failed)] else []
  {
    var s := Start(r).(headersSent := true, response := r.(status := Failed));
    assert [] + [Event(1, ErrorRaised("upstream_error"))] == [Event(1, ErrorRaised("upstream_error"))];
    assert [Event(1, ErrorRaised("upstream_error"))] + [Event(2, ResponseFailed(r.(status := Failed)))]
      == [Event(1, ErrorRaised("upstream_error")), Event(2, ResponseFailed(r.(status := Failed)))];
  }
}

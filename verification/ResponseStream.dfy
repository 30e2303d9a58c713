/**
 * The writer that turns an upstream chat-completion stream into Responses API events. `State` and
 * the functions on it say what one operation does; the class updates its fields in place and is
 * proved to do exactly that.
 */
module ResponseStream {
  import opened Prelude
  import opened Framing
  import opened ResponseTypes

  datatype State = State(
    buffer: string,
    headersSent: bool,
    number: int,
    response: Response,
    message: Option<Id>,
    text: string,
    calls: seq<Item>,
    minted: nat,
    log: seq<Event>,
    saved: seq<Response>)

  function Start(response: Response): State
  {
    State("", false, 0, response, None, "", [], 0, [], [])
  }

  function Emit(s: State, body: Body): State
  {
    s.(number := s.number + 1, log := s.log + [Event(s.number + 1, body)])
  }

  function SaveResponse(persist: bool, s: State): State
  {
    if persist then s.(saved := s.saved + [s.response]) else s
  }

  function Fail(persist: bool, s: State, code: string): State
  {
    var s1 := s.(response := s.response.(status := Failed));
    var s2 := Emit(s1, ErrorRaised(code));
    SaveResponse(persist, Emit(s2, ResponseFailed(s2.response)))
  }

  const OK: int := 200

  function Header(persist: bool, s: State, code: int): State
  {
    if s.headersSent then s
    else if code != OK then Fail(persist, s.(headersSent := true), "upstream_error")
    else
      var s1 := Emit(s.(headersSent := true), ResponseCreated(s.response));
      var s2 := s1.(response := s1.response.(status := InProgress));
      Emit(s2, ResponseInProgress(s2.response))
  }

  // ---- One data payload -------------------------------------------------------------------

  function FirstReason(reasons: seq<string>): string
  {
    if reasons == [] then "" else if reasons[0] != "" then reasons[0] else FirstReason(reasons[1..])
  }

  function ApplyReason(r: Response, reason: string): Response
  {
    if reason == "" then r
    else
      var r1 := r.(finishReason := reason);
      if reason == "stop" || reason == "tool_calls" then r1.(status := Completed)
      else if reason == "length" then
        r1.(status := Completed, incomplete := if r.incomplete == None then Some("max_tokens") else r.incomplete)
      else if reason == "content_filter" then
        r1.(status := Failed, error := if r.error == None then Some("content_filter") else r.error)
      else r1
  }

  function ApplyEnvelope(r: Response, e: Envelope): Response
  {
    ApplyReason(if r.usage == None then r.(usage := e.usage) else r, FirstReason(e.finishReasons))
  }

  function OpenMessage(s: State): State
  {
    var id := Minted(s.minted);
    var s1 := s.(minted := s.minted + 1, message := Some(id));
    Emit(Emit(s1, ItemAdded(Message(id, "", InProgress), 0)), PartAdded(id))
  }

  function SayText(s: State, content: string): State
  {
    var s1 := if s.message == None then OpenMessage(s) else s;
    Emit(s1.(text := s1.text + content), TextDelta(s1.message.value, content))
  }

  /** Index of the first call whose upstream id is `given`; |calls| when there is none. */
  function FindCall(calls: seq<Item>, given: string): (i: nat)
    ensures i <= |calls|
    ensures i < |calls| ==> calls[i].FunctionCall? && calls[i].callId == Given(given)
    ensures forall j :: 0 <= j < i ==> !(calls[j].FunctionCall? && calls[j].callId == Given(given))
  {
    if calls == [] then 0
    else if calls[0].FunctionCall? && calls[0].callId == Given(given) then 0
    else 1 + FindCall(calls[1..], given)
  }

  /** The call under its own id, or under a minted one when the upstream gave none. */
  function OpenCall(s: State, f: ToolFragment): State
  {
    var callId := if f.id == "" then Minted(s.minted) else Given(f.id);
    var base := if f.id == "" then s.minted + 1 else s.minted;
    var item := FunctionCall(Minted(base), callId, f.name, "", InProgress);
    var s1 := s.(minted := base + 1, calls := s.calls + [item]);
    Emit(s1, ItemAdded(item, |s1.calls| - 1))
  }

  function AddArguments(s: State, i: nat, arguments: string): State
    requires i < |s.calls| && s.calls[i].FunctionCall?
  {
    if arguments == "" then s
    else
      var item := s.calls[i].(arguments := s.calls[i].arguments + arguments);
      Emit(s.(calls := s.calls[i := item]), ArgsDelta(item.id, |s.calls| - 1, arguments))
  }

  function ToolStep(s: State, f: ToolFragment): State
  {
    var i := FindCall(s.calls, f.id);
    AddArguments(if i == |s.calls| then OpenCall(s, f) else s, i, f.arguments)
  }

  function ToolSteps(s: State, fs: seq<ToolFragment>): State
    decreases |fs|
  {
    if fs == [] then s else ToolSteps(ToolStep(s, fs[0]), fs[1..])
  }

  function ApplyDelta(s: State, d: Delta): State
  {
    if d.toolCalls != [] then ToolSteps(s, d.toolCalls)
    else if d.content != "" then SayText(s, d.content)
    else s
  }

  function ProcessChunk(decode: Decoder, persist: bool, s: State, data: string): State
  {
    match decode(data).choices
    case None => Fail(persist, s, "parse_error")
    case Some(choices) => if choices == [] then s else ApplyDelta(s, choices[0])
  }

  // ---- [DONE] -----------------------------------------------------------------------------

  function CloseMessage(s: State): State
  {
    match s.message
    case None => s
    case Some(id) =>
      var item := Message(id, s.text, Completed);
      var s1 := Emit(Emit(Emit(s, TextDone(id, s.text)), PartDone(id, s.text)), ItemDone(item, 0));
      s1.(response := s1.response.(output := s1.response.output + [item], outputText := s.text))
  }

  function CloseCall(s: State, call: Item, i: int): State
  {
    if !call.FunctionCall? then s
    else
      var item := FunctionCall(call.id, call.callId, call.name, call.arguments, Completed);
      var s1 := Emit(Emit(s, ArgsDone(call.id, i, call.arguments)), ItemDone(item, i));
      s1.(response := s1.response.(output := s1.response.output + [item]))
  }

  function CloseCalls(s: State, calls: seq<Item>): State
    decreases |calls|
  {
    if calls == [] then s
    else CloseCall(CloseCalls(s, calls[..|calls| - 1]), calls[|calls| - 1], |calls| - 1)
  }

  function Finalize(persist: bool, s: State): State
  {
    var s1 := CloseCalls(CloseMessage(s), s.calls);
    var s2 := s1.(response := s1.response.(status := Completed));
    SaveResponse(persist, Emit(s2, ResponseCompleted(s2.response)))
  }

  // ---- Lines ------------------------------------------------------------------------------

  const DONE := "[DONE]"

  predicate HasEnvelope(data: string)
  {
    data != "" && data != DONE
  }

  /** The envelope of this line does not decode: the rest of the current Write is skipped. */
  predicate Breaks(decode: Decoder, line: string)
  {
    match DataOf(line)
    case None => false
    case Some(data) => HasEnvelope(data) && decode(data).envelope == None
  }

  function ApplyLine(decode: Decoder, persist: bool, s: State, line: string): State
  {
    match DataOf(line)
    case None => s
    case Some(data) =>
      if Breaks(decode, line) then Fail(persist, s, "parse_error")
      else if data == DONE then Finalize(persist, s)
      else
        var s1 := if HasEnvelope(data)
                  then s.(response := ApplyEnvelope(s.response, decode(data).envelope.value))
                  else s;
        ProcessChunk(decode, persist, s1, data)
  }

  /** The lines of one Write: processing stops after the first line that breaks. */
  function ProcessLines(decode: Decoder, persist: bool, s: State, lines: seq<string>): State
    decreases |lines|
  {
    if lines == [] then s
    else
      var s1 := ApplyLine(decode, persist, s, lines[0]);
      if Breaks(decode, lines[0]) then s1 else ProcessLines(decode, persist, s1, lines[1..])
  }

  function Write(decode: Decoder, persist: bool, s: State, data: string): State
  {
    var s1 := Header(persist, s, OK);
    var f := Split("\n", s1.buffer + data);
    ProcessLines(decode, persist, s1.(buffer := f.rest), f.frames)
  }

  // ---- The writer -------------------------------------------------------------------------

  lemma BlankLineIsSilent(decode: Decoder, persist: bool, s: State, lines: seq<string>)
    ensures ProcessLines(decode, persist, s, lines + [""]) == ProcessLines(decode, persist, s, lines)
    decreases |lines|
  {
    if lines == [] {
      assert ([] + [""])[1..] == [];
      assert DataOf("") == None;
    } else {
      assert (lines + [""])[1..] == lines[1..] + [""];
      BlankLineIsSilent(decode, persist, ApplyLine(decode, persist, s, lines[0]), lines[1..]);
    }
  }

  class StreamingResponseWriter {
    const decode: Decoder
    const persist: bool
    var buffer: string
    var headersSent: bool
    var number: int
    var response: Response
    var message: Option<Id>
    var text: string
    var calls: seq<Item>
    var minted: nat
    var log: seq<Event>
    var saved: seq<Response>

    ghost function Abs(): State
      reads this
    {
      State(buffer, headersSent, number, response, message, text, calls, minted, log, saved)
    }

    ghost predicate Valid()
      reads this
    {
      forall i :: 0 <= i < |calls| ==> calls[i].FunctionCall?
    }

    constructor (decode: Decoder, response: Response, persist: bool)
      ensures this.decode == decode && this.persist == persist
      ensures Valid() && Abs() == Start(response)
    {
      this.decode, this.persist, this.response := decode, persist, response;
      buffer, headersSent, number, message, text, calls, minted, log, saved := "", false, 0, None, "", [], 0, [], [];
    }

    method SendEvent(body: Body)
      requires Valid()
      modifies this`number, this`log
      ensures Valid() && Abs() == Emit(old(Abs()), body)
    {
      number := number + 1;
      log := log + [Event(number, body)];
    }

    method FailWith(code: string)
      requires Valid()
      modifies this`number, this`log, this`response, this`saved
      ensures Valid() && Abs() == Fail(persist, old(Abs()), code)
    {
      response := response.(status := Failed);
      SendEvent(ErrorRaised(code));
      SendEvent(ResponseFailed(response));
      if persist {
        saved := saved + [response];
      }
    }

    method WriteHeader(code: int)
      requires Valid()
      modifies this
      ensures Valid() && Abs() == Header(persist, old(Abs()), code)
    {
      if headersSent {
        return;
      }
      headersSent := true;
      if code != OK {
        FailWith("upstream_error");
        return;
      }
      SendEvent(ResponseCreated(response));
      response := response.(status := InProgress);
      SendEvent(ResponseInProgress(response));
    }

    method WriteData(data: string) returns (n: nat)
      requires Valid()
      modifies this
      ensures Valid() && n == |data|
      ensures Abs() == Write(decode, persist, old(Abs()), data)
    {
      if !headersSent {
        WriteHeader(OK);
      }
      var lines := TakeLines(data);
      ProcessAll(lines);
      n := |data|;
    }

    /** Appends to the buffer and takes the complete lines out of it. */
    method TakeLines(data: string) returns (lines: seq<string>)
      requires Valid()
      modifies this`buffer
      ensures Valid()
      ensures var f := Split("\n", old(buffer) + data);
        && Abs() == old(Abs()).(buffer := f.rest)
        && (lines == f.frames || lines == f.frames + [""])
    {
      hide Split, HasSuffix;
      buffer := buffer + data;
      var bufferStr := buffer;
      lines := SplitAll(bufferStr, "\n");
      NewlineSuffix(bufferStr);
      if !HasSuffix(bufferStr, "\n") && |lines| > 0 {
        buffer := lines[|lines| - 1];
        lines := lines[..|lines| - 1];
      } else {
        buffer := "";
      }
    }

    method ProcessAll(lines: seq<string>)
      requires Valid()
      modifies this
      ensures Valid()
      ensures Abs() == ProcessLines(decode, persist, old(Abs()), lines)
      ensures forall ls :: lines == ls + [""] ==> Abs() == ProcessLines(decode, persist, old(Abs()), ls)
    {
      forall ls | lines == ls + [""] {
        BlankLineIsSilent(decode, persist, Abs(), ls);
      }
      var i := 0;
      while i < |lines|
        invariant 0 <= i <= |lines|
        invariant Valid()
        invariant ProcessLines(decode, persist, old(Abs()), lines) == ProcessLines(decode, persist, Abs(), lines[i..])
      {
        assert lines[i..][0] == lines[i] && lines[i..][1..] == lines[i + 1..];
        var stop := ProcessLine(lines[i]);
        if stop {
          return;
        }
        i := i + 1;
      }
    }

    method ProcessLine(rawLine: string) returns (stop: bool)
      requires Valid()
      modifies this
      ensures Valid()
      ensures Abs() == ApplyLine(decode, persist, old(Abs()), rawLine)
      ensures stop == Breaks(decode, rawLine)
    {
      var line := TrimSpace(rawLine);
      if !HasPrefix(line, DATA) {
        return false;
      }
      var dataStr := line[|DATA|..];
      if dataStr != "" && dataStr != DONE {
        var envelope := decode(dataStr).envelope;
        if envelope == None {
          FailWith("parse_error");
          return true;
        }
        CaptureEnvelope(envelope.value);
      }
      if dataStr == DONE {
        FinalizeStream();
        return false;
      }
      ProcessPayload(dataStr);
      return false;
    }

    method CaptureEnvelope(e: Envelope)
      requires Valid()
      modifies this`response
      ensures Valid()
      ensures Abs() == old(Abs()).(response := ApplyEnvelope(old(response), e))
    {
      if e.usage != None && response.usage == None {
        response := response.(usage := e.usage);
      }
      ghost var counted := response;
      var i := 0;
      while i < |e.finishReasons|
        invariant 0 <= i <= |e.finishReasons|
        invariant response == counted
        invariant FirstReason(e.finishReasons) == FirstReason(e.finishReasons[i..])
      {
        var reason := e.finishReasons[i];
        if reason != "" {
          response := response.(finishReason := reason);
          if reason == "stop" || reason == "tool_calls" {
            response := response.(status := Completed);
          } else if reason == "length" {
            response := response.(status := Completed);
            if response.incomplete == None {
              response := response.(incomplete := Some("max_tokens"));
            }
          } else if reason == "content_filter" {
            response := response.(status := Failed);
            if response.error == None {
              response := response.(error := Some("content_filter"));
            }
          }
          return;
        }
        i := i + 1;
      }
    }

    method ProcessPayload(data: string)
      requires Valid()
      modifies this
      ensures Valid() && Abs() == ProcessChunk(decode, persist, old(Abs()), data)
    {
      var chunk := decode(data).choices;
      if chunk == None {
        FailWith("parse_error");
        return;
      }
      if |chunk.value| == 0 {
        return;
      }
      var delta := chunk.value[0];
      if |delta.toolCalls| > 0 {
        HandleToolCallDelta(delta.toolCalls);
        return;
      }
      if delta.content != "" {
        HandleContentDelta(delta.content);
      }
    }

    method HandleContentDelta(content: string)
      requires Valid()
      modifies this
      ensures Valid() && Abs() == SayText(old(Abs()), content)
    {
      if message == None {
        message := Some(Minted(minted));
        minted := minted + 1;
        SendEvent(ItemAdded(Message(message.value, "", InProgress), 0));
        SendEvent(PartAdded(message.value));
      }
      text := text + content;
      SendEvent(TextDelta(message.value, content));
    }

    method HandleToolCallDelta(fragments: seq<ToolFragment>)
      requires Valid()
      modifies this
      ensures Valid() && Abs() == ToolSteps(old(Abs()), fragments)
    {
      var k := 0;
      while k < |fragments|
        invariant 0 <= k <= |fragments|
        invariant Valid()
        invariant ToolSteps(old(Abs()), fragments) == ToolSteps(Abs(), fragments[k..])
      {
        assert fragments[k..][0] == fragments[k] && fragments[k..][1..] == fragments[k + 1..];
        HandleFragment(fragments[k]);
        k := k + 1;
      }
    }

    method HandleFragment(tc: ToolFragment)
      requires Valid()
      modifies this
      ensures Valid() && Abs() == ToolStep(old(Abs()), tc)
    {
      var item := 0;
      while item < |calls| && calls[item].callId != Given(tc.id)
        invariant 0 <= item <= |calls|
        invariant forall j :: 0 <= j < item ==> calls[j].callId != Given(tc.id)
      {
        item := item + 1;
      }
      assert item == FindCall(calls, tc.id);
      hide FindCall;
      if item == |calls| {
        var callId := Given(tc.id);
        if tc.id == "" {
          callId := Minted(minted);
          minted := minted + 1;
        }
        var newItem := FunctionCall(Minted(minted), callId, tc.name, "", InProgress);
        minted := minted + 1;
        calls := calls + [newItem];
        SendEvent(ItemAdded(newItem, |calls| - 1));
      }
      if tc.arguments != "" {
        calls := calls[item := calls[item].(arguments := calls[item].arguments + tc.arguments)];
        SendEvent(ArgsDelta(calls[item].id, |calls| - 1, tc.arguments));
      }
    }

    /** The events that close the message, if there is one. */
    method FinishMessage()
      requires Valid()
      modifies this
      ensures Valid() && Abs() == CloseMessage(old(Abs()))
    {
      if message != None {
        SendEvent(TextDone(message.value, text));
        SendEvent(PartDone(message.value, text));
        SendEvent(ItemDone(Message(message.value, text, Completed), 0));
        response := response.(output := response.output + [Message(message.value, text, Completed)],
                              outputText := text);
      }
    }

    /** The events that close the calls, in the order in which they were opened. */
    method FinishCalls()
      requires Valid()
      modifies this
      ensures Valid() && Abs() == CloseCalls(old(Abs()), old(calls))
    {
      var i := 0;
      while i < |calls|
        invariant 0 <= i <= |calls|
        invariant calls == old(calls) && Valid()
        invariant Abs() == CloseCalls(old(Abs()), calls[..i])
      {
        var tc := calls[i];
        assert calls[..i + 1][..i] == calls[..i];
        SendEvent(ArgsDone(tc.id, i, tc.arguments));
        tc := FunctionCall(tc.id, tc.callId, tc.name, tc.arguments, Completed);
        SendEvent(ItemDone(tc, i));
        response := response.(output := response.output + [tc]);
        i := i + 1;
      }
      assert calls[..i] == calls;
    }

    method FinalizeStream()
      requires Valid()
      modifies this
      ensures Valid() && Abs() == Finalize(persist, old(Abs()))
    {
      hide CloseCalls;
      assert CloseMessage(Abs()).calls == calls;
      FinishMessage();
      FinishCalls();
      response := response.(status := Completed);
      SendEvent(ResponseCompleted(response));
      if persist {
        saved := saved + [response];
      }
    }
  }
}

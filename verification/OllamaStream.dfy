/**
 * The two writers that turn an upstream chat stream into Ollama's newline-delimited JSON: one for
 * /api/chat, one for /api/generate. Unlike the Responses writer they skip a payload that does not
 * decode and go on, so the way the bytes are cut never matters.
 */
module OllamaStream {
  import opened Prelude
  import opened Framing

  // Arguments arrive as JSON text; converting decodes the ones that hold an object.
  datatype Arguments = Text(json: string) | Object(json: string)
  datatype ToolCall = ToolCall(id: string, kind: string, name: string, arguments: Arguments, index: Option<nat>)
  datatype Choice = Choice(content: string, reasoning: string, toolCalls: seq<ToolCall>)

  datatype OllamaLine =
    | ChatLine(content: string, thinking: string, toolCalls: seq<ToolCall>)
    | GenerateLine(response: string, thinking: string)
    | FinalLine

  datatype Endpoint = Chat | Generate

  /** The abstract JSON decoders: a chunk's choices, and whether a text is a JSON object. */
  datatype Json = Json(choices: string -> Option<seq<Choice>>, isObject: string -> bool)

  // ---- Tool calls -------------------------------------------------------------------------

  function ConvertOne(json: Json, call: ToolCall, index: nat): ToolCall
  {
    var arguments := if call.arguments.Text? && call.arguments.json != "" && json.isObject(call.arguments.json)
                     then Object(call.arguments.json) else call.arguments;
    ToolCall(call.id, "", call.name, arguments, Some(index))
  }

  method ConvertToolCalls(json: Json, calls: seq<ToolCall>) returns (converted: seq<ToolCall>)
    ensures |converted| == |calls|
    ensures forall i :: 0 <= i < |calls| ==> converted[i] == ConvertOne(json, calls[i], i)
  {
    converted := [];
    var i := 0;
    while i < |calls|
      invariant 0 <= i <= |calls| && |converted| == i
      invariant forall j :: 0 <= j < i ==> converted[j] == ConvertOne(json, calls[j], j)
    {
      var tc := calls[i].(kind := "");
      if tc.arguments.Text? && tc.arguments.json != "" {
        if json.isObject(tc.arguments.json) {
          tc := tc.(arguments := Object(tc.arguments.json));
        }
      }
      converted := converted + [tc.(index := Some(i))];
      i := i + 1;
    }
  }

  // ---- What one line becomes --------------------------------------------------------------

  function Render(endpoint: Endpoint, json: Json, choices: seq<Choice>): OllamaLine
  {
    var c := if choices == [] then Choice("", "", []) else choices[0];
    match endpoint
    case Chat => ChatLine(c.content, c.reasoning, seq(|c.toolCalls|, i requires 0 <= i < |c.toolCalls| => ConvertOne(json, c.toolCalls[i], i)))
    case Generate => GenerateLine(c.content, c.reasoning)
  }

  function Translate(endpoint: Endpoint, json: Json, line: string): Option<OllamaLine>
  {
    match DataOf(line)
    case None => None
    case Some(data) =>
      if data == "[DONE]" then Some(FinalLine)
      else match json.choices(data)
           case None => None
           case Some(choices) => Some(Render(endpoint, json, choices))
  }

  /** One output line per input line that translates, in order. */
  function Emitted(endpoint: Endpoint, json: Json, lines: seq<string>): seq<OllamaLine>
  {
    if lines == [] then []
    else
      (match Translate(endpoint, json, lines[0]) case None => [] case Some(o) => [o])
      + Emitted(endpoint, json, lines[1..])
  }

  lemma {:induction false} EmittedAppend(endpoint: Endpoint, json: Json, a: seq<string>, b: seq<string>)
    ensures Emitted(endpoint, json, a + b) == Emitted(endpoint, json, a) + Emitted(endpoint, json, b)
  {
    if a == [] {
      assert a + b == b;
    } else {
      assert (a + b)[1..] == a[1..] + b;
      EmittedAppend(endpoint, json, a[1..], b);
    }
  }

  lemma EmittedBlank(endpoint: Endpoint, json: Json, lines: seq<string>)
    ensures Emitted(endpoint, json, lines + [""]) == Emitted(endpoint, json, lines)
  {
    EmittedAppend(endpoint, json, lines, [""]);
    assert Translate(endpoint, json, "") == None;
    assert [""][1..] == [];
    assert Emitted(endpoint, json, [""]) == [];
  }

  // ---- The writer -------------------------------------------------------------------------

  class StreamingWriter {
    const endpoint: Endpoint
    const json: Json
    var buffer: string
    var headersSent: bool
    var statuses: seq<int>
    var out: seq<OllamaLine>

    constructor (endpoint: Endpoint, json: Json)
      ensures this.endpoint == endpoint && this.json == json
      ensures buffer == "" && !headersSent && statuses == [] && out == []
    {
      this.endpoint, this.json := endpoint, json;
      buffer, headersSent, statuses, out := "", false, [], [];
    }

    method WriteHeader(code: int)
      modifies this`headersSent, this`statuses
      ensures headersSent && statuses == old(statuses) + [code]
    {
      headersSent := true;
      statuses := statuses + [code];
    }

    method Write(data: string) returns (n: nat)
      modifies this
      ensures n == |data| && headersSent
      ensures statuses == if old(headersSent) then old(statuses) else old(statuses) + [200]
      ensures var f := Split("\n", old(buffer) + data);
        buffer == f.rest && out == old(out) + Emitted(endpoint, json, f.frames)
    {
      if !headersSent {
        WriteHeader(200);
      }
      buffer := buffer + data;
      var bufferStr := buffer;
      var lines := SplitAll(bufferStr, "\n");
      NewlineSuffix(bufferStr);
      ghost var f := Split("\n", bufferStr);
      EmittedBlank(endpoint, json, f.frames);
      if |lines| > 0 && !HasSuffix(bufferStr, "\n") {
        buffer := lines[|lines| - 1];
        lines := lines[..|lines| - 1];
      } else {
        buffer := "";
      }
      assert Emitted(endpoint, json, lines) == Emitted(endpoint, json, f.frames);
      WriteLines(lines);
      n := |data|;
    }

    method WriteLines(lines: seq<string>)
      modifies this`out
      ensures out == old(out) + Emitted(endpoint, json, lines)
    {
      hide Translate;
      var i := 0;
      while i < |lines|
        invariant 0 <= i <= |lines|
        invariant out + Emitted(endpoint, json, lines[i..]) == old(out) + Emitted(endpoint, json, lines)
      {
        assert lines[i..][0] == lines[i] && lines[i..][1..] == lines[i + 1..];
        WriteLine(lines[i]);
        i := i + 1;
      }
    }

    /** One line: nothing, or one output line. */
    method WriteLine(rawLine: string)
      modifies this`out
      ensures out == old(out) + match Translate(endpoint, json, rawLine) case None => [] case Some(o) => [o]
    {
      var line := TrimSpace(rawLine);
      if HasPrefix(line, "data: ") {
        var dataStr := line[6..];
        if dataStr == "[DONE]" {
          out := out + [FinalLine];
        } else {
          var chunk := json.choices(dataStr);
          if chunk != None {
            var content, thinking, toolCalls := "", "", [];
            if |chunk.value| > 0 {
              content := chunk.value[0].content;
              thinking := chunk.value[0].reasoning;
              if endpoint == Chat && |chunk.value[0].toolCalls| > 0 {
                toolCalls := ConvertToolCalls(json, chunk.value[0].toolCalls);
              }
            }
            var o := if endpoint == Chat then ChatLine(content, thinking, toolCalls)
                     else GenerateLine(content, thinking);
            assert o == Render(endpoint, json, chunk.value);
            out := out + [o];
          }
        }
      }
    }
  }

  // ---- Any cut ----------------------------------------------------------------------------

  /** What a fresh writer has emitted, and what it still buffers, after these pieces. */
  function After(endpoint: Endpoint, json: Json, buffer: string, pieces: seq<string>): (seq<OllamaLine>, string)
    decreases |pieces|
  {
    if pieces == [] then ([], buffer)
    else
      var f := Split("\n", buffer + pieces[0]);
      var later := After(endpoint, json, f.rest, pieces[1..]);
      (Emitted(endpoint, json, f.frames) + later.0, later.1)
  }

  /**
   * For every byte stream, malformed payloads included, and every cut of it: one output line per
   * complete data line that decodes or is [DONE], in order, and the rest of the bytes buffered.
   */
  lemma {:induction false} AnyCut(endpoint: Endpoint, json: Json, buffer: string, pieces: seq<string>)
    requires IndexOf(buffer, "\n") == -1
    ensures var f := Split("\n", buffer + Concat(pieces));
      After(endpoint, json, buffer, pieces) == (Emitted(endpoint, json, f.frames), f.rest)
    decreases |pieces|
  {
    hide Split;
    CutIndependence("\n", buffer, pieces);
    AfterIsFeed(endpoint, json, buffer, pieces);
  }

  lemma {:induction false} AfterIsFeed(endpoint: Endpoint, json: Json, buffer: string, pieces: seq<string>)
    ensures After(endpoint, json, buffer, pieces)
         == (Emitted(endpoint, json, FeedAll("\n", buffer, pieces).frames), FeedAll("\n", buffer, pieces).rest)
    decreases |pieces|
  {
    if pieces != [] {
      hide Split;
      var f := Split("\n", buffer + pieces[0]);
      AfterIsFeed(endpoint, json, f.rest, pieces[1..]);
      EmittedAppend(endpoint, json, f.frames, FeedAll("\n", f.rest, pieces[1..]).frames);
    }
  }

  /** Driving the writer with pieces realises `After`. */
  method Drive(w: StreamingWriter, pieces: seq<string>)
    modifies w
    ensures pieces != [] ==> w.headersSent
    ensures var a := After(w.endpoint, w.json, old(w.buffer), pieces);
      w.out == old(w.out) + a.0 && w.buffer == a.1
  {
    hide Emitted, Split;
    var i := 0;
    while i < |pieces|
      invariant 0 <= i <= |pieces|
      invariant i > 0 ==> w.headersSent
      invariant var a := After(w.endpoint, w.json, old(w.buffer), pieces);
                var b := After(w.endpoint, w.json, w.buffer, pieces[i..]);
        w.out + b.0 == old(w.out) + a.0 && b.1 == a.1
    {
      assert pieces[i..][0] == pieces[i] && pieces[i..][1..] == pieces[i + 1..];
      var n := w.Write(pieces[i]);
      i := i + 1;
    }
  }

  // ---- Nothing said is lost ---------------------------------------------------------------

  function Answer(out: seq<OllamaLine>): string
  {
    if out == [] then ""
    else (match out[0] case ChatLine(c, _, _) => c case GenerateLine(r, _) => r case FinalLine => "") + Answer(out[1..])
  }

  /** The contents of the chunks that decode. */
  function Said(json: Json, lines: seq<string>): string
  {
    if lines == [] then ""
    else
      (match DataOf(lines[0])
       case None => ""
       case Some(data) =>
         if data == "[DONE]" then ""
         else match json.choices(data)
              case None => ""
              case Some(cs) => if cs == [] then "" else cs[0].content)
      + Said(json, lines[1..])
  }

  /** Both endpoints relay the same text: the concatenated contents of the chunks that decode. */
  lemma {:induction false} SameAnswer(endpoint: Endpoint, json: Json, lines: seq<string>)
    ensures Answer(Emitted(endpoint, json, lines)) == Said(json, lines)
  {
    if lines != [] {
      SameAnswer(endpoint, json, lines[1..]);
      match Translate(endpoint, json, lines[0])
      case None =>
        assert [] + Emitted(endpoint, json, lines[1..]) == Emitted(endpoint, json, lines[1..]);
      case Some(o) =>
        assert ([o] + Emitted(endpoint, json, lines[1..]))[1..] == Emitted(endpoint, json, lines[1..]);
    }
  }

  // ---- Whole streams ----------------------------------------------------------------------

  /** The i-th call as it is sent on: an object given as text is given as an object. */
  predicate SentOn(json: Json, call: ToolCall, i: nat, sent: ToolCall)
  {
    && sent.id == call.id && sent.name == call.name && sent.kind == "" && sent.index == Some(i)
    && sent.arguments.json == call.arguments.json
    && (sent.arguments.Object? <==>
        call.arguments.Object? || (call.arguments.json != "" && json.isObject(call.arguments.json)))
  }

  /** What one payload of the upstream stream leads to. */
  predicate Relays(endpoint: Endpoint, json: Json, payload: string, out: seq<OllamaLine>)
  {
    if payload == "[DONE]" then out == [FinalLine]
    else match json.choices(payload)
      case None => out == []
      case Some(choices) =>
        |out| == 1 &&
        match endpoint
        case Generate =>
          if choices == [] then out[0] == GenerateLine("", "")
          else out[0] == GenerateLine(choices[0].content, choices[0].reasoning)
        case Chat =>
          if choices == [] then out[0] == ChatLine("", "", [])
          else
            && out[0].ChatLine? && out[0].content == choices[0].content && out[0].thinking == choices[0].reasoning
            && |out[0].toolCalls| == |choices[0].toolCalls|
            && forall i :: 0 <= i < |choices[0].toolCalls| ==>
              SentOn(json, choices[0].toolCalls[i], i, out[0].toolCalls[i])
  }

  lemma OneRelay(endpoint: Endpoint, json: Json, payload: string) returns (out: seq<OllamaLine>)
    requires IsPayload(payload)
    ensures Relays(endpoint, json, payload, out)
    ensures Emitted(endpoint, json, [DATA + payload, ""]) == out
  {
    hide TrimSpace;
    assert "" + (DATA + payload) + "" == DATA + payload;
    DataOfExact("", payload, "");
    var line := Translate(endpoint, json, DATA + payload);
    out := match line case None => [] case Some(o) => [o];
    if payload != "[DONE]" && json.choices(payload) != None {
      var choices := json.choices(payload).value;
      assert out == [Render(endpoint, json, choices)];
      if endpoint == Chat && choices != [] {
        var calls := choices[0].toolCalls;
        forall i | 0 <= i < |calls| ensures SentOn(json, calls[i], i, out[0].toolCalls[i]) {
          assert out[0].toolCalls[i] == ConvertOne(json, calls[i], i);
        }
      }
    }
    EmittedBlank(endpoint, json, [DATA + payload]);
    assert [DATA + payload] + [""] == [DATA + payload, ""];
    EmittedOne(endpoint, json, DATA + payload);
  }

  lemma EmittedOne(endpoint: Endpoint, json: Json, line: string)
    ensures Emitted(endpoint, json, [line]) == match Translate(endpoint, json, line) case None => [] case Some(o) => [o]
  {
    hide Translate;
    var none: seq<string> := [];
    assert [line][1..] == none && Emitted(endpoint, json, none) == [];
  }

  lemma {:induction false} AllRelayed(endpoint: Endpoint, json: Json, payloads: seq<string>) returns (outs: seq<seq<OllamaLine>>)
    requires forall i :: 0 <= i < |payloads| ==> IsPayload(payloads[i])
    ensures |outs| == |payloads|
    ensures forall i :: 0 <= i < |payloads| ==> Relays(endpoint, json, payloads[i], outs[i])
    ensures Emitted(endpoint, json, SentLines(payloads)) == Concat(outs)
  {
    hide Relays;
    outs := [];
    if payloads != [] {
      var before, last := payloads[..|payloads| - 1], payloads[|payloads| - 1];
      var earlier := AllRelayed(endpoint, json, before);
      var out := OneRelay(endpoint, json, last);
      EmittedAppend(endpoint, json, SentLines(before), [DATA + last, ""]);
      ConcatSnoc(earlier, out);
      outs := earlier + [out];
    }
  }

  /**
   * However a stream of payloads is cut, the output is what each payload leads to, in the order of the
   * payloads, and nothing is left in the buffer.
   */
  lemma StreamRelayed(endpoint: Endpoint, json: Json, payloads: seq<string>, pieces: seq<string>)
    returns (outs: seq<seq<OllamaLine>>)
    requires forall i :: 0 <= i < |payloads| ==> IsPayload(payloads[i]) && '\n' !in payloads[i]
    requires Concat(pieces) == Sent(payloads)
    ensures |outs| == |payloads|
    ensures forall i :: 0 <= i < |payloads| ==> Relays(endpoint, json, payloads[i], outs[i])
    ensures After(endpoint, json, "", pieces) == (Concat(outs), "")
  {
    hide Relays, Split, SentLines, Emitted, IsPayload;
    outs := AllRelayed(endpoint, json, payloads);
    SentSplit(payloads);
    NoNewline("");
    AnyCut(endpoint, json, "", pieces);
    assert "" + Concat(pieces) == Sent(payloads);
  }
}

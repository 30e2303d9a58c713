/**
 * The gateway's translation of an Anthropic event stream into OpenAI chunks. Events are cut at a
 * blank line, that is at "\n\n"; the text arrives in pieces cut at character boundaries.
 */
module AnthropicStream {
  import opened Prelude
  import opened Framing

  datatype Delta = Delta(text: Option<string>, stopReason: Option<string>)
  datatype Event = Event(kind: string, messageId: Option<string>, delta: Option<Delta>)
  type Decoder = string -> Option<Event>

  datatype Out =
    | Chunk(id: string, role: Option<string>, content: Option<string>, finishReason: Option<string>)
    | DoneMark
    | StreamError

  datatype Arrival = Piece(text: string) | Broken

  const BLANK := "\n\n"

  // ---- One event --------------------------------------------------------------------------

  function StripReturn(line: string): string
  {
    if line != "" && line[|line| - 1] == '\r' then line[..|line| - 1] else line
  }

  /** The payloads of the lines that carry data, given the complete lines and the last one. */
  function DataLines(lines: seq<string>): seq<string>
  {
    if lines == [] then []
    else (if HasPrefix(lines[0], "data: ") then [lines[0][6..]] else []) + DataLines(lines[1..])
  }

  function StripReturns(lines: seq<string>): seq<string>
  {
    if lines == [] then [] else [StripReturn(lines[0])] + StripReturns(lines[1..])
  }

  /** str::lines: a carriage return before a newline belongs to the line end. */
  function Lines(text: string): seq<string>
  {
    var f := Split("\n", text);
    StripReturns(f.frames) + if f.rest == "" then [] else [f.rest]
  }

  function Join(parts: seq<string>): string
  {
    if parts == [] then "" else if |parts| == 1 then parts[0] else parts[0] + "\n" + Join(parts[1..])
  }

  function EventData(text: string): string
  {
    Join(DataLines(Lines(text)))
  }

  function EventOf(decode: Decoder, text: string): Option<Event>
  {
    var data := EventData(text);
    if data == "" || data == "[DONE]" then None else decode(data)
  }

  function MapReason(reason: string): string
  {
    if reason == "end_turn" then "stop" else if reason == "max_tokens" then "length" else reason
  }

  datatype Relayed = Relayed(out: seq<Out>, id: string)

  function RelayOne(decode: Decoder, id: string, text: string): Relayed
  {
    match EventOf(decode, text)
    case None => Relayed([], id)
    case Some(e) =>
      if e.kind == "message_start" then
        var id1 := match e.messageId case None => id case Some(m) => "chatcmpl-" + m;
        Relayed([Chunk(id1, Some("assistant"), None, None)], id1)
      else if e.kind == "content_block_delta" then
        match e.delta
        case None => Relayed([], id)
        case Some(d) => Relayed(if d.text == None then [] else [Chunk(id, None, d.text, None)], id)
      else if e.kind == "message_delta" then
        var reason := match e.delta
                      case None => None
                      case Some(d) => (match d.stopReason case None => None case Some(r) => Some(MapReason(r)));
        Relayed([Chunk(id, None, None, reason)], id)
      else if e.kind == "message_stop" then Relayed([DoneMark], id)
      else Relayed([], id)
  }

  function Relay(decode: Decoder, id: string, events: seq<string>): Relayed
    decreases |events|
  {
    if events == [] then Relayed([], id)
    else
      var first := RelayOne(decode, id, events[0]);
      var later := Relay(decode, first.id, events[1..]);
      Relayed(first.out + later.out, later.id)
  }

  lemma {:induction false} RelayAppend(decode: Decoder, id: string, a: seq<string>, b: seq<string>)
    ensures Relay(decode, id, a + b).out
         == Relay(decode, id, a).out + Relay(decode, Relay(decode, id, a).id, b).out
    ensures Relay(decode, id, a + b).id == Relay(decode, Relay(decode, id, a).id, b).id
    decreases |a|
  {
    hide RelayOne;
    if a == [] {
      assert a + b == b;
    } else {
      assert (a + b)[1..] == a[1..] + b;
      RelayAppend(decode, RelayOne(decode, id, a[0]).id, a[1..], b);
    }
  }

  // ---- The stream -------------------------------------------------------------------------

  /** The text received before the upstream connection broke, if it did. */
  function Received(arrivals: seq<Arrival>): string
  {
    if arrivals == [] || arrivals[0].Broken? then "" else arrivals[0].text + Received(arrivals[1..])
  }

  predicate Breaks(arrivals: seq<Arrival>)
  {
    exists i :: 0 <= i < |arrivals| && arrivals[i].Broken?
  }

  const FIRST_ID := "chatcmpl-stream"

  /** All that is emitted for a received text. */
  function Translation(decode: Decoder, text: string): seq<Out>
  {
    Relay(decode, FIRST_ID, Split(BLANK, text).frames).out
  }

  /**
   * Whatever the cut, the output is determined by the received text: the translation of its
   * complete events, then one error if the connection broke.
   */
  method TranslateStream(decode: Decoder, arrivals: seq<Arrival>) returns (out: seq<Out>)
    ensures out == Translation(decode, Received(arrivals)) + if Breaks(arrivals) then [StreamError] else []
  {
    hide Split, IndexOf, Relay;
    var buffer := "";
    var responseId := FIRST_ID;
    out := [];
    ghost var received := "";
    var i := 0;
    NothingYet(decode);
    while i < |arrivals|
      invariant 0 <= i <= |arrivals|
      invariant forall j :: 0 <= j < i ==> arrivals[j].Piece?
      invariant Received(arrivals) == received + Received(arrivals[i..])
      invariant buffer == Split(BLANK, received).rest
      invariant Relayed(out, responseId) == Relay(decode, FIRST_ID, Split(BLANK, received).frames)
    {
      assert arrivals[i..][0] == arrivals[i] && arrivals[i..][1..] == arrivals[i + 1..];
      if arrivals[i].Broken? {
        assert Received(arrivals) == received;
        out := out + [StreamError];
        return;
      }
      var text := arrivals[i].text;
      Feed(BLANK, received, text);
      RelayAppend(decode, FIRST_ID, Split(BLANK, received).frames, Split(BLANK, buffer + text).frames);
      var more;
      more, responseId, buffer := DrainEvents(decode, responseId, buffer + text);
      out := out + more;
      received := received + text;
      i := i + 1;
    }
    assert Received(arrivals) == received;
  }

  lemma NothingYet(decode: Decoder)
    ensures Split(BLANK, "") == Framed([], "")
    ensures Relay(decode, FIRST_ID, []) == Relayed([], FIRST_ID)
  {
  }

  /** Relaying the pending events is relaying the first one and then those that follow it. */
  lemma RelayFirst(decode: Decoder, id: string, pending: string)
    requires IndexOf(pending, BLANK) != -1
    ensures var i := IndexOf(pending, BLANK);
            var first := RelayOne(decode, id, pending[..i]);
            var later := Relay(decode, first.id, Split(BLANK, pending[i + 2..]).frames);
      && Relay(decode, id, Split(BLANK, pending).frames) == Relayed(first.out + later.out, later.id)
      && Split(BLANK, pending).rest == Split(BLANK, pending[i + 2..]).rest
  {
    hide IndexOf, RelayOne;
    SplitStep(BLANK, pending);
    var i := IndexOf(pending, BLANK);
    var frames := Split(BLANK, pending).frames;
    hide Split;
    assert frames[0] == pending[..i] && frames[1..] == Split(BLANK, pending[i + 2..]).frames;
  }

  /** The inner loop: takes complete events out of the buffer as long as there is one. */
  method DrainEvents(decode: Decoder, id: string, pending: string)
    returns (out: seq<Out>, responseId: string, buffer: string)
    ensures Relayed(out, responseId) == Relay(decode, id, Split(BLANK, pending).frames)
    ensures buffer == Split(BLANK, pending).rest
  {
    out, responseId, buffer := [], id, pending;
    var eventEnd := IndexOf(buffer, BLANK);
    ghost var all := Relay(decode, id, Split(BLANK, pending).frames);
    assert [] + all.out == all.out;
    while eventEnd != -1
      invariant eventEnd == IndexOf(buffer, BLANK)
      invariant Split(BLANK, pending).rest == Split(BLANK, buffer).rest
      invariant var later := Relay(decode, responseId, Split(BLANK, buffer).frames);
        all == Relayed(out + later.out, later.id)
      decreases |buffer|
    {
      hide IndexOf, RelayOne, Relay, Split;
      RelayFirst(decode, responseId, buffer);
      var eventText := buffer[..eventEnd];
      buffer := buffer[eventEnd + 2..];
      var more;
      ghost var before := out;
      more, responseId := EmitEvent(decode, responseId, eventText);
      out := out + more;
      ghost var later := Relay(decode, responseId, Split(BLANK, buffer).frames);
      assert before + (more + later.out) == out + later.out;
      eventEnd := IndexOf(buffer, BLANK);
    }
    assert Split(BLANK, buffer) == Framed([], buffer);
    assert out + [] == out;
  }

  /** The match on the event type. */
  method EmitEvent(decode: Decoder, id: string, eventText: string) returns (out: seq<Out>, responseId: string)
    ensures Relayed(out, responseId) == RelayOne(decode, id, eventText)
  {
    hide Split, Join;
    out, responseId := [], id;
    var eventData := EventData(eventText);
    if eventData == "" || eventData == "[DONE]" {
      return;
    }
    var decoded := decode(eventData);
    if decoded == None {
      return;
    }
    var event := decoded.value;
    if event.kind == "message_start" {
      if event.messageId != None {
        responseId := "chatcmpl-" + event.messageId.value;
      }
      out := [Chunk(responseId, Some("assistant"), None, None)];
    } else if event.kind == "content_block_delta" {
      if event.delta != None && event.delta.value.text != None {
        out := [Chunk(responseId, None, event.delta.value.text, None)];
      }
    } else if event.kind == "message_delta" {
      var reason := None;
      if event.delta != None && event.delta.value.stopReason != None {
        reason := Some(MapReason(event.delta.value.stopReason.value));
      }
      out := [Chunk(responseId, None, None, reason)];
    } else if event.kind == "message_stop" {
      out := [DoneMark];
    }
  }

  // ---- What the translation says ----------------------------------------------------------

  function Contents(out: seq<Out>): string
  {
    if out == [] then ""
    else (match out[0] case Chunk(_, _, Some(c), _) => c case _ => "") + Contents(out[1..])
  }

  /** The text deltas the upstream sent. */
  function Texts(decode: Decoder, events: seq<string>): string
  {
    if events == [] then ""
    else
      (match EventOf(decode, events[0])
       case Some(Event("content_block_delta", _, Some(Delta(Some(t), _)))) => t
       case _ => "")
      + Texts(decode, events[1..])
  }

  lemma {:induction false} ContentsAppend(a: seq<Out>, b: seq<Out>)
    ensures Contents(a + b) == Contents(a) + Contents(b)
  {
    if a == [] {
      assert a + b == b;
    } else {
      assert (a + b)[1..] == a[1..] + b;
      ContentsAppend(a[1..], b);
    }
  }

  /** The translated contents spell exactly the upstream's text deltas. */
  lemma {:induction false} ContentsAreTexts(decode: Decoder, id: string, events: seq<string>)
    ensures Contents(Relay(decode, id, events).out) == Texts(decode, events)
    decreases |events|
  {
    hide EventOf;
    if events != [] {
      var first := RelayOne(decode, id, events[0]);
      ContentsAreTexts(decode, first.id, events[1..]);
      ContentsAppend(first.out, Relay(decode, first.id, events[1..]).out);
      assert |first.out| <= 1;
      assert first.out == [] || first.out[1..] == [];
    }
  }

  /** The message id of the latest message_start that carried one; `id` when there is none. */
  function LatestId(decode: Decoder, id: string, events: seq<string>): string
  {
    if events == [] then id
    else match EventOf(decode, events[|events| - 1])
         case Some(Event("message_start", Some(m), _)) => "chatcmpl-" + m
         case _ => LatestId(decode, id, events[..|events| - 1])
  }

  lemma {:induction false} IdIsLatest(decode: Decoder, id: string, events: seq<string>)
    ensures Relay(decode, id, events).id == LatestId(decode, id, events)
  {
    hide EventOf;
    if events != [] {
      var n := |events| - 1;
      assert events == events[..n] + [events[n]];
      RelayAppend(decode, id, events[..n], [events[n]]);
      assert [events[n]][1..] == [];
      IdIsLatest(decode, id, events[..n]);
    }
  }

  /** The types that produce an output: all four, a text delta only when it has a text. */
  predicate Handled(decode: Decoder, text: string)
  {
    match EventOf(decode, text)
    case None => false
    case Some(e) =>
      || e.kind == "message_start" || e.kind == "message_delta" || e.kind == "message_stop"
      || (e.kind == "content_block_delta" && e.delta != None && e.delta.value.text != None)
  }

  /** One event's output: one if it is handled, under the id known once it has been read. */
  lemma OneContribution(decode: Decoder, before: seq<string>, text: string)
    ensures var one := RelayOne(decode, LatestId(decode, FIRST_ID, before), text);
      && |one.out| == (if Handled(decode, text) then 1 else 0)
      && one.id == LatestId(decode, FIRST_ID, before + [text])
      && forall o :: o in one.out && o.Chunk? ==> o.id == one.id
  {
    hide EventOf;
    var all := before + [text];
    assert all[|all| - 1] == text && all[..|all| - 1] == before;
  }

  /** The output, event by event: each contributes in its place and nothing else is emitted. */
  lemma EventContribution(decode: Decoder, before: seq<string>, text: string, after: seq<string>)
    ensures var one := RelayOne(decode, LatestId(decode, FIRST_ID, before), text);
      && Relay(decode, FIRST_ID, before + [text] + after).out
         == Relay(decode, FIRST_ID, before).out + one.out + Relay(decode, one.id, after).out
      && |one.out| == (if Handled(decode, text) then 1 else 0)
      && one.id == LatestId(decode, FIRST_ID, before + [text])
      && forall o :: o in one.out && o.Chunk? ==> o.id == one.id
  {
    hide RelayOne, Handled, LatestId;
    OneContribution(decode, before, text);
    IdIsLatest(decode, FIRST_ID, before);
    IdIsLatest(decode, FIRST_ID, before + [text]);
    RelayAppend(decode, FIRST_ID, before + [text], after);
    RelayAppend(decode, FIRST_ID, before, [text]);
    var one := RelayOne(decode, LatestId(decode, FIRST_ID, before), text);
    assert [text][1..] == [] && one.out + [] == one.out;
  }
}

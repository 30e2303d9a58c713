/**
 * From the text of the Anthropic stream to its translation: which text of an event is decoded, and
 * what each kind of event becomes.
 */
module AnthropicText {
  import opened Prelude
  import opened Framing
  import opened AnthropicStream

  /** A line of an event: `data: ` and a payload, or any other text. */
  datatype Line = Data(payload: string) | Other(text: string)

  predicate Plain(s: string)
  {
    '\n' !in s && (s != "" ==> s[|s| - 1] != '\r')
  }

  predicate LineOk(line: Line)
  {
    match line
    case Data(p) => Plain(p)
    case Other(t) => Plain(t) && t != "" && !HasPrefix(t, "data: ")
  }

  function LineText(line: Line): string
  {
    match line case Data(p) => "data: " + p case Other(t) => t
  }

  /** Texts joined by newlines, from the last one back. */
  function Joined(parts: seq<string>): string
  {
    if parts == [] then "" else if |parts| == 1 then parts[0]
    else Joined(parts[..|parts| - 1]) + "\n" + parts[|parts| - 1]
  }

  function Texts(lines: seq<Line>): (ts: seq<string>)
    ensures |ts| == |lines| && forall i :: 0 <= i < |ts| ==> ts[i] == LineText(lines[i])
  {
    seq(|lines|, i requires 0 <= i < |lines| => LineText(lines[i]))
  }

  function Payloads(lines: seq<Line>): seq<string>
  {
    if lines == [] then []
    else
      Payloads(lines[..|lines| - 1]) + if lines[|lines| - 1].Data? then [lines[|lines| - 1].payload] else []
  }

  /** The text of an event that has these lines. */
  function EventText(lines: seq<Line>): string
  {
    Joined(Texts(lines))
  }

  lemma {:induction false} JoinSnoc(parts: seq<string>, x: string)
    ensures Join(parts + [x]) == if parts == [] then x else Join(parts) + "\n" + x
  {
    var all := parts + [x];
    if parts != [] {
      assert all[0] == parts[0] && all[1..] == parts[1..] + [x];
      JoinSnoc(parts[1..], x);
      if |parts| > 1 {
        assert parts[0] + "\n" + (Join(parts[1..]) + "\n" + x) == parts[0] + "\n" + Join(parts[1..]) + "\n" + x;
      } else {
        assert parts[1..] == [] && all[1..] == [x];
      }
    }
  }

  lemma {:induction false} JoinIsJoined(parts: seq<string>)
    ensures Join(parts) == Joined(parts)
  {
    if |parts| > 1 {
      var n := |parts| - 1;
      JoinIsJoined(parts[..n]);
      JoinSnoc(parts[..n], parts[n]);
      assert parts == parts[..n] + [parts[n]];
    }
  }

  lemma {:induction false} DataLinesAppend(a: seq<string>, b: seq<string>)
    ensures DataLines(a + b) == DataLines(a) + DataLines(b)
  {
    if a == [] {
      assert a + b == b;
    } else {
      assert (a + b)[1..] == a[1..] + b;
      DataLinesAppend(a[1..], b);
    }
  }

  lemma DataLinesOne(line: Line)
    requires LineOk(line)
    ensures DataLines([LineText(line)]) == if line.Data? then [line.payload] else []
  {
    var t := LineText(line);
    var one: seq<string> := [t];
    assert |one[1..]| == 0;
    if line.Data? {
      assert t[6..] == line.payload;
    }
  }

  lemma {:induction false} DataLinesExact(lines: seq<Line>)
    requires forall i :: 0 <= i < |lines| ==> LineOk(lines[i])
    ensures DataLines(Texts(lines)) == Payloads(lines)
  {
    hide LineOk;
    if lines != [] {
      var n := |lines| - 1;
      DataLinesExact(lines[..n]);
      DataLinesAppend(Texts(lines[..n]), [LineText(lines[n])]);
      DataLinesOne(lines[n]);
      assert Texts(lines) == Texts(lines[..n]) + [LineText(lines[n])];
    }
  }

  lemma {:induction false} StripReturnsNone(lines: seq<string>)
    requires forall i :: 0 <= i < |lines| ==> Plain(lines[i])
    ensures StripReturns(lines) == lines
  {
    if lines != [] {
      StripReturnsNone(lines[1..]);
    }
  }

  /** Lines joined by newlines: the terminated ones, then the last one. */
  lemma {:induction false} JoinedIsTerminated(parts: seq<string>, last: string)
    ensures Joined(parts + [last]) == Terminated("\n", parts) + last
  {
    var all := parts + [last];
    if parts != [] {
      var n := |parts| - 1;
      assert all[..|all| - 1] == parts && all[|all| - 1] == last;
      JoinedIsTerminated(parts[..n], parts[n]);
      assert parts[..n] + [parts[n]] == parts;
      TerminatedAppend("\n", parts[..n], [parts[n]]);
      TerminatedStep("\n", parts[n], []);
      TerminatedNone("\n");
      assert [parts[n]] + [] == [parts[n]];
      assert Terminated("\n", parts[..n]) + parts[n] + "\n" + last == Terminated("\n", parts[..n]) + (parts[n] + "\n") + last;
    } else {
      assert all == [last];
    }
  }

  lemma LinePlain(line: Line)
    requires LineOk(line)
    ensures Plain(LineText(line)) && LineText(line) != ""
  {
  }

  lemma PlainSplit(parts: seq<string>)
    requires forall i :: 0 <= i < |parts| ==> Plain(parts[i])
    ensures forall i :: 0 <= i < |parts| ==> IndexOf(parts[i], "\n") == -1
  {
    hide IndexOf;
    forall i | 0 <= i < |parts| ensures IndexOf(parts[i], "\n") == -1 {
      NoNewline(parts[i]);
    }
  }

  lemma SplitJoined(parts: seq<string>, last: string)
    requires Plain(last) && forall i :: 0 <= i < |parts| ==> Plain(parts[i])
    ensures Split("\n", Joined(parts + [last])) == Framed(parts, last)
  {
    hide *;
    JoinedIsTerminated(parts, last);
    PlainSplit(parts);
    PlainSplit([last]);
    assert [last][0] == last;
    SplitUnique(parts, last);
  }

  lemma LinesOfText(parts: seq<string>, last: string)
    requires Plain(last) && last != "" && forall i :: 0 <= i < |parts| ==> Plain(parts[i])
    ensures Lines(Joined(parts + [last])) == parts + [last]
  {
    hide Split, Joined, Plain, StripReturns;
    SplitJoined(parts, last);
    StripReturnsNone(parts);
  }

  /**
   * The text that is decoded is the payloads of the event's data lines in order, joined by newlines;
   * lines without the prefix, such as the event's name, change nothing.
   */
  lemma EventDataExact(lines: seq<Line>)
    requires forall i :: 0 <= i < |lines| ==> LineOk(lines[i])
    ensures EventData(EventText(lines)) == Joined(Payloads(lines))
  {
    if lines == [] {
      NoLines();
    } else {
      var n := |lines| - 1;
      TextsPlain(lines);
      hide Lines, DataLines, Join, Joined, Payloads, Plain, LineOk, LineText, Texts;
      LinesOfText(Texts(lines[..n]), LineText(lines[n]));
      DataLinesExact(lines);
      JoinIsJoined(Payloads(lines));
    }
  }

  lemma NoLines()
    ensures EventData(EventText([])) == Joined(Payloads([]))
  {
    assert Split("\n", "") == Framed([], "");
  }

  lemma TextsPlain(lines: seq<Line>)
    requires lines != [] && forall i :: 0 <= i < |lines| ==> LineOk(lines[i])
    ensures var n := |lines| - 1;
      && Texts(lines) == Texts(lines[..n]) + [LineText(lines[n])]
      && Plain(LineText(lines[n])) && LineText(lines[n]) != ""
      && forall i :: 0 <= i < n ==> Plain(Texts(lines[..n])[i])
  {
    hide LineOk, Plain, LineText;
    var n := |lines| - 1;
    LinePlain(lines[n]);
    forall i | 0 <= i < n ensures Plain(Texts(lines[..n])[i]) {
      LinePlain(lines[i]);
    }
  }

  // ---- Carriage crs -------------------------------------------------------------------

  /** The same lines, some of them with a carriage return before their newline. */
  function WithReturns(parts: seq<string>, crs: seq<bool>): (r: seq<string>)
    requires |parts| == |crs|
    ensures |r| == |parts|
  {
    if parts == [] then []
    else [parts[0] + if crs[0] then "\r" else ""] + WithReturns(parts[1..], crs[1..])
  }

  lemma {:induction false} ReturnsStripped(parts: seq<string>, crs: seq<bool>)
    requires |parts| == |crs| && forall i :: 0 <= i < |parts| ==> Plain(parts[i])
    ensures StripReturns(WithReturns(parts, crs)) == parts
    ensures forall i :: 0 <= i < |parts| ==> '\n' !in WithReturns(parts, crs)[i]
  {
    if parts != [] {
      ReturnsStripped(parts[1..], crs[1..]);
      var one := parts[0] + if crs[0] then "\r" else "";
      assert one[..|parts[0]|] == parts[0];
      assert StripReturn(one) == parts[0];
      assert WithReturns(parts, crs)[1..] == WithReturns(parts[1..], crs[1..]);
    }
  }

  lemma LinesOfReturns(parts: seq<string>, crs: seq<bool>, last: string)
    requires |parts| == |crs| && forall i :: 0 <= i < |parts| ==> Plain(parts[i])
    requires Plain(last) && last != ""
    ensures Lines(Terminated("\n", WithReturns(parts, crs)) + last) == parts + [last]
  {
    hide Split, IndexOf, Terminated, StripReturns, WithReturns;
    var raw := WithReturns(parts, crs);
    ReturnsStripped(parts, crs);
    forall i | 0 <= i < |raw| ensures IndexOf(raw[i], "\n") == -1 {
      NoNewline(raw[i]);
    }
    NoNewline(last);
    SplitUnique(raw, last);
  }

  /** A carriage return before a newline belongs to the line end: the data is the same without it. */
  lemma ReturnsDoNotMatter(lines: seq<Line>, crs: seq<bool>)
    requires |lines| == |crs| + 1 && forall i :: 0 <= i < |lines| ==> LineOk(lines[i])
    ensures var n := |lines| - 1;
      EventData(Terminated("\n", WithReturns(Texts(lines[..n]), crs)) + LineText(lines[n])) == Joined(Payloads(lines))
  {
    var n := |lines| - 1;
    TextsPlain(lines);
    hide Lines, DataLines, Join, Joined, Payloads, Plain, LineOk, LineText, Texts, WithReturns, Terminated;
    LinesOfReturns(Texts(lines[..n]), crs, LineText(lines[n]));
    DataLinesExact(lines);
    JoinIsJoined(Payloads(lines));
  }

  // ---- A stream of events -----------------------------------------------------------------

  predicate EventOk(lines: seq<Line>)
  {
    lines != [] && forall i :: 0 <= i < |lines| ==> LineOk(lines[i])
  }

  function StreamText(events: seq<seq<Line>>): string
    requires forall i :: 0 <= i < |events| ==> EventOk(events[i])
  {
    if events == [] then ""
    else StreamText(events[..|events| - 1]) + (EventText(events[|events| - 1]) + BLANK)
  }

  function EventTexts(events: seq<seq<Line>>): (ts: seq<string>)
    ensures |ts| == |events| && forall i :: 0 <= i < |ts| ==> ts[i] == EventText(events[i])
  {
    seq(|events|, i requires 0 <= i < |events| => EventText(events[i]))
  }

  /** No two newlines in a row, and none at either end. */
  ghost predicate NoBlank(s: string)
  {
    && s != "" && s[0] != '\n' && s[|s| - 1] != '\n'
    && forall j, k :: 0 <= j && k == j + 1 && k < |s| ==> !(s[j] == '\n' && s[k] == '\n')
  }

  lemma NoBlankJoin(a: string, b: string)
    requires NoBlank(a) && b != "" && '\n' !in b
    ensures NoBlank(a + "\n" + b)
  {
    var s := a + "\n" + b;
    assert s[|s| - 1] == b[|b| - 1];
    forall j, k | 0 <= j && k == j + 1 && k < |s| ensures !(s[j] == '\n' && s[k] == '\n') {
      assert k < |a| ==> s[j] == a[j] && s[k] == a[k];
      assert j == |a| - 1 ==> s[j] == a[|a| - 1];
      assert k > |a| ==> s[k] == b[k - |a| - 1];
    }
  }

  lemma {:induction false} EventNoBlank(lines: seq<Line>)
    requires EventOk(lines)
    ensures NoBlank(EventText(lines))
  {
    hide NoBlank, LineOk;
    var n := |lines| - 1;
    LinePlain(lines[n]);
    assert Texts(lines)[..n] == Texts(lines[..n]);
    if n > 0 {
      EventNoBlank(lines[..n]);
      NoBlankJoin(EventText(lines[..n]), LineText(lines[n]));
    } else {
      OneLineNoBlank(LineText(lines[n]));
    }
  }

  lemma OneLineNoBlank(s: string)
    requires s != "" && '\n' !in s
    ensures NoBlank(s)
  {
  }

  /** An event without a blank line in it, ended by one, is the next frame. */
  lemma NextEvent(s: string)
    requires NoBlank(s)
    ensures Split(BLANK, s + BLANK) == Framed([s], "")
  {
    var t := s + BLANK;
    assert t[|s|..|s| + 2] == BLANK;
    assert At(t, BLANK, |s|);
    IndexOfFirst(t, BLANK);
    var i := IndexOf(t, BLANK);
    assert t[i] == t[i..i + 2][0] && t[i + 1] == t[i..i + 2][1];
    assert forall k :: 0 <= k < |s| ==> t[k] == s[k];
    assert i == |s|;
    SplitStep(BLANK, t);
    assert t[..i] == s && t[i + 2..] == "";
    assert Split(BLANK, "") == Framed([], "");
  }

  lemma EventTextsNext(events: seq<seq<Line>>, event: seq<Line>)
    ensures EventTexts(events + [event]) == EventTexts(events) + [EventText(event)]
  {
    hide EventText;
    var all: seq<seq<Line>> := events + [event];
    assert forall i :: 0 <= i < |events| ==> all[i] == events[i];
  }

  lemma NoEvents()
    ensures Split(BLANK, StreamText([])) == Framed(EventTexts([]), "")
  {
    assert Split(BLANK, "") == Framed([], "");
  }

  lemma {:induction false} StreamSplit(events: seq<seq<Line>>)
    requires forall i :: 0 <= i < |events| ==> EventOk(events[i])
    ensures Split(BLANK, StreamText(events)) == Framed(EventTexts(events), "")
  {
    hide EventOk, EventText, EventTexts, Split, IndexOf, Terminated;
    if events == [] {
      NoEvents();
    } else {
      var n := |events| - 1;
      var text := EventText(events[n]);
      StreamSplit(events[..n]);
      assert events == events[..n] + [events[n]];
      EventTextsNext(events[..n], events[n]);
      EventNoBlank(events[n]);
      NextEvent(text);
      Feed(BLANK, StreamText(events[..n]), text + BLANK);
      assert "" + (text + BLANK) == text + BLANK;
    }
  }

  // ---- What each event becomes ------------------------------------------------------------

  /** The decoded event: none for no data, for [DONE] and for data that does not decode. */
  function Decoded(decode: Decoder, lines: seq<Line>): Option<Event>
  {
    var data := Joined(Payloads(lines));
    if data == "" || data == "[DONE]" then None else decode(data)
  }

  /** Whether an output is what an event should become, under the id in force after it. */
  ghost predicate Becomes(event: Option<Event>, id: string, out: seq<Out>)
  {
    match event
    case None => out == []
    case Some(e) =>
      && (e.kind == "message_start" ==> out == [Chunk(id, Some("assistant"), None, None)])
      && (e.kind == "content_block_delta" ==>
            if e.delta != None && e.delta.value.text != None
            then out == [Chunk(id, None, e.delta.value.text, None)] else out == [])
      && (e.kind == "message_delta" ==>
            |out| == 1 && out[0].Chunk? && out[0].id == id && out[0].role == None && out[0].content == None
            && (if e.delta == None || e.delta.value.stopReason == None then out[0].finishReason == None
                else if e.delta.value.stopReason == Some("end_turn") then out[0].finishReason == Some("stop")
                else if e.delta.value.stopReason == Some("max_tokens") then out[0].finishReason == Some("length")
                else out[0].finishReason == e.delta.value.stopReason))
      && (e.kind == "message_stop" ==> out == [DoneMark])
      && (e.kind !in {"message_start", "content_block_delta", "message_delta", "message_stop"} ==> out == [])
  }

  /** The id after an event: that of a message_start that carries one, else the one before. */
  function IdAfter(event: Option<Event>, id: string): string
  {
    match event
    case None => id
    case Some(e) => if e.kind == "message_start" && e.messageId != None then "chatcmpl-" + e.messageId.value else id
  }

  lemma RelayOneExact(decode: Decoder, id: string, lines: seq<Line>)
    requires EventOk(lines)
    ensures var one := RelayOne(decode, id, EventText(lines));
      Becomes(Decoded(decode, lines), IdAfter(Decoded(decode, lines), id), one.out)
      && one.id == IdAfter(Decoded(decode, lines), id)
  {
    EventDataExact(lines);
    hide EventData, EventText, Joined, Payloads;
  }

  /** The outputs of a stream, event by event: `outs[k]` is what event k becomes. */
  ghost predicate Translates(decode: Decoder, id: string, events: seq<seq<Line>>, outs: seq<seq<Out>>)
    decreases |events|
  {
    && |outs| == |events|
    && (events != [] ==>
          var event := Decoded(decode, events[0]);
          Becomes(event, IdAfter(event, id), outs[0])
          && Translates(decode, IdAfter(event, id), events[1..], outs[1..]))
  }

  lemma {:induction false} RelayExact(decode: Decoder, id: string, events: seq<seq<Line>>) returns (outs: seq<seq<Out>>)
    requires forall i :: 0 <= i < |events| ==> EventOk(events[i])
    ensures Translates(decode, id, events, outs)
    ensures Relay(decode, id, EventTexts(events)).out == Concat(outs)
    decreases |events|
  {
    hide RelayOne, EventText, EventOk, Becomes, Decoded, IdAfter;
    if events == [] {
      outs := [];
    } else {
      RelayOneExact(decode, id, events[0]);
      var first := RelayOne(decode, id, EventText(events[0]));
      var later := RelayExact(decode, first.id, events[1..]);
      outs := [first.out] + later;
      assert EventTexts(events)[1..] == EventTexts(events[1..]);
      assert outs[1..] == later;
    }
  }

  /**
   * A stream given by its events, each a list of lines: the translation is what each event becomes,
   * one after the other.
   */
  lemma TranslationExact(decode: Decoder, events: seq<seq<Line>>) returns (outs: seq<seq<Out>>)
    requires forall i :: 0 <= i < |events| ==> EventOk(events[i])
    ensures Translates(decode, FIRST_ID, events, outs)
    ensures Translation(decode, StreamText(events)) == Concat(outs)
  {
    hide Relay, Split;
    StreamSplit(events);
    outs := RelayExact(decode, FIRST_ID, events);
  }

  lemma TwoLines(a: Line, b: Line)
    ensures EventText([a, b]) == LineText(a) + "\n" + LineText(b)
    ensures Payloads([a, b]) == (if a.Data? then [a.payload] else []) + if b.Data? then [b.payload] else []
  {
    hide LineText;
    var lines, first := [a, b], [a];
    var texts := [LineText(a), LineText(b)];
    assert Texts(lines) == texts && texts[..1] == [LineText(a)];
    assert Joined([LineText(a)]) == LineText(a);
    assert lines[..1] == first && |first[..0]| == 0;
    assert Payloads(first) == Payloads(first[..0]) + if a.Data? then [a.payload] else [];
    assert Payloads(first[..0]) == [];
    assert Payloads(lines) == Payloads(first) + if b.Data? then [b.payload] else [];
  }

  lemma OneEvent(decode: Decoder, event: seq<Line>)
    requires EventOk(event)
    ensures Becomes(Decoded(decode, event), IdAfter(Decoded(decode, event), FIRST_ID), Translation(decode, EventText(event) + BLANK))
  {
    hide Translation, EventText, EventOk, Becomes, Decoded, IdAfter;
    var events: seq<seq<Line>> := [event];
    assert |events[..0]| == 0 && |events[1..]| == 0;
    assert StreamText(events[..0]) == "";
    assert StreamText(events) == StreamText(events[..0]) + (EventText(event) + BLANK);
    assert "" + (EventText(event) + BLANK) == EventText(event) + BLANK;
    var outs := TranslationExact(decode, events);
    assert |outs[1..]| == 0;
    assert Concat(outs[1..]) == [];
    assert Concat(outs) == outs[0] + [] == outs[0];
  }

  /** A text delta as the upstream sends it: a line that names the event, then its data. */
  lemma TextDeltaRelayed(decode: Decoder, name: string, json: string, text: string)
    requires LineOk(Other(name)) && Plain(json) && json != "" && json != "[DONE]"
    requires decode(json) == Some(Event("content_block_delta", None, Some(Delta(Some(text), None))))
    ensures Translation(decode, name + "\n" + ("data: " + json) + BLANK) == [Chunk(FIRST_ID, None, Some(text), None)]
  {
    var event := [Other(name), Data(json)];
    TwoLines(Other(name), Data(json));
    assert [] + [json] == [json];
    assert Joined([json]) == json;
    hide Translation, EventText, Joined, Payloads, Plain;
    OneEvent(decode, event);
  }
}

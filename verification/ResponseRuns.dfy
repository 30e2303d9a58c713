/**
 * What a reader of the outgoing event stream can rely on: gapless numbering in every run, and,
 * in a run with status 200, well-formed payloads and one final [DONE], the complete life of every
 * item and an Output that is exactly what the upstream said.
 */
module ResponseRuns {
  import opened Prelude
  import opened Framing
  import opened ResponseTypes
  import opened ResponseStream
  import opened ResponseCuts
  import opened ResponseMetadata

  // ---- What holds in every run ------------------------------------------------------------

  ghost predicate Numbered(s: State)
  {
    && s.number == |s.log|
    && forall i :: 0 <= i < |s.log| ==> s.log[i].number == i + 1
  }

  /** Gapless numbers, and every response, saved or current, keeps its id and its predecessor. */
  ghost predicate Steady(s: State, r: Response)
  {
    && Numbered(s)
    && s.response.id == r.id
    && s.response.previous == r.previous
    && forall i :: 0 <= i < |s.saved| ==> s.saved[i].id == r.id && s.saved[i].previous == r.previous
  }

  datatype Call = CallWriteHeader(code: int) | CallWrite(data: string)

  function Run(decode: Decoder, persist: bool, s: State, calls: seq<Call>): State
    decreases |calls|
  {
    if calls == [] then s
    else
      var s1 := match calls[0]
                case CallWriteHeader(code) => Header(persist, s, code)
                case CallWrite(data) => Write(decode, persist, s, data);
      Run(decode, persist, s1, calls[1..])
  }

  lemma {:induction false} SteadyTools(s: State, fs: seq<ToolFragment>, r: Response)
    requires Steady(s, r)
    ensures Steady(ToolSteps(s, fs), r)
    decreases |fs|
  {
    if fs != [] {
      SteadyTools(ToolStep(s, fs[0]), fs[1..], r);
    }
  }

  lemma {:induction false} SteadyCloseCalls(s: State, calls: seq<Item>, r: Response)
    requires Steady(s, r)
    ensures Steady(CloseCalls(s, calls), r)
    decreases |calls|
  {
    if calls != [] {
      SteadyCloseCalls(s, calls[..|calls| - 1], r);
    }
  }

  lemma SteadyFinalize(persist: bool, s: State, r: Response)
    requires Steady(s, r)
    ensures Steady(Finalize(persist, s), r)
  {
    var s0 := CloseMessage(s);
    assert Steady(s0, r);
    SteadyCloseCalls(s0, s.calls, r);
    hide CloseCalls, CloseMessage;
  }

  lemma SteadyChunk(decode: Decoder, persist: bool, s: State, data: string, r: Response)
    requires Steady(s, r)
    ensures Steady(ProcessChunk(decode, persist, s, data), r)
  {
    match decode(data).choices
    case None =>
    case Some(choices) =>
      if choices != [] {
        SteadyTools(s, choices[0].toolCalls, r);
      }
  }

  lemma SteadyLine(decode: Decoder, persist: bool, s: State, line: string, r: Response)
    requires Steady(s, r)
    ensures Steady(ApplyLine(decode, persist, s, line), r)
  {
    hide Finalize, ProcessChunk;
    SteadyFinalize(persist, s, r);
    match DataOf(line)
    case None =>
    case Some(data) =>
      if !Breaks(decode, line) && data != DONE {
        var s1 := if HasEnvelope(data)
                  then s.(response := ApplyEnvelope(s.response, decode(data).envelope.value))
                  else s;
        SteadyChunk(decode, persist, s1, data, r);
      }
  }

  lemma {:induction false} SteadyLines(decode: Decoder, persist: bool, s: State, lines: seq<string>, r: Response)
    requires Steady(s, r)
    ensures Steady(All(decode, persist, s, lines), r)
    decreases |lines|
  {
    if lines != [] {
      SteadyLine(decode, persist, s, lines[0], r);
      hide ApplyLine;
      SteadyLines(decode, persist, ApplyLine(decode, persist, s, lines[0]), lines[1..], r);
    }
  }

  /**
   * In every run, whatever the status codes and the bytes, events are numbered 1, 2, 3, ... and
   * whatever is saved keeps the id and the predecessor the handler chose.
   */
  lemma {:induction false} AlwaysSteady(decode: Decoder, persist: bool, s: State, calls: seq<Call>, r: Response)
    requires Steady(s, r)
    ensures Steady(Run(decode, persist, s, calls), r)
    decreases |calls|
  {
    if calls != [] {
      match calls[0]
      case CallWriteHeader(code) =>
        AlwaysSteady(decode, persist, Header(persist, s, code), calls[1..], r);
      case CallWrite(data) =>
        WriteIsAllKept(decode, persist, s, data);
        hide Write;
        var f := Split("\n", s.buffer + data);
        SteadyLines(decode, persist, Header(persist, s, OK), Kept(decode, f.frames), r);
        AlwaysSteady(decode, persist, Write(decode, persist, s, data), calls[1..], r);
    }
  }

  // ---- The life of one item ---------------------------------------------------------------

  predicate Concerns(b: Body, id: Id)
  {
    match b
    case ItemAdded(item, _) => item.id == id
    case ItemDone(item, _) => item.id == id
    case PartAdded(i) => i == id
    case TextDelta(i, _) => i == id
    case TextDone(i, _) => i == id
    case PartDone(i, _) => i == id
    case ArgsDelta(i, _, _) => i == id
    case ArgsDone(i, _, _) => i == id
    case _ => false
  }

  /** The events about one item, in order. */
  function Life(log: seq<Event>, id: Id): (life: seq<Body>)
    ensures forall i :: 0 <= i < |life| ==> Concerns(life[i], id)
  {
    if log == [] then []
    else
      var b := log[|log| - 1].body;
      Life(log[..|log| - 1], id) + if Concerns(b, id) then [b] else []
  }

  /** The concatenation of the deltas among these events. */
  function Deltas(life: seq<Body>): string
  {
    if life == [] then ""
    else
      var b := life[|life| - 1];
      Deltas(life[..|life| - 1]) + match b case TextDelta(_, d) => d case ArgsDelta(_, _, d) => d case _ => ""
  }

  lemma LifeEmit(s: State, b: Body, id: Id)
    ensures Life(Emit(s, b).log, id) == Life(s.log, id) + if Concerns(b, id) then [b] else []
  {
    var log := Emit(s, b).log;
    assert log[..|log| - 1] == s.log;
  }

  lemma DeltasSnoc(life: seq<Body>, b: Body)
    ensures Deltas(life + [b])
         == Deltas(life) + match b case TextDelta(_, d) => d case ArgsDelta(_, _, d) => d case _ => ""
  {
    assert (life + [b])[..|life|] == life;
  }

  /** Added once, part added, then only text deltas, which spell `text`. */
  ghost predicate OpenMessageLife(life: seq<Body>, id: Id, text: string)
  {
    && |life| >= 2
    && life[0] == ItemAdded(Message(id, "", InProgress), 0)
    && life[1] == PartAdded(id)
    && (forall i :: 2 <= i < |life| ==> life[i].TextDelta?)
    && Deltas(life) == text
  }

  /** Added once, then only argument deltas, which spell the call's arguments. */
  ghost predicate OpenCallLife(life: seq<Body>, call: Item)
    requires call.FunctionCall?
  {
    && |life| >= 1
    && life[0].ItemAdded?
    && life[0].item == FunctionCall(call.id, call.callId, call.name, "", InProgress)
    && (forall i :: 1 <= i < |life| ==> life[i].ArgsDelta?)
    && Deltas(life) == call.arguments
  }

  ghost predicate ClosedMessageLife(life: seq<Body>, id: Id, text: string)
  {
    && |life| >= 3
    && OpenMessageLife(life[..|life| - 3], id, text)
    && life[|life| - 3..] == [TextDone(id, text), PartDone(id, text), ItemDone(Message(id, text, Completed), 0)]
  }

  function Finished(call: Item): Item
    requires call.FunctionCall?
  {
    FunctionCall(call.id, call.callId, call.name, call.arguments, Completed)
  }

  ghost predicate ClosedCallLife(life: seq<Body>, call: Item, index: int)
    requires call.FunctionCall?
  {
    && |life| >= 2
    && OpenCallLife(life[..|life| - 2], call)
    && life[|life| - 2..] == [ArgsDone(call.id, index, call.arguments), ItemDone(Finished(call), index)]
  }

  ghost predicate Owned(s: State, id: Id)
  {
    s.message == Some(id) || exists i :: 0 <= i < |s.calls| && s.calls[i].id == id
  }

  /** The writer between the header and [DONE]. */
  ghost predicate Inv(s: State)
  {
    IdsFresh(s) && NoStrangers(s) && MessageOpen(s) && CallsOpen(s)
  }

  /** Items carry distinct minted ids; calls differ in their call ids, which are never empty. */
  ghost predicate IdsFresh(s: State)
  {
    && (forall i :: 0 <= i < |s.calls| ==>
         && s.calls[i].FunctionCall?
         && s.calls[i].id.Minted? && s.calls[i].id.n < s.minted
         && s.calls[i].callId != Given("")
         && (s.calls[i].callId.Minted? ==> s.calls[i].callId.n < s.minted)
         && s.message != Some(s.calls[i].id))
    && (forall i, j :: 0 <= i < j < |s.calls| ==>
         s.calls[i].id != s.calls[j].id && s.calls[i].callId != s.calls[j].callId)
    && (s.message != None ==> s.message.value.Minted? && s.message.value.n < s.minted)
  }

  /** Between s and t the events bs were sent, all about the item id. */
  ghost predicate Grew(s: State, t: State, id: Id, bs: seq<Body>)
  {
    forall x :: Life(t.log, x) == Life(s.log, x) + if x == id then bs else []
  }

  lemma EmitGrew(s: State, b: Body, id: Id)
    requires forall x :: Concerns(b, x) <==> x == id
    ensures Grew(s, Emit(s, b), id, [b])
  {
    hide Life;
    forall x ensures Life(Emit(s, b).log, x) == Life(s.log, x) + if x == id then [b] else [] {
      LifeEmit(s, b, x);
    }
  }

  lemma GrewTwice(s: State, t: State, u: State, id: Id, a: seq<Body>, b: seq<Body>)
    requires Grew(s, t, id, a) && Grew(t, u, id, b)
    ensures Grew(s, u, id, a + b)
  {
    hide Life;
  }

  /** An event about no item changes no life. */
  lemma EmitGlobal(s: State, b: Body)
    requires forall x :: !Concerns(b, x)
    ensures forall x :: Life(Emit(s, b).log, x) == Life(s.log, x)
  {
    hide Life;
    forall x ensures Life(Emit(s, b).log, x) == Life(s.log, x) {
      LifeEmit(s, b, x);
    }
  }

  ghost predicate NoStrangers(s: State)
  {
    forall id :: !Owned(s, id) ==> Life(s.log, id) == []
  }

  ghost predicate MessageOpen(s: State)
  {
    if s.message == None then s.text == ""
    else OpenMessageLife(Life(s.log, s.message.value), s.message.value, s.text)
  }

  ghost predicate CallsOpen(s: State)
    requires IdsFresh(s)
  {
    forall i :: 0 <= i < |s.calls| ==> OpenCallLife(Life(s.log, s.calls[i].id), s.calls[i])
  }

  lemma MintedNotOwned(s: State, n: nat)
    requires IdsFresh(s) && n >= s.minted
    ensures !Owned(s, Minted(n))
  {
  }

  lemma SameIdsSameOwner(s: State, t: State)
    requires s.message == t.message && |s.calls| == |t.calls|
    requires forall i :: 0 <= i < |s.calls| ==> s.calls[i].id == t.calls[i].id
    ensures forall x :: Owned(s, x) <==> Owned(t, x)
  {
  }

  lemma OwnerAfterOpenCall(s: State, f: ToolFragment)
    ensures var t := OpenCall(s, f);
      forall x :: Owned(t, x) <==> Owned(s, x) || x == t.calls[|s.calls|].id
  {
    var t := OpenCall(s, f);
    forall x | Owned(s, x) ensures Owned(t, x) {
      if s.message != Some(x) {
        var i :| 0 <= i < |s.calls| && s.calls[i].id == x;
        assert t.calls[i].id == x;
      }
    }
    assert t.calls[|s.calls|].id == t.calls[|s.calls|].id;
  }

  lemma InvAfterHeader(persist: bool, r: Response)
    ensures Inv(Header(persist, Start(r), OK))
    ensures var log := Header(persist, Start(r), OK).log;
      && |log| == 2
      && log[0].body == ResponseCreated(r)
      && log[1].body == ResponseInProgress(r.(status := InProgress))
  {
    var s := Start(r).(headersSent := true);
    var s1 := Emit(s, ResponseCreated(r));
    var s2 := s1.(response := r.(status := InProgress));
    assert forall x :: Life(s.log, x) == [];
    EmitGlobal(s, ResponseCreated(r));
    EmitGlobal(s2, ResponseInProgress(s2.response));
    assert Header(persist, Start(r), OK) == Emit(s2, ResponseInProgress(s2.response));
  }

  lemma FirstMessageLife(id: Id)
    ensures OpenMessageLife([ItemAdded(Message(id, "", InProgress), 0), PartAdded(id)], id, "")
  {
    var added := ItemAdded(Message(id, "", InProgress), 0);
    DeltasSnoc([added], PartAdded(id));
    DeltasSnoc([], added);
    assert [added] + [PartAdded(id)] == [added, PartAdded(id)] && [] + [added] == [added];
  }

  /** A change that touches one item only keeps the invariant of all the others. */
  lemma Transfer(s: State, t: State, id: Id, bs: seq<Body>)
    requires Inv(s) && IdsFresh(t) && Grew(s, t, id, bs)
    requires forall x :: Owned(s, x) || x == id ==> Owned(t, x)
    requires if t.message == Some(id) then OpenMessageLife(Life(t.log, id), id, t.text)
             else t.message == s.message && t.text == s.text
    requires forall i :: 0 <= i < |t.calls| ==>
      if t.calls[i].id == id then OpenCallLife(Life(t.log, id), t.calls[i])
      else i < |s.calls| && t.calls[i] == s.calls[i]
    ensures Inv(t)
  {
    hide Life, OpenMessageLife, OpenCallLife, Owned;
    GrewMeans(s, t, id, bs);
  }

  lemma InvOpenMessage(s: State)
    requires Inv(s) && s.message == None
    ensures Inv(OpenMessage(s))
    ensures OpenMessage(s).response == s.response && OpenMessage(s).calls == s.calls && OpenMessage(s).text == ""
  {
    hide Life, Deltas, OpenMessageLife, OpenCallLife;
    var id := Minted(s.minted);
    var added := ItemAdded(Message(id, "", InProgress), 0);
    var s1 := s.(minted := s.minted + 1, message := Some(id));
    var s2 := Emit(s1, added);
    var t := Emit(s2, PartAdded(id));
    assert t == OpenMessage(s);
    EmitGrew(s1, added, id);
    EmitGrew(s2, PartAdded(id), id);
    GrewTwice(s1, s2, t, id, [added], [PartAdded(id)]);
    MintedNotOwned(s, s.minted);
    FirstMessageLife(id);
    NewLife(s, s1, t, id, [added] + [PartAdded(id)]);
    assert [added] + [PartAdded(id)] == [added, PartAdded(id)];
    OwnerAfterOpenMessage(s, t, id);
    assert IdsFresh(t);
    hide Owned, Inv, IdsFresh;
    Transfer(s, t, id, [added] + [PartAdded(id)]);
  }

  lemma OwnerAfterOpenMessage(s: State, t: State, id: Id)
    requires s.message == None && t.message == Some(id) && t.calls == s.calls
    ensures forall x :: Owned(s, x) || x == id ==> Owned(t, x)
  {
  }

  /** A new item's life is what has been sent since it was minted. */
  lemma NewLife(s: State, s1: State, t: State, id: Id, bs: seq<Body>)
    requires NoStrangers(s) && !Owned(s, id) && s1.log == s.log && Grew(s1, t, id, bs)
    ensures Life(t.log, id) == bs
    ensures Grew(s, t, id, bs)
  {
    hide Life, Owned;
    assert Life(s.log, id) == [];
    assert [] + bs == bs;
  }

  lemma LongerMessageLife(life: seq<Body>, id: Id, text: string, content: string)
    requires OpenMessageLife(life, id, text)
    ensures OpenMessageLife(life + [TextDelta(id, content)], id, text + content)
  {
    hide Deltas;
    DeltasSnoc(life, TextDelta(id, content));
  }

  lemma InvSayText(s: State, content: string)
    requires Inv(s)
    ensures Inv(SayText(s, content))
    ensures SayText(s, content).text == s.text + content
    ensures SayText(s, content).message != None
    ensures SayText(s, content).response == s.response && SayText(s, content).calls == s.calls
  {
    hide Life, Deltas, OpenMessageLife, OpenCallLife, Owned;
    var s0 := if s.message == None then OpenMessage(s) else s;
    if s.message == None {
      InvOpenMessage(s);
      assert s.text == s0.text == "";
    }
    hide OpenMessage;
    var id := s0.message.value;
    var b := TextDelta(id, content);
    var s1 := s0.(text := s0.text + content);
    var t := Emit(s1, b);
    assert t == SayText(s, content);
    EmitGrew(s1, b, id);
    SameLog(s0, s1, t, id, [b]);
    GrewMeans(s0, t, id, [b]);
    LongerMessageLife(Life(s0.log, id), id, s0.text, content);
    SameIdsSameOwner(s0, t);
    IsOwner(s0, id);
    Transfer(s0, t, id, [b]);
  }

  lemma SameLog(s: State, s1: State, t: State, id: Id, bs: seq<Body>)
    requires s1.log == s.log && Grew(s1, t, id, bs)
    ensures Grew(s, t, id, bs)
  {
    hide Life;
  }

  lemma IsOwner(s: State, id: Id)
    requires s.message == Some(id) || exists i :: 0 <= i < |s.calls| && s.calls[i].id == id
    ensures Owned(s, id)
  {
  }

  lemma FirstCallLife(call: Item, index: int)
    requires call.FunctionCall? && call.arguments == "" && call.status == InProgress
    ensures OpenCallLife([ItemAdded(call, index)], call)
  {
    DeltasSnoc([], ItemAdded(call, index));
    assert [] + [ItemAdded(call, index)] == [ItemAdded(call, index)];
  }

  lemma InvOpenCall(s: State, f: ToolFragment)
    requires Inv(s) && FindCall(s.calls, f.id) == |s.calls|
    ensures Inv(OpenCall(s, f))
  {
    hide Life, Deltas, OpenMessageLife, OpenCallLife, Owned;
    var t := OpenCall(s, f);
    var item := t.calls[|s.calls|];
    var b := ItemAdded(item, |s.calls|);
    var s1 := s.(minted := t.minted, calls := t.calls);
    assert t == Emit(s1, b);
    EmitGrew(s1, b, item.id);
    MintedNotOwned(s, item.id.n);
    NewLife(s, s1, t, item.id, [b]);
    FirstCallLife(item, |s.calls|);
    OwnerAfterOpenCall(s, f);
    IdsAfterOpenCall(s, f);
    Transfer(s, t, item.id, [b]);
  }

  lemma IdsAfterOpenCall(s: State, f: ToolFragment)
    requires IdsFresh(s) && FindCall(s.calls, f.id) == |s.calls|
    ensures IdsFresh(OpenCall(s, f))
  {
    var t := OpenCall(s, f);
    assert forall i :: 0 <= i < |s.calls| ==> t.calls[i] == s.calls[i];
  }

  lemma GrewMeans(s: State, t: State, id: Id, bs: seq<Body>)
    requires Grew(s, t, id, bs)
    ensures forall x :: Life(t.log, x) == Life(s.log, x) + if x == id then bs else []
    ensures forall x :: x != id ==> Life(t.log, x) == Life(s.log, x)
  {
  }

  lemma LongerCallLife(life: seq<Body>, call: Item, index: int, arguments: string)
    requires call.FunctionCall? && OpenCallLife(life, call)
    ensures OpenCallLife(life + [ArgsDelta(call.id, index, arguments)],
                         call.(arguments := call.arguments + arguments))
  {
    hide Deltas;
    DeltasSnoc(life, ArgsDelta(call.id, index, arguments));
  }

  lemma InvAddArguments(s: State, i: nat, arguments: string)
    requires Inv(s) && i < |s.calls|
    ensures Inv(AddArguments(s, i, arguments))
  {
    hide Life, Deltas, OpenMessageLife, OpenCallLife, Owned;
    if arguments != "" {
      var call := s.calls[i];
      var item := call.(arguments := call.arguments + arguments);
      var b := ArgsDelta(item.id, |s.calls| - 1, arguments);
      var s1 := s.(calls := s.calls[i := item]);
      var t := Emit(s1, b);
      assert t == AddArguments(s, i, arguments);
      EmitGrew(s1, b, item.id);
      SameLog(s, s1, t, item.id, [b]);
      GrewMeans(s, t, item.id, [b]);
      LongerCallLife(Life(s.log, item.id), call, |s.calls| - 1, arguments);
      SameIdsSameOwner(s, t);
      IsOwner(s, item.id);
      hide AddArguments;
      assert IdsFresh(t);
      Transfer(s, t, item.id, [b]);
    }
  }

  // ---- What the upstream said -------------------------------------------------------------

  /** A line that carries no data, or a payload both of whose decodings succeed; not [DONE]. */
  ghost predicate WellFormed(decode: Decoder, line: string)
  {
    match DataOf(line)
    case None => true
    case Some(data) => !Breaks(decode, line) && data != DONE && decode(data).choices != None
  }

  /** The first choice's delta of each chunk. */
  function DeltaOf(decode: Decoder, line: string): Option<Delta>
  {
    match DataOf(line)
    case None => None
    case Some(data) =>
      match decode(data).choices
      case None => None
      case Some(choices) => if choices == [] then None else Some(choices[0])
  }

  function DeltaIn(decode: Decoder, line: string): seq<Delta>
  {
    match DeltaOf(decode, line) case None => [] case Some(d) => [d]
  }

  function DeltasOf(decode: Decoder, lines: seq<string>): seq<Delta>
  {
    if lines == [] then []
    else DeltaIn(decode, lines[0]) + DeltasOf(decode, lines[1..])
  }

  /** The content of the deltas that carry no tool calls. */
  function Spoken(ds: seq<Delta>): string
  {
    if ds == [] then "" else (if ds[0].toolCalls == [] then ds[0].content else "") + Spoken(ds[1..])
  }

  function Fragments(ds: seq<Delta>): seq<ToolFragment>
  {
    if ds == [] then [] else ds[0].toolCalls + Fragments(ds[1..])
  }

  /** A fragment opens a call unless an earlier one had the same non-empty id. */
  predicate Opens(fs: seq<ToolFragment>, k: nat)
    requires k < |fs|
  {
    fs[k].id == "" || forall j :: 0 <= j < k ==> fs[j].id != fs[k].id
  }

  function Openers(fs: seq<ToolFragment>): (r: seq<nat>)
    ensures forall i :: 0 <= i < |r| ==> r[i] < |fs|
  {
    if fs == [] then []
    else
      var k := |fs| - 1;
      Openers(fs[..k]) + if Opens(fs, k) then [k] else []
  }

  /** All argument text the upstream sent under one id. */
  function ArgumentsUnder(fs: seq<ToolFragment>, id: string): string
  {
    if fs == [] then ""
    else
      var f := fs[|fs| - 1];
      ArgumentsUnder(fs[..|fs| - 1], id) + if f.id == id then f.arguments else ""
  }

  /** The call that fragment k opened, once the fragments fs have arrived. */
  ghost predicate CallFor(call: Item, fs: seq<ToolFragment>, k: nat)
    requires k < |fs|
  {
    && call.FunctionCall?
    && call.name == fs[k].name
    && (if fs[k].id == ""
        then call.callId.Minted? && call.arguments == fs[k].arguments
        else call.callId == Given(fs[k].id) && call.arguments == ArgumentsUnder(fs, fs[k].id))
  }

  ghost predicate CallsMatch(calls: seq<Item>, fs: seq<ToolFragment>)
  {
    && |calls| == |Openers(fs)|
    && (forall i :: 0 <= i < |calls| ==> CallFor(calls[i], fs, Openers(fs)[i]))
    && (forall k :: 0 <= k < |fs| && fs[k].id != "" ==>
          exists i :: 0 <= i < |calls| && calls[i].FunctionCall? && calls[i].callId == Given(fs[k].id))
  }

  lemma {:induction false} NoArgumentsUnder(fs: seq<ToolFragment>, id: string)
    requires forall k :: 0 <= k < |fs| ==> fs[k].id != id
    ensures ArgumentsUnder(fs, id) == ""
  {
    if fs != [] {
      NoArgumentsUnder(fs[..|fs| - 1], id);
    }
  }

  /** Calls that differ in their call ids, none of them the empty upstream id. */
  ghost predicate DistinctCalls(calls: seq<Item>)
  {
    && (forall i :: 0 <= i < |calls| ==> calls[i].FunctionCall? && calls[i].callId != Given(""))
    && (forall i, j :: 0 <= i < j < |calls| ==> calls[i].callId != calls[j].callId)
  }

  /** What one fragment does to the open calls. */
  ghost predicate CallsStep(calls: seq<Item>, f: ToolFragment, after: seq<Item>)
  {
    var i := FindCall(calls, f.id);
    if i < |calls| then after == calls[i := calls[i].(arguments := calls[i].arguments + f.arguments)]
    else
      && |after| == |calls| + 1
      && after[..|calls|] == calls
      && after[|calls|].FunctionCall?
      && after[|calls|].name == f.name
      && after[|calls|].arguments == f.arguments
      && (if f.id == "" then after[|calls|].callId.Minted? else after[|calls|].callId == Given(f.id))
  }

  lemma ToolStepIsCallsStep(s: State, f: ToolFragment)
    ensures CallsStep(s.calls, f, ToolStep(s, f).calls)
    ensures ToolStep(s, f).response == s.response && ToolStep(s, f).text == s.text
    ensures ToolStep(s, f).message == s.message
  {
    var i := FindCall(s.calls, f.id);
    if i < |s.calls| && f.arguments == "" {
      assert s.calls[i].arguments + "" == s.calls[i].arguments;
      assert s.calls[i := s.calls[i]] == s.calls;
    }
    assert "" + f.arguments == f.arguments;
  }

  /** An open call is found exactly when an earlier fragment carried the id. */
  lemma FoundIffSeen(calls: seq<Item>, fs: seq<ToolFragment>, f: ToolFragment)
    requires DistinctCalls(calls) && CallsMatch(calls, fs)
    ensures FindCall(calls, f.id) == |calls| <==> Opens(fs + [f], |fs|)
  {
    var g := fs + [f];
    assert forall j :: 0 <= j < |fs| ==> g[j] == fs[j];
    var i := FindCall(calls, f.id);
    if i < |calls| {
      var k := Openers(fs)[i];
      assert CallFor(calls[i], fs, k);
      assert g[k].id == f.id;
    }
  }

  lemma OpenersSnoc(fs: seq<ToolFragment>, f: ToolFragment)
    ensures Openers(fs + [f]) == Openers(fs) + if Opens(fs + [f], |fs|) then [|fs|] else []
    ensures forall id :: ArgumentsUnder(fs + [f], id) == ArgumentsUnder(fs, id) + if f.id == id then f.arguments else ""
  {
    hide Opens;
    assert (fs + [f])[..|fs|] == fs;
  }

  /** The calls opened earlier still answer to their fragments. */
  lemma AccountOldCall(call: Item, fs: seq<ToolFragment>, f: ToolFragment, after: Item, k: nat)
    requires k < |fs| && CallFor(call, fs, k)
    requires if call.callId == Given(f.id) && f.id != ""
             then after == call.(arguments := call.arguments + f.arguments)
             else after == call
    ensures CallFor(after, fs + [f], k)
  {
    hide Openers, ArgumentsUnder, Opens;
    OpenersSnoc(fs, f);
    assert (fs + [f])[k] == fs[k];
  }

  /** One fragment changes no open call but the one with its id. */
  lemma OldCallStep(calls: seq<Item>, f: ToolFragment, after: seq<Item>, m: nat)
    requires DistinctCalls(calls) && CallsStep(calls, f, after) && m < |calls|
    ensures m < |after|
    ensures if calls[m].callId == Given(f.id) && f.id != ""
            then after[m] == calls[m].(arguments := calls[m].arguments + f.arguments)
            else after[m] == calls[m]
    ensures after[m].FunctionCall? && after[m].callId == calls[m].callId
  {
    var i := FindCall(calls, f.id);
    if i == |calls| {
      assert after[m] == after[..|calls|][m];
    } else if m < i {
      assert calls[m].callId != calls[i].callId;
    } else if m > i {
      assert calls[i].callId != calls[m].callId;
    }
  }

  lemma AccountCalls(calls: seq<Item>, fs: seq<ToolFragment>, f: ToolFragment, after: seq<Item>)
    requires DistinctCalls(calls) && CallsMatch(calls, fs) && CallsStep(calls, f, after)
    ensures CallsMatch(after, fs + [f])
  {
    hide Openers, ArgumentsUnder, CallFor, FindCall, Opens;
    var g := fs + [f];
    var i := FindCall(calls, f.id);
    FoundIffSeen(calls, fs, f);
    OpenersSnoc(fs, f);
    forall m | 0 <= m < |after| ensures CallFor(after[m], g, Openers(g)[m]) {
      if m < |calls| {
        OldCallStep(calls, f, after, m);
        AccountOldCall(calls[m], fs, f, after[m], Openers(fs)[m]);
      } else {
        AccountNewCall(calls, fs, f, after);
      }
    }
    forall k | 0 <= k < |g| && g[k].id != ""
      ensures exists m :: 0 <= m < |after| && after[m].FunctionCall? && after[m].callId == Given(g[k].id)
    {
      if k < |fs| {
        assert g[k] == fs[k];
        var m :| 0 <= m < |calls| && calls[m].FunctionCall? && calls[m].callId == Given(fs[k].id);
        OldCallStep(calls, f, after, m);
      } else {
        AccountedHere(calls, f, after);
      }
    }
  }

  /** After its fragment, the call with that id is open. */
  lemma AccountedHere(calls: seq<Item>, f: ToolFragment, after: seq<Item>)
    requires CallsStep(calls, f, after) && f.id != ""
    ensures exists m :: 0 <= m < |after| && after[m].FunctionCall? && after[m].callId == Given(f.id)
  {
    var i := FindCall(calls, f.id);
    assert after[i].FunctionCall? && after[i].callId == Given(f.id);
  }

  lemma AccountNewCall(calls: seq<Item>, fs: seq<ToolFragment>, f: ToolFragment, after: seq<Item>)
    requires CallsStep(calls, f, after) && FindCall(calls, f.id) == |calls|
    requires Opens(fs + [f], |fs|)
    ensures CallFor(after[|calls|], fs + [f], |fs|)
  {
    var g := fs + [f];
    assert g[|fs|] == f;
    OpenersSnoc(fs, f);
    if f.id != "" {
      forall k | 0 <= k < |fs| ensures fs[k].id != f.id {
        assert g[k] == fs[k];
      }
      NoArgumentsUnder(fs, f.id);
    }
  }

  lemma InvToolStep(s: State, f: ToolFragment)
    requires Inv(s)
    ensures Inv(ToolStep(s, f))
  {
    var i := FindCall(s.calls, f.id);
    var s1 := if i == |s.calls| then OpenCall(s, f) else s;
    if i == |s.calls| {
      InvOpenCall(s, f);
    }
    hide Inv;
    InvAddArguments(s1, i, f.arguments);
  }

  lemma InvDistinct(s: State)
    requires Inv(s)
    ensures DistinctCalls(s.calls)
  {
  }

  lemma {:induction false} AccountFragments(s: State, seen: seq<ToolFragment>, fs: seq<ToolFragment>)
    requires Inv(s) && CallsMatch(s.calls, seen)
    ensures Inv(ToolSteps(s, fs)) && CallsMatch(ToolSteps(s, fs).calls, seen + fs)
    ensures ToolSteps(s, fs).response == s.response && ToolSteps(s, fs).text == s.text
    ensures ToolSteps(s, fs).message == s.message
    decreases |fs|
  {
    hide Inv, CallsMatch, ToolStep;
    if fs == [] {
      assert seen + fs == seen;
    } else {
      var t := ToolStep(s, fs[0]);
      InvToolStep(s, fs[0]);
      InvDistinct(s);
      ToolStepIsCallsStep(s, fs[0]);
      AccountCalls(s.calls, seen, fs[0], t.calls);
      AccountFragments(t, seen + [fs[0]], fs[1..]);
      assert seen + [fs[0]] + fs[1..] == seen + fs;
    }
  }

  /** What the writer holds after well-formed lines whose deltas are `seen`. */
  ghost predicate Accounts(s: State, text: string, fs: seq<ToolFragment>)
  {
    && Inv(s)
    && s.response.output == []
    && s.text == text
    && (s.message != None <==> text != "")
    && CallsMatch(s.calls, fs)
  }

  lemma AccountDelta(s: State, d: Delta, text: string, fs: seq<ToolFragment>)
    requires Accounts(s, text, fs)
    ensures Accounts(ApplyDelta(s, d), text + Spoken([d]), fs + Fragments([d]))
  {
    hide Inv, CallsMatch;
    assert [d][1..] == [];
    assert Spoken([d]) == (if d.toolCalls == [] then d.content else "") + "";
    assert Fragments([d]) == d.toolCalls + [];
    assert d.toolCalls + [] == d.toolCalls && d.content + "" == d.content;
    if d.toolCalls != [] {
      AccountFragments(s, fs, d.toolCalls);
      assert text + ("" + "") == text;
    } else {
      assert fs + ([] + []) == fs;
      if d.content != "" {
        InvSayText(s, d.content);
      } else {
        assert text + "" == text;
      }
    }
  }

  /** Envelopes touch the response only. */
  lemma AccountEnvelope(s: State, e: Envelope, text: string, fs: seq<ToolFragment>)
    requires Accounts(s, text, fs)
    ensures Accounts(s.(response := ApplyEnvelope(s.response, e)), text, fs)
  {
    hide Life, Deltas, OpenMessageLife, OpenCallLife, Owned, CallsMatch;
    SameIdsSameOwner(s, s.(response := ApplyEnvelope(s.response, e)));
  }

  lemma AccountLine(decode: Decoder, persist: bool, s: State, line: string, text: string, fs: seq<ToolFragment>)
    requires Accounts(s, text, fs) && WellFormed(decode, line)
    ensures var ds := DeltaIn(decode, line);
      Accounts(ApplyLine(decode, persist, s, line), text + Spoken(ds), fs + Fragments(ds))
  {
    hide Accounts, ApplyDelta;
    assert fs + Fragments([]) == fs && text + Spoken([]) == text;
    match DataOf(line)
    case None =>
    case Some(data) =>
      var s1 := s;
      if HasEnvelope(data) {
        AccountEnvelope(s, decode(data).envelope.value, text, fs);
        s1 := s.(response := ApplyEnvelope(s.response, decode(data).envelope.value));
      }
      var choices := decode(data).choices.value;
      if choices != [] {
        AccountDelta(s1, choices[0], text, fs);
      }
  }

  lemma {:induction false} SpokenAppend(a: seq<Delta>, b: seq<Delta>)
    ensures Spoken(a + b) == Spoken(a) + Spoken(b)
    ensures Fragments(a + b) == Fragments(a) + Fragments(b)
  {
    if a == [] {
      assert a + b == b;
    } else {
      assert (a + b)[1..] == a[1..] + b;
      SpokenAppend(a[1..], b);
    }
  }

  lemma FirstLine(decode: Decoder, persist: bool, s: State, lines: seq<string>)
    requires lines != []
    ensures DeltasOf(decode, lines) == DeltaIn(decode, lines[0]) + DeltasOf(decode, lines[1..])
    ensures All(decode, persist, s, lines) == All(decode, persist, ApplyLine(decode, persist, s, lines[0]), lines[1..])
  {
  }

  lemma NoLines(decode: Decoder, persist: bool, s: State, text: string, fs: seq<ToolFragment>)
    ensures All(decode, persist, s, []) == s
    ensures text + Spoken(DeltasOf(decode, [])) == text && fs + Fragments(DeltasOf(decode, [])) == fs
  {
  }

  lemma {:induction false} AccountLines(decode: Decoder, persist: bool, s: State, lines: seq<string>,
                                        text: string, fs: seq<ToolFragment>)
    requires Accounts(s, text, fs)
    requires forall i :: 0 <= i < |lines| ==> WellFormed(decode, lines[i])
    ensures Accounts(All(decode, persist, s, lines),
                     text + Spoken(DeltasOf(decode, lines)), fs + Fragments(DeltasOf(decode, lines)))
    decreases |lines|
  {
    hide ApplyLine, All, Accounts, WellFormed, DeltaOf, DeltasOf, Spoken, Fragments;
    if lines == [] {
      NoLines(decode, persist, s, text, fs);
    } else {
      var ds, more := DeltaIn(decode, lines[0]), DeltasOf(decode, lines[1..]);
      FirstLine(decode, persist, s, lines);
      AccountLine(decode, persist, s, lines[0], text, fs);
      AccountLines(decode, persist, ApplyLine(decode, persist, s, lines[0]), lines[1..],
                   text + Spoken(ds), fs + Fragments(ds));
      SpokenAppend(ds, more);
      assert text + Spoken(ds) + Spoken(more) == text + (Spoken(ds) + Spoken(more));
      assert fs + Fragments(ds) + Fragments(more) == fs + (Fragments(ds) + Fragments(more));
    }
  }

  // ---- [DONE] -----------------------------------------------------------------------------

  function MessageItems(s: State): seq<Item>
  {
    match s.message case None => [] case Some(id) => [Message(id, s.text, Completed)]
  }

  function FinishedCalls(calls: seq<Item>): (r: seq<Item>)
    requires forall i :: 0 <= i < |calls| ==> calls[i].FunctionCall?
    ensures |r| == |calls|
    ensures forall i :: 0 <= i < |calls| ==> r[i] == Finished(calls[i])
  {
    if calls == [] then [] else FinishedCalls(calls[..|calls| - 1]) + [Finished(calls[|calls| - 1])]
  }

  lemma EndsWith<T>(a: seq<T>, b: seq<T>)
    ensures (a + b)[..|a + b| - |b|] == a && (a + b)[|a + b| - |b|..] == b
  {
  }

  lemma CloseMessageLife(s: State)
    requires MessageOpen(s)
    ensures var t := CloseMessage(s);
      && t.response.output == s.response.output + MessageItems(s)
      && (s.message != None ==> ClosedMessageLife(Life(t.log, s.message.value), s.message.value, s.text))
      && forall x :: s.message != Some(x) ==> Life(t.log, x) == Life(s.log, x)
  {
    hide Life, OpenMessageLife;
    if s.message != None {
      var id := s.message.value;
      var item := Message(id, s.text, Completed);
      var s1 := Emit(s, TextDone(id, s.text));
      var s2 := Emit(s1, PartDone(id, s.text));
      var s3 := Emit(s2, ItemDone(item, 0));
      EmitGrew(s, TextDone(id, s.text), id);
      EmitGrew(s1, PartDone(id, s.text), id);
      EmitGrew(s2, ItemDone(item, 0), id);
      GrewTwice(s, s1, s2, id, [TextDone(id, s.text)], [PartDone(id, s.text)]);
      GrewTwice(s, s2, s3, id, [TextDone(id, s.text)] + [PartDone(id, s.text)], [ItemDone(item, 0)]);
      var closing := [TextDone(id, s.text)] + [PartDone(id, s.text)] + [ItemDone(item, 0)];
      assert closing == [TextDone(id, s.text), PartDone(id, s.text), ItemDone(item, 0)];
      GrewMeans(s, s3, id, closing);
      EndsWith(Life(s.log, id), closing);
      assert CloseMessage(s).log == s3.log;
    }
  }

  lemma CloseCallLife(s: State, call: Item, index: int)
    requires call.FunctionCall?
    ensures Grew(s, CloseCall(s, call, index), call.id,
                 [ArgsDone(call.id, index, call.arguments), ItemDone(Finished(call), index)])
  {
    hide Life;
    var s1 := Emit(s, ArgsDone(call.id, index, call.arguments));
    var s2 := Emit(s1, ItemDone(Finished(call), index));
    EmitGrew(s, ArgsDone(call.id, index, call.arguments), call.id);
    EmitGrew(s1, ItemDone(Finished(call), index), call.id);
    GrewTwice(s, s1, s2, call.id, [ArgsDone(call.id, index, call.arguments)], [ItemDone(Finished(call), index)]);
    assert [ArgsDone(call.id, index, call.arguments)] + [ItemDone(Finished(call), index)]
        == [ArgsDone(call.id, index, call.arguments), ItemDone(Finished(call), index)];
    assert CloseCall(s, call, index).log == s2.log;
  }

  lemma CloseCallsStep(s: State, calls: seq<Item>)
    requires calls != []
    ensures var n := |calls| - 1;
      CloseCalls(s, calls) == CloseCall(CloseCalls(s, calls[..n]), calls[n], n)
  {
  }

  lemma {:induction false} CloseCallsOutput(s: State, calls: seq<Item>)
    requires forall i :: 0 <= i < |calls| ==> calls[i].FunctionCall?
    ensures CloseCalls(s, calls).response.output == s.response.output + FinishedCalls(calls)
    ensures CloseCalls(s, calls).saved == s.saved
    decreases |calls|
  {
    if calls == [] {
      assert s.response.output + [] == s.response.output;
    } else {
      var n := |calls| - 1;
      CloseCallsOutput(s, calls[..n]);
      assert FinishedCalls(calls) == FinishedCalls(calls[..n]) + [Finished(calls[n])];
      assert CloseCalls(s, calls).response.output
          == s.response.output + FinishedCalls(calls[..n]) + [Finished(calls[n])];
    }
  }

  /** Closing calls says nothing about any other item. */
  lemma {:induction false} CloseCallsOthers(s: State, calls: seq<Item>, x: Id)
    requires forall i :: 0 <= i < |calls| ==> calls[i].FunctionCall? && calls[i].id != x
    ensures Life(CloseCalls(s, calls).log, x) == Life(s.log, x)
    decreases |calls|
  {
    hide Life, CloseCall;
    if calls != [] {
      var n := |calls| - 1;
      var s1 := CloseCalls(s, calls[..n]);
      CloseCallsOthers(s, calls[..n], x);
      CloseCallsStep(s, calls);
      CloseCallLife(s1, calls[n], n);
      GrewMeans(s1, CloseCalls(s, calls), calls[n].id,
                [ArgsDone(calls[n].id, n, calls[n].arguments), ItemDone(Finished(calls[n]), n)]);
    }
  }

  /** Closing calls closes each of them once. */
  lemma {:induction false} CloseCallsOne(s: State, calls: seq<Item>, i: nat)
    requires forall j :: 0 <= j < |calls| ==> calls[j].FunctionCall?
    requires forall j, k :: 0 <= j < k < |calls| ==> calls[j].id != calls[k].id
    requires i < |calls| && OpenCallLife(Life(s.log, calls[i].id), calls[i])
    ensures ClosedCallLife(Life(CloseCalls(s, calls).log, calls[i].id), calls[i], i)
    decreases |calls|
  {
    hide Life, CloseCall, OpenCallLife;
    var n := |calls| - 1;
    var s1 := CloseCalls(s, calls[..n]);
    var closing := [ArgsDone(calls[n].id, n, calls[n].arguments), ItemDone(Finished(calls[n]), n)];
    CloseCallsStep(s, calls);
    CloseCallLife(s1, calls[n], n);
    GrewMeans(s1, CloseCalls(s, calls), calls[n].id, closing);
    if i == n {
      CloseCallsOthers(s, calls[..n], calls[n].id);
      EndsWith(Life(s.log, calls[n].id), closing);
    } else {
      CloseCallsOne(s, calls[..n], i);
    }
  }

  /** What the final state of a complete run says. */
  ghost predicate Complete(persist: bool, s: State, t: State)
    requires forall i :: 0 <= i < |s.calls| ==> s.calls[i].FunctionCall?
  {
    && t.response.output == MessageItems(s) + FinishedCalls(s.calls)
    && t.response.status == Completed
    && |t.log| > 0 && t.log[|t.log| - 1].body == ResponseCompleted(t.response)
    && (s.message != None ==> ClosedMessageLife(Life(t.log, s.message.value), s.message.value, s.text))
    && (forall i :: 0 <= i < |s.calls| ==> ClosedCallLife(Life(t.log, s.calls[i].id), s.calls[i], i))
    && (forall x :: !Owned(s, x) ==> Life(t.log, x) == [])
    && t.saved == (if persist then s.saved + [t.response] else s.saved)
  }

  lemma FinalizeLog(persist: bool, s: State)
    ensures var s1 := CloseCalls(CloseMessage(s), s.calls);
            var t := Finalize(persist, s);
      && t.response == s1.response.(status := Completed)
      && t.saved == (if persist then s1.saved + [t.response] else s1.saved)
      && |t.log| > 0 && t.log[|t.log| - 1].body == ResponseCompleted(t.response)
      && forall x :: Life(t.log, x) == Life(s1.log, x)
  {
    hide CloseCalls, CloseMessage, Life;
    var s1 := CloseCalls(CloseMessage(s), s.calls);
    var s2 := s1.(response := s1.response.(status := Completed));
    EmitGlobal(s2, ResponseCompleted(s2.response));
    assert Finalize(persist, s).log == Emit(s2, ResponseCompleted(s2.response)).log;
  }

  lemma FinalizeCompletes(persist: bool, s: State)
    requires Inv(s) && s.response.output == []
    ensures Complete(persist, s, Finalize(persist, s))
  {
    hide Life, OpenCallLife, OpenMessageLife, ClosedMessageLife, ClosedCallLife;
    var s0 := CloseMessage(s);
    var t := Finalize(persist, s);
    CloseMessageLife(s);
    assert s0.saved == s.saved;
    FinalizeLog(persist, s);
    hide CloseCalls, CloseMessage, Finalize;
    CloseCallsOutput(s0, s.calls);
    assert [] + MessageItems(s) + FinishedCalls(s.calls) == MessageItems(s) + FinishedCalls(s.calls);
    forall i | 0 <= i < |s.calls| ensures ClosedCallLife(Life(t.log, s.calls[i].id), s.calls[i], i) {
      assert s.message != Some(s.calls[i].id);
      CloseCallsOne(s0, s.calls, i);
    }
    forall x | !Owned(s, x) ensures Life(t.log, x) == [] {
      CloseCallsOthers(s0, s.calls, x);
    }
    if s.message != None {
      var id := s.message.value;
      forall i | 0 <= i < |s.calls| ensures s.calls[i].id != id {
        assert s.message != Some(s.calls[i].id);
      }
      CloseCallsOthers(s0, s.calls, id);
    }
  }

  /**
   * A run with status 200, well-formed lines and one final [DONE]: the two opening events, gapless
   * numbers, each item added once, its deltas, and done once with exactly their concatenation;
   * the message says what the upstream said outside tool calls, there is one call per opening
   * fragment in order, and the Output is the message (if any) followed by the calls; usage, finish
   * reason, incomplete details and error are what the payloads say.
   */
  lemma CompleteRun(decode: Decoder, persist: bool, r: Response, lines: seq<string>, done: string)
    requires r.output == []
    requires forall i :: 0 <= i < |lines| ==> WellFormed(decode, lines[i])
    requires DataOf(done) == Some(DONE)
    ensures var s := All(decode, persist, Header(persist, Start(r), OK), lines);
            var t := All(decode, persist, Header(persist, Start(r), OK), lines + [done]);
            var ds := DeltasOf(decode, lines);
      && Accounts(s, Spoken(ds), Fragments(ds))
      && Complete(persist, s, t)
      && FromEnvelopes(t.response, r, Envelopes(decode, lines))
      && Numbered(t)
      && |t.log| > 2
      && t.log[0].body == ResponseCreated(r)
      && t.log[1].body == ResponseInProgress(r.(status := InProgress))
  {
    var h := Header(persist, Start(r), OK);
    var s := All(decode, persist, h, lines);
    var ds := DeltasOf(decode, lines);
    hide Header, Inv, CallsMatch, Life, Complete, WellFormed, DeltasOf, Spoken, Fragments, ApplyLine, Finalize, All, FromEnvelopes;
    AccountHeader(persist, r);
    AccountLines(decode, persist, h, lines, "", []);
    assert "" + Spoken(ds) == Spoken(ds) && [] + Fragments(ds) == Fragments(ds);
    FinalizeCompletes(persist, s);
    AllAppend(decode, persist, h, lines, [done]);
    AllOne(decode, persist, s, done);
    DoneIsFinalize(decode, persist, s, done);
    SteadyLines(decode, persist, h, lines + [done], r);
    OpeningKept(decode, persist, r, lines, done);
    MetadataKept(decode, persist, r, lines, done);
  }

  lemma MetadataKept(decode: Decoder, persist: bool, r: Response, lines: seq<string>, done: string)
    requires DataOf(done) == Some(DONE)
    ensures FromEnvelopes(All(decode, persist, Header(persist, Start(r), OK), lines + [done]).response, r, Envelopes(decode, lines))
  {
    hide All, FromEnvelopes;
    NoEnvelopesYet(persist, r);
    LinesMetadata(decode, persist, Header(persist, Start(r), OK), lines + [done], r, []);
    EnvelopesDone(decode, lines, done);
    assert [] + Envelopes(decode, lines) == Envelopes(decode, lines);
  }

  lemma AllOne(decode: Decoder, persist: bool, s: State, line: string)
    ensures All(decode, persist, s, [line]) == ApplyLine(decode, persist, s, line)
  {
    hide ApplyLine;
    assert [line][1..] == [];
  }

  /** The two opening events stay in front, and [DONE] adds one more. */
  lemma OpeningKept(decode: Decoder, persist: bool, r: Response, lines: seq<string>, done: string)
    requires DataOf(done) == Some(DONE)
    ensures var t := All(decode, persist, Header(persist, Start(r), OK), lines + [done]);
      && |t.log| > 2
      && t.log[0].body == ResponseCreated(r)
      && t.log[1].body == ResponseInProgress(r.(status := InProgress))
  {
    var h := Header(persist, Start(r), OK);
    assert |h.log| == 2 && h.log[0].body == ResponseCreated(r) && h.log[1].body == ResponseInProgress(r.(status := InProgress));
    hide Header, All, ApplyLine;
    var s := All(decode, persist, h, lines);
    AllAppend(decode, persist, h, lines, [done]);
    AllOne(decode, persist, s, done);
    AllChannel(decode, persist, h, lines);
    LineChannel(decode, persist, s, done);
    MuteLine(decode, persist, s, done);
  }

  /** The same for any way of cutting such a stream into Write calls. */
  lemma CompleteStream(decode: Decoder, persist: bool, r: Response, pieces: seq<string>, lines: seq<string>, done: string)
    requires r.output == [] && pieces != []
    requires Split("\n", Concat(pieces)).frames == lines + [done]
    requires forall i :: 0 <= i < |lines| ==> WellFormed(decode, lines[i])
    requires DataOf(done) == Some(DONE)
    ensures var s := All(decode, persist, Header(persist, Start(r), OK), lines);
            var t := WriteAll(decode, persist, Start(r), pieces);
            var ds := DeltasOf(decode, lines);
      && Accounts(s, Spoken(ds), Fragments(ds))
      && Complete(persist, s, t)
      && FromEnvelopes(t.response, r, Envelopes(decode, lines))
      && Numbered(t)
      && t.buffer == Split("\n", Concat(pieces)).rest
  {
    var bytes := Concat(pieces);
    var h := Header(persist, Start(r), OK);
    AccountsCalls(decode, persist, r, lines, done);
    hide *;
    WrittenAsLines(decode, persist, r, pieces, lines, done);
    CompleteRun(decode, persist, r, lines, done);
    CompleteBuffer(persist, All(decode, persist, h, lines), All(decode, persist, h, lines + [done]), Split("\n", bytes).rest);
  }

  lemma AccountsCalls(decode: Decoder, persist: bool, r: Response, lines: seq<string>, done: string)
    requires r.output == []
    requires forall i :: 0 <= i < |lines| ==> WellFormed(decode, lines[i])
    requires DataOf(done) == Some(DONE)
    ensures var s := All(decode, persist, Header(persist, Start(r), OK), lines);
      forall i :: 0 <= i < |s.calls| ==> s.calls[i].FunctionCall?
  {
    hide All, Header, WellFormed;
    CompleteRun(decode, persist, r, lines, done);
  }

  lemma WrittenAsLines(decode: Decoder, persist: bool, r: Response, pieces: seq<string>, lines: seq<string>, done: string)
    requires pieces != [] && Split("\n", Concat(pieces)).frames == lines + [done]
    requires forall i :: 0 <= i < |lines| ==> WellFormed(decode, lines[i])
    requires DataOf(done) == Some(DONE)
    ensures WriteAll(decode, persist, Start(r), pieces)
      == All(decode, persist, Header(persist, Start(r), OK), lines + [done]).(buffer := Split("\n", Concat(pieces)).rest)
  {
    var bytes := Concat(pieces);
    assert Start(r).buffer + bytes == bytes;
    assert IndexOf("", "\n") == -1;
    NoneBreaks(decode, lines, done);
    hide Split, Header, IndexOf, AllDecode, WellFormed, All, WriteAll, Write, Kept;
    CutsDoNotMatter(decode, persist, Start(r), pieces);
    WriteIsAllKept(decode, persist, Start(r), bytes);
    KeptIsAll(decode, lines + [done]);
  }

  lemma NoneBreaks(decode: Decoder, lines: seq<string>, done: string)
    requires forall i :: 0 <= i < |lines| ==> WellFormed(decode, lines[i])
    requires DataOf(done) == Some(DONE)
    ensures AllDecode(decode, lines + [done])
  {
    forall i | 0 <= i < |lines + [done]| ensures !Breaks(decode, (lines + [done])[i]) {
      if i < |lines| {
        assert WellFormed(decode, lines[i]);
      }
    }
  }

  lemma CompleteBuffer(persist: bool, s: State, t: State, buffer: string)
    requires forall i :: 0 <= i < |s.calls| ==> s.calls[i].FunctionCall?
    requires Complete(persist, s, t) && Numbered(t)
    ensures Complete(persist, s, t.(buffer := buffer)) && Numbered(t.(buffer := buffer))
  {
  }

  lemma AccountHeader(persist: bool, r: Response)
    requires r.output == []
    ensures Accounts(Header(persist, Start(r), OK), "", [])
    ensures Steady(Header(persist, Start(r), OK), r)
  {
    hide Inv;
    InvAfterHeader(persist, r);
  }

  lemma DoneIsFinalize(decode: Decoder, persist: bool, s: State, done: string)
    requires DataOf(done) == Some(DONE)
    ensures All(decode, persist, s, [done]) == Finalize(persist, s) == ApplyLine(decode, persist, s, done)
    ensures !Mute(decode, s.calls, done)
  {
    hide Finalize;
    assert !Breaks(decode, done);
    assert [done][1..] == [];
  }

  // ---- A stream given by its payloads -----------------------------------------------------

  /** A payload that both decodings accept. */
  ghost predicate Decodes(decode: Decoder, p: string)
  {
    && IsPayload(p) && '\n' !in p && p != DONE
    && decode(p).envelope != None && decode(p).choices != None
  }

  /** The first choice's delta of each payload that has choices. */
  ghost function PayloadDeltas(decode: Decoder, ps: seq<string>): seq<Delta>
    requires forall i :: 0 <= i < |ps| ==> Decodes(decode, ps[i])
  {
    if ps == [] then []
    else
      assert Decodes(decode, ps[|ps| - 1]);
      var choices := decode(ps[|ps| - 1]).choices.value;
      PayloadDeltas(decode, ps[..|ps| - 1]) + if choices == [] then [] else [choices[0]]
  }

  ghost function PayloadEnvelopes(decode: Decoder, ps: seq<string>): (es: seq<Envelope>)
    requires forall i :: 0 <= i < |ps| ==> Decodes(decode, ps[i])
    ensures |es| == |ps|
    ensures forall i :: 0 <= i < |ps| ==> Decodes(decode, ps[i]) && es[i] == decode(ps[i]).envelope.value
  {
    seq(|ps|, i requires 0 <= i < |ps| => assert Decodes(decode, ps[i]); decode(ps[i]).envelope.value)
  }

  lemma {:induction false} DeltasAppend(decode: Decoder, a: seq<string>, b: seq<string>)
    ensures DeltasOf(decode, a + b) == DeltasOf(decode, a) + DeltasOf(decode, b)
    ensures Envelopes(decode, a + b) == Envelopes(decode, a) + Envelopes(decode, b)
  {
    hide DeltaIn, EnvelopeOn;
    if a == [] {
      assert a + b == b;
    } else {
      assert (a + b)[1..] == a[1..] + b;
      DeltasAppend(decode, a[1..], b);
    }
  }

  lemma OnePayload(decode: Decoder, p: string)
    requires Decodes(decode, p)
    ensures DataOf(DATA + p) == Some(p) && DataOf("") == None
    ensures WellFormed(decode, DATA + p) && WellFormed(decode, "")
    ensures DeltasOf(decode, [DATA + p, ""]) == if decode(p).choices.value == [] then [] else [decode(p).choices.value[0]]
    ensures Envelopes(decode, [DATA + p, ""]) == [decode(p).envelope.value]
  {
    DataOfExact("", p, "");
    assert "" + (DATA + p) + "" == DATA + p;
    assert DataOf("") == None;
    hide DataOf;
    var lines := [DATA + p, ""];
    assert lines[1..] == [""] && lines[1..][1..] == [];
    assert DeltasOf(decode, [""]) == [] + DeltasOf(decode, []);
    assert Envelopes(decode, [""]) == [] + Envelopes(decode, []);
  }

  lemma {:induction false} SentDecodes(decode: Decoder, ps: seq<string>)
    requires forall i :: 0 <= i < |ps| ==> Decodes(decode, ps[i])
    ensures forall i :: 0 <= i < |SentLines(ps)| ==> WellFormed(decode, SentLines(ps)[i])
    ensures DeltasOf(decode, SentLines(ps)) == PayloadDeltas(decode, ps)
    ensures Envelopes(decode, SentLines(ps)) == PayloadEnvelopes(decode, ps)
  {
    hide WellFormed, DeltasOf, Envelopes;
    if ps == [] {
      NothingDecoded(decode);
    } else {
      var n := |ps| - 1;
      SentDecodes(decode, ps[..n]);
      OnePayload(decode, ps[n]);
      DeltasAppend(decode, SentLines(ps[..n]), [DATA + ps[n], ""]);
      assert PayloadEnvelopes(decode, ps) == PayloadEnvelopes(decode, ps[..n]) + [decode(ps[n]).envelope.value];
    }
  }

  lemma NothingDecoded(decode: Decoder)
    ensures DeltasOf(decode, []) == [] && Envelopes(decode, []) == []
  {
  }

  lemma SentThenLine(ps: seq<string>, line: string)
    requires '\n' !in line && forall i :: 0 <= i < |ps| ==> '\n' !in ps[i]
    ensures Split("\n", Sent(ps) + (line + "\n")) == Framed(SentLines(ps) + [line], "")
  {
    hide Split, IndexOf, Sent, SentLines;
    SentSplit(ps);
    Feed("\n", Sent(ps), line + "\n");
    assert "" + (line + "\n") == line + "\n";
    NoNewline(line);
    OneLine(line);
  }

  lemma DoneLine()
    ensures DataOf(DATA + DONE) == Some(DONE)
  {
    DataOfExact("", DONE, "");
    assert "" + (DATA + DONE) + "" == DATA + DONE;
  }

  /**
   * An upstream that sends payloads and [DONE] in any pieces: the response says exactly what the
   * payloads say, in text, calls, usage, finish reason, incomplete details and error.
   */
  lemma CompletePayloads(decode: Decoder, persist: bool, r: Response, pieces: seq<string>, ps: seq<string>)
    requires r.output == [] && Concat(pieces) == Sent(ps) + (DATA + DONE + "\n")
    requires forall i :: 0 <= i < |ps| ==> Decodes(decode, ps[i])
    ensures var s := All(decode, persist, Header(persist, Start(r), OK), SentLines(ps));
            var t := WriteAll(decode, persist, Start(r), pieces);
            var ds := PayloadDeltas(decode, ps);
      && Accounts(s, Spoken(ds), Fragments(ds))
      && Complete(persist, s, t)
      && FromEnvelopes(t.response, r, PayloadEnvelopes(decode, ps))
      && Numbered(t)
      && t.buffer == ""
  {
    SentDecodes(decode, ps);
    assert forall i :: 0 <= i < |ps| ==> Decodes(decode, ps[i]);
    SentThenLine(ps, DATA + DONE);
    DoneLine();
    assert |Concat(pieces)| > 0;
    hide Split, WellFormed, Header, All, WriteAll, Accounts, Complete, FromEnvelopes, PayloadDeltas, PayloadEnvelopes, DataOf, SentLines, Sent;
    CompleteStream(decode, persist, r, pieces, SentLines(ps), DATA + DONE);
  }
}

/**
 * The agentic chat loop of the CLI: request, read the reply, run the tools the model asked for,
 * repeat. The server and the tools are arbitrary; what is proved holds for all of them.
 */
module AgentLoop {
  import opened Prelude

  const MAX_TOOL_CALL_ITERATIONS := 10

  datatype ToolCall = ToolCall(id: string, name: string, arguments: string)

  datatype ChatMessage =
    | Plain(role: string, content: string)
    | AssistantCalls(calls: seq<ToolCall>)
    | ToolResult(toolCallId: string, content: string)

  datatype Fragment = Fragment(index: int, id: string, name: string, arguments: string)

  // One line of a streamed reply, and a whole reply.
  datatype Line =
    | Other                       // empty, or carries no data
    | Finished                    // [DONE]
    | Undecodable
    | ContextDone                 // the caller cancelled before this line was read
    | Choice(finish: string, fragments: seq<Fragment>, content: string)

  datatype Reply =
    | TransportError
    | BadStatus(templateIncompatible: bool)
    | Whole(decoded: bool, content: string, finish: string, fragments: seq<Fragment>)
    | Streamed(lines: seq<Line>, readFails: bool)

  // ---- Accumulating tool calls ------------------------------------------------------------

  datatype Pending = Pending(id: string, name: string, arguments: string)

  function AddFragment(p: map<int, Pending>, f: Fragment): map<int, Pending>
  {
    var was := if f.index in p then p[f.index] else Pending("", "", "");
    p[f.index := Pending(if f.id != "" then f.id else was.id,
                         if f.name != "" then f.name else was.name,
                         was.arguments + f.arguments)]
  }

  function AddFragments(p: map<int, Pending>, fs: seq<Fragment>): map<int, Pending>
  {
    if fs == [] then p else AddFragment(AddFragments(p, fs[..|fs| - 1]), fs[|fs| - 1])
  }

  /** In a whole reply each call replaces what an earlier one left under its index. */
  function PutCalls(p: map<int, Pending>, fs: seq<Fragment>): map<int, Pending>
  {
    if fs == [] then p
    else
      var f := fs[|fs| - 1];
      PutCalls(p, fs[..|fs| - 1])[f.index := Pending(f.id, f.name, f.arguments)]
  }

  /** The calls under the indices 0, ..., k - 1, in that order. */
  function Slice(p: map<int, Pending>, k: nat): seq<ToolCall>
  {
    if k == 0 then []
    else Slice(p, k - 1) + if k - 1 in p then [ToolCall(p[k - 1].id, p[k - 1].name, p[k - 1].arguments)] else []
  }

  // ---- Reading a reply --------------------------------------------------------------------

  datatype Reading = Reading(failed: bool, content: string, finish: string, pending: map<int, Pending>)

  function ReadLines(lines: seq<Line>, readFails: bool, r: Reading): Reading
    decreases |lines|
  {
    if lines == [] then r.(failed := readFails)
    else match lines[0]
      case Other => ReadLines(lines[1..], readFails, r)
      case Finished => r.(failed := readFails)
      case Undecodable => r.(failed := true)
      case ContextDone => r.(failed := true)
      case Choice(finish, fragments, content) =>
        ReadLines(lines[1..], readFails,
                  r.(finish := if finish != "" then finish else r.finish,
                     pending := AddFragments(r.pending, fragments),
                     content := r.content + content))
  }

  function Digest(reply: Reply): Reading
  {
    match reply
    case TransportError => Reading(true, "", "", map[])
    case BadStatus(_) => Reading(true, "", "", map[])
    case Whole(decoded, content, finish, fragments) =>
      if !decoded then Reading(true, "", "", map[])
      else Reading(false, content, finish, PutCalls(map[], fragments))
    case Streamed(lines, readFails) => ReadLines(lines, readFails, Reading(false, "", "", map[]))
  }

  // ---- What a reply says ------------------------------------------------------------------

  /** The lines that are read: those before [DONE], the first bad line or the end. */
  function LinesRead(lines: seq<Line>): (read: seq<Line>)
    ensures |read| <= |lines| && read == lines[..|read|]
    ensures forall i :: 0 <= i < |read| ==> read[i].Other? || read[i].Choice?
    ensures |read| < |lines| ==> !lines[|read|].Other? && !lines[|read|].Choice?
  {
    if lines != [] && (lines[0].Other? || lines[0].Choice?) then [lines[0]] + LinesRead(lines[1..]) else []
  }

  /** The contents of the chunks on these lines, one after the other. */
  function Contents(lines: seq<Line>): string
  {
    if lines == [] then ""
    else Contents(lines[..|lines| - 1]) + if lines[|lines| - 1].Choice? then lines[|lines| - 1].content else ""
  }

  /** The last finish reason on these lines that is not empty, or `before`. */
  ghost predicate LastFinish(lines: seq<Line>, before: string, finish: string)
  {
    || (finish == before && forall i :: 0 <= i < |lines| && lines[i].Choice? ==> lines[i].finish == "")
    || (finish != "" && exists k :: 0 <= k < |lines| && lines[k].Choice? && lines[k].finish == finish
                                   && (forall i :: k < i < |lines| && lines[i].Choice? ==> lines[i].finish == ""))
  }

  /** The reading ends badly: at a line that is neither [DONE] nor fit to be read, or in the scanner. */
  predicate EndsBadly(lines: seq<Line>, readFails: bool)
  {
    var n := |LinesRead(lines)|;
    if n < |lines| && !lines[n].Finished? then true else readFails
  }

  lemma ContentsFirst(line: Line, lines: seq<Line>)
    ensures Contents([line] + lines) == (if line.Choice? then line.content else "") + Contents(lines)
    decreases |lines|
  {
    var all := [line] + lines;
    if lines == [] {
      assert all[..|all| - 1] == [] && all[|all| - 1] == line;
    } else {
      assert all[..|all| - 1] == [line] + lines[..|lines| - 1];
      ContentsFirst(line, lines[..|lines| - 1]);
    }
  }

  lemma LastFinishFirst(line: Line, lines: seq<Line>, before: string, finish: string)
    requires LastFinish(lines, if line.Choice? && line.finish != "" then line.finish else before, finish)
    ensures LastFinish([line] + lines, before, finish)
  {
    var all := [line] + lines;
    assert forall i :: 0 < i < |all| ==> all[i] == lines[i - 1];
    if exists k :: 0 <= k < |lines| && lines[k].Choice? && lines[k].finish == finish && finish != ""
                   && (forall i :: k < i < |lines| && lines[i].Choice? ==> lines[i].finish == "") {
      var k :| 0 <= k < |lines| && lines[k].Choice? && lines[k].finish == finish && finish != ""
               && (forall i :: k < i < |lines| && lines[i].Choice? ==> lines[i].finish == "");
      assert all[k + 1] == lines[k];
    } else {
      assert all[0] == line;
    }
  }

  /** The reading once one line has been read. */
  function AfterLine(line: Line, r: Reading): Reading
    requires line.Other? || line.Choice?
  {
    if line.Other? then r
    else r.(finish := if line.finish != "" then line.finish else r.finish,
            pending := AddFragments(r.pending, line.fragments),
            content := r.content + line.content)
  }

  lemma ReadLinesStep(line: Line, rest: seq<Line>, readFails: bool, r: Reading)
    requires line.Other? || line.Choice?
    ensures var lines := [line] + rest;
      && ReadLines(lines, readFails, r) == ReadLines(rest, readFails, AfterLine(line, r))
      && LinesRead(lines) == [line] + LinesRead(rest)
      && ReadFragments(lines) == (if line.Choice? then line.fragments else []) + ReadFragments(rest)
      && (EndsBadly(lines, readFails) <==> EndsBadly(rest, readFails))
  {
    hide AddFragments;
    assert ([line] + rest)[1..] == rest;
  }

  lemma ReadLinesStop(lines: seq<Line>, readFails: bool, r: Reading)
    requires lines == [] || (!lines[0].Other? && !lines[0].Choice?)
    ensures LinesRead(lines) == [] && ReadFragments(lines) == []
    ensures var t := ReadLines(lines, readFails, r);
      t == r.(failed := t.failed) && (t.failed <==> EndsBadly(lines, readFails))
  {
  }

  /** What a reading that starts as r says when it ends as t. */
  ghost predicate Exactly(lines: seq<Line>, readFails: bool, r: Reading, t: Reading)
  {
    && t.content == r.content + Contents(LinesRead(lines))
    && LastFinish(LinesRead(lines), r.finish, t.finish)
    && t.pending == AddFragments(r.pending, ReadFragments(lines))
    && (t.failed <==> EndsBadly(lines, readFails))
  }

  lemma ExactlyStop(lines: seq<Line>, readFails: bool, r: Reading)
    requires lines == [] || (!lines[0].Other? && !lines[0].Choice?)
    ensures Exactly(lines, readFails, r, ReadLines(lines, readFails, r))
  {
    ReadLinesStop(lines, readFails, r);
    hide ReadLines, LinesRead, ReadFragments, EndsBadly;
    assert r.content + Contents([]) == r.content;
    NoFragments(r.pending);
  }

  lemma ExactlyStep(line: Line, rest: seq<Line>, readFails: bool, r: Reading, t: Reading)
    requires line.Other? || line.Choice?
    requires Exactly(rest, readFails, AfterLine(line, r), t)
    ensures Exactly([line] + rest, readFails, r, t)
  {
    ReadLinesStep(line, rest, readFails, r);
    hide ReadLines, LinesRead, ReadFragments, EndsBadly, LastFinish, Contents, AddFragments;
    var more := Contents(LinesRead(rest));
    ContentsFirst(line, LinesRead(rest));
    LastFinishFirst(line, LinesRead(rest), r.finish, t.finish);
    if line.Choice? {
      AddFragmentsAppend(r.pending, line.fragments, ReadFragments(rest));
      assert r.content + line.content + more == r.content + (line.content + more);
    } else {
      assert "" + more == more && [] + ReadFragments(rest) == ReadFragments(rest);
    }
  }

  /**
   * Every reading, failed ones included: the contents of the lines read one after the other, their
   * last finish reason, their fragments, and failure exactly at a bad end.
   */
  lemma {:induction false} ReadLinesExact(lines: seq<Line>, readFails: bool, r: Reading)
    ensures Exactly(lines, readFails, r, ReadLines(lines, readFails, r))
    decreases |lines|
  {
    hide *;
    if lines != [] && (lines[0].Other? || lines[0].Choice?) {
      var line, rest := lines[0], lines[1..];
      assert lines == [line] + rest;
      ReadLinesStep(line, rest, readFails, r);
      ReadLinesExact(rest, readFails, AfterLine(line, r));
      ExactlyStep(line, rest, readFails, r, ReadLines(lines, readFails, r));
    } else {
      ExactlyStop(lines, readFails, r);
    }
  }

  /** The text of a reply. */
  function Said(reply: Reply): string
  {
    match reply
    case Whole(decoded, content, _, _) => if decoded then content else ""
    case Streamed(lines, _) => Contents(LinesRead(lines))
    case _ => ""
  }

  /** The reply cannot be used. */
  predicate Unusable(reply: Reply)
  {
    match reply
    case TransportError => true
    case BadStatus(_) => true
    case Whole(decoded, _, _, _) => !decoded
    case Streamed(lines, readFails) => EndsBadly(lines, readFails)
  }

  /** The reply gives this finish reason. */
  ghost predicate Finishes(reply: Reply, finish: string)
  {
    match reply
    case Whole(_, _, f, _) => f == finish
    case Streamed(lines, _) => LastFinish(LinesRead(lines), "", finish)
    case _ => finish == ""
  }

  /** There is at least one tool call in the reply. */
  ghost predicate HasCalls(reply: Reply)
  {
    match reply
    case Whole(_, _, _, fragments) => fragments != []
    case Streamed(lines, _) => ReadFragments(lines) != []
    case _ => false
  }

  /** The reply can be used, finishes for tool calls, and has some. */
  ghost predicate AsksForTools(reply: Reply)
  {
    !Unusable(reply) && Finishes(reply, "tool_calls") && HasCalls(reply)
  }

  lemma FinishUnique(lines: seq<Line>, a: string, b: string)
    requires LastFinish(lines, "", a) && LastFinish(lines, "", b)
    ensures a == b
  {
  }

  lemma SomePending(p: map<int, Pending>, f: Fragment)
    ensures |AddFragment(p, f)| > 0
    ensures |p[f.index := Pending(f.id, f.name, f.arguments)]| > 0
  {
    assert f.index in AddFragment(p, f);
    assert f.index in p[f.index := Pending(f.id, f.name, f.arguments)];
  }

  /** What is made of a reply is what the reply says. */
  lemma DigestExact(reply: Reply)
    ensures var d := Digest(reply);
      && d.content == Said(reply)
      && (d.failed <==> Unusable(reply))
      && (WantsTools(d) <==> AsksForTools(reply))
  {
    hide ReadLines, LinesRead, Contents, AddFragment;
    match reply
    case TransportError =>
    case BadStatus(_) =>
    case Whole(decoded, content, finish, fs) =>
      if fs != [] {
        SomePending(PutCalls(map[], fs[..|fs| - 1]), fs[|fs| - 1]);
      }
    case Streamed(lines, readFails) =>
      var fs := ReadFragments(lines);
      hide ReadFragments, LastFinish, EndsBadly;
      ReadLinesExact(lines, readFails, Reading(false, "", "", map[]));
      assert "" + Contents(LinesRead(lines)) == Contents(LinesRead(lines));
      if fs != [] {
        SomePending(AddFragments(map[], fs[..|fs| - 1]), fs[|fs| - 1]);
      }
      if LastFinish(LinesRead(lines), "", "tool_calls") {
        FinishUnique(LinesRead(lines), "tool_calls", Digest(reply).finish);
      }
  }

  predicate WantsTools(r: Reading)
  {
    !r.failed && r.finish == "tool_calls" && |r.pending| > 0
  }

  method Read(reply: Reply) returns (r: Reading)
    ensures r == Digest(reply)
  {
    match reply {
      case TransportError => r := Reading(true, "", "", map[]);
      case BadStatus(_) => r := Reading(true, "", "", map[]);
      case Whole(decoded, content, finish, calls) =>
        if !decoded {
          return Reading(true, "", "", map[]);
        }
        var pending: map<int, Pending> := map[];
        var i := 0;
        while i < |calls|
          invariant 0 <= i <= |calls|
          invariant pending == PutCalls(map[], calls[..i])
        {
          assert calls[..i + 1][..i] == calls[..i];
          pending := pending[calls[i].index := Pending(calls[i].id, calls[i].name, calls[i].arguments)];
          i := i + 1;
        }
        assert calls[..i] == calls;
        r := Reading(false, content, finish, pending);
      case Streamed(lines, readFails) =>
        r := ReadStream(lines, readFails);
    }
  }

  /** The scanner loop over the lines of a streamed reply. */
  method ReadStream(lines: seq<Line>, readFails: bool) returns (r: Reading)
    ensures r == ReadLines(lines, readFails, Reading(false, "", "", map[]))
  {
    r := Reading(false, "", "", map[]);
    var i := 0;
    while i < |lines|
      invariant 0 <= i <= |lines|
      invariant ReadLines(lines, readFails, Reading(false, "", "", map[])) == ReadLines(lines[i..], readFails, r)
    {
      assert lines[i..][0] == lines[i] && lines[i..][1..] == lines[i + 1..];
      match lines[i] {
        case Other =>
        case Finished => break;
        case Undecodable => return r.(failed := true);
        case ContextDone => return r.(failed := true);
        case Choice(finish, fragments, content) =>
          if finish != "" {
            r := r.(finish := finish);
          }
          var pending := Accumulate(r.pending, fragments);
          r := r.(pending := pending, content := r.content + content);
      }
      i := i + 1;
    }
    r := r.(failed := readFails);
  }

  method Accumulate(before: map<int, Pending>, fragments: seq<Fragment>) returns (pending: map<int, Pending>)
    ensures pending == AddFragments(before, fragments)
  {
    pending := before;
    var i := 0;
    while i < |fragments|
      invariant 0 <= i <= |fragments|
      invariant pending == AddFragments(before, fragments[..i])
    {
      assert fragments[..i + 1][..i] == fragments[..i];
      var tc := fragments[i];
      var atc := Pending("", "", "");
      if tc.index in pending {
        atc := pending[tc.index];
      }
      if tc.id != "" {
        atc := atc.(id := tc.id);
      }
      if tc.name != "" {
        atc := atc.(name := tc.name);
      }
      pending := pending[tc.index := atc.(arguments := atc.arguments + tc.arguments)];
      i := i + 1;
    }
    assert fragments[..i] == fragments;
  }

  // ---- The loop ---------------------------------------------------------------------------

  datatype Request = Request(messages: seq<ChatMessage>, toolsOffered: bool)

  /**
   * The server answers the k-th request; `tools` names the tools on offer and `execute` is what
   * the n-th execution of a tool returns, errors included.
   */
  datatype Environment = Environment(
    server: (nat, Request) -> Reply,
    tools: set<string>,
    execute: (nat, ToolCall) -> string)

  /** Exactly one result for each call, with its id, in order. */
  ghost predicate Answered(calls: seq<ToolCall>, results: seq<ChatMessage>)
  {
    && |results| == |calls|
    && forall i :: 0 <= i < |calls| ==> results[i].ToolResult? && results[i].toolCallId == calls[i].id
  }

  /** Blocks of one assistant message with calls and the results of exactly these calls. */
  ghost predicate Blocks(ms: seq<ChatMessage>)
    decreases |ms|
  {
    ms == [] ||
    exists n: nat ::
      && n < |ms|
      && ms[n].AssistantCalls?
      && Answered(ms[n].calls, ms[n + 1..])
      && Blocks(ms[..n])
  }

  lemma BlocksExtend(ms: seq<ChatMessage>, calls: seq<ToolCall>, results: seq<ChatMessage>)
    requires Blocks(ms) && Answered(calls, results)
    ensures Blocks(ms + [AssistantCalls(calls)] + results)
  {
    var all := ms + [AssistantCalls(calls)] + results;
    var n := |ms|;
    assert all[..n] == ms && all[n + 1..] == results && all[n].AssistantCalls?;
  }

  /** Initial messages, then answered blocks. */
  ghost predicate WellFormedRequest(initial: seq<ChatMessage>, r: Request)
  {
    initial <= r.messages && Blocks(r.messages[|initial|..])
  }

  /** Tools are offered up to some request and never again after it. */
  ghost predicate FallsBackOnce(requests: seq<Request>)
  {
    forall j, k :: 0 <= j < k < |requests| ==> requests[k].toolsOffered ==> requests[j].toolsOffered
  }

  /**
   * What the loop sends after reply k: from the start and without tools when the template rejected
   * them, otherwise the same messages, the calls the reply asked for, and their results.
   */
  ghost predicate Follows(env: Environment, initial: seq<ChatMessage>, k: nat, r: Request, next: Request)
  {
    var reply := env.server(k, r);
    if r.toolsOffered && reply == BadStatus(true) then next == Request(initial, false)
    else
      var calls := Slice(Digest(reply).pending, |Digest(reply).pending|);
      && AsksForTools(reply)
      && next.toolsOffered == r.toolsOffered
      && ExtendsBy(r.messages, calls, next.messages)
  }

  ghost predicate ExtendsBy(before: seq<ChatMessage>, calls: seq<ToolCall>, after: seq<ChatMessage>)
  {
    && |after| == |before| + 1 + |calls|
    && after[..|before|] == before
    && after[|before|] == AssistantCalls(calls)
    && Answered(calls, after[|before| + 1..])
  }

  ghost predicate EachFollows(env: Environment, initial: seq<ChatMessage>, requests: seq<Request>)
  {
    forall j, k :: 0 <= j && k == j + 1 && k < |requests| ==> Follows(env, initial, j, requests[j], requests[k])
  }

  /**
   * For every server and every tools: at most eleven requests, tools given up at most once and
   * then from the initial messages, every request well formed. The loop ends with the content of
   * the last reply: well when that was read and asked for no tools, otherwise only because it failed
   * or was the tenth to ask for tools. A rejection that the fallback can answer is never the last.
   */
  method Chat(env: Environment, initial: seq<ChatMessage>)
    returns (answer: string, ok: bool, requests: seq<Request>)
    ensures 1 <= |requests| <= 11
    ensures requests[0] == Request(initial, env.tools != {})
    ensures forall k :: 0 <= k < |requests| ==> WellFormedRequest(initial, requests[k])
    ensures FallsBackOnce(requests) && EachFollows(env, initial, requests)
    ensures
      var request := requests[|requests| - 1];
      var reply := env.server(|requests| - 1, request);
      && !(request.toolsOffered && reply == BadStatus(true))
      && answer == Said(reply)
      && (ok <==> !Unusable(reply) && !AsksForTools(reply))
      && (AsksForTools(reply) ==> |requests| == if request.toolsOffered || env.tools == {} then 10 else 11)
  {
    hide Blocks, FallsBackOnce, EachFollows, Digest, ExtendsBy, Slice, Said, Unusable, AsksForTools;
    var messages := initial;
    var toolsSupported := env.tools != {};
    var toolMap := env.tools;
    var executions: nat := 0;
    var toolCallIterations := 0;
    answer, requests := "", [];
    FirstRequest(env, initial, toolsSupported);
    while true
      invariant toolMap == if toolsSupported then env.tools else {}
      invariant toolsSupported ==> env.tools != {}
      invariant answer == ""
      invariant 0 <= toolCallIterations < MAX_TOOL_CALL_ITERATIONS
      invariant |requests| == toolCallIterations + if toolsSupported || env.tools == {} then 0 else 1
      invariant requests == [] ==> messages == initial && toolsSupported == (env.tools != {})
      invariant requests != [] ==> requests[0] == Request(initial, env.tools != {})
      invariant WellFormedRequest(initial, Request(messages, toolsSupported))
      invariant forall k :: 0 <= k < |requests| ==> WellFormedRequest(initial, requests[k])
      invariant FallsBackOnce(requests + [Request(messages, toolsSupported)])
      invariant EachFollows(env, initial, requests + [Request(messages, toolsSupported)])
      decreases (if toolsSupported then 1 else 0) + MAX_TOOL_CALL_ITERATIONS - toolCallIterations
    {
      var request := Request(messages, toolsSupported);
      var reply := env.server(|requests|, request);
      ghost var before := requests;
      requests := requests + [request];
      NoReply(reply);
      DigestExact(reply);
      if reply.TransportError? {
        return answer, false, requests;
      }
      if reply.BadStatus? {
        if toolsSupported && reply.templateIncompatible {
          toolMap, toolsSupported, messages, answer := {}, false, initial, "";
          FirstRequest(env, initial, false);
          LogGrows(env, initial, before, request, Request(initial, false));
          continue;
        }
        return answer, false, requests;
      }
      var reading := Read(reply);
      answer := reading.content;
      if reading.failed {
        return answer, false, requests;
      }
      if reading.finish == "tool_calls" && |reading.pending| > 0 {
        toolCallIterations := toolCallIterations + 1;
        if toolCallIterations >= MAX_TOOL_CALL_ITERATIONS {
          return answer, false, requests;
        }
        messages, executions := ToolRound(env, toolMap, executions, initial, messages, reading.pending);
        LogGrows(env, initial, before, request, Request(messages, toolsSupported));
        answer := "";
        continue;
      }
      return answer, true, requests;
    }
  }

  lemma NoReply(reply: Reply)
    ensures reply.TransportError? || reply.BadStatus? ==> Digest(reply).failed && Digest(reply).content == ""
  {
  }

  lemma FirstRequest(env: Environment, initial: seq<ChatMessage>, offered: bool)
    ensures WellFormedRequest(initial, Request(initial, offered))
    ensures FallsBackOnce([] + [Request(initial, offered)])
    ensures EachFollows(env, initial, [] + [Request(initial, offered)])
  {
    assert initial[|initial|..] == [];
  }

  /** One round of tool execution: the assistant message with the calls, then their results. */
  method ToolRound(env: Environment, toolMap: set<string>, executed: nat, ghost initial: seq<ChatMessage>,
                   messages: seq<ChatMessage>, pending: map<int, Pending>)
    returns (extended: seq<ChatMessage>, nowExecuted: nat)
    requires initial <= messages && Blocks(messages[|initial|..])
    ensures initial <= extended && Blocks(extended[|initial|..])
    ensures ExtendsBy(messages, Slice(pending, |pending|), extended)
  {
    hide Blocks;
    var calls := CollectCalls(pending);
    var results := RunTools(env, toolMap, executed, calls);
    nowExecuted := executed + |calls|;
    extended := messages + [AssistantCalls(calls)] + results;
    BlocksExtend(messages[|initial|..], calls, results);
    assert extended[|initial|..] == messages[|initial|..] + [AssistantCalls(calls)] + results;
    assert extended[|messages| + 1..] == results;
  }

  lemma LogGrows(env: Environment, initial: seq<ChatMessage>, before: seq<Request>, last: Request, next: Request)
    requires FallsBackOnce(before + [last]) && EachFollows(env, initial, before + [last])
    requires Follows(env, initial, |before|, last, next)
    ensures FallsBackOnce(before + [last] + [next])
    ensures EachFollows(env, initial, before + [last] + [next])
  {
    hide Slice, Digest, ExtendsBy;
    var a, b := before + [last], before + [last] + [next];
    assert forall k :: 0 <= k < |a| ==> b[k] == a[k];
    assert a[|before|] == last && b[|a|] == next;
    forall j, k | 0 <= j < k < |b| && b[k].toolsOffered ensures b[j].toolsOffered {
      if k == |a| {
        assert a[|before|].toolsOffered;
        assert j < |before| ==> a[j].toolsOffered;
      }
    }
  }

  method CollectCalls(pending: map<int, Pending>) returns (calls: seq<ToolCall>)
    ensures calls == Slice(pending, |pending|)
  {
    calls := [];
    var idx := 0;
    while idx < |pending|
      invariant 0 <= idx <= |pending|
      invariant calls == Slice(pending, idx)
    {
      if idx in pending {
        var atc := pending[idx];
        calls := calls + [ToolCall(atc.id, atc.name, atc.arguments)];
      }
      idx := idx + 1;
    }
  }

  method RunTools(env: Environment, toolMap: set<string>, executed: nat, calls: seq<ToolCall>)
    returns (results: seq<ChatMessage>)
    ensures Answered(calls, results)
    ensures forall i :: 0 <= i < |calls| ==>
      results[i].content == if calls[i].name in toolMap then env.execute(executed + i, calls[i])
                            else "unknown tool: " + calls[i].name
  {
    results := [];
    var i := 0;
    while i < |calls|
      invariant 0 <= i <= |calls|
      invariant Answered(calls[..i], results)
      invariant forall k :: 0 <= k < i ==>
        results[k].content == if calls[k].name in toolMap then env.execute(executed + k, calls[k])
                              else "unknown tool: " + calls[k].name
    {
      var result;
      if calls[i].name in toolMap {
        result := env.execute(executed + i, calls[i]);
      } else {
        result := "unknown tool: " + calls[i].name;
      }
      results := results + [ToolResult(calls[i].id, result)];
      i := i + 1;
    }
    assert calls[..i] == calls;
  }

  // ---- What a call's arguments are --------------------------------------------------------

  /** The fragments of the lines that are read. */
  function ReadFragments(lines: seq<Line>): seq<Fragment>
  {
    if lines == [] then []
    else match lines[0]
      case Other => ReadFragments(lines[1..])
      case Choice(_, fragments, _) => fragments + ReadFragments(lines[1..])
      case _ => []
  }

  function ArgumentsAt(fs: seq<Fragment>, index: int): string
  {
    if fs == [] then ""
    else
      var f := fs[|fs| - 1];
      ArgumentsAt(fs[..|fs| - 1], index) + if f.index == index then f.arguments else ""
  }

  lemma {:induction false} AddFragmentsAppend(p: map<int, Pending>, a: seq<Fragment>, b: seq<Fragment>)
    ensures AddFragments(p, a + b) == AddFragments(AddFragments(p, a), b)
    decreases |b|
  {
    if b == [] {
      assert a + b == a;
    } else {
      assert (a + b)[..|a + b| - 1] == a + b[..|b| - 1];
      AddFragmentsAppend(p, a, b[..|b| - 1]);
    }
  }

  lemma {:induction false} PendingOfLines(lines: seq<Line>, readFails: bool, r: Reading)
    ensures ReadLines(lines, readFails, r).pending == AddFragments(r.pending, ReadFragments(lines))
    decreases |lines|
  {
    hide AddFragments;
    NoFragments(r.pending);
    if lines != [] {
      match lines[0]
      case Choice(finish, fragments, content) =>
        var r1 := r.(finish := if finish != "" then finish else r.finish,
                     pending := AddFragments(r.pending, fragments),
                     content := r.content + content);
        PendingOfLines(lines[1..], readFails, r1);
        AddFragmentsAppend(r.pending, fragments, ReadFragments(lines[1..]));
      case Other => PendingOfLines(lines[1..], readFails, r);
      case _ =>
    }
  }

  lemma NoFragments(p: map<int, Pending>)
    ensures AddFragments(p, []) == p
  {
  }

  /** Each accumulated call has the concatenation of the argument fragments under its index. */
  lemma {:induction false} AccumulatedArguments(fs: seq<Fragment>, index: int)
    ensures index in AddFragments(map[], fs) <==> exists i :: 0 <= i < |fs| && fs[i].index == index
    ensures index in AddFragments(map[], fs) ==> AddFragments(map[], fs)[index].arguments == ArgumentsAt(fs, index)
    ensures index !in AddFragments(map[], fs) ==> ArgumentsAt(fs, index) == ""
  {
    if fs != [] {
      var n := |fs| - 1;
      AccumulatedArguments(fs[..n], index);
      assert forall i :: 0 <= i < n ==> fs[..n][i] == fs[i];
      if index in AddFragments(map[], fs[..n]) {
        var i :| 0 <= i < n && fs[..n][i].index == index;
        assert fs[i].index == index;
      }
    }
  }

  /** The ids, or the names, that the fragments under one index carry. */
  function IdsAt(fs: seq<Fragment>, index: int): seq<string>
  {
    if fs == [] then []
    else IdsAt(fs[..|fs| - 1], index) + if fs[|fs| - 1].index == index then [fs[|fs| - 1].id] else []
  }

  function NamesAt(fs: seq<Fragment>, index: int): seq<string>
  {
    if fs == [] then []
    else NamesAt(fs[..|fs| - 1], index) + if fs[|fs| - 1].index == index then [fs[|fs| - 1].name] else []
  }

  /** The last text that is not empty; empty when there is none. */
  ghost predicate LastGiven(given: seq<string>, value: string)
  {
    || (value == "" && forall i :: 0 <= i < |given| ==> given[i] == "")
    || (value != "" && exists k :: 0 <= k < |given| && given[k] == value && (forall i :: k < i < |given| ==> given[i] == ""))
  }

  lemma LastGivenNext(given: seq<string>, value: string, next: string)
    requires LastGiven(given, value)
    ensures LastGiven(given + [next], if next != "" then next else value)
  {
    var all := given + [next];
    assert forall i :: 0 <= i < |given| ==> all[i] == given[i];
    assert all[|given|] == next;
    if next == "" && value != "" {
      var k :| 0 <= k < |given| && given[k] == value && (forall i :: k < i < |given| ==> given[i] == "");
      assert all[k] == value;
    }
  }

  /** Each accumulated call has the last id and the last name given under its index. */
  lemma {:induction false} AccumulatedIdentity(fs: seq<Fragment>, index: int)
    ensures var p := AddFragments(map[], fs);
      && (index in p ==> LastGiven(IdsAt(fs, index), p[index].id) && LastGiven(NamesAt(fs, index), p[index].name))
      && (index !in p ==> IdsAt(fs, index) == [] && NamesAt(fs, index) == [])
  {
    if fs != [] {
      var init, f := fs[..|fs| - 1], fs[|fs| - 1];
      AccumulatedIdentity(init, index);
      hide LastGiven;
      if f.index == index {
        var p := AddFragments(map[], init);
        var was := if index in p then p[index] else Pending("", "", "");
        assert LastGiven(IdsAt(init, index), was.id) && LastGiven(NamesAt(init, index), was.name) by { NothingGiven(); }
        LastGivenNext(IdsAt(init, index), was.id, f.id);
        LastGivenNext(NamesAt(init, index), was.name, f.name);
      } else {
        assert IdsAt(init, index) + [] == IdsAt(init, index) && NamesAt(init, index) + [] == NamesAt(init, index);
      }
    }
  }

  lemma NothingGiven()
    ensures LastGiven([], "")
  {
  }

  ghost predicate Dense(p: map<int, Pending>)
  {
    forall k :: k in p <==> 0 <= k < |p|
  }

  lemma {:induction false} SliceShort(p: map<int, Pending>, k: nat)
    ensures |Slice(p, k)| <= k
    ensures |Slice(p, k)| == k <==> forall i :: 0 <= i < k ==> i in p
    ensures |Slice(p, k)| == k ==> forall i :: 0 <= i < k ==>
      Slice(p, k)[i] == ToolCall(p[i].id, p[i].name, p[i].arguments)
  {
    if k > 0 {
      SliceShort(p, k - 1);
    }
  }

  function UpTo(n: nat): (s: set<int>)
    ensures |s| == n
    ensures forall k :: k in s <==> 0 <= k < n
  {
    if n == 0 then {} else UpTo(n - 1) + {n - 1}
  }

  lemma SubsetSize<T>(a: set<T>, b: set<T>)
    requires a <= b
    ensures |a| <= |b|
    decreases |a|
  {
    if |a| > 0 {
      var x :| x in a;
      SubsetSize(a - {x}, b - {x});
    }
  }

  lemma SameSize<T>(a: set<T>, b: set<T>)
    requires a <= b && |a| == |b|
    ensures a == b
  {
    if !(b <= a) {
      var x :| x in b && x !in a;
      SubsetSize(a, b - {x});
    }
  }

  /**
   * The assistant message carries every accumulated call, each with all its argument fragments in
   * order, if and only if the indices are dense: 0, 1, ..., n - 1.
   */
  lemma AllCallsSentIffDense(fs: seq<Fragment>)
    ensures var p := AddFragments(map[], fs);
      && (|Slice(p, |p|)| == |p| <==> Dense(p))
      && (Dense(p) ==> forall i :: 0 <= i < |p| ==> Slice(p, |p|)[i].arguments == ArgumentsAt(fs, i))
  {
    var p := AddFragments(map[], fs);
    SliceShort(p, |p|);
    if |Slice(p, |p|)| == |p| {
      SameSize(UpTo(|p|), p.Keys);
      assert forall k :: k in p <==> k in UpTo(|p|);
    }
    forall i | Dense(p) && 0 <= i < |p| ensures Slice(p, |p|)[i].arguments == ArgumentsAt(fs, i) {
      AccumulatedArguments(fs, i);
    }
  }

  /** A gap in the indices: the one call that was asked for is not sent back. */
  lemma AllCallsSentExample(name: string, arguments: string)
    ensures var p := AddFragments(map[], [Fragment(1, "a", name, arguments)]);
      |p| == 1 && Slice(p, |p|) == []
  {
    var f := Fragment(1, "a", name, arguments);
    var fs := [f];
    assert fs[..|fs| - 1] == [] && fs[|fs| - 1] == f;
    NoFragments(map[]);
    var p := AddFragments(map[], fs);
    assert p == AddFragment(map[], f);
    assert p.Keys == {1};
    assert |p| == |p.Keys|;
    assert Slice(p, 1) == Slice(p, 0) + [];
  }

  // ---- The calls of a whole reply ---------------------------------------------------------

  function IndexSet(fs: seq<Fragment>): set<int>
  {
    set i | 0 <= i < |fs| :: fs[i].index
  }

  /** A whole reply keeps one call for each index. */
  lemma {:induction false} PutCallsKeys(fs: seq<Fragment>)
    ensures PutCalls(map[], fs).Keys == IndexSet(fs) && |PutCalls(map[], fs)| <= |fs|
  {
    if fs != [] {
      var n, init := |fs| - 1, fs[..|fs| - 1];
      PutCallsKeys(init);
      IndexSetNext(fs);
      var p, q := PutCalls(map[], init), PutCalls(map[], fs);
      assert q.Keys == p.Keys + {fs[n].index};
      assert |q| == |q.Keys| && |p| == |p.Keys|;
    }
  }

  lemma IndexSetNext(fs: seq<Fragment>)
    requires fs != []
    ensures IndexSet(fs) == IndexSet(fs[..|fs| - 1]) + {fs[|fs| - 1].index}
  {
    var init := fs[..|fs| - 1];
    assert forall i :: 0 <= i < |init| ==> init[i] == fs[i];
    forall k | k in IndexSet(fs) ensures k in IndexSet(init) + {fs[|fs| - 1].index} {
      var i :| 0 <= i < |fs| && fs[i].index == k;
      if i < |init| {
        assert init[i].index in IndexSet(init);
      }
    }
  }

  /** When no two calls share an index, each is kept under its own. */
  lemma {:induction false} PutCallsValues(fs: seq<Fragment>)
    requires |PutCalls(map[], fs)| == |fs|
    ensures forall i :: 0 <= i < |fs| ==>
      fs[i].index in PutCalls(map[], fs)
      && PutCalls(map[], fs)[fs[i].index] == Pending(fs[i].id, fs[i].name, fs[i].arguments)
  {
    hide IndexSet;
    if fs != [] {
      var n, init := |fs| - 1, fs[..|fs| - 1];
      var p, q := PutCalls(map[], init), PutCalls(map[], fs);
      PutCallsKeys(init);
      assert q == p[fs[n].index := Pending(fs[n].id, fs[n].name, fs[n].arguments)];
      assert fs[n].index in p ==> q.Keys == p.Keys;
      assert q.Keys == p.Keys + {fs[n].index};
      assert |q| == |q.Keys| && |p| == |p.Keys|;
      PutCallsValues(init);
      assert forall i :: 0 <= i < n ==> init[i] == fs[i];
    }
  }

  /**
   * All calls of a whole reply are sent back, each under its index, if and only if their indices are
   * a permutation of 0, 1, ..., n - 1. A server that leaves them out gives every call index 0.
   */
  lemma WholeReplySentIffPermutation(fs: seq<Fragment>)
    ensures var p := PutCalls(map[], fs);
      && (|Slice(p, |p|)| == |fs| <==> IndexSet(fs) == UpTo(|fs|))
      && (IndexSet(fs) == UpTo(|fs|) ==> forall i :: 0 <= i < |fs| ==>
            0 <= fs[i].index < |fs|
            && Slice(p, |p|)[fs[i].index] == ToolCall(fs[i].id, fs[i].name, fs[i].arguments))
  {
    hide PutCalls, Slice, IndexSet;
    var p := PutCalls(map[], fs);
    PutCallsKeys(fs);
    SliceShort(p, |p|);
    assert |p| == |p.Keys|;
    if |Slice(p, |p|)| == |fs| {
      SameSize(UpTo(|p|), p.Keys);
    }
    if |p| == |fs| {
      PutCallsValues(fs);
    }
    forall i | IndexSet(fs) == UpTo(|fs|) && 0 <= i < |fs|
      ensures 0 <= fs[i].index < |fs|
      ensures Slice(p, |p|)[fs[i].index] == ToolCall(fs[i].id, fs[i].name, fs[i].arguments)
    {
      IndexIn(fs, i);
    }
  }

  lemma IndexIn(fs: seq<Fragment>, i: nat)
    requires i < |fs|
    ensures fs[i].index in IndexSet(fs)
  {
  }

  // ---- Retries ----------------------------------------------------------------------------

  datatype Attempt = Attempt(ok: bool, shown: bool, retry: bool)

  /** The attempts that are made: up to the first that succeeds or may not be retried. */
  ghost predicate Stops(a: Attempt)
  {
    a.ok || !a.retry
  }

  /**
   * `operation(k)` is what the k-th attempt gives. Attempts go on while they fail and may be
   * retried, at most maxRetries + 1 of them, none for a negative number; the outcome is that of the
   * last one made, and an error when there was none.
   */
  method WithRetries(operation: nat -> Attempt, maxRetries: int) returns (ok: bool, shown: bool, made: nat)
    ensures made == 0 <==> maxRetries < 0
    ensures maxRetries >= 0 ==> made <= maxRetries + 1
    ensures forall k :: 0 <= k < made - 1 ==> !Stops(operation(k))
    ensures made <= maxRetries ==> Stops(operation(made - 1))
    ensures ok <==> made > 0 && operation(made - 1).ok
    ensures shown <==> exists k :: 0 <= k < made && operation(k).shown
  {
    shown, made := false, 0;
    while made <= maxRetries
      invariant maxRetries >= 0 ==> made <= maxRetries + 1
      invariant maxRetries < 0 ==> made == 0
      invariant forall k :: 0 <= k < made ==> !Stops(operation(k))
      invariant shown <==> exists k :: 0 <= k < made && operation(k).shown
    {
      var a := operation(made);
      shown := shown || a.shown;
      made := made + 1;
      if a.ok {
        return true, shown, made;
      }
      if !a.retry {
        return false, shown, made;
      }
    }
    ok := false;
  }
}

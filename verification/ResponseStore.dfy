/**
 * The in-memory response store: a map with a time to live, lazy expiry on lookup and a background
 * cleanup, and the handler's use of it.
 */
module ResponseStore {
  import opened Framing
  import opened Prelude
  import opened ResponseTypes

  datatype Entry = Entry(response: Response, expiresAt: int)
  type Entries = map<string, Entry>

  // ---- What the operations mean on the entries --------------------------------------------

  predicate Live(entries: Entries, now: int, id: string)
  {
    id in entries && now <= entries[id].expiresAt
  }

  function Lookup(entries: Entries, now: int, id: string): Option<Response>
  {
    if Live(entries, now, id) then Some(entries[id].response) else None
  }

  function Saved(entries: Entries, now: int, ttl: int, r: Response): Entries
  {
    entries[r.id := Entry(r, now + ttl)]
  }

  function Updated(entries: Entries, now: int, ttl: int, id: string, f: Response -> Response): Entries
  {
    if Live(entries, now, id) then entries[id := Entry(f(entries[id].response), now + ttl)] else entries
  }

  function Cleaned(entries: Entries, now: int): Entries
  {
    map id | id in entries && now <= entries[id].expiresAt :: entries[id]
  }

  // ---- Messages ---------------------------------------------------------------------------

  datatype ChatMessage =
    | Text(role: string, content: string)
    | ToolCallMessage(callId: Id, name: string, arguments: string)

  function MessageOf(item: Item): ChatMessage
  {
    match item
    case Message(_, text, _) => Text("assistant", text)
    case FunctionCall(_, callId, name, arguments, _) => ToolCallMessage(callId, name, arguments)
  }

  function OutputMessages(items: seq<Item>): (ms: seq<ChatMessage>)
    ensures |ms| == |items|
    ensures forall i :: 0 <= i < |items| ==> ms[i] == MessageOf(items[i])
  {
    if items == [] then [] else [MessageOf(items[0])] + OutputMessages(items[1..])
  }

  // ---- The order behind the links ---------------------------------------------------------

  /** Position of an id in the order in which creations were validated; |order| when absent. */
  function Rank(order: seq<string>, id: string): (k: nat)
    ensures k <= |order|
    ensures k < |order| <==> id in order
    ensures k < |order| ==> order[k] == id
  {
    if order == [] then 0 else if order[0] == id then 0 else 1 + Rank(order[1..], id)
  }

  /** The predecessor an id points to: absent and empty mean there is none. */
  function LinkOf(previous: Option<string>): Option<string>
  {
    if previous == Some("") then None else previous
  }

  /** The link of `id` leads to an id validated earlier. */
  predicate LinksBack(order: seq<string>, id: string, previous: Option<string>)
  {
    && id in order
    && match LinkOf(previous)
       case None => true
       case Some(p) => p in order && Rank(order, p) < Rank(order, id)
  }

  predicate WellLinked(entries: Entries, order: seq<string>)
  {
    forall id :: id in entries ==>
      entries[id].response.id == id && LinksBack(order, id, entries[id].response.previous)
  }

  /** Follows previous_response_id to the oldest live predecessor. */
  function History(entries: Entries, now: int, order: seq<string>, r: Response): seq<ChatMessage>
    requires WellLinked(entries, order) && LinksBack(order, r.id, r.previous)
    decreases Rank(order, r.id)
  {
    (match LinkOf(r.previous)
     case None => []
     case Some(p) =>
       match Lookup(entries, now, p)
       case None => []
       case Some(prev) => History(entries, now, order, prev))
    + OutputMessages(r.output)
  }

  // ---- The store --------------------------------------------------------------------------

  const DEFAULT_TTL := 3600

  class Store {
    const ttl: int
    var responses: Entries

    constructor (ttl: int)
      ensures responses == map[]
      ensures this.ttl == if ttl <= 0 then DEFAULT_TTL else ttl
      ensures this.ttl > 0
    {
      this.ttl := if ttl <= 0 then DEFAULT_TTL else ttl;
      responses := map[];
    }

    method Save(now: int, r: Response)
      modifies this
      ensures responses == Saved(old(responses), now, ttl, r)
    {
      responses := responses[r.id := Entry(r, now + ttl)];
    }

    method Get(now: int, id: string) returns (r: Option<Response>)
      ensures r == Lookup(responses, now, id)
    {
      if id !in responses {
        return None;
      }
      if now > responses[id].expiresAt {
        return None;
      }
      return Some(responses[id].response);
    }

    /** Does not look at the expiry: an expired entry is still reported as deleted. */
    method Delete(id: string) returns (found: bool)
      modifies this
      ensures found <==> id in old(responses)
      ensures responses == old(responses) - {id}
    {
      found := id in responses;
      if found {
        responses := responses - {id};
      }
    }

    method Update(now: int, id: string, f: Response -> Response) returns (done: bool)
      modifies this
      ensures done <==> Live(old(responses), now, id)
      ensures responses == Updated(old(responses), now, ttl, id, f)
    {
      if id !in responses || now > responses[id].expiresAt {
        return false;
      }
      var r := f(responses[id].response);
      responses := responses[id := Entry(r, now + ttl)];
      return true;
    }

    method Cleanup(now: int)
      modifies this
      ensures responses == Cleaned(old(responses), now)
    {
      var left := responses.Keys;
      while left != {}
        invariant left <= responses.Keys <= old(responses).Keys
        invariant forall id :: id in responses ==> responses[id] == old(responses)[id]
        invariant forall id :: id in old(responses) && id !in left ==>
          (id in responses <==> now <= old(responses)[id].expiresAt)
        invariant forall id :: id in left ==> id in responses
        decreases left
      {
        var id :| id in left;
        if now > responses[id].expiresAt {
          responses := responses - {id};
        }
        left := left - {id};
      }
    }

    /** The recursive build; `order` is the validation order that bounds it. */
    method GetConversationHistory(now: int, r: Response, ghost order: seq<string>)
      returns (messages: seq<ChatMessage>)
      requires WellLinked(responses, order) && LinksBack(order, r.id, r.previous)
      ensures messages == History(responses, now, order, r)
      decreases Rank(order, r.id)
    {
      messages := [];
      if r.previous != None && r.previous.value != "" {
        var prev := Get(now, r.previous.value);
        if prev != None {
          messages := GetConversationHistory(now, prev.value, order);
        }
      }
      ghost var earlier := messages;
      var i := 0;
      while i < |r.output|
        invariant 0 <= i <= |r.output|
        invariant messages == earlier + OutputMessages(r.output[..i])
      {
        assert r.output[..i + 1] == r.output[..i] + [r.output[i]];
        assert OutputMessages(r.output[..i + 1]) == OutputMessages(r.output[..i]) + [MessageOf(r.output[i])];
        match r.output[i] {
          case Message(_, text, _) => messages := messages + [Text("assistant", text)];
          case FunctionCall(_, callId, name, arguments, _) =>
            messages := messages + [ToolCallMessage(callId, name, arguments)];
        }
        i := i + 1;
      }
      assert r.output[..i] == r.output;
    }
  }

  // ---- Creating a response ----------------------------------------------------------------

  /** A tool definition: its function is given in a field of its own, or by the fields beside it. */
  datatype FunctionSpec = FunctionSpec(name: string, description: string, parameters: string)
  datatype ToolSpec = ToolSpec(kind: string, nested: Option<FunctionSpec>, flat: FunctionSpec)

  /** The requested text format: its type, and the name and schema that one of the types needs. */
  datatype TextFormat = TextFormat(kind: string, name: string, schema: string)

  /** The pattern ^[A-Za-z0-9_-]{1,64}$. */
  predicate IsFormatName(name: string)
  {
    1 <= |name| <= 64 && forall i :: 0 <= i < |name| ==>
      'A' <= name[i] <= 'Z' || 'a' <= name[i] <= 'z' || '0' <= name[i] <= '9' || name[i] == '_' || name[i] == '-'
  }

  datatype CreateRequest = CreateRequest(
    instructions: string,
    previousId: string,
    format: Option<TextFormat>,
    tools: seq<ToolSpec>,
    input: Option<seq<ChatMessage>>)

  datatype ChatRequest =
    | Rejected
    | Accepted(format: Option<TextFormat>, tools: seq<FunctionSpec>, messages: seq<ChatMessage>)

  /** `isObject` says whether a text decodes to a JSON object. */
  predicate FormatSupported(isObject: string -> bool, format: Option<TextFormat>)
  {
    format == None || format.value.kind in {"", "text", "json_object"}
    || (format.value.kind == "json_schema" && IsFormatName(format.value.name)
        && TrimSpace(format.value.schema) != "" && isObject(format.value.schema))
  }

  /** The format passed on: none for plain text, no name or schema for any JSON object. */
  method ResponseFormat(isObject: string -> bool, format: Option<TextFormat>) returns (ok: bool, passed: Option<TextFormat>)
    ensures ok <==> FormatSupported(isObject, format)
    ensures ok ==> (passed == None <==> format == None || format.value.kind in {"", "text"})
    ensures ok && passed != None ==>
      && passed.value.kind == format.value.kind
      && (passed.value.kind == "json_schema" ==> passed == format)
      && (passed.value.kind == "json_object" ==> passed.value.name == passed.value.schema == "")
  {
    if format == None {
      return true, None;
    }
    var f := format.value;
    if f.kind == "" || f.kind == "text" {
      return true, None;
    } else if f.kind == "json_object" {
      return true, Some(TextFormat("json_object", "", ""));
    } else if f.kind == "json_schema" {
      if f.name == "" {
        return false, None;
      }
      if !IsFormatName(f.name) {
        return false, None;
      }
      if TrimSpace(f.schema) == "" {
        return false, None;
      }
      if !isObject(f.schema) {
        return false, None;
      }
      return true, Some(TextFormat("json_schema", f.name, f.schema));
    } else {
      return false, None;
    }
  }

  /** Only functions are supported; each keeps its place. */
  method ConvertTools(tools: seq<ToolSpec>) returns (converted: Option<seq<FunctionSpec>>)
    ensures converted == None <==> exists i :: 0 <= i < |tools| && tools[i].kind != "function"
    ensures converted != None ==>
      && |converted.value| == |tools|
      && forall i :: 0 <= i < |tools| ==>
        converted.value[i] == if tools[i].nested != None then tools[i].nested.value else tools[i].flat
  {
    var functions: seq<FunctionSpec> := [];
    for i := 0 to |tools|
      invariant |functions| == i
      invariant forall j :: 0 <= j < i ==>
        && tools[j].kind == "function"
        && functions[j] == if tools[j].nested != None then tools[j].nested.value else tools[j].flat
    {
      if tools[i].kind != "function" {
        return None;
      }
      functions := functions + [if tools[i].nested != None then tools[i].nested.value else tools[i].flat];
    }
    return Some(functions);
  }

  /**
   * The chat request: instructions, then the predecessor's history oldest first, then the input;
   * rejected for an unsupported text format or tool, when the predecessor is not live, and when the
   * input does not parse.
   */
  method TransformRequest(isObject: string -> bool, store: Store, now: int, req: CreateRequest, ghost order: seq<string>)
    returns (chat: ChatRequest)
    requires WellLinked(store.responses, order)
    ensures chat.Rejected? <==>
      || !FormatSupported(isObject, req.format)
      || (exists i :: 0 <= i < |req.tools| && req.tools[i].kind != "function")
      || (req.previousId != "" && !Live(store.responses, now, req.previousId))
      || req.input == None
    ensures chat.Accepted? ==>
      && (chat.format == None <==> req.format == None || req.format.value.kind in {"", "text"})
      && (chat.format != None ==> chat.format.value.kind == req.format.value.kind)
      && (chat.format != None && chat.format.value.kind == "json_schema" ==> chat.format == req.format)
      && (chat.format != None && chat.format.value.kind == "json_object" ==>
          chat.format.value.name == chat.format.value.schema == "")
      && |chat.tools| == |req.tools|
      && forall i :: 0 <= i < |req.tools| ==>
        chat.tools[i] == if req.tools[i].nested != None then req.tools[i].nested.value else req.tools[i].flat
    ensures chat.Accepted? ==>
      chat.messages
      == (if req.instructions == "" then [] else [Text("system", req.instructions)])
         + (if req.previousId == "" then []
            else History(store.responses, now, order, store.responses[req.previousId].response))
         + req.input.value
  {
    hide TrimSpace, IsFormatName, FormatSupported, History, LinksBack;
    var supported, format := ResponseFormat(isObject, req.format);
    if !supported {
      return Rejected;
    }
    var tools := ConvertTools(req.tools);
    if tools == None {
      return Rejected;
    }
    var messages := [];
    if req.instructions != "" {
      messages := messages + [Text("system", req.instructions)];
    }
    if req.previousId != "" {
      var prev := store.Get(now, req.previousId);
      if prev == None {
        return Rejected;
      }
      var earlier := store.GetConversationHistory(now, prev.value, order);
      messages := messages + earlier;
    }
    if req.input == None {
      return Rejected;
    }
    return Accepted(format, tools.value, messages + req.input.value);
  }

  datatype ToolUse = ToolUse(callId: Id, name: string, arguments: string)
  datatype Completion = Completion(content: string, toolCalls: seq<ToolUse>, usage: Option<Usage>)
  datatype Upstream = ErrorStatus(code: int, error: string) | Unparseable | Completed200(chat: Completion)

  /** Tool calls first, then the text: the opposite of the streaming writer. */
  function CompletionItems(chat: Completion, minted: nat): (items: seq<Item>)
    ensures |items| == |chat.toolCalls| + if chat.content == "" then 0 else 1
    ensures forall i :: 0 <= i < |chat.toolCalls| ==>
      && items[i].FunctionCall? && items[i].callId == chat.toolCalls[i].callId
      && items[i].name == chat.toolCalls[i].name && items[i].arguments == chat.toolCalls[i].arguments
    ensures chat.content != "" ==> items[|chat.toolCalls|].Message? && items[|chat.toolCalls|].text == chat.content
    ensures forall i, j :: 0 <= i < j < |items| ==> items[i].id != items[j].id
  {
    CallItems(chat.toolCalls, minted)
    + if chat.content == "" then [] else [Message(Minted(minted + |chat.toolCalls|), chat.content, Completed)]
  }

  function CallItems(calls: seq<ToolUse>, minted: nat): (items: seq<Item>)
    ensures |items| == |calls|
    ensures forall i :: 0 <= i < |calls| ==>
      items[i] == FunctionCall(Minted(minted + i), calls[i].callId, calls[i].name, calls[i].arguments, Completed)
  {
    seq(|calls|, i requires 0 <= i < |calls| =>
      FunctionCall(Minted(minted + i), calls[i].callId, calls[i].name, calls[i].arguments, Completed))
  }

  method TransformCompletion(chat: Completion, id: string, minted: nat) returns (r: Response)
    ensures r == NewResponse(id, None).(status := Completed, output := CompletionItems(chat, minted),
                                        outputText := chat.content, usage := chat.usage)
  {
    r := NewResponse(id, None).(status := Completed);
    var i := 0;
    while i < |chat.toolCalls|
      invariant 0 <= i <= |chat.toolCalls|
      invariant r == NewResponse(id, None).(status := Completed, output := CallItems(chat.toolCalls[..i], minted))
    {
      var tc := chat.toolCalls[i];
      assert CallItems(chat.toolCalls[..i + 1], minted)
          == CallItems(chat.toolCalls[..i], minted)
             + [FunctionCall(Minted(minted + i), tc.callId, tc.name, tc.arguments, Completed)];
      r := r.(output := r.output + [FunctionCall(Minted(minted + i), tc.callId, tc.name, tc.arguments, Completed)]);
      i := i + 1;
    }
    assert chat.toolCalls[..i] == chat.toolCalls;
    if chat.content != "" {
      r := r.(output := r.output + [Message(Minted(minted + i), chat.content, Completed)], outputText := chat.content);
    }
    r := r.(usage := chat.usage);
  }

  /**
   * Every path sends one response with the id and the predecessor the handler chose, and saves
   * exactly that response when the request asked for storage.
   */
  method HandleNonStreaming(store: Store, now: int, resp: Response, keep: bool, upstream: Upstream, minted: nat)
    returns (sent: Response, code: int)
    modifies store
    ensures sent.id == resp.id && sent.previous == resp.previous
    ensures store.responses == if keep then Saved(old(store.responses), now, store.ttl, sent) else old(store.responses)
    ensures sent.status == Completed <==> upstream.Completed200? && code == 200
    ensures sent.status != Completed ==> sent.status == Failed && sent.error != None
    ensures upstream.Completed200? ==> sent.output == CompletionItems(upstream.chat, minted)
    ensures code == match upstream case ErrorStatus(c, _) => c case Unparseable => 500 case Completed200(_) => 200
  {
    match upstream {
      case ErrorStatus(c, e) =>
        sent, code := resp.(status := Failed, error := Some(e)), c;
      case Unparseable =>
        sent, code := resp.(status := Failed, error := Some("parse_error")), 500;
      case Completed200(chat) =>
        sent := TransformCompletion(chat, resp.id, minted);
        sent, code := sent.(previous := resp.previous), 200;
    }
    if keep {
      store.Save(now, sent);
    }
  }
}

/** The entities of the Responses API that the streaming writer, the store and the handler share. */
module ResponseTypes {
  import opened Prelude

  /**
   * An identifier: minted by the server from a supply of fresh values, or given by the upstream.
   * The two kinds never coincide, which is the freshness the random generator is relied on for.
   */
  datatype Id = Minted(n: nat) | Given(text: string)

  datatype Status = InProgress | Completed | Failed

  datatype Usage = Usage(inputTokens: int, outputTokens: int, totalTokens: int)

  datatype Item =
    | Message(id: Id, text: string, status: Status)
    | FunctionCall(id: Id, callId: Id, name: string, arguments: string, status: Status)

  datatype Response = Response(
    id: string,
    previous: Option<string>,
    status: Status,
    output: seq<Item>,
    outputText: string,
    usage: Option<Usage>,
    finishReason: string,
    incomplete: Option<string>,
    error: Option<string>)

  function NewResponse(id: string, previous: Option<string>): Response
  {
    Response(id, previous, InProgress, [], "", None, "", None, None)
  }

  datatype Body =
    | ResponseCreated(response: Response)
    | ResponseInProgress(response: Response)
    | ResponseCompleted(response: Response)
    | ResponseFailed(response: Response)
    | ErrorRaised(code: string)
    | ItemAdded(item: Item, outputIndex: int)
    | PartAdded(itemId: Id)
    | TextDelta(itemId: Id, delta: string)
    | TextDone(itemId: Id, text: string)
    | PartDone(itemId: Id, text: string)
    | ArgsDelta(itemId: Id, outputIndex: int, delta: string)
    | ArgsDone(itemId: Id, outputIndex: int, arguments: string)
    | ItemDone(item: Item, outputIndex: int)

  /** A numbered event of the outgoing stream. */
  datatype Event = Event(number: int, body: Body)

  // What JSON decoding of one data payload yields. The writer decodes twice: an envelope with
  // usage and finish reasons, then the chunk itself; either decoding may fail on its own.
  datatype Envelope = Envelope(usage: Option<Usage>, finishReasons: seq<string>)
  datatype ToolFragment = ToolFragment(id: string, name: string, arguments: string)
  datatype Delta = Delta(content: string, toolCalls: seq<ToolFragment>)
  datatype Payload = Payload(envelope: Option<Envelope>, choices: Option<seq<Delta>>)

  type Decoder = string -> Payload
}

# Model Runner: verified models of its streams, store, protocols and buffers

This project models the parts of Docker Model Runner whose behaviour is hardest to see from the
code, and proves what their users rely on. One module covers one component.

* **Responses API streaming** (`ResponseTypes`, `ResponseStream`, `ResponseCuts`,
  `ResponseMetadata`, `ResponseRuns`, `ResponseSaves`, `ResponsePaths`). A writer that is fed an upstream chat-completion stream in arbitrary pieces and
  emits numbered events. The class keeps the writer's fields and updates them in place; every method
  is proved equal to a function on its state, and the theorems are about those functions: how the
  events depend on the cut of the bytes, what every run keeps, what a complete run says, and which
  payloads its text, calls, usage, finish reason and errors come from.
* **Responses store and conversation chaining** (`ResponseStore`, `ResponseChain`). A map with a time
  to live, and a recursion along `previous_response_id` that has no counter. `ResponseChain` is a
  state machine over validating, saving, deleting, updating, cleaning up and the passing of time. The recursion ends
  because every link was checked against the store before its owner could be saved.
* **Other stream translators** (`OllamaStream`, `AnthropicStream`, `AnthropicText`), over the same framing
  lemmas (`Framing`): splitting at a delimiter is lossless, unique, and can be fed in any pieces.
* **Concurrent protocols as step machines** (`Downloader`, `Recorder`, `Benchmark`): every
  interleaving is a sequence of enabled steps; safety is an invariant, progress is an enabled step,
  and termination is a measure that every step lowers.
* **Loops with a non-obvious measure** (`AgentLoop`, `GatewayRouter`, `DirectoryWalk`).
* **In-place buffers** (`TailBuffer`, `BracketLog`, `LogMerge`, `LineEditor`, `LineSession`,
  `LineKeys`, `MarkdownBuffer`), each against a plain sequence.

Methods are proved equal to functions, and beside those stand laws that do not use them: they say of
given payloads, events, files, keys or patterns what comes out.

JSON decoding, glob matching, timestamp parsing, markdown rendering and rune widths are parameters:
arbitrary functions from their input to a result or a failure. Generated ids are a supply of
fresh values that never coincide with ids given by the upstream. Clocks are inputs.

Where the code and its comments or documentation part ways, the model follows the code:

* A payload whose metadata does not decode makes one `Write` skip its remaining lines, so the events
  can depend on how the upstream bytes were cut (`ResponseCuts.CutsAgreeIffQuiet`,
  `ResponseCuts.SkippedDoneExample`).
* Fragments of a tool call without an id are opened as calls of their own
  (`ResponsePaths.OneCallIff`), and the streamed output lists the message before the calls while the
  other path lists it after them (`ResponsePaths.SameOrderIff`).
* Deleting an expired response reports success, unless a cleanup has removed it
  (`ResponseChain.DeleteAgreesIff`).
* A subscription under an id that is still registered cuts the earlier subscriber off at once, and
  when that one leaves, the later one too. Everybody is reached at all times exactly when this never
  happens (`Recorder.ReachedIffIdsApart`).
* Tool calls streamed under indices with a gap are not all sent back
  (`AgentLoop.AllCallsSentIffDense`), nor are calls of a whole reply that share an index, as they do
  when the server leaves indices out (`AgentLoop.WholeReplySentIffPermutation`).
* Round robin stays fair past the wrap of its counter only for a number of deployments that divides
  the counter's range (`GatewayRouter.AlwaysFairIff`).
* With the largest 32-bit number of retries the attempt count wraps to zero in a release build (a
  debug build stops with an overflow): the model asked for is not called, only its fallbacks are
  (`GatewayRouter.Router.PlanBounds`).
* Killing to the end of the line compares a cursor index with a number of columns, so text of zero
  width can survive it (`LineEditor.KillAfterExact`).
* History entries with line breaks or outer spaces do not survive the history file
  (`LineSession.SaveThenLoad`).
* A delete key with a modifier types the end of its own sequence into the line; the plain one, whose
  sequence ends in a single `~`, does not (`LineSession.DeleteKey`).
* Every key sent as ESC [ 2 is read as a paste marker of three more characters, so the insert key,
  ESC [ 2 ~, takes the next two keys with it (`LineKeys.InsertKey`).
* An opening run of backticks directly followed by a newline is taken for the end of its own code
  block (`MarkdownBuffer.OpeningClosesItselfIff`), and a closing fence at the very end of the text is
  not seen (`MarkdownBuffer.ClosingFenceAtEnd`). A call with markdown off would drop text that is held
  back (`MarkdownBuffer.ShownExactly`); the program's only caller has markdown on.

## Model

| member | source | states |
|---|---|---|
| Framing.SplitLossless | pkg/responses/streaming.go:108-119 | the complete lines, re-terminated, and the kept remainder are all bytes that arrived |
| Framing.SplitClean | pkg/responses/streaming.go:108-119 | neither a complete line nor the kept remainder has a delimiter inside |
| Framing.SplitUnique | pkg/logging/logging.go:112-126 | newline-free lines and a newline-free remainder determine the split: there is no other reading |
| Framing.NewlineSuffix | pkg/responses/streaming.go:112-119 | a text ends in a newline exactly when it is not empty and nothing is left after its last one |
| Framing.Feed | pkg/ollama/http_handler.go:1010-1024 | feeding a second piece behind the kept remainder yields what feeding both at once yields |
| Framing.CutIndependence | pkg/ollama/http_handler.go:1010-1024 | any cut of a text into pieces gives the same lines in the same order and the same remainder |
| Framing.TrimSpaceExact | pkg/responses/streaming.go:122 | a text with white space around it, and none at its own ends, is trimmed to itself |
| Framing.DataOfExact | pkg/responses/streaming.go:122-127 | a line of `data: ` and a payload carries that payload, whatever white space is around it |
| Framing.DataOfNone | pkg/responses/streaming.go:122-125 | any other line carries none |
| Framing.SentSplit | pkg/responses/streaming.go:108-119 | a stream of payloads, each on a line of its own before an empty one, has exactly these lines and leaves nothing |
| ResponseStream.StreamingResponseWriter.SendEvent | pkg/responses/streaming.go:481-499 | one event more, under the next number, and nothing else changes |
| ResponseStream.StreamingResponseWriter.WriteHeader | pkg/responses/streaming.go:44-97 | only the first status counts: 200 opens the stream with two events, any other fails the response |
| ResponseStream.StreamingResponseWriter.WriteData | pkg/responses/streaming.go:100-215 | the whole effect of one Write on every field, for any bytes |
| ResponseStream.StreamingResponseWriter.TakeLines | pkg/responses/streaming.go:105-119 | the buffer keeps what follows the last newline; the lines before it are handed on, at most an empty one added |
| ResponseStream.StreamingResponseWriter.ProcessAll | pkg/responses/streaming.go:121-214 | lines take effect in order up to and including the first that breaks; a final empty line changes nothing |
| ResponseStream.StreamingResponseWriter.ProcessLine | pkg/responses/streaming.go:122-211 | a line's effect, and that processing stops exactly at a payload whose metadata does not decode |
| ResponseStream.StreamingResponseWriter.CaptureEnvelope | pkg/responses/streaming.go:167-203 | what one envelope changes of the response; where the fields of a whole answer come from is stated by the ResponseMetadata members |
| ResponseStream.StreamingResponseWriter.ProcessPayload | pkg/responses/streaming.go:218-262 | an undecodable chunk fails the response; otherwise only the first choice counts, tool calls before text |
| ResponseStream.StreamingResponseWriter.HandleContentDelta | pkg/responses/streaming.go:265-317 | the message item is opened once, before its first delta |
| ResponseStream.StreamingResponseWriter.HandleToolCallDelta | pkg/responses/streaming.go:320-371 | the fragments of one chunk take effect one after the other |
| ResponseStream.StreamingResponseWriter.HandleFragment | pkg/responses/streaming.go:322-369 | a fragment goes to the first call with its id, or opens a new one |
| ResponseStream.StreamingResponseWriter.FinishMessage | pkg/responses/streaming.go:375-438 | the message, if any, is closed with its whole text and joins the output |
| ResponseStream.StreamingResponseWriter.FinishCalls | pkg/responses/streaming.go:440-462 | every call is closed in the order of opening and joins the output |
| ResponseStream.StreamingResponseWriter.FinalizeStream | pkg/responses/streaming.go:374-478 | message, then calls, then the completed response, sent and saved when asked for |
| ResponseMetadata.FirstReasonGiven | pkg/responses/streaming.go:173-203 | the reason used is the first of the envelope that is not empty, and there is none only when all are empty |
| ResponseMetadata.EnvelopeNext | pkg/responses/streaming.go:167-203 | one envelope more: usage stays the first that was given, the reason becomes the last, details and error are set once |
| ResponseMetadata.LinesMetadata | pkg/responses/streaming.go:121-214 | for any lines, undecodable payloads included: usage is the first envelope's that has one, the reason is the last one given, `max_tokens` and the content filter error are set exactly when some envelope gives that reason |
| ResponseCuts.WriteAllExact | pkg/responses/streaming.go:100-215 | for every byte stream and cut: the lines that are not skipped applied in order, and the bytes after the last newline kept |
| ResponseCuts.CutsDoNotMatter | pkg/responses/streaming.go:100-215 | when all metadata decodes, every cut into at least one Write gives the same events and final writer |
| ResponseCuts.MuteLine | pkg/responses/streaming.go:121-212 | exactly which lines emit nothing while given calls are open |
| ResponseCuts.QuietIffSkippingInvisible | pkg/responses/streaming.go:141-165 | skipping after the first break is invisible exactly when all later lines are mute |
| ResponseCuts.CutsAgreeIffQuiet | pkg/responses/streaming.go:141-165 | all cuts of the same bytes emit the same events if and only if no line after the first break would have emitted anything |
| ResponseCuts.SkippedDone | pkg/responses/streaming.go:141-165 | a broken line and a [DONE] line: one Write emits a proper prefix of what two Writes emit |
| ResponseCuts.SkippedDoneExample | pkg/responses/streaming.go:141-165 | concrete bytes on which two cuts differ |
| ResponseRuns.AlwaysSteady | pkg/responses/streaming.go:44-215 | in every run, any statuses and bytes: numbers 1, 2, 3, ... without gap, and all saved responses keep id and predecessor |
| ResponseRuns.InvAfterHeader | pkg/responses/streaming.go:78-97 | after the two opening events no item has any event yet |
| ResponseRuns.InvSayText | pkg/responses/streaming.go:265-317 | a text delta extends the life of the message only, and keeps every other item's life |
| ResponseRuns.InvOpenCall | pkg/responses/streaming.go:331-355 | a new call starts a fresh life under a fresh id and touches no other |
| ResponseRuns.InvAddArguments | pkg/responses/streaming.go:357-369 | an arguments delta extends the life of exactly one call |
| ResponseRuns.AccountCalls | pkg/responses/streaming.go:320-371 | the open calls keep answering to the fragments: one per opening fragment, with all arguments under its id |
| ResponseRuns.FinalizeCompletes | pkg/responses/streaming.go:374-478 | each item is done once, last, with exactly the concatenation of its deltas; output is message, then calls |
| ResponseRuns.CompleteRun | pkg/responses/streaming.go:78-478 | a 200 run of well-formed lines and one [DONE]: opening events first, complete lives, gapless numbers, output equal to what the upstream said, and usage, finish reason, incomplete details and error as the envelopes on the lines say |
| ResponseRuns.CompleteStream | pkg/responses/streaming.go:100-478 | the same for every cut of such a stream into Write calls |
| ResponseRuns.CompletePayloads | pkg/responses/streaming.go:100-478 | an upstream that sends payloads and [DONE], cut in any way: text, calls, usage, finish reason, incomplete details and error are what the payloads say |
| ResponseSaves.SavedIsReported | pkg/responses/streaming.go:44-478 | in every run, the responses saved are exactly those reported as completed or failed, in order, when storage is asked for, and none otherwise |
| ResponseSaves.FailureEvents | pkg/responses/streaming.go:141-165 | a payload that does not decode is reported by an error and the failed response; no item is touched |
| ResponseSaves.BadStatusEvents | pkg/responses/streaming.go:53-75 | any other first status gives exactly these two events, is saved when asked for, and later statuses change nothing |
| ResponsePaths.SameOrderIff | pkg/responses/transform.go:432-460 | streamed and non-streamed output list message and calls in the same order exactly when one of them is absent |
| ResponsePaths.OneCallIff | pkg/responses/streaming.go:322-346 | fragments form one call exactly when there is one, or all carry the same non-empty id |
| ResponsePaths.ContinuationsOpenCalls | pkg/responses/streaming.go:331-346 | with the id in the first fragment only there are as many calls as fragments |
| ResponsePaths.StreamedHistory | pkg/responses/transform.go:389-419 | the history a streamed answer contributes: the assistant's text, then each call under its upstream id with name and arguments |
| ResponseStore.Store.constructor | pkg/responses/store.go:25-38 | empty store; a lifetime that is not positive becomes the default |
| ResponseStore.Store.Save | pkg/responses/store.go:46-53 | the entry is replaced with a new expiry; no other entry changes |
| ResponseStore.Store.Get | pkg/responses/store.go:56-67 | found exactly when present and not past its expiry |
| ResponseStore.Store.Delete | pkg/responses/store.go:70-78 | found exactly when present, expired or not; only that entry goes |
| ResponseStore.Store.Update | pkg/responses/store.go:81-92 | done exactly when live; then the entry is changed and its expiry renewed |
| ResponseStore.Store.Cleanup | pkg/responses/store.go:109-118 | exactly the entries past their expiry go |
| ResponseStore.Store.GetConversationHistory | pkg/responses/transform.go:377-422 | terminates on well-linked stores and returns the recursion's history |
| ResponseStore.ResponseFormat | pkg/responses/transform.go:223-265 | exactly which text formats are supported, and what of one is passed on |
| ResponseStore.ConvertTools | pkg/responses/transform.go:158-185 | every tool in its place, from the nested or the flat definition; rejected exactly when one is not a function |
| ResponseStore.TransformRequest | pkg/responses/transform.go:139-221 | instructions, the predecessor's history, the input, in this order, with the converted tools and format; rejected exactly for an unsupported format or tool, a dead predecessor or bad input |
| ResponseStore.TransformCompletion | pkg/responses/transform.go:425-520 | a completed response: tool calls in order, then the text if there is any |
| ResponseStore.CompletionItems | pkg/responses/transform.go:432-460 | each call in its place with id, name and arguments, the text last if there is any, all item ids distinct |
| ResponseStore.HandleNonStreaming | pkg/responses/handler.go:181-263 | on every path the response keeps id and predecessor and exactly it is saved, when asked for; completed only on a parsed 200 |
| ResponseChain.StepKeepsInv | pkg/responses/handler.go:107-135 | every step of any request keeps the links leading back in validation order |
| ResponseChain.RunKeepsInv | pkg/responses/handler.go:107-178 | so does every interleaving of steps |
| ResponseChain.ReachableLinksBack | pkg/responses/handler.go:107-135 | in every reachable store each link leads to an id validated earlier |
| ResponseChain.HistoryIsTranscript | pkg/responses/transform.go:377-422 | the history is the outputs of the chain of live predecessors, oldest first, of bounded length |
| ResponseChain.ChainUnique | pkg/responses/transform.go:377-387 | there is only one such chain: it is cut at the first missing or expired link |
| ResponseChain.WalkTerminates | pkg/responses/transform.go:377-387 | even when other requests run between two lookups, a build makes a bounded number of them |
| ResponseChain.KeptForItsLifetime | pkg/responses/store.go:46-67 | over any run that leaves the id alone, cleanups included, a saved response is found exactly until its lifetime is over |
| ResponseChain.UpdateRenews | pkg/responses/store.go:81-92 | an update of a live response starts its lifetime anew; an expired one stays gone |
| ResponseChain.AlikeStep | pkg/responses/store.go:46-118 | stores that differ in expired entries only allow the same steps and stay so |
| ResponseChain.AlikeRun | pkg/responses/store.go:46-118 | a run and the same run without its cleanups end in such stores |
| ResponseChain.AlikeHistory | pkg/responses/transform.go:377-422 | such stores build the same history |
| ResponseChain.CleanupInvisible | pkg/responses/store.go:109-118 | for every run, lookups and histories are as if no cleanup had ever happened |
| ResponseChain.DeleteSeesCleanup | pkg/responses/store.go:70-78 | a cleanup changes what Delete reports exactly for entries present but expired |
| ResponseChain.DeleteAgreesIff | pkg/responses/store.go:70-118 | over every run, Delete reports what it would have without any cleanup if and only if no cleanup removed that entry after it expired, with no save or delete of the id since |
| ResponseChain.DeleteSeesCleanupExample | pkg/responses/store.go:70-118 | a reachable store in which a cleanup changes what Delete reports |
| OllamaStream.ConvertToolCalls | pkg/ollama/http_handler.go:1268-1294 | each call is converted in place and order, index included |
| OllamaStream.StreamingWriter.Write | pkg/ollama/http_handler.go:1005-1099 | one piece emits the translations of the lines it completes and keeps the remainder; the status is sent once |
| OllamaStream.StreamingWriter.WriteLine | pkg/ollama/http_handler.go:1028-1090 | nothing for a line without data or with an undecodable payload, else one output line |
| OllamaStream.EmittedAppend | pkg/ollama/http_handler.go:1027-1091 | what a line emits depends on that line alone |
| OllamaStream.AnyCut | pkg/ollama/http_handler.go:1005-1099 | any bytes, malformed payloads included, any cut: the same output lines in order and the same buffer |
| OllamaStream.Drive | pkg/ollama/http_handler.go:1127-1206 | a writer driven with pieces emits exactly that |
| OllamaStream.SameAnswer | pkg/ollama/http_handler.go:1127-1206 | both endpoints relay the concatenated contents of the chunks that decode |
| OllamaStream.StreamRelayed | pkg/ollama/http_handler.go:1005-1206 | for any payloads and any cut, the output is payload by payload: the final line for [DONE], nothing for one that does not decode, else one line with its first choice's content, reasoning and, for chat, all its calls in place |
| AnthropicStream.TranslateStream | model-cli/src/providers/anthropic.rs:340-465 | whatever the cut, the output is the translation of the complete events of the received text, then one error if the connection broke |
| AnthropicStream.DrainEvents | model-cli/src/providers/anthropic.rs:356-463 | all complete events leave the buffer in order; the rest stays |
| AnthropicStream.EmitEvent | model-cli/src/providers/anthropic.rs:361-462 | one event's output and the response id after it; which text is decoded and what it becomes is stated by the AnthropicText members |
| AnthropicStream.RelayAppend | model-cli/src/providers/anthropic.rs:356-463 | the only memory between events is the response id |
| AnthropicStream.ContentsAreTexts | model-cli/src/providers/anthropic.rs:399-424 | the translated contents spell exactly the upstream's text deltas |
| AnthropicStream.IdIsLatest | model-cli/src/providers/anthropic.rs:374-377 | the id in use is that of the latest message_start that carried one |
| AnthropicStream.OneContribution | model-cli/src/providers/anthropic.rs:372-462 | one output for an event of a handled type, none otherwise, under the id known by then |
| AnthropicStream.EventContribution | model-cli/src/providers/anthropic.rs:356-463 | each event contributes in its place and nothing else is emitted |
| AnthropicText.EventDataExact | model-cli/src/providers/anthropic.rs:361-368 | the text decoded is the payloads of the event's `data: ` lines, in order, joined by newlines; other lines change nothing |
| AnthropicText.ReturnsDoNotMatter | model-cli/src/providers/anthropic.rs:361-366 | carriage returns before the newlines inside an event do not change the text that is decoded |
| AnthropicText.StreamSplit | model-cli/src/providers/anthropic.rs:356-360 | a text of events, each ended by an empty line, is cut into exactly these events |
| AnthropicText.RelayOneExact | model-cli/src/providers/anthropic.rs:361-462 | what an event given by its lines becomes, field by field for each kind, and the id after it |
| AnthropicText.TranslationExact | model-cli/src/providers/anthropic.rs:340-465 | the translation of a text of events is, one after the other, what each becomes under the id in force |
| AnthropicText.TextDeltaRelayed | model-cli/src/providers/anthropic.rs:361-424 | a named event with a text delta is relayed as one chunk with that text |
| Downloader.StepInv | pkg/distribution/huggingface/downloader.go:84-141 | every step keeps semaphore, error channel and path map in account with the goroutines' states |
| Downloader.RunInv | pkg/distribution/huggingface/downloader.go:84-141 | so does every interleaving |
| Downloader.AtMostFour | pkg/distribution/huggingface/downloader.go:84-103 | at most four goroutines hold the semaphore at any time |
| Downloader.NeverBlocksOnErrors | pkg/distribution/huggingface/downloader.go:87-107 | a goroutine with an error to report always finds room in the channel |
| Downloader.SomeoneCanMove | pkg/distribution/huggingface/downloader.go:89-117 | no deadlock before the call returns |
| Downloader.StepConsumes | pkg/distribution/huggingface/downloader.go:89-117 | every step lowers a natural number |
| Downloader.EveryRunEnds | pkg/distribution/huggingface/downloader.go:89-141 | runs are bounded by five steps a file and two, and one that cannot go on has returned |
| Downloader.Outcome | pkg/distribution/huggingface/downloader.go:115-141 | success exactly when no goroutine failed or was cancelled; then every file has its path and nothing else is listed |
| Benchmark.StepInv | cmd/cli/commands/bench.go:152-226 | every step conserves the token counts and the order of closing |
| Benchmark.RunInv | cmd/cli/commands/bench.go:152-226 | so does every interleaving |
| Benchmark.ResultIsWhatWasSent | cmd/cli/commands/bench.go:210-242 | the result lists what was sent, in order; every other success was dropped once; counts and totals agree |
| Benchmark.NeverSendsOnClosed | cmd/cli/commands/bench.go:159-219 | no worker ever sends on the closed results channel |
| Benchmark.SomeoneCanMove | cmd/cli/commands/bench.go:159-226 | some party can move until the collector has finished |
| Benchmark.StepConsumes | cmd/cli/commands/bench.go:159-226 | once the producer has stopped, every step lowers a natural number |
| Benchmark.RunEnds | cmd/cli/commands/bench.go:188-226 | once the producer has stopped, the number of steps left is bounded |
| Recorder.Records.RecordRequest | pkg/metrics/openai_recorder.go:227-271 | one model's records become the last ten with the new one; other models are untouched |
| Recorder.LastLast | pkg/metrics/openai_recorder.go:255-268 | bounding after every request is bounding once at the end |
| Recorder.LastIsLast | pkg/metrics/openai_recorder.go:255-268 | what is kept is what is left when the oldest beyond the bound are taken away |
| Recorder.RecordAll | pkg/metrics/openai_recorder.go:246-268 | after any requests for any models, each model has exactly the last ten of its own, in order |
| Recorder.StepInv | pkg/metrics/openai_recorder.go:689-704 | every step keeps: registered channels are open and a channel is closed at most once |
| Recorder.RunInv | pkg/metrics/openai_recorder.go:689-817 | so does every interleaving |
| Recorder.ProtocolSafe | pkg/metrics/openai_recorder.go:689-817 | colliding ids included: no send on a closed channel, no second close, and each subscriber gets exactly the messages offered while its buffer had room, in order |
| Recorder.BroadcastNeverStuck | pkg/metrics/openai_recorder.go:806-817 | a broadcast in progress can always take a step that brings it closer to its end |
| Recorder.CollidingIdsStarve | pkg/metrics/openai_recorder.go:690-704 | a concrete run in which a second registration cuts off the first subscriber, and the first one's leaving cuts off the second |
| Recorder.ReachedAfterStep | pkg/metrics/openai_recorder.go:689-817 | the exact effect of every step on whether broadcasts reach a channel: only a subscription under its id or the leaving of a channel with its id ends that |
| Recorder.StepReached | pkg/metrics/openai_recorder.go:693-704 | a step keeps all open channels reached exactly when it is no subscription under a registered id |
| Recorder.ReachedIffIdsApart | pkg/metrics/openai_recorder.go:689-817 | over every run, all open channels are reached at all times if and only if nobody subscribes under an id that is still registered |
| Recorder.NobodyCutOffIff | pkg/metrics/openai_recorder.go:689-817 | the same from the start of the recorder |
| AgentLoop.Read | cmd/cli/desktop/desktop.go:659-787 | what a reply amounts to: content, finish reason, accumulated calls, or failure; Chat and DigestExact state it from the reply alone |
| AgentLoop.ReadStream | cmd/cli/desktop/desktop.go:691-787 | the scanner loop computes the fold over the lines up to [DONE], the first bad line or the end; ReadLinesExact states that fold from the lines alone |
| AgentLoop.Accumulate | cmd/cli/desktop/desktop.go:735-749 | each fragment is added under its index |
| AgentLoop.Chat | cmd/cli/desktop/desktop.go:542-847 | for every server: the answer is the text of the last reply; at most eleven requests, at most one fallback without tools, every request well formed and following from the reply before; it ends well exactly when the last reply was usable and asked for no tools, otherwise because that reply failed or was the tenth to ask for tools |
| AgentLoop.RunTools | cmd/cli/desktop/desktop.go:816-839 | exactly one result for each call, under its id, in order, unknown tools included |
| AgentLoop.CollectCalls | cmd/cli/desktop/desktop.go:795-810 | the calls under the indices below the number of calls, in index order |
| AgentLoop.PendingOfLines | cmd/cli/desktop/desktop.go:694-781 | a reply that is read without failure accumulates exactly the fragments of the lines read |
| AgentLoop.ReadLinesExact | cmd/cli/desktop/desktop.go:691-787 | for every streamed reply, failed ones included: the content is the contents of the lines read, one after the other, the finish reason the last one given, the fragments all of theirs, and it fails exactly at a bad line or a failed read |
| AgentLoop.DigestExact | cmd/cli/desktop/desktop.go:659-790 | text, failure and the wish for tools, told from the reply itself |
| AgentLoop.AccumulatedIdentity | cmd/cli/desktop/desktop.go:735-748 | an accumulated call has the last non-empty id and the last non-empty name given under its index |
| AgentLoop.AccumulatedArguments | cmd/cli/desktop/desktop.go:735-749 | an index is present exactly when a fragment had it, with the concatenation of its arguments |
| AgentLoop.AllCallsSentIffDense | cmd/cli/desktop/desktop.go:795-810 | all accumulated calls are sent if and only if the indices are 0, ..., n - 1 |
| AgentLoop.AllCallsSentExample | cmd/cli/desktop/desktop.go:795-810 | one streamed call under index 1: no call is sent back |
| AgentLoop.WholeReplySentIffPermutation | cmd/cli/desktop/desktop.go:680-684 | all calls of a whole reply are sent back, each under its index, if and only if their indices are a permutation of 0, ..., n - 1 |
| AgentLoop.WithRetries | cmd/cli/desktop/desktop.go:227-263 | attempts stop at the first success or final failure, at most one more than the retries and none for a negative number; the outcome is the last one's |
| GatewayRouter.GroupEntries | model-cli/src/router.rs:36-49 | entries grouped by alias in configuration order; an unknown provider rejects the configuration |
| GatewayRouter.GroupExact | model-cli/src/router.rs:36-49 | every entry joins the group of its alias, in its place, and no other |
| GatewayRouter.MergeFallbacks | model-cli/src/router.rs:56-64 | for each alias the last fallback list given wins |
| GatewayRouter.FallbacksExact | model-cli/src/router.rs:56-64 | the chain of an alias is that of the last table that has one |
| GatewayRouter.FromConfig | model-cli/src/router.rs:35-78 | fails exactly for an unknown provider; otherwise every alias has deployments and a counter at zero |
| GatewayRouter.Router.NextIndex | model-cli/src/router.rs:111-118 | an index in range from one atomic increment; none exactly for an unknown alias |
| GatewayRouter.Router.RunWithRetriesAndFallbacks | model-cli/src/router.rs:129-188 | the first retries + 1 calls go to the model and the rest to the known fallbacks configured for it, in order, all of them when the outcome is a failure (no call to the model when it is unknown or the sum wraps); the first success is returned, else the last error; alone, successive calls take the deployments of an alias in turn |
| GatewayRouter.Router.RunAttempts | model-cli/src/router.rs:139-164 | the retry loop makes all attempts unless one succeeds, each with the next deployment when nobody else picks |
| GatewayRouter.Router.RunFallbacks | model-cli/src/router.rs:166-181 | every known fallback is called once, in order, until one succeeds |
| GatewayRouter.Router.PlanBounds | model-cli/src/router.rs:139-187 | "no call means unknown" holds exactly when the attempt count does not wrap to zero, or is not needed; at most retries + 1 + fallbacks calls |
| GatewayRouter.Router.CallsFollowPlan | model-cli/src/router.rs:139-187 | calls that follow the plan go to the model retries + 1 times and then to each known fallback of the configured chain |
| GatewayRouter.CountExact | model-cli/src/router.rs:116-117 | the exact number of picks of each deployment, until the counter wraps or, when the deployments divide its range, for ever |
| GatewayRouter.PickAllInStep | model-cli/src/router.rs:111-118 | concurrent requests pick, per alias, the same indices as one request after the other |
| GatewayRouter.RoundRobinFair | model-cli/src/router.rs:111-118 | over any interleaving, until the counter wraps (or without that bound, when the deployments divide its range), pick counts of an alias differ by at most one |
| GatewayRouter.UnfairAfterWrap | model-cli/src/router.rs:116-117 | otherwise the first pick after the wrap puts one deployment two picks ahead of another |
| GatewayRouter.AlwaysFairIff | model-cli/src/router.rs:111-118 | over all interleavings of any length, round robin is fair if and only if the number of deployments divides the counter's range |
| LogMerge.LogReader.ReadLine | pkg/logs/merge.go:130-134 | the next line without its end, the offset moved past all bytes read, and the end noticed exactly at an unterminated rest |
| LogMerge.TrimRight | pkg/logs/merge.go:131 | exactly the line-end characters at the end of a line go |
| LogMerge.TrimRightExact | pkg/logs/merge.go:131 | a line with any line end is trimmed to the line |
| LogMerge.FileLinesExact | pkg/logs/merge.go:130-167 | the lines of a file are its non-empty lines in order without their ends, a last one without a newline included |
| LogMerge.LogReader.Advance | pkg/logs/merge.go:140-167 | prints exactly the lines before the next timestamp and holds that line, or reaches the end |
| LogMerge.MergeReaders | pkg/logs/merge.go:78-102 | the merge loop and the drains print the merge of what both readers hold, and read both files to their ends |
| LogMerge.Drain | pkg/logs/merge.go:91-102 | the held line and everything after it |
| LogMerge.MergeLogs | pkg/logs/merge.go:47-109 | leading service lines, leading engine lines, then the merge; offsets are the full lengths; a missing service log is an error, a missing engine log is empty |
| LogMerge.EveryLineOnce | pkg/logs/merge.go:76-102 | every line of either list comes out exactly once, in order |
| LogMerge.EveryTextLineOnce | pkg/logs/merge.go:76-102 | for two files given as texts: what is printed is the lines of both, each once, either file's in order |
| LogMerge.LeadsComeFirst | pkg/logs/merge.go:60-76 | lines before the first time are printed first, the service log's and then the engine log's |
| LogMerge.SortedOutput | pkg/logs/merge.go:78-90 | sorted files merge into sorted timestamps, service before engine at equal times |
| LogMerge.BlocksStayTogether | pkg/logs/merge.go:140-167 | a line without a timestamp comes right after a line of its own file |
| TailBuffer.Ring.Put | pkg/tailbuffer/tailbuffer.go:36-55 | one byte more, the oldest one gone when the ring was full |
| TailBuffer.Ring.Write | pkg/tailbuffer/tailbuffer.go:27-57 | contents become the last bytes of contents and input, for every capacity including zero; all are reported written |
| TailBuffer.Ring.Read | pkg/tailbuffer/tailbuffer.go:59-79 | the oldest bytes move out in order; end of file exactly when none do |
| TailBuffer.TailTail | pkg/tailbuffer/tailbuffer.go:36-55 | keeping the tail at every step keeps the tail of everything |
| TailBuffer.TailIsLast | pkg/tailbuffer/tailbuffer.go:36-55 | the tail is what is left when the oldest bytes beyond the capacity are taken away |
| TailBuffer.TailSkip | pkg/tailbuffer/tailbuffer.go:33-35 | input that is longer than the ring may skip its front |
| TailBuffer.WriteAll | pkg/tailbuffer/tailbuffer.go:27-57 | after any writes the ring holds the tail of all bytes written |
| BracketLog.BracketWriter.Write | pkg/logging/logging.go:105-128 | accepted lines and buffer are always all bytes written; after a success they are exactly the complete lines, whatever failed before |
| BracketLog.WriteAll | pkg/logging/logging.go:105-128 | with a sink that never fails, the lines do not depend on the cut |
| LineEditor.WordStart | cmd/cli/readline/buffer.go:80-99 | the start of the last maximal run without spaces |
| LineEditor.WordStartUnique | cmd/cli/readline/buffer.go:80-99 | there is only one such place |
| LineEditor.NextStop | cmd/cli/readline/buffer.go:124-138 | the first place after the cursor that is at a space or the end |
| LineEditor.Buffer.MoveLeft | cmd/cli/readline/buffer.go:52-78 | one character crosses the cursor, none at the start |
| LineEditor.Buffer.MoveRight | cmd/cli/readline/buffer.go:101-122 | one character crosses the cursor, none at the end |
| LineEditor.Buffer.MoveLeftWord | cmd/cli/readline/buffer.go:80-99 | the loop ends with the cursor at the start of the last word before it |
| LineEditor.Buffer.MoveRightWord | cmd/cli/readline/buffer.go:124-138 | the loop ends with the cursor at the next stop |
| LineEditor.Buffer.Add | cmd/cli/readline/buffer.go:184-239 | the character joins the text before the cursor |
| LineEditor.Buffer.Remove | cmd/cli/readline/buffer.go:334-396 | the character before the cursor goes, if there is one |
| LineEditor.Buffer.Delete | cmd/cli/readline/buffer.go:398-411 | the character after the cursor goes, if there is one |
| LineEditor.Buffer.DeleteBefore | cmd/cli/readline/buffer.go:413-419 | exactly the text before the cursor goes |
| LineEditor.Buffer.DeleteRemaining | cmd/cli/readline/buffer.go:421-428 | exactly the text after the cursor goes, when the guard lets it |
| LineEditor.Buffer.DeleteWord | cmd/cli/readline/buffer.go:430-451 | exactly the last word before the cursor and the spaces after it go |
| LineEditor.Buffer.Replace | cmd/cli/readline/buffer.go:489-507 | the new text, the cursor at its end |
| LineEditor.MovesKeepText | cmd/cli/readline/buffer.go:52-138 | no move changes the text |
| LineEditor.LeftThenRight | cmd/cli/readline/buffer.go:52-122 | left and right undo each other away from the ends |
| LineEditor.EraseUndoesInsert | cmd/cli/readline/buffer.go:184-411 | a typed character is taken back by erasing before the cursor, or by moving left and erasing after it |
| LineEditor.KillWordIsMove | cmd/cli/readline/buffer.go:430-451 | deleting a word deletes what moving a word passes over |
| LineEditor.KillAfterExact | cmd/cli/readline/buffer.go:421-428 | the rest of the line goes exactly when it is empty or the cursor index is below the column count; always with widths of at least one |
| LineEditor.KillAfterMissesZeroWidth | cmd/cli/readline/buffer.go:421-428 | a concrete line that is not killed |
| LineSession.History.constructor | cmd/cli/readline/history.go:62-80 | the trimmed non-empty complete lines of the file, the newest hundred |
| LineSession.History.Add | cmd/cli/readline/history.go:83-90 | the newest hundred entries with the new one, positioned at the end |
| LineSession.History.Prev | cmd/cli/readline/history.go:101-107 | one entry back, staying at the first |
| LineSession.History.Next | cmd/cli/readline/history.go:109-115 | one entry forward; nothing past the last |
| LineSession.Instance.HistoryPrev | cmd/cli/readline/readline.go:248-255 | the draft is kept exactly when leaving the end of the history |
| LineSession.Instance.HistoryNext | cmd/cli/readline/readline.go:257-264 | the draft comes back exactly on reaching the end |
| LineSession.Instance.AfterBracket | cmd/cli/readline/readline.go:114-155 | the keys after an escape bracket, paste markers included |
| LineSession.Instance.EditKey | cmd/cli/readline/readline.go:183-211 | the editing keys, each with its effect on the line |
| LineSession.Instance.PlainKeyStep | cmd/cli/readline/readline.go:172-240 | every other key: what it does to the session or how it ends it |
| LineSession.Instance.Readline | cmd/cli/readline/readline.go:63-242 | the key loop computes the run of the session over the keys, for any keys |
| LineSession.DraftRestored | cmd/cli/readline/readline.go:248-264 | from the end, ups and downs come back to it exactly when there are as many downs as ups or entries; then the unsent text is back |
| LineSession.RunHistory | cmd/cli/readline/readline.go:63-242 | whatever the keys, a prompt adds at most the line it returns, which leaves the history at its end, within its limit |
| LineSession.Typed | cmd/cli/readline/readline.go:232-239 | typed text goes in at the cursor, less its first character while the tail of a delete key is awaited |
| LineSession.TypeAndEnter | cmd/cli/readline/readline.go:223-240 | a typed line is the line returned |
| LineSession.LookedUpAndEntered | cmd/cli/readline/readline.go:179-231 | so it is after looking through the history and coming back |
| LineSession.ArrowKeys | cmd/cli/readline/readline.go:114-191 | the three-character arrow keys do what the control keys do, in every state |
| LineSession.DeleteKey | cmd/cli/readline/readline.go:142-239 | the delete key erases, drops the first character of its tail and types the others: it only erases if and only if the tail is one character |
| LineSession.PlainDeleteKey | cmd/cli/readline/readline.go:142-236 | the plain delete key drops its own tilde, so no typed text is lost |
| LineSession.ModifiedDeleteKey | cmd/cli/readline/readline.go:142-239 | delete with control held leaves `5~` in the line |
| LineSession.MotionKeepsText | cmd/cli/readline/readline.go:183-190 | any sequence of cursor keys keeps the text and everything but the cursor |
| LineSession.LeftsThenRights | cmd/cli/readline/readline.go:187-190 | left and as often right again, within the line, changes nothing |
| LineSession.TypedThenErased | cmd/cli/readline/readline.go:191-239 | typed text that is erased again leaves no trace |
| LineSession.KillWordThenRetype | cmd/cli/readline/readline.go:210-239 | typing a killed word again brings the line back |
| LineSession.SaveThenLoad | cmd/cli/readline/history.go:62-147 | saving and loading gives the same entries exactly when there are at most a hundred and each is a trimmed, non-empty single line |
| LineSession.SaveThenLoadExample | cmd/cli/readline/history.go:62-147 | an entry that starts with a space comes back changed |
| LineSession.NewestIsLast | cmd/cli/readline/history.go:92-99 | the entries kept are what is left when the oldest beyond a hundred are taken away |
| LineKeys.CursorKeys | cmd/cli/readline/readline.go:183-190 | at the keyboard: line start, line end, one character to either side, and nothing at the ends |
| LineKeys.EraseKeys | cmd/cli/readline/readline.go:191-192 | both backspaces take the character before the cursor, and nothing at the start |
| LineKeys.TabAndStart | cmd/cli/readline/readline.go:193-207 | a tabulator is eight spaces; control-U erases all before the cursor and keeps the rest |
| LineKeys.KillRestKey | cmd/cli/readline/readline.go:204-205 | control-K erases all after the cursor when the line has more columns than characters before it, and else does nothing |
| LineKeys.DeleteOrEnd | cmd/cli/readline/readline.go:198-203 | control-D takes the character at the cursor as long as the line takes any column |
| LineKeys.WordKeys | cmd/cli/readline/readline.go:159-211 | control-W and ESC backspace erase the last word and the spaces after it; ESC b moves over them |
| LineKeys.ForwardWordKey | cmd/cli/readline/readline.go:162-163 | ESC f moves over the character at the cursor and on to the next space or the end |
| LineKeys.EditorKey | cmd/cli/readline/readline.go:212-219 | the external editor's text replaces the line; nothing changes when it fails |
| LineKeys.EndingKeys | cmd/cli/readline/readline.go:177-222 | interrupt, suspend and end of input leave everything as it is |
| LineKeys.PasteKeys | cmd/cli/readline/readline.go:126-141 | the paste markers turn pasting on and off and leave no trace in the line |
| LineKeys.InsertKey | cmd/cli/readline/readline.go:126-141 | any other key sent as ESC [ 2 swallows three characters: insert takes the next two keys with it, or ends the input |
| LineKeys.UnknownKeys | cmd/cli/readline/readline.go:151-239 | keys without a meaning do nothing, after ESC [, after ESC or alone, except that a plain one ends the wait for a delete key's tail |
| MarkdownBuffer.StreamingMarkdownBuffer.AddContent | cmd/cli/commands/run.go:418-429 | the segment handed out and the text held back; the flush position never moves back |
| MarkdownBuffer.StreamingMarkdownBuffer.ProcessPartialMarkdown | cmd/cli/commands/run.go:432-495 | one segment cut off the text held back; rendering falls back to the plain text |
| MarkdownBuffer.StreamingMarkdownBuffer.Flush | cmd/cli/commands/run.go:498-516 | all that is held back, rendered only with markdown on |
| MarkdownBuffer.StreamAnswer | cmd/cli/commands/run.go:418-516 | with markdown on, the segments of any pieces and one flush concatenate to exactly the input; text is displayed as it is, a block as rendered, or as it is when rendering fails; what is left is flushed as a block |
| MarkdownBuffer.ShownAtMost | cmd/cli/commands/run.go:418-429 | never more comes out than went in |
| MarkdownBuffer.ShownExactly | cmd/cli/commands/run.go:418-429 | for any mixture of calls, nothing is lost if and only if no call without markdown finds text held back |
| MarkdownBuffer.ShownExactlyExample | cmd/cli/commands/run.go:418-429 | a fence held back when markdown is turned off is never shown |
| MarkdownBuffer.HeldStartsWithFence | cmd/cli/commands/run.go:437-447 | with markdown on, text held back in a block starts with the opening fence |
| MarkdownBuffer.OpeningClosesItselfIff | cmd/cli/commands/run.go:454-490 | the opening run of backticks, of any length, is taken for the end of its block if and only if a newline follows it directly or it is a fence with nothing after it |
| MarkdownBuffer.BareFenceClosesItself | cmd/cli/commands/run.go:454-472 | a block opened by a bare fence ends with its first line, whatever follows |
| MarkdownBuffer.ClosingFenceAtEnd | cmd/cli/commands/run.go:473-490 | the end-of-buffer case fires only when the held text is the opening fence alone |
| MarkdownBuffer.PlainText | cmd/cli/commands/run.go:432-450 | text without a fence is shown at once, piece by piece, with nothing held back |
| MarkdownBuffer.HeldBack | cmd/cli/commands/run.go:454-495 | however much of a block has come, nothing of it is shown before it is complete |
| MarkdownBuffer.FirstBlock | cmd/cli/commands/run.go:432-495 | however an answer is cut: the text before its first block is shown at once, the block as a whole at the first fence with a newline, and what follows is kept |
| DirectoryWalk.ShouldExclude | pkg/distribution/builder/from_directory.go:300-362 | true exactly when some pattern matches |
| DirectoryWalk.PackagedExact | pkg/distribution/builder/from_directory.go:118-362 | for any patterns, told by what they name (a directory's name or path, a path, a glob on the name, a name): a file is packaged exactly when it is no link, nothing on its path is hidden, and no pattern names it or a directory above it |
| DirectoryWalk.PassesThrough | pkg/distribution/builder/from_directory.go:322-343 | a path that begins with another and a slash passes through that entry |
| DirectoryWalk.AllSpelled | pkg/distribution/builder/from_directory.go:135-138 | each relative path is the names on the way to the entry, joined by slashes, through directories only |
| DirectoryWalk.EverythingExact | pkg/distribution/builder/from_directory.go:118-138 | the nodes decided on are exactly those that some names lead to from the root, each under these names |
| DirectoryWalk.Walker.Visit | pkg/distribution/builder/from_directory.go:118-201 | what one node adds, whether its directory is skipped, and exactly when the walk is aborted |
| DirectoryWalk.Walker.Walk | pkg/distribution/builder/from_directory.go:118-201 | the pruned walk ends well exactly when nothing fatal is reached, and then has gathered the flat filter of the whole tree, in order |
| DirectoryWalk.PrunedSubtree | pkg/distribution/builder/from_directory.go:128-150 | below a skipped directory nothing is wanted and nothing can end the walk |
| DirectoryWalk.FilterExact | pkg/distribution/builder/from_directory.go:118-201 | a node is packaged as often as it occurs when it is a file, no link, with nothing hidden or excluded on its path, and never otherwise |
| DirectoryWalk.NoPathTwice | pkg/distribution/builder/from_directory.go:135-138 | in a tree with slash-free names, distinct within each directory, no two packaged files have the same relative path |
| DirectoryWalk.FromDirectory | pkg/distribution/builder/from_directory.go:97-297 | succeeds exactly when the walk meets nothing fatal and keeps a weight file; layers, hashes and files stay in step in both formats; the weight files are listed in order and the format is the first one's |
| DirectoryWalk.Remap | pkg/distribution/builder/from_directory.go:249-275 | new media types, the same order, paths and hashes |
| DirectoryWalk.PathPatternCoversSubtree | pkg/distribution/builder/from_directory.go:329-343 | a path pattern that excludes a directory excludes everything below it by itself |
| DirectoryWalk.SlashPatterns | pkg/distribution/builder/from_directory.go:313-343 | a trailing slash never excludes a file; a pattern with a slash is never used as a glob |
| DirectoryWalk.PathPatternsDecideAlone | pkg/distribution/builder/from_directory.go:118-201 | with path patterns alone, pruning and a test of each file by itself select the same files |
| DirectoryWalk.DirectoryPatternsDecideAbove | pkg/distribution/builder/from_directory.go:313-326 | patterns with a trailing slash decide on a file's directories only |
| DirectoryWalk.SlashPatternsIgnoreGlobs | pkg/distribution/builder/from_directory.go:328-343 | with slashes in all patterns, what is packaged does not depend on glob matching |

## Left out

- Text is a sequence of characters; bytes, UTF-8 and Unicode white space are not modelled (trimming knows ASCII spaces only). The Anthropic stream is taken as cut at character boundaries.
- ResponseStream.StreamingResponseWriter: output indexes and the final status are modelled but nothing across items is claimed of them, because the code does not keep any such relation; event bodies leave out constant fields; a message item's text stands for its single text part.
- ResponseStore.Store: responses are stored as values. The source stores pointers, so a response that a stream goes on changing after it was saved changes in the store too; that aliasing is not captured.
- ResponseStore.TransformRequest: the conversion of input items to messages is an abstract result, and parameters that are copied unchanged are left out.
- ResponseStore.TransformCompletion: assistant content in several parts is left out; decoding JSON yields a string or nothing the source recognises.
- ResponseChain.WalkTerminates: a build is a sequence of lookups, each in a reachable store; the response objects read along it do not change their predecessor, as no update function in the source does that.
- OllamaStream.StreamingWriter: one class stands for the two writers, which differ in what a chunk is turned into; timestamps are left out.
- AnthropicStream.TranslateStream: events separated by carriage return and newline pairs are never cut, as in the source; creation times and the constant fields of a chunk are left out.
- Downloader: progress reporting, byte totals and the temporary files are left out; a download is a step that succeeds or fails.
- Recorder: the conversion of recorded streams to one JSON reply, media truncation and the HTTP side of a subscription are left out; the clock that makes subscriber ids is any source of ids.
- Benchmark: rates and times are left out; the producer is a source of any number of requests.
- AgentLoop.Chat: progress lines before a reply, printing of reasoning, usage figures and the decoding of tool arguments are left out; what a tool returns, errors included, is arbitrary.
- GatewayRouter: the counter has the 64-bit range of the usual targets; log messages and the provider calls themselves are left out.
- LogMerge: buffered reading and write errors of the output are left out; the output is a list of lines.
- LineEditor.Buffer: screen positions, line wrapping and everything drawn on the terminal are left out, with the division by the line width that only they need.
- LineSession.Instance: the external editor is an abstract function, suspending ends the model's run, and errors of saving the history file are left out.
- MarkdownBuffer: colours, terminal width and the renderer itself are left out.
- DirectoryWalk: the extraction of model metadata from the weight files, creation times and the failures that the file system can cause between two calls are left out.
- Left out as a whole: HTTP handlers and proxies, the scheduler, registry and file system access, argument splitting, the demo's code chunkers, progress-line collection, the message conversions of the gateway and of the Ollama front end, tables and flags of the command line.

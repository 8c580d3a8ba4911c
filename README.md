# Streamed chat client: a verified model

This project models the client side of a streaming AI chat page: a React
front end. It sends the user's message to an assistant service and reads
back a stream of newline-delimited JSON events: `text`, `tool_call`,
`tool_result`, `error` and `done`. It then folds those events into the
assistant's reply.

The model covers these parts of the client:

- the page's conversation state and its send handler;
- the per-event reducer, including the tool-list merge;
- the rollback after a transport failure;
- the transport loop that splits chunks into lines and parses or skips each one;
- the tool card's choice of tool kind and which of its panels appear;
- the message box's submit and keyboard rules.

Modules, in dependency order:

- `ChatTypes` (chat_types.dfy): the records of src/types/chat.ts. Optional fields become `Option`. A tool result is a JSON value, and `Truthy` is its JavaScript truthiness.
- `Text` (text.dfy): the JavaScript string operations the client uses. Each has a reference characterisation:
  - `trim` keeps a factor with only whitespace cut away;
  - `split("\n")` is inverted by `Join`;
  - `toLowerCase` forgets case;
  - `includes` holds exactly when the word occurs at some index.
- `ChatApi` (api.ts): `sendChatMessage`. The server's response is a value: a network failure, or a status flag with an optional body. The body is a sequence of text chunks plus the way reading ended. `JSON.parse` is a parameter `parse: string -> Option<StreamEvent>`, and `None` is a line it rejects. `Transmit` specifies the outcome. The methods `SendChatMessage`, `ReadChunks` and `DeliverLines` follow the source's early returns, its `while (true)` reader loop and its inner `for` loop. `SendChatMessage` is proved to compute `Transmit`'s result, `ReadChunks` to compute `Delivered` and `Logged` of the chunks it read, and `DeliverLines` to compute `Parsed` and `Rejected` of a chunk's lines.
- `ToolMerge` and `Conversation` (tool_merge.dfy, conversation.dfy): the state updates of src/pages/Index.tsx as functions on the message sequence. Each is proved against reference definitions:
  - the concatenated texts;
  - the tools at their latest version, in first-appearance order;
  - "a `done` has arrived".
- `IndexPage` (index_page.dfy): class `ChatPage` with the page's `messages` and `isStreaming` state and the notifications it raises. `HandleSendMessage` is proved either to complete the turn or to restore the conversation exactly.
- `ToolCallCard` (tool_call_card.dfy): `getToolKey`, and the conditions for the result panel, the failure panel and the spinner.
- `ChatInputForm` (chat_input.dfy): class `ChatInput` holding the draft, with `onChange`, `handleSubmit` and `handleKeyDown`, and the send button's disabled condition.

Three behaviours of the code are worth stating:

- **Failure rollback.** On failure the code drops the last two messages, whatever they are (`slice(0, -2)`). The conversation only returns to its pre-send value because the send appended exactly two messages and events only rewrite the last one (`RollbackRestores`).
- **A reply can stay marked as streaming.** A stream that ends without a `done` event still completes the turn and clears the page-wide flag. The reply itself stays marked as streaming (`MissingDoneKeepsReplyStreaming`). So "at most one message is streaming" does not hold across such turns.
- **No cross-chunk buffering.** Each chunk is split on its own, so a record cut across two chunks reaches the parser as two lines (`ChunkCutInsideLine`).

## Model

| member | source | states |
|---|---|---|
| Text.Trim | src/components/ChatInput.tsx:16 | the trim is empty exactly when the string is all ECMAScript whitespace |
| Text.TrimIsFactor | src/lib/api.ts:36 | the trim is a factor of the string with whitespace-only margins, and it neither starts nor ends with whitespace |
| Text.TrimIdempotent | src/components/ChatInput.tsx:16-17 | trimming the trimmed text changes nothing |
| Text.TrimMargins | src/components/ChatInput.tsx:16 | adding whitespace around a string does not change its trim |
| Text.SplitPiecesLackSeparator | src/lib/api.ts:36 | no piece of a split holds the separator |
| Text.JoinSplit | src/lib/api.ts:36 | joining the pieces of a split with the separator gives back the chunk |
| Text.SplitAtSeparator | src/lib/api.ts:36 | the pieces before and after a separator are split independently |
| Text.SplitJoin | src/lib/api.ts:36 | splitting a join of separator-free pieces gives back the pieces |
| Text.ToLower | src/components/ToolCallCard.tsx:50 | lower-casing keeps the length, leaves no upper-case ASCII letter, changes characters only by the case offset, and leaves every character outside 'A'..'Z' unchanged |
| Text.LowerOfUpper | src/components/ToolCallCard.tsx:50 | lower-casing an upper-cased name equals lower-casing the name |
| Text.ContainsIffOccurs | src/components/ToolCallCard.tsx:51-55 | `includes` holds exactly when the word occurs at some index |
| Text.ContainsPrefixOf | src/components/ToolCallCard.tsx:52 | a string containing a word contains every prefix of that word |
| Text.Split | src/lib/api.ts:36 | `split("\n")` yields at least one piece; JoinSplit and SplitJoin characterise it |
| Text.Contains | src/components/ToolCallCard.tsx:51-55 | `includes` never holds for a word longer than the string; ContainsIffOccurs characterises it |
| ChatApi.NonBlank | src/lib/api.ts:36 | the `filter((line) => line.trim())` step; NonBlankKeeps and NonBlankConcat state what it keeps and in which order |
| ChatApi.ChunkLines | src/lib/api.ts:36 | a chunk's lines, split then filtered; ChunkLinesShape states their shape |
| ChatApi.NonBlankKeeps | src/lib/api.ts:36 | the filter keeps exactly the lines whose trim is non-empty, and never adds lines |
| ChatApi.ChunkLinesShape | src/lib/api.ts:35-36 | a chunk's lines are newline-free, non-blank and unchanged pieces of the chunk, and every non-blank piece is among them |
| ChatApi.NonBlankConcat | src/lib/api.ts:36 | the filter distributes over concatenation |
| ChatApi.ParsedOrRejected | src/lib/api.ts:38-44 | a line is logged exactly when it fails to parse; the event of every line that parses is delivered and every delivered event comes from a line; the delivered and logged counts add up to the number of lines |
| ChatApi.ParsedConcat | src/lib/api.ts:38-45 | parsing distributes over concatenation of lines |
| ChatApi.SkipsMalformedLine | src/lib/api.ts:39-44 | a line that fails to parse is skipped, and the lines after it are still processed |
| ChatApi.DeliveredIsParsedStream | src/lib/api.ts:31-46 | the delivered events are the parseable lines of all chunks, chunk after chunk, in order |
| ChatApi.ChunkCutAtNewline | src/lib/api.ts:35-36 | cutting a chunk at a newline gives the same lines |
| ChatApi.SingleLineChunk | src/lib/api.ts:36 | a non-blank chunk without a newline is one line |
| ChatApi.ChunkCutInsideLine | src/lib/api.ts:35-36 | a line cut across two chunks reaches the parser as two lines, not as the joined line |
| ChatApi.MalformedLineInChunk | src/lib/api.ts:31-46 | in one chunk, a malformed line is logged, an empty line is dropped, and the other two lines are delivered in order |
| ChatApi.Transmit | src/lib/api.ts:20-46 | a failed fetch, a non-success status and a missing body each fail before any event is delivered; otherwise the transfer fails exactly when reading did not end normally |
| ChatApi.DeliverLines | src/lib/api.ts:38-45 | the inner loop delivers exactly the parsed lines and logs exactly the rejected ones, in order |
| ChatApi.ReadChunks | src/lib/api.ts:31-46 | the reader loop processes every chunk in arrival order and stops exactly when the reader reports completion or a read fails |
| ChatApi.SendChatMessage | src/lib/api.ts:11-47 | the transport computes `Transmit`'s result: the events, the logged lines and the outcome |
| ToolMerge.IndexOfId | src/pages/Index.tsx:60 | `findIndex` gives the first position holding the id, or -1 exactly when no entry holds it |
| ToolMerge.MergeTool | src/pages/Index.tsx:59-66 | a known id replaces the first matching entry in place; an unknown id is appended; an absent list counts as empty |
| ToolMerge.MergeToolIds | src/pages/Index.tsx:59-66 | merging keeps the id sequence for a known id, and extends it by the new id otherwise |
| ToolMerge.MergeToolKeepsDistinct | src/pages/Index.tsx:59-66 | merging keeps tool ids unique |
| ToolMerge.FoldToolsKeepsDistinct | src/pages/Index.tsx:57-67 | any sequence of tool events keeps a list's tool ids unique |
| ToolMerge.FoldToolsFromAbsent | src/pages/Index.tsx:60-64 | folding tools into an absent list and into an empty one give the same list |
| ToolMerge.LatestUpdate | src/pages/Index.tsx:57-67 | the last incoming version of an id: an update of that id after which no update of the id follows; absent exactly when the id never arrived |
| ToolMerge.FoldToolsIds | src/pages/Index.tsx:57-67 | after any sequence of tool events, the list holds each id seen exactly once, in first-appearance order |
| ToolMerge.FoldToolsEntries | src/pages/Index.tsx:57-67 | after any sequence of tool events, each entry is the latest version that arrived for its id |
| Conversation.StartTurn | src/pages/Index.tsx:31-42 | sending appends exactly two messages: the user's text, then an empty assistant message with an empty tool list that is streaming |
| Conversation.ApplyToMessage | src/pages/Index.tsx:52-76 | an event keeps the message's id, role and timestamp; only `done` changes the streaming flag and only `text` changes the content |
| Conversation.ApplyEvent | src/pages/Index.tsx:48-79 | an event rewrites only the last message. `text` appends its content; a tool event with a tool merges it; a tool event without one changes nothing, and neither does `error`; `done` clears the streaming flag |
| Conversation.DoneIdempotent | src/pages/Index.tsx:73-75 | a second `done` changes nothing |
| Conversation.ApplyEvents | src/pages/Index.tsx:47-80 | applying the events in delivery order keeps the number of messages; ApplyEventsEffect gives the result |
| Conversation.ApplyEventsEffect | src/pages/Index.tsx:47-80 | a stream of events leaves all but the last message unchanged. The last message gains the texts in order and folds in the tools in order. It stops streaming exactly when a `done` arrived |
| Conversation.Rollback | src/pages/Index.tsx:83 | `slice(0, -2)` drops the last two messages, or leaves none |
| Conversation.RollbackRestores | src/pages/Index.tsx:31-83 | rolling back after any events gives the conversation as it was before the send |
| Conversation.TurnEffect | src/pages/Index.tsx:31-79 | a whole turn keeps the earlier messages and the user's message. The reply's content is the streamed text. Its tools hold each id once, in first-appearance order, at the latest version. It still streams exactly when no `done` arrived |
| Conversation.EventsKeepToolIdsDistinct | src/pages/Index.tsx:57-67 | tool ids stay unique in the message the events rewrite |
| IndexPage.ChatPage.constructor | src/pages/Index.tsx:10-11 | the page starts with no messages and not streaming |
| IndexPage.ChatPage.HandleSendMessage | src/pages/Index.tsx:22-87 | a completed send leaves the turn with its events applied; a failed one raises one notice and restores the conversation; either way streaming ends false. Each `error` event raises its notice. |
| IndexPage.SendEffect | src/pages/Index.tsx:22-87 | after a completed send the reply holds the streamed text, unique tools in first-appearance order at their latest versions, and the streaming flag per `done`; after a failed send, rolling back the turn with its streamed events applied gives the conversation as it was |
| IndexPage.MissingDoneKeepsReplyStreaming | src/pages/Index.tsx:52-79 | without a `done`, the reply stays marked as streaming |
| IndexPage.CalculatorExchange | src/pages/Index.tsx:47-79 | a tool call, the text "The answer is ", the tool result, the text "4." and `done` give the reply "The answer is 4." with the one tool completed and not streaming |
| IndexPage.MalformedLineReply | src/pages/Index.tsx:47-79 | a malformed line before a text line and `done` yields a completed reply holding that text, with no notice |
| ToolCallCard.KeyName | src/components/ToolCallCard.tsx:19-25 | every key names one of the five tool kinds |
| ToolCallCard.GetToolKey | src/components/ToolCallCard.tsx:49-57 | the if-chain of keyword tests on the lower-cased name; GetToolKeyPriority states the choice it makes |
| ToolCallCard.GetToolKeyIgnoresCase | src/components/ToolCallCard.tsx:50 | the tool key does not depend on letter case |
| ToolCallCard.GetToolKeyPriority | src/components/ToolCallCard.tsx:49-57 | the key is chosen by priority: weather, then calc or calculator, then image, then database or db. Anything else is a file operation |
| ToolCallCard.WeatherBeatsDatabase | src/components/ToolCallCard.tsx:51-54 | example: the name "Weather_DB", which holds both "weather" and "db" up to case, maps to weather |
| ToolCallCard.StatusIconSpins | src/components/ToolCallCard.tsx:72 | the status icon spins for a running tool; StatusParts relates it to the other parts |
| ToolCallCard.ShowsResultPanel | src/components/ToolCallCard.tsx:77 | the result panel's condition, a truthy result of a completed tool; ResultSlotAsWritten and ResultSlot relate it to what the slot renders |
| ToolCallCard.ShowsFailurePanel | src/components/ToolCallCard.tsx:89 | the failure panel's condition, a failed tool; StatusParts relates it to the other parts |
| ToolCallCard.StatusParts | src/components/ToolCallCard.tsx:72-93 | only a running tool spins and only a failed tool shows the failure panel. The result panel appears only for a completed tool, and then exactly when its result is truthy |
| ToolCallCard.ResultSlotAsWritten | src/components/ToolCallCard.tsx:77-87 | the result slot shows the panel exactly when the result is truthy and the tool has completed |
| ToolCallCard.ZeroResultRendersStrayZero | src/components/ToolCallCard.tsx:77 | a result of 0 makes the card render the text "0" instead of a panel |
| ToolCallCard.ResultSlot | src/components/ToolCallCard.tsx:77-87 | corrected slot: never a stray value. Every panel the code shows is kept, and a completed zero result gets its panel |
| ChatInputForm.SubmitResult | src/components/ChatInput.tsx:14-20 | the trimmed draft is sent exactly when it is non-blank and the box is enabled |
| ChatInputForm.SendButtonDisabled | src/components/ChatInput.tsx:41 | the button's `disabled` condition; ButtonMatchesSubmit ties it to SubmitResult |
| ChatInputForm.SubmitsOnKey | src/components/ChatInput.tsx:23 | Enter without Shift; HandleKeyDown submits exactly when it holds |
| ChatInputForm.ButtonMatchesSubmit | src/components/ChatInput.tsx:41 | the button is disabled exactly when a submission would send nothing |
| ChatInputForm.SentTextIsTrimmed | src/components/ChatInput.tsx:16-17 | what is sent is a non-empty factor of the draft with whitespace-only margins; it neither starts nor ends with whitespace, and trimming it again changes nothing |
| ChatInputForm.SubmitIgnoresMargins | src/components/ChatInput.tsx:16-17 | whitespace around the draft does not change what is sent |
| ChatInputForm.ChatInput.constructor | src/components/ChatInput.tsx:12 | the draft starts empty |
| ChatInputForm.ChatInput.OnChange | src/components/ChatInput.tsx:33 | a change replaces the draft with the new value |
| ChatInputForm.ChatInput.HandleSubmit | src/components/ChatInput.tsx:14-20 | a submission sends the trimmed draft and clears it, or sends nothing and leaves the draft as it was |
| ChatInputForm.ChatInput.HandleKeyDown | src/components/ChatInput.tsx:22-27 | Enter without Shift suppresses the line break and submits; any other key sends nothing |

## Left out

- Network I/O: `fetch`, the `/chat` request body and the response object. The response is a value given to the model.
- `fetchTools` (src/lib/api.ts:3-9) is not part of this model. No page in the core calls it.
- `TextDecoder`: chunks are already text. The model does not cover a multi-byte character split across two chunks.
- `JSON.parse`: it is the `parse` parameter, which yields either one of the five event records, complete, or nothing. A JSON value that parses but is not such a record reaches `onChunk` in the source, and the model does not capture what happens then:
  - a record with an unknown `type` is ignored by the reducer, while the model counts its line as rejected rather than delivered;
  - `null` makes `event.type` throw inside the state updater (src/pages/Index.tsx:52);
  - a `text` record without `content` appends the text "undefined" (src/pages/Index.tsx:54);
  - a tool record without `name` is merged, and the card's `toolName.toLowerCase()` then throws (src/components/ToolCallCard.tsx:50).
- Notifications (`toast.error`) are the `notices` sequence of the page, and `console.error` is the `logged` output of the transport. Nothing is displayed.
- `Date.now()` ids and ISO timestamps are opaque strings: the `TurnStamp` parameter.
- React scheduling:
  - state updates are applied in order, one call after the other, so the page-wide `isStreaming` flag is only observable before and after a send;
  - `useEffect`, scrolling and refs are not modelled;
  - StrictMode's double invocation of state updaters is not modelled.
- Conversation.ApplyEvent: the source copies the array but mutates the last message object in place, which the previous state shares. The model builds a new message, so it does not capture that aliasing. In particular it does not capture that an updater run twice would append a text event's content twice.
- IndexPage.ChatPage.HandleSendMessage: the send itself runs whether or not a reply is streaming. Only the input box and the suggestion buttons are disabled while streaming, and those buttons (src/pages/Index.tsx:119-150) are not modelled.
- Text.ToLower: only ASCII letters change case. JavaScript's full Unicode case mapping is not modelled, and all five keywords are ASCII.
- Text.Trim: the whitespace set is the fixed ECMAScript WhiteSpace and LineTerminator list as of Unicode 15.
- JSON numbers are reals. `JSON.parse` never yields NaN, and it yields -0 from `-0`; the model does not tell -0 from 0, which is harmless because -0 is falsy too and React renders it as "0", just as it renders 0.
- The `disabled` prop of the input box is a boolean; an absent prop behaves as `false`.
- The markup is not modelled:
  - the icon and colour tables beyond the five keys they share;
  - the status labels;
  - `JSON.stringify` of non-string results (src/components/ToolCallCard.tsx:79-85);
  - src/components/ChatMessage.tsx entirely.

## Findings

| source | as written | input that shows it | evidently intended | confidence | as-written member | corrected member |
|---|---|---|---|---|---|---|
| src/components/ToolCallCard.tsx:77 | `tool.result && tool.status === "completed" && (...)` evaluates to the falsy result itself, and React renders a number child as text | a tool `{id: "1", name: "calculator", status: "completed", result: 0}`: the card shows a bare "0" and no result panel; a running tool with result 0 shows it as well | the slot shows the result panel for a completed tool with a result, and renders nothing else | medium, not executed | ToolCallCard.ZeroResultRendersStrayZero | ToolCallCard.ResultSlot |

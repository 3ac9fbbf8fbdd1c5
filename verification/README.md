# Chat client: chat store, reply reveal and typewriter hook

This project models the state logic of a single-page chat client (the
`paper-bot-frontend` React application) and proves properties of it in Dafny.

The application keeps an in-memory list of chats. Each chat holds its
messages. Two handlers work on this list:

- The sidebar creates a chat or selects one as the active chat.
- The message pane sends the input box as a user message. It then appends an
  empty assistant placeholder when the reply arrives, and reveals the reply
  into that placeholder one character per interval tick.

Two parts of the reveal are kept apart:

- what is stored: the message content in the chat list;
- what is displayed: the "currently typing" marker, which holds the
  placeholder id and the text revealed so far.

A completed reveal stores the whole reply. The stop button stores exactly
the text revealed so far. A separate generic hook, `useTypewriter`, reveals
a text the same way and starts over when its inputs change.

Modules:

- `ChatStore` (`chat_store.dfy`): the `Message` and `Chat` datatypes, and
  the list transforms the pane applies to the whole chat list. These are
  append-to-chat, replace-by-id and lookup of the active chat.
- `Decimal` (`decimal.dfy`): the decimal rendering of a number, used in new
  chat titles, with its parse back.
- `Sidebar` (`sidebar.dfy`): chat creation and selection, as pure functions
  over the application's `Store`, which holds the chats and the active id.
- `ChatInterface` (`chat_interface.dfy`): the message pane as a state machine
  over a `Pane` value. It covers send, the reply placeholder, start, tick
  and stop of the reveal, the PDF upload checks and the displayed content.
- `TypingProperties` (`typing_properties.dfy`): lemmas over several steps of
  that state machine.
- `ChatSession` (`chat_session.dfy`): class `Session`. Its fields are the
  state variables the handlers update step by step. Each method is proved
  to move the abstract `Snapshot()` exactly as the matching function of
  `ChatInterface` or `Sidebar` says, and to keep the reveal invariant
  `Valid()`.
- `Typewriter` (`typewriter.dfy`): the hook. The `Hook` datatype and its
  functions give the specification. Class `TypewriterHook` is proved
  against them.

The interval timer is an explicit tick. `Tick` does nothing while no
interval is running. Ids and timestamps come from the clock in the source;
here the caller supplies them as parameters. A reply placeholder's id is
`"typing-"` followed by the caller-supplied clock text. HTTP requests are
values: `SendMessage` and `Upload` return the request they would post, and
the reply arrives as a later call with the response body as a string.

The reveal's timer callback finalizes the message in the chat that was
active when the request was sent, because the callback captures that id.
The stop button finalizes in the chat that is active when it is pressed.
The model keeps both behaviours. `TypingProperties.StopAfterSwitchStoresNothing`
shows what follows: if the user switches to another chat during a reveal
and then presses stop, the chat list is unchanged, the marker is cleared,
and the revealed text is never stored.

## Model

| member | source | states |
|---|---|---|
| `ChatStore.AppendMessage` | paper-bot-frontend/src/components/ChatInterface.tsx:43-51 | the list keeps its length and order; every chat whose id differs is unchanged; each chat with the id gets exactly the new message added at the end of its messages |
| `ChatStore.ReplaceById` | paper-bot-frontend/src/components/ChatInterface.tsx:118-120 | replace-by-id keeps the message count and order; messages with another id are untouched; every message with the id becomes the replacement |
| `ChatStore.ReplaceInChat` | paper-bot-frontend/src/components/ChatInterface.tsx:115-128 | only chats whose id equals the target (none when the target is null) change, and only by replace-by-id of their messages; length and order are kept |
| `ChatStore.FindChat` | paper-bot-frontend/src/components/ChatInterface.tsx:21 | the lookup returns the first chat with the id, or nothing when no chat has it |
| `ChatStore.AppendShowsInActive` | paper-bot-frontend/src/components/ChatInterface.tsx:21-22 | after an append to an existing active chat, the active view is the old view plus exactly the new message; with no such chat the list is unchanged |
| `ChatStore.ReplaceAppended` | paper-bot-frontend/src/components/ChatInterface.tsx:115-128 | replacing a freshly appended placeholder by its id, when no earlier message has that id, yields the old messages followed by the replacement |
| `ChatStore.ReplaceShowsInActive` | paper-bot-frontend/src/components/ChatInterface.tsx:115-128 | replacing in the active chat shows in the active view as replace-by-id of its messages |
| `ChatStore.ActiveMessagesFirstMatch` | paper-bot-frontend/src/components/ChatInterface.tsx:21-22 | the messages shown are those of the first chat whose id equals the active id |
| `ChatStore.ActiveMessagesNoMatch` | paper-bot-frontend/src/components/ChatInterface.tsx:21-22 | when no chat has the active id (or none is active) the view is empty |
| `ChatStore.FindChatSameIds` | paper-bot-frontend/src/components/ChatInterface.tsx:21 | the lookup depends only on the ids, so transforms that keep the ids find the same chat |
| `Decimal.NatToString` | paper-bot-frontend/src/components/Sidebar.tsx:26 | a number renders as a non-empty string with no leading zero (only 0 itself starts with '0') |
| `Decimal.NatToStringDigits` | paper-bot-frontend/src/components/Sidebar.tsx:26 | the rendering consists of decimal digits only |
| `Decimal.ParseNatToString` | paper-bot-frontend/src/components/Sidebar.tsx:26 | parsing the rendering gives the number back |
| `Decimal.NatToStringInjective` | paper-bot-frontend/src/components/Sidebar.tsx:26 | different numbers render differently |
| `Sidebar.CreateNewChat` | paper-bot-frontend/src/components/Sidebar.tsx:23-32 | the list grows by exactly one; the old chats follow unchanged and in order; the new chat comes first, is empty, has the given id and time and the title "New Chat " + (old length + 1); it becomes active |
| `Sidebar.SelectChat` | paper-bot-frontend/src/components/Sidebar.tsx:61 | selecting sets the active id to the chat's id and leaves the list unchanged |
| `Sidebar.CreateMany` | paper-bot-frontend/src/components/Sidebar.tsx:30 | n creations grow the list by exactly n |
| `Sidebar.CreateManyKeepsOld` | paper-bot-frontend/src/components/Sidebar.tsx:30 | after a run of creations the chats that existed before end the list, unchanged and in order |
| `Sidebar.CreateManyAt` | paper-bot-frontend/src/components/Sidebar.tsx:23-32 | the chat made by the j-th click of a run sits j places from the end of the new chats, with that click's id and time, no messages and the title counting the chats at that moment |
| `Sidebar.CreateManyActive` | paper-bot-frontend/src/components/Sidebar.tsx:31 | after a run of creations the last chat created is the active one |
| `Sidebar.CreateManyShape` | paper-bot-frontend/src/components/Sidebar.tsx:23-32 | after n creations the newest chat comes first, each new chat is empty and titled by the count at its creation, the old chats end the list unchanged, and the last one created is active |
| `Sidebar.NewChatTitleInjective` | paper-bot-frontend/src/components/Sidebar.tsx:26 | titles for different counts differ |
| `Sidebar.CreatedTitlesDistinct` | paper-bot-frontend/src/components/Sidebar.tsx:26 | chats created one after another have pairwise different titles |
| `ChatInterface.TrimStart` | paper-bot-frontend/src/components/ChatInterface.tsx:33 | the result is a suffix of the input; every character dropped is white space; the result does not start with white space |
| `ChatInterface.TrimEnd` | paper-bot-frontend/src/components/ChatInterface.tsx:33 | the result is a prefix of the input; every character dropped is white space; the result does not end with white space |
| `ChatInterface.TrimEmptyIffBlank` | paper-bot-frontend/src/components/ChatInterface.tsx:33 | the trimmed input is empty exactly when every character is white space |
| `ChatInterface.SendMessage` | paper-bot-frontend/src/components/ChatInterface.tsx:32-60 | no request and no state change exactly when the input is blank or the active id is null or empty; otherwise the untrimmed input is appended as a user message to the active chat only, the input is cleared, loading is set, and the request carries the input and the chat id; the reveal invariant is kept |
| `ChatInterface.RequestFailed` | paper-bot-frontend/src/components/ChatInterface.tsx:87-90 | a failed request clears loading and changes nothing else |
| `ChatInterface.StartTyping` | paper-bot-frontend/src/components/ChatInterface.tsx:93-98 | a reveal starts at index 0 with the marker on the target and empty content, establishes the reveal invariant and changes nothing else |
| `ChatInterface.ReplyArrived` | paper-bot-frontend/src/components/ChatInterface.tsx:64-86 | an empty assistant placeholder is appended to the request's chat and the reveal of the reply into it starts |
| `ChatInterface.ReceiveChatReply` | paper-bot-frontend/src/components/ChatInterface.tsx:64-86 | the chat endpoint's reply appends an empty assistant placeholder (id `typing-` + clock text) to the chat the request was sent for and starts revealing the reply into it, at index 0 with an empty marker; input, active id and loading are untouched |
| `ChatInterface.ReceivePdfReply` | paper-bot-frontend/src/components/ChatInterface.tsx:192-212 | the PDF endpoint's reply appends the same empty placeholder to the chat the form was sent for and starts revealing the body, or "PDF processed successfully" when the body is empty, so the revealed text is never empty; nothing else changes |
| `ChatInterface.Tick` | paper-bot-frontend/src/components/ChatInterface.tsx:98-133 | no timer: nothing changes; characters left: chats and loading are unchanged, the index grows by one and the accumulator and the marker gain exactly the character at the old index (so they are the first i + 1 characters of the text); all shown: the timer stops, the target message of the captured chat is stored with the full text (same id, role assistant), and marker and loading are cleared; the reveal invariant (accumulator = prefix of the text) is kept |
| `ChatInterface.Ticks` | paper-bot-frontend/src/components/ChatInterface.tsx:98-133 | any number of ticks keeps the reveal invariant |
| `ChatInterface.Stop` | paper-bot-frontend/src/components/ChatInterface.tsx:136-169 | no timer: nothing changes, so a second stop is a no-op; otherwise the timer is cleared and the marked message in the chat active now is stored with the accumulated text, and marker and loading are cleared |
| `ChatInterface.MessageContent` | paper-bot-frontend/src/components/ChatInterface.tsx:219-224 | the displayed content is the marker's text exactly for the message whose id the marker holds, and the stored content for every other message |
| `ChatInterface.Upload` | paper-bot-frontend/src/components/ChatInterface.tsx:171-184 | no file list or no active chat: ignored; an empty list: the handler throws; a first file not declared `application/pdf`: an alert; in all three cases no state change and no request; otherwise loading is set and the form carries the first file and the chat id |
| `ChatInterface.PdfReplyText` | paper-bot-frontend/src/components/ChatInterface.tsx:212 | an empty body becomes "PDF processed successfully", any other body is kept, so the revealed text is never empty |
| `TypingProperties.TicksReveal` | paper-bot-frontend/src/components/ChatInterface.tsx:99-102 | while characters remain, k ticks append exactly the next k characters: the accumulator and the marker are the first i + k characters, and nothing else changes |
| `TypingProperties.RevealCompletes` | paper-bot-frontend/src/components/ChatInterface.tsx:103-131 | after N ticks the marker shows the whole text and nothing is stored yet; tick N + 1 stores exactly the full text into the target, clears marker, timer and loading; further ticks change nothing |
| `TypingProperties.StopFinalizesPrefix` | paper-bot-frontend/src/components/ChatInterface.tsx:136-168 | stopping after k ticks, with the reveal's chat active, stores exactly the first k characters (not the full text), clears marker, timer and loading; stopping again changes nothing |
| `TypingProperties.DisplayedDuringReveal` | paper-bot-frontend/src/components/ChatInterface.tsx:219-224 | during a reveal the target displays a prefix of the reply (the first i characters); every other message displays its stored content |
| `TypingProperties.StopKeepsDisplayed` | paper-bot-frontend/src/components/ChatInterface.tsx:141-166 | with the reveal's chat active, every message of that chat is stored after a stop with the content it displayed before it, so no revealed character is lost |
| `TypingProperties.StopAfterSwitchStoresNothing` | paper-bot-frontend/src/components/ChatInterface.tsx:150-163 | when the chat active at the stop has no message with the placeholder id, the stop leaves the chat list unchanged, clears marker and timer, and no later tick stores the revealed text |
| `TypingProperties.StoppedStaysIdle` | paper-bot-frontend/src/components/ChatInterface.tsx:98-105 | with no interval running, any number of ticks changes nothing |
| `TypingProperties.ReplyRoundTrip` | paper-bot-frontend/src/components/ChatInterface.tsx:72-131 | for an existing chat and a new placeholder id, a reply revealed to the end leaves that chat's messages as before plus one assistant message holding exactly the reply; other chats are unchanged; marker, timer and loading are cleared |
| `TypingProperties.ChatReplyRoundTrip` | paper-bot-frontend/src/components/ChatInterface.tsx:64-133 | a chat reply revealed to the end adds exactly one assistant message holding the reply to the request's chat, and ends loading and the marker |
| `TypingProperties.SendThenReply` | paper-bot-frontend/src/components/ChatInterface.tsx:32-134 | a non-blank send in an existing active chat, then its reply revealed to the end, adds exactly the user message and then the assistant reply to that chat |
| `TypingProperties.PdfReplyRoundTrip` | paper-bot-frontend/src/components/ChatInterface.tsx:192-212 | a PDF reply revealed to the end adds one assistant message holding the body, or the fallback text when the body is empty |
| `TypingProperties.HelloExample` | paper-bot-frontend/src/components/ChatInterface.tsx:93-168 | revealing "Hello" displays "Hel" after three ticks; a stop then stores "Hel"; a second stop changes nothing |
| `ChatSession.Session.constructor` | paper-bot-frontend/src/App.tsx:14-15 | the session starts with no chats, no active chat, an empty input, no loading, no marker and no timer |
| `ChatSession.Session.SetInput` | paper-bot-frontend/src/components/ChatInterface.tsx:333 | typing replaces the input and nothing else |
| `ChatSession.Session.NewChat` | paper-bot-frontend/src/components/Sidebar.tsx:23-32 | the chats and the active id become those of `Sidebar.CreateNewChat`; nothing else changes |
| `ChatSession.Session.SelectChat` | paper-bot-frontend/src/components/Sidebar.tsx:61 | the active id becomes the chat's id; nothing else changes |
| `ChatSession.Session.SendMessage` | paper-bot-frontend/src/components/ChatInterface.tsx:32-60 | state and returned request are those of `ChatInterface.SendMessage`; the reveal invariant is kept |
| `ChatSession.Session.TypeMessage` | paper-bot-frontend/src/components/ChatInterface.tsx:93-98 | the state becomes that of `ChatInterface.StartTyping` and satisfies the reveal invariant |
| `ChatSession.Session.ReceiveChatReply` | paper-bot-frontend/src/components/ChatInterface.tsx:64-86 | the state becomes that of `ChatInterface.ReceiveChatReply` (placeholder appended, reveal started) |
| `ChatSession.Session.RequestFailed` | paper-bot-frontend/src/components/ChatInterface.tsx:87-90 | loading is cleared and nothing else changes |
| `ChatSession.Session.Tick` | paper-bot-frontend/src/components/ChatInterface.tsx:98-133 | one callback moves the state as `ChatInterface.Tick` says and keeps the accumulator a prefix of the text |
| `ChatSession.Session.StopTyping` | paper-bot-frontend/src/components/ChatInterface.tsx:136-169 | the stop moves the state as `ChatInterface.Stop` says and keeps the reveal invariant |
| `ChatSession.Session.UploadFile` | paper-bot-frontend/src/components/ChatInterface.tsx:171-184 | state and outcome are those of `ChatInterface.Upload` |
| `ChatSession.Session.ReceivePdfReply` | paper-bot-frontend/src/components/ChatInterface.tsx:192-212 | the state becomes that of `ChatInterface.ReceivePdfReply` (placeholder appended, reveal of the body or the fallback started) |
| `Typewriter.Start` | paper-bot-frontend/src/hooks/useTypewriter.ts:6-9 | the effect resets the displayed text to empty and the index to 0, starts the interval, and satisfies displayed = text[..i] |
| `Typewriter.Rerender` | paper-bot-frontend/src/hooks/useTypewriter.ts:6-19 | a render with a changed text or speed resets the displayed text to empty; one with both unchanged changes nothing; the invariant is kept |
| `Typewriter.Step` | paper-bot-frontend/src/hooks/useTypewriter.ts:9-16 | a tick with i < length appends exactly text[i] and increments i; at i = length it stops the interval and changes nothing else; a stopped interval does nothing; displayed = text[..i] is kept |
| `Typewriter.Steps` | paper-bot-frontend/src/hooks/useTypewriter.ts:9-16 | any number of ticks keeps displayed = text[..i] |
| `Typewriter.StepsReveal` | paper-bot-frontend/src/hooks/useTypewriter.ts:10-12 | while characters remain, k ticks show exactly k more characters |
| `Typewriter.StoppedStaysPut` | paper-bot-frontend/src/hooks/useTypewriter.ts:13-15 | once the interval has stopped, ticks change nothing |
| `Typewriter.RevealFromStart` | paper-bot-frontend/src/hooks/useTypewriter.ts:7-16 | k ticks after a reset show text[..min(k, length)], never more than the length; the interval runs until the tick after the last character |
| `Typewriter.RevealRoundTrip` | paper-bot-frontend/src/hooks/useTypewriter.ts:8-12 | length-many ticks after a reset show exactly the text |
| `Typewriter.TypewriterHook.constructor` | paper-bot-frontend/src/hooks/useTypewriter.ts:4-9 | mounting gives the state of `Typewriter.Start` for the first inputs |
| `Typewriter.TypewriterHook.Render` | paper-bot-frontend/src/hooks/useTypewriter.ts:6-19 | a render moves the state as `Typewriter.Rerender` says |
| `Typewriter.TypewriterHook.Tick` | paper-bot-frontend/src/hooks/useTypewriter.ts:9-16 | one callback moves the state as `Typewriter.Step` says |

## Left out

- HTTP calls, `FormData`, `console` logging and `alert` are not modelled as effects. A request is a returned value, a reply is a later call with the body as a string, and the alert is the `Alerted` outcome. A response body that is not a string is not modelled.
- `setInterval`/`clearInterval` and the 10 ms and 20 ms periods are not modelled. An explicit tick stands for each callback, and a flag stands for the interval handle.
- `Date.now()` and `new Date()` are not modelled. Ids, the placeholder's clock text and timestamps are parameters. Collisions of clock-derived ids are not excluded. The lemmas that need distinct ids require them explicitly.
- Starting a reveal while one is running: in the source the earlier interval is orphaned but keeps ticking. `ChatInterface.StartTyping` and `ChatSession.Session.TypeMessage` replace it instead, so two intervals running at once are not modelled.
- Overlapping sends and other interleavings of asynchronous replies with user actions are not modelled. Every handler runs to completion in sequence.
- Closures that capture an older render are not modelled. `handleFileUpload` maps over the captured `chats` instead of the latest list, and `handleStopTyping` reads the captured marker. Sequentially these are the latest values, which the model uses. The send time's active chat id, which the reply and the tick callback capture, is modelled: it is the request's chat id.
- Typewriter.Step: `useTypewriter` appends through a functional state update that reads `i` when React runs the updater, after the callback has already incremented it. The model reads `i` at the tick, which matches React only when every update is applied eagerly. When only the first update is eager, the source shows `text[0] + text[2..]` ("Hllo" for "Hello"): every later updater reads the incremented index, so one character is skipped and the last updater appends the empty `charAt(length)`. `Typewriter.RevealFromStart` and `Typewriter.RevealRoundTrip` describe the intended reveal, not that behaviour.
- ChatInterface.Tick, Typewriter.Step: text is a sequence of Unicode scalar values, while `length` and `charAt` in the source count UTF-16 code units. For text outside the Basic Multilingual Plane the counts differ. "a😀" takes 3 reveal ticks in the source but 2 in the model, so it is stored one callback later in the source. A stop after 2 ticks stores "a" plus a lone high surrogate in the source, but "a😀" in the model. The tick counts in `TypingProperties.TicksReveal`, `TypingProperties.RevealCompletes`, `TypingProperties.StopFinalizesPrefix` and the `Typewriter` lemmas hold for code-unit text only when every character is in that plane.
- The React lifecycle is not modelled: StrictMode double effects, unmounting, and the interval that `ChatInterface` never clears on unmount.
- Rendering, the MUI layout, scroll-into-view and the "Thinking..." indicator are presentation. The disabled state of the input and the send button while loading is UI gating, not part of the handler, so `SendMessage` does not check loading, just as `handleSendMessage` does not.
- The `Chat` and `Message` types come from `src/types`, which is not part of this model. Their fields are taken from how the components build them.

# Cauris AI: chat session controller, text chunker and connection registry

This project models three sequential cores of the Cauris AI application and proves
properties of the models in Dafny.

- **The chat client's session controller** is the state machine hidden in the React
  component `ChatRoom`. It is modelled by the class `ChatRoom.Component`:
  - its React state (`UiState`: status, transcript, typing flag, history, input and
    the upload dialog);
  - its two refs (the current socket and the last reconnect timer);
  - the part of the browser it drives (`Env`: the sockets it created with their ready
    states, the pending timers, the file dialog, whether it is mounted);
  - logs of what went out (frames, history and upload requests, navigations).

  Each callback or handler is one method: the connection effect and its cleanup, the
  four socket handlers, the reconnect timer, the two history outcomes, `handleSend`
  (the Enter key) and the send button, "new discussion", the history entries, the
  modal and the drop zone, the file selection, the two upload outcomes and the reset
  timer. React ignores state updates after unmount, so the late callbacks change the
  React state only while the component is mounted. Their other effects still happen.
  The pure parts are in `ChatModel`:
  - the strip of the server's `" : "` framing;
  - the blank test of `trim()`;
  - the newest-first order of the sidebar;
  - the status indicator.

  `ChatScenarios` runs whole sessions from the first render.
- **The text chunker** `split_text` is the method `Ingestion.SplitText`. It keeps its
  `while` loop and its `break`, and uses Python slice semantics (`PySlice`). It is
  proved equal to the closed form `Chunks`: window `i` is
  `text[i*step : i*step + chunk_size]` with `step = chunk_size - overlap`, and there are
  `ceil(len(text) / step)` windows. The lemmas prove these properties of `Chunks`:
  - the empty case;
  - the count;
  - the shape of each window;
  - coverage: the windows glued back give the text;
  - the redundancy of the `break`;
  - the short-text case.

  `Ingestion.ProcessPdf` is the part of `process_pdf` between text extraction and the
  vector store: it concatenates the page texts, returns early on whitespace-only
  text, chunks with 1000 / 200 and builds one metadata record per chunk.
- **The backend's `ConnectionManager`** is the class `WebsocketManager.ConnectionManager`.
  It holds the list of active sockets (opaque ids) and a log of the `accept` and
  `send_text` effects, in order.

`Text` holds white-space trimming for the two languages involved (JavaScript's
`String.prototype.trim` and Python's `str.strip`), each with its own set of
white-space characters. `Options` holds the `Option` type.

The model keeps these behaviours of the code, which a reader might not expect:
- The history is requested when the effect runs on mount, and again after every
  incoming frame. It is not requested when the socket opens.
- Without a stored token (none or an empty one) the component only navigates to `/`. The status keeps its
  initial value `connecting` and is not set to "disconnected".
- The upload error state never resets. The file stays held, so the modal cannot be
  closed and the drop zone does not reopen the file dialog.
- A text with `step < len(text) <= chunk_size` gives two chunks when, and only when,
  also `len(text) <= 2*step`. An example is 1000 / 200 with 1000 characters. With 1000 / 900
  and 1000 characters there are ten. `Ingestion.ShortTextChunks` states it that way.

## Model

| member | source | states |
|---|---|---|
| ChatModel.StripPrefix | frontend-chat/src/components/ChatRoom.tsx:119 | the payload comes back either unchanged or without one leading `" : "`, and a payload that starts with `" : "` always loses it |
| ChatModel.StripFramed | frontend-chat/src/components/ChatRoom.tsx:119 | stripping a frame the server built with its `" : "` prefix gives back the text it framed |
| ChatModel.StripAtMostOnce | frontend-chat/src/components/ChatRoom.tsx:119 | the strip changes the payload exactly when it starts with `" : "`; a doubly framed payload keeps its inner frame |
| ChatModel.IsBlank | frontend-chat/src/components/ChatRoom.tsx:151 | the send guard's `!inputValue.trim()`: the input is empty or its first character is JavaScript white space and the rest is blank |
| ChatModel.BlankIffAllSpace | frontend-chat/src/components/ChatRoom.tsx:151 | the send guard's blank test holds exactly when every character is JavaScript white space |
| ChatModel.BlankIffTrimEmpty | frontend-chat/src/components/ChatRoom.tsx:151 | the blank test holds exactly when `trim()` returns the empty string |
| ChatModel.DisplayOrder | frontend-chat/src/components/ChatRoom.tsx:227 | the sidebar's `history.slice().reverse()`: as many entries as the history |
| ChatModel.DisplayOrderAt | frontend-chat/src/components/ChatRoom.tsx:227 | `history.slice().reverse()` has the same length, and position `i` shows entry `len-1-i` |
| ChatModel.DisplayOrderSameEntries | frontend-chat/src/components/ChatRoom.tsx:227 | the sidebar lists every history entry exactly as often as the history holds it |
| ChatModel.StatusDot | frontend-chat/src/components/ChatRoom.tsx:287-293 | the header dot: emerald exactly for `connected`, amber exactly for `connecting`, red for `error` and `disconnected` |
| ChatModel.StatusLabel | frontend-chat/src/components/ChatRoom.tsx:287-293 | the header text: the knowledge-base notice for `connected`, the connecting notice for `connecting`, the disconnected notice for the other two |
| ChatModel.IsPdf | frontend-chat/src/components/ChatRoom.tsx:168 | the upload filter: a file is accepted exactly when its MIME type is `application/pdf` |
| ChatModel.IndicatorDistinguishes | frontend-chat/src/components/ChatRoom.tsx:287-293 | two statuses get the same label iff they are equal or both are `error`/`disconnected`; the dot colour separates exactly the statuses the label separates |
| Text.TrimStart | frontend-chat/src/components/ChatRoom.tsx:151 | the result is a suffix of the input and does not start with white space |
| Text.TrimEnd | frontend-chat/src/components/ChatRoom.tsx:151 | the result is a prefix of the input and does not end with white space |
| Text.TrimStartDropsSpace | frontend-chat/src/components/ChatRoom.tsx:151 | everything the start trim removes is white space |
| Text.TrimEndDropsSpace | frontend-chat/src/components/ChatRoom.tsx:151 | everything the end trim removes is white space |
| Text.TrimStartKeepsLast | frontend-chat/src/components/ChatRoom.tsx:151 | a string ending in a non-space character does not trim to the empty string |
| Text.Trim | frontend-chat/src/components/ChatRoom.tsx:151 | `trim()` (and `strip()`): no longer than the input, and a non-empty result neither starts nor ends with white space |
| Text.TrimEmptyIff | backend/app/service/ingestion.py:32 | a string trims to the empty string iff all of it is white space (for either language) |
| ChatRoom.Component.constructor | frontend-chat/src/components/ChatRoom.tsx:52-71 | first render: the welcome message only, status `connecting`, idle upload, no socket, no timer, mounted, nothing sent |
| ChatRoom.Component.FetchHistory | frontend-chat/src/components/ChatRoom.tsx:81-83 | exactly one history request is issued and is pending |
| ChatRoom.Component.ConnectWebSocket | frontend-chat/src/components/ChatRoom.tsx:100-140 | nothing changes when the current socket is open; otherwise the status becomes `connecting` (if mounted) and exactly one new connecting socket becomes the current one; the invariant is kept |
| ChatRoom.Component.RunEffect | frontend-chat/src/components/ChatRoom.tsx:91-142 | without a token (none, or the empty string, which `!token` also rejects): one navigation to `/` and nothing else, so the status stays as it was; with a non-empty one: one history request, then `connectWebSocket` |
| ChatRoom.Component.Cleanup | frontend-chat/src/components/ChatRoom.tsx:144-147 | the last reconnect timer is cancelled and the current socket, if connecting or open, starts closing; the React state and the refs are untouched |
| ChatRoom.Component.Unmount | frontend-chat/src/components/ChatRoom.tsx:144-147 | the cleanup runs and the component is no longer mounted |
| ChatRoom.Component.OnOpen | frontend-chat/src/components/ChatRoom.tsx:107-110 | the socket becomes open and the status `connected` (if mounted) |
| ChatRoom.Component.OnMessage | frontend-chat/src/components/ChatRoom.tsx:112-126 | if mounted, exactly one incoming bot message holding the stripped payload is appended, with all earlier messages unchanged, and typing stops; exactly one history request is issued regardless |
| ChatRoom.Component.OnError | frontend-chat/src/components/ChatRoom.tsx:128-131 | status `error` and typing stops (if mounted); no timer is set and nothing is sent |
| ChatRoom.Component.OnClose | frontend-chat/src/components/ChatRoom.tsx:133-137 | status `disconnected` (if mounted); exactly one new reconnect timer of 3000 ms is pending and held by the ref, on every close, also after unmount |
| ChatRoom.Component.OnReconnectTimer | frontend-chat/src/components/ChatRoom.tsx:100-136 | the timer is no longer pending, then `connectWebSocket` runs |
| ChatRoom.Component.OnHistoryLoaded | frontend-chat/src/components/ChatRoom.tsx:84 | the history is replaced as a whole by the response (if mounted) |
| ChatRoom.Component.OnHistoryFailed | frontend-chat/src/components/ChatRoom.tsx:85-87 | the history and all other state are unchanged |
| ChatRoom.Component.Type | frontend-chat/src/components/ChatRoom.tsx:380 | the input becomes the typed value and nothing else changes |
| ChatRoom.Component.HandleSend | frontend-chat/src/components/ChatRoom.tsx:150-164 | a blank input, a missing socket or one that is not open changes nothing; otherwise one outgoing user message with the untrimmed input is appended, the input clears, typing starts, and that same text is sent once on the current socket, whatever `isTyping` was |
| ChatRoom.Component.ClickSend | frontend-chat/src/components/ChatRoom.tsx:386-387 | the button does nothing while typing or with a blank input, and otherwise acts as `handleSend` |
| ChatRoom.Component.NewDiscussion | frontend-chat/src/components/ChatRoom.tsx:210-216 | the transcript becomes exactly one incoming bot message; status, typing and history are unchanged |
| ChatRoom.Component.SelectHistoryItem | frontend-chat/src/components/ChatRoom.tsx:227-238 | the transcript becomes the old first message, the entry's question (outgoing user) and its answer (incoming bot), both without timestamps; entry `i` of the sidebar is history entry `len-1-i` |
| ChatRoom.Component.OpenUploadModal | frontend-chat/src/components/ChatRoom.tsx:253 | the modal is shown and nothing else changes |
| ChatRoom.Component.CloseUploadModal | frontend-chat/src/components/ChatRoom.tsx:423 | fires only while the modal is shown; the modal closes exactly when no file is held, and otherwise nothing changes |
| ChatRoom.Component.OpenPicker | frontend-chat/src/components/ChatRoom.tsx:436 | fires only while the modal (which holds the drop zone) is shown; the file dialog opens exactly when the upload status is `idle` |
| ChatRoom.Component.SelectFile | frontend-chat/src/components/ChatRoom.tsx:166-170 | a PDF moves to `uploading` holding that file and issues one upload request; an absent or non-PDF file changes nothing except that the dialog is closed |
| ChatRoom.Component.OnUploadSucceeded | frontend-chat/src/components/ChatRoom.tsx:171-178 | status `success` (if mounted), the request is answered, and one more reset timer is pending, its delay of 2000 ms recorded |
| ChatRoom.Component.OnUploadFailed | frontend-chat/src/components/ChatRoom.tsx:179-182 | status `error` (if mounted), and the file stays held |
| ChatRoom.Component.OnUploadResetTimer | frontend-chat/src/components/ChatRoom.tsx:174-178 | the modal closes, the status returns to `idle`, and the file is released (if mounted) |
| ChatScenarios.GreetingExchange | frontend-chat/src/components/ChatRoom.tsx:112-126 | one question answered with the interim notice and then the answer gives four messages, and typing is already off after the notice; the question is sent once and the history is requested three times |
| ChatScenarios.EnterSendsWhileTyping | frontend-chat/src/components/ChatRoom.tsx:381 | the Enter key sends a second question before the first is answered |
| ChatScenarios.ButtonWaitsForAnswer | frontend-chat/src/components/ChatRoom.tsx:386-387 | the send button sends nothing while an answer is pending, and the input is kept |
| ChatScenarios.ErrorThenReconnect | frontend-chat/src/components/ChatRoom.tsx:128-136 | an error and then a close give `error`, then `disconnected` with one 3000 ms timer; the timer opens a second socket and the status is back to `connecting` |
| ChatScenarios.TeardownStillReconnects | frontend-chat/src/components/ChatRoom.tsx:133-147 | after unmount, the close event still sets a 3000 ms timer, and that timer still creates a new socket, which the ref holds; the screen state is frozen |
| ChatScenarios.MissingToken | frontend-chat/src/components/ChatRoom.tsx:92-96 | without a token the status stays `connecting`, one navigation to `/` happens, and there is no socket and no history request |
| ChatScenarios.EmptyToken | frontend-chat/src/components/ChatRoom.tsx:92-96 | an empty stored token behaves exactly like a missing one |
| ChatScenarios.FailedUploadIsStuck | frontend-chat/src/components/ChatRoom.tsx:179-182 | after a failed upload the file stays held, the modal cannot be closed and the file dialog cannot be opened again |
| ChatScenarios.SuccessfulUpload | frontend-chat/src/components/ChatRoom.tsx:166-178 | a successful upload goes through `success` and its timer to `idle`, with no file held and the modal closed; exactly one upload request is issued and one 2000 ms reset timer set |
| Ingestion.PySlice | backend/app/service/ingestion.py:12 | Python's `text[start:end]` is never longer than the text |
| Ingestion.PySliceInside | backend/app/service/ingestion.py:12 | a window starting inside the text with positive length is the plain slice up to `min(end, len)` |
| Ingestion.EmptyText | backend/app/service/ingestion.py:8-10 | the result is the empty list exactly for the empty text |
| Ingestion.ChunkCountIsCeiling | backend/app/service/ingestion.py:10-16 | the number of chunks is the least `k` with `k*step >= len(text)`, that is `ceil(len(text)/step)` |
| Ingestion.ChunkShape | backend/app/service/ingestion.py:11-13 | chunk `i` starts inside the text at `i*step`, is `text[i*step : min(i*step+chunk_size, len)]`, and is `min(chunk_size, remaining)` long, so at most `chunk_size` |
| Ingestion.BreakIsRedundant | backend/app/service/ingestion.py:10-16 | the loop without its `break` produces the same list |
| Ingestion.SplitFromClosedForm | backend/app/service/ingestion.py:10-14 | the loop without its `break`, started at window `k`, produces windows `k..` of the closed form |
| Ingestion.GluePrefix | backend/app/service/ingestion.py:10-16 | the first `k` windows glued back, overlaps dropped, give the text up to the end of window `k-1` |
| Ingestion.Coverage | backend/app/service/ingestion.py:10-16 | the last window ends at or after `len(text)`, and the first chunk followed by each later chunk minus its first `overlap` characters is the text |
| Ingestion.ShortTextChunks | backend/app/service/ingestion.py:11-16 | for `step < len(text) <= chunk_size`: at least two chunks, the first is the whole text and every chunk is a suffix of it; exactly two iff also `len(text) <= 2*step` |
| Ingestion.DefaultThousandChars | backend/app/service/ingestion.py:7-22 | with the defaults 1000 / 200, a 1000-character text gives the text and its last 200 characters |
| Ingestion.NextChunk | backend/app/service/ingestion.py:11-13 | one more iteration appends exactly the next window of the closed form |
| Ingestion.LastChunk | backend/app/service/ingestion.py:10-16 | once `start >= len(text)` every window has been produced |
| Ingestion.SplitText | backend/app/service/ingestion.py:7-17 | the loop, `break` included, terminates whenever `overlap < chunk_size` and returns exactly the closed-form windows |
| Ingestion.Metadatas | backend/app/service/ingestion.py:40 | one metadata record per chunk, each with `source = filename` |
| Ingestion.DocumentText | backend/app/service/ingestion.py:28-30 | the page texts concatenated in page order, a page without text adding nothing |
| Ingestion.ProcessPdf | backend/app/service/ingestion.py:28-40 | nothing is indexed exactly when the concatenated page text is white space only; otherwise the chunks of that text (non-empty) are stored with one `source = filename` record each |
| WebsocketManager.FirstIndex | backend/app/service/websocket_manager.py:18 | the index that `list.remove` uses: an occurrence of the socket with none before it |
| WebsocketManager.RemoveFirst | backend/app/service/websocket_manager.py:18 | `list.remove`: one entry shorter when the socket is in the list, the same length otherwise |
| WebsocketManager.RemoveFirstCutsFirst | backend/app/service/websocket_manager.py:18 | removal cuts out exactly the first occurrence, keeps the order of the rest, and shortens the list by one |
| WebsocketManager.RemoveAbsent | backend/app/service/websocket_manager.py:18 | removing a socket that is not in the list leaves it unchanged |
| WebsocketManager.RemoveFirstMultiset | backend/app/service/websocket_manager.py:18 | removal takes away one copy of the socket and nothing else |
| WebsocketManager.ConnectThenDisconnect | backend/app/service/websocket_manager.py:12-18 | connecting then disconnecting a new socket restores the list; for a socket already present, its older entry goes and the new one stays at the end |
| WebsocketManager.BroadcastEffects | backend/app/service/websocket_manager.py:27-28 | one frame per list entry, to that entry, in list order |
| WebsocketManager.BroadcastReachesEach | backend/app/service/websocket_manager.py:27-28 | each socket gets as many frames as it has entries in the list |
| WebsocketManager.ConnectionManager.constructor | backend/app/service/websocket_manager.py:8-10 | a fresh manager has no connections, and nothing has been done to any socket |
| WebsocketManager.ConnectionManager.Connect | backend/app/service/websocket_manager.py:12-14 | the handshake is accepted, then the socket is appended at the end, with no deduplication |
| WebsocketManager.ConnectionManager.Disconnect | backend/app/service/websocket_manager.py:17-18 | the result says whether the socket was listed; if so its first occurrence is removed and the list is one shorter, otherwise the call fails and the list is unchanged |
| WebsocketManager.ConnectionManager.SendPersonalMessage | backend/app/service/websocket_manager.py:21-23 | exactly one frame is sent to the socket and the list is neither read nor changed |
| WebsocketManager.ConnectionManager.Broadcast | backend/app/service/websocket_manager.py:25-28 | exactly the frames of `BroadcastEffects` for the current list are sent, in order, and the list is unchanged |

## Left out

- Rendering is a view of the state and is not modelled: the JSX, auto-scroll, animations, the sidebar toggle, dark mode (`localStorage` and the DOM) and logout.
- The timestamps from `toLocaleTimeString` are an opaque `now` parameter, and the token is an opaque value. The WebSocket URL is not modelled.
- Console logging is not modelled.
- Real timers, promises and browser sockets are not modelled. Each event is a method the environment calls, and its `requires` states what the browser guarantees about the socket's ready state. Timer delays are recorded, but time does not pass.
- Events are delivered to one socket at a time. The interleaving of async callbacks is whatever order the methods are called in.
- `ChatRoom.Component`: the eight modelled `useState` cells (`sidebarOpen` is left out with the sidebar toggle) are grouped in one record, `UiState`, and each setter replaces one component of it. React's batching of setState calls within one handler is not modelled, since it has no visible effect on these handlers.
- The file dialog's `change` event fires only while the dialog is open, so `SelectFile` requires `pickerOpen`. The browser's behaviour of re-selecting the same file is not modelled.
- Upload reset timers are a log of their delays and a pending count. Nothing can cancel them, and the source never cancels them either.
- `Ingestion.ProcessPdf` leaves out the following:
  - the PDF reader (`PdfReader`, `extract_text`), because it is a foreign library; the pages' texts are its input, and `None` is a page without text;
  - the call to the vector store, replaced by the returned `Indexed` value;
  - logging;
  - the re-raise of exceptions, because every step left in the model is total.
- `Ingestion.SplitText` requires `overlap < chunk_size`. Then every step `chunk_size - overlap` is positive, which keeps `start` non-negative and makes the loop terminate. With `overlap >= chunk_size` and a non-empty text the source's loop does not terminate (with an empty text it returns `[]` at once); that case is excluded by the `requires`.
- `WebsocketManager.ConnectionManager`: `accept` and `send_text` are recorded effects, not network I/O. Their failures and the awaits between the frames of a broadcast are not modelled. A `ValueError` from `disconnect` is the result `false`.
- The rest of the repository is not part of this model:
  - the login and signup forms, routing and bootstrap;
  - the axios wrappers;
  - the FastAPI endpoints other than the `" : "` framing that the client strips;
  - JWT and bcrypt security;
  - the LLM and vector-store services;
  - database models and settings.

# Conversation state of the chat client's Home component

This project models the core of a two-party direct-messaging web client: the state that
the `Home` component (src/components/Home.jsx) keeps for the conversation on screen, and
the events that change it. The state is five pieces: the roster `users`, the selected peer
`current`, the fetched history `messages`, the live backlog `msgs` and the input buffer `msg`.
It is modelled as the class `HomeComponent.Home`, with the signed-in `user` and the presence
of the socket as constants of the instance.

The events are these:

- a `receive-message` from the socket, which appends to the backlog;
- `sendMessage`, which is guarded by three checks and then emits the payload, appends an equal
  object (a second literal with the same fields) as a local echo and clears the input. It runs on the Enter key or the Send button;
- a peer selection, which sets `current` and issues a history request. The history response
  arrives as a separate event;
- a roster response;
- typing into the input.

The messages area is a pure derivation, which lives in module `Conversation`. It shows every
history row in fetch order, then every backlog message that passes a four-way
sender/recipient test, in arrival order. The test accepts both sender spellings `by` and
`from`. Each row carries the "own message" flag that decides its alignment. A live row shows
`content` when it is present and non-empty, and otherwise `data`.

`JsString.Trim` models JavaScript's `String.prototype.trim`, which the send guard uses.
It strips ECMAScript's WhiteSpace and LineTerminator characters from both ends.

A JavaScript message object becomes `Conversation.Message`, and each of its fields is an
`Option<string>`: a missing field is `None`, which equals no string.
The JavaScript field `by` is named `by_` because `by` is a Dafny keyword.

The model follows the code in the places where a cleaner design of the same client would
behave differently:

- the local echo is not deduplicated against a later server echo;
- a late history response is applied whichever peer is selected by then;
- a failed history fetch leaves the previous history on screen, rather than emptying it;
- the history rows are shown even when no peer is selected;
- with no peer selected (`current == ""`) the filter still keeps a backlog message sent from
  `""` to the user, or from the user to `""`, rather than showing nothing. A message such as
  `{by: "", to: "carol"}` is still dropped.

## Model

| member | source | states |
|---|---|---|
| `JsString.TrimStart` | src/components/Home.jsx:97 | the result is a suffix of the input, everything dropped is trimmable, and a non-empty result starts with a kept character |
| `JsString.TrimEnd` | src/components/Home.jsx:97 | the result is a prefix of the input, everything dropped is trimmable, and a non-empty result ends with a kept character |
| `JsString.Trim` | src/components/Home.jsx:97 | `msg.trim()` is empty (falsy) exactly when every character of `msg` is whitespace or a line terminator; otherwise both its ends are kept characters |
| `JsString.TrimIsSlice` | src/components/Home.jsx:97 | `msg.trim()` is the input between two cut points with only whitespace and line terminators outside them; with Trim's kept ends this fixes the result |
| `HomeComponent.SendAllowedMeans` | src/components/Home.jsx:97 | the send guard holds iff there is a socket, a peer is selected and the input holds a non-whitespace character |
| `Conversation.Filter` | src/components/Home.jsx:199-210 | a message is in the filtered backlog iff it is in the backlog and passes the four-way by/from/to test; the result is no longer than the backlog |
| `Conversation.FilterAtPositions` | src/components/Home.jsx:199-210 | the filtered backlog has one entry per passing backlog position, and its k-th entry is the backlog message at the k-th passing position |
| `Conversation.PositionsIncrease` | src/components/Home.jsx:199-210 | the passing positions strictly increase, so the shown messages keep their backlog order |
| `Conversation.PositionsExact` | src/components/Home.jsx:199-210 | a backlog position is a passing position iff its message passes the four-way test (nothing that belongs is dropped, nothing else is shown) |
| `Conversation.FilterAppend` | src/components/Home.jsx:199-210 | filtering a backlog extended by new arrivals gives the old filtered backlog followed by the filtered arrivals |
| `Conversation.FilterUnordered` | src/components/Home.jsx:202-206 | swapping the user and the peer does not change the filtered backlog: the conversation is an unordered pair |
| `Conversation.SingleSpellingIsPair` | src/components/Home.jsx:202-206 | for a message with one sender spelling and a recipient, the four-way test holds iff {sender, recipient} == {user, peer} |
| `Conversation.Render` | src/components/Home.jsx:183-224 | the transcript has one row per history item and one per filtered backlog message; the DB rows are exactly the first segment, in fetch order, and the RT rows follow in arrival order. A history row shows `content` (missing: "") and is the user's own iff `by` is the user; a live row is the user's own iff `by` or `from` is the user, and shows `content` when present and non-empty, `data` otherwise |
| `Conversation.RenderAppendLive` | src/components/Home.jsx:199-224 | one more backlog entry leaves every existing row in place and adds its row at the end iff it passes the test |
| `Conversation.EchoInConversation` | src/components/Home.jsx:105-109 | the local echo passes the filter of the conversation it was sent in, whatever its text |
| `Conversation.EchoRow` | src/components/Home.jsx:105-109 | a local echo with non-empty text renders as that text, flagged as the user's own |
| `Conversation.HistoryThenLiveExample` | src/components/Home.jsx:184-224 | alice/bob: a fetched "hi" from bob and a live "yo" from alice render as "hi" (not own) then "yo" (own) |
| `Conversation.UnrelatedPeerExample` | src/components/Home.jsx:199-210 | with bob selected, a carol-to-alice message is dropped and a bob-to-alice one kept |
| `HomeComponent.Home.constructor` | src/components/Home.jsx:7-12 | on mount every piece of state is empty, the socket exists iff a user is signed in, and the one roster request is pending |
| `HomeComponent.Home.Receive` | src/components/Home.jsx:63-70 | the message is appended at the end of the backlog whatever peer is selected; earlier entries are unchanged, the length grows by one, nothing else changes, and the transcript gains its row iff it passes the filter |
| `HomeComponent.Home.SetInput` | src/components/Home.jsx:234 | typing overwrites the input buffer and nothing else |
| `HomeComponent.Home.SendMessage` | src/components/Home.jsx:96-113 | something is emitted iff socket, non-blank trimmed input and selected peer; then the payload and the single appended echo are both {content: untrimmed msg, by: user, to: current}, the input becomes "" and the transcript gains exactly one own row; otherwise the backlog and the input are unchanged |
| `HomeComponent.Home.HandleKeyPress` | src/components/Home.jsx:147-151 | Enter has exactly the effect of `sendMessage`; any other key emits nothing and changes nothing |
| `HomeComponent.Home.SelectPeer` | src/components/Home.jsx:131-138 | `current` becomes the chosen name, the history request for (user, name) is issued and pending, and the backlog and history are untouched |
| `HomeComponent.Home.ClickUser` | src/components/Home.jsx:157-160 | clicking a roster button selects that entry's username |
| `HomeComponent.Home.HistoryArrived` | src/components/Home.jsx:136-143 | the response to a pending request replaces the history wholesale on success, with no check of the request's peer against the selected one; a failed one leaves it as it was |
| `HomeComponent.Home.RosterArrived` | src/components/Home.jsx:115-126 | the answer to the mount-time request replaces the user list wholesale on success and leaves it unchanged on failure |
| `HomeComponent.SwitchAwayAndBack` | src/components/Home.jsx:131-144 | switching p1 to p2 to p1 with one arrival in between shows p1's earlier filtered backlog followed by the arrival if it belongs |
| `HomeComponent.StaleHistoryApplied` | src/components/Home.jsx:131-144 | selecting p1 then p2, the answer to the request for p1 is shown while p2 is selected |
| `HomeComponent.FailedHistoryKeepsOld` | src/components/Home.jsx:136-143 | a peer switch whose history fetch fails keeps the previous history |
| `HomeComponent.EchoNotDeduplicated` | src/components/Home.jsx:96-113 | a send followed by the server relaying the same payload back shows the message twice |

The table's members are built on these definitions:

- `Conversation.InConversation` is the four-way sender/recipient test (src/components/Home.jsx:202-206).
- `Conversation.Outgoing` is the object that is both emitted and appended as the local echo (src/components/Home.jsx:98-102, 105-109).
- `Conversation.HistoryRow` and `Conversation.LiveRow` are the history and live row markup (src/components/Home.jsx:184-195, 211-222).
- `HomeComponent.SendAllowed` is the three-way send guard (src/components/Home.jsx:97).
- `HomeComponent.Home.Transcript` is the messages area in the current state (src/components/Home.jsx:182-224).
- `HomeComponent.Home.SendEffect` is the new state after one `sendMessage` call (src/components/Home.jsx:96-113).
- The ghost fields `pendingHistory` and `rosterPending` record which requests are in flight, so that a response event can only answer a request that was issued. The source keeps no such record and never compares a response with `current`.

## Left out

- Socket plumbing is not modelled. It is transport I/O in a library that is not part of this model. This covers the `io(...)` options and the 20000 ms timeout (Home.jsx:36-40), the `register-user` and `test-db` emits on connect (Home.jsx:43-51), the logging-only handlers (Home.jsx:54-61, 72-79) and the `off`/`disconnect` cleanup (Home.jsx:82-93). What remains of it is the constant `hasSocket`, which holds iff a user is signed in.
- A change of the signed-in user while the component stays mounted is not modelled; `user` is fixed per instance. In the source this runs the cleanup but never resets `socketRef.current` to null, so after a logout sends would still pass the socket guard.
- HomeComponent.Home.Receive: requires `hasSocket`, because the handler is registered only after the socket is created (Home.jsx:30, 63). Without a socket the event cannot occur.
- The axios calls are not modelled. Each response is an event carrying either `Fetched(data)` or `FetchFailed`. The error is only logged, and console logging is left out everywhere.
- JavaScript values are modelled as strings. A message field or a response body could be any JavaScript value; the model takes every message field to be a string or missing, a history response to be a list of messages and a roster entry to carry a string `username`. Rendered text is a string in which a missing value shows as "".
- Auto-scrolling (`scrollIntoView`, Home.jsx:20-27) is not modelled. It is a DOM side effect.
- Styling is not modelled, apart from the own-message flag it encodes and the DB/RT badge. This includes the highlighted roster button, the "Chat with" header and the conditional rendering of the input area (Home.jsx:230). The last one makes no difference to the model, because `sendMessage` checks `current` itself.
- React render scheduling, state batching and stale closures are not modelled. Each setter call is treated as one atomic update on a single thread.
- src/components/Login.jsx, src/components/SignUp.jsx and src/App.jsx are not part of this model. They hold form posts, navigation and route declarations. The user-context module is not part of this model either; `user` is a constructor input.
- JsString.IsTrimmable: its list of space separators is the one of current Unicode versions. Newer Unicode versions could change it.

# Raspberry Pi controller: session and relay model

This project models a remote-control system. An Android application relays touch-pad,
keyboard and button input over a WebSocket to a small Python server. The server replays
that input on the host's mouse and keyboard, but only for a session that has typed the
host's password and pressed ENTER.

It has five modules:

- `App` (`app.dfy`) models the client activity `MainActivity.kt`.
  - `State` holds the activity's three observable fields (socket handle, connection
    status, auth status). It also holds the state remembered by the touch-pad and the
    text field, and the outbox of every frame each socket was asked to send.
  - Every listener callback and UI handler is a transition on `State` (`OpenStep`,
    `DragStep`, `TextChangeStep`, ...). `Apply` and `Run` replay a history of events.
  - The class `App.MainActivity` keeps the same fields and updates them in place. Each
    of its methods is proved to make exactly the transition its function describes.
- `Host` (`host.dfy`) models the server's per-connection coroutine `handle_message`
  in `server/main.py`.
  - `HandleMessage` is one turn of the message loop, including the two ways a session
    ends (`Bad token`, `Bad request`).
  - `Run` is the whole loop over a connection's messages.
  - The class `Host.Server` holds the `connected_clients` registry. Its
    `HandleConnection` runs the loop imperatively and is proved against `Run`.
- `PyStr` (`pystr.dfy`) models the Python string built-ins the dispatch relies on:
  `str.split()`, `str.replace` and `s[:-1]`.
- `EndToEnd` (`endtoend.dfy`) feeds the text of the client's frames to the server's
  session and proves what the two programs do together. Its headline lemma is that
  typing the password into the text field and pressing ENTER logs a fresh session in,
  provided the frames reach the server in the order their sends were launched. The
  client does not guarantee that order, and `EndToEnd.SwappedKeysDoNotLogIn` shows a
  reordering that keeps the session out.
- `Wrappers` (`wrappers.dfy`) provides `Option`.

Notable behaviours of the code, all modelled as written:

- The reconnect button opens a new socket but never closes the old one.
- The old socket's listener keeps writing the shared connection and auth status
  (`App.StaleSocketStillDrivesStatus`).
- Only the drag handler checks for CONNECTED. Buttons and keys are sent whenever a
  handle exists.
- The status `CLICKED` is declared but never assigned.
- On the server, an `API_KEY` frame with the correct token authorizes nothing. Only
  ENTER with the password in the buffer does (`Host.AuthOnlyByPassword`).
- A two-word `API_KEY` with a wrong token ends the session. Any other word count is
  ignored.
- An authorized `DRAG` that is not exactly three words, or whose numbers `float()`
  rejects, ends the session with `Bad request`.

## Model

| member | source | states |
|---|---|---|
| App.Tag | app/app/src/main/java/fr/tonychouteau/raspberrypicontroller/MainActivity.kt:374-457 | each button sends its own literal, none of which starts like the prefix-dispatched `API_KEY`, `DRAG` or `KEYBOARD` frames |
| App.Wire | app/app/src/main/java/fr/tonychouteau/raspberrypicontroller/MainActivity.kt:113-328 | each frame text starts with its own command word; a keyboard frame carries its key verbatim after `KEYBOARD_INPUT `; a button frame is exactly its tag |
| App.DragPasses | app/app/src/main/java/fr/tonychouteau/raspberrypicontroller/MainActivity.kt:277-279 | a drag passes the gate only with a handle, while the status is CONNECTED (the one send the client gates on it), and at least 11 ms (strictly more than 10) after the last emitted DRAG frame |
| App.NewSocketStep | app/app/src/main/java/fr/tonychouteau/raspberrypicontroller/MainActivity.kt:66-94 | the handle names a newly created socket, one nothing was ever sent on or closed; no other field changes and the old socket is not closed |
| App.Launch | app/app/src/main/java/fr/tonychouteau/raspberrypicontroller/MainActivity.kt:50-64 | the activity starts DISCONNECTED with auth NONE, an empty field and outbox, and a handle on the one socket created so far (not yet opened) |
| App.SendOnHandle | app/app/src/main/java/fr/tonychouteau/raspberrypicontroller/MainActivity.kt:479-483 | a send through `webSocket?` appends the frame on the current socket, or does nothing when there is no handle |
| App.OpenStep | app/app/src/main/java/fr/tonychouteau/raspberrypicontroller/MainActivity.kt:109-114 | opening marks the client CONNECTED and sends `API_KEY <token>` on the socket that opened, whichever one it is |
| App.MessageStep | app/app/src/main/java/fr/tonychouteau/raspberrypicontroller/MainActivity.kt:116-122 | FORBIDDEN and AUTHORIZED set the auth status; every other text leaves the state unchanged |
| App.DisconnectStep | app/app/src/main/java/fr/tonychouteau/raspberrypicontroller/MainActivity.kt:124-137 | failure, closing and closed all set DISCONNECTED and change nothing else |
| App.ReconnectStep | app/app/src/main/java/fr/tonychouteau/raspberrypicontroller/MainActivity.kt:193-198 | reconnecting sets WAITING and NONE and installs the socket it has just created as the handle, different from the old one; nothing is sent and nothing is closed |
| App.DestroyStep | app/app/src/main/java/fr/tonychouteau/raspberrypicontroller/MainActivity.kt:96-99 | destruction closes the current socket with code 1000 "Activity Destroyed", if there is a handle |
| App.DragStep | app/app/src/main/java/fr/tonychouteau/raspberrypicontroller/MainActivity.kt:270-288 | the delta is always accumulated; a DRAG frame with this delta goes out, and the timestamp moves, exactly when a handle exists, the client is CONNECTED and more than 10 ms have passed |
| App.TextChangeStep | app/app/src/main/java/fr/tonychouteau/raspberrypicontroller/MainActivity.kt:315-330 | the field takes the new text; a shorter text sends the backspace code, a longer one its last character, an equal-length one nothing |
| App.ClickStep | app/app/src/main/java/fr/tonychouteau/raspberrypicontroller/MainActivity.kt:479-483 | a button sends its tag on the current handle without any connection check |
| App.Apply | app/app/src/main/java/fr/tonychouteau/raspberrypicontroller/MainActivity.kt:96-483 | any event only appends to the outbox and the close log; only destruction closes; at most one DRAG frame per event, carrying that event's delta; the timestamp moves only on an emitted frame |
| App.Run | app/app/src/main/java/fr/tonychouteau/raspberrypicontroller/MainActivity.kt:49-99 | over a whole history, sent frames and close requests are never withdrawn |
| App.RunAppend | app/app/src/main/java/fr/tonychouteau/raspberrypicontroller/MainActivity.kt:49-99 | replaying two histories one after the other equals replaying their concatenation |
| App.OnlyDestroyCloses | app/app/src/main/java/fr/tonychouteau/raspberrypicontroller/MainActivity.kt:96-99 | a history without destruction closes no socket; reconnecting never closes the old one |
| App.DragThrottle | app/app/src/main/java/fr/tonychouteau/raspberrypicontroller/MainActivity.kt:277-284 | each emitted DRAG frame moves the timestamp more than 10 ms on, so k frames between times t0 and T need 11·k ≤ T − t0 |
| App.DragFramesAreInputDeltas | app/app/src/main/java/fr/tonychouteau/raspberrypicontroller/MainActivity.kt:270-284 | the DRAG frames of any history carry a subsequence of the drag events' deltas, in order; a throttled delta is dropped, not merged into a later frame |
| App.StaleSocketStillDrivesStatus | app/app/src/main/java/fr/tonychouteau/raspberrypicontroller/MainActivity.kt:66-94 | after a reconnect the old socket is not closed; its opening still marks the client CONNECTED and sends the credential on the old socket; its AUTHORIZED or FORBIDDEN reply still sets the auth status; its close signal still marks it DISCONNECTED while the new handle stays |
| App.MainActivity.constructor | app/app/src/main/java/fr/tonychouteau/raspberrypicontroller/MainActivity.kt:54-64 | the new activity's fields are exactly `Launch(token)` |
| App.MainActivity.InitializeWebSocket | app/app/src/main/java/fr/tonychouteau/raspberrypicontroller/MainActivity.kt:66-94 | the fields updated in place are `NewSocketStep` of the old ones |
| App.MainActivity.Send | app/app/src/main/java/fr/tonychouteau/raspberrypicontroller/MainActivity.kt:481 | the fields updated in place are `SendOnHandle` of the old ones |
| App.MainActivity.OnOpen | app/app/src/main/java/fr/tonychouteau/raspberrypicontroller/MainActivity.kt:109-114 | the fields updated in place are `OpenStep` of the old ones |
| App.MainActivity.OnMessage | app/app/src/main/java/fr/tonychouteau/raspberrypicontroller/MainActivity.kt:116-122 | the fields updated in place are `MessageStep` of the old ones |
| App.MainActivity.OnFailure | app/app/src/main/java/fr/tonychouteau/raspberrypicontroller/MainActivity.kt:124-127 | the fields updated in place are `DisconnectStep` of the old ones |
| App.MainActivity.OnClosing | app/app/src/main/java/fr/tonychouteau/raspberrypicontroller/MainActivity.kt:129-132 | the fields updated in place are `DisconnectStep` of the old ones |
| App.MainActivity.OnClosed | app/app/src/main/java/fr/tonychouteau/raspberrypicontroller/MainActivity.kt:134-137 | the fields updated in place are `DisconnectStep` of the old ones |
| App.MainActivity.OnReconnectClick | app/app/src/main/java/fr/tonychouteau/raspberrypicontroller/MainActivity.kt:193-198 | the fields updated in place are `ReconnectStep` of the old ones |
| App.MainActivity.OnDestroy | app/app/src/main/java/fr/tonychouteau/raspberrypicontroller/MainActivity.kt:96-99 | the fields updated in place are `DestroyStep` of the old ones |
| App.MainActivity.OnDrag | app/app/src/main/java/fr/tonychouteau/raspberrypicontroller/MainActivity.kt:270-288 | the fields updated in place are `DragStep` of the old ones |
| App.MainActivity.OnValueChange | app/app/src/main/java/fr/tonychouteau/raspberrypicontroller/MainActivity.kt:315-330 | the fields updated in place are `TextChangeStep` of the old ones |
| App.MainActivity.SendMouseEvent | app/app/src/main/java/fr/tonychouteau/raspberrypicontroller/MainActivity.kt:479-483 | the fields updated in place are `ClickStep` of the old ones |
| PyStr.IsSpace | server/main.py:53 | the separators of `str.split()` never include letters, digits, `_`, `.`, `-` or `+`, so command words and printed numbers are never cut |
| PyStr.WordLength | server/main.py:53 | the length of the longest separator-free prefix |
| PyStr.Split | server/main.py:53 | `str.split()` returns only non-empty words without separators |
| PyStr.SplitJoinBlank | server/main.py:53 | any list of words joined by single blanks splits back into exactly that list |
| PyStr.SplitTwoWords | server/main.py:53-55 | two words joined by a blank split back into exactly those two words |
| PyStr.SplitThreeWords | server/main.py:64 | three words joined by blanks split back into exactly those three words |
| PyStr.ReplaceAll | server/main.py:121 | `str.replace` with an empty replacement never lengthens the string |
| PyStr.ReplaceAllNoMatch | server/main.py:121 | `str.replace` leaves a string without the pattern unchanged |
| PyStr.ReplaceAllLeading | server/main.py:121 | removing the pattern from pattern + s, where s holds no occurrence, gives back s |
| PyStr.DropLast | server/main.py:69 | `s[:-1]` drops exactly the last character, and the empty string stays empty |
| Host.Click | server/main.py:92-117 | a click presses then releases its button exactly when authorized, and is answered FORBIDDEN exactly otherwise |
| Host.HandleMessage | server/main.py:47-147 | once granted, auth is never withdrawn; an unauthorized session drives no host action; auth is granted only by ENTER while the buffer holds the password |
| Host.GatedNeedsAuth | server/main.py:58-131 | every dispatched command except API_KEY, sent by an unauthorized session, is answered FORBIDDEN; the one exception is ENTER with the password |
| Host.BackEditsFirst | server/main.py:68-76 | BACK drops the buffer's last character whether the session is authorized or not |
| Host.UnrecognisedIgnored | server/main.py:47-136 | a message no branch recognises changes nothing, gets no reply and does not end the session |
| Host.TerminatesExactly | server/main.py:52-66 | a session ends exactly on a two-word API_KEY with a wrong token, or on an authorized DRAG that is not three words or whose numbers are not floats |
| Host.TerminationReply | server/main.py:138-147 | an ending session is left unchanged, drives no host action, and is sent `Bad token` for API_KEY and `Bad request` otherwise |
| Host.AuthorizedExactly | server/main.py:78-85 | AUTHORIZED is sent exactly on ENTER while the buffer holds the password; it empties the buffer and grants auth |
| Host.ForbiddenOnlyUnauthorized | server/main.py:58-131 | FORBIDDEN is sent only to an unauthorized session, and never together with a host action |
| Host.ApiKeyChangesNothing | server/main.py:52-57 | an API_KEY frame never changes the session and drives no host action |
| Host.EnterWithPassword | server/main.py:78-85 | ENTER with the password in the buffer yields an authorized session with an empty buffer and the reply AUTHORIZED |
| Host.KeyboardInputEdits | server/main.py:119-136 | `KEYBOARD_INPUT <key>` edits the buffer whatever the auth: the backspace code deletes, any other key that does not contain `KEYBOARD_INPUT ` (every key the client sends) is appended; only an authorized session presses or writes it |
| Host.KeyFrame | server/main.py:119-136 | the same edit, for the same keys, as a one-message run that does not end the session |
| Host.Run | server/main.py:47-147 | the `async for` loop, stopping at the first message that ends the session, sends at most one reply per message read; the lemmas below state the rest of what a whole connection does |
| Host.RunAppend | server/main.py:47 | feeding two message sequences in turn equals feeding their concatenation, as long as the first did not end the session |
| Host.AuthMonotone | server/main.py:78-85 | an authorized session stays authorized for the rest of the connection |
| Host.NoActionWithoutAuth | server/main.py:58-136 | a connection that never became authorized drove no host action |
| Host.PasswordEnterIndex | server/main.py:78-85 | a session that became authorized received, at some index, an ENTER while its buffer held the password |
| Host.AuthOnlyByPassword | server/main.py:78-85 | a session that starts unauthorized and ends authorized went through an ENTER while its buffer held exactly the password |
| Host.AuthIsAnnounced | server/main.py:83 | a session that became authorized was sent AUTHORIZED |
| Host.PasswordThenEnter | server/main.py:78-85 | ENTER after messages that left the password in the buffer adds exactly the reply AUTHORIZED and grants auth |
| Host.RunStopsAtTermination | server/main.py:141-147 | messages after the one that ended the session are never read |
| Host.TerminationIsAnnounced | server/main.py:138-147 | the last reply of a session that ended is `Bad token` or `Bad request` |
| Host.Server.constructor | server/main.py:29-30 | the registry starts empty |
| Host.Server.HandleConnection | server/main.py:34-151 | the loop's replies and host actions are those of `Run` from a fresh session; afterwards the client is no longer registered and every other registration is unchanged |
| EndToEnd.BackspaceCodesAgree | server/main.py:122 | the client's backspace key equals the server's backspace code |
| EndToEnd.ApiKeyFrame | server/main.py:52-57 | the client's credential frame, for a token without blanks, changes nothing when the token is right and ends the session with `Bad token` when it is wrong |
| EndToEnd.DragFrame | server/main.py:58-66 | a client DRAG frame whose numbers are blank-free floats moves the host pointer by those numbers once authorized, and is answered FORBIDDEN before |
| EndToEnd.ButtonFrame | server/main.py:68-117 | each button frame reaches its own branch: FORBIDDEN before auth, its key press or click after, and ENTER with the password authorizes |
| EndToEnd.KeySentMirrored | server/main.py:119-131 | the one KEYBOARD_INPUT frame of a text edit makes the same edit in the server's buffer |
| EndToEnd.TypingEditMirrored | app/app/src/main/java/fr/tonychouteau/raspberrypicontroller/MainActivity.kt:315-330 | one typing edit in the field leaves the server's buffer equal to the field's new text |
| EndToEnd.TypingMirrorsEntry | app/app/src/main/java/fr/tonychouteau/raspberrypicontroller/MainActivity.kt:315-330 | after any run of typing edits, the server's buffer equals the field's final text; the session neither ends nor gains auth; there is no host action unless already authorized |
| EndToEnd.PasswordTyped | app/app/src/main/java/fr/tonychouteau/raspberrypicontroller/MainActivity.kt:315-330 | typing the password into the empty field leaves exactly the password in a fresh session's buffer, with no host action |
| EndToEnd.EnterAfterPassword | server/main.py:78-85 | the ENTER button, once the server's buffer holds the password, yields AUTHORIZED, which turns the client's status to AUTHORIZED |
| EndToEnd.SwappedKeysDoNotLogIn | server/main.py:78-131 | with the password `ab`, the client's frames `KEYBOARD_INPUT b`, `KEYBOARD_INPUT a`, `ENTER` (the two keys swapped) leave `ba` in the buffer and are each answered FORBIDDEN, so the login depends on the frames arriving in launch order |
| EndToEnd.PasswordLogin | server/main.py:78-85 | typing the password into the empty field and pressing ENTER authorizes a fresh session with no host action, and the client ends in auth status AUTHORIZED |

## Left out

- Host.Action `Move`: the pointer arithmetic `mouse.position + float(x)` is floating point and is left abstract. `Move` records the two number texts.
- Host.Config `isFloat`: which strings Python's `float()` accepts is a parameter, not a model of Python's float grammar.
- App.Delta: `dragAmount` floats and Kotlin's rendering of them as text are strings; the `dragX` / `dragY` sums are kept as the list of deltas, which the source never reads.
- Parsing errors other than DRAG are left out: exceptions from pynput or pyautogui, an unsuitable key for `write`, and non-text frames. The session's `Bad request` exit is modelled only for DRAG.
- `websockets.ConnectionClosed` is the end of the message sequence; the disconnect print is left out.
- Reading keys.txt, TLS, the server address and `main()`'s serving loop are left out; the password and token are the `Config` parameters.
- Concurrency is left out. Several clients' coroutines interleaving on the shared `connected_clients` and on the mouse are not modelled; `HandleConnection` runs one connection alone.
- App: every `CoroutineScope(Dispatchers.IO).launch` send is recorded in launch order; the order on the wire is not modelled.
- EndToEnd.TypingMirrorsEntry, EndToEnd.PasswordTyped, EndToEnd.EnterAfterPassword, EndToEnd.PasswordLogin: these assume the server reads the frames in the order their sends were launched. Each send runs in its own `Dispatchers.IO` coroutine (MainActivity.kt lines 320-329 and 480-482), so the code does not guarantee that order; `EndToEnd.SwappedKeysDoNotLogIn` shows that a reordering can keep the session out.
- App.DragStep: `webSocket.value?` is read when the coroutine runs, but the model reads it when the handler runs.
- App.ClickStep: `ButtonRow` closes over the `webSocket.value` of its last composition; the model uses the current handle.
- App.TextChangeStep: `inputText` is treated as persisting across events, as `remember` intends. Recomposition, `setContent` calls, toasts, printing and focus handling are left out.
- App.DragStep: `dragX`, `dragY` and `lastDragTimestamp` are `remember` state too, and are treated as persisting across events; the status callbacks' `setContent` calls, which rebuild the composition, are left out.
- App.TextChangeStep: its two sends go through the `webSocket` parameter `ButtonRow` captured at its last composition; the model uses the current handle, as for `App.ClickStep`.
- OkHttp's real socket lifecycle is not modelled; which callbacks arrive, and when, is left to the event history.
- Kotlin strings are UTF-16 and `newText[newText.length - 1]` may be half of a surrogate pair; here characters are Dafny `char`s.
- `System.currentTimeMillis()` values are unbounded integers; a `Long` overflow of the timestamp difference is not modelled.
- The client's UI layout, theme and the `Clicked` status's use are not modelled (nothing assigns it).

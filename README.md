# Repeater plugin model

A Dafny model of the "Repeater" chat plugin of a WeChat bot framework
(`plugins/Repeater/main.py`). The plugin watches group and private chats. When
enough copies of the same text or sticker come in from enough distinct users,
and the bot is not one of them, it echoes that content once. If one of those
messages is later revoked, it revokes its own echo. For each chat it keeps a
`ChatSession` with three parts:

- a bounded FIFO window of recent message records;
- the set of contents it has already echoed;
- the identifiers needed to revoke each echo.

The model has two layers:

- **Values** (`records.dfy`, `window.dfy`, `session_spec.dfy`, `store_spec.dfy`,
  `store_properties.dfy`): a session is a `SessionState` value. The plugin's
  sessions are a `Store` (a map from chat id to session). Each operation is a
  function. The function `Step` gives the store and the send after one inbound
  message. The function `RevokeFor` gives the revoke issued for one revoke event.
  The lemmas in `StoreProperties` are stated about these functions.
- **Objects** (`chat_session.dfy`, `repeater.dfy`): `ChatSession` and `Repeater`
  are classes whose fields change in place, as in the source. Each method's
  contract ties its new state and results to the value layer:
  - `ChatSession.State()` is the session as a value.
  - `Repeater.Store()` is the map of session values.
  - `HandleMessageCommon` ensures that the new `Store()` and the send are
    `Step` of the old store.
  - `HandleRevoke` ensures that the revoke is `RevokeFor` of the store.

How the transport is modelled:

- The send is not performed. Its result is an input `outcome`: `Some(info)` when
  the send returned its message ids, `None` when it raised.
- The send and the revoke the plugin would issue are returned as values
  (`Outbound`, `RevokeRequest`).
- The current time is an integer parameter `now`.
- Integer settings (`max_history`, the thresholds, `cache_timeout`) are
  unbounded `int`s, as in Python. A `max_history` below zero acts as zero
  (`Window.Cap`), because `len(messages) > max_history` then always holds.

Two consequences of the code's order of operations:

- **Marking only on success.** `mark_as_repeated` runs only after the awaited
  send has returned (`plugins/Repeater/main.py:204-219`). The `finally` branch
  only logs. So a failed send leaves the content unmarked, and a later copy can
  trigger another echo.
- **Revoke info for every echoed content.** Every content in
  `repeated_contents` of a session has revoke info. `StoreSpec.SessionOk`, part
  of the proved store invariant, states this.

## Model

| member | source | states |
|---|---|---|
| Window.AppendAll | plugins/Repeater/main.py:23-32 | defines the window after one `add_message` per record, in order; its meaning is proved in AppendAllKeepsLatest |
| Window.RepeatCount | plugins/Repeater/main.py:41-46 | defines the counter of `should_repeat`: the number of window records with the content; RepeatCountIsMultiplicity gives its meaning |
| Window.SendersOf | plugins/Repeater/main.py:42-47 | defines the sender set of `should_repeat`: senders of the window records with the content; SendersOfMeans gives its meaning |
| Window.Appended | plugins/Repeater/main.py:23-32 | the new record is last once `max_history` >= 1; a window within its bound stays within it |
| Window.AppendAllKeepsLatest | plugins/Repeater/main.py:23-32 | after any number of `add_message` calls, the window holds exactly the latest `Cap(max_history)` records of everything added, in arrival order |
| Window.WindowAfterMany | plugins/Repeater/main.py:26-30 | after N > max_history additions to an empty window, exactly the last max_history records are left and the earliest N - max_history are gone |
| Window.RepeatCountIsMultiplicity | plugins/Repeater/main.py:44-46 | the counter of `should_repeat` is the multiplicity of the content among the window's contents |
| Window.SendersOfMeans | plugins/Repeater/main.py:44-47 | a user is in the sender set of a content exactly when some window record with that content is theirs |
| Window.SendersAtMostCount | plugins/Repeater/main.py:41-47 | the number of distinct senders of a content never exceeds the number of its records |
| Window.LatestWithId | plugins/Repeater/main.py:64-69 | None exactly when no record has the id; otherwise a record with the id that no later record's id matches |
| Window.MaxTimestamp | plugins/Repeater/main.py:130 | the newest timestamp of a non-empty window bounds every record's timestamp and is one of them |
| SessionSpec.EmptySession | plugins/Repeater/main.py:17-21 | defines a new session: empty window, the given `max_history`, no echoed contents, no revoke info |
| SessionSpec.WithMessage | plugins/Repeater/main.py:23-32 | defines the session after `add_message`: only the window changes, to `Appended`; WithMessageValid states what it keeps |
| SessionSpec.Marked | plugins/Repeater/main.py:54-58 | defines the session after `mark_as_repeated`: the content joins the echoed set and the info is stored only when present; MarkedSuppresses states its effect |
| SessionSpec.Triggers | plugins/Repeater/main.py:34-52 | defines the decision of `should_repeat`: not echoed, count >= `min_repeat_count`, distinct senders >= `min_users`, bot not a sender; the SessionSpec lemmas state its consequences |
| SessionSpec.WithMessageValid | plugins/Repeater/main.py:23-32 | adding a record keeps the session invariant and leaves the echo state unchanged |
| SessionSpec.MarkedSuppresses | plugins/Repeater/main.py:37-38 | after `mark_as_repeated(c)`, c is in the echoed set, nothing was removed from it, and the echo decision for c is false whatever the window holds |
| SessionSpec.OneSenderNeverTriggers | plugins/Repeater/main.py:40-52 | when every record of a content has one sender, a `min_users` of 2 or more is never met |
| SessionSpec.BotSenderNeverTriggers | plugins/Repeater/main.py:50-52 | a content the bot sent within the window is never echoed |
| SessionSpec.ThresholdsNecessary | plugins/Repeater/main.py:40-52 | an echo needs at least `min_repeat_count` copies, and also at least `min_users` copies since senders never outnumber records |
| StoreSpec.Expired | plugins/Repeater/main.py:125-132 | defines the sweep condition: an empty window, or a newest timestamp more than `cache_timeout` before `now`; SweepBoundary states the boundary |
| StoreSpec.RecordOf | plugins/Repeater/main.py:177-183 | defines the record built for an inbound event: its content, sender, `now`, its transport id and its sticker flag |
| StoreSpec.OutboundFor | plugins/Repeater/main.py:201-214 | defines the echo: the same sticker (md5 and length) for a sticker, the content as text otherwise, to the chat it came from |
| StoreSpec.Opened | plugins/Repeater/main.py:170-174 | defines the store after the sweep and get-or-create, in that order; StepForgetsExpired states the effect of the order |
| StoreSpec.Received | plugins/Repeater/main.py:176-186 | defines the chat's session once the event's record is added |
| StoreSpec.Settled | plugins/Repeater/main.py:195-223 | defines the chat's session after the echo decision: marked with the send's info only when an echo was sent and the send returned |
| StoreSpec.Step | plugins/Repeater/main.py:157-225 | defines one inbound message as a function of the store: gate, sweep, get-or-create, append, decision, send, mark; the Step lemmas of StoreProperties state its properties |
| StoreSpec.RevokeFor | plugins/Repeater/main.py:258-300 | a revoke is issued only when enabled, the id and chat are present and the chat has a session; it goes to that chat and carries revoke info stored in its session |
| StoreSpec.ShouldProcessMessage | plugins/Repeater/main.py:144-155 | a message is processed exactly when the plugin is enabled and enabled for the message's chat kind |
| StoreSpec.Swept | plugins/Repeater/main.py:119-135 | the sweep keeps exactly the sessions that are not expired, unchanged, and removes every expired one |
| StoreSpec.WithSession | plugins/Repeater/main.py:138-142 | after get-or-create the key is present; every existing session is kept; a new key gets an empty session; no other key appears |
| StoreProperties.SweepBoundary | plugins/Repeater/main.py:129-132 | a session survives the sweep exactly when `now - newest <= cache_timeout`, so a gap equal to the timeout survives |
| StoreProperties.SweptValid | plugins/Repeater/main.py:119-135 | the sweep keeps the store invariant |
| StoreProperties.WithSessionValid | plugins/Repeater/main.py:138-142 | get-or-create keeps the store invariant |
| StoreProperties.WithSessionIdempotent | plugins/Repeater/main.py:138-142 | get-or-create twice equals once; it is the identity on a present key; the key set grows by exactly the key |
| StoreProperties.StepGatedOff | plugins/Repeater/main.py:161-162 | a message the gate turns away changes no session and sends nothing |
| StoreProperties.StepAppendsOne | plugins/Repeater/main.py:171-186 | a processed message appends exactly one record, built from the event and `now`, to its chat's window; every other chat is kept as it was, or swept if expired |
| StoreProperties.StepEcho | plugins/Repeater/main.py:188-223 | a send happens exactly when the content was not echoed and count, distinct-sender and bot conditions hold; it repeats the sticker or the text; the content and the send's revoke info are recorded only when that send succeeded |
| StoreProperties.StepKeepsEchoed | plugins/Repeater/main.py:54-58 | the echoed set of a chat that survives the sweep never shrinks |
| StoreProperties.StepForgetsExpired | plugins/Repeater/main.py:171-174 | the sweep runs before the lookup: a chat whose session had expired restarts with only the new record and loses its echo history |
| StoreProperties.StepPreservesValid | plugins/Repeater/main.py:157-225 | one inbound message keeps the store invariant: bound, configured size, and revoke info for exactly the echoed contents |
| StoreProperties.RevokeForLatest | plugins/Repeater/main.py:276-291 | for a processable revoke, the revoke issued is the stored info of the latest record with the id, or none when its content is empty or has none |
| StoreProperties.RevokeForNoop | plugins/Repeater/main.py:261-280 | no revoke when disabled, the id or chat is missing, the chat has no session, or the id is not in the window |
| StoreProperties.EchoThenRevoke | plugins/Repeater/main.py:195-219 | revoking the message that triggered a successful echo revokes that echo, with the ids its send returned |
| StoreProperties.ExampleFirst | plugins/Repeater/main.py:157-225 | the first "hi" in a group is recorded and not echoed |
| StoreProperties.ExampleSecond | plugins/Repeater/main.py:157-225 | a second "hi" from another user is echoed as text and marked with the send's ids |
| StoreProperties.ExampleThird | plugins/Repeater/main.py:188-192 | a third "hi" is recorded and skipped as already echoed |
| StoreProperties.ExampleRun | plugins/Repeater/main.py:157-300 | the three-message run sends exactly one echo, and revoking the second message revokes it |
| ChatSessions.ChatSession.constructor | plugins/Repeater/main.py:17-21 | a new session is empty and valid |
| ChatSessions.ChatSession.AddMessage | plugins/Repeater/main.py:23-32 | the window becomes `Appended` of the old one; the echo state is unchanged; the record is returned |
| ChatSessions.ChatSession.ShouldRepeat | plugins/Repeater/main.py:34-52 | the counting loop's answer is exactly `Triggers` of the session: not echoed, the count and distinct-sender thresholds met, and the bot not a sender |
| ChatSessions.ChatSession.MarkAsRepeated | plugins/Repeater/main.py:54-58 | the content joins the echoed set; the revoke info is stored only when given; the window is unchanged |
| ChatSessions.ChatSession.IsContentRepeated | plugins/Repeater/main.py:60-62 | true exactly when the content is in the echoed set |
| ChatSessions.ChatSession.FindMessageByNewMsgId | plugins/Repeater/main.py:64-69 | the backward scan returns the latest record with the id, and None exactly when no record has it |
| ChatSessions.ChatSession.GetRepeatedMsgInfo | plugins/Repeater/main.py:71-73 | the stored revoke info of the content when there is one, None otherwise |
| RepeaterPlugin.Repeater.constructor | plugins/Repeater/main.py:81-108 | the plugin starts with the given settings and no sessions |
| RepeaterPlugin.Repeater.ExpiredWxids | plugins/Repeater/main.py:121-132 | the collected chats are exactly those whose session is expired |
| RepeaterPlugin.Repeater.DeleteSessions | plugins/Repeater/main.py:134-135 | given chats that all have a session, exactly those are deleted; every other session object stays |
| RepeaterPlugin.Repeater.CleanExpiredSessions | plugins/Repeater/main.py:119-135 | the new store is `Swept` of the old one and the invariant is kept; the surviving session objects are the old ones |
| RepeaterPlugin.Repeater.GetOrCreateSession | plugins/Repeater/main.py:138-142 | the new store is `WithSession` of the old one; the map is unchanged for a present key and gains exactly one fresh session otherwise; the session returned is the chat's |
| RepeaterPlugin.Repeater.RecordAndRepeat | plugins/Repeater/main.py:176-223 | only the chat's session changes, and it becomes its settled state; the send is the echo exactly when the decision holds |
| RepeaterPlugin.Repeater.HandleMessageCommon | plugins/Repeater/main.py:157-225 | returns true; the new store and the send are `Step` of the old store; the invariant is kept |
| RepeaterPlugin.Repeater.HandleRevoke | plugins/Repeater/main.py:258-300 | returns true, changes nothing, and issues exactly `RevokeFor` of the store |

## Left out

- Configuration loading from `config.toml` and the fallback that disables the plugin on a read error (`plugins/Repeater/main.py:86-114`): this is file I/O. The settings are a `Config` value given to the constructor.
- The transport's `send_text_message`, `send_emoji_message` and `revoke_message` calls and their result shapes (`plugins/Repeater/main.py:204, 214, 286-291`): these are network calls. A send's result is the `outcome` parameter; an emoji result that cannot be indexed counts as a raised send. The revoke's result is only logged, so it is not modelled.
- Reading the clock (`time.time()`, lines 167 and 203): time is an integer parameter `now`, not a float. The sticker's `create_time` is part of the send's `outcome`.
- Logging, and `async`/`await`: each event is handled as one sequential call.
- The handlers `handle_text`, `handle_quote`, `handle_at` and `handle_emoji` (`plugins/Repeater/main.py:227-256`): they only build the content key, `Content.strip()` or `"emoji:" + md5`. The model takes the key as an opaque string in `Inbound`.
- Missing fields of the incoming message dict: an absent `NewMsgId` is 0 and an absent `FromWxid` is "", as the source's defaults give them. Fields of other types are not modelled.
- The order in which `_clean_expired_sessions` visits the chats: it has no effect on the result, and `ExpiredWxids` picks the chats in any order.
- The `VoiceGen` plugin (`plugins/VoiceGen/main.py`) is not part of this model: it drives an external speech process and the network.

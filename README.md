# Chat server session and routing core, in Dafny

This project models the real-time core of a chat application.

On the server:

- the socket handlers keep per-socket connection records in two JavaScript Maps: `connectedUsers` (socket id to record) and `usersByUserId` (user id to socket id);
- they route channel messages, direct messages, deletions, typing indicators and status changes through socket rooms;
- the older handler set wired in `server/src/app.js` does the same with a smaller record;
- the REST routes of `server/src/routes/user.js` list, create and delete channels and serve a channel's history.

On the client, the hooks and formatters turn incoming events into lists and sets the UI shows.

## How the model is built

**Server state.** The state a handler can see is the datatype `Session.Server`. It holds:

- the two Maps, with their insertion order;
- the socket rooms;
- the store, as tables in creation order;
- the log of emitted events, each a target, an event name and a payload.

**Server handlers.** Every handler has two parts:

- A pure function from the old state to a `Result`: the new state and how the call ended (completed, returned a value, or raised an error).
- A method on the class `Session.ChatServer` (or `App.AppServer` for `app.js`). It updates the fields in place and promises that its new state is that function of its old state.

The lemmas beside each handler state what the handler guarantees:

- the registry invariant `Session.Consistent`;
- which events go to whom;
- what is stored;
- what stays unchanged;
- the error paths.

**Client hooks.** Each hook is a datatype for its state, with pure updater functions mirroring React's state setters. A class holds the same state as fields, and its methods apply the updaters. The lemmas are about the updaters.

**Inputs from outside.** Clocks, generated ids, HTTP responses and collaborator failures are parameters.

**Strings.** Strings are `seq<char>`. Trimming and case mapping are over ASCII.

## Where the code is followed

In each of these places the code's behaviour is modelled, even where the code's own comments or documentation say otherwise.

- `sendDirectMessage.js` trims the text before it checks the receiver. A payload without text is therefore a `TypeError` caught by the handler.
- `sendMessage.js` trims the text before it checks the channel.
- `app.js` stores the connection record before it looks up the channel.
- `statusUpdate.js` writes the lower-cased input into the record before validating it. Lookups in its status table go through the object's prototype, so inherited keys such as `constructor` pass the check and reach the store.
- `disconnect.js` deletes `usersByUserId[user.userId]` without checking that it still points at the departing socket.
- The join histories of `userJoin.js` and `joinChannel.js` are the oldest 50 messages (ascending order with `take: 50`), although a comment calls them the last 50.
- The direct-message history does not filter deleted messages.
- The direct-message delete has no already-deleted check.
- In the `app.js` variant:
  - no `force_disconnect` is sent;
  - `io.to(channel)` includes the sender;
  - a socket that joins again under another user id appears twice in the users list, because the first user id still points at it.
- The registry invariant is therefore one-directional. Every connected record's user id maps back to its socket, but a user id may still map to a socket whose record now carries another user id.

## Model

| member | source | states |
|---|---|---|
| Session.OneSocketPerUser | server/src/socket-handlers/userJoin.js:17-34 | under the registry invariant no two connected sockets carry the same user id |
| Session.UpdateRecordPreservesConsistent | server/src/socket-handlers/joinChannel.js:78-79 | assigning fields of a record in place, keeping its socket id and user id, keeps the invariant |
| Session.UniqueUsersAreConnected | server/src/socket-handlers/userJoin.js:137 | under the invariant the users list holds every connected record and nothing else |
| Session.FirstSocketOf | server/src/socket-handlers/sendMessage.js:128-129 | the first socket in insertion order whose record has the user id, and nothing iff no record has it |
| Session.FormatHistory | server/src/socket-handlers/userJoin.js:107-124 | one formatted entry per stored message, in the same order |
| Session.Initial | server/src/app.js:43-44 | the empty registry satisfies the invariant and lists no users |
| SocketUtils.ValidateUserData | server/src/socket-handlers/socketUtils.js:6-39 | valid iff no error; a missing object gives exactly the one error "User data is required"; a present object gets the field checks |
| SocketUtils.CheckUserFields | server/src/socket-handlers/socketUtils.js:14-38 | each of the five errors appears iff its own condition holds (missing user id, blank username, blank channel, username over 50, channel over 100), so several can appear together; valid iff none does |
| SocketUtils.UserErrors | server/src/socket-handlers/socketUtils.js:14-33 | the error list contains each message exactly when its check failed, in source order, at most five |
| SocketUtils.PushIf | server/src/socket-handlers/socketUtils.js:14-16 | a conditional push adds exactly the one error when its condition holds and keeps the earlier ones |
| SocketUtils.ValidateMessageData | server/src/socket-handlers/socketUtils.js:46-67 | a missing object gives only "Message data is required"; otherwise the blank-text error appears iff the text is missing or all whitespace and the length error iff it is over 2000 characters before trimming |
| SocketUtils.MessageLengthBoundary | server/src/socket-handlers/socketUtils.js:54-61 | whitespace-only text is rejected, a 2000-character non-blank text is accepted and a 2001-character text is rejected |
| SocketUtils.ValidateChannelData | server/src/socket-handlers/socketUtils.js:74-94 | a missing object gives only "Channel data is required"; otherwise the blank-name error iff the channel is missing or blank and the length error iff it is over 100 characters |
| SocketUtils.ValidateSocketConnection | server/src/socket-handlers/socketUtils.js:204-215 | valid iff the socket has an id that is registered, returning that socket's record; "Invalid socket connection" without an id, "User not found in connected users" when unregistered |
| SocketUtils.FormatMessage | server/src/socket-handlers/socketUtils.js:145-157 | the channel falls back to the sender's current channel and the type to 'text' when missing or empty; text, username and user id are copied; never edited |
| SocketUtils.ErrorMessage | server/src/socket-handlers/socketUtils.js:104 | the message of an error object if it has one, the string itself if non-empty, and "An unexpected error occurred" otherwise |
| SocketUtils.EmitError | server/src/socket-handlers/socketUtils.js:103-114 | exactly one `error` event to the failing socket, typed with the event name; nothing else changes |
| SocketUtils.TypingTimeoutSpec | server/src/socket-handlers/socketUtils.js:177-196 | the timer acts on the `user` object its closure captured: the state changes iff that object is still typing in the channel, and then the room hears one stop naming that object and its flags are cleared; a detached object (replaced or deleted record) leaves the stored records alone; rooms, store and user map are untouched, and a second firing changes nothing |
| SocketUtils.ReplacedRecordStillStops | server/src/socket-handlers/socketUtils.js:177-196 | when the socket's record was replaced by one that is not typing while the captured object still is, the room still hears the timeout stop for the captured object and the new record is unchanged |
| SocketUtils.FireTypingTimeout | server/src/socket-handlers/socketUtils.js:178-195 | the timer body run on the server object, with the captured object passed in and handed back, has exactly the effect of the timer function |
| UserJoin.Evict | server/src/socket-handlers/userJoin.js:17-34 | dropping an older socket of the same user leaves the store unchanged, only extends the log, removes no room except the old socket's and keeps this socket's rooms (what it removes is stated by EvictsOldSession) |
| UserJoin.Fail | server/src/socket-handlers/userJoin.js:161-180 | the catch block always ends by rethrowing the caught error, leaves this socket without a record, adds no record, and changes neither rooms nor store |
| UserJoin.SendHistory | server/src/socket-handlers/userJoin.js:85-134 | the history step only appends to the log, and a history failure is swallowed |
| UserJoin.Announce | server/src/socket-handlers/userJoin.js:137-160 | the announcements only append to the log; registry, rooms and store stay as they are |
| UserJoin.HandleUserJoin | server/src/socket-handlers/userJoin.js:8-181 | the handler run on the server object ends in exactly the state and outcome of the functional model of the whole handler |
| UserJoin.AnnounceJoin | server/src/socket-handlers/userJoin.js:137-160 | the in-place announcements have exactly the effect of Announce |
| UserJoin.EvictOldSocket | server/src/socket-handlers/userJoin.js:17-34 | the in-place eviction has exactly the effect of Evict |
| UserJoin.AdmitOn | server/src/socket-handlers/userJoin.js:55-82 | the in-place registration has exactly the effect of Admit: the stored row, the record in both Maps and the joined room |
| UserJoin.RollBack | server/src/socket-handlers/userJoin.js:161-180 | the in-place catch block has exactly the effect of Fail and rethrows |
| UserJoin.RegisterFrame | server/src/socket-handlers/userJoin.js:36-160 | after the eviction no other socket gains a record or rooms, and the log is only extended |
| UserJoin.EvictsOldSession | server/src/socket-handlers/userJoin.js:17-34 | an older socket of the same user loses its record and rooms on every path, is sent `force_disconnect` with reason 'new_session' when still live, and on success the user id maps to the new socket |
| UserJoin.UnknownChannelFails | server/src/socket-handlers/userJoin.js:37-50 | an unknown channel raises "Channel with ID … does not exist", sends `join_error` last, leaves this socket unregistered and changes no row |
| UserJoin.FailKeepsForeignOwner | server/src/socket-handlers/userJoin.js:164-170 | the cleanup removes this socket's record, and removes the user-id entry only when it still points at this socket |
| UserJoin.JoinSuccess | server/src/socket-handlers/userJoin.js:55-82 | a join to an existing channel by an existing user completes, stores the record with status ONLINE and the requested channel, maps the user id to this socket, joins the room and stores the user as ONLINE |
| UserJoin.HistoryIsOptional | server/src/socket-handlers/userJoin.js:85-134 | a failing history query still completes the join with the same registry and rooms; otherwise the history is sent to the socket |
| UserJoin.JoinHistoryIsOldest | server/src/socket-handlers/userJoin.js:86-124 | the join history is the oldest 50 messages of the channel (not the newest), each keeping its id, text and deletion flag |
| UserJoin.JoinPreservesConsistent | server/src/socket-handlers/userJoin.js:8-181 | a join keeps the registry invariant (one socket per user, both Maps agreeing) on success and on failure |
| UserJoin.EvictPreservesConsistent | server/src/socket-handlers/userJoin.js:20-34 | the eviction keeps the invariant and leaves no other socket registered for that user id |
| UserJoin.AdmitPreservesConsistent | server/src/socket-handlers/userJoin.js:78-82 | setting both Maps keeps the invariant once no other socket holds the user id |
| UserJoin.FailPreservesConsistent | server/src/socket-handlers/userJoin.js:164-170 | the cleanup keeps the invariant |
| JoinChannel.Fail | server/src/socket-handlers/joinChannel.js:151-163 | the catch block always ends by rethrowing the caught error, and changes neither Map, the rooms nor the store |
| JoinChannel.LeavePrevious | server/src/socket-handlers/joinChannel.js:46-74 | leaving the previous room changes neither Map nor the store, only extends the log, and changes the rooms only by leaving the previous channel when there is one |
| JoinChannel.EnterChannel | server/src/socket-handlers/joinChannel.js:76-150 | entering the new room leaves the user-id Map and the store alone, only extends the log, replaces the record by the switched one and joins the socket to the new room |
| JoinChannel.SwitchSucceeds | server/src/socket-handlers/joinChannel.js:19-150 | for a registered socket, a non-empty trimmed id and an existing channel, the switch completes as the leave of the previous room followed by the entry into the new one |
| JoinChannel.LeavePreviousOn | server/src/socket-handlers/joinChannel.js:46-74 | the in-place leave step has exactly the effect of LeavePrevious |
| JoinChannel.EnterChannelOn | server/src/socket-handlers/joinChannel.js:76-150 | the in-place entry step has exactly the effect of EnterChannel |
| JoinChannel.EnterChannelLog | server/src/socket-handlers/joinChannel.js:136-150 | the entry emits `channel_joined` second to last, with the channel held before and the channel name in its message, and never emits `user_channel_left` |
| JoinChannel.HandleJoinChannel | server/src/socket-handlers/joinChannel.js:9-164 | the handler run on the server object ends in exactly the state and outcome of the functional model |
| JoinChannel.FailureChangesNothing | server/src/socket-handlers/joinChannel.js:12-41 | the switch raises iff the socket is unregistered, the channel field is missing, the trimmed id is empty or names no channel; each failure has its own message, keeps registry, rooms and store, and appends only `channel_join_error` with the channel as requested |
| JoinChannel.SwitchSuccess | server/src/socket-handlers/joinChannel.js:46-79 | a valid switch stores the trimmed id as the current channel and a new switch time, changes no other record, joins the new room and leaves a previous, different room |
| JoinChannel.ReportsPreviousChannel | server/src/socket-handlers/joinChannel.js:19-141 | `channel_joined` reports the channel held before the call, and `user_channel_left` goes out exactly when there was a previous channel |
| JoinChannel.RejoinCurrentChannel | server/src/socket-handlers/joinChannel.js:46-127 | switching to the current channel still announces the leave, keeps the socket in the room and sends the history again |
| JoinChannel.HistoryFailureTolerated | server/src/socket-handlers/joinChannel.js:82-131 | a failing history query changes neither the outcome nor the registry or rooms |
| JoinChannel.SwitchPreservesConsistent | server/src/socket-handlers/joinChannel.js:9-164 | a switch keeps the registry invariant |
| JoinDM.DmRoomSymmetric | server/src/socket-handlers/joinDM.js:18-19 | both participants compute the same DM room id |
| JoinDM.DmRoomSorted | server/src/socket-handlers/joinDM.js:19 | the room id is the string-order smaller id, '-', then the larger one |
| JoinDM.Fail | server/src/socket-handlers/joinDM.js:35-43 | the catch block always ends by rethrowing the caught error |
| JoinDM.HandleJoinDm | server/src/socket-handlers/joinDM.js:4-44 | the handler run on the server object ends in exactly the state and outcome of the functional model |
| JoinDM.JoinDmSpec | server/src/socket-handlers/joinDM.js:6-34 | the join raises iff the socket is unregistered or `otherUserId` is missing, and then appends only `dm_join_error`; otherwise it returns the shared room, joins it, and records `currentDM` and `currentDMRoom` |
| JoinDM.JoinDmIdempotent | server/src/socket-handlers/joinDM.js:19-26 | joining the same conversation twice gives the same room and the same records and rooms as joining once |
| JoinDM.JoinDmPreservesConsistent | server/src/socket-handlers/joinDM.js:4-44 | joining a conversation keeps the registry invariant |
| SendMessage.WordRun | server/src/socket-handlers/sendMessage.js:62 | the `\w+` group is the longest prefix made of word characters: every character is one and the next is not |
| SendMessage.MentionFrom | server/src/socket-handlers/sendMessage.js:62 | finds the leftmost '@' followed by a word character at or after a position, and nothing iff there is none |
| SendMessage.MentionSpec | server/src/socket-handlers/sendMessage.js:61-64 | a mention exists iff some '@' is followed by a word character; it is the whole word after the leftmost such '@' and is never empty |
| SendMessage.MentionedUser | server/src/socket-handlers/sendMessage.js:61-71 | a mentioned user is found iff the text has a mention and a stored user has exactly that username |
| SendMessage.Fail | server/src/socket-handlers/sendMessage.js:182-194 | the catch block always ends by rethrowing the caught error |
| SendMessage.NotifyMention | server/src/socket-handlers/sendMessage.js:127-145 | the mention notification only extends the log |
| SendMessage.NotifyAll | server/src/socket-handlers/sendMessage.js:159-172 | one `message_notification` per target, in target order, each addressed to that target's socket through `socket.to`, and nothing else |
| SendMessage.Publish | server/src/socket-handlers/sendMessage.js:117-175 | publishing sends events only: registry, rooms and store stay as they are |
| SendMessage.PublishLog | server/src/socket-handlers/sendMessage.js:117-175 | publishing sends the message to the room but the sender, then `message_sent` with status 'delivered' to the sender, then the mention notification if any, then one notification per target |
| SendMessage.HandleSendMessage | server/src/socket-handlers/sendMessage.js:9-195 | the handler run on the server object ends in exactly the state and outcome of the functional model |
| SendMessage.PublishMessage | server/src/socket-handlers/sendMessage.js:117-175 | the in-place publishing has exactly the effect of Publish |
| SendMessage.SendMentionNotification | server/src/socket-handlers/sendMessage.js:127-145 | the in-place mention notification has exactly the effect of NotifyMention |
| SendMessage.SendNotifications | server/src/socket-handlers/sendMessage.js:159-172 | the in-place `forEach` loop has exactly the effect of NotifyAll |
| SendMessage.CheckSpec | server/src/socket-handlers/sendMessage.js:11-53 | the checks run in source order (unregistered socket, missing text, no channel, blank, over 2000, unknown channel), each with its own error; accepted input has the given channel or else the current one, and the trimmed text |
| SendMessage.RejectedChangesNothing | server/src/socket-handlers/sendMessage.js:182-194 | a rejected message stores nothing and only appends `message_send_error` carrying the original text and channel, then rethrows |
| SendMessage.AcceptedDelivers | server/src/socket-handlers/sendMessage.js:9-175 | accepted input goes on to delivery with exactly what the checks found |
| SendMessage.DeliverStoresAndSends | server/src/socket-handlers/sendMessage.js:58-125 | delivery stores the row with the trimmed text, the channel id and the mentioned user's id when one is found; the room but the sender hears it and the sender gets it back as delivered |
| SendMessage.MentionNotificationTarget | server/src/socket-handlers/sendMessage.js:127-145 | the mention notification goes to the first connected socket of the mentioned user, never to the sender, and is not sent when that user has no socket or nobody is mentioned |
| SendMessage.NotifyTargetsExact | server/src/socket-handlers/sendMessage.js:152-157 | a connected record is a notification target iff it is not the sender, its current channel is another one, and its user is a member of the channel |
| SendMessage.NotificationsPerTarget | server/src/socket-handlers/sendMessage.js:147-172 | each target gets, in order, one notification titled with the channel name and carrying the 50-character preview, and nothing follows them |
| SendMessage.DeliverIsPublish | server/src/socket-handlers/sendMessage.js:74-175 | delivery by a stored user to an existing channel stores the row and then publishes it |
| SendDirectMessage.Fail | server/src/socket-handlers/sendDirectMessage.js:98-105 | the catch block does not rethrow: the handler completes normally |
| SendDirectMessage.NotifyReceiver | server/src/socket-handlers/sendDirectMessage.js:67-90 | notifying the receiver only extends the log |
| SendDirectMessage.Deliver | server/src/socket-handlers/sendDirectMessage.js:37-97 | delivery always completes normally, a store failure included |
| SendDirectMessage.HandleSendDirectMessage | server/src/socket-handlers/sendDirectMessage.js:3-106 | the send handler run on the server object ends in exactly the state and outcome of the functional model |
| SendDirectMessage.FormatDirectHistory | server/src/socket-handlers/sendDirectMessage.js:149-159 | one formatted entry per row, in the same order |
| SendDirectMessage.History | server/src/socket-handlers/sendDirectMessage.js:108-172 | the history handler never raises, changes no registry entry, room or row, and sends exactly one event |
| SendDirectMessage.HandleGetDirectMessageHistory | server/src/socket-handlers/sendDirectMessage.js:108-172 | the history handler run on the server object ends in exactly the state of the functional model |
| SendDirectMessage.CheckSpec | server/src/socket-handlers/sendDirectMessage.js:5-34 | the checks run in source order (unregistered sender, missing text, missing receiver id, blank, over 2000, unknown receiver), each with its own error; accepted input carries the trimmed text and the stored receiver |
| SendDirectMessage.RejectedChangesNothing | server/src/socket-handlers/sendDirectMessage.js:98-105 | a rejected message stores nothing, appends only `direct_message_error` and is not rethrown |
| SendDirectMessage.DeliverSpec | server/src/socket-handlers/sendDirectMessage.js:37-97 | an accepted message is stored undeleted from sender to receiver with the trimmed text; the receiver's first socket, if any, gets the message and a notification with the 50-character preview; the sender's confirmation with status 'delivered' comes last |
| SendDirectMessage.StoreFailureReported | server/src/socket-handlers/sendDirectMessage.js:37-105 | when the sender's own row is gone the create fails, nothing is stored and the sender gets `direct_message_error` |
| SendDirectMessage.HistoryErrors | server/src/socket-handlers/sendDirectMessage.js:110-171 | an unregistered socket gets "User not found" and a missing other id gets "Other user ID is required", both as `direct_message_history_error` to the socket |
| SendDirectMessage.HistoryEmit | server/src/socket-handlers/sendDirectMessage.js:115-164 | a registered socket naming another user gets back one `direct_message_history` emit with that user's id and the formatted result of the newest-messages query, limit 50 by default |
| SendDirectMessage.HistorySpec | server/src/socket-handlers/sendDirectMessage.js:115-164 | the socket alone receives the newest `limit` (default 50) messages exchanged with the other user in either direction before the cut-off, oldest first, deleted ones included |
| SendDirectMessage.FormatLast | server/src/socket-handlers/sendDirectMessage.js:149-159 | formatting the last `n` rows gives one entry per row, the i-th being the i-th of the last `n` matching messages, in place |
| SendDirectMessage.HistorySameForBoth | server/src/socket-handlers/sendDirectMessage.js:122-128 | both participants asking with the same limit and cut-off receive the same messages |
| SendDirectMessage.SendPreservesConsistent | server/src/socket-handlers/sendDirectMessage.js:3-106 | sending a direct message keeps the registry invariant |
| DeleteMessage.Fail | server/src/socket-handlers/deleteMessage.js:77-85 | the catch block does not rethrow: the handler completes normally |
| DeleteMessage.Announce | server/src/socket-handlers/deleteMessage.js:46-74 | the response goes to the channel room but the sender, then to the sender, then as `message_delete_success`, and nothing else changes |
| DeleteMessage.Delete | server/src/socket-handlers/deleteMessage.js:6-86 | deleting never raises and never changes the registry or the rooms |
| DeleteMessage.HandleDeleteMessage | server/src/socket-handlers/deleteMessage.js:6-86 | the handler run on the server object ends in exactly the state and outcome of the functional model |
| DeleteMessage.DeleteErrors | server/src/socket-handlers/deleteMessage.js:8-84 | the errors come in source order (unregistered socket, missing id, unknown id, someone else's message), each with its own message; each changes no row and appends only `message_delete_error` with the requested id |
| DeleteMessage.DeleteSpec | server/src/socket-handlers/deleteMessage.js:37-74 | the owner's delete marks exactly that row deleted at `now`, except that a row already deleted keeps its time; the response names the message, its channel and the deleting user and says whether it was already deleted |
| DeleteMessage.OnlyOwnMessagesChange | server/src/socket-handlers/deleteMessage.js:32-34 | any change to the store is the soft delete of a message written by the socket's own user |
| DeleteMessage.DeleteIdempotent | server/src/socket-handlers/deleteMessage.js:37-51 | deleting twice leaves the store as deleting once, and the second response reports `alreadyDeleted` |
| DeleteMessage.DeletePreservesConsistent | server/src/socket-handlers/deleteMessage.js:6-86 | deleting keeps the registry invariant |
| DeleteDirectMessage.Announce | server/src/socket-handlers/deleteDirectMessage.js:58-62 | the response goes to the conversation room but the sender, then to the sender, then as `dm_delete_success`, and nothing else changes |
| DeleteDirectMessage.DeleteDm | server/src/socket-handlers/deleteDirectMessage.js:6-72 | deleting never raises and never changes the registry or the rooms |
| DeleteDirectMessage.HandleDeleteDirectMessage | server/src/socket-handlers/deleteDirectMessage.js:6-72 | the handler run on the server object ends in exactly the state and outcome of the functional model |
| DeleteDirectMessage.DeleteErrors | server/src/socket-handlers/deleteDirectMessage.js:8-70 | the errors come in source order (unregistered socket, missing id, unknown id, a message sent by someone else, its receiver included); each changes no row and appends only `dm_delete_error` with the requested id |
| DeleteDirectMessage.DeleteSpec | server/src/socket-handlers/deleteDirectMessage.js:37-62 | the sender's delete marks exactly that row deleted at `now`; the response naming both participants goes to the sorted-pair room that the DM join uses, but the sender, and twice to the sender |
| DeleteDirectMessage.RepeatDeleteRestamps | server/src/socket-handlers/deleteDirectMessage.js:32-43 | with no already-deleted check, a second delete succeeds again and moves the deletion time to the later call |
| DeleteDirectMessage.OnlyOwnMessagesChange | server/src/socket-handlers/deleteDirectMessage.js:32-34 | any change to the store is the soft delete of a direct message sent by the socket's own user |
| TypingEvents.Fail | server/src/socket-handlers/typingEvents.js:37-100 | the catch block of either handler always ends by rethrowing the caught error |
| TypingEvents.Cleanup | server/src/socket-handlers/typingEvents.js:106-128 | the cleanup touches only the socket's record and the log: the user-id Map, the rooms and the store stay as they are |
| TypingEvents.HandleTypingStart | server/src/socket-handlers/typingEvents.js:4-50 | the start handler run on the server object ends in exactly the state and outcome of the functional model |
| TypingEvents.HandleTypingStop | server/src/socket-handlers/typingEvents.js:55-101 | the stop handler run on the server object ends in exactly the state and outcome of the functional model |
| TypingEvents.CleanupTypingStatus | server/src/socket-handlers/typingEvents.js:106-128 | the cleanup run on the server object has exactly the effect of Cleanup |
| TypingEvents.TypingStartSpec | server/src/socket-handlers/typingEvents.js:7-34 | an unregistered socket, or no channel named or current, raises after `typing_error`; otherwise the record is typing in the named channel (else the current one) since `now`, and only that room's other sockets hear it |
| TypingEvents.TypingStopSpec | server/src/socket-handlers/typingEvents.js:58-85 | the same errors; otherwise the record is typing nowhere, stopped at `now`, and the chosen room's other sockets hear it |
| TypingEvents.StartThenStop | server/src/socket-handlers/typingEvents.js:23-85 | a start then a stop for the same channel leave the record not typing, tell the same room `true` then `false`, and change nothing else on the record but the two timestamps |
| TypingEvents.CleanupSpec | server/src/socket-handlers/typingEvents.js:108-124 | a record typing in a channel makes that room hear a stop with reason 'user_disconnected' and has its flags cleared; any other record is left alone; running it twice is running it once |
| TypingEvents.TypingPreservesConsistent | server/src/socket-handlers/typingEvents.js:4-128 | none of the three changes a record's socket id or user id, so the registry invariant is kept |
| StatusUpdate.StatusFromName | server/src/socket-handlers/statusUpdate.js:21-29 | a recognised name maps to the enum value whose lower-cased name it is |
| StatusUpdate.UpdateStatus | server/src/socket-handlers/statusUpdate.js:4-45 | the handler never touches the user-id Map or the rooms; an unregistered socket or a missing status leaves everything as it was; otherwise, on every path, the record carries the lower-cased status |
| StatusUpdate.HandleStatusUpdate | server/src/socket-handlers/statusUpdate.js:4-45 | the handler run on the server object ends in exactly the state and outcome of the functional model |
| StatusUpdate.StatusNamesRoundTrip | server/src/socket-handlers/statusUpdate.js:21-29 | each of the four enum values is recognised under its lower-case name and under no other |
| StatusUpdate.LowerName | server/src/socket-handlers/statusUpdate.js:16-25 | the lower-case form of each enum name is the key it has in the status map |
| StatusUpdate.UpdateStatusSpec | server/src/socket-handlers/statusUpdate.js:10-45 | a recognised status in any letter case from a registered, stored user is stored, put on the record lower-cased, and the users list built after that goes to every other socket and then to this one |
| StatusUpdate.InvalidStatusKeptOnRecord | server/src/socket-handlers/statusUpdate.js:16-32 | an unrecognised status still lands on the record lower-cased, but nothing is stored or sent, and the handler throws "Invalid status: " with the status as given (a store error for an inherited key such as "constructor") |
| StatusUpdate.CaseInsensitive | server/src/socket-handlers/statusUpdate.js:16 | the outcome does not depend on the letter case of the status |
| StatusUpdate.RejectedBeforeChange | server/src/socket-handlers/statusUpdate.js:10-16 | an unregistered socket or a missing status throws before anything changes |
| StatusUpdate.UpdateStatusPreservesConsistent | server/src/socket-handlers/statusUpdate.js:4-45 | changing the status keeps the registry invariant |
| Disconnect.Unregister | server/src/socket-handlers/disconnect.js:60-75 | the socket's record and its user's entry are deleted from the two Maps, unconditionally; rooms and store are unchanged; the two emits that follow carry the users list of the new registry and its length |
| Disconnect.LeaveChannel | server/src/socket-handlers/disconnect.js:32-46 | the typing cleanup and the channel leave change neither the user-id Map nor the store; the records change only by the typing cleanup and the rooms only by leaving the current channel, when there is one |
| Disconnect.Salvage | server/src/socket-handlers/disconnect.js:83-105 | the error-path cleanup deletes the socket's record and, when the record has a user id, the user's entry; it changes neither rooms nor store and appends exactly one `users_list` broadcast of the new registry |
| Disconnect.Disconnected | server/src/socket-handlers/disconnect.js:9-106 | the handler always completes: a store failure is caught and cleaned up, never rethrown |
| Disconnect.HandleDisconnect | server/src/socket-handlers/disconnect.js:9-106 | the handler run on the server object ends in exactly the state and outcome of the functional model |
| Disconnect.SalvageOn | server/src/socket-handlers/disconnect.js:83-105 | the in-place error-path cleanup has exactly the effect of Salvage |
| Disconnect.LeaveChannelOn | server/src/socket-handlers/disconnect.js:32-46 | the in-place typing cleanup and channel leave have exactly the effect of LeaveChannel |
| Disconnect.UnregisterOn | server/src/socket-handlers/disconnect.js:60-75 | the in-place removal and announcements have exactly the effect of Unregister |
| Disconnect.UnknownSocketIgnored | server/src/socket-handlers/disconnect.js:16-22 | a socket with no record disconnects without any effect |
| Disconnect.DisconnectForgetsUser | server/src/socket-handlers/disconnect.js:58-95 | on either path the socket's record is gone, the user's entry is gone (on the normal path even when it named another socket), and the last emit is a broadcast to everyone but this socket |
| Disconnect.NormalPath | server/src/socket-handlers/disconnect.js:24-75 | on the normal path the user is stored OFFLINE, the current channel is left and told with reason 'disconnected', and the last two emits are the users list of the new registry and `user_disconnected` with that list's length |
| Disconnect.DisconnectSpec | server/src/socket-handlers/disconnect.js:24-75 | the normal path as in NormalPath, and under the registry invariant the broadcast users list holds no record of the departed socket or of its user |
| Disconnect.StoreFailureSalvages | server/src/socket-handlers/disconnect.js:83-105 | when the store update fails, the record and the user's entry are gone, rooms and store are unchanged, the only emit is the `users_list` broadcast, and under the invariant that list leaves out the departed user |
| Disconnect.DepartedUserNotListed | server/src/socket-handlers/disconnect.js:59-67 | under the registry invariant, on either path, no entry of the broadcast users list is the departed socket's record or carries its user id |
| Disconnect.CleanupKeepsOthers | server/src/socket-handlers/disconnect.js:32 | typing cleanup rewrites at most the departing socket's record |
| Disconnect.OthersListed | server/src/socket-handlers/disconnect.js:59-64 | once only other sockets' records remain, unchanged, the users list holds none with the departed socket's id or user id |
| Disconnect.TypingClearedFirst | server/src/socket-handlers/disconnect.js:32 | when the user was typing, the first emit is the typing stop with reason 'user_disconnected', before the departure |
| Disconnect.DisconnectPreservesConsistent | server/src/socket-handlers/disconnect.js:9-106 | disconnecting keeps the registry invariant |
| App.Evict | server/src/app.js:64-72 | dropping an older socket of the same user neither touches the store nor sends anything (this variant sends no `force_disconnect`) |
| App.Register | server/src/app.js:74-127 | registering never changes the store |
| App.UserJoin | server/src/app.js:63-130 | `user_join` never changes the store: this variant marks nobody online |
| App.JoinChannel | server/src/app.js:133-168 | `join_channel` changes neither the store nor the user-id Map |
| App.NotifyAll | server/src/app.js:261-274 | one `message_notification` per recipient, in order, each through `io.to` that recipient's socket, and nothing else |
| App.Deliver | server/src/app.js:186-292 | delivery leaves the registry and the rooms as they were |
| App.SendMessage | server/src/app.js:171-299 | `send_message` leaves the registry and the rooms as they were |
| App.Disconnect | server/src/app.js:335-360 | `disconnect` never changes the store: this variant marks nobody offline |
| App.AppServer.HandleUserJoin | server/src/app.js:63-130 | the handler run on the server object ends in exactly the state of the functional model |
| App.AppServer.RegisterUser | server/src/app.js:74-127 | the in-place registration with the resolved channel and the users lists has exactly the effect of Register |
| App.AppServer.EvictPrevious | server/src/app.js:64-72 | the in-place eviction has exactly the effect of Evict |
| App.AppServer.HandleJoinChannel | server/src/app.js:133-168 | the handler run on the server object ends in exactly the state of the functional model |
| App.AppServer.HandleSendMessage | server/src/app.js:171-299 | the handler run on the server object ends in exactly the state of the functional model |
| App.AppServer.SendNotifications | server/src/app.js:261-274 | the in-place `forEach` loop has exactly the effect of NotifyAll |
| App.AppServer.HandleTyping | server/src/app.js:302-332 | the handlers run on the server object end in exactly the state of the functional model |
| App.AppServer.HandleDisconnect | server/src/app.js:335-360 | the handler run on the server object ends in exactly the state of the functional model |
| App.GetChannelNameSpec | server/src/app.js:47-58 | the name is the stored channel's name when it is non-empty, and the id otherwise |
| App.ResolveChannelSpec | server/src/app.js:84-111 | the literal "general" resolves to the id and name of the first channel named "general" and stays "general" when there is none; any other id is kept with its looked-up name |
| App.JoinReplacesSession | server/src/app.js:64-114 | a join for a user registered under another socket drops that socket and its record; afterwards the user id maps to the new socket, whose record carries the resolved channel |
| App.UsersListIsConnected | server/src/app.js:119-350 | under the invariant the users list holds exactly the connected records |
| App.RejoinDuplicatesUser | server/src/app.js:64-124 | one socket joining again under another user id leaves the first id pointing at it, so the users list shows the same record twice |
| App.RejoinFirstJoin | server/src/app.js:64-124 | in the example, the first join registers user `a` on socket `s1` and leaves the store empty |
| App.RejoinSecondJoin | server/src/app.js:64-124 | from that registry, user `b` joining on the same socket adds a second user id pointing at `s1`, and the record becomes `b`'s |
| App.RejoinRegistry | server/src/app.js:119-124 | that final registry is consistent and its users list shows the record of `s1` once per user id |
| App.JoinPreservesConsistent | server/src/app.js:63-130 | a join keeps the invariant that every record is registered under its own socket and its user id points back at it |
| App.JoinChannelSpec | server/src/app.js:133-167 | an unregistered socket changes nothing; otherwise the record names the new channel and its name, the previous room is left unless it is the new one, the new room joined, and `channel_joined` reports the previous channel and name |
| App.JoinChannelPreservesConsistent | server/src/app.js:133-168 | `join_channel` keeps the invariant |
| App.DroppedMessageChangesNothing | server/src/app.js:172-298 | a message from an unregistered socket, or without a channel, a text or a user id, is dropped without any effect |
| App.RecipientsExact | server/src/app.js:244-258 | a connected record is a recipient iff its user is a channel member, it looks at another channel, and it is not the sender |
| App.NoticePreview | server/src/app.js:262-273 | the notification text is the sender's name, ": ", and the first 50 characters with "..." iff the text is longer |
| App.SendMessageSpec | server/src/app.js:186-274 | a message from a stored user into an existing channel is stored as given, goes to the whole room (sender included), and each recipient then gets one notification, in order |
| App.DeliverStores | server/src/app.js:188-204 | the create succeeds when the user and the channel exist, and the member list is read from the grown store |
| App.StoreFailureReported | server/src/app.js:287-292 | a failed create sends only `message_error` to the sender |
| App.TypingSpec | server/src/app.js:302-332 | a registered socket's typing event reaches the other sockets of the named channel, or else the current one, with the looked-up name and no check for a missing channel; an unregistered socket is ignored |
| App.DisconnectSpec | server/src/app.js:335-353 | disconnecting a registered socket removes its record and its user's entry and tells everyone else the new users list; an unregistered socket changes nothing |
| App.DisconnectPreservesConsistent | server/src/app.js:335-360 | disconnecting keeps the invariant |
| UserRoutes.Me | server/src/routes/user.js:12-34 | `GET /me` always answers 200 with a profile body; the body carries a user exactly when the token's user id names a stored user, and then it is that user's row |
| UserRoutes.Validate | server/src/routes/user.js:77-86 | a request is refused exactly when its name is set and longer than 100 characters or its description is set and longer than 255; the refusal is a 400, and an over-long name wins with "Name exceeds 100 characters." |
| UserRoutes.OtherMembers | server/src/routes/user.js:108-116 | the rows added for a public channel are exactly the rows of the new channel for users other than the creator |
| UserRoutes.BuildMembersToCreate | server/src/routes/user.js:96-117 | the loop that builds the member rows yields the creator's row followed by one row per other user when the channel is public |
| UserRoutes.InsertMissing | server/src/routes/user.js:119-123 | `createMany` with `skipDuplicates` keeps every existing row, adds exactly the requested rows, and adds no duplicate |
| UserRoutes.CreateChannel | server/src/routes/user.js:70-130 | a request that fails validation leaves the store untouched and answers with the validation error |
| UserRoutes.DeleteChannel | server/src/routes/user.js:133-159 | deleting a channel never touches the users or the direct messages |
| UserRoutes.FormatEntries | server/src/routes/user.js:209-216 | the formatted history has one entry per fetched message, at the same position |
| UserRoutes.ListChannelsSpec | server/src/routes/user.js:37-62 | `GET /channels` answers 200 with exactly the public channels and the private ones the requester is a member of, never more than the table holds |
| UserRoutes.MembersToCreateSpec | server/src/routes/user.js:96-117 | the creator's row comes first; a private channel gets that row alone; otherwise a row belongs to the list exactly when it is the new channel's row for the creator or for a stored user |
| UserRoutes.CreateRejected | server/src/routes/user.js:77-86 | an over-long name or description yields a 400 with the matching message and stores nothing |
| UserRoutes.CreateChannelSpec | server/src/routes/user.js:88-125 | a valid request from an existing user appends the channel, answers 201 with it, keeps every old member row, adds no duplicate, and makes a user a member of the new channel exactly when it is the creator or the channel is public |
| UserRoutes.CreateForMissingCreator | server/src/routes/user.js:88-128 | when the creator's user row is gone the member insert fails: the answer is 500 "Internal server error", yet the channel row created just before stays |
| UserRoutes.DeleteChannelSpec | server/src/routes/user.js:133-154 | an unknown id answers 404 and changes nothing; otherwise the answer is 200, the channel, its memberships and its messages are gone, all else stays, and a consistent store stays consistent |
| UserRoutes.HistoryForbidden | server/src/routes/user.js:167-180 | a requester without a membership row gets 403 "Not a member of this channel" |
| UserRoutes.HistorySpec | server/src/routes/user.js:162-218 | a member gets the newest `limit` (50 by default) messages of the channel created before the cut-off, oldest first |
| ChatUtils.Initials | client/src/utils/chatUtils.js:20-22 | the initials are the first two characters of the username (all of it when shorter), each upper-cased |
| ChatUtils.CharCode | client/src/utils/chatUtils.js:43 | `charCodeAt(0)` is a UTF-16 code unit, equal to the character's code inside the Basic Multilingual Plane |
| ChatUtils.Color | client/src/utils/chatUtils.js:31-45 | a non-empty username always gets one of the nine palette classes; the empty username gets `undefined` |
| ChatUtils.ColorByFirstChar | client/src/utils/chatUtils.js:43-44 | two usernames with the same first character get the same class, the palette entry at that character's code modulo 9 |
| ChatUtils.InitialsIdempotent | client/src/utils/chatUtils.js:20-22 | initials are already upper-case and at most two long, so taking the initials of initials changes nothing |
| ChatUtils.InitialsExamples | client/src/utils/chatUtils.js:13-22 | "john" gives "JO", as documented; a one-letter name gives one initial and the empty name none |
| ChatHelpers.FormatMessagesForDisplay | client/src/utils/chatHelpers.js:10-27 | one display entry per message, in order, keeping id, type, text, system flag and deletion flag; an entry is the reader's own exactly when the usernames are equal; system messages are grey, all others get the palette colour of their username (or of "System" without one); the initials are those of the username, or of "SY" without one |
| ChatHelpers.FormatCurrentUserData | client/src/utils/chatHelpers.js:36-45 | a chip exists exactly when there is a user; it carries the username, its initials, and the user's status or "Online" when that is missing or empty |
| ChatHelpers.StatusText | client/src/utils/chatHelpers.js:63 | a non-empty status is shown lower-cased; a missing or empty one falls back to the given default |
| ChatHelpers.FormatDirectMessages | client/src/utils/chatHelpers.js:54-67 | the DM list has one entry per non-null user other than the reader, in order, each built from that user |
| ChatHelpers.FormatOnlineMembers | client/src/utils/chatHelpers.js:75-95 | a value that is not an array gives `[]`; otherwise one member per entry that has a username and a non-blank user id, in order |
| ChatHelpers.DirectMessagesExcludeReader | client/src/utils/chatHelpers.js:54-67 | the DM list never shows the reader, shows every other connected user, and has no unread counts |
| ChatHelpers.OnlineMembersListable | client/src/utils/chatHelpers.js:80-89 | every listed member has a name and a non-blank id, and its id equals its user id |
| ChatHelpers.OnlineMembersComplete | client/src/utils/chatHelpers.js:80-94 | every entry with a username and a non-blank user id is listed |
| ClientLists.AppendNew | client/src/hooks/messages/useChannelMessages.js:72-79 | a message whose id is already listed leaves the list as it is; one with a new id is appended at the end |
| ClientLists.RemoveKey | client/src/hooks/messages/useChannelMessages.js:98-100 | the filtered list holds exactly the entries whose id differs from the removed one, and is never longer |
| ClientLists.RemoveKeyKeepsOrder | client/src/hooks/messages/useChannelMessages.js:98-100 | removing distributes over concatenation and keeps a single entry exactly when its id differs, which fixes the order and multiplicity of what is kept |
| ClientLists.RemoveUnique | client/src/hooks/messages/useChannelMessages.js:98-100 | with unique ids, removing the id of the entry at position i leaves the list with that one entry cut out, the rest in order |
| ClientLists.CutOut | client/src/hooks/messages/useChannelMessages.js:98-100 | removing an id carried by exactly one entry between two runs without it joins the two runs |
| ClientLists.RemoveAbsent | client/src/hooks/messages/useChannelMessages.js:98-100 | removing an id that no entry carries changes nothing |
| ClientLists.AppendKeepsKeysUnique | client/src/hooks/messages/useChannelMessages.js:72-79 | on a list without duplicate ids the append keeps the ids unique, keeps the earlier entries in place, and leaves exactly one entry with the new id |
| ClientLists.RemoveKeyIdempotent | client/src/hooks/messages/useChannelMessages.js:98-100 | removing an id twice is removing it once, and no entry with that id is left |
| ChannelMessages.FetchMessages | client/src/hooks/messages/useChannelMessages.js:26-64 | fetching never touches the in-progress delete set |
| ChannelMessages.FetchSpec | client/src/hooks/messages/useChannelMessages.js:26-64 | no channel empties the list; a loaded response replaces the list and clears the error; a failed one shows its message and keeps the list; loading ends either way |
| ChannelMessages.Append | client/src/hooks/messages/useChannelMessages.js:71-80 | appending changes only the message list |
| ChannelMessages.Delete | client/src/hooks/messages/useChannelMessages.js:87-112 | a delete never touches the loading flag or the error |
| ChannelMessages.OnDeleteError | client/src/hooks/messages/useChannelMessages.js:135-159 | a delete error never touches the loading flag |
| ChannelMessages.ChannelMessagesHook.constructor | client/src/hooks/messages/useChannelMessages.js:10-21 | the hook starts with no messages, not loading, no error and no delete in progress |
| ChannelMessages.ChannelMessagesHook.AppendNewMessage | client/src/hooks/messages/useChannelMessages.js:71-80 | the hook's new state is the append of its old state |
| ChannelMessages.ChannelMessagesHook.DeleteMessage | client/src/hooks/messages/useChannelMessages.js:87-112 | the hook's new state is the delete of its old state |
| ChannelMessages.ChannelMessagesHook.HandleMessageDeleted | client/src/hooks/messages/useChannelMessages.js:119-132 | the hook's new state is the delete event's update of its old state, for the hook's channel |
| ChannelMessages.ChannelMessagesHook.HandleDeleteError | client/src/hooks/messages/useChannelMessages.js:135-159 | the hook's new state is the delete error's update of its old state |
| ChannelMessages.AppendSpec | client/src/hooks/messages/useChannelMessages.js:71-80 | a message already listed changes nothing; a new one goes at the end; ids stay unique |
| ChannelMessages.DeleteSpec | client/src/hooks/messages/useChannelMessages.js:87-112 | a delete already in progress changes nothing; otherwise the id joins the in-progress set and exactly the messages with that id leave the list, with unique ids exactly that entry is cut out and the rest keep their order, an absent id leaves the list as it was, and a second delete changes nothing |
| ChannelMessages.OtherChannelIgnored | client/src/hooks/messages/useChannelMessages.js:119-132 | a delete event for another channel changes nothing |
| ChannelMessages.DeleteErrorSpec | client/src/hooks/messages/useChannelMessages.js:135-159 | an "already deleted" error removes the message (with unique ids, cutting out that entry and keeping the rest in order) and shows nothing; any other shows "Failed to delete message: …" and keeps the list; a given id always leaves the in-progress set |
| ChannelMessages.NoChannelClears | client/src/hooks/messages/useChannelMessages.js:175-182 | with no channel selected, the list and the in-progress set are emptied |
| ChannelMessages.ServerErrorsAreShown | client/src/hooks/messages/useChannelMessages.js:139 | none of the delete errors the server sends contains "already deleted", so each one is shown to the user |
| LegacyChannelMessages.LegacyChannelMessagesHook.constructor | client/src/hooks/useChannelMessages.js:3-6 | the hook starts with no messages, not loading and no error |
| LegacyChannelMessages.LegacyChannelMessagesHook.AppendNewMessage | client/src/hooks/useChannelMessages.js:38-48 | the hook's new state is the append of its old state |
| LegacyChannelMessages.LegacyChannelMessagesHook.RunEffect | client/src/hooks/useChannelMessages.js:8-35 | the hook's new state is the effect's update of its old state: cleared when disabled or without a channel, otherwise the fetch's outcome |
| LegacyChannelMessages.AppendSpec | client/src/hooks/useChannelMessages.js:38-48 | a listed id leaves the list as it was; a new message is added at the end and the earlier ones keep their order |
| LegacyChannelMessages.EffectClears | client/src/hooks/useChannelMessages.js:51-57 | when disabled, or enabled without a channel, the list is emptied and nothing else changes |
| LegacyChannelMessages.EffectLoads | client/src/hooks/useChannelMessages.js:13-35 | with a channel and a successful response, the list is the response, loading is over and no error is shown |
| DirectMessages.MarkDeleted | client/src/hooks/messages/useDirectMessages.js:77-83 | marking keeps the list's length and positions, each entry being that message marked or left as it was |
| DirectMessages.DirectMessagesHook.constructor | client/src/hooks/messages/useDirectMessages.js:10-16 | the hook starts with no messages, not loading, no error and no socket response |
| DirectMessages.DirectMessagesHook.ChangeConversation | client/src/hooks/messages/useDirectMessages.js:180-214 | switching conversation resets the socket-response ref and applies the switch effect to the old state |
| DirectMessages.DirectMessagesHook.FireFallback | client/src/hooks/messages/useDirectMessages.js:193-197 | the fallback applies the HTTP fetch only when no socket history arrived, and changes neither the ref nor the conversation |
| DirectMessages.DirectMessagesHook.AppendNewMessage | client/src/hooks/messages/useDirectMessages.js:62-70 | the hook's new state is the append of its old state |
| DirectMessages.DirectMessagesHook.HandleNewDirectMessage | client/src/hooks/messages/useDirectMessages.js:90-95 | the hook's new state is the incoming message's update of its old state |
| DirectMessages.DirectMessagesHook.HandleDirectMessageSent | client/src/hooks/messages/useDirectMessages.js:114-118 | the hook's new state is the sent confirmation's update of its old state |
| DirectMessages.DirectMessagesHook.HandleDirectMessageHistory | client/src/hooks/messages/useDirectMessages.js:98-111 | a history for this conversation replaces the list and sets the socket-response ref; others change nothing |
| DirectMessages.DirectMessagesHook.DeleteMessage | client/src/hooks/messages/useDirectMessages.js:77-83 | deleting marks the messages with that id and changes nothing else |
| DirectMessages.DirectMessagesHook.HandleDmDeleted | client/src/hooks/messages/useDirectMessages.js:138-150 | a delete event of this conversation marks the message; others change nothing |
| DirectMessages.DirectMessagesHook.HandleDmDeleteError | client/src/hooks/messages/useDirectMessages.js:153-164 | the hook's new state is the delete error's update of its old state |
| DirectMessages.FetchDropsDeleted | client/src/hooks/messages/useDirectMessages.js:22-55 | a fetched history shows exactly its messages not deleted, in their order, with no error and loading over |
| DirectMessages.MarkDeletedSpec | client/src/hooks/messages/useDirectMessages.js:77-83 | each message with the id becomes deleted and shows "This message was deleted.", every other message is untouched, and marking twice is marking once |
| DirectMessages.ConversationFilter | client/src/hooks/messages/useDirectMessages.js:90-118 | an incoming message with a new id is appended exactly when it is from or to the other user and not deleted; a sent one exactly when it is to the other user and not deleted |
| DirectMessages.ConversationChangedSpec | client/src/hooks/messages/useDirectMessages.js:180-205 | with a connected socket the list stays and loading shows; without one the list is the HTTP result at once, or its error is shown; without another user the list is emptied |
| DirectMessages.FallbackAfterHistory | client/src/hooks/messages/useDirectMessages.js:98-111 | after this conversation's socket history the fallback timer changes nothing |
| DirectMessages.HistorySpec | client/src/hooks/messages/useDirectMessages.js:98-111 | a history for another conversation is ignored; one for this conversation replaces the list as sent, deleted messages included |
| DirectMessages.DeleteErrorSpec | client/src/hooks/messages/useDirectMessages.js:153-164 | an error saying "already deleted" or "not found" marks the message instead of showing an error; any other is shown as "Failed to delete direct message: …" and the list is kept |
| DirectMessages.ServerNotFoundMarksDeleted | client/src/hooks/messages/useDirectMessages.js:156-162 | the server's "Direct message not found" marks the message deleted, while its ownership error is shown |
| SocketEvents.JoinOnSetup | client/src/hooks/sockets/useSocketEvents.js:25-44 | a `user_join` is emitted exactly when socket, user and active channel are all present and the socket is connected, and it carries the user's name, id and the active channel |
| SocketEvents.SocketEventsHook.constructor | client/src/hooks/sockets/useSocketEvents.js:13-21 | the hook starts with no users, nobody typing, no notification and nothing passed on |
| SocketEvents.SocketEventsHook.HandleMessage | client/src/hooks/sockets/useSocketEvents.js:66-77 | the hook's new state is the message handler's update of its old state |
| SocketEvents.SocketEventsHook.HandleNotification | client/src/hooks/sockets/useSocketEvents.js:88-110 | the hook's new state is the notification handler's update of its old state |
| SocketEvents.SocketEventsHook.HandleUsersList | client/src/hooks/sockets/useSocketEvents.js:113-115 | the hook's new state is the users-list handler's update of its old state |
| SocketEvents.SocketEventsHook.HandleUserTyping | client/src/hooks/sockets/useSocketEvents.js:118-130 | the hook's new state is the typing handler's update of its old state |
| SocketEvents.TypingSpec | client/src/hooks/sockets/useSocketEvents.js:118-130 | for the active channel the name is in the typing set exactly when the event says typing, and no other name changes; another channel's event changes nothing |
| SocketEvents.StartThenStop | client/src/hooks/sockets/useSocketEvents.js:118-130 | a stop after a start restores the set for a name that was not typing |
| SocketEvents.MessageSpec | client/src/hooks/sockets/useSocketEvents.js:66-77 | a message of the active channel is passed on to the list, any other changes nothing |
| SocketEvents.NotificationSpec | client/src/hooks/sockets/useSocketEvents.js:88-110 | a notification changes the state exactly when it is from someone else about another channel (and differs from the one shown), and then it is the one shown |
| SocketEvents.UsersListReplaces | client/src/hooks/sockets/useSocketEvents.js:113-115 | the users list is replaced wholesale: a later list overrides an earlier one |
| MessageInput.TargetOf | client/src/hooks/messages/useMessageInput.js:28-38 | an open conversation wins over the active channel; with neither the box sends nowhere |
| MessageInput.MessageInputHook.constructor | client/src/hooks/messages/useMessageInput.js:11-16 | the box starts empty, with no timer armed and nothing emitted |
| MessageInput.MessageInputHook.EmitTyping | client/src/hooks/messages/useMessageInput.js:49-53 | the typing event of the current target, if any, is added to the socket's log and nothing else changes |
| MessageInput.MessageInputHook.HandleSendMessage | client/src/hooks/messages/useMessageInput.js:23-54 | the hook's new state is the send's update of its old state |
| MessageInput.MessageInputHook.HandleInputChange | client/src/hooks/messages/useMessageInput.js:61-88 | the hook's new state is the keystroke's update of its old state |
| MessageInput.MessageInputHook.FireTypingTimer | client/src/hooks/messages/useMessageInput.js:81-87 | the hook's new state is the timer's update of its old state |
| MessageInput.BlankSendsNothing | client/src/hooks/messages/useMessageInput.js:25 | blank text, or no socket, emits nothing and leaves the box as it is |
| MessageInput.SendSpec | client/src/hooks/messages/useMessageInput.js:23-54 | a send emits the trimmed text as a direct message when a conversation is open, else to the active channel, then the matching `typing_stop`; the box is cleared and the timer disarmed |
| MessageInput.InputChangeSpec | client/src/hooks/messages/useMessageInput.js:61-88 | a keystroke keeps the text, emits `typing_start` for the current target and arms the stop timer |
| MessageInput.NoStopAfterSend | client/src/hooks/messages/useMessageInput.js:43-46 | after a send the cleared timer emits no second `typing_stop` |
| MessageInput.TypingGoesToCurrentChannel | client/src/hooks/messages/useMessageInput.js:50-52 | only `send_message` payloads carry a `channel` field and the typing payloads do not, so the server announces every typing event in the sender's current channel, even a direct conversation's |
| ActiveChannel.Lookup | client/src/hooks/channels/useActiveChannel.js:14-17 | with no selection there is no active channel; an active channel is in the list and has the selected id |
| ActiveChannel.LookupSpec | client/src/hooks/channels/useActiveChannel.js:14-17 | the lookup is empty exactly when no channel has the id, and otherwise gives the first channel that has it |
| ActiveChannel.SelectsGeneral | client/src/hooks/channels/useActiveChannel.js:22-28 | with nothing selected, the id of the first channel named "general" in list order is selected, as `find` picks it |
| ActiveChannel.SelectsFirst | client/src/hooks/channels/useActiveChannel.js:22-35 | with nothing selected and no "general" channel, the first channel's id is selected |
| ActiveChannel.KeepsSelection | client/src/hooks/channels/useActiveChannel.js:22 | an existing selection is never overridden, and an empty list selects nothing |
| ActiveChannel.SelectionResolves | client/src/hooks/channels/useActiveChannel.js:14-38 | the channel the effect picks is found by the lookup, and a non-empty pick is kept when the effect runs again |
| ActiveDm.ActiveDmUser | client/src/hooks/messages/useActiveDirectMessage.js:15-21 | the conversation's user is a connected user with the open conversation's id that is not the current user; there is none exactly when no connected user qualifies |
| ActiveDm.FirstMatch | client/src/hooks/messages/useActiveDirectMessage.js:17-19 | the result is the first qualifying user in list order |
| ActiveDm.SelfOrNoneIsNull | client/src/hooks/messages/useActiveDirectMessage.js:18 | a conversation with oneself, or no open conversation, shows nobody |
| DmContacts.DmContactsHook.constructor | client/src/hooks/messages/useDMContacts.js:6-9 | the hook starts with no contacts, loading, and no error |
| DmContacts.DmContactsHook.HandleFetched | client/src/hooks/messages/useDMContacts.js:11-36 | the hook's new state is the settled request's update of its old state |
| DmContacts.DmContactsHook.AddContact | client/src/hooks/messages/useDMContacts.js:43-60 | the loop finds the contact's index, and the new list is the move-to-front or prepend of the old one; nothing else changes |
| DmContacts.MovesExistingToFront | client/src/hooks/messages/useDMContacts.js:45-51 | a contact already listed moves to the front with its own fields and the new time, the list keeps its length, and the others keep their relative order |
| DmContacts.PrependsNew | client/src/hooks/messages/useDMContacts.js:52-57 | a new contact goes to the front with the new time, followed by the previous list |
| DmContacts.AddKeepsIdsUnique | client/src/hooks/messages/useDMContacts.js:43-60 | on a list without duplicate ids, adding keeps ids unique and leaves the added id at the front only |

## Left out

- Socket.io itself is not modelled: rooms are a map from socket id to joined rooms, and emits are appended to a log. A socket's automatic leave on disconnect, and the nested `disconnect` that `existingSocket.disconnect(true)` triggers during eviction, are not modelled.
- Concurrency is not modelled. Each handler runs to completion as one step, so await interleavings between handlers on different sockets are out of scope.
- Clock values (`new Date()`, ISO strings, `sessionDuration`) are parameters. Timestamps are left out of emitted payloads.
- Timers are not scheduled. The body of each timeout is a separate operation: the typing stop, the 1-second deleting-set expiry, the 2-second DM fallback. The typing stop's captured `user` object is a parameter that says whether it is still the stored record or a detached copy; which case arises depends on what ran in between, which the model does not track.
- `generateMessageId` uses `Date.now`/`Math.random`. The id it produces is a parameter.
- Unicode: `trim`, `toUpperCase`, `toLowerCase` and `\w` are modelled over ASCII only, and string order is code-unit lexicographic. Lengths and cuts count characters (Unicode scalar values), where JavaScript's `.length` and `substring` count UTF-16 code units: the 2000-character text limit (`sendMessage.js:27`, `sendDirectMessage.js:21`, `socketUtils.js:58`), the 50 and 100 limits of `validateUserData` and `validateChannelData`, the 100 and 255 limits of `routes/user.js:78-82`, the 50-character preview (`sendMessage.js:147-148`, `app.js:266`) and the two initials of `chatUtils.js:21` agree with the program only for text inside the Basic Multilingual Plane. For example, 1001 copies of U+1F600 are 2002 code units, which the program rejects as too long and the model accepts as 1001 characters. A cut through a surrogate pair has no counterpart, since a Dafny `char` cannot hold a lone surrogate.
- `parseInt` on the history `limit` query is not modelled. The limit arrives already parsed, as an optional natural number.
- Payload fields the handlers do not branch on are not modelled. These include `notificationType` constants, `isSystem`, `edited`, `reactions` and timestamps. Payloads missing fields other than the ones modelled as optional are out of scope.
- Persistence: the Prisma store is tables in creation order. Cascading deletes follow the schema, and the schema itself is not part of this model. A store call fails in the model only where the tables make it fail: an update of a missing user row (`user_join`, `disconnect`, `status_update`) and a create whose referenced rows are missing (`send_message`, `send_direct_message`). The history queries of `user_join` and `join_channel` fail through a parameter. Failures of the database itself (lost connection, timeouts) are left out, and with them these caught paths:
- DeleteMessage.Delete: the `prisma.message.update` of `deleteMessage.js:54-60` always succeeds, so its failure caught at `deleteMessage.js:77-85` is not modelled.
- DeleteDirectMessage.DeleteDm: the update of `deleteDirectMessage.js:37-43` always succeeds, so its failure caught at `deleteDirectMessage.js:63` is not modelled.
- SendMessage.HandleSendMessage: the `findUnique` lookups at `sendMessage.js:32` and `sendMessage.js:65` always answer from the tables, so their failure caught at `sendMessage.js:182` is not modelled.
- The other lookups (`findUnique` in `joinChannel.js`, `deleteMessage.js`, `deleteDirectMessage.js` and `sendDirectMessage.js`, and the history `findMany` of `sendDirectMessage.js:134`) always answer from the tables as well.
- In `app.js`, only the store write of a message is modelled as able to fail. The notification member query is assumed to succeed.
- The 500 answers of `GET /me`, `GET /channels` and the history route come from exceptions thrown by the store, which do not happen in the model.
- Logging (`console.log`, `console.error`) is not modelled.
- EmitError: the `additionalData` argument (default `{}`) that `socketUtils.js:103-112` spreads into the payload is not modelled; no handler passes one.
- ChannelMessages.OnDeleted: compares the event's `channelId` with the hook's channel as options, so a missing `channelId` matches a missing channel, where JavaScript's `undefined === null` is false; the server always sends `channelId`.
- `getUniqueUsers` is passed into the handler modules by code that is not part of this model. It is modelled after the same function in `app.js`.
- React state: each setter takes effect at once, and updater functions are applied to the latest state. Batching, re-renders and stale closures are not modelled.
- The hooks' HTTP requests are results passed in, already settled. The message `Error <status>` (or `HTTP <status>: …`) that a failed response turns into is part of that parameter.
- `formatTimestamp` depends on the locale and is left out of the displayed message.
- `SocketEvents`: the `onConnect` re-emit of `user_join` after a reconnect, `onChannelJoined` and `onDisconnect` only log or repeat the setup emit, and are not modelled.
- Middleware, authentication, the Redis adapter and the server bootstrap are not part of this model.

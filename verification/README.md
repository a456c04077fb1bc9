# Chat backend: the channel and message state machine

A Dafny model of the server side of a chat application: channels (direct chats and groups), messages,
read receipts, invites, the upload file filter and the push-subscription registry. Every Socket.IO
handler and HTTP controller of the message and channel core is modelled as one atomic, pure transition
over an abstract store:

- `Store.State`: the User collection (id to display name), the Channel and Message collections keyed by
  id, the MessageReadReceipt collection keyed by its unique `(messageId, userId)` index, and `nextId`,
  the next id the store hands out (ObjectIds in insertion order).
- `Store.Outcome`: a handler either finishes (`Done`: new store, emitted events, reply), refuses before
  writing anything (`Rejected`: the HTTP status and error text, or the socket error text), or throws
  after some of its writes were committed (`Aborted`: those writes and the events already sent stay).
  When the handler's own error path throws as well, the error is `NoReply`: the client gets no answer.
- `Store.Event`: one `(room, event)` pair per Socket.IO emit. The room is a channel room or a user's
  private room. Payloads are reduced to the ids they name and the per-recipient `unreadCount`.

Modules follow the source: `MessageSchema`, `ChannelSchema` and `ReceiptSchema` hold the Mongoose
schemas, with defaults, enums and validation. `Store` holds the store and its queries (`findOne` with
a sort, the unread recount). `MessageOps` holds send, forward, mark-seen, delete, edit and fetch,
over both transports. `ChannelOps` holds create, list, update and leave. `Invites`, `Upload` and
`Notifications` hold the three smaller pieces. `Invariants` proves what holds across every handler
and across any sequence of requests. `Base`, `Text` and `Ordering` are shared helpers: sequences
without duplicates, JavaScript `trim`, and a stable insertion sort.

Conventions of the model:

- Ids are natural numbers.
- `findOne` returns the matching document with the smallest id, which is the natural order.
- Sorts break ties by id.
- Times are integer milliseconds, and the clock is a parameter `now`.
- The socket send path stores the client's `timestamp` as `createdAt`.
- Random invite tokens are parameters.
- Channel-room emits from the HTTP controllers are absent (`Store.ChannelEcho`). Those controllers name
  the room by the message's stored `channelId`, an ObjectId (backend/src/controllers/message.controller.js:248,
  :324, :427). Sockets join the room of the string id (backend/src/services/socketio.service.js:74), and
  Socket.IO 4 looks rooms up by value, so on a single server such an emit reaches no socket. The socket
  handlers name the room by the client's string id, and their channel-room emits are kept.

## Model

| member | source | states |
|---|---|---|
| `MessageSchema.CheckAttachment` | backend/src/models/Message.js:22-43 | an attachment passes exactly when its id, name and url are non-empty and its kind is `image` or `file`; the stored attachment keeps them and the optional size |
| `MessageSchema.CheckAttachments` | backend/src/models/Message.js:22-43 | an attachment list passes `save()` validation exactly when every entry passes the single-attachment schema check; the stored list holds the checked entries, one for one, in order |
| `MessageSchema.NewMessage` | backend/src/models/Message.js:44-63 | a new message defaults to status `sent`, no reply or forward link, not edited |
| `MessageSchema.SummaryText` | backend/src/services/socketio.service.js:135 | the channel summary of a message is its text, else `[Attachment]` when it carries attachments, else empty |
| `ChannelSchema.NewChannel` | backend/src/models/Channel.js:14-20 | a new channel starts with empty `deletedAt` and `unreadCounts` maps, an empty summary, and both times at creation |
| `ChannelSchema.BumpCounts` | backend/src/services/socketio.service.js:139-144 | with distinct members, each member but the skipped one gains exactly one unread message, and no other count moves |
| `ChannelSchema.AfterPost` | backend/src/controllers/message.controller.js:51-60 | after a post the sender's unread count is 0 and every other member's rises by exactly one; members, soft-deletes, name and kind stay |
| `ReceiptSchema.UniquePerPair` | backend/src/models/MessageReadReceipt.js:22 | two receipts for the same message and user are the same document |
| `ReceiptSchema.Upsert` | backend/src/services/socketio.service.js:222-226 | the upsert leaves exactly one receipt for the pair, stamped now; every other receipt is kept, and the collection grows by one only for a new pair |
| `Store.Newest` | backend/src/controllers/message.controller.js:308-310 | the newest message of a channel (optionally, visible to a viewer) is in scope and at least as new as every other in-scope message; none exists exactly when nothing is in scope |
| `Store.CountUnreadIsCardinality` | backend/src/services/socketio.service.js:242-252 | the recount equals the number of channel messages not written by the user that the user holds no receipt for |
| `Store.FindChannel` | backend/src/controllers/channels.controller.js:38-41 | `findOne` returns the first matching channel, and none exactly when no channel matches |
| `Store.FoundAll` | backend/src/controllers/channels.controller.js:16-19 | `validUsers.length === users.length` holds exactly when the list names only known users, each once |
| `MessageOps.Post` | backend/src/services/socketio.service.js:119-187 | a post stores the message under a fresh id and leaves every other message and channel alone; it emits `receiveMessage` to the channel and one `channelUpdated` per member carrying that member's own count |
| `MessageOps.Deliver` | backend/src/services/socketio.service.js:100-145 | the send fails, writing nothing, when the sender has no user record or an attachment fails validation; otherwise the message is visible to exactly the channel's members at send time |
| `MessageOps.SendSocket` | backend/src/services/socketio.service.js:92-195 | a non-member, or a `replyTo` that is missing or belongs to another channel, is refused with nothing written; a sent message is created at the client's timestamp and follows the posting rule |
| `MessageOps.SendHttp` | backend/src/controllers/message.controller.js:7-109 | 403 for a non-member and 400 for a foreign or missing `replyTo`, with nothing written; otherwise the message is created at the server clock, keeps a `forwardedFrom` as given, and follows the posting rule |
| `MessageOps.ForwardWith` | backend/src/services/socketio.service.js:362-472 | a forward succeeds exactly when the message exists and the user is an active member of both the source and the target channel; the copy keeps text and attachments, points back to the source, and updates the target like a send |
| `MessageOps.Forward` | backend/src/services/socketio.service.js:400-413 | as written, the forwarded copy is visible to nobody |
| `MessageOps.ForwardVisible` | backend/src/services/socketio.service.js:400-413 | corrected: the copy is visible to the target channel's members |
| `MessageOps.RecordSeen` | backend/src/services/socketio.service.js:222-256 | one receipt is upserted; the message turns `seen` exactly when it was already seen or every member but the author holds a receipt, so `sent` is never written back; the requester's count becomes the recount and no one else's moves; `messageSeen` reaches the channel room only from the socket handler, and each member is sent their own count; a system message throws after the upsert, with nothing emitted |
| `MessageOps.MarkSeenSocket` | backend/src/services/socketio.service.js:206-219 | a non-member of the named channel, or an unknown message, is refused; the message is never compared with the named channel |
| `MessageOps.MarkSeenSocketChecked` | backend/src/services/socketio.service.js:206-219 | corrected: a message is only marked through its own channel |
| `MessageOps.MarkSeenHttpWith` | backend/src/controllers/message.controller.js:192-280 | 404 for an unknown message, 403 for a non-member of its channel, else the shared rule on the message's own channel; the request throws exactly when the message is a system message, keeping the upserted receipt, and is then answered with the 500 only when the catch block can reply |
| `MessageOps.MarkSeenHttp` | backend/src/controllers/message.controller.js:192-280 | as written: 404 for an unknown message and 403 for a non-member of its channel; otherwise the shared mark-seen rule on the message's own channel; when that rule throws, on a system message, the receipt stays written and no reply is sent at all |
| `MessageOps.MarkSeenHttpReplying` | backend/src/controllers/message.controller.js:272-279 | corrected: the same request, with a throw answered by the 500 "Failed to mark message seen" |
| `MessageOps.MarkSeenIdempotent` | backend/src/services/socketio.service.js:206-256 | repeating a completed socket mark-seen, at any later time, also completes and only re-stamps the receipt: the receipt keys, messages, statuses, unread counts and events are those of the first call |
| `MessageOps.MarkSeenHttpIdempotent` | backend/src/controllers/message.controller.js:192-271 | the same over HTTP: a repeated request that completed once completes again and only re-stamps the receipt |
| `MessageOps.RecordSeenRepeat` | backend/src/services/socketio.service.js:222-256 | the shared rule applied again to its own result, at any time, writes back the same messages, statuses and counts, sends the same events, and changes only the receipt's `seenAt` |
| `MessageOps.MarkSeenRecount` | backend/src/services/socketio.service.js:242-255 | after mark-seen the user's count is the number of unread channel messages, and the message just marked is not one of them |
| `MessageOps.MarkSeenWrongChannel` | backend/src/services/socketio.service.js:209-240 | a concrete store in which socket mark-seen turns a message of another channel `seen` while a member of that channel has no receipt |
| `MessageOps.MarkSeenCheckedSound` | backend/src/services/socketio.service.js:228-240 | with the channel check, a message turns `seen` exactly when every member of its own channel but the author holds a receipt |
| `MessageOps.RemoveAndResummarize` | backend/src/controllers/message.controller.js:305-320 | the message is removed and the summary is re-derived from the newest remaining message, or cleared with no sender when none is left; members, counts and soft-deletes stay; `messageDeleted` reaches the channel room only from the socket handler, and each member is sent their own count |
| `MessageOps.DeleteMessageSocket` | backend/src/services/socketio.service.js:291-360 | the delete goes ahead exactly when the requester belongs to the named channel and wrote the message |
| `MessageOps.DeleteMessageHttp` | backend/src/controllers/message.controller.js:282-351 | 404 for an unknown message, 403 for another author's; the delete goes ahead exactly when the requester wrote it and belongs to its channel |
| `MessageOps.SummaryIsNewest` | backend/src/controllers/message.controller.js:308-319 | a re-derived summary is at least as new as every message of the channel, and names no sender exactly when the channel has no messages |
| `MessageOps.DeleteShowsNewestLeft` | backend/src/controllers/message.controller.js:305-319 | after an HTTP delete the message is gone and the summary shows the newest message left |
| `MessageOps.ApplyEdit` | backend/src/services/socketio.service.js:536-581 | the text is replaced and marked edited; the summary changes only when the edited message is the channel's newest; `messageUpdated` reaches the channel room only from the socket handler, and each member is sent their own count; a channel with no messages throws after the message was saved; formatting from the unpopulated message, an edit of a reply throws after both saves with nothing emitted |
| `MessageOps.EditSocketWith` | backend/src/services/socketio.service.js:505-534 | the edit goes ahead exactly when the requester belongs to the named channel, wrote the message, and at most five minutes have passed (exactly five is allowed) |
| `MessageOps.EditHttpWith` | backend/src/controllers/message.controller.js:353-375 | 404, then 403 for another author, then 403 after the five-minute window; the edit goes ahead exactly when the requester wrote the message within the window |
| `MessageOps.EditSocket` | backend/src/services/socketio.service.js:505-612 | as written: an edit completes only for a message that is not a reply; an edit of a reply that passes every check commits the same writes as the corrected handler, then calls back "Failed to edit message" and emits nothing; any other edit is the corrected handler's |
| `MessageOps.EditHttp` | backend/src/controllers/message.controller.js:353-454 | as written: an edit completes only for a message that is not a reply; an edit of a reply that passes every check commits the same writes as the corrected handler, then answers 500 "Failed to edit message" and emits nothing; any other edit is the corrected handler's |
| `MessageOps.EditSocketPopulated` | backend/src/services/socketio.service.js:553-555 | corrected: formatting from the populated copy, an edit that passes the checks completes exactly when the named channel exists and has a message |
| `MessageOps.EditHttpPopulated` | backend/src/controllers/message.controller.js:395-397 | corrected: formatting from the populated copy, an edit that passes the checks completes exactly when the message's channel exists and has a message |
| `MessageOps.EditKeepsNewest` | backend/src/controllers/message.controller.js:385-388 | an edit leaves the newest message of every channel unchanged |
| `MessageOps.EditRefreshesNewestOnly` | backend/src/controllers/message.controller.js:378-392 | an HTTP edit that passes the checks rewrites the text and refreshes the summary exactly when the message is the channel's newest, whether or not formatting the reply throws afterwards |
| `MessageOps.EditOfReplyFails` | backend/src/services/socketio.service.js:569-577 | as written, an in-window edit of a reply by its author stores the new text but never completes, over either transport: the socket gets the error callback, HTTP gets a 500, and no event is sent |
| `MessageOps.EditOfReplyCompletes` | backend/src/controllers/message.controller.js:395-419 | corrected, the same edit completes: over HTTP it tells every member of the channel, and over the socket it also sends `messageUpdated` to the channel room |
| `MessageOps.Chronological` | backend/src/controllers/message.controller.js:121-128 | the fetched ids are exactly the channel's messages visible to the requester, oldest first |
| `MessageOps.FetchWith` | backend/src/controllers/message.controller.js:111-190 | 403 for a non-member; a member's fetch fails with a 500 exactly when the reads are not null-safe and a visible message is a system message, has an author without a user record, or replies to a stored system message; a reply lists the visible messages in order, each with `seenBy` drawn only from the requester's own receipt; the requester's count becomes 0, they alone are sent the channel, and nothing else changes |
| `MessageOps.FetchMessages` | backend/src/controllers/message.controller.js:111-190 | as written: 403 for a non-member; a member's fetch succeeds exactly when every message they can see has a sender and an author with a user record and does not reply to a stored system message, and otherwise fails with a 500 and nothing written; a successful fetch is the null-safe one |
| `MessageOps.FetchMessagesNullSafe` | backend/src/controllers/message.controller.js:132-160 | corrected, reading the sender, the author and the replied-to sender only when present: a fetch succeeds exactly when the requester is a member, and lists exactly the visible messages, oldest first |
| `MessageOps.SystemMessageBlocksFetch` | backend/src/controllers/message.controller.js:144 | as written, one system message a member can see makes every fetch of that channel by that member a 500, while the null-safe fetch succeeds |
| `MessageOps.ReplyToSystemBlocksFetch` | backend/src/controllers/message.controller.js:145-154 | as written, one message a member can see that replies to a stored system message makes every fetch of that channel by that member a 500, although the reply has an author; the null-safe fetch succeeds |
| `MessageOps.InReply` | backend/src/controllers/message.controller.js:121-160 | a message the requester's query selects is in the reply of the null-safe fetch, which succeeds, and in the reply of the fetch as written whenever that succeeds |
| `MessageOps.SentIsFetchable` | backend/src/services/socketio.service.js:119-133 | every member at send time finds the sent message in the null-safe fetch, which always succeeds for them, and in the fetch as written whenever that succeeds |
| `MessageOps.ForwardedIsInvisible` | backend/src/controllers/message.controller.js:121-124 | as written, no successful fetch, as written or null-safe, by anyone, contains a forwarded copy |
| `MessageOps.ForwardVisibleIsFetchable` | backend/src/controllers/message.controller.js:121-124 | corrected: every member of the target channel finds the forwarded copy in the null-safe fetch, which always succeeds for them, and in the fetch as written whenever that succeeds |
| `ChannelOps.Hide` | backend/src/controllers/channels.controller.js:316-319 | the requester is removed from the audience of exactly the channel's messages; no message is added or dropped |
| `ChannelOps.AnnounceUnread` | backend/src/controllers/channels.controller.js:252-257 | each announced user raises every member's count by one, except the requester's; nobody else's count moves |
| `ChannelOps.AnnounceIds` | backend/src/controllers/channels.controller.js:261-269 | the announcements take one fresh id per known listed user and keep every stored message |
| `ChannelOps.AnnounceContent` | backend/src/controllers/channels.controller.js:233-241 | the message under the i-th fresh id is a system message naming the i-th known listed user, visible to the channel's members |
| `ChannelOps.AnnounceEvents` | backend/src/controllers/channels.controller.js:243-251 | the events are exactly one `receiveMessage` to the channel room per known listed user, numbered consecutively from the first fresh id |
| `ChannelOps.SortPair` | backend/src/controllers/channels.controller.js:33 | the pair is sorted and keeps its members |
| `ChannelOps.Reactivate` | backend/src/controllers/channels.controller.js:43-98 | an existing direct chat the requester still has is returned untouched, or refused with a 500 exactly when one of its members has no user record; otherwise the requester's soft-delete is removed, the summary is reset, their count is zeroed, and only their copies of the old messages are hidden; it never throws after a write |
| `ChannelOps.OpenDirect` | backend/src/controllers/channels.controller.js:33-99 | the first direct chat holding exactly the two users is reused; only when none exists is a new one opened, with sorted members and no token |
| `ChannelOps.CreateDirect` | backend/src/controllers/channels.controller.js:28-31 | a direct chat is refused exactly when the requested users plus the requester are not exactly two, so a chat with oneself is refused; otherwise its members are exactly those two |
| `ChannelOps.CreateGroup` | backend/src/controllers/channels.controller.js:100-106 | a group is refused exactly when its trimmed name is empty; otherwise it stores the trimmed name, the deduplicated users plus the requester, and the fresh token |
| `ChannelOps.CreateChannel` | backend/src/controllers/channels.controller.js:7-141 | 400 without a type or a users array, 400 when a listed user is unknown or listed twice; an accepted request never throws after a write, and a 500 is possible only for a direct chat whose requester has no user record; a created channel has the requester as an active member and every listed user as a member, each once |
| `ChannelOps.ListOrder` | backend/src/controllers/channels.controller.js:147-156 | the listed channels are exactly those the requester belongs to and has not deleted, most recently active first |
| `ChannelOps.View` | backend/src/controllers/channels.controller.js:160-187 | a row shows the newest message the requester can still see, or an empty summary at the channel's creation time, and the requester's own count |
| `ChannelOps.DisplayName` | backend/src/controllers/channels.controller.js:174-176 | a direct chat is named after its other member, falling back to "Direct Chat"; a group shows its own name |
| `ChannelOps.ListedIffActive` | backend/src/controllers/channels.controller.js:147-153 | a channel is listed exactly when the requester is an active member of it |
| `ChannelOps.NewMembers` | backend/src/controllers/channels.controller.js:212-213 | the new member list is the given list without duplicates, else the old one |
| `ChannelOps.UpdateChannelWith` | backend/src/controllers/channels.controller.js:201-230 | 404 for a non-member and 400 for an unknown listed user; an accepted update never throws, given system messages are stored (see "## Left out") |
| `ChannelOps.UpdateEffects` | backend/src/controllers/channels.controller.js:222-269 | the update writes the new members and trimmed name and stamps both times; every member but the requester gains one unread per announced join or leave; no other channel changes |
| `ChannelOps.UpdateMessageIds` | backend/src/controllers/channels.controller.js:261-269 | one fresh message per known added or removed user; stored messages stay |
| `ChannelOps.UpdateMessageContent` | backend/src/controllers/channels.controller.js:232-241 | every message the update adds is a system message of the channel, visible to its new members |
| `ChannelOps.UpdateClosing` | backend/src/controllers/channels.controller.js:271-295 | the update closes with one `channelUpdated` per member, in member order, carrying either each member's own count or the requester's count for everyone |
| `ChannelOps.UpdateChannel` | backend/src/controllers/channels.controller.js:288 | as written, every closing `channelUpdated` carries the requester's unread count |
| `ChannelOps.UpdateChannelPerUser` | backend/src/controllers/channels.controller.js:293-295 | corrected: each member's closing `channelUpdated` carries that member's own count |
| `ChannelOps.Left` | backend/src/controllers/channels.controller.js:321-328 | after leaving, the requester is still listed but no longer active; the summary is reset to the channel's creation and only the requester's count is zeroed |
| `ChannelOps.LeaveWrites` | backend/src/controllers/channels.controller.js:313-337 | the channel is deleted together with its messages exactly when every member has left it; otherwise it is saved with the requester's copies hidden; receipts are kept |
| `ChannelOps.AnnounceLeave` | backend/src/controllers/channels.controller.js:343-365 | one "left the group" system message is added; every other member's count rises by exactly one, and each remaining member is told their own count |
| `ChannelOps.LeaveWith` | backend/src/services/socketio.service.js:614-679 | a non-member is refused; otherwise the requester is told the channel is gone; the leave throws exactly when a group survives and its departure cannot be announced; the reply says whether the channel was deleted for everyone |
| `ChannelOps.DeleteChannel` | backend/src/controllers/channels.controller.js:303-375 | as written, a leave only completes when it is not from a surviving group |
| `ChannelOps.DeleteChat` | backend/src/services/socketio.service.js:614-679 | as written, a leave only completes when it is not from a surviving group |
| `ChannelOps.LeaveAnnounced` | backend/src/services/socketio.service.js:649-671 | corrected: a member with a user record always completes a leave |
| `ChannelOps.PurgedIffOthersLeft` | backend/src/services/socketio.service.js:637-644 | the channel is deleted for everyone exactly when every other member had already left it |
| `ChannelOps.LeaveHidesChannel` | backend/src/services/socketio.service.js:625-635 | after any leave the channel is gone from the requester's list and none of its earlier messages is visible to the requester |
| `ChannelOps.GroupLeaveFails` | backend/src/services/socketio.service.js:649-652 | as written, leaving a group another member still has always throws, after the channel was saved and the requester told it is gone |
| `ChannelOps.GroupLeaveAnnounced` | backend/src/controllers/channels.controller.js:343-365 | corrected: such a leave completes, adds one system message for the members, and raises every other member's count by exactly one |
| `Invites.GenerateInviteLink` | backend/src/controllers/invite.controller.js:4-23 | 404 exactly for an unknown channel; an existing token is kept, and a new one is stored only when none is set |
| `Invites.GenerateIdempotent` | backend/src/controllers/invite.controller.js:11-14 | asking for the link again yields the same token and changes nothing |
| `Invites.RegenerateInviteLink` | backend/src/controllers/invite.controller.js:25-42 | 404 exactly for an unknown channel; the token is always replaced and nothing else changes |
| `Invites.RegenerateRevokes` | backend/src/controllers/invite.controller.js:28-33 | after regeneration the old token no longer reaches the channel |
| `Invites.AcceptInvite` | backend/src/controllers/invite.controller.js:44-64 | 404 exactly when no channel holds the token; otherwise the first channel holding it gains the requester as a member, once, and nothing else changes |
| `Invites.AcceptIdempotent` | backend/src/controllers/invite.controller.js:54-57 | redeeming the same invite twice changes nothing the second time |
| `Invites.AcceptKeepsLeft` | backend/src/controllers/invite.controller.js:54-57 | redeeming an invite to a channel the requester left does not bring it back into their list |
| `Upload.Ext` | backend/src/config/upload.js:42 | the extension has a single leading dot and no further dot or slash |
| `Upload.ExtOfName` | backend/src/config/upload.js:42 | a name made of a stem, a dot and a dot-free tail has that tail as its extension, except the bare `..` |
| `Upload.FileFilter` | backend/src/config/upload.js:25-49 | a file is accepted exactly when its MIME type is on the allow-list or its extension is `.txt` or `.csv` in any letter case; otherwise it is refused with "File type not allowed" |
| `Upload.TextNamesPass` | backend/src/config/upload.js:42-43 | a `.txt` or `.csv` name in any letter case passes, whatever its MIME type |
| `Upload.DotfileIsNotText` | backend/src/config/upload.js:42-47 | a file named just `.txt` has no extension, so an unlisted type is refused |
| `Upload.Admit` | backend/src/config/upload.js:51-55 | an upload passes exactly when the filter accepts it and it is at most 10 MiB; a file of exactly the limit passes |
| `Notifications.AddSubscription` | backend/src/services/notification.service.js:11-14 | afterwards the user has exactly one entry, holding the new subscription and last in the list; every other user's entries are kept in order |
| `Notifications.AddKeepsOnePerUser` | backend/src/services/notification.service.js:12-13 | registering keeps at most one entry per user |
| `Notifications.LastRegistrationWins` | backend/src/services/notification.service.js:13 | registering twice is the same as registering the second subscription once |
| `Invariants.StepTrans` | backend/src/services/socketio.service.js:92-679 | two steps in a row form a step; a message id dropped in between cannot come back |
| `Invariants.RecordSeenStep` | backend/src/services/socketio.service.js:222-256 | mark-seen keeps the store valid, never removes a receipt, and never turns a `seen` message back to `sent` |
| `Invariants.OpenedStep` | backend/src/controllers/channels.controller.js:7-141 | channel creation keeps the store valid and only shrinks audiences |
| `Invariants.UpdateStepsStep` | backend/src/controllers/channels.controller.js:222-269 | the writes of an accepted update keep the store valid and only shrink audiences; its system messages take ids never used before |
| `Invariants.LeaveStep` | backend/src/controllers/channels.controller.js:303-375 | a leave, as written or announced, keeps the store valid: a purge takes the channel's messages with it |
| `Invariants.ApplyStep` | backend/src/services/socketio.service.js:92-679 | every request, with the handlers as written and with the corrected ones, whatever its outcome, keeps the store valid and only shrinks message audiences; it never un-sees a message or loses a receipt |
| `Invariants.RunStep` | backend/src/controllers/message.controller.js:7-454 | over any sequence of requests, with the handlers as written and with the corrected ones, the store stays valid, and a surviving message keeps its channel, author and creation time; its audience only shrinks and `seen` stays `seen`; new messages take ids never used before; receipts are never lost |

## Left out

- Networking: the Socket.IO server, the Redis adapter, the JWT handshake, `joinChat`, `leaveChat`, `typing` and `userNameUpdated` are not modelled. Fan-out is the returned list of room and event pairs.
- Payloads: `populate`, `toISOString` and the formatted message and channel objects are reduced to ids plus the per-recipient unread count. Response bodies such as "You have joined the channel" are not modelled.
- A socket failure is reported both through the callback and as an `error` emit. The model keeps one `SocketError` with the same text.
- Concurrency is not modelled. Each handler is one atomic step, including the read-modify-write of `unreadCounts` and the `Promise.all` recount.
- Time, randomness and external systems are parameters or left out:
  - The clock is the parameter `now`.
  - The random invite token and the token generator's hash are parameters.
  - The multer storage filename is left out.
  - Web-push delivery (`sendPushNotification`) is left out: it is asynchronous I/O.
- Casting: ObjectId cast errors for malformed ids are not modelled. Neither is a client `timestamp` that parses to an invalid date. Ids are natural numbers and times are integers.
- Schema enforcement:
  - Mongoose's `required` on a message's `user` (backend/src/models/Message.js:12) is not enforced: system messages are stored with no author, as the handlers intend. As written, `save()` of such a message (backend/src/controllers/channels.controller.js:232-241) fails validation, so an update that announces a join or a leave ends in the 500 "Internal server error" after the channel was saved, and no system message is ever stored. `ChannelOps.UpdateChannelWith`'s no-throw promise, the announcement members, and the Findings rows for message.controller.js:144 and :272-279 rest on this.
  - The automatic `timestamps` option is not modelled. Only the explicit `updatedAt` writes are.
  - The pre-save hook that creates `unreadCounts` is implicit: a missing count reads as 0.
- `Text.Lower`: only ASCII letters are lower-cased. `toLowerCase` on other scripts is not modelled, and it cannot turn any other character into the letters of `.txt` or `.csv`.
- `Upload.Admit`: multer counts bytes while streaming and stops at the limit. The model checks the final size after the filter.
- `ChannelOps.Reactivate`, `ChannelOps.LeaveWrites` and `ChannelOps.LeaveWith` treat `deletedAt` as a plain map from user to time. The schema declares it a Mongoose `Map` (backend/src/models/Channel.js:14), but the direct-chat reuse and both leave handlers read and write it with brackets (backend/src/controllers/channels.controller.js:44-45, :323, :330; backend/src/services/socketio.service.js:630, :637). On a Mongoose `Map` a bracket read yields `undefined`, and a bracket write sets a plain property that `save()` does not store. The model keeps the evident intent, so it does not promise what the code as written does: reuse always answers "Direct chat exists", and a leave never records the soft-delete.
- `MessageOps.ApplyEdit` stores `edited` and `updatedAt` on the message. Neither is a path of the Message schema (backend/src/models/Message.js:3-64), so in Mongoose's default strict mode `save()` drops both, and a later fetch does not show the edit flag. The in-memory `updatedAt` still sets the channel's `lastMessageTime`, as modelled.
- `Store.ChannelEcho` describes one server. The server runs behind the Redis adapter (backend/src/services/socketio.service.js:3, :45), which encodes the rooms of a broadcast for the other servers, and the encoding turns an ObjectId room into its hex string. Sockets on the other servers that joined the string id (:74) therefore do receive the HTTP channel-room emits of message.controller.js:248, :324 and :427. The model drops these emits, and deployments with several servers are not modelled.
- HTTP errors passed to `next(err)` become the error handler's 500 "Internal server error". The model uses that text without the handler's logging.
- The frontend, the auth, user and call controllers, and the route and configuration files are not part of this model.

## Findings

| source | as written | input that shows it | evidently intended | confidence | as-written member | corrected member |
|---|---|---|---|---|---|---|
| backend/src/services/socketio.service.js:209-240 | socket `markSeen` checks membership of the channel the client names and consults that channel's members, without checking that the message belongs to it | user 2, a member of channel 0 only, marks message 2 of channel 1 (members 1 and 3, author 1) through channel 0: the message turns `seen` although member 3 holds no receipt | the message must belong to the named channel, as the HTTP path derives it | not executed | `MessageOps.MarkSeenWrongChannel` | `MessageOps.MarkSeenCheckedSound` |
| backend/src/services/socketio.service.js:400-413 | `forwardMessage` builds the copy without `visibleTo`, so its audience is the schema default, empty | any successful forward: no user ever fetches the copy | the copy is visible to the target channel's members, as a sent message is | not executed | `MessageOps.ForwardedIsInvisible` | `MessageOps.ForwardVisibleIsFetchable` |
| backend/src/services/socketio.service.js:649-652 | socket `deleteChat` calls `postSystemMessage`, which is not in scope there, after the channel was saved and `channelDeleted` sent | a group with another active member: the leave always throws, and the remaining members are never told | announce the departure with a system message and send each remaining member their own count | not executed | `ChannelOps.GroupLeaveFails` | `ChannelOps.GroupLeaveAnnounced` |
| backend/src/controllers/channels.controller.js:343-346 | HTTP `deleteChannel` makes the same out-of-scope call, so leaving a surviving group ends in a 500 after the writes | the same group leave over HTTP | as for the socket handler | not executed | `ChannelOps.DeleteChannel` | `ChannelOps.LeaveAnnounced` |
| backend/src/controllers/message.controller.js:272-279 | the HTTP `markSeen` catch block logs `messageId` and `userId`, which are `const`s of the `try` block, so the catch block itself throws a `ReferenceError` | a member marks a system message of their group seen over HTTP: the receipt is written, the rule throws on the null author, and the request is never answered. Any other error inside the `try` block reaches the same catch. The stated input needs a stored system message, which the program as written cannot store (see "## Left out"). "Never answered" assumes Express 4 on a Node version that only warns on an unhandled rejection: under Express 5 the error handler answers 500 "Internal server error", and Express 4 on Node 15 or later exits the process | the 500 "Failed to mark message seen" | not executed | `MessageOps.MarkSeenHttp` | `MessageOps.MarkSeenHttpReplying` |
| backend/src/controllers/message.controller.js:136-149 | `fetchMessages` reads `message.sender.id` (:136), `message.user.toString()` (:144) and `message.replyTo.sender.id` (:149). A system message is stored without `sender` and with a null `user`, a deleted author populates to null, and a replied-to system message has no `sender`, so each read throws | no input of the program as written: it needs a stored system message, which Mongoose's `required` on `user` refuses (see "## Left out"), or a message whose author's user record is gone, and no handler here deletes users. In the model, where announcements are stored, a member of a group that has had a member added fetches its messages: the announcement is visible to them, so every fetch fails with a 500 (`MessageOps.SystemMessageBlocksFetch`). A member who joined later fails the same way once anyone replies to that announcement (`MessageOps.ReplyToSystemBlocksFetch`) | read the sender, the author and the replied-to sender only when each is there | not executed; not reachable as written | `MessageOps.SystemMessageBlocksFetch` | `MessageOps.FetchMessagesNullSafe` |
| backend/src/services/socketio.service.js:569-577 | socket `editMessage` formats the reply from `message`, loaded without `populate`, so for a reply `message.replyTo` is a bare id and `message.replyTo.sender.id` throws; the populated copy loaded at :553-555 is never used | user 1 sends message 0, then message 1 replying to it, and edits message 1 within five minutes: the text and summary are saved, the client is called back with "Failed to edit message", and no member is told of the edit | format the reply from the populated copy | not executed | `MessageOps.EditOfReplyFails` | `MessageOps.EditOfReplyCompletes` |
| backend/src/controllers/message.controller.js:411-419 | HTTP `editMessage` makes the same read on the unpopulated message | the same edit over HTTP: the writes are saved and the client gets a 500 | as for the socket handler | not executed | `MessageOps.EditHttp` | `MessageOps.EditHttpPopulated` |
| backend/src/controllers/channels.controller.js:288 | `updateChannel` builds one channel payload with the requester's `unreadCount` and sends it to every member | a rename-only update of a group in which another member has unread messages and the requester has none: that member is told a count of 0 | each member is told their own count, as every other handler does | not executed | `ChannelOps.UpdateChannel` | `ChannelOps.UpdateChannelPerUser` |

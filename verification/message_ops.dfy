/** The message handlers of the socket service and the HTTP message controller, each one atomic step. */
module MessageOps {
  import opened Base
  import opened MessageSchema
  import opened ChannelSchema
  import opened ReceiptSchema
  import opened Store
  import Ordering

  /** The edit window: five minutes, in milliseconds. */
  const EditWindow: int := 5 * 60 * 1000

  /** `(now - createdAt) / 1000 / 60 > 5`, compared in whole milliseconds. */
  predicate EditWindowExpired(createdAt: Time, now: Time) {
    now - createdAt > EditWindow
  }

  /** A `replyTo` must name a stored message of the same channel. */
  predicate ReplyOk(st: State, c: ChannelId, id: MsgId) {
    id in st.messages && st.messages[id].channelId == c
  }

  /** The store after message `id` was posted to channel `c` by `u`: the message is new and written by
      `u`, every other message and channel is untouched, and the channel's summary and unread counts
      follow the posting rule. */
  ghost predicate Posted(st: State, st': State, c: ChannelId, u: UserId, id: MsgId, summary: string, time: Time)
  {
    && c in st.channels && c in st'.channels
    && id == st.nextId && st'.nextId == st.nextId + 1
    && id in st'.messages && st'.messages[id].channelId == c && st'.messages[id].author == UserAuthored(u)
    && st'.messages[id].status == Sent && !st'.messages[id].edited
    && st'.messages.Keys == st.messages.Keys + {id}
    && (forall m :: m in st.messages && m != id ==> st'.messages[m] == st.messages[m])
    && st'.channels.Keys == st.channels.Keys
    && (forall d :: d in st.channels && d != c ==> st'.channels[d] == st.channels[d])
    && st'.receipts == st.receipts && st'.users == st.users
    && var ch, ch' := st.channels[c], st'.channels[c];
       && ch'.lastMessage == summary && ch'.lastMessageTime == time && ch'.lastMessageSenderId == Some(u)
       && Unread(ch', u) == 0
       && (NoDup(ch.users) ==> forall v :: v in ch.users && v != u ==> Unread(ch', v) == Unread(ch, v) + 1)
       && (forall v :: v !in ch.users && v != u ==> Unread(ch', v) == Unread(ch, v))
       && ch'.users == ch.users && ch'.deletedAt == ch.deletedAt
  }

  /** What a post broadcasts: `receiveMessage` to the channel room, then each member's `channelUpdated`. */
  ghost predicate PostEvents(st': State, c: ChannelId, id: MsgId, users: seq<UserId>, events: seq<Event>)
    requires c in st'.channels
  {
    && |events| == |users| + 1
    && events[0] == Event(ChannelRoom(c), ReceiveMessage(id))
    && forall i :: 0 <= i < |users| ==> events[i + 1] == Event(UserRoom(users[i]), ChannelUpdated(c, Unread(st'.channels[c], users[i])))
  }

  /** Writes message `m` under the next id into channel `c` and applies the posting rule to the channel. */
  function Post(st: State, c: ChannelId, u: UserId, m: Message, summary: string, time: Time): (r: Outcome<MsgId>)
    requires c in st.channels && m.channelId == c && m.author == UserAuthored(u) && m.status == Sent && !m.edited
    ensures r.Done? && Posted(st, r.st, c, u, r.reply, summary, time)
    ensures r.reply == st.nextId && r.st.messages[r.reply] == m
    ensures PostEvents(r.st, c, r.reply, st.channels[c].users, r.events)
  {
    var ch := st.channels[c];
    var id := st.nextId;
    var ch' := AfterPost(ch, u, summary, time);
    var st' := st.(messages := st.messages[id := m], channels := st.channels[c := ch'], nextId := id + 1);
    Done(st', [Event(ChannelRoom(c), ReceiveMessage(id))] + UpdatesFor(c, ch', ch.users), id)
  }

  /** The part of both send handlers after the membership and reply checks: the sender's user record is
      read for its name, the attachments are validated by `save()`, and the message is posted. */
  function Deliver(st: State, t: Transport, u: UserId, c: ChannelId, text: string, raw: seq<RawAttachment>,
                   replyTo: Option<MsgId>, forwardedFrom: Option<MsgId>, createdAt: Time, time: Time): (r: Outcome<MsgId>)
    requires c in st.channels
    ensures r.Rejected? <==> u !in st.users || CheckAttachments(raw).None?
    ensures r.Rejected? ==> r.error == Fail(t, 500, "Failed to send message")
    ensures !r.Aborted?
    ensures r.Done? ==> Posted(st, r.st, c, u, r.reply, SummaryText(text, |raw|), time)
    ensures r.Done? ==> PostEvents(r.st, c, r.reply, st.channels[c].users, r.events)
    ensures r.Done? ==> var m := r.st.messages[r.reply];
                        && m.text == text && m.createdAt == createdAt && m.visibleTo == st.channels[c].users
                        && m.replyTo == replyTo && m.forwardedFrom == forwardedFrom
                        && Some(m.attachments) == CheckAttachments(raw)
  {
    if u !in st.users then Rejected(Fail(t, 500, "Failed to send message"))
    else
      match CheckAttachments(raw)
      case None => Rejected(Fail(t, 500, "Failed to send message"))
      case Some(atts) =>
        var m := NewMessage(c, UserAuthored(u), text, atts, createdAt, st.channels[c].users)
                   .(replyTo := replyTo, forwardedFrom := forwardedFrom);
        Post(st, c, u, m, SummaryText(text, |raw|), time)
  }

  /** Socket `sendMessage`: the message's `createdAt` and the summary time are the client's timestamp. */
  function SendSocket(st: State, u: UserId, c: ChannelId, content: Option<string>, raw: seq<RawAttachment>,
                      replyTo: Option<MsgId>, timestamp: Time): (r: Outcome<MsgId>)
    ensures !(c in st.channels && IsMember(st.channels[c], u)) ==> r == Rejected(SocketError("Unauthorized or invalid channel"))
    ensures c in st.channels && IsMember(st.channels[c], u) && replyTo.Some? && !ReplyOk(st, c, replyTo.value)
            ==> r == Rejected(SocketError("Invalid replyTo message"))
    ensures !r.Aborted?
    ensures r.Done? ==> IsMember(st.channels[c], u) && (replyTo.Some? ==> ReplyOk(st, c, replyTo.value))
    ensures r.Done? ==> Posted(st, r.st, c, u, r.reply, SummaryText(BodyText(content), |raw|), timestamp)
    ensures r.Done? ==> PostEvents(r.st, c, r.reply, st.channels[c].users, r.events)
    ensures r.Done? ==> var m := r.st.messages[r.reply];
                        && m.text == BodyText(content) && m.createdAt == timestamp
                        && m.visibleTo == st.channels[c].users && m.replyTo == replyTo && m.forwardedFrom.None?
  {
    if !(c in st.channels && IsMember(st.channels[c], u)) then Rejected(SocketError("Unauthorized or invalid channel"))
    else if replyTo.Some? && !ReplyOk(st, c, replyTo.value) then Rejected(SocketError("Invalid replyTo message"))
    else Deliver(st, Socket, u, c, BodyText(content), raw, replyTo, None, timestamp, timestamp)
  }

  /** HTTP `sendMessage`: `createdAt` is the server clock, and a `forwardedFrom` id is stored as given. */
  function SendHttp(st: State, u: UserId, c: ChannelId, text: Option<string>, raw: seq<RawAttachment>,
                    replyTo: Option<MsgId>, forwardedFrom: Option<MsgId>, now: Time): (r: Outcome<MsgId>)
    ensures !(c in st.channels && IsMember(st.channels[c], u)) ==> r == Rejected(HttpError(403, "User not authorized for this channel"))
    ensures c in st.channels && IsMember(st.channels[c], u) && replyTo.Some? && !ReplyOk(st, c, replyTo.value)
            ==> r == Rejected(HttpError(400, "Invalid replyTo message"))
    ensures !r.Aborted?
    ensures r.Done? ==> IsMember(st.channels[c], u) && (replyTo.Some? ==> ReplyOk(st, c, replyTo.value))
    ensures r.Done? ==> Posted(st, r.st, c, u, r.reply, SummaryText(BodyText(text), |raw|), now)
    ensures r.Done? ==> PostEvents(r.st, c, r.reply, st.channels[c].users, r.events)
    ensures r.Done? ==> var m := r.st.messages[r.reply];
                        && m.text == BodyText(text) && m.createdAt == now
                        && m.visibleTo == st.channels[c].users && m.replyTo == replyTo && m.forwardedFrom == forwardedFrom
  {
    if !(c in st.channels && IsMember(st.channels[c], u)) then Rejected(HttpError(403, "User not authorized for this channel"))
    else if replyTo.Some? && !ReplyOk(st, c, replyTo.value) then Rejected(HttpError(400, "Invalid replyTo message"))
    else Deliver(st, Http, u, c, BodyText(text), raw, replyTo, forwardedFrom, now, now)
  }

  // ---------------------------------------------------------------------------------------------
  // Forwarding.

  /** The shared body of `forwardMessage`; `visibleTo` is what the new message is made visible to. */
  function ForwardWith(st: State, u: UserId, mid: MsgId, target: ChannelId, now: Time, fixVisibility: bool): (r: Outcome<MsgId>)
    ensures mid !in st.messages ==> r == Rejected(SocketError("Message not found"))
    ensures mid in st.messages && !(st.messages[mid].channelId in st.channels && IsActiveMember(st.channels[st.messages[mid].channelId], u))
            ==> r == Rejected(SocketError("Unauthorized or invalid source channel"))
    ensures !r.Aborted?
    ensures r.Done? <==> && mid in st.messages
                         && st.messages[mid].channelId in st.channels && IsActiveMember(st.channels[st.messages[mid].channelId], u)
                         && target in st.channels && IsActiveMember(st.channels[target], u)
                         && u in st.users
    ensures r.Done? ==> Posted(st, r.st, target, u, r.reply, Summary(st.messages[mid]), now)
    ensures r.Done? ==> PostEvents(r.st, target, r.reply, st.channels[target].users, r.events)
    ensures r.Done? ==> var m := r.st.messages[r.reply];
                        && m.text == st.messages[mid].text && m.attachments == st.messages[mid].attachments
                        && m.forwardedFrom == Some(mid) && m.replyTo.None? && m.createdAt == now
                        && m.visibleTo == (if fixVisibility then st.channels[target].users else [])
  {
    if mid !in st.messages then Rejected(SocketError("Message not found"))
    else
      var src := st.messages[mid];
      if !(src.channelId in st.channels && IsActiveMember(st.channels[src.channelId], u)) then
        Rejected(SocketError("Unauthorized or invalid source channel"))
      else if !(target in st.channels && IsActiveMember(st.channels[target], u)) then
        Rejected(SocketError("Unauthorized, invalid, or deleted target channel"))
      else if u !in st.users then Rejected(SocketError("Failed to forward message"))
      else
        var visible := if fixVisibility then st.channels[target].users else [];
        var m := NewMessage(target, UserAuthored(u), src.text, src.attachments, now, visible).(forwardedFrom := Some(mid));
        Post(st, target, u, m, Summary(src), now)
  }

  /** Socket `forwardMessage` as written: the copy is built without `visibleTo`, so it is visible to nobody. */
  function Forward(st: State, u: UserId, mid: MsgId, target: ChannelId, now: Time): (r: Outcome<MsgId>)
    ensures r.Done? ==> r.reply in r.st.messages && r.st.messages[r.reply].visibleTo == []
    ensures r.Done? ==> r.reply in r.st.messages && r.st.messages[r.reply].forwardedFrom == Some(mid) && r.st.messages[r.reply].channelId == target
  {
    ForwardWith(st, u, mid, target, now, false)
  }

  /** `forwardMessage` with the copy made visible to the target channel's members, as a send does. */
  function ForwardVisible(st: State, u: UserId, mid: MsgId, target: ChannelId, now: Time): (r: Outcome<MsgId>)
    ensures r.Done? ==> target in st.channels && r.reply in r.st.messages && r.st.messages[r.reply].visibleTo == st.channels[target].users
    ensures r.Done? ==> r.reply in r.st.messages && r.st.messages[r.reply].forwardedFrom == Some(mid) && r.st.messages[r.reply].channelId == target
  {
    ForwardWith(st, u, mid, target, now, true)
  }

  // ---------------------------------------------------------------------------------------------
  // Read receipts.

  /** Every listed member other than the author holds a receipt for `mid`. */
  predicate SeenByAll(rs: Receipts, users: seq<UserId>, author: UserId, mid: MsgId) {
    forall v :: v in users && v != author ==> HasSeen(rs, mid, v)
  }

  /** The shared body of `markSeen`, with `c` the channel whose members and messages it consults. */
  function RecordSeen(st: State, t: Transport, u: UserId, c: ChannelId, mid: MsgId, now: Time): (r: Outcome<()>)
    requires c in st.channels && mid in st.messages
    ensures !r.Rejected?
    ensures r.After(st).receipts == Upsert(st.receipts, mid, u, now)
    ensures r.Aborted? <==> st.messages[mid].author.System?
    ensures r.Aborted? ==> r.st == st.(receipts := Upsert(st.receipts, mid, u, now)) && r.events == []
    ensures r.Done? ==> var a := st.messages[mid].author.id;
              && r.st.messages.Keys == st.messages.Keys
              && (forall id :: id in st.messages && id != mid ==> r.st.messages[id] == st.messages[id])
              && r.st.messages[mid] == st.messages[mid].(status := r.st.messages[mid].status)
              && (r.st.messages[mid].status == Seen <==>
                    st.messages[mid].status == Seen || SeenByAll(r.st.receipts, st.channels[c].users, a, mid))
    ensures r.Done? ==> && r.st.channels.Keys == st.channels.Keys
                        && (forall d :: d in st.channels && d != c ==> r.st.channels[d] == st.channels[d])
                        && r.st.channels[c] == st.channels[c].(unreadCounts := r.st.channels[c].unreadCounts)
                        && Unread(r.st.channels[c], u) == CountUnread(r.st.messages, r.st.receipts, c, u, st.nextId)
                        && (forall v :: v != u ==> Unread(r.st.channels[c], v) == Unread(st.channels[c], v))
                        && r.st.users == st.users && r.st.nextId == st.nextId
    ensures r.Done? ==> r.events == ChannelEcho(t, c, MessageSeen(mid, u)) + UpdatesFor(c, r.st.channels[c], st.channels[c].users)
  {
    var rs := Upsert(st.receipts, mid, u, now);
    var m := st.messages[mid];
    match m.author
    case System => Aborted(st.(receipts := rs), [], Fail(t, 500, "Failed to mark message seen"))
    case UserAuthored(a) =>
      var ch := st.channels[c];
      var m' := if SeenByAll(rs, ch.users, a, mid) then m.(status := Seen) else m;
      var msgs := st.messages[mid := m'];
      var ch' := ch.(unreadCounts := ch.unreadCounts[u := CountUnread(msgs, rs, c, u, st.nextId)]);
      var st' := st.(receipts := rs, messages := msgs, channels := st.channels[c := ch']);
      Done(st', ChannelEcho(t, c, MessageSeen(mid, u)) + UpdatesFor(c, ch', ch.users), ())
  }

  /** Socket `markSeen` as written: the channel is the one the client names, not necessarily the message's. */
  function MarkSeenSocket(st: State, u: UserId, c: ChannelId, mid: MsgId, now: Time): (r: Outcome<()>)
    ensures !(c in st.channels && IsMember(st.channels[c], u)) ==> r == Rejected(SocketError("Unauthorized or invalid channel"))
    ensures c in st.channels && IsMember(st.channels[c], u) && mid !in st.messages ==> r == Rejected(SocketError("Message not found"))
    ensures c in st.channels && IsMember(st.channels[c], u) && mid in st.messages ==> r == RecordSeen(st, Socket, u, c, mid, now)
  {
    if !(c in st.channels && IsMember(st.channels[c], u)) then Rejected(SocketError("Unauthorized or invalid channel"))
    else if mid !in st.messages then Rejected(SocketError("Message not found"))
    else RecordSeen(st, Socket, u, c, mid, now)
  }

  /** Socket `markSeen` with the message required to belong to the named channel. */
  function MarkSeenSocketChecked(st: State, u: UserId, c: ChannelId, mid: MsgId, now: Time): (r: Outcome<()>)
    ensures r.Done? ==> mid in st.messages && st.messages[mid].channelId == c && c in st.channels && IsMember(st.channels[c], u)
    ensures r.Done? ==> r == RecordSeen(st, Socket, u, c, mid, now)
  {
    if !(c in st.channels && IsMember(st.channels[c], u)) then Rejected(SocketError("Unauthorized or invalid channel"))
    else if mid !in st.messages || st.messages[mid].channelId != c then Rejected(SocketError("Message not found"))
    else RecordSeen(st, Socket, u, c, mid, now)
  }

  /** The shared body of HTTP `markSeen`: 404 for an unknown message, 403 unless the user belongs to the
      message's channel, then the shared rule. When the rule throws, `catchReplies` says whether the catch
      block gets to send its 500. */
  function MarkSeenHttpWith(st: State, u: UserId, mid: MsgId, now: Time, catchReplies: bool): (r: Outcome<()>)
    ensures mid !in st.messages ==> r == Rejected(HttpError(404, "Message not found"))
    ensures mid in st.messages && !(st.messages[mid].channelId in st.channels && IsMember(st.channels[st.messages[mid].channelId], u))
            ==> r == Rejected(HttpError(403, "User not authorized for this channel"))
    ensures r.Done? ==> mid in st.messages && IsMember(st.channels[st.messages[mid].channelId], u)
    ensures r.Done? ==> r == RecordSeen(st, Http, u, st.messages[mid].channelId, mid, now)
    ensures r.Aborted? <==> && mid in st.messages && st.messages[mid].author.System?
                            && st.messages[mid].channelId in st.channels && IsMember(st.channels[st.messages[mid].channelId], u)
    ensures r.Aborted? ==> && r.st == RecordSeen(st, Http, u, st.messages[mid].channelId, mid, now).st && r.events == []
                           && r.error == (if catchReplies then HttpError(500, "Failed to mark message seen") else NoReply)
  {
    if mid !in st.messages then Rejected(HttpError(404, "Message not found"))
    else
      var c := st.messages[mid].channelId;
      if !(c in st.channels && IsMember(st.channels[c], u)) then Rejected(HttpError(403, "User not authorized for this channel"))
      else
        var r := RecordSeen(st, Http, u, c, mid, now);
        if r.Aborted? && !catchReplies then Aborted(r.st, r.events, NoReply) else r
  }

  /** HTTP `markSeen` as written. The catch block logs `messageId` and `userId`, which are declared inside
      the `try` block and are out of scope there, so when the rule throws (on a system message, whose
      `user` is null) the catch block throws too and the request is never answered; the receipt stays. */
  function MarkSeenHttp(st: State, u: UserId, mid: MsgId, now: Time): (r: Outcome<()>)
    ensures r.Aborted? ==> && r.error == NoReply && mid in st.messages && st.messages[mid].author.System?
                           && r.st == st.(receipts := Upsert(st.receipts, mid, u, now))
    ensures !r.Aborted? ==> r == MarkSeenHttpWith(st, u, mid, now, true)
  {
    MarkSeenHttpWith(st, u, mid, now, false)
  }

  /** HTTP `markSeen` with the ids in scope of the catch block: a throw is answered with the 500. */
  function MarkSeenHttpReplying(st: State, u: UserId, mid: MsgId, now: Time): (r: Outcome<()>)
    ensures r.Aborted? ==> r.error == HttpError(500, "Failed to mark message seen")
    ensures !r.Rejected? ==> mid in st.messages && st.messages[mid].channelId in st.channels && r == RecordSeen(st, Http, u, st.messages[mid].channelId, mid, now)
  {
    MarkSeenHttpWith(st, u, mid, now, true)
  }

  // ---------------------------------------------------------------------------------------------
  // Deleting and editing.

  /** The channel summary reflects the newest message of the channel, or is cleared when none is left. */
  ghost predicate SummarizesNewest(st: State, c: ChannelId, now: Time)
    requires c in st.channels
  {
    var ch := st.channels[c];
    match Newest(st.messages, c, None, st.nextId)
    case None => ch.lastMessage == "" && ch.lastMessageTime == now && ch.lastMessageSenderId.None?
    case Some(l) => && ch.lastMessage == Summary(st.messages[l]) && ch.lastMessageTime == st.messages[l].createdAt
                    && st.messages[l].author.UserAuthored? && ch.lastMessageSenderId == Some(st.messages[l].author.id)
  }

  /** Removes message `mid` and re-derives the summary of channel `c` from its newest remaining message. */
  function RemoveAndResummarize(st: State, t: Transport, c: ChannelId, mid: MsgId, now: Time): (r: Outcome<()>)
    requires c in st.channels
    ensures !r.Rejected?
    ensures r.After(st).messages == st.messages - {mid}
    ensures r.Aborted? ==> r.st == st.(messages := st.messages - {mid}) && r.events == []
    ensures r.Done? ==> && r.st.channels.Keys == st.channels.Keys
                        && (forall d :: d in st.channels && d != c ==> r.st.channels[d] == st.channels[d])
                        && SummarizesNewest(r.st, c, now)
                        && r.st.channels[c].users == st.channels[c].users
                        && r.st.channels[c].unreadCounts == st.channels[c].unreadCounts
                        && r.st.channels[c].deletedAt == st.channels[c].deletedAt
                        && r.st.receipts == st.receipts && r.st.users == st.users && r.st.nextId == st.nextId
    ensures r.Done? ==> r.events == ChannelEcho(t, c, MessageDeleted(mid)) + UpdatesFor(c, r.st.channels[c], st.channels[c].users)
  {
    var msgs := st.messages - {mid};
    var ch := st.channels[c];
    match Newest(msgs, c, None, st.nextId)
    case None =>
      var ch' := ch.(lastMessage := "", lastMessageTime := now, lastMessageSenderId := None);
      Done(st.(messages := msgs, channels := st.channels[c := ch']),
           ChannelEcho(t, c, MessageDeleted(mid)) + UpdatesFor(c, ch', ch.users), ())
    case Some(l) =>
      match msgs[l].author
      case System => Aborted(st.(messages := msgs), [], Fail(t, 500, "Failed to delete message"))
      case UserAuthored(a) =>
        var ch' := ch.(lastMessage := Summary(msgs[l]), lastMessageTime := msgs[l].createdAt, lastMessageSenderId := Some(a));
        Done(st.(messages := msgs, channels := st.channels[c := ch']),
             ChannelEcho(t, c, MessageDeleted(mid)) + UpdatesFor(c, ch', ch.users), ())
  }

  /** Socket `deleteMessage`: membership is checked on the named channel, and that channel's summary is
      re-derived; the message itself is looked up by id alone. */
  function DeleteMessageSocket(st: State, u: UserId, c: ChannelId, mid: MsgId, now: Time): (r: Outcome<()>)
    ensures !(c in st.channels && IsMember(st.channels[c], u)) ==> r == Rejected(SocketError("Unauthorized or invalid channel"))
    ensures c in st.channels && IsMember(st.channels[c], u) && mid !in st.messages ==> r == Rejected(SocketError("Message not found"))
    ensures mid in st.messages && st.messages[mid].author.UserAuthored? && st.messages[mid].author.id != u ==> r.Rejected?
    ensures !r.Rejected? <==> c in st.channels && IsMember(st.channels[c], u) && mid in st.messages && AuthoredBy(st.messages[mid], u)
    ensures !r.Rejected? ==> r == RemoveAndResummarize(st, Socket, c, mid, now)
  {
    if !(c in st.channels && IsMember(st.channels[c], u)) then Rejected(SocketError("Unauthorized or invalid channel"))
    else if mid !in st.messages then Rejected(SocketError("Message not found"))
    else
      match st.messages[mid].author
      case System => Rejected(SocketError("Failed to delete message"))     // `message.user.toString()` of null
      case UserAuthored(a) =>
        if a != u then Rejected(SocketError("Unauthorized to delete this message"))
        else RemoveAndResummarize(st, Socket, c, mid, now)
  }

  /** HTTP `deleteMessage`: 404 if missing, 403 unless the requester wrote it and belongs to its channel. */
  function DeleteMessageHttp(st: State, u: UserId, mid: MsgId, now: Time): (r: Outcome<()>)
    ensures mid !in st.messages ==> r == Rejected(HttpError(404, "Message not found"))
    ensures mid in st.messages && st.messages[mid].author.UserAuthored? && st.messages[mid].author.id != u
            ==> r == Rejected(HttpError(403, "Unauthorized to delete this message"))
    ensures !r.Rejected? <==> && mid in st.messages && AuthoredBy(st.messages[mid], u)
                              && st.messages[mid].channelId in st.channels && IsMember(st.channels[st.messages[mid].channelId], u)
    ensures !r.Rejected? ==> r == RemoveAndResummarize(st, Http, st.messages[mid].channelId, mid, now)
  {
    if mid !in st.messages then Rejected(HttpError(404, "Message not found"))
    else
      var m := st.messages[mid];
      match m.author
      case System => Rejected(HttpError(500, "Failed to delete message"))
      case UserAuthored(a) =>
        if a != u then Rejected(HttpError(403, "Unauthorized to delete this message"))
        else if !(m.channelId in st.channels && IsMember(st.channels[m.channelId], u)) then
          Rejected(HttpError(403, "User not authorized for this channel"))
        else RemoveAndResummarize(st, Http, m.channelId, mid, now)
  }

  /** Rewrites the text of `mid` and, when it is the newest message of channel `c`, the channel summary, then
      formats the reply. The handlers format from the unpopulated message, whose `replyTo` is a bare id, so
      reading `replyTo.sender.id` throws after both saves; `populated` formats from the populated copy. */
  function ApplyEdit(st: State, t: Transport, c: ChannelId, mid: MsgId, text: string, now: Time, populated: bool): (r: Outcome<()>)
    requires mid in st.messages
    ensures !r.Rejected?
    ensures r.After(st).messages == st.messages[mid := st.messages[mid].(text := text, edited := true, updatedAt := Some(now))]
    ensures r.Done? <==> && c in st.channels && Newest(r.After(st).messages, c, None, st.nextId).Some?
                         && (populated || st.messages[mid].replyTo.None?)
    ensures r.Aborted? ==> r.events == [] && r.error == Fail(t, 500, "Failed to edit message")
    ensures !(c in st.channels && Newest(r.After(st).messages, c, None, st.nextId).Some?) ==> r.After(st).channels == st.channels
    ensures c in st.channels && Newest(r.After(st).messages, c, None, st.nextId).Some? ==>
              && r.After(st).channels.Keys == st.channels.Keys
              && (forall d :: d in st.channels && d != c ==> r.After(st).channels[d] == st.channels[d])
              && var ch, ch' := st.channels[c], r.After(st).channels[c];
                 && (Newest(r.After(st).messages, c, None, st.nextId) == Some(mid) ==>
                       ch' == ch.(lastMessage := SummaryText(text, |st.messages[mid].attachments|), lastMessageTime := now))
                 && (Newest(r.After(st).messages, c, None, st.nextId) != Some(mid) ==> ch' == ch)
    ensures r.Done? ==> r.events == ChannelEcho(t, c, MessageUpdated(mid)) + UpdatesFor(c, r.st.channels[c], st.channels[c].users)
    ensures r.After(st).receipts == st.receipts && r.After(st).nextId == st.nextId && r.After(st).users == st.users
  {
    var m := st.messages[mid];
    var msgs := st.messages[mid := m.(text := text, edited := true, updatedAt := Some(now))];
    var st1 := st.(messages := msgs);
    match Newest(msgs, c, None, st.nextId)
    case None => Aborted(st1, [], Fail(t, 500, "Failed to edit message"))     // `latestMessage._id` of null
    case Some(l) =>
      if c !in st.channels then Aborted(st1, [], Fail(t, 500, "Failed to edit message"))   // `channel.save()` of null
      else
        var ch := st.channels[c];
        var ch' := if l == mid then ch.(lastMessage := SummaryText(text, |m.attachments|), lastMessageTime := now) else ch;
        var st2 := st1.(channels := st.channels[c := ch']);
        if !populated && m.replyTo.Some? then Aborted(st2, [], Fail(t, 500, "Failed to edit message"))
        else Done(st2, ChannelEcho(t, c, MessageUpdated(mid)) + UpdatesFor(c, ch', ch.users), ())
  }

  /** The shared body of socket `editMessage`, formatting the reply as `ApplyEdit` says. */
  function EditSocketWith(st: State, u: UserId, c: ChannelId, mid: MsgId, text: string, now: Time, populated: bool): (r: Outcome<()>)
    ensures !(c in st.channels && IsMember(st.channels[c], u)) ==> r == Rejected(SocketError("Unauthorized or invalid channel"))
    ensures c in st.channels && IsMember(st.channels[c], u) && mid in st.messages && AuthoredBy(st.messages[mid], u)
            && EditWindowExpired(st.messages[mid].createdAt, now)
            ==> r == Rejected(SocketError("Message can only be edited within 5 minutes of sending"))
    ensures !r.Rejected? <==> && c in st.channels && IsMember(st.channels[c], u) && mid in st.messages
                              && AuthoredBy(st.messages[mid], u) && !EditWindowExpired(st.messages[mid].createdAt, now)
    ensures !r.Rejected? ==> r == ApplyEdit(st, Socket, c, mid, text, now, populated)
  {
    if !(c in st.channels && IsMember(st.channels[c], u)) then Rejected(SocketError("Unauthorized or invalid channel"))
    else if mid !in st.messages then Rejected(SocketError("Message not found"))
    else
      var m := st.messages[mid];
      match m.author
      case System => Rejected(SocketError("Failed to edit message"))
      case UserAuthored(a) =>
        if a != u then Rejected(SocketError("Unauthorized to edit this message"))
        else if EditWindowExpired(m.createdAt, now) then Rejected(SocketError("Message can only be edited within 5 minutes of sending"))
        else ApplyEdit(st, Socket, c, mid, text, now, populated)
  }

  /** The shared body of HTTP `editMessage`: author-only and time-boxed; it does not check channel membership. */
  function EditHttpWith(st: State, u: UserId, mid: MsgId, text: string, now: Time, populated: bool): (r: Outcome<()>)
    ensures mid !in st.messages ==> r == Rejected(HttpError(404, "Message not found"))
    ensures mid in st.messages && st.messages[mid].author.UserAuthored? && st.messages[mid].author.id != u
            ==> r == Rejected(HttpError(403, "Unauthorized to edit this message"))
    ensures mid in st.messages && AuthoredBy(st.messages[mid], u) && EditWindowExpired(st.messages[mid].createdAt, now)
            ==> r == Rejected(HttpError(403, "Message can only be edited within 5 minutes of sending"))
    ensures !r.Rejected? <==> mid in st.messages && AuthoredBy(st.messages[mid], u) && !EditWindowExpired(st.messages[mid].createdAt, now)
    ensures !r.Rejected? ==> r == ApplyEdit(st, Http, st.messages[mid].channelId, mid, text, now, populated)
  {
    if mid !in st.messages then Rejected(HttpError(404, "Message not found"))
    else
      var m := st.messages[mid];
      match m.author
      case System => Rejected(HttpError(500, "Failed to edit message"))
      case UserAuthored(a) =>
        if a != u then Rejected(HttpError(403, "Unauthorized to edit this message"))
        else if EditWindowExpired(m.createdAt, now) then Rejected(HttpError(403, "Message can only be edited within 5 minutes of sending"))
        else ApplyEdit(st, Http, m.channelId, mid, text, now, populated)
  }

  /** Socket `editMessage` as written: an edit of a reply saves the message and the channel, then throws
      while formatting, so the client is called back with the error and no one is told of the edit. */
  function EditSocket(st: State, u: UserId, c: ChannelId, mid: MsgId, text: string, now: Time): (r: Outcome<()>)
    ensures r.Done? ==> mid in st.messages && st.messages[mid].replyTo.None?
    ensures !r.Rejected? ==> mid in st.messages && AuthoredBy(st.messages[mid], u)
    ensures !r.Rejected? && mid in st.messages && st.messages[mid].replyTo.Some? ==>
              r.Aborted? && r.events == [] && r.error == SocketError("Failed to edit message")
    ensures r.After(st) == EditSocketPopulated(st, u, c, mid, text, now).After(st)
    ensures !(mid in st.messages && st.messages[mid].replyTo.Some?) ==> r == EditSocketPopulated(st, u, c, mid, text, now)
  {
    EditSocketWith(st, u, c, mid, text, now, false)
  }

  /** Socket `editMessage` formatting the reply from the populated message. */
  function EditSocketPopulated(st: State, u: UserId, c: ChannelId, mid: MsgId, text: string, now: Time): (r: Outcome<()>)
    ensures !r.Rejected? ==> mid in st.messages && (r.Done? <==> c in st.channels && Newest(st.messages, c, None, st.nextId).Some?)
  {
    if mid in st.messages then EditKeepsNewest(st, Socket, c, mid, text, now, true, c, None); EditSocketWith(st, u, c, mid, text, now, true)
    else EditSocketWith(st, u, c, mid, text, now, true)
  }

  /** HTTP `editMessage` as written: an edit of a reply saves the message and the channel, then answers 500. */
  function EditHttp(st: State, u: UserId, mid: MsgId, text: string, now: Time): (r: Outcome<()>)
    ensures r.Done? ==> mid in st.messages && st.messages[mid].replyTo.None?
    ensures !r.Rejected? ==> mid in st.messages && AuthoredBy(st.messages[mid], u)
    ensures !r.Rejected? && mid in st.messages && st.messages[mid].replyTo.Some? ==>
              r.Aborted? && r.events == [] && r.error == HttpError(500, "Failed to edit message")
    ensures r.After(st) == EditHttpPopulated(st, u, mid, text, now).After(st)
    ensures !(mid in st.messages && st.messages[mid].replyTo.Some?) ==> r == EditHttpPopulated(st, u, mid, text, now)
  {
    EditHttpWith(st, u, mid, text, now, false)
  }

  /** HTTP `editMessage` formatting the reply from the populated message. */
  function EditHttpPopulated(st: State, u: UserId, mid: MsgId, text: string, now: Time): (r: Outcome<()>)
    ensures !r.Rejected? ==> && mid in st.messages
                             && (r.Done? <==> && st.messages[mid].channelId in st.channels
                                              && Newest(st.messages, st.messages[mid].channelId, None, st.nextId).Some?)
  {
    if mid in st.messages then
      var c := st.messages[mid].channelId;
      EditKeepsNewest(st, Http, c, mid, text, now, true, c, None); EditHttpWith(st, u, mid, text, now, true)
    else EditHttpWith(st, u, mid, text, now, true)
  }

  // ---------------------------------------------------------------------------------------------
  // Fetching.

  /** `sort({createdAt: 1})`: `a` (id `i`) comes no later than `b` (id `j`); equal times keep id order. */
  predicate NotAfter(a: Message, i: MsgId, b: Message, j: MsgId) {
    a.createdAt < b.createdAt || (a.createdAt == b.createdAt && i <= j)
  }

  /** The sort key of message `id`: its creation time, then its id. */
  function KeyOf(msgs: map<MsgId, Message>, id: MsgId): Ordering.Key
    requires id in msgs
  {
    Ordering.Key(msgs[id].createdAt, 0, id)
  }

  /** The sort keys of `ids`, in the same order. */
  function KeysOf(msgs: map<MsgId, Message>, ids: seq<MsgId>): (r: seq<Ordering.Key>)
    requires forall i :: 0 <= i < |ids| ==> ids[i] in msgs
    ensures |r| == |ids| && forall i :: 0 <= i < |ids| ==> r[i] == KeyOf(msgs, ids[i])
  {
    if ids == [] then [] else [KeyOf(msgs, ids[0])] + KeysOf(msgs, ids[1..])
  }

  /** The in-scope messages below `n`, oldest first. */
  function Chronological(msgs: map<MsgId, Message>, c: ChannelId, viewer: Option<UserId>, n: nat): (r: seq<MsgId>)
    ensures forall id :: id in r <==> id < n && id in msgs && InScope(msgs[id], c, viewer)
    ensures forall i, j :: 0 <= i < j < |r| ==> r[i] in msgs && r[j] in msgs && NotAfter(msgs[r[i]], r[i], msgs[r[j]], r[j])
    ensures |r| == |ScopeIds(msgs, c, viewer, n)|
  {
    var ids := ScopeIds(msgs, c, viewer, n);
    var keys := KeysOf(msgs, ids);
    var sorted := Ordering.Sort(keys);
    SortedByTime(msgs, ids, keys, sorted);
    Ordering.Ids(sorted)
  }

  /** Sorting the keys of `ids` yields `ids` again as a set, oldest first. */
  lemma SortedByTime(msgs: map<MsgId, Message>, ids: seq<MsgId>, keys: seq<Ordering.Key>, sorted: seq<Ordering.Key>)
    requires forall i :: 0 <= i < |ids| ==> ids[i] in msgs
    requires |keys| == |ids| && forall i :: 0 <= i < |ids| ==> keys[i] == KeyOf(msgs, ids[i])
    requires sorted == Ordering.Sort(keys)
    ensures |sorted| == |ids|
    ensures forall id :: id in Ordering.Ids(sorted) <==> id in ids
    ensures forall i, j :: 0 <= i < j < |sorted| ==>
              sorted[i].id in msgs && sorted[j].id in msgs && NotAfter(msgs[sorted[i].id], sorted[i].id, msgs[sorted[j].id], sorted[j].id)
  {
    Ordering.SortMembers(keys);
    var r := Ordering.Ids(sorted);
    assert forall k :: k in sorted ==> k.id in msgs && k == KeyOf(msgs, k.id) by {
      forall k | k in sorted ensures k.id in msgs && k == KeyOf(msgs, k.id) {
        assert k in keys;
      }
    }
    forall id
      ensures id in r <==> id in ids
    {
      if id in r {
        var j :| 0 <= j < |r| && r[j] == id;
        assert sorted[j] in keys;
      }
      if id in ids {
        var i :| 0 <= i < |ids| && ids[i] == id;
        assert keys[i] in sorted;
        var j :| 0 <= j < |sorted| && sorted[j] == keys[i];
        assert r[j] == id;
      }
    }
    forall i, j | 0 <= i < j < |sorted|
      ensures sorted[i].id in msgs && sorted[j].id in msgs
              && NotAfter(msgs[sorted[i].id], sorted[i].id, msgs[sorted[j].id], sorted[j].id)
    {
      assert sorted[i] in sorted && sorted[j] in sorted;
      assert Ordering.Le(sorted[i], sorted[j]);
    }
  }

  /** A fetched message as the requester sees it: `seenBy` lists only the requester's own receipt. */
  datatype MessageView = MessageView(id: MsgId, seenBy: seq<UserId>)

  /** The fetched rows of `ids`, in order; `seenBy` is drawn from the requester's own receipt only. */
  function ViewsOf(rs: Receipts, ids: seq<MsgId>, u: UserId): (r: seq<MessageView>)
    ensures |r| == |ids|
    ensures forall i :: 0 <= i < |ids| ==> r[i] == MessageView(ids[i], if HasSeen(rs, ids[i], u) then [u] else [])
  {
    if ids == [] then [] else [MessageView(ids[0], if HasSeen(rs, ids[0], u) then [u] else [])] + ViewsOf(rs, ids[1..], u)
  }

  /** The reply reads the sender and the populated author of each message, and the sender of the populated
      message it replies to. A system message is stored with neither, and a vanished author populates to
      null; a reply whose target was deleted populates to null, which the reply checks for. */
  predicate Populated(st: State, m: Message) {
    && m.author.UserAuthored? && m.author.id in st.users
    && (m.replyTo.Some? && m.replyTo.value in st.messages ==> st.messages[m.replyTo.value].author.UserAuthored?)
  }

  /** Every message `u` fetches from channel `c` has a populated author. */
  predicate AllPopulated(st: State, u: UserId, c: ChannelId) {
    var ids := Chronological(st.messages, c, Some(u), st.nextId);
    forall i :: 0 <= i < |ids| ==> Populated(st, st.messages[ids[i]])
  }

  /** The shared body of HTTP `fetchMessages`. Building the reply reads `message.sender.id`,
      `message.user.toString()` and `message.replyTo.sender.id`, which throw for a message that is not
      `Populated`; `nullSafe` reads each only when present. */
  function FetchWith(st: State, u: UserId, c: ChannelId, nullSafe: bool): (r: Outcome<seq<MessageView>>)
    ensures !(c in st.channels && IsMember(st.channels[c], u)) ==> r == Rejected(HttpError(403, "User not authorized for this channel"))
    ensures c in st.channels && IsMember(st.channels[c], u) ==> (r.Done? <==> nullSafe || AllPopulated(st, u, c))
    ensures c in st.channels && IsMember(st.channels[c], u) && !r.Done? ==> r == Rejected(HttpError(500, "Failed to fetch messages"))
    ensures !r.Aborted?
    ensures r.Done? ==> && c in st.channels
                        && var ids := Chronological(st.messages, c, Some(u), st.nextId);
                           && |r.reply| == |ids|
                           && (forall i :: 0 <= i < |ids| ==> r.reply[i].id == ids[i])
                           && (forall i :: 0 <= i < |ids| ==> r.reply[i].seenBy == (if HasSeen(st.receipts, ids[i], u) then [u] else []))
    ensures r.Done? ==> && r.st.messages == st.messages && r.st.receipts == st.receipts && r.st.nextId == st.nextId
                        && r.st.channels.Keys == st.channels.Keys
                        && (forall d :: d in st.channels && d != c ==> r.st.channels[d] == st.channels[d])
                        && Unread(r.st.channels[c], u) == 0
                        && (forall v :: v != u ==> Unread(r.st.channels[c], v) == Unread(st.channels[c], v))
                        && r.st.channels[c] == st.channels[c].(unreadCounts := r.st.channels[c].unreadCounts)
                        && r.events == [Event(UserRoom(u), ChannelUpdated(c, 0))]
  {
    if !(c in st.channels && IsMember(st.channels[c], u)) then Rejected(HttpError(403, "User not authorized for this channel"))
    else if !nullSafe && !AllPopulated(st, u, c) then Rejected(HttpError(500, "Failed to fetch messages"))
    else
      var ids := Chronological(st.messages, c, Some(u), st.nextId);
      var ch := st.channels[c];
      var ch' := ch.(unreadCounts := ch.unreadCounts[u := 0]);
      var views := ViewsOf(st.receipts, ids, u);
      Done(st.(channels := st.channels[c := ch']), [Event(UserRoom(u), ChannelUpdated(c, 0))], views)
  }

  /** HTTP `fetchMessages` as written: a member's fetch fails as soon as one message they see has no
      populated author. */
  function FetchMessages(st: State, u: UserId, c: ChannelId): (r: Outcome<seq<MessageView>>)
    ensures c in st.channels && IsMember(st.channels[c], u) ==>
              (r.Done? <==> forall id :: id in Chronological(st.messages, c, Some(u), st.nextId) ==> Populated(st, st.messages[id]))
    ensures c in st.channels && IsMember(st.channels[c], u) && !r.Done? ==> r == Rejected(HttpError(500, "Failed to fetch messages"))
    ensures r.Done? ==> r == FetchWith(st, u, c, true)
  {
    var r := FetchWith(st, u, c, false);
    PopulatedByIndex(st, u, c);
    r
  }

  /** `AllPopulated` read over the fetched ids rather than their positions. */
  lemma PopulatedByIndex(st: State, u: UserId, c: ChannelId)
    ensures AllPopulated(st, u, c) <==>
              forall id :: id in Chronological(st.messages, c, Some(u), st.nextId) ==> Populated(st, st.messages[id])
  {
    var ids := Chronological(st.messages, c, Some(u), st.nextId);
    if AllPopulated(st, u, c) {
      forall id | id in ids
        ensures Populated(st, st.messages[id])
      {
        var i :| 0 <= i < |ids| && ids[i] == id;
      }
    }
  }

  /** HTTP `fetchMessages` reading the author only when it is there: every member's fetch succeeds. */
  function FetchMessagesNullSafe(st: State, u: UserId, c: ChannelId): (r: Outcome<seq<MessageView>>)
    ensures r.Done? <==> c in st.channels && IsMember(st.channels[c], u)
    ensures r.Done? ==> var ids := Chronological(st.messages, c, Some(u), st.nextId);
                        |r.reply| == |ids| && forall i :: 0 <= i < |ids| ==> r.reply[i].id == ids[i]
  {
    FetchWith(st, u, c, true)
  }

  // ---------------------------------------------------------------------------------------------
  // Properties across handlers.

  /** A message in `v`'s query result is in the reply of every fetch of `v` that succeeds, as written or
      null-safe; the null-safe fetch succeeds for every member. */
  lemma InReply(st: State, v: UserId, c: ChannelId, id: MsgId)
    requires c in st.channels && IsMember(st.channels[c], v)
    requires id in Chronological(st.messages, c, Some(v), st.nextId)
    ensures var f := FetchMessagesNullSafe(st, v, c);
            f.Done? && exists i :: 0 <= i < |f.reply| && f.reply[i].id == id
    ensures var f := FetchMessages(st, v, c);
            f.Done? ==> exists i :: 0 <= i < |f.reply| && f.reply[i].id == id
  {
    var ids := Chronological(st.messages, c, Some(v), st.nextId);
    var i :| 0 <= i < |ids| && ids[i] == id;
    var f := FetchMessagesNullSafe(st, v, c);
    assert f.reply[i].id == id;
    var g := FetchMessages(st, v, c);
    if g.Done? {
      assert g.reply[i].id == id;
    }
  }

  /** A sent message is in the reply of every member's fetch: always with the null-safe fetch, and with the
      fetch as written whenever that fetch succeeds. */
  lemma SentIsFetchable(st: State, u: UserId, c: ChannelId, content: Option<string>, raw: seq<RawAttachment>,
                        replyTo: Option<MsgId>, timestamp: Time, v: UserId)
    requires SendSocket(st, u, c, content, raw, replyTo, timestamp).Done?
    requires v in st.channels[c].users
    ensures var r := SendSocket(st, u, c, content, raw, replyTo, timestamp);
            var f := FetchMessagesNullSafe(r.st, v, c);
            f.Done? && exists i :: 0 <= i < |f.reply| && f.reply[i].id == r.reply
    ensures var r := SendSocket(st, u, c, content, raw, replyTo, timestamp);
            var f := FetchMessages(r.st, v, c);
            f.Done? ==> exists i :: 0 <= i < |f.reply| && f.reply[i].id == r.reply
  {
    var r := SendSocket(st, u, c, content, raw, replyTo, timestamp);
    assert r.reply < r.st.nextId && r.reply in r.st.messages;
    assert InScope(r.st.messages[r.reply], c, Some(v));
    InReply(r.st, v, c, r.reply);
  }

  /** As written, one system message a member can see makes every fetch of the channel by that member fail,
      while the null-safe fetch still succeeds. */
  lemma SystemMessageBlocksFetch(st: State, u: UserId, c: ChannelId, id: MsgId)
    requires c in st.channels && IsMember(st.channels[c], u)
    requires id < st.nextId && id in st.messages && st.messages[id].author.System? && InScope(st.messages[id], c, Some(u))
    ensures FetchMessages(st, u, c) == Rejected(HttpError(500, "Failed to fetch messages"))
    ensures FetchMessagesNullSafe(st, u, c).Done?
  {
    assert id in Chronological(st.messages, c, Some(u), st.nextId);
    assert !Populated(st, st.messages[id]);
  }

  /** As written, a reply to a system message that a member can see makes every fetch of the channel by
      that member fail, although the reply itself has an author; the null-safe fetch still succeeds. */
  lemma ReplyToSystemBlocksFetch(st: State, u: UserId, c: ChannelId, id: MsgId)
    requires c in st.channels && IsMember(st.channels[c], u)
    requires id < st.nextId && id in st.messages && InScope(st.messages[id], c, Some(u))
    requires st.messages[id].replyTo.Some? && st.messages[id].replyTo.value in st.messages
    requires st.messages[st.messages[id].replyTo.value].author.System?
    ensures FetchMessages(st, u, c) == Rejected(HttpError(500, "Failed to fetch messages"))
    ensures FetchMessagesNullSafe(st, u, c).Done?
  {
    assert id in Chronological(st.messages, c, Some(u), st.nextId);
    assert !Populated(st, st.messages[id]);
  }

  /** As written, a forwarded copy is in no reply: no member is on its audience. */
  lemma ForwardedIsInvisible(st: State, u: UserId, mid: MsgId, target: ChannelId, now: Time, v: UserId, nullSafe: bool)
    requires Forward(st, u, mid, target, now).Done?
    ensures var r := Forward(st, u, mid, target, now);
            var f := FetchWith(r.st, v, target, nullSafe);
            f.Done? ==> forall i :: 0 <= i < |f.reply| ==> f.reply[i].id != r.reply
  {
    var r := Forward(st, u, mid, target, now);
    var msgs := r.st.messages;
    assert msgs[r.reply].visibleTo == [];
    OutOfScopeNotFetched(msgs, target, v, r.st.nextId, r.reply);
  }

  /** A message whose audience leaves the viewer out is not among the viewer's fetched messages. */
  lemma OutOfScopeNotFetched(msgs: map<MsgId, Message>, c: ChannelId, v: UserId, n: nat, id: MsgId)
    requires id in msgs && v !in msgs[id].visibleTo
    ensures id !in Chronological(msgs, c, Some(v), n)
  {
  }

  /** With its audience set to the target's members, a forwarded copy is in the reply of each member's fetch:
      always with the null-safe fetch, and with the fetch as written whenever that fetch succeeds. */
  lemma ForwardVisibleIsFetchable(st: State, u: UserId, mid: MsgId, target: ChannelId, now: Time, v: UserId)
    requires ForwardVisible(st, u, mid, target, now).Done?
    requires v in st.channels[target].users
    ensures var r := ForwardVisible(st, u, mid, target, now);
            var f := FetchMessagesNullSafe(r.st, v, target);
            f.Done? && exists i :: 0 <= i < |f.reply| && f.reply[i].id == r.reply
    ensures var r := ForwardVisible(st, u, mid, target, now);
            var f := FetchMessages(r.st, v, target);
            f.Done? ==> exists i :: 0 <= i < |f.reply| && f.reply[i].id == r.reply
  {
    var r := ForwardVisible(st, u, mid, target, now);
    assert r.reply < r.st.nextId && r.reply in r.st.messages;
    assert InScope(r.st.messages[r.reply], target, Some(v));
    InReply(r.st, v, target, r.reply);
  }

  /** Marking the same message seen again over the socket, at any later time, only re-stamps the receipt:
      messages, statuses, unread counts and events are those of the first call. */
  lemma MarkSeenIdempotent(st: State, u: UserId, c: ChannelId, mid: MsgId, now: Time, now': Time)
    requires MarkSeenSocket(st, u, c, mid, now).Done?
    ensures var r1 := MarkSeenSocket(st, u, c, mid, now);
            var r2 := MarkSeenSocket(r1.st, u, c, mid, now');
            && r2.Done? && r2.st == r1.st.(receipts := r1.st.receipts[(mid, u) := now'])
            && r2.st.receipts.Keys == r1.st.receipts.Keys && r2.events == r1.events
  {
    var r1 := MarkSeenSocket(st, u, c, mid, now);
    assert r1 == RecordSeen(st, Socket, u, c, mid, now);
    RecordSeenRepeat(st, Socket, u, c, mid, now, now');
  }

  /** The same over HTTP: a repeated request only re-stamps the receipt. */
  lemma MarkSeenHttpIdempotent(st: State, u: UserId, mid: MsgId, now: Time, now': Time)
    requires MarkSeenHttp(st, u, mid, now).Done?
    ensures var r1 := MarkSeenHttp(st, u, mid, now);
            var r2 := MarkSeenHttp(r1.st, u, mid, now');
            && r2.Done? && r2.st == r1.st.(receipts := r1.st.receipts[(mid, u) := now'])
            && r2.st.receipts.Keys == r1.st.receipts.Keys && r2.events == r1.events
  {
    var r1 := MarkSeenHttp(st, u, mid, now);
    var c := st.messages[mid].channelId;
    assert r1 == RecordSeen(st, Http, u, c, mid, now);
    RecordSeenRepeat(st, Http, u, c, mid, now, now');
  }

  /** A completed `markSeen` repeated at any time writes back what is there, except the receipt's `seenAt`. */
  lemma RecordSeenRepeat(st: State, t: Transport, u: UserId, c: ChannelId, mid: MsgId, now: Time, now': Time)
    requires c in st.channels && mid in st.messages && RecordSeen(st, t, u, c, mid, now).Done?
    ensures var r1 := RecordSeen(st, t, u, c, mid, now);
            && c in r1.st.channels && mid in r1.st.messages && r1.st.channels[c].users == st.channels[c].users
            && r1.st.messages[mid].channelId == st.messages[mid].channelId
            && RecordSeen(r1.st, t, u, c, mid, now') == Done(r1.st.(receipts := r1.st.receipts[(mid, u) := now']), r1.events, ())
  {
    var r1 := RecordSeen(st, t, u, c, mid, now);
    var rs := Upsert(st.receipts, mid, u, now);
    assert r1.st.receipts == rs;
    var rs2 := Upsert(rs, mid, u, now');
    assert rs2 == rs[(mid, u) := now'];
    assert rs2.Keys == rs.Keys;
    var m := st.messages[mid];
    var a := m.author.id;
    var ch := st.channels[c];
    var m1 := r1.st.messages[mid];
    assert m1 == (if SeenByAll(rs, ch.users, a, mid) then m.(status := Seen) else m);
    assert r1.st.channels[c].users == ch.users;
    assert SeenByAll(rs2, ch.users, a, mid) == SeenByAll(rs, ch.users, a, mid);
    assert (if SeenByAll(rs2, ch.users, a, mid) then m1.(status := Seen) else m1) == m1;
    SetSame(r1.st.messages, mid, m1);
    var ch1 := r1.st.channels[c];
    var k := CountUnread(r1.st.messages, rs, c, u, st.nextId);
    CountUnreadFrame(r1.st.messages, rs2, r1.st.messages, rs, c, u, st.nextId);
    assert ch1.unreadCounts == ch.unreadCounts[u := k];
    SetSame(ch1.unreadCounts, u, k);
    assert ch1.(unreadCounts := ch1.unreadCounts[u := k]) == ch1;
    SetSame(r1.st.channels, c, ch1);
  }

  /** After `markSeen` the user's unread count is the number of the channel's messages the user still has
      not seen, and the message just marked is not among them. */
  lemma MarkSeenRecount(st: State, u: UserId, c: ChannelId, mid: MsgId, now: Time)
    requires MarkSeenSocket(st, u, c, mid, now).Done?
    ensures var r := MarkSeenSocket(st, u, c, mid, now);
            && Unread(r.st.channels[c], u) == |set id: nat | id < st.nextId && UnreadBy(r.st.messages, r.st.receipts, c, u, id)|
            && !UnreadBy(r.st.messages, r.st.receipts, c, u, mid)
  {
    var r := MarkSeenSocket(st, u, c, mid, now);
    CountUnreadIsCardinality(r.st.messages, r.st.receipts, c, u, st.nextId);
    assert HasSeen(r.st.receipts, mid, u) by {
      assert Receipt(mid, u, now) in Documents(r.st.receipts);
    }
  }

  /** Socket `markSeen` as written can mark a message of another channel `seen` while a member of that
      channel holds no receipt: user 2 names their own channel 0 and the message of channel 1. */
  lemma MarkSeenWrongChannel()
    ensures var ch0 := NewChannel(Group, Some("a"), [1, 2], None, 0);
            var ch1 := NewChannel(Group, Some("b"), [1, 3], None, 0);
            var m := NewMessage(1, UserAuthored(1), "hi", [], 0, [1, 3]);
            var st := State(map[1 := "x", 2 := "y", 3 := "z"], map[0 := ch0, 1 := ch1], map[2 := m], map[], 3);
            var r := MarkSeenSocket(st, 2, 0, 2, 5);
            && Valid(st)
            && r.Done? && r.st.messages[2].status == Seen
            && 3 in st.channels[st.messages[2].channelId].users && !HasSeen(r.st.receipts, 2, 3)
            && 2 !in st.channels[st.messages[2].channelId].users
  {
    var ch0 := NewChannel(Group, Some("a"), [1, 2], None, 0);
    var ch1 := NewChannel(Group, Some("b"), [1, 3], None, 0);
    var m := NewMessage(1, UserAuthored(1), "hi", [], 0, [1, 3]);
    var st := State(map[1 := "x", 2 := "y", 3 := "z"], map[0 := ch0, 1 := ch1], map[2 := m], map[], 3);
    var rs := Upsert(st.receipts, 2, 2, 5);
    assert rs == map[(2, 2) := 5];
    assert SeenByAll(rs, [1, 2], 1, 2);
  }

  /** With the channel check, a message only turns `seen` once every member of its own channel other than
      the author holds a receipt. */
  lemma MarkSeenCheckedSound(st: State, u: UserId, c: ChannelId, mid: MsgId, now: Time)
    requires MarkSeenSocketChecked(st, u, c, mid, now).Done?
    requires st.messages[mid].status == Sent
    ensures var r := MarkSeenSocketChecked(st, u, c, mid, now);
            var m := st.messages[mid];
            r.st.messages[mid].status == Seen <==>
              forall v :: v in st.channels[m.channelId].users && v != m.author.id ==> HasSeen(r.st.receipts, mid, v)
  {
  }

  /** The summary of a channel that `SummarizesNewest` describes is the newest message of the channel,
      and it is empty exactly when the channel has no messages. */
  lemma SummaryIsNewest(st: State, c: ChannelId, now: Time)
    requires c in st.channels && SummarizesNewest(st, c, now)
    requires forall id :: id in st.messages ==> id < st.nextId
    ensures forall id :: id in st.messages && st.messages[id].channelId == c ==>
              st.messages[id].createdAt <= st.channels[c].lastMessageTime
    ensures st.channels[c].lastMessageSenderId.None? <==> forall id :: id in st.messages ==> st.messages[id].channelId != c
    ensures st.channels[c].lastMessageSenderId.Some? ==>
              exists l :: l in st.messages && st.messages[l].channelId == c
                          && st.channels[c].lastMessage == Summary(st.messages[l])
                          && st.channels[c].lastMessageTime == st.messages[l].createdAt
  {
    match Newest(st.messages, c, None, st.nextId)
    case None =>
    case Some(l) =>
      assert InScope(st.messages[l], c, None);
  }

  /** After an HTTP delete the message is gone and its channel's summary shows the newest message left. */
  lemma DeleteShowsNewestLeft(st: State, u: UserId, mid: MsgId, now: Time)
    requires Valid(st)
    requires DeleteMessageHttp(st, u, mid, now).Done?
    ensures var r := DeleteMessageHttp(st, u, mid, now);
            var c := st.messages[mid].channelId;
            && mid !in r.st.messages
            && (forall id :: id in r.st.messages && r.st.messages[id].channelId == c ==>
                  r.st.messages[id].createdAt <= r.st.channels[c].lastMessageTime)
            && (r.st.channels[c].lastMessageSenderId.None? <==> forall id :: id in r.st.messages ==> r.st.messages[id].channelId != c)
  {
    var r := DeleteMessageHttp(st, u, mid, now);
    var c := st.messages[mid].channelId;
    assert r == RemoveAndResummarize(st, Http, c, mid, now);
    SummaryIsNewest(r.st, c, now);
  }

  /** An edit moves no message in time, so the newest message of every channel stays the same. */
  lemma EditKeepsNewest(st: State, t: Transport, c: ChannelId, mid: MsgId, text: string, now: Time, populated: bool,
                        d: ChannelId, viewer: Option<UserId>)
    requires mid in st.messages
    ensures Newest(ApplyEdit(st, t, c, mid, text, now, populated).After(st).messages, d, viewer, st.nextId)
            == Newest(st.messages, d, viewer, st.nextId)
  {
    var msgs := ApplyEdit(st, t, c, mid, text, now, populated).After(st).messages;
    NewestFrame(st.messages, msgs, d, viewer, st.nextId);
  }

  /** An HTTP edit that passes the checks rewrites the text and refreshes the channel summary exactly when the
      edited message is the channel's newest, whether or not formatting the reply throws afterwards. */
  lemma EditRefreshesNewestOnly(st: State, u: UserId, mid: MsgId, text: string, now: Time)
    requires !EditHttp(st, u, mid, text, now).Rejected?
    requires st.messages[mid].channelId in st.channels
    ensures var st' := EditHttp(st, u, mid, text, now).After(st);
            var m := st.messages[mid];
            && m.channelId in st'.channels
            && var ch, ch' := st.channels[m.channelId], st'.channels[m.channelId];
               && st'.messages[mid].text == text && st'.messages[mid].edited
               && now - m.createdAt <= EditWindow
               && (Newest(st.messages, m.channelId, None, st.nextId) == Some(mid) ==>
                     ch'.lastMessage == SummaryText(text, |m.attachments|) && ch'.lastMessageTime == now)
               && (Newest(st.messages, m.channelId, None, st.nextId) != Some(mid) ==> ch' == ch)
  {
    EditKeepsNewest(st, Http, st.messages[mid].channelId, mid, text, now, false, st.messages[mid].channelId, None);
  }

  /** As written, an edit of a reply that passes every check commits the new text, and the summary when it is
      the newest, but never completes: the socket client is called back with an error and the HTTP client
      gets a 500, and no `messageUpdated` or `channelUpdated` is sent. */
  lemma EditOfReplyFails(st: State, u: UserId, c: ChannelId, mid: MsgId, text: string, now: Time)
    requires mid in st.messages && AuthoredBy(st.messages[mid], u) && st.messages[mid].replyTo.Some?
    requires !EditWindowExpired(st.messages[mid].createdAt, now)
    ensures var r := EditHttp(st, u, mid, text, now);
            && r.Aborted? && r.events == [] && r.error == HttpError(500, "Failed to edit message")
            && r.st.messages[mid].text == text
    ensures c in st.channels && IsMember(st.channels[c], u) ==>
              var r := EditSocket(st, u, c, mid, text, now);
              && r.Aborted? && r.events == [] && r.error == SocketError("Failed to edit message")
              && r.st.messages[mid].text == text
  {
  }

  /** Formatting from the populated message, the same edit of a reply completes over HTTP, and over the socket
      when the named channel is the message's own, and it tells every member of the channel. */
  lemma EditOfReplyCompletes(st: State, u: UserId, mid: MsgId, text: string, now: Time)
    requires mid in st.messages && mid < st.nextId && AuthoredBy(st.messages[mid], u)
    requires !EditWindowExpired(st.messages[mid].createdAt, now)
    requires st.messages[mid].channelId in st.channels
    ensures var c := st.messages[mid].channelId;
            var r := EditHttpPopulated(st, u, mid, text, now);
            r.Done? && r.events == UpdatesFor(c, r.st.channels[c], st.channels[c].users)
    ensures var c := st.messages[mid].channelId;
            IsMember(st.channels[c], u) ==>
              var r := EditSocketPopulated(st, u, c, mid, text, now);
              r.Done? && r.events[0] == Event(ChannelRoom(c), MessageUpdated(mid))
  {
    var c := st.messages[mid].channelId;
    assert InScope(st.messages[mid], c, None);
    var r := EditHttpPopulated(st, u, mid, text, now);
    assert r == ApplyEdit(st, Http, c, mid, text, now, true);
  }
}

/** What every handler keeps: the store's invariant, and the way stored messages may change over time
    (their audience only shrinks, `seen` is never taken back, receipts are never removed, and a new
    message always takes a fresh id). Proved per handler, then for any sequence of requests. */
module Invariants {
  import opened Base
  import opened MessageSchema
  import opened ChannelSchema
  import opened ReceiptSchema
  import opened Store
  import MessageOps
  import ChannelOps
  import Invites

  /** How a stored message may change: its channel, author and creation time stay, its audience can only
      lose users, and a `seen` status stays `seen`. */
  predicate Persists(m: Message, m': Message) {
    && m'.channelId == m.channelId && m'.author == m.author && m'.createdAt == m.createdAt
    && (forall v :: v in m'.visibleTo ==> v in m.visibleTo)
    && (m.status == Seen ==> m'.status == Seen)
  }

  /** How the store may change: the id allocator only moves forward, messages that survive persist, every
      message that appears takes an id not handed out before, and receipts are never removed. */
  ghost predicate Evolves(st: State, st': State) {
    && st.nextId <= st'.nextId
    && (forall id :: id in st.messages && id in st'.messages ==> Persists(st.messages[id], st'.messages[id]))
    && (forall id :: id in st'.messages && id !in st.messages ==> st.nextId <= id)
    && (forall k :: k in st.receipts ==> k in st'.receipts)
  }

  /** A handler's effect: the invariant holds afterwards and the store evolved. */
  ghost predicate Step(st: State, st': State) {
    Valid(st') && Evolves(st, st')
  }

  lemma StepRefl(st: State)
    requires Valid(st)
    ensures Step(st, st)
  {
  }

  /** Steps compose: a message absent in the middle cannot come back under its old id. */
  lemma StepTrans(st: State, st': State, st'': State)
    requires Valid(st) && Step(st, st') && Step(st', st'')
    ensures Step(st, st'')
  {
    forall id | id in st.messages && id in st''.messages
      ensures id in st'.messages
    {
      assert id < st.nextId;
    }
  }

  // ---------------------------------------------------------------------------------------------
  // Message handlers.

  lemma PostedStep(st: State, st': State, c: ChannelId, u: UserId, id: MsgId, summary: string, time: Time)
    requires Valid(st) && MessageOps.Posted(st, st', c, u, id, summary, time)
    ensures Step(st, st')
  {
    assert id !in st.messages;
    FreshMessageStep(st, st', id);
  }

  /** A store that gains one message under the next id, in an existing channel, and changes nothing else
      the invariant reads, takes a step. */
  lemma FreshMessageStep(st: State, st': State, id: MsgId)
    requires Valid(st) && id == st.nextId && st'.nextId == st.nextId + 1
    requires id in st'.messages && st'.messages[id].channelId in st.channels
    requires st'.messages.Keys == st.messages.Keys + {id}
    requires forall m :: m in st.messages && m != id ==> st'.messages[m] == st.messages[m]
    requires st'.channels.Keys == st.channels.Keys
    requires forall d :: d in st.channels ==> st'.channels[d].users == st.channels[d].users
    requires st'.receipts == st.receipts
    ensures Step(st, st')
  {
    forall m | m in st'.messages
      ensures m < st'.nextId && st'.messages[m].channelId in st'.channels
    {
      if m != id {
        assert st'.messages[m] == st.messages[m];
      }
    }
    forall m | m in st.messages && m in st'.messages
      ensures Persists(st.messages[m], st'.messages[m])
    {
      assert st'.messages[m] == st.messages[m];
    }
  }

  lemma SendSocketStep(st: State, u: UserId, c: ChannelId, content: Option<string>, raw: seq<RawAttachment>,
                       replyTo: Option<MsgId>, timestamp: Time)
    requires Valid(st)
    ensures Step(st, MessageOps.SendSocket(st, u, c, content, raw, replyTo, timestamp).After(st))
  {
    var r := MessageOps.SendSocket(st, u, c, content, raw, replyTo, timestamp);
    if r.Done? {
      PostedStep(st, r.st, c, u, r.reply, SummaryText(BodyText(content), |raw|), timestamp);
    }
  }

  lemma SendHttpStep(st: State, u: UserId, c: ChannelId, text: Option<string>, raw: seq<RawAttachment>,
                     replyTo: Option<MsgId>, forwardedFrom: Option<MsgId>, now: Time)
    requires Valid(st)
    ensures Step(st, MessageOps.SendHttp(st, u, c, text, raw, replyTo, forwardedFrom, now).After(st))
  {
    var r := MessageOps.SendHttp(st, u, c, text, raw, replyTo, forwardedFrom, now);
    if r.Done? {
      PostedStep(st, r.st, c, u, r.reply, SummaryText(BodyText(text), |raw|), now);
    }
  }

  lemma ForwardStep(st: State, u: UserId, mid: MsgId, target: ChannelId, now: Time, fixVisibility: bool)
    requires Valid(st)
    ensures Step(st, MessageOps.ForwardWith(st, u, mid, target, now, fixVisibility).After(st))
  {
    var r := MessageOps.ForwardWith(st, u, mid, target, now, fixVisibility);
    if r.Done? {
      PostedStep(st, r.st, target, u, r.reply, Summary(st.messages[mid]), now);
    }
  }

  lemma RecordSeenStep(st: State, t: Transport, u: UserId, c: ChannelId, mid: MsgId, now: Time)
    requires Valid(st) && c in st.channels && mid in st.messages
    ensures Step(st, MessageOps.RecordSeen(st, t, u, c, mid, now).After(st))
  {
    var r := MessageOps.RecordSeen(st, t, u, c, mid, now);
    var st' := r.After(st);
    assert st'.receipts.Keys == st.receipts.Keys + {(mid, u)};
    if r.Done? {
      assert st'.messages[mid] == st.messages[mid].(status := st'.messages[mid].status);
      StatusStep(st, st', mid);
    } else {
      assert st' == st.(receipts := st'.receipts);
    }
  }

  /** A store whose only message change is the status of `mid`, never taken back from `seen`, and whose
      receipts only grow, takes a step. */
  lemma StatusStep(st: State, st': State, mid: MsgId)
    requires Valid(st) && mid in st.messages
    requires st'.nextId == st.nextId && st'.messages.Keys == st.messages.Keys
    requires forall id :: id in st.messages && id != mid ==> st'.messages[id] == st.messages[id]
    requires st'.messages[mid] == st.messages[mid].(status := st'.messages[mid].status)
    requires st.messages[mid].status == Seen ==> st'.messages[mid].status == Seen
    requires st'.channels.Keys == st.channels.Keys
    requires forall d :: d in st.channels ==> st'.channels[d].users == st.channels[d].users
    requires forall k :: k in st.receipts ==> k in st'.receipts
    ensures Step(st, st')
  {
    forall m | m in st'.messages
      ensures m < st'.nextId && st'.messages[m].channelId in st'.channels
    {
      assert st'.messages[m].channelId == st.messages[m].channelId;
    }
    forall m | m in st.messages && m in st'.messages
      ensures Persists(st.messages[m], st'.messages[m])
    {
      if m != mid {
        assert st'.messages[m] == st.messages[m];
      }
    }
  }

  lemma MarkSeenSocketStep(st: State, u: UserId, c: ChannelId, mid: MsgId, now: Time)
    requires Valid(st)
    ensures Step(st, MessageOps.MarkSeenSocket(st, u, c, mid, now).After(st))
  {
    var r := MessageOps.MarkSeenSocket(st, u, c, mid, now);
    if !r.Rejected? {
      assert r == MessageOps.RecordSeen(st, Socket, u, c, mid, now);
      RecordSeenStep(st, Socket, u, c, mid, now);
    }
  }

  lemma MarkSeenCheckedStep(st: State, u: UserId, c: ChannelId, mid: MsgId, now: Time)
    requires Valid(st)
    ensures Step(st, MessageOps.MarkSeenSocketChecked(st, u, c, mid, now).After(st))
  {
    var r := MessageOps.MarkSeenSocketChecked(st, u, c, mid, now);
    if !r.Rejected? {
      assert r == MessageOps.RecordSeen(st, Socket, u, c, mid, now);
      RecordSeenStep(st, Socket, u, c, mid, now);
    }
  }

  lemma MarkSeenHttpStep(st: State, u: UserId, mid: MsgId, now: Time, catchReplies: bool)
    requires Valid(st)
    ensures Step(st, MessageOps.MarkSeenHttpWith(st, u, mid, now, catchReplies).After(st))
  {
    var r := MessageOps.MarkSeenHttpWith(st, u, mid, now, catchReplies);
    if !r.Rejected? {
      var c := st.messages[mid].channelId;
      assert r.After(st) == MessageOps.RecordSeen(st, Http, u, c, mid, now).After(st);
      RecordSeenStep(st, Http, u, c, mid, now);
    }
  }

  lemma RemoveStep(st: State, t: Transport, c: ChannelId, mid: MsgId, now: Time)
    requires Valid(st) && c in st.channels
    ensures Step(st, MessageOps.RemoveAndResummarize(st, t, c, mid, now).After(st))
  {
    var r := MessageOps.RemoveAndResummarize(st, t, c, mid, now);
    if r.Done? {
      assert forall d :: d in r.st.channels ==> r.st.channels[d].users == st.channels[d].users;
    }
  }

  lemma DeleteSocketStep(st: State, u: UserId, c: ChannelId, mid: MsgId, now: Time)
    requires Valid(st)
    ensures Step(st, MessageOps.DeleteMessageSocket(st, u, c, mid, now).After(st))
  {
    var r := MessageOps.DeleteMessageSocket(st, u, c, mid, now);
    if r.Rejected? {
      StepRefl(st);
    } else {
      assert r == MessageOps.RemoveAndResummarize(st, Socket, c, mid, now);
      RemoveStep(st, Socket, c, mid, now);
    }
  }

  lemma DeleteHttpStep(st: State, u: UserId, mid: MsgId, now: Time)
    requires Valid(st)
    ensures Step(st, MessageOps.DeleteMessageHttp(st, u, mid, now).After(st))
  {
    var r := MessageOps.DeleteMessageHttp(st, u, mid, now);
    if r.Rejected? {
      StepRefl(st);
    } else {
      assert r == MessageOps.RemoveAndResummarize(st, Http, st.messages[mid].channelId, mid, now);
      RemoveStep(st, Http, st.messages[mid].channelId, mid, now);
    }
  }

  lemma ApplyEditStep(st: State, t: Transport, c: ChannelId, mid: MsgId, text: string, now: Time, populated: bool)
    requires Valid(st) && mid in st.messages
    ensures Step(st, MessageOps.ApplyEdit(st, t, c, mid, text, now, populated).After(st))
  {
    var r := MessageOps.ApplyEdit(st, t, c, mid, text, now, populated);
    var st' := r.After(st);
    var written := c in st.channels && Newest(st'.messages, c, None, st.nextId).Some?;
    assert st'.channels.Keys == st.channels.Keys by {
      if !written { assert st'.channels == st.channels; }
    }
    assert forall d :: d in st'.channels ==> st'.channels[d].users == st.channels[d].users by {
      if !written { assert st'.channels == st.channels; }
    }
    RewriteStep(st, st', mid, text, now);
  }

  /** Rewriting one message's text, with the channels' keys and members kept, is a step. */
  lemma RewriteStep(st: State, st': State, mid: MsgId, text: string, now: Time)
    requires Valid(st) && mid in st.messages
    requires st'.messages == st.messages[mid := st.messages[mid].(text := text, edited := true, updatedAt := Some(now))]
    requires st'.channels.Keys == st.channels.Keys
    requires forall d :: d in st'.channels ==> st'.channels[d].users == st.channels[d].users
    requires st'.nextId == st.nextId && st'.receipts == st.receipts
    ensures Step(st, st')
  {
    assert Persists(st.messages[mid], st'.messages[mid]);
  }

  lemma EditStep(st: State, u: UserId, c: ChannelId, mid: MsgId, text: string, now: Time, populated: bool)
    requires Valid(st)
    ensures Step(st, MessageOps.EditSocketWith(st, u, c, mid, text, now, populated).After(st))
    ensures Step(st, MessageOps.EditHttpWith(st, u, mid, text, now, populated).After(st))
  {
    if mid in st.messages {
      ApplyEditStep(st, Socket, c, mid, text, now, populated);
      ApplyEditStep(st, Http, st.messages[mid].channelId, mid, text, now, populated);
    }
  }

  lemma FetchStep(st: State, u: UserId, c: ChannelId, nullSafe: bool)
    requires Valid(st)
    ensures Step(st, MessageOps.FetchWith(st, u, c, nullSafe).After(st))
  {
    var r := MessageOps.FetchWith(st, u, c, nullSafe);
    if r.Done? {
      assert forall d :: d in r.st.channels ==> r.st.channels[d].users == st.channels[d].users;
    }
  }

  // ---------------------------------------------------------------------------------------------
  // Channel handlers.

  /** Hiding a channel's messages from one user only shrinks their audiences. */
  lemma HidePersists(msgs: map<MsgId, Message>, c: ChannelId, u: UserId)
    ensures forall id :: id in msgs ==> Persists(msgs[id], ChannelOps.Hide(msgs, c, u)[id])
  {
  }

  lemma OpenedStep(st: State, r: Outcome<ChannelId>, u: UserId, requested: seq<UserId>)
    requires Valid(st) && ChannelOps.Opened(st, r, u, requested)
    ensures Step(st, r.st)
  {
    HidePersists(st.messages, r.reply, u);
    assert r.st.messages.Keys == st.messages.Keys;
    assert forall id :: id in st.messages ==> r.st.messages[id].channelId == st.messages[id].channelId;
    assert forall d :: d in r.st.channels && d != r.reply ==> d < r.st.nextId && NoDup(r.st.channels[d].users);
  }

  lemma CreateStep(st: State, u: UserId, kind: Option<string>, name: Option<string>, users: Option<seq<UserId>>,
                   now: Time, token: Token)
    requires Valid(st)
    ensures Step(st, ChannelOps.CreateChannel(st, u, kind, name, users, now, token).After(st))
  {
    var r := ChannelOps.CreateChannel(st, u, kind, name, users, now, token);
    if r.Done? {
      OpenedStep(st, r, u, users.value);
    }
  }

  /** The announcement loops of `updateChannel` keep the stored messages and add system messages of the
      channel under fresh ids. */
  lemma UpdateStepsStep(st: State, u: UserId, c: ChannelId, name: Option<string>, members: seq<UserId>, now: Time,
                        perUserCounts: bool)
    requires Valid(st) && c in st.channels && NoDup(members)
    ensures Step(st, ChannelOps.UpdateSteps(st, u, c, name, members, now, perUserCounts).0)
  {
    var ch := st.channels[c];
    var st1 := st.(channels := st.channels[c := ChannelOps.Reconfigure(ch, name, members, now)]);
    var added, removed := Minus(members, ch.users), Minus(ch.users, members);
    var st' := ChannelOps.UpdateSteps(st, u, c, name, members, now, perUserCounts).0;
    assert st' == ChannelOps.AnnounceChanges(st1, c, u, added, removed, now).0;
    ChannelOps.UpdateEffects(st, u, c, name, members, now, perUserCounts);
    ChannelOps.UpdateMessageIds(st1, c, u, added, removed, now);
    forall id | id in st'.messages
      ensures id < st'.nextId && st'.messages[id].channelId in st'.channels
      ensures id !in st.messages ==> st.nextId <= id
    {
      if id !in st.messages {
        ChannelOps.UpdateMessageContent(st1, c, u, added, removed, now, id);
      }
    }
  }

  lemma UpdateStep(st: State, u: UserId, c: ChannelId, name: Option<string>, users: Option<seq<UserId>>, now: Time,
                   perUserCounts: bool)
    requires Valid(st)
    ensures Step(st, ChannelOps.UpdateChannelWith(st, u, c, name, users, now, perUserCounts).After(st))
  {
    var r := ChannelOps.UpdateChannelWith(st, u, c, name, users, now, perUserCounts);
    if r.Done? {
      UpdateStepsStep(st, u, c, name, ChannelOps.NewMembers(st.channels[c], users), now, perUserCounts);
    }
  }

  lemma LeaveWritesStep(st: State, u: UserId, c: ChannelId, now: Time)
    requires Valid(st) && c in st.channels
    ensures Step(st, ChannelOps.LeaveWrites(st, u, c, now))
  {
    if ChannelOps.AllLeft(ChannelOps.Left(st.channels[c], u, now)) {
      LeavePurgedStep(st, u, c, now);
    } else {
      LeaveKeptStep(st, u, c, now);
    }
  }

  lemma LeaveKeptStep(st: State, u: UserId, c: ChannelId, now: Time)
    requires Valid(st) && c in st.channels && !ChannelOps.AllLeft(ChannelOps.Left(st.channels[c], u, now))
    ensures Step(st, ChannelOps.LeaveWrites(st, u, c, now))
  {
    var w := ChannelOps.LeaveWrites(st, u, c, now);
    assert w.channels.Keys == st.channels.Keys;
    assert w.messages == ChannelOps.Hide(st.messages, c, u);
    assert forall d :: d in w.channels ==> w.channels[d].users == st.channels[d].users;
  }

  lemma LeavePurgedStep(st: State, u: UserId, c: ChannelId, now: Time)
    requires Valid(st) && c in st.channels && ChannelOps.AllLeft(ChannelOps.Left(st.channels[c], u, now))
    ensures Step(st, ChannelOps.LeaveWrites(st, u, c, now))
  {
    var w := ChannelOps.LeaveWrites(st, u, c, now);
    var hidden := ChannelOps.Hide(st.messages, c, u);
    assert w.channels.Keys == st.channels.Keys - {c};
    assert w.messages == ChannelOps.Purge(hidden, c);
    assert forall id :: id in w.messages ==> id in hidden && w.messages[id] == hidden[id] && hidden[id].channelId != c;
  }

  lemma AnnounceLeaveStep(st: State, u: UserId, c: ChannelId, now: Time)
    requires Valid(st) && c in st.channels && u in st.users
    ensures Step(st, ChannelOps.AnnounceLeave(st, u, c, now).0)
  {
    var st' := ChannelOps.AnnounceLeave(st, u, c, now).0;
    assert st.nextId !in st.messages;
    assert forall d :: d in st'.channels ==> st'.channels[d].users == st.channels[d].users;
  }

  lemma LeaveStep(st: State, t: Transport, u: UserId, c: ChannelId, now: Time, announce: bool)
    requires Valid(st)
    ensures Step(st, ChannelOps.LeaveWith(st, t, u, c, now, announce).After(st))
  {
    var r := ChannelOps.LeaveWith(st, t, u, c, now, announce);
    if !r.Rejected? {
      var w := ChannelOps.LeaveWrites(st, u, c, now);
      LeaveWritesStep(st, u, c, now);
      if r.st != w {
        AnnounceLeaveStep(w, u, c, now);
        StepTrans(st, w, r.st);
      }
    }
  }

  // ---------------------------------------------------------------------------------------------
  // Invite handlers.

  lemma InviteStep(st: State, c: ChannelId, newToken: Token, u: UserId, token: Token)
    requires Valid(st)
    ensures Step(st, Invites.GenerateInviteLink(st, c, newToken).After(st))
    ensures Step(st, Invites.RegenerateInviteLink(st, c, newToken).After(st))
    ensures Step(st, Invites.AcceptInvite(st, u, token).After(st))
  {
    if c in st.channels {
      Invites.TokenKeepsValid(st, c, newToken);
      var g := Invites.GenerateInviteLink(st, c, newToken);
      Invites.TokenKeepsValid(st, c, g.reply);
    }
    Invites.AcceptKeepsValid(st, u, token);
  }

  // ---------------------------------------------------------------------------------------------
  // Any sequence of requests.

  /** One request to the backend, over either transport. */
  datatype Request =
    | SendOverSocket(u: UserId, c: ChannelId, content: Option<string>, raw: seq<RawAttachment>, replyTo: Option<MsgId>, timestamp: Time)
    | SendOverHttp(u: UserId, c: ChannelId, text: Option<string>, raw: seq<RawAttachment>, replyTo: Option<MsgId>,
                   forwardedFrom: Option<MsgId>, now: Time)
    | ForwardMessage(u: UserId, mid: MsgId, target: ChannelId, now: Time)
    | MarkSeenOverSocket(u: UserId, c: ChannelId, mid: MsgId, now: Time)
    | MarkSeenOverHttp(u: UserId, mid: MsgId, now: Time)
    | DeleteOverSocket(u: UserId, c: ChannelId, mid: MsgId, now: Time)
    | DeleteOverHttp(u: UserId, mid: MsgId, now: Time)
    | EditOverSocket(u: UserId, c: ChannelId, mid: MsgId, newText: string, now: Time)
    | EditOverHttp(u: UserId, mid: MsgId, newText: string, now: Time)
    | FetchMessages(u: UserId, c: ChannelId)
    | CreateChannel(u: UserId, kind: Option<string>, name: Option<string>, users: Option<seq<UserId>>, now: Time, token: Token)
    | UpdateChannel(u: UserId, c: ChannelId, name: Option<string>, users: Option<seq<UserId>>, now: Time)
    | DeleteChannel(u: UserId, c: ChannelId, now: Time)
    | DeleteChat(u: UserId, c: ChannelId, now: Time)
    | GenerateInviteLink(c: ChannelId, newToken: Token)
    | RegenerateInviteLink(c: ChannelId, newToken: Token)
    | AcceptInvite(u: UserId, token: Token)

  /** The store after one request. Where a handler is at fault (socket `markSeen`, `forwardMessage`, the
      catch block of HTTP `markSeen`, the reply of `fetchMessages`, the reply of `editMessage`, the closing events of `updateChannel`, the
      group leave) `fixed` chooses between the handler as written and the corrected one. */
  function Apply(st: State, q: Request, fixed: bool): State {
    match q
    case SendOverSocket(u, c, content, raw, replyTo, timestamp) => MessageOps.SendSocket(st, u, c, content, raw, replyTo, timestamp).After(st)
    case SendOverHttp(u, c, text, raw, replyTo, forwardedFrom, now) => MessageOps.SendHttp(st, u, c, text, raw, replyTo, forwardedFrom, now).After(st)
    case ForwardMessage(u, mid, target, now) => MessageOps.ForwardWith(st, u, mid, target, now, fixed).After(st)
    case MarkSeenOverSocket(u, c, mid, now) =>
      if fixed then MessageOps.MarkSeenSocketChecked(st, u, c, mid, now).After(st)
      else MessageOps.MarkSeenSocket(st, u, c, mid, now).After(st)
    case MarkSeenOverHttp(u, mid, now) => MessageOps.MarkSeenHttpWith(st, u, mid, now, fixed).After(st)
    case DeleteOverSocket(u, c, mid, now) => MessageOps.DeleteMessageSocket(st, u, c, mid, now).After(st)
    case DeleteOverHttp(u, mid, now) => MessageOps.DeleteMessageHttp(st, u, mid, now).After(st)
    case EditOverSocket(u, c, mid, text, now) => MessageOps.EditSocketWith(st, u, c, mid, text, now, fixed).After(st)
    case EditOverHttp(u, mid, text, now) => MessageOps.EditHttpWith(st, u, mid, text, now, fixed).After(st)
    case FetchMessages(u, c) => MessageOps.FetchWith(st, u, c, fixed).After(st)
    case CreateChannel(u, kind, name, users, now, token) => ChannelOps.CreateChannel(st, u, kind, name, users, now, token).After(st)
    case UpdateChannel(u, c, name, users, now) => ChannelOps.UpdateChannelWith(st, u, c, name, users, now, fixed).After(st)
    case DeleteChannel(u, c, now) => ChannelOps.LeaveWith(st, Http, u, c, now, fixed).After(st)
    case DeleteChat(u, c, now) => ChannelOps.LeaveWith(st, Socket, u, c, now, fixed).After(st)
    case GenerateInviteLink(c, newToken) => Invites.GenerateInviteLink(st, c, newToken).After(st)
    case RegenerateInviteLink(c, newToken) => Invites.RegenerateInviteLink(st, c, newToken).After(st)
    case AcceptInvite(u, token) => Invites.AcceptInvite(st, u, token).After(st)
  }

  predicate IsMessageRequest(q: Request) {
    || q.SendOverSocket? || q.SendOverHttp? || q.ForwardMessage? || q.MarkSeenOverSocket? || q.MarkSeenOverHttp?
    || q.DeleteOverSocket? || q.DeleteOverHttp? || q.EditOverSocket? || q.EditOverHttp? || q.FetchMessages?
  }

  predicate IsChannelRequest(q: Request) {
    q.CreateChannel? || q.UpdateChannel? || q.DeleteChannel? || q.DeleteChat?
  }

  lemma MessageRequestStep(st: State, q: Request, fixed: bool)
    requires Valid(st) && IsMessageRequest(q)
    ensures Step(st, Apply(st, q, fixed))
  {
    match q
    case SendOverSocket(u, c, content, raw, replyTo, timestamp) => SendSocketStep(st, u, c, content, raw, replyTo, timestamp);
    case SendOverHttp(u, c, text, raw, replyTo, forwardedFrom, now) => SendHttpStep(st, u, c, text, raw, replyTo, forwardedFrom, now);
    case ForwardMessage(u, mid, target, now) => ForwardStep(st, u, mid, target, now, fixed);
    case MarkSeenOverSocket(u, c, mid, now) =>
      if fixed { MarkSeenCheckedStep(st, u, c, mid, now); } else { MarkSeenSocketStep(st, u, c, mid, now); }
    case MarkSeenOverHttp(u, mid, now) => MarkSeenHttpStep(st, u, mid, now, fixed);
    case DeleteOverSocket(u, c, mid, now) => DeleteSocketStep(st, u, c, mid, now);
    case DeleteOverHttp(u, mid, now) => DeleteHttpStep(st, u, mid, now);
    case EditOverSocket(u, c, mid, text, now) => EditStep(st, u, c, mid, text, now, fixed);
    case EditOverHttp(u, mid, text, now) => EditStep(st, u, 0, mid, text, now, fixed);
    case FetchMessages(u, c) => FetchStep(st, u, c, fixed);
  }

  lemma ChannelRequestStep(st: State, q: Request, fixed: bool)
    requires Valid(st) && IsChannelRequest(q)
    ensures Step(st, Apply(st, q, fixed))
  {
    match q
    case CreateChannel(u, kind, name, users, now, token) => CreateStep(st, u, kind, name, users, now, token);
    case UpdateChannel(u, c, name, users, now) => UpdateStep(st, u, c, name, users, now, fixed);
    case DeleteChannel(u, c, now) => LeaveStep(st, Http, u, c, now, fixed);
    case DeleteChat(u, c, now) => LeaveStep(st, Socket, u, c, now, fixed);
  }

  lemma InviteRequestStep(st: State, q: Request, fixed: bool)
    requires Valid(st) && !IsMessageRequest(q) && !IsChannelRequest(q)
    ensures Step(st, Apply(st, q, fixed))
  {
    match q
    case GenerateInviteLink(c, newToken) => InviteStep(st, c, newToken, 0, []);
    case RegenerateInviteLink(c, newToken) => InviteStep(st, c, newToken, 0, []);
    case AcceptInvite(u, token) => InviteStep(st, 0, [], u, token);
  }

  /** Every request is a step, whatever its outcome, thrown errors included, with the handlers as written
      and with the corrected ones. */
  lemma ApplyStep(st: State, q: Request, fixed: bool)
    requires Valid(st)
    ensures Step(st, Apply(st, q, fixed))
  {
    if IsMessageRequest(q) {
      MessageRequestStep(st, q, fixed);
    } else if IsChannelRequest(q) {
      ChannelRequestStep(st, q, fixed);
    } else {
      InviteRequestStep(st, q, fixed);
    }
  }

  /** The store after a sequence of requests, served one at a time. */
  function Run(st: State, qs: seq<Request>, fixed: bool): State
    decreases |qs|
  {
    if qs == [] then st else Run(Apply(st, qs[0], fixed), qs[1..], fixed)
  }

  /** Over any sequence of requests, served as written or corrected, the invariant holds, no message regains
      a user it was hidden from or loses its `seen` status, and no receipt is lost. */
  lemma {:induction false} RunStep(st: State, qs: seq<Request>, fixed: bool)
    requires Valid(st)
    ensures Step(st, Run(st, qs, fixed))
    decreases |qs|
  {
    if qs == [] {
      StepRefl(st);
    } else {
      var st1 := Apply(st, qs[0], fixed);
      ApplyStep(st, qs[0], fixed);
      RunStep(st1, qs[1..], fixed);
      StepTrans(st, st1, Run(st1, qs[1..], fixed));
    }
  }
}

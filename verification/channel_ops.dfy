/** The channel handlers: create, list, update and leave (`deleteChat` / `deleteChannel`). */
module ChannelOps {
  import opened Base
  import opened MessageSchema
  import opened ChannelSchema
  import opened Store
  import Text
  import Ordering

  // ---------------------------------------------------------------------------------------------
  // Shared writes.

  /** `Message.updateMany({channelId: c, visibleTo: u}, {$pull: {visibleTo: u}})`. */
  function Hide(msgs: map<MsgId, Message>, c: ChannelId, u: UserId): (r: map<MsgId, Message>)
    ensures r.Keys == msgs.Keys
    ensures forall id :: id in msgs && msgs[id].channelId != c ==> r[id] == msgs[id]
    ensures forall id :: id in msgs && msgs[id].channelId == c ==>
              r[id] == msgs[id].(visibleTo := RemoveAll(msgs[id].visibleTo, u)) && u !in r[id].visibleTo
  {
    map id | id in msgs :: if msgs[id].channelId == c then msgs[id].(visibleTo := RemoveAll(msgs[id].visibleTo, u)) else msgs[id]
  }

  /** A message written by nobody (`user: null`). */
  function SystemMessage(c: ChannelId, text: string, now: Time, audience: seq<UserId>): Message {
    NewMessage(c, System, text, [], now, audience)
  }

  /** The `postSystemMessage` helper of `updateChannel`: store a system message for `audience`, announce it
      to the channel room, and raise the unread count of every member but `skip`. */
  function PostSystem(st: State, c: ChannelId, skip: UserId, text: string, audience: seq<UserId>, now: Time): (r: (State, seq<Event>))
    requires c in st.channels
    ensures r.0.nextId == st.nextId + 1 && r.0.messages == st.messages[st.nextId := SystemMessage(c, text, now, audience)]
    ensures r.0.channels == st.channels[c := st.channels[c].(unreadCounts := Bump(st.channels[c].unreadCounts, st.channels[c].users, skip))]
    ensures r.0.users == st.users && r.0.receipts == st.receipts
    ensures r.1 == [Event(ChannelRoom(c), ReceiveMessage(st.nextId))]
  {
    var ch := st.channels[c];
    var ch' := ch.(unreadCounts := Bump(ch.unreadCounts, ch.users, skip));
    (st.(messages := st.messages[st.nextId := SystemMessage(c, text, now, audience)], channels := st.channels[c := ch'], nextId := st.nextId + 1),
     [Event(ChannelRoom(c), ReceiveMessage(st.nextId))])
  }

  /** `receiveMessage` to the room of `c` for the `n` messages numbered from `first`, in id order. */
  function ReceiveEvents(c: ChannelId, first: nat, n: nat): (r: seq<Event>)
    ensures |r| == n
    ensures forall i :: 0 <= i < n ==> r[i] == Event(ChannelRoom(c), ReceiveMessage(first + i))
    decreases n
  {
    if n == 0 then [] else [Event(ChannelRoom(c), ReceiveMessage(first))] + ReceiveEvents(c, first + 1, n - 1)
  }

  /** One turn of the announcement loop: a system message naming `uid`, if the store knows `uid`. */
  function AnnounceOne(st: State, c: ChannelId, skip: UserId, uid: UserId, suffix: string, now: Time): (r: (State, seq<Event>))
    requires c in st.channels
    ensures c in r.0.channels && r.0.channels[c].users == st.channels[c].users && r.0.users == st.users
    ensures uid !in st.users ==> r == (st, [])
    ensures uid in st.users ==> r == PostSystem(st, c, skip, st.users[uid] + suffix, st.channels[c].users, now)
  {
    if uid in st.users then PostSystem(st, c, skip, st.users[uid] + suffix, st.channels[c].users, now) else (st, [])
  }

  /** `for (uid of uids) { user = findById(uid); if (user) postSystemMessage(user.name + suffix) }`. */
  function Announce(st: State, c: ChannelId, skip: UserId, uids: seq<UserId>, suffix: string, now: Time): (r: (State, seq<Event>))
    requires c in st.channels
    ensures c in r.0.channels && r.0.channels[c].users == st.channels[c].users && r.0.users == st.users
    decreases |uids|
  {
    if uids == [] then (st, [])
    else
      var one := AnnounceOne(st, c, skip, uids[0], suffix, now);
      var rest := Announce(one.0, c, skip, uids[1..], suffix, now);
      (rest.0, one.1 + rest.1)
  }

  /** The announcements touch nothing but the message collection and the channel's unread counts. */
  lemma {:induction false} AnnounceFrame(st: State, c: ChannelId, skip: UserId, uids: seq<UserId>, suffix: string, now: Time)
    requires c in st.channels
    ensures var r := Announce(st, c, skip, uids, suffix, now).0;
            && r.receipts == st.receipts && r.channels.Keys == st.channels.Keys
            && (forall d :: d in st.channels && d != c ==> r.channels[d] == st.channels[d])
            && r.channels[c] == st.channels[c].(unreadCounts := r.channels[c].unreadCounts)
    decreases |uids|
  {
    if uids != [] {
      var one := AnnounceOne(st, c, skip, uids[0], suffix, now);
      AnnounceFrame(one.0, c, skip, uids[1..], suffix, now);
    }
  }

  /** Each known listed user adds one unread message for every member but `skip`; nobody else's count moves. */
  lemma {:induction false} AnnounceUnread(st: State, c: ChannelId, skip: UserId, uids: seq<UserId>, suffix: string, now: Time)
    requires c in st.channels
    ensures var ch, ch' := st.channels[c], Announce(st, c, skip, uids, suffix, now).0.channels[c];
            && (NoDup(ch.users) ==> forall v :: v in ch.users && v != skip ==> Unread(ch', v) == Unread(ch, v) + |Known(uids, st.users)|)
            && (forall v :: v !in ch.users || v == skip ==> Unread(ch', v) == Unread(ch, v))
    decreases |uids|
  {
    if uids != [] {
      var ch := st.channels[c];
      var one := AnnounceOne(st, c, skip, uids[0], suffix, now);
      AnnounceUnread(one.0, c, skip, uids[1..], suffix, now);
      BumpCounts(ch.unreadCounts, ch.users, skip);
      assert Known(uids, st.users) == if uids[0] in st.users then [uids[0]] + Known(uids[1..], st.users) else Known(uids[1..], st.users);
    }
  }

  /** The announcements take one fresh id per known listed user and keep every stored message. */
  lemma {:induction false} AnnounceIds(st: State, c: ChannelId, skip: UserId, uids: seq<UserId>, suffix: string, now: Time)
    requires c in st.channels
    ensures var r := Announce(st, c, skip, uids, suffix, now);
            && r.0.nextId == st.nextId + |Known(uids, st.users)|
            && (forall id :: id in st.messages && id < st.nextId ==> id in r.0.messages && r.0.messages[id] == st.messages[id])
            && (forall id :: id in r.0.messages ==> id in st.messages || st.nextId <= id < r.0.nextId)
            && (forall id :: st.nextId <= id < r.0.nextId ==> id in r.0.messages)
    decreases |uids|
  {
    if uids != [] {
      var one := AnnounceOne(st, c, skip, uids[0], suffix, now);
      AnnounceIds(one.0, c, skip, uids[1..], suffix, now);
      assert Known(uids, st.users) == if uids[0] in st.users then [uids[0]] + Known(uids[1..], st.users) else Known(uids[1..], st.users);
    }
  }

  /** The message under the `i`-th fresh id announces the `i`-th known listed user to the channel's members. */
  lemma {:induction false} AnnounceContent(st: State, c: ChannelId, skip: UserId, uids: seq<UserId>, suffix: string, now: Time, i: nat, r: State)
    requires c in st.channels
    requires i < |Known(uids, st.users)|
    requires r == Announce(st, c, skip, uids, suffix, now).0
    ensures Stores(r.messages, st.nextId + i, SystemMessage(c, st.users[Known(uids, st.users)[i]] + suffix, now, st.channels[c].users))
    decreases |uids|
  {
    var one := AnnounceOne(st, c, skip, uids[0], suffix, now);
    AnnounceUnfold(st, c, skip, uids, suffix, now);
    if uids[0] in st.users && i == 0 {
      AnnounceFirst(st, c, skip, uids, suffix, now);
    } else {
      var j := if uids[0] in st.users then i - 1 else i;
      assert Known(uids, st.users)[i] == Known(uids[1..], one.0.users)[j];
      assert one.0.nextId + j == st.nextId + i;
      AnnounceContent(one.0, c, skip, uids[1..], suffix, now, j, r);
    }
  }

  /** `msgs` holds `m` under `id`. */
  predicate Stores(msgs: map<MsgId, Message>, id: MsgId, m: Message) {
    id in msgs && msgs[id] == m
  }

  /** One turn of the loop, unfolded. */
  lemma AnnounceUnfold(st: State, c: ChannelId, skip: UserId, uids: seq<UserId>, suffix: string, now: Time)
    requires c in st.channels && uids != []
    ensures var one := AnnounceOne(st, c, skip, uids[0], suffix, now);
            && Announce(st, c, skip, uids, suffix, now).0 == Announce(one.0, c, skip, uids[1..], suffix, now).0
            && Announce(st, c, skip, uids, suffix, now).1 == one.1 + Announce(one.0, c, skip, uids[1..], suffix, now).1
            && one.1 == (if uids[0] in st.users then [Event(ChannelRoom(c), ReceiveMessage(st.nextId))] else [])
            && one.0.users == st.users && c in one.0.channels && one.0.channels[c].users == st.channels[c].users
            && one.0.nextId == st.nextId + (if uids[0] in st.users then 1 else 0)
            && Known(uids, st.users) == (if uids[0] in st.users then [uids[0]] else []) + Known(uids[1..], st.users)
  {
  }

  /** The first known listed user is announced under the first fresh id. */
  lemma AnnounceFirst(st: State, c: ChannelId, skip: UserId, uids: seq<UserId>, suffix: string, now: Time)
    requires c in st.channels && uids != [] && uids[0] in st.users
    ensures Stores(Announce(st, c, skip, uids, suffix, now).0.messages, st.nextId,
                   SystemMessage(c, st.users[uids[0]] + suffix, now, st.channels[c].users))
  {
    var one := AnnounceOne(st, c, skip, uids[0], suffix, now);
    AnnounceUnfold(st, c, skip, uids, suffix, now);
    AnnounceIds(one.0, c, skip, uids[1..], suffix, now);
    assert st.nextId in one.0.messages && st.nextId < one.0.nextId;
  }

  /** The announcements emit one `receiveMessage` per new message, in id order. */
  lemma {:induction false} AnnounceEvents(st: State, c: ChannelId, skip: UserId, uids: seq<UserId>, suffix: string, now: Time, events: seq<Event>)
    requires c in st.channels
    requires events == Announce(st, c, skip, uids, suffix, now).1
    ensures events == ReceiveEvents(c, st.nextId, |Known(uids, st.users)|)
    decreases |uids|
  {
    if uids != [] {
      var one := AnnounceOne(st, c, skip, uids[0], suffix, now);
      var rest := Announce(one.0, c, skip, uids[1..], suffix, now).1;
      AnnounceUnfoldEvents(st, c, skip, uids, suffix, now);
      AnnounceEvents(one.0, c, skip, uids[1..], suffix, now, rest);
    }
  }

  /** One turn of the loop, unfolded, as far as the emitted events go. */
  lemma AnnounceUnfoldEvents(st: State, c: ChannelId, skip: UserId, uids: seq<UserId>, suffix: string, now: Time)
    requires c in st.channels && uids != []
    ensures var one := AnnounceOne(st, c, skip, uids[0], suffix, now);
            var known := uids[0] in st.users;
            && Announce(st, c, skip, uids, suffix, now).1
               == (if known then [Event(ChannelRoom(c), ReceiveMessage(st.nextId))] else []) + Announce(one.0, c, skip, uids[1..], suffix, now).1
            && one.0.nextId == st.nextId + (if known then 1 else 0)
            && one.0.users == st.users && c in one.0.channels
            && |Known(uids, st.users)| == |Known(uids[1..], st.users)| + (if known then 1 else 0)
  {
    AnnounceUnfold(st, c, skip, uids, suffix, now);
  }

  // ---------------------------------------------------------------------------------------------
  // createChannel.

  /** The first listed user other than `u`. */
  function FirstOther(vs: seq<UserId>, u: UserId): (r: Option<UserId>)
    ensures r.Some? ==> r.value in vs && r.value != u
    ensures r.None? <==> forall v :: v in vs ==> v == u
  {
    if vs == [] then None
    else if vs[0] != u then Some(vs[0])
    else
      assert forall v :: v in vs <==> v == vs[0] || v in vs[1..];
      FirstOther(vs[1..], u)
  }

  /** `channelData.users.sort()` on a pair. */
  function SortPair(p: seq<UserId>): (r: seq<UserId>)
    requires |p| == 2
    ensures |r| == 2 && r[0] <= r[1] && multiset(r) == multiset(p)
    ensures r == p || r == [p[1], p[0]]
  {
    assert p == [p[0]] + [p[1]];
    if p[0] <= p[1] then p else [p[1]] + [p[0]]
  }

  /** What every accepted `createChannel` guarantees: the replied channel exists, the requester is an active
      member, every requested user is a member, each only once, and the schema's name rule holds; the reply is
      a new channel under a fresh id or an existing one whose members stay; no other channel changes, and the
      messages change only by the requester's copies of the replied channel's history being hidden. */
  ghost predicate Opened(st: State, r: Outcome<ChannelId>, u: UserId, requested: seq<UserId>) {
    && r.Done? && r.reply in r.st.channels
    && IsActiveMember(r.st.channels[r.reply], u)
    && (forall v :: v in requested ==> IsMember(r.st.channels[r.reply], v))
    && NameOk(r.st.channels[r.reply])
    && NoDup(r.st.channels[r.reply].users)
    && r.st.users == st.users && r.st.receipts == st.receipts
    && r.st.channels.Keys == st.channels.Keys + {r.reply}
    && (forall d :: d in st.channels && d != r.reply ==> r.st.channels[d] == st.channels[d])
    && (r.reply < st.nextId ==> r.reply in st.channels && r.st.channels[r.reply].users == st.channels[r.reply].users
                                && r.st.nextId == st.nextId)
    && (r.reply >= st.nextId ==> r.reply == st.nextId && r.st.nextId == st.nextId + 1)
    && (r.st.messages == st.messages || r.st.messages == Hide(st.messages, r.reply, u))
  }

  /** `Opened` for a list carries over to any list whose users it names. */
  lemma OpenedWiden(st: State, r: Outcome<ChannelId>, u: UserId, named: seq<UserId>, requested: seq<UserId>)
    requires r.Rejected? || Opened(st, r, u, named)
    requires forall v :: v in requested ==> v in named
    ensures r.Rejected? || Opened(st, r, u, requested)
  {
  }

  /** Stores `ch` under the next id and sends `channelCreated` to each member. */
  function Open(st: State, ch: Channel): (r: Outcome<ChannelId>)
    ensures r.Done? && r.reply == st.nextId && r.reply in r.st.channels && r.st.channels[r.reply] == ch
    ensures r.st.nextId == st.nextId + 1 && r.st.messages == st.messages && r.st.users == st.users && r.st.receipts == st.receipts
    ensures r.st.channels == st.channels[st.nextId := ch]
    ensures r.events == CreatedFor(st.nextId, ch.users)
  {
    Done(st.(channels := st.channels[st.nextId := ch], nextId := st.nextId + 1), CreatedFor(st.nextId, ch.users), st.nextId)
  }

  /** Every listed user has a user record. */
  predicate AllRegistered(st: State, us: seq<UserId>) {
    forall v :: v in us ==> v in st.users
  }

  /** An existing direct chat: returned as it is when the requester still has it, otherwise reactivated for
      the requester with an empty history (their copies of the old messages are hidden). The "exists" reply
      reads every member's user record for its name, and throws, with nothing written, when one is missing. */
  function Reactivate(st: State, e: ChannelId, u: UserId, now: Time): (r: Outcome<ChannelId>)
    requires e in st.channels && IsMember(st.channels[e], u)
    ensures !r.Aborted?
    ensures r.Rejected? <==> u !in st.channels[e].deletedAt && !AllRegistered(st, st.channels[e].users)
    ensures r.Rejected? ==> r.error == HttpError(500, "Internal server error")
    ensures r.Done? ==> r.reply == e && e in r.st.channels && IsActiveMember(r.st.channels[e], u)
    ensures u !in st.channels[e].deletedAt && r.Done? ==> r.st == st && r.events == []
    ensures u in st.channels[e].deletedAt ==>
              && r.Done? && r.st.messages == Hide(st.messages, e, u) && r.st.nextId == st.nextId
              && r.st.users == st.users && r.st.receipts == st.receipts
              && r.st.channels == st.channels[e := r.st.channels[e]]
              && var ch, ch' := st.channels[e], r.st.channels[e];
                 && ch' == ch.(deletedAt := ch.deletedAt - {u}, lastMessage := "", lastMessageTime := now,
                               unreadCounts := ch.unreadCounts[u := 0])
                 && Unread(ch', u) == 0 && r.events == CreatedFor(e, ch.users)
  {
    var ch := st.channels[e];
    if u !in ch.deletedAt then
      if AllRegistered(st, ch.users) then Done(st, [], e) else Rejected(HttpError(500, "Internal server error"))
    else
      var ch' := ch.(deletedAt := ch.deletedAt - {u}, lastMessage := "", lastMessageTime := now,
                     unreadCounts := ch.unreadCounts[u := 0]);
      Done(st.(channels := st.channels[e := ch'], messages := Hide(st.messages, e, u)), CreatedFor(e, ch.users), e)
  }

  /** A channel stored under the next id satisfies `Opened` when it admits the requester. */
  lemma OpenIsOpened(st: State, ch: Channel, u: UserId, requested: seq<UserId>)
    requires IsActiveMember(ch, u) && NameOk(ch) && NoDup(ch.users) && forall v :: v in requested ==> v in ch.users
    ensures Opened(st, Open(st, ch), u, requested)
  {
  }

  /** So does an existing channel below the next id that the requester is a member of, reactivated or
      returned as it is, unless the reply could not be built. */
  lemma ReactivateIsOpened(st: State, e: ChannelId, u: UserId, now: Time, requested: seq<UserId>)
    requires e < st.nextId && e in st.channels && IsMember(st.channels[e], u)
    requires NameOk(st.channels[e]) && NoDup(st.channels[e].users) && forall v :: v in requested ==> v in st.channels[e].users
    ensures var r := Reactivate(st, e, u, now);
            r.Rejected? || Opened(st, r, u, requested)
  {
    var r := Reactivate(st, e, u, now);
    if u in st.channels[e].deletedAt {
      assert r.st.channels.Keys == st.channels.Keys;
    } else if r.Done? {
      assert r.st == st;
    }
  }

  /** The name a new direct chat receives: the trimmed request name, else the other member's name, else
      "Direct Chat". */
  function DirectTitle(name: Option<string>, otherName: string): (r: string)
    ensures r != ""
    ensures Text.Trim(name.GetOr("")) != "" ==> r == Text.Trim(name.GetOr(""))
  {
    var trimmed := Text.Trim(name.GetOr(""));
    if trimmed != "" then trimmed else if otherName != "" then otherName else "Direct Chat"
  }

  /** A direct chat matching the pair query for two distinct users holds exactly those two, each once. */
  lemma PairMembers(ch: Channel, a: UserId, b: UserId)
    requires a != b && Matches(ch, DirectPair(a, b))
    ensures NoDup(ch.users) && forall v :: v in ch.users <==> v == a || v == b
  {
    var users := ch.users;
    assert forall v :: v in users ==> v == users[0] || v == users[1];
    assert users[0] != users[1];
  }

  /** The direct branch of `createChannel` for the requester `u` and the one other participant: the first
      direct channel holding exactly the two is reused (reactivated if needed); only when there is none is a
      new one opened, its users sorted. */
  function OpenDirect(st: State, u: UserId, other: UserId, name: Option<string>, now: Time): (r: Outcome<ChannelId>)
    requires u != other && other in st.users
    ensures r.Rejected? || Opened(st, r, u, [u, other])
    ensures r.Rejected? ==> r == Rejected(HttpError(500, "Internal server error")) && u !in st.users
    ensures !r.Aborted?
    ensures r.Done? ==> var ch := r.st.channels[r.reply];
            ch.kind == Direct && |ch.users| == 2 && forall v :: v in ch.users <==> v == u || v == other
    ensures var pair := SortPair([u, other]);
            var found := FindChannel(st.channels, DirectPair(pair[0], pair[1]), 0, st.nextId);
            && (found.Some? ==> r == Reactivate(st, found.value, u, now) && (r.Done? ==> r.st.nextId == st.nextId))
            && (found.None? ==>
                  && r.Done? && r.reply == st.nextId && r.st.nextId == st.nextId + 1 && r.st.messages == st.messages
                  && var ch := r.st.channels[r.reply];
                     && ch.users == pair && ch.inviteToken.None? && ch.deletedAt == map[] && ch.unreadCounts == map[]
                     && ch.lastMessage == "" && r.events == CreatedFor(r.reply, ch.users))
  {
    var pair := SortPair([u, other]);
    assert forall v :: v in pair <==> v == u || v == other;
    match FindChannel(st.channels, DirectPair(pair[0], pair[1]), 0, st.nextId)
    case Some(e) =>
      PairMembers(st.channels[e], pair[0], pair[1]);
      ReactivateIsOpened(st, e, u, now, [u, other]);
      Reactivate(st, e, u, now)
    case None =>
      var ch := NewChannel(Direct, Some(DirectTitle(name, st.users[other])), pair, None, now);
      OpenIsOpened(st, ch, u, [u, other]);
      Open(st, ch)
  }

  /** The direct branch of `createChannel` once the listed users are known: exactly two participants
      (the requester included) are required. */
  function CreateDirect(st: State, u: UserId, us: seq<UserId>, name: Option<string>, now: Time): (r: Outcome<ChannelId>)
    requires forall v :: v in us ==> v in st.users
    ensures |Dedup(us + [u])| != 2 <==> r == Rejected(HttpError(400, "Direct chat requires exactly two participants"))
    ensures r.Rejected? || Opened(st, r, u, us)
    ensures !r.Aborted?
    ensures |Dedup(us + [u])| == 2 && u in st.users ==> r.Done?
    ensures r == Rejected(HttpError(500, "Internal server error")) ==> u !in st.users
    ensures r.Done? ==>
              var ch := r.st.channels[r.reply];
              ch.kind == Direct && |ch.users| == 2 && forall v :: v in ch.users <==> v in us || v == u
  {
    var members := Dedup(us + [u]);
    if |members| != 2 then Rejected(HttpError(400, "Direct chat requires exactly two participants"))
    else
      DirectPartner(us, u);
      var other := FirstOther(members, u).value;
      var r := OpenDirect(st, u, other, name, now);
      OpenedWiden(st, r, u, [u, other], us);
      r
  }

  /** Two participants, the requester included, leave exactly one partner, and it is a listed user. */
  lemma DirectPartner(us: seq<UserId>, u: UserId)
    requires |Dedup(us + [u])| == 2
    ensures FirstOther(Dedup(us + [u]), u).Some?
    ensures var other := FirstOther(Dedup(us + [u]), u).value;
            other != u && other in us && forall v :: v in us || v == u <==> v == u || v == other
  {
    var members := Dedup(us + [u]);
    assert forall v :: v in members <==> v in us || v == u;
    assert members[0] != members[1] && members[0] in members && members[1] in members;
    assert forall v :: v in members ==> v == members[0] || v == members[1];
  }

  /** Any other `type` of `createChannel`: a trimmed, non-empty name is required, and the group gets the
      requester added to its members and a fresh invite token. */
  function CreateGroup(st: State, u: UserId, kind: string, us: seq<UserId>, name: Option<string>, now: Time, token: Token): (r: Outcome<ChannelId>)
    requires kind != Direct
    ensures Text.Trim(name.GetOr("")) == "" <==> r == Rejected(HttpError(400, "Group name is required"))
    ensures r.Rejected? || Opened(st, r, u, us)
    ensures r.Done? ==>
              && r.reply == st.nextId && r.st.nextId == st.nextId + 1 && r.st.messages == st.messages
              && var ch := r.st.channels[r.reply];
                 && ch.users == Dedup(us + [u]) && NoDup(ch.users) && ch.kind == kind
                 && ch.name == Some(Text.Trim(name.GetOr(""))) && ch.inviteToken == Some(token)
                 && ch.deletedAt == map[] && ch.unreadCounts == map[] && ch.lastMessage == ""
                 && r.events == CreatedFor(r.reply, ch.users)
  {
    var trimmed := Text.Trim(name.GetOr(""));
    if trimmed == "" then Rejected(HttpError(400, "Group name is required"))
    else
      var members := Dedup(us + [u]);
      assert forall v :: v in members <==> v in us || v == u;
      var ch := NewChannel(kind, Some(trimmed), members, Some(token), now);
      OpenIsOpened(st, ch, u, us);
      Open(st, ch)
  }

  /** `createChannel`. `users` is `None` when the body has no `users` array; `token` is the fresh random
      invite token a group receives. The reply is the id of the created, found or reactivated channel. */
  function CreateChannel(st: State, u: UserId, kind: Option<string>, name: Option<string>, users: Option<seq<UserId>>,
                         now: Time, token: Token): (r: Outcome<ChannelId>)
    ensures kind.None? || kind.value == "" || users.None? ==> r == Rejected(HttpError(400, "Type and users array are required"))
    ensures kind.Some? && kind.value != "" && users.Some? && !(NoDup(users.value) && forall v :: v in users.value ==> v in st.users)
            ==> r == Rejected(HttpError(400, "Invalid user IDs"))
    ensures !r.Aborted?
    ensures r.Done? ==> users.Some? && Opened(st, r, u, users.value)
    ensures r == Rejected(HttpError(500, "Internal server error")) ==> kind == Some(Direct) && u !in st.users
    ensures kind == Some(Direct) && users.Some? && NoDup(users.value) && (forall v :: v in users.value ==> v in st.users)
            ==> r == CreateDirect(st, u, users.value, name, now)
    ensures kind.Some? && kind.value != "" && kind.value != Direct && users.Some? && NoDup(users.value)
            && (forall v :: v in users.value ==> v in st.users)
            ==> r == CreateGroup(st, u, kind.value, users.value, name, now, token)
  {
    if kind.None? || kind.value == "" || users.None? then Rejected(HttpError(400, "Type and users array are required"))
    else
      var us := users.value;
      FoundAll(st, us);
      if |Found(st, us)| != |us| then Rejected(HttpError(400, "Invalid user IDs"))
      else if kind.value == Direct then CreateDirect(st, u, us, name, now)
      else CreateGroup(st, u, kind.value, us, name, now, token)
  }

  // ---------------------------------------------------------------------------------------------
  // listChannels.

  /** A row of the channel list as the requester sees it. */
  datatype ChannelView = ChannelView(
    id: ChannelId,
    name: Option<string>,
    kind: string,
    lastMessage: string,
    lastMessageTime: Time,
    unreadCount: nat,
    lastMessageSenderId: Option<UserId>)

  /** The ids below `n` of the channels `u` belongs to and has not deleted, in increasing order. */
  function ActiveIds(chs: map<ChannelId, Channel>, u: UserId, n: nat): (r: seq<ChannelId>)
    ensures forall c :: c in r <==> c < n && c in chs && IsActiveMember(chs[c], u)
    ensures forall i, j :: 0 <= i < j < |r| ==> r[i] < r[j]
  {
    if n == 0 then []
    else
      var rest := ActiveIds(chs, u, n - 1);
      assert forall i :: 0 <= i < |rest| ==> rest[i] in rest;
      if n - 1 in chs && IsActiveMember(chs[n - 1], u) then rest + [n - 1] else rest
  }

  /** `sort({lastMessageTime: -1, updatedAt: -1})`: `a` (id `i`) is listed no later than `b` (id `j`). */
  predicate ListedBefore(a: Channel, i: ChannelId, b: Channel, j: ChannelId) {
    || a.lastMessageTime > b.lastMessageTime
    || (a.lastMessageTime == b.lastMessageTime && a.updatedAt > b.updatedAt)
    || (a.lastMessageTime == b.lastMessageTime && a.updatedAt == b.updatedAt && i <= j)
  }

  function ListKey(chs: map<ChannelId, Channel>, c: ChannelId): Ordering.Key
    requires c in chs
  {
    Ordering.Key(-chs[c].lastMessageTime, -chs[c].updatedAt, c)
  }

  /** The sort keys of `ids`, in the same order. */
  function ListKeys(chs: map<ChannelId, Channel>, ids: seq<ChannelId>): (r: seq<Ordering.Key>)
    requires forall i :: 0 <= i < |ids| ==> ids[i] in chs
    ensures |r| == |ids| && forall i :: 0 <= i < |ids| ==> r[i] == ListKey(chs, ids[i])
  {
    if ids == [] then [] else [ListKey(chs, ids[0])] + ListKeys(chs, ids[1..])
  }

  /** The channels `u` is an active member of, most recently active first. */
  function ListOrder(chs: map<ChannelId, Channel>, u: UserId, n: nat): (r: seq<ChannelId>)
    ensures forall c :: c in r <==> c < n && c in chs && IsActiveMember(chs[c], u)
    ensures |r| == |ActiveIds(chs, u, n)|
    ensures forall i, j :: 0 <= i < j < |r| ==> r[i] in chs && r[j] in chs && ListedBefore(chs[r[i]], r[i], chs[r[j]], r[j])
  {
    var ids := ActiveIds(chs, u, n);
    var keys := ListKeys(chs, ids);
    var sorted := Ordering.Sort(keys);
    SortedByActivity(chs, ids, keys, sorted);
    Ordering.Ids(sorted)
  }

  lemma SortedByActivity(chs: map<ChannelId, Channel>, ids: seq<ChannelId>, keys: seq<Ordering.Key>, sorted: seq<Ordering.Key>)
    requires forall i :: 0 <= i < |ids| ==> ids[i] in chs
    requires |keys| == |ids| && forall i :: 0 <= i < |ids| ==> keys[i] == ListKey(chs, ids[i])
    requires sorted == Ordering.Sort(keys)
    ensures |sorted| == |ids|
    ensures forall c :: c in Ordering.Ids(sorted) <==> c in ids
    ensures forall i, j :: 0 <= i < j < |sorted| ==>
              sorted[i].id in chs && sorted[j].id in chs && ListedBefore(chs[sorted[i].id], sorted[i].id, chs[sorted[j].id], sorted[j].id)
  {
    Ordering.SortMembers(keys);
    SortedKeysAreListKeys(chs, ids, keys, sorted);
    SortedIds(chs, ids, keys, sorted);
    forall i, j | 0 <= i < j < |sorted|
      ensures sorted[i].id in chs && sorted[j].id in chs
              && ListedBefore(chs[sorted[i].id], sorted[i].id, chs[sorted[j].id], sorted[j].id)
    {
      assert sorted[i] in sorted && sorted[j] in sorted;
      assert Ordering.Le(sorted[i], sorted[j]);
    }
  }

  /** Every sorted key is the list key of a stored channel. */
  lemma SortedKeysAreListKeys(chs: map<ChannelId, Channel>, ids: seq<ChannelId>, keys: seq<Ordering.Key>, sorted: seq<Ordering.Key>)
    requires forall i :: 0 <= i < |ids| ==> ids[i] in chs
    requires |keys| == |ids| && forall i :: 0 <= i < |ids| ==> keys[i] == ListKey(chs, ids[i])
    requires forall k :: k in sorted <==> k in keys
    ensures forall k :: k in sorted ==> k.id in chs && k == ListKey(chs, k.id)
  {
    forall k | k in sorted ensures k.id in chs && k == ListKey(chs, k.id) {
      assert k in keys;
    }
  }

  /** Sorting the keys keeps exactly the listed ids. */
  lemma SortedIds(chs: map<ChannelId, Channel>, ids: seq<ChannelId>, keys: seq<Ordering.Key>, sorted: seq<Ordering.Key>)
    requires forall i :: 0 <= i < |ids| ==> ids[i] in chs
    requires |keys| == |ids| && forall i :: 0 <= i < |ids| ==> keys[i] == ListKey(chs, ids[i])
    requires forall k :: k in sorted <==> k in keys
    ensures forall c :: c in Ordering.Ids(sorted) <==> c in ids
  {
    var r := Ordering.Ids(sorted);
    forall c
      ensures c in r <==> c in ids
    {
      if c in r {
        var j :| 0 <= j < |r| && r[j] == c;
        assert sorted[j] in keys;
      }
      if c in ids {
        var i :| 0 <= i < |ids| && ids[i] == c;
        assert keys[i] in sorted;
        var j :| 0 <= j < |sorted| && sorted[j] == keys[i];
        assert r[j] == c;
      }
    }
  }

  /** The display name of a channel for `u`: a direct chat shows the first other (known) member's name,
      falling back to "Direct Chat"; any other channel shows its own name. */
  function DisplayName(st: State, ch: Channel, u: UserId): (r: Option<string>)
    ensures ch.kind != Direct ==> r == ch.name
    ensures ch.kind == Direct ==> r.Some? && r.value != ""
    ensures ch.kind == Direct && FirstOther(Known(ch.users, st.users), u).None? ==> r == Some("Direct Chat")
  {
    if ch.kind != Direct then ch.name
    else
      match FirstOther(Known(ch.users, st.users), u)
      case None => Some("Direct Chat")
      case Some(v) => if st.users[v] != "" then Some(st.users[v]) else Some("Direct Chat")
  }

  /** One row of the list, built from the newest message `u` can still see. */
  function View(st: State, u: UserId, c: ChannelId): (r: ChannelView)
    requires c in st.channels
    ensures r.id == c && r.kind == st.channels[c].kind && r.unreadCount == Unread(st.channels[c], u)
    ensures r.name == DisplayName(st, st.channels[c], u)
    ensures match Newest(st.messages, c, Some(u), st.nextId)
            case None => r.lastMessage == "" && r.lastMessageTime == st.channels[c].createdAt && r.lastMessageSenderId.None?
            case Some(l) => && r.lastMessage == st.messages[l].text && r.lastMessageTime == st.messages[l].createdAt
                            && (r.lastMessageSenderId.Some? <==> st.messages[l].author.UserAuthored? && st.messages[l].author.id in st.users)
                            && (r.lastMessageSenderId.Some? ==> r.lastMessageSenderId == Some(st.messages[l].author.id))
  {
    var ch := st.channels[c];
    var name := DisplayName(st, ch, u);
    match Newest(st.messages, c, Some(u), st.nextId)
    case None => ChannelView(c, name, ch.kind, "", ch.createdAt, Unread(ch, u), None)
    case Some(l) =>
      var m := st.messages[l];
      var sender := if m.author.UserAuthored? && m.author.id in st.users then Some(m.author.id) else None;
      ChannelView(c, name, ch.kind, m.text, m.createdAt, Unread(ch, u), sender)
  }

  /** `listChannels`: the requester's active channels, most recently active first. */
  function ListChannels(st: State, u: UserId): (r: seq<ChannelView>)
    ensures var order := ListOrder(st.channels, u, st.nextId);
            |r| == |order| && forall i :: 0 <= i < |r| ==> order[i] in st.channels && r[i] == View(st, u, order[i])
  {
    var order := ListOrder(st.channels, u, st.nextId);
    Rows(st, u, order)
  }

  /** One row per listed channel, in order. */
  function Rows(st: State, u: UserId, order: seq<ChannelId>): (r: seq<ChannelView>)
    requires forall i :: 0 <= i < |order| ==> order[i] in st.channels
    ensures |r| == |order| && forall i :: 0 <= i < |order| ==> r[i] == View(st, u, order[i])
  {
    if order == [] then [] else [View(st, u, order[0])] + Rows(st, u, order[1..])
  }

  /** A channel is listed exactly when the requester is an active member of it. */
  lemma ListedIffActive(st: State, u: UserId, c: ChannelId)
    ensures (exists i :: 0 <= i < |ListChannels(st, u)| && ListChannels(st, u)[i].id == c)
            <==> c < st.nextId && c in st.channels && IsActiveMember(st.channels[c], u)
  {
    var r := ListChannels(st, u);
    var order := ListOrder(st.channels, u, st.nextId);
    if c in order {
      var i :| 0 <= i < |order| && order[i] == c;
      assert r[i].id == c;
    }
  }

  // ---------------------------------------------------------------------------------------------
  // updateChannel.

  /** The member list `updateChannel` writes: `[...new Set(users)]` when a list is given, else the old one. */
  function NewMembers(ch: Channel, users: Option<seq<UserId>>): (r: seq<UserId>)
    ensures users.Some? ==> NoDup(r) && forall v :: v in r <==> v in users.value
    ensures users.None? ==> r == ch.users
  {
    if users.Some? then Dedup(users.value) else ch.users
  }

  /** The channel after the first `save()` of `updateChannel`. */
  function Reconfigure(ch: Channel, name: Option<string>, members: seq<UserId>, now: Time): Channel {
    var trimmed := Text.Trim(name.GetOr(""));
    ch.(name := if trimmed != "" then Some(trimmed) else ch.name, users := members, updatedAt := now, lastMessageTime := now)
  }

  /** The writes of `updateChannel` once the request is accepted: the reconfigured channel, the
      "joined" announcements, the "left" announcements, and the closing `channelUpdated` events. With
      `perUserCounts` false those events all carry the requester's unread count, as written; with it true
      each member receives their own. */
  function UpdateSteps(st: State, u: UserId, c: ChannelId, name: Option<string>, members: seq<UserId>, now: Time,
                       perUserCounts: bool): (r: (State, seq<Event>))
    requires c in st.channels
    ensures c in r.0.channels && r.0.channels[c].users == members
  {
    var ch := st.channels[c];
    var st1 := st.(channels := st.channels[c := Reconfigure(ch, name, members, now)]);
    var changes := AnnounceChanges(st1, c, u, Minus(members, ch.users), Minus(ch.users, members), now);
    var chF := changes.0.channels[c];
    var closing := if perUserCounts then UpdatesFor(c, chF, members) else SameUpdateFor(c, members, Unread(chF, u));
    (changes.0, changes.1 + closing)
  }

  /** `updateChannel`: 404 unless the requester is a member, 400 when a listed user is unknown. */
  function UpdateChannelWith(st: State, u: UserId, c: ChannelId, name: Option<string>, users: Option<seq<UserId>>,
                             now: Time, perUserCounts: bool): (r: Outcome<ChannelId>)
    ensures !(c in st.channels && IsMember(st.channels[c], u)) ==> r == Rejected(HttpError(404, "Channel not found or unauthorized"))
    ensures c in st.channels && IsMember(st.channels[c], u) && users.Some? && !(forall v :: v in users.value ==> v in st.users)
            ==> r == Rejected(HttpError(400, "Invalid user IDs"))
    ensures !r.Aborted?
    ensures r.Done? <==> c in st.channels && IsMember(st.channels[c], u) && (users.Some? ==> forall v :: v in users.value ==> v in st.users)
    ensures r.Done? ==> && r.reply == c
                        && (r.st, r.events) == UpdateSteps(st, u, c, name, NewMembers(st.channels[c], users), now, perUserCounts)
  {
    if !(c in st.channels && IsMember(st.channels[c], u)) then Rejected(HttpError(404, "Channel not found or unauthorized"))
    else
      var members := NewMembers(st.channels[c], users);
      FoundAll(st, members);
      if users.Some? && |Found(st, members)| != |members| then Rejected(HttpError(400, "Invalid user IDs"))
      else
        var steps := UpdateSteps(st, u, c, name, members, now, perUserCounts);
        Done(steps.0, steps.1, c)
  }

  /** What `updateChannel` writes to the channel: the new member list and name, both times set to now,
      one unread message per announcement for every member but the requester; nothing else changes. */
  lemma UpdateEffects(st: State, u: UserId, c: ChannelId, name: Option<string>, members: seq<UserId>, now: Time, perUserCounts: bool)
    requires c in st.channels
    ensures var st' := UpdateSteps(st, u, c, name, members, now, perUserCounts).0;
            var ch, ch' := st.channels[c], st'.channels[c];
            var announced := |Known(Minus(members, ch.users), st.users)| + |Known(Minus(ch.users, members), st.users)|;
            && st'.channels.Keys == st.channels.Keys
            && (forall d :: d in st.channels && d != c ==> st'.channels[d] == st.channels[d])
            && st'.users == st.users && st'.receipts == st.receipts
            && (Text.Trim(name.GetOr("")) != "" ==> ch'.name == Some(Text.Trim(name.GetOr(""))))
            && (Text.Trim(name.GetOr("")) == "" ==> ch'.name == ch.name)
            && ch'.updatedAt == now && ch'.lastMessageTime == now
            && ch'.deletedAt == ch.deletedAt && ch'.inviteToken == ch.inviteToken
            && ch'.lastMessage == ch.lastMessage && ch'.kind == ch.kind
            && Unread(ch', u) == Unread(ch, u)
            && (forall v :: v !in members ==> Unread(ch', v) == Unread(ch, v))
            && (NoDup(members) ==> forall v :: v in members && v != u ==> Unread(ch', v) == Unread(ch, v) + announced)
  {
    var ch := st.channels[c];
    var st1 := st.(channels := st.channels[c := Reconfigure(ch, name, members, now)]);
    var joined := Announce(st1, c, u, Minus(members, ch.users), " joined the group", now);
    var left := Announce(joined.0, c, u, Minus(ch.users, members), " left the group", now);
    assert UpdateSteps(st, u, c, name, members, now, perUserCounts).0 == left.0;
    AnnounceFrame(st1, c, u, Minus(members, ch.users), " joined the group", now);
    AnnounceFrame(joined.0, c, u, Minus(ch.users, members), " left the group", now);
    UpdateCounts(st1, c, u, Minus(members, ch.users), Minus(ch.users, members), now);
  }

  /** The two announcement loops together raise every member's count but the requester's by the number of
      users announced. */
  lemma UpdateCounts(st1: State, c: ChannelId, u: UserId, added: seq<UserId>, removed: seq<UserId>, now: Time)
    requires c in st1.channels
    ensures var joined := Announce(st1, c, u, added, " joined the group", now);
            var ch, ch' := st1.channels[c], Announce(joined.0, c, u, removed, " left the group", now).0.channels[c];
            var announced := |Known(added, st1.users)| + |Known(removed, st1.users)|;
            && Unread(ch', u) == Unread(ch, u)
            && (forall v :: v !in ch.users ==> Unread(ch', v) == Unread(ch, v))
            && (NoDup(ch.users) ==> forall v :: v in ch.users && v != u ==> Unread(ch', v) == Unread(ch, v) + announced)
  {
    var joined := Announce(st1, c, u, added, " joined the group", now);
    AnnounceUnread(st1, c, u, added, " joined the group", now);
    AnnounceUnread(joined.0, c, u, removed, " left the group", now);
  }

  /** The two announcement loops of `updateChannel`, run on the reconfigured store `st1`. */
  function AnnounceChanges(st1: State, c: ChannelId, u: UserId, added: seq<UserId>, removed: seq<UserId>, now: Time): (r: (State, seq<Event>))
    requires c in st1.channels
    ensures c in r.0.channels && r.0.channels[c].users == st1.channels[c].users && r.0.users == st1.users
  {
    var joined := Announce(st1, c, u, added, " joined the group", now);
    var left := Announce(joined.0, c, u, removed, " left the group", now);
    (left.0, joined.1 + left.1)
  }

  /** The messages `updateChannel` adds take fresh ids, one per announced user; the stored messages stay. */
  lemma UpdateMessageIds(st1: State, c: ChannelId, u: UserId, added: seq<UserId>, removed: seq<UserId>, now: Time)
    requires c in st1.channels
    ensures var st' := AnnounceChanges(st1, c, u, added, removed, now).0;
            && st'.nextId == st1.nextId + |Known(added, st1.users)| + |Known(removed, st1.users)|
            && (forall id :: id in st1.messages && id < st1.nextId ==> id in st'.messages && st'.messages[id] == st1.messages[id])
            && (forall id :: id in st'.messages ==> id in st1.messages || st1.nextId <= id < st'.nextId)
  {
    var joined := Announce(st1, c, u, added, " joined the group", now);
    AnnounceIds(st1, c, u, added, " joined the group", now);
    AnnounceIds(joined.0, c, u, removed, " left the group", now);
  }

  /** Every message `updateChannel` adds is a system message of the channel, visible to its members. */
  lemma UpdateMessageContent(st1: State, c: ChannelId, u: UserId, added: seq<UserId>, removed: seq<UserId>, now: Time, id: MsgId)
    requires c in st1.channels
    requires st1.nextId <= id < AnnounceChanges(st1, c, u, added, removed, now).0.nextId
    ensures var st' := AnnounceChanges(st1, c, u, added, removed, now).0;
            && id in st'.messages && st'.messages[id].author.System? && st'.messages[id].channelId == c
            && st'.messages[id].visibleTo == st1.channels[c].users
  {
    var joined := Announce(st1, c, u, added, " joined the group", now);
    var left := Announce(joined.0, c, u, removed, " left the group", now);
    assert AnnounceChanges(st1, c, u, added, removed, now).0 == left.0;
    if id < joined.0.nextId {
      AnnouncedIsSystem(st1, c, u, added, " joined the group", now, id);
      AnnounceIds(joined.0, c, u, removed, " left the group", now);
    } else {
      AnnouncedIsSystem(joined.0, c, u, removed, " left the group", now, id);
    }
  }

  /** Every message an announcement loop adds is a system message of the channel, visible to its members. */
  lemma AnnouncedIsSystem(st: State, c: ChannelId, skip: UserId, uids: seq<UserId>, suffix: string, now: Time, id: MsgId)
    requires c in st.channels
    requires st.nextId <= id < Announce(st, c, skip, uids, suffix, now).0.nextId
    ensures var r := Announce(st, c, skip, uids, suffix, now).0;
            && id in r.messages && r.messages[id].author.System? && r.messages[id].channelId == c
            && r.messages[id].visibleTo == st.channels[c].users
  {
    AnnounceIds(st, c, skip, uids, suffix, now);
    AnnounceContent(st, c, skip, uids, suffix, now, id - st.nextId, Announce(st, c, skip, uids, suffix, now).0);
  }

  /** The last `|ch.users|` events are one `channelUpdated` per member of `ch`, in member order, each
      carrying that member's own unread count. */
  ghost predicate EachToldOwnCount(events: seq<Event>, c: ChannelId, ch: Channel) {
    && |events| >= |ch.users|
    && forall i :: 0 <= i < |ch.users| ==>
         events[|events| - |ch.users| + i] == Event(UserRoom(ch.users[i]), ChannelUpdated(c, Unread(ch, ch.users[i])))
  }

  /** The last `|ch.users|` events are one `channelUpdated` per member of `ch`, in member order, all
      carrying the same `count`. */
  ghost predicate AllToldCount(events: seq<Event>, c: ChannelId, ch: Channel, count: nat) {
    && |events| >= |ch.users|
    && forall i :: 0 <= i < |ch.users| ==>
         events[|events| - |ch.users| + i] == Event(UserRoom(ch.users[i]), ChannelUpdated(c, count))
  }

  /** The closing events of `updateChannel`: each member's own count, or the requester's count for all. */
  ghost predicate ClosesUpdate(events: seq<Event>, c: ChannelId, ch: Channel, u: UserId, perUserCounts: bool) {
    if perUserCounts then EachToldOwnCount(events, c, ch) else AllToldCount(events, c, ch, Unread(ch, u))
  }

  lemma UpdateClosing(st: State, u: UserId, c: ChannelId, name: Option<string>, members: seq<UserId>, now: Time, perUserCounts: bool)
    requires c in st.channels
    ensures var r := UpdateSteps(st, u, c, name, members, now, perUserCounts);
            ClosesUpdate(r.1, c, r.0.channels[c], u, perUserCounts)
  {
    var ch := st.channels[c];
    var st1 := st.(channels := st.channels[c := Reconfigure(ch, name, members, now)]);
    var changes := AnnounceChanges(st1, c, u, Minus(members, ch.users), Minus(ch.users, members), now);
    var chF := changes.0.channels[c];
    var closing := if perUserCounts then UpdatesFor(c, chF, members) else SameUpdateFor(c, members, Unread(chF, u));
    var r := UpdateSteps(st, u, c, name, members, now, perUserCounts);
    assert r.0 == changes.0 && r.1 == changes.1 + closing;
    assert chF.users == members;
    ClosingTail(changes.1, closing, c, chF, u, perUserCounts);
  }

  /** The closing events at the end of a longer list keep their property. */
  lemma ClosingTail(pre: seq<Event>, closing: seq<Event>, c: ChannelId, ch: Channel, u: UserId, perUserCounts: bool)
    requires closing == if perUserCounts then UpdatesFor(c, ch, ch.users) else SameUpdateFor(c, ch.users, Unread(ch, u))
    ensures ClosesUpdate(pre + closing, c, ch, u, perUserCounts)
  {
    if perUserCounts {
      EachTail(pre, closing, c, ch);
    } else {
      AllTail(pre, closing, c, ch, Unread(ch, u));
    }
  }

  lemma EachTail(pre: seq<Event>, closing: seq<Event>, c: ChannelId, ch: Channel)
    requires closing == UpdatesFor(c, ch, ch.users)
    ensures EachToldOwnCount(pre + closing, c, ch)
  {
    var all := pre + closing;
    assert |all| == |pre| + |ch.users|;
    forall i | 0 <= i < |ch.users|
      ensures all[|all| - |ch.users| + i] == Event(UserRoom(ch.users[i]), ChannelUpdated(c, Unread(ch, ch.users[i])))
    {
      assert all[|pre| + i] == closing[i];
    }
  }

  lemma AllTail(pre: seq<Event>, closing: seq<Event>, c: ChannelId, ch: Channel, count: nat)
    requires closing == SameUpdateFor(c, ch.users, count)
    ensures AllToldCount(pre + closing, c, ch, count)
  {
    var all := pre + closing;
    assert |all| == |pre| + |ch.users|;
    forall i | 0 <= i < |ch.users|
      ensures all[|all| - |ch.users| + i] == Event(UserRoom(ch.users[i]), ChannelUpdated(c, count))
    {
      assert all[|pre| + i] == closing[i];
    }
  }

  /** The closing events of an accepted update. */
  lemma UpdateWithClosing(st: State, u: UserId, c: ChannelId, name: Option<string>, users: Option<seq<UserId>>, now: Time,
                          perUserCounts: bool)
    ensures var r := UpdateChannelWith(st, u, c, name, users, now, perUserCounts);
            r.Done? ==> c in r.st.channels && ClosesUpdate(r.events, c, r.st.channels[c], u, perUserCounts)
  {
    var r := UpdateChannelWith(st, u, c, name, users, now, perUserCounts);
    if r.Done? {
      UpdateClosing(st, u, c, name, NewMembers(st.channels[c], users), now, perUserCounts);
    }
  }

  /** `updateChannel` as written: every closing `channelUpdated` carries the requester's own unread count. */
  function UpdateChannel(st: State, u: UserId, c: ChannelId, name: Option<string>, users: Option<seq<UserId>>, now: Time): (r: Outcome<ChannelId>)
    ensures r == UpdateChannelWith(st, u, c, name, users, now, false)
    ensures r.Done? ==> c in r.st.channels && AllToldCount(r.events, c, r.st.channels[c], Unread(r.st.channels[c], u))
  {
    UpdateWithClosing(st, u, c, name, users, now, false);
    UpdateChannelWith(st, u, c, name, users, now, false)
  }

  /** `updateChannel` with each member's closing `channelUpdated` carrying that member's unread count. */
  function UpdateChannelPerUser(st: State, u: UserId, c: ChannelId, name: Option<string>, users: Option<seq<UserId>>, now: Time): (r: Outcome<ChannelId>)
    ensures r == UpdateChannelWith(st, u, c, name, users, now, true)
    ensures r.Done? ==> c in r.st.channels && EachToldOwnCount(r.events, c, r.st.channels[c])
  {
    UpdateWithClosing(st, u, c, name, users, now, true);
    UpdateChannelWith(st, u, c, name, users, now, true)
  }

  // ---------------------------------------------------------------------------------------------
  // deleteChannel / deleteChat: leaving a channel.

  /** The channel after `u` leaves it: `u`'s soft-delete time set, the summary reset to the channel's
      creation, `u`'s unread count cleared; the member list is kept. */
  function Left(ch: Channel, u: UserId, now: Time): (r: Channel)
    ensures IsMember(ch, u) ==> IsMember(r, u) && !IsActiveMember(r, u)
    ensures r.users == ch.users && r.kind == ch.kind && r.name == ch.name && r.inviteToken == ch.inviteToken
    ensures Unread(r, u) == 0 && forall v :: v != u ==> Unread(r, v) == Unread(ch, v)
    ensures forall v :: v != u ==> (v in r.deletedAt <==> v in ch.deletedAt)
    ensures r.lastMessage == "" && r.lastMessageTime == ch.createdAt && r.lastMessageSenderId.None?
  {
    ch.(deletedAt := ch.deletedAt[u := now], lastMessage := "", lastMessageTime := ch.createdAt,
        lastMessageSenderId := None, unreadCounts := ch.unreadCounts[u := 0])
  }

  /** `users.every(uid => deletedAt[uid])`: every member has soft-deleted the channel. */
  predicate AllLeft(ch: Channel) {
    forall v :: v in ch.users ==> v in ch.deletedAt
  }

  /** `Message.deleteMany({channelId: c})`. */
  function Purge(msgs: map<MsgId, Message>, c: ChannelId): (r: map<MsgId, Message>)
    ensures forall id :: id in r <==> id in msgs && msgs[id].channelId != c
    ensures forall id :: id in r ==> r[id] == msgs[id]
  {
    map id | id in msgs && msgs[id].channelId != c :: msgs[id]
  }

  /** The store after the writes every leave performs: `u`'s copies of the channel's messages hidden, then
      the channel saved, or deleted together with its messages once every member has left it. Read
      receipts are not touched. */
  function LeaveWrites(st: State, u: UserId, c: ChannelId, now: Time): (r: State)
    requires c in st.channels
    ensures r.users == st.users && r.receipts == st.receipts && r.nextId == st.nextId
    ensures forall d :: d != c ==> (d in r.channels <==> d in st.channels)
    ensures forall d :: d != c && d in st.channels ==> r.channels[d] == st.channels[d]
    ensures c in r.channels <==> !AllLeft(Left(st.channels[c], u, now))
    ensures c in r.channels ==> r.channels[c] == Left(st.channels[c], u, now) && r.messages == Hide(st.messages, c, u)
    ensures c !in r.channels ==> r.messages == Purge(st.messages, c)
  {
    var ch' := Left(st.channels[c], u, now);
    var hidden := Hide(st.messages, c, u);
    if AllLeft(ch') then st.(channels := st.channels - {c}, messages := Purge(hidden, c))
    else st.(channels := st.channels[c := ch'], messages := hidden)
  }

  /** The "left the group" announcement the leave handlers reach for: `updateChannel`'s `postSystemMessage`
      on the saved channel, then `channelUpdated` to every other member with that member's own count. */
  function AnnounceLeave(st: State, u: UserId, c: ChannelId, now: Time): (r: (State, seq<Event>))
    requires c in st.channels && u in st.users
    ensures c in r.0.channels
    ensures var ch, ch' := st.channels[c], r.0.channels[c];
            && r.0.nextId == st.nextId + 1
            && r.0.messages == st.messages[st.nextId := SystemMessage(c, st.users[u] + " left the group", now, ch.users)]
            && r.0.channels == st.channels[c := ch'] && ch' == ch.(unreadCounts := ch'.unreadCounts)
            && r.0.users == st.users && r.0.receipts == st.receipts
            && Unread(ch', u) == Unread(ch, u)
            && (NoDup(ch.users) ==> forall v :: v in ch.users && v != u ==> Unread(ch', v) == Unread(ch, v) + 1)
            && r.1 == [Event(ChannelRoom(c), ReceiveMessage(st.nextId))] + UpdatesFor(c, ch', RemoveAll(ch.users, u))
  {
    var ch := st.channels[c];
    var posted := PostSystem(st, c, u, st.users[u] + " left the group", ch.users, now);
    BumpCounts(ch.unreadCounts, ch.users, u);
    (posted.0, posted.1 + UpdatesFor(c, posted.0.channels[c], RemoveAll(ch.users, u)))
  }

  /** The error a leave that throws after its writes reports: the HTTP error handler's 500, or the socket
      handler's callback error. */
  function LeaveFailure(t: Transport): Error {
    if t == Http then HttpError(500, "Internal server error") else SocketError("Failed to delete chat")
  }

  /** `deleteChannel` (HTTP) and `deleteChat` (socket); the reply says whether the channel was deleted for
      everyone. Leaving a group that others still have goes on to announce the departure; with `announce`
      false that call is the unresolved `postSystemMessage`, which throws after the writes, as written; with
      it true it is `updateChannel`'s helper (a requester the User collection does not know still throws,
      on `user.name`). */
  function LeaveWith(st: State, t: Transport, u: UserId, c: ChannelId, now: Time, announce: bool): (r: Outcome<bool>)
    ensures !(c in st.channels && IsMember(st.channels[c], u)) ==>
              r == Rejected(if t == Http then HttpError(404, "Channel not found or unauthorized") else SocketError("Unauthorized or invalid channel"))
    ensures c in st.channels && IsMember(st.channels[c], u) ==>
              var ch := st.channels[c];
              var purged := AllLeft(Left(ch, u, now));
              && !r.Rejected?
              && |r.events| >= 1 && r.events[0] == Event(UserRoom(u), ChannelDeleted(c))
              && (r.Aborted? <==> ch.kind == Group && !purged && !(announce && u in st.users))
              && (r.Aborted? ==> r.error == LeaveFailure(t) && r.st == LeaveWrites(st, u, c, now) && |r.events| == 1)
              && (r.Done? ==> r.reply == purged)
              && (r.Done? && !(ch.kind == Group && !purged) ==> r.st == LeaveWrites(st, u, c, now) && |r.events| == 1)
              && (r.Done? && ch.kind == Group && !purged ==>
                    (r.st, r.events[1..]) == AnnounceLeave(LeaveWrites(st, u, c, now), u, c, now))
  {
    if !(c in st.channels && IsMember(st.channels[c], u)) then
      Rejected(if t == Http then HttpError(404, "Channel not found or unauthorized") else SocketError("Unauthorized or invalid channel"))
    else
      var ch := st.channels[c];
      var purged := AllLeft(Left(ch, u, now));
      var st' := LeaveWrites(st, u, c, now);
      var gone := [Event(UserRoom(u), ChannelDeleted(c))];
      if ch.kind == Group && !purged then
        if announce && u in st.users then
          var announced := AnnounceLeave(st', u, c, now);
          assert (gone + announced.1)[1..] == announced.1;
          Done(announced.0, gone + announced.1, false)
        else Aborted(st', gone, LeaveFailure(t))
      else Done(st', gone, purged)
  }

  /** `deleteChannel`, as written. */
  function DeleteChannel(st: State, u: UserId, c: ChannelId, now: Time): (r: Outcome<bool>)
    ensures r == LeaveWith(st, Http, u, c, now, false)
    ensures r.Done? ==> c in st.channels && (st.channels[c].kind != Group || r.reply)
  {
    LeaveWith(st, Http, u, c, now, false)
  }

  /** `deleteChat`, as written. */
  function DeleteChat(st: State, u: UserId, c: ChannelId, now: Time): (r: Outcome<bool>)
    ensures r == LeaveWith(st, Socket, u, c, now, false)
    ensures r.Done? ==> c in st.channels && (st.channels[c].kind != Group || r.reply)
  {
    LeaveWith(st, Socket, u, c, now, false)
  }

  /** Either leave handler with the departure announced through `updateChannel`'s helper. */
  function LeaveAnnounced(st: State, t: Transport, u: UserId, c: ChannelId, now: Time): (r: Outcome<bool>)
    ensures r == LeaveWith(st, t, u, c, now, true)
    ensures c in st.channels && IsMember(st.channels[c], u) && u in st.users ==> r.Done?
  {
    LeaveWith(st, t, u, c, now, true)
  }

  /** The channel is deleted for everyone exactly when every other member had already left it. */
  lemma PurgedIffOthersLeft(st: State, t: Transport, u: UserId, c: ChannelId, now: Time, announce: bool)
    requires c in st.channels && IsMember(st.channels[c], u)
    ensures var r := LeaveWith(st, t, u, c, now, announce);
            c !in r.st.channels <==> forall v :: v in st.channels[c].users && v != u ==> v in st.channels[c].deletedAt
  {
    var ch := st.channels[c];
    var ch' := Left(ch, u, now);
    assert AllLeft(ch') <==> forall v :: v in ch.users && v != u ==> v in ch.deletedAt;
  }

  /** After a leave, whatever its outcome, the channel is gone from the requester's list and none of the
      channel's earlier messages is visible to the requester any more. */
  lemma LeaveHidesChannel(st: State, t: Transport, u: UserId, c: ChannelId, now: Time, announce: bool)
    requires c in st.channels && IsMember(st.channels[c], u)
    ensures var st' := LeaveWith(st, t, u, c, now, announce).st;
            && !(c in st'.channels && IsActiveMember(st'.channels[c], u))
            && (forall id :: id in st'.messages && id < st.nextId && st'.messages[id].channelId == c ==> u !in st'.messages[id].visibleTo)
            && forall i :: 0 <= i < |ListChannels(st', u)| ==> ListChannels(st', u)[i].id != c
  {
    var r := LeaveWith(st, t, u, c, now, announce);
    var st' := r.st;
    var w := LeaveWrites(st, u, c, now);
    var ch := st.channels[c];
    if c in w.channels && ch.kind == Group && announce && u in st.users {
      var a := AnnounceLeave(w, u, c, now);
      assert st' == a.0;
    }
    forall id | id in st'.messages && id < st.nextId && st'.messages[id].channelId == c
      ensures u !in st'.messages[id].visibleTo
    {
      assert id in w.messages && st'.messages[id] == w.messages[id];
    }
    forall i | 0 <= i < |ListChannels(st', u)|
      ensures ListChannels(st', u)[i].id != c
    {
      ListedIffActive(st', u, c);
    }
  }

  /** As written, leaving a group that another member still has always fails, after the channel was
      saved and the requester told it is gone. */
  lemma GroupLeaveFails(st: State, t: Transport, u: UserId, c: ChannelId, other: UserId, now: Time)
    requires c in st.channels && IsMember(st.channels[c], u) && st.channels[c].kind == Group
    requires other != u && IsActiveMember(st.channels[c], other)
    ensures var r := LeaveWith(st, t, u, c, now, false);
            && r.Aborted? && r.error == LeaveFailure(t)
            && c in r.st.channels && r.st.channels[c] == Left(st.channels[c], u, now)
            && r.events == [Event(UserRoom(u), ChannelDeleted(c))]
  {
    assert !AllLeft(Left(st.channels[c], u, now));
  }

  /** With the announcement in place, leaving a group the others still have completes: one system message,
      visible to the members, is added, and every other member's unread count rises by exactly one. */
  lemma GroupLeaveAnnounced(st: State, t: Transport, u: UserId, c: ChannelId, other: UserId, now: Time)
    requires c in st.channels && IsMember(st.channels[c], u) && st.channels[c].kind == Group && NoDup(st.channels[c].users)
    requires other != u && IsActiveMember(st.channels[c], other) && u in st.users
    ensures var r := LeaveAnnounced(st, t, u, c, now);
            var ch := st.channels[c];
            && r.Done? && !r.reply && c in r.st.channels && r.st.nextId == st.nextId + 1
            && st.nextId in r.st.messages && r.st.messages[st.nextId].author.System?
            && r.st.messages[st.nextId].visibleTo == ch.users
            && Unread(r.st.channels[c], u) == 0
            && forall v :: v in ch.users && v != u ==> Unread(r.st.channels[c], v) == Unread(ch, v) + 1
  {
    var ch := st.channels[c];
    assert !AllLeft(Left(ch, u, now));
    var w := LeaveWrites(st, u, c, now);
    var a := AnnounceLeave(w, u, c, now);
    assert LeaveAnnounced(st, t, u, c, now).st == a.0;
  }
}

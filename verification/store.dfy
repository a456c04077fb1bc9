/** The abstract store the handlers read and write, the events they emit, and the queries they run. */
module Store {
  import opened Base
  import opened MessageSchema
  import opened ChannelSchema
  import opened ReceiptSchema

  /** The four collections. `users` maps a user id to its display name; `nextId` is the id the store
      hands out next. */
  datatype State = State(
    users: map<UserId, string>,
    channels: map<ChannelId, Channel>,
    messages: map<MsgId, Message>,
    receipts: Receipts,
    nextId: nat)

  /** The store's own invariant: ids were handed out below `nextId`, every message belongs to a live
      channel (a purge takes a channel's messages with it), and no channel lists a member twice. */
  predicate Valid(st: State) {
    && (forall c :: c in st.channels ==> c < st.nextId && NoDup(st.channels[c].users))
    && (forall m :: m in st.messages ==> m < st.nextId && st.messages[m].channelId in st.channels)
  }

  /** A Socket.IO room: a channel's room, or the private room of one user. */
  datatype Room = ChannelRoom(channel: ChannelId) | UserRoom(user: UserId)

  datatype EventKind =
    | ReceiveMessage(message: MsgId)
    | MessageUpdated(message: MsgId)
    | MessageDeleted(message: MsgId)
    | MessageSeen(message: MsgId, seenBy: UserId)
    | ChannelCreated(channel: ChannelId)
    | ChannelUpdated(channel: ChannelId, unreadCount: nat)   // the unread count the payload carries
    | ChannelDeleted(channel: ChannelId)

  datatype Event = Event(room: Room, kind: EventKind)

  /** How a failure reaches the client: an HTTP status with an error body, a socket callback error, or
      nothing at all, when the handler's own error path throws and the request is left unanswered. */
  datatype Error = HttpError(status: nat, reason: string) | SocketError(reason: string) | NoReply

  datatype Transport = Http | Socket

  function Fail(t: Transport, status: nat, reason: string): Error {
    if t == Http then HttpError(status, reason) else SocketError(reason)
  }

  /** The emit of `kind` to channel `c`'s room. The HTTP controllers name that room by the message's
      stored `channelId`, an ObjectId, while sockets join the room of the string id; Socket.IO keys its
      rooms by value, so over HTTP the emit reaches no socket and there is no event. */
  function ChannelEcho(t: Transport, c: ChannelId, kind: EventKind): seq<Event> {
    if t == Socket then [Event(ChannelRoom(c), kind)] else []
  }

  /** The outcome of one handler: it finished; it refused before writing anything; or it threw after
      some of its writes were already committed (those writes and the events already sent remain). */
  datatype Outcome<R> =
    | Done(st: State, events: seq<Event>, reply: R)
    | Rejected(error: Error)
    | Aborted(st: State, events: seq<Event>, error: Error)
  {
    /** The store after the handler, whatever its outcome. */
    function After(before: State): State {
      if Rejected? then before else st
    }
  }

  /** `channelUpdated` to every listed user's room, each carrying that user's unread count. */
  function UpdatesFor(c: ChannelId, ch: Channel, users: seq<UserId>): (r: seq<Event>)
    ensures |r| == |users|
    ensures forall i :: 0 <= i < |users| ==> r[i] == Event(UserRoom(users[i]), ChannelUpdated(c, Unread(ch, users[i])))
  {
    if users == [] then []
    else [Event(UserRoom(users[0]), ChannelUpdated(c, Unread(ch, users[0])))] + UpdatesFor(c, ch, users[1..])
  }

  /** `channelUpdated` to every listed user's room, all carrying the same unread count. */
  function SameUpdateFor(c: ChannelId, users: seq<UserId>, count: nat): (r: seq<Event>)
    ensures |r| == |users|
    ensures forall i :: 0 <= i < |users| ==> r[i] == Event(UserRoom(users[i]), ChannelUpdated(c, count))
  {
    if users == [] then []
    else [Event(UserRoom(users[0]), ChannelUpdated(c, count))] + SameUpdateFor(c, users[1..], count)
  }

  /** `channelCreated` to every listed user's room. */
  function CreatedFor(c: ChannelId, users: seq<UserId>): (r: seq<Event>)
    ensures |r| == |users|
    ensures forall i :: 0 <= i < |users| ==> r[i] == Event(UserRoom(users[i]), ChannelCreated(c))
  {
    if users == [] then []
    else [Event(UserRoom(users[0]), ChannelCreated(c))] + CreatedFor(c, users[1..])
  }

  // ---------------------------------------------------------------------------------------------
  // Message queries: a scan of the ids below a bound, which under Valid is every message.

  /** A message of channel `c`, and, when `viewer` is given, one whose `visibleTo` lists the viewer. */
  predicate InScope(m: Message, c: ChannelId, viewer: Option<UserId>) {
    m.channelId == c && (viewer.Some? ==> viewer.value in m.visibleTo)
  }

  /** `sort({createdAt: -1})`: `a` (id `i`) sorts no later than `b` (id `j`); equal times go to the later id. */
  predicate AtLeastAsNew(a: Message, i: MsgId, b: Message, j: MsgId) {
    a.createdAt > b.createdAt || (a.createdAt == b.createdAt && i >= j)
  }

  /** `findOne({channelId: c[, visibleTo: viewer]}).sort({createdAt: -1})` over the ids below `n`. */
  function Newest(msgs: map<MsgId, Message>, c: ChannelId, viewer: Option<UserId>, n: nat): (r: Option<MsgId>)
    ensures r.Some? ==> r.value < n && r.value in msgs && InScope(msgs[r.value], c, viewer)
    ensures r.Some? ==> forall id :: id < n && id in msgs && InScope(msgs[id], c, viewer) ==>
                          AtLeastAsNew(msgs[r.value], r.value, msgs[id], id)
    ensures r.None? <==> forall id :: id < n && id in msgs ==> !InScope(msgs[id], c, viewer)
  {
    if n == 0 then None
    else
      var rest := Newest(msgs, c, viewer, n - 1);
      var id := n - 1;
      if id in msgs && InScope(msgs[id], c, viewer) && (rest.None? || AtLeastAsNew(msgs[id], id, msgs[rest.value], rest.value))
      then Some(id)
      else rest
  }

  /** `Newest` reads only which messages exist and their channel, audience and creation time. */
  lemma {:induction false} NewestFrame(msgs: map<MsgId, Message>, msgs': map<MsgId, Message>, c: ChannelId, viewer: Option<UserId>, n: nat)
    requires forall id :: id < n ==> (id in msgs <==> id in msgs')
    requires forall id :: id < n && id in msgs ==> && msgs[id].channelId == msgs'[id].channelId
                                                   && msgs[id].visibleTo == msgs'[id].visibleTo
                                                   && msgs[id].createdAt == msgs'[id].createdAt
    ensures Newest(msgs, c, viewer, n) == Newest(msgs', c, viewer, n)
  {
    if n > 0 {
      NewestFrame(msgs, msgs', c, viewer, n - 1);
    }
  }

  /** The ids below `n` of the messages in scope, in increasing id order. */
  function ScopeIds(msgs: map<MsgId, Message>, c: ChannelId, viewer: Option<UserId>, n: nat): (r: seq<MsgId>)
    ensures forall id :: id in r <==> id < n && id in msgs && InScope(msgs[id], c, viewer)
    ensures forall i, j :: 0 <= i < j < |r| ==> r[i] < r[j]
  {
    if n == 0 then []
    else
      var rest := ScopeIds(msgs, c, viewer, n - 1);
      assert forall i :: 0 <= i < |rest| ==> rest[i] in rest;
      if n - 1 in msgs && InScope(msgs[n - 1], c, viewer) then rest + [n - 1] else rest
  }

  /** A message of channel `c`, not written by `u` (system messages included), that `u` holds no receipt for. */
  predicate UnreadBy(msgs: map<MsgId, Message>, rs: Receipts, c: ChannelId, u: UserId, id: MsgId) {
    id in msgs && msgs[id].channelId == c && !AuthoredBy(msgs[id], u) && !HasSeen(rs, id, u)
  }

  /** The recount of `markSeen`: one for every such message with an id below `n`. */
  function CountUnread(msgs: map<MsgId, Message>, rs: Receipts, c: ChannelId, u: UserId, n: nat): (k: nat)
    ensures k <= n
  {
    if n == 0 then 0
    else CountUnread(msgs, rs, c, u, n - 1) + (if UnreadBy(msgs, rs, c, u, n - 1) then 1 else 0)
  }

  /** The recount is the number of unread messages, the set-based reading of the rule. */
  lemma {:induction false} CountUnreadIsCardinality(msgs: map<MsgId, Message>, rs: Receipts, c: ChannelId, u: UserId, n: nat)
    ensures CountUnread(msgs, rs, c, u, n) == |set id: nat | id < n && UnreadBy(msgs, rs, c, u, id)|
  {
    if n > 0 {
      CountUnreadIsCardinality(msgs, rs, c, u, n - 1);
      var prev := set id: nat | id < n - 1 && UnreadBy(msgs, rs, c, u, id);
      var all := set id: nat | id < n && UnreadBy(msgs, rs, c, u, id);
      if UnreadBy(msgs, rs, c, u, n - 1) {
        assert all == prev + {n - 1};
      } else {
        assert all == prev;
      }
    }
  }

  /** The recount reads only which messages exist, their channel and author, and the user's receipts. */
  lemma {:induction false} CountUnreadFrame(msgs: map<MsgId, Message>, rs: Receipts, msgs': map<MsgId, Message>, rs': Receipts, c: ChannelId, u: UserId, n: nat)
    requires forall id: nat :: id < n ==> (UnreadBy(msgs, rs, c, u, id) <==> UnreadBy(msgs', rs', c, u, id))
    ensures CountUnread(msgs, rs, c, u, n) == CountUnread(msgs', rs', c, u, n)
  {
    if n > 0 {
      CountUnreadFrame(msgs, rs, msgs', rs', c, u, n - 1);
    }
  }

  // ---------------------------------------------------------------------------------------------
  // Channel queries.

  /** What a `Channel.findOne` filter asks for. */
  datatype ChannelQuery =
    | DirectPair(a: UserId, b: UserId)      // {type: "direct", users: {$all: [a, b], $size: 2}}
    | WithToken(token: Token)               // {inviteToken: token}

  predicate Matches(ch: Channel, q: ChannelQuery) {
    match q
    case DirectPair(a, b) => ch.kind == Direct && |ch.users| == 2 && a in ch.users && b in ch.users
    case WithToken(t) => ch.inviteToken == Some(t)
  }

  /** `Channel.findOne(q)` in natural (insertion) order: the smallest matching id in `[from, n)`. */
  function FindChannel(chs: map<ChannelId, Channel>, q: ChannelQuery, from: nat, n: nat): (r: Option<ChannelId>)
    ensures r.Some? ==> from <= r.value < n && r.value in chs && Matches(chs[r.value], q)
    ensures r.Some? ==> forall id :: from <= id < r.value && id in chs ==> !Matches(chs[id], q)
    ensures r.None? <==> forall id :: from <= id < n && id in chs ==> !Matches(chs[id], q)
    decreases n - from
  {
    if from >= n then None
    else if from in chs && Matches(chs[from], q) then Some(from)
    else FindChannel(chs, q, from + 1, n)
  }

  /** The users of `us` the User collection knows (`User.find({_id: {$in: us}})`). */
  function Found(st: State, us: seq<UserId>): set<UserId> {
    set u | u in us && u in st.users
  }

  /** A subset at least as large as its superset is the superset. */
  lemma SubsetOfSameSize<T>(a: set<T>, b: set<T>)
    requires a <= b && |a| >= |b|
    ensures a == b
  {
    assert b == a + (b - a) && a !! (b - a);
  }

  /** `validUsers.length !== users.length` is false exactly when the list names only known users, each once. */
  lemma FoundAll(st: State, us: seq<UserId>)
    ensures |Found(st, us)| == |us| <==> NoDup(us) && forall u :: u in us ==> u in st.users
  {
    DistinctElements(us);
    var all := set u | u in us;
    assert Found(st, us) <= all;
    if |Found(st, us)| == |us| {
      SubsetOfSameSize(Found(st, us), all);
      forall u | u in us
        ensures u in st.users
      {
        assert u in all;
      }
    }
    if NoDup(us) && forall u :: u in us ==> u in st.users {
      assert Found(st, us) == all;
    }
  }
}

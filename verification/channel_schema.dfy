/** The Channel document: members, the invite token and the per-user maps the handlers maintain. */
module ChannelSchema {
  import opened Base
  import Text

  const Direct: string := "direct"
  const Group: string := "group"

  datatype Channel = Channel(
    kind: string,                        // required; the handlers distinguish "direct" and "group"
    name: Option<string>,
    users: seq<UserId>,
    inviteToken: Option<Token>,
    deletedAt: map<UserId, Time>,        // per-user soft-delete time
    lastMessage: string,
    lastMessageTime: Time,
    lastMessageSenderId: Option<UserId>,
    unreadCounts: map<UserId, nat>,
    createdAt: Time,
    updatedAt: Time)

  /** The schema's conditional requirement: a group must carry a name (an empty string counts as missing). */
  predicate NameOk(c: Channel) {
    c.kind == Group ==> c.name.Some? && c.name.value != ""
  }

  /** A new document with the schema defaults: empty per-user maps and summary, times at creation. */
  function NewChannel(kind: string, name: Option<string>, users: seq<UserId>, token: Option<Token>, now: Time): (c: Channel)
    ensures c.deletedAt == map[] && c.unreadCounts == map[]
    ensures c.lastMessage == "" && c.lastMessageTime == now && c.lastMessageSenderId.None?
    ensures c.createdAt == now && c.updatedAt == now
    ensures c.kind == kind && c.name == name && c.users == users && c.inviteToken == token
  {
    Channel(kind, name, users, token, map[], "", now, None, map[], now, now)
  }

  /** `unreadCounts.get(u) || 0`. */
  function Unread(c: Channel, u: UserId): nat {
    if u in c.unreadCounts then c.unreadCounts[u] else 0
  }

  predicate IsMember(c: Channel, u: UserId) {
    u in c.users
  }

  /** A member who has not soft-deleted the channel (`deletedAt.<u>` does not exist). */
  predicate IsActiveMember(c: Channel, u: UserId) {
    u in c.users && u !in c.deletedAt
  }

  /** `users.forEach(uid => { if (uid !== skip) counts.set(uid, (counts.get(uid) || 0) + 1) })`. */
  function Bump(counts: map<UserId, nat>, users: seq<UserId>, skip: UserId): (r: map<UserId, nat>)
    ensures skip in counts ==> skip in r && r[skip] == counts[skip]
    ensures skip !in counts ==> skip !in r
    ensures forall v :: v !in users ==> (v in r <==> v in counts) && (v in counts ==> r[v] == counts[v])
    decreases |users|
  {
    if users == [] then counts
    else
      var v := users[0];
      var next := if v != skip then counts[v := (if v in counts then counts[v] else 0) + 1] else counts;
      Bump(next, users[1..], skip)
  }

  /** With distinct members, every member but `skip` gains exactly one unread message and nobody else changes. */
  lemma {:induction false} BumpCounts(counts: map<UserId, nat>, users: seq<UserId>, skip: UserId)
    ensures NoDup(users) ==> forall v :: v in users && v != skip ==> v in Bump(counts, users, skip) && Bump(counts, users, skip)[v] == (if v in counts then counts[v] else 0) + 1
    ensures forall v :: (v !in users || v == skip) ==> (v in Bump(counts, users, skip) <==> v in counts)
    ensures forall v :: (v !in users || v == skip) && v in counts ==> Bump(counts, users, skip)[v] == counts[v]
    decreases |users|
  {
    if users != [] {
      var v := users[0];
      var next := if v != skip then counts[v := (if v in counts then counts[v] else 0) + 1] else counts;
      NoDupSplit(users);
      BumpCounts(next, users[1..], skip);
      assert NoDup(users) ==> v !in users[1..];
      assert forall w :: w in users <==> w == v || w in users[1..];
    }
  }

  /** The channel after a message is posted by `sender`: summary fields rewritten, the sender's unread
      count cleared, every other member's raised by one. */
  function AfterPost(c: Channel, sender: UserId, summary: string, time: Time): (r: Channel)
    ensures r.lastMessage == summary && r.lastMessageTime == time && r.lastMessageSenderId == Some(sender)
    ensures sender in r.unreadCounts && r.unreadCounts[sender] == 0
    ensures NoDup(c.users) ==> forall v :: v in c.users && v != sender ==> Unread(r, v) == Unread(c, v) + 1
    ensures forall v :: v !in c.users && v != sender ==> Unread(r, v) == Unread(c, v)
    ensures r.users == c.users && r.deletedAt == c.deletedAt && r.name == c.name && r.kind == c.kind && r.inviteToken == c.inviteToken
    ensures r.createdAt == c.createdAt && r.updatedAt == c.updatedAt
  {
    var counts := c.unreadCounts[sender := 0];
    BumpCounts(counts, c.users, sender);
    c.(lastMessage := summary, lastMessageTime := time, lastMessageSenderId := Some(sender),
       unreadCounts := Bump(counts, c.users, sender))
  }
}

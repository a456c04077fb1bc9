/** The invite handlers: the link's token is kept, replaced, or redeemed for membership. The token generator
    (a hash of the channel id, the clock and a random number) is abstracted as the value `newToken` it yields. */
module Invites {
  import opened Base
  import opened ChannelSchema
  import opened Store

  /** `channel.inviteToken` is truthy: present and not the empty string. */
  predicate HasToken(ch: Channel) {
    ch.inviteToken.Some? && ch.inviteToken.value != ""
  }

  /** The store with channel `c`'s token set to `t` and nothing else touched. */
  function SetToken(st: State, c: ChannelId, t: Token): State
    requires c in st.channels
  {
    st.(channels := st.channels[c := st.channels[c].(inviteToken := Some(t))])
  }

  /** `generateInviteLink`; the reply is the token the link ends in. */
  function GenerateInviteLink(st: State, c: ChannelId, newToken: Token): (r: Outcome<Token>)
    ensures c !in st.channels <==> r == Rejected(HttpError(404, "Channel not found"))
    ensures r.Done? ==> r.events == [] && r.st == SetToken(st, c, r.reply)
    ensures r.Done? && HasToken(st.channels[c]) ==> r.st == st && Some(r.reply) == st.channels[c].inviteToken
    ensures r.Done? && !HasToken(st.channels[c]) ==> r.reply == newToken
    ensures !r.Aborted?
  {
    if c !in st.channels then Rejected(HttpError(404, "Channel not found"))
    else
      var ch := st.channels[c];
      if HasToken(ch) then
        assert st.channels[c := ch] == st.channels;
        Done(st, [], ch.inviteToken.value)
      else Done(SetToken(st, c, newToken), [], newToken)
  }

  /** `regenerateInviteLink`: the token is replaced whether or not the channel had one. */
  function RegenerateInviteLink(st: State, c: ChannelId, newToken: Token): (r: Outcome<Token>)
    ensures c !in st.channels <==> r == Rejected(HttpError(404, "Channel not found"))
    ensures r.Done? ==> r.events == [] && r.reply == newToken && c in r.st.channels && r.st.channels[c].inviteToken == Some(newToken)
    ensures r.Done? ==> r.st.channels.Keys == st.channels.Keys && r.st.messages == st.messages && r.st.users == st.users
                        && r.st.receipts == st.receipts && r.st.nextId == st.nextId
    ensures r.Done? ==> forall d :: d in st.channels && d != c ==> r.st.channels[d] == st.channels[d]
    ensures r.Done? ==> r.st.channels[c] == st.channels[c].(inviteToken := Some(newToken))
    ensures !r.Aborted?
  {
    if c !in st.channels then Rejected(HttpError(404, "Channel not found"))
    else Done(SetToken(st, c, newToken), [], newToken)
  }

  /** `acceptInvite`: `Channel.findOne({inviteToken: token})`, then the requester is appended unless already
      listed. No event is sent and nothing but the member list changes. */
  function AcceptInvite(st: State, u: UserId, token: Token): (r: Outcome<ChannelId>)
    ensures (forall id :: id < st.nextId && id in st.channels ==> st.channels[id].inviteToken != Some(token))
            <==> r == Rejected(HttpError(404, "Invalid or expired invite link"))
    ensures !r.Aborted?
    ensures r.Done? ==>
              var c := r.reply;
              && c < st.nextId && c in st.channels && st.channels[c].inviteToken == Some(token)
              && (forall d :: d < c && d in st.channels ==> st.channels[d].inviteToken != Some(token))
              && r.events == [] && c in r.st.channels
              && r.st == st.(channels := st.channels[c := st.channels[c].(users := r.st.channels[c].users)])
              && (forall v :: v in r.st.channels[c].users <==> v in st.channels[c].users || v == u)
              && st.channels[c].users <= r.st.channels[c].users
              && |r.st.channels[c].users| == |st.channels[c].users| + (if u in st.channels[c].users then 0 else 1)
              && (NoDup(st.channels[c].users) ==> NoDup(r.st.channels[c].users))
  {
    match FindChannel(st.channels, WithToken(token), 0, st.nextId)
    case None => Rejected(HttpError(404, "Invalid or expired invite link"))
    case Some(c) =>
      var ch := st.channels[c];
      if u in ch.users then
        assert st.channels[c := ch.(users := ch.users)] == st.channels;
        Done(st, [], c)
      else Done(st.(channels := st.channels[c := ch.(users := ch.users + [u])]), [], c)
  }

  /** Asking for the link again yields the same token: the first call's token is kept. */
  lemma GenerateIdempotent(st: State, c: ChannelId, newToken: Token, newToken2: Token)
    requires newToken != ""
    ensures var r1 := GenerateInviteLink(st, c, newToken);
            r1.Done? ==> GenerateInviteLink(r1.st, c, newToken2) == Done(r1.st, [], r1.reply)
  {
    var r1 := GenerateInviteLink(st, c, newToken);
    if r1.Done? {
      assert r1.st.channels[c].inviteToken == Some(r1.reply);
      assert HasToken(r1.st.channels[c]);
    }
  }

  /** Once the token is regenerated to a different value, the old token no longer admits anyone to the
      channel: redeeming it either fails or reaches another channel that holds the same token. */
  lemma RegenerateRevokes(st: State, c: ChannelId, newToken: Token, previous: Token, u: UserId)
    requires c in st.channels && st.channels[c].inviteToken == Some(previous) && previous != newToken
    ensures var st' := RegenerateInviteLink(st, c, newToken).st;
            var r := AcceptInvite(st', u, previous);
            r.Done? ==> r.reply != c
  {
  }

  /** Redeeming the same invite twice changes nothing the second time. */
  lemma AcceptIdempotent(st: State, u: UserId, token: Token)
    ensures var r1 := AcceptInvite(st, u, token);
            r1.Done? ==> AcceptInvite(r1.st, u, token) == Done(r1.st, [], r1.reply)
  {
    var r1 := AcceptInvite(st, u, token);
    if r1.Done? {
      var c := r1.reply;
      assert forall d :: d in st.channels <==> d in r1.st.channels;
      assert forall d :: d in st.channels ==> r1.st.channels[d].inviteToken == st.channels[d].inviteToken;
      var r2 := AcceptInvite(r1.st, u, token);
      assert r2.Done? && r2.reply == c;
    }
  }

  /** Redeeming an invite to a channel the requester has left does not bring the channel back: the
      soft-delete entry stays, so the channel stays out of the requester's list. */
  lemma AcceptKeepsLeft(st: State, u: UserId, token: Token)
    ensures var r := AcceptInvite(st, u, token);
            r.Done? && u in st.channels[r.reply].deletedAt ==> !IsActiveMember(r.st.channels[r.reply], u)
  {
  }

  /** The invite handlers keep the store's invariant: tokens touch no id, and a redeemed invite never lists
      a member twice. */
  lemma TokenKeepsValid(st: State, c: ChannelId, t: Token)
    requires Valid(st) && c in st.channels
    ensures Valid(SetToken(st, c, t))
  {
    var st' := SetToken(st, c, t);
    assert forall d :: d in st'.channels ==> d in st.channels && st'.channels[d].users == st.channels[d].users;
  }

  lemma AcceptKeepsValid(st: State, u: UserId, token: Token)
    requires Valid(st)
    ensures Valid(AcceptInvite(st, u, token).After(st))
  {
    var r := AcceptInvite(st, u, token);
    if r.Done? {
      assert forall d :: d in r.st.channels ==> d in st.channels && (d != r.reply ==> r.st.channels[d] == st.channels[d]);
    }
  }
}

/** The MessageReadReceipt collection: one `seenAt` per (message, user) pair. */
module ReceiptSchema {
  import opened Base

  /** The collection keyed by its compound unique index `{messageId, userId}`. */
  type Receipts = map<(MsgId, UserId), Time>

  datatype Receipt = Receipt(messageId: MsgId, userId: UserId, seenAt: Time)

  /** The documents the collection holds. */
  function Documents(rs: Receipts): set<Receipt> {
    set k | k in rs :: Receipt(k.0, k.1, rs[k])
  }

  /** The unique index holds: two documents with the same message and user are the same document. */
  lemma UniquePerPair(rs: Receipts, a: Receipt, b: Receipt)
    requires a in Documents(rs) && b in Documents(rs)
    requires a.messageId == b.messageId && a.userId == b.userId
    ensures a == b
  {
    var ka :| ka in rs && a == Receipt(ka.0, ka.1, rs[ka]);
    var kb :| kb in rs && b == Receipt(kb.0, kb.1, rs[kb]);
    assert ka == kb;
  }

  predicate HasSeen(rs: Receipts, m: MsgId, u: UserId) {
    (m, u) in rs
  }

  /** `findOneAndUpdate({messageId, userId}, {seenAt: now}, {upsert: true})`: creates the pair's
      document or refreshes its `seenAt`; no other document changes and no pair is duplicated. */
  function Upsert(rs: Receipts, m: MsgId, u: UserId, now: Time): (r: Receipts)
    ensures Receipt(m, u, now) in Documents(r)
    ensures forall d :: d in Documents(r) && (d.messageId != m || d.userId != u) ==> d in Documents(rs)
    ensures forall d :: d in Documents(rs) && (d.messageId != m || d.userId != u) ==> d in Documents(r)
    ensures |r| == if (m, u) in rs then |rs| else |rs| + 1
    ensures r.Keys == rs.Keys + {(m, u)}
  {
    var r := rs[(m, u) := now];
    assert (m, u) in r;
    forall d | d in Documents(r) && (d.messageId != m || d.userId != u)
      ensures d in Documents(rs)
    {
      var k :| k in r && d == Receipt(k.0, k.1, r[k]);
      assert k in rs;
    }
    forall d | d in Documents(rs) && (d.messageId != m || d.userId != u)
      ensures d in Documents(r)
    {
      var k :| k in rs && d == Receipt(k.0, k.1, rs[k]);
      assert k in r && r[k] == rs[k];
    }
    r
  }
}

/** The Message document: its fields, enums, defaults and the validation `save()` applies. */
module MessageSchema {
  import opened Base

  /** Who wrote a message. The schema types `user` as a required user reference, but the system
      messages of a group update are written with `user: null`; `System` is that case. */
  datatype Author = UserAuthored(id: UserId) | System

  /** `status`: the enum `['sent', 'seen']`. */
  datatype Status = Sent | Seen

  /** `attachments[].type`: the enum `['image', 'file']`. */
  datatype AttachmentKind = Image | File

  /** A stored attachment. `size` is the only optional field. */
  datatype Attachment = Attachment(id: string, kind: AttachmentKind, name: string, url: string, size: Option<int>)

  /** An attachment as a client sends it, before the schema has checked it. */
  datatype RawAttachment = RawAttachment(id: string, kind: string, name: string, url: string, size: Option<int>)

  datatype Message = Message(
    channelId: ChannelId,
    author: Author,
    text: string,
    attachments: seq<Attachment>,
    replyTo: Option<MsgId>,
    forwardedFrom: Option<MsgId>,
    status: Status,
    createdAt: Time,
    visibleTo: seq<UserId>,
    // `edited` and `updatedAt` are written by the edit handlers although the schema does not declare them.
    edited: bool,
    updatedAt: Option<Time>)

  /** The placeholder a channel summary shows for a message with no text. */
  const AttachmentPlaceholder: string := "[Attachment]"

  function KindOf(s: string): (r: Option<AttachmentKind>)
    ensures r == Some(Image) <==> s == "image"
    ensures r == Some(File) <==> s == "file"
    ensures r.None? <==> s != "image" && s != "file"
  {
    if s == "image" then Some(Image) else if s == "file" then Some(File) else None
  }

  /** A required String path rejects both a missing value and the empty string. */
  predicate Present(s: string) {
    s != ""
  }

  /** The schema check on one attachment: `id`, `name`, `url` present and `type` in the enum. */
  function CheckAttachment(a: RawAttachment): (r: Option<Attachment>)
    ensures r.Some? <==> Present(a.id) && Present(a.name) && Present(a.url) && (a.kind == "image" || a.kind == "file")
    ensures r.Some? ==> r.value.id == a.id && r.value.name == a.name && r.value.url == a.url && r.value.size == a.size
    ensures r.Some? ==> (r.value.kind == Image <==> a.kind == "image")
  {
    match KindOf(a.kind)
    case None => None
    case Some(k) => if Present(a.id) && Present(a.name) && Present(a.url) then Some(Attachment(a.id, k, a.name, a.url, a.size)) else None
  }

  /** The schema check on an attachment list: every entry must pass, and the list keeps its order. */
  function CheckAttachments(raw: seq<RawAttachment>): (r: Option<seq<Attachment>>)
    ensures r.Some? <==> forall i :: 0 <= i < |raw| ==> CheckAttachment(raw[i]).Some?
    ensures r.Some? ==> |r.value| == |raw| && forall i :: 0 <= i < |raw| ==> Some(r.value[i]) == CheckAttachment(raw[i])
  {
    if raw == [] then Some([])
    else
      match CheckAttachment(raw[0])
      case None => None
      case Some(a) =>
        match CheckAttachments(raw[1..])
        case None => None
        case Some(rest) =>
          assert forall i :: 1 <= i < |raw| ==> raw[i] == raw[1..][i - 1];
          Some([a] + rest)
  }

  /** A new document with the schema defaults: no reply or forward link, status `sent`, not edited. */
  function NewMessage(channel: ChannelId, author: Author, text: string, attachments: seq<Attachment>, createdAt: Time, visibleTo: seq<UserId>): (m: Message)
    ensures m.status == Sent && m.replyTo.None? && m.forwardedFrom.None? && !m.edited && m.updatedAt.None?
    ensures m.channelId == channel && m.author == author && m.text == text && m.attachments == attachments
    ensures m.createdAt == createdAt && m.visibleTo == visibleTo
  {
    Message(channel, author, text, attachments, None, None, Sent, createdAt, visibleTo, false, None)
  }

  /** `text || ''`: an absent body is stored as the empty string. */
  function BodyText(content: Option<string>): (r: string)
    ensures content.None? ==> r == ""
    ensures content.Some? ==> r == content.value
  {
    content.GetOr("")
  }

  /** The summary line for a message body: its text, else the placeholder when it carries attachments, else empty. */
  function SummaryText(text: string, attachmentCount: nat): (r: string)
    ensures text != "" ==> r == text
    ensures text == "" && attachmentCount > 0 ==> r == AttachmentPlaceholder
    ensures text == "" && attachmentCount == 0 ==> r == ""
  {
    if text != "" then text else if attachmentCount > 0 then AttachmentPlaceholder else ""
  }

  function Summary(m: Message): string {
    SummaryText(m.text, |m.attachments|)
  }

  predicate AuthoredBy(m: Message, u: UserId) {
    m.author == UserAuthored(u)
  }
}

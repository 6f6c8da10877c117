/** The text helpers of the conversation list row,
    `src/components/ui/conversation-item.js`. */
module ConversationItem {
  import opened Common
  import opened Records
  import Telnyx

  const DefaultMaxLength := 60
  const Ellipsis := "..."
  const UnknownInitials := "??"

  /** `truncateMessage(text, maxLength = 60)`: empty for a missing or empty
      text; longer texts are cut to `maxLength` characters and get "...". */
  function TruncateMessage(text: Option<string>, maxLength: nat): (r: string)
    ensures !Truthy(text) ==> r == []
    ensures Truthy(text) && |text.value| <= maxLength ==> r == text.value
    ensures Truthy(text) && |text.value| > maxLength ==>
              |r| == maxLength + |Ellipsis| && r[..maxLength] == text.value[..maxLength]
              && r[maxLength..] == Ellipsis
    ensures |r| <= maxLength + |Ellipsis|
  {
    if !Truthy(text) then []
    else if |text.value| > maxLength then text.value[..maxLength] + Ellipsis
    else text.value
  }

  /** `getInitials(phone)`: "??" for a missing or empty number; otherwise the
      first two of the last four digits (fewer when there are fewer digits). */
  function GetInitials(phone: Option<string>): (r: string)
    ensures !Truthy(phone) ==> r == UnknownInitials
    ensures Truthy(phone) ==>
              var d := Digits(phone.value);
              && AllDigits(r) && |r| <= 2
              && (|d| >= 4 ==> r == d[|d| - 4..|d| - 2])
              && (|d| < 4 ==> r == d[..if |d| < 2 then |d| else 2])
  {
    if !Truthy(phone) then UnknownInitials
    else
      var digits := Digits(phone.value);
      var lastFour := if |digits| >= 4 then digits[|digits| - 4..] else digits;
      lastFour[..if |lastFour| < 2 then |lastFour| else 2]
  }

  /** The avatar is the same whichever spelling of a number is stored:
      canonicalising a number keeps its last four digits. */
  lemma {:induction false} InitialsIgnoreCanonicalForm(phone: string)
    ensures GetInitials(Some(Telnyx.ToE164(phone))) == GetInitials(Some(phone))
  {
    var d := Digits(phone);
    Telnyx.ToE164Digits(phone);
    if phone == [] {
      assert Digits(phone) == [];
    } else if |d| == 10 {
      var e := "1" + d;
      assert e[|e| - 4..|e| - 2] == d[|d| - 4..|d| - 2];
    }
  }

  /** `getDisplayName`: the saved name when there is one, else the formatted
      number; `format` is the screen's own formatter. */
  function GetDisplayName(conversation: ConversationRow, format: string -> string): (r: string)
    ensures Truthy(conversation.name) ==> r == conversation.name.value
    ensures !Truthy(conversation.name) ==> r == format(conversation.phoneNumber)
  {
    if Truthy(conversation.name) then conversation.name.value else format(conversation.phoneNumber)
  }

  /** The preview line under the name: the "No messages yet" placeholder, or
      the last message's body cut at the default length, with the sent-arrow
      icon when that message went out. */
  datatype PreviewLine = NoMessagesYet | Snippet(text: string, sentIcon: bool)

  /** The last-message preview of the row, `truncateMessage(body)` with the
      default limit of 60. */
  function Preview(view: ConversationView): (p: PreviewLine)
    ensures p.NoMessagesYet? <==> view.lastMessage.None?
    ensures p.Snippet? ==>
              var body := view.lastMessage.value.body;
              && (p.sentIcon <==> view.lastMessage.value.direction == Outbound)
              && |p.text| <= DefaultMaxLength + |Ellipsis|
              && (Truthy(body) && |body.value| <= DefaultMaxLength ==> p.text == body.value)
              && (Truthy(body) && |body.value| > DefaultMaxLength ==>
                    p.text == body.value[..DefaultMaxLength] + Ellipsis)
              && (!Truthy(body) ==> p.text == [])
  {
    match view.lastMessage
    case None => NoMessagesYet
    case Some(last) => Snippet(TruncateMessage(last.body, DefaultMaxLength), last.direction == Outbound)
  }

  /** `isUnread`: the row is highlighted exactly when its last message came in. */
  function IsUnread(view: ConversationView): (unread: bool)
    ensures unread <==> view.lastMessage.Some? && view.lastMessage.value.direction == Inbound
  {
    view.lastMessage.Some? && view.lastMessage.value.direction == Inbound
  }
}

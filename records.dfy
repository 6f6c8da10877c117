/** The rows of the two tables (`conversations`, `messages`) as the store
    returns them, the insert payload of a message, and the conversation view
    that the list screens render (a row plus its `lastMessage`). */
module Records {
  import opened Common

  /** JavaScript truthiness of an id taken from a request or a prop: a
      missing id and the falsy `0` (standing for `""`) are falsy. Stored rows
      never carry id 0. */
  predicate TruthyId(id: Option<nat>) {
    id.Some? && id.value != 0
  }

  datatype Direction = Inbound | Outbound

  /** `sending` exists only on client-side provisional entries; the other
      five are the values the server writes. */
  datatype Status = Pending | Sent | Delivered | Failed | Received | Sending

  datatype ConversationRow = ConversationRow(
    id: nat,
    phoneNumber: string,
    name: Option<string>,
    lastMessageAt: Option<Timestamp>,
    createdAt: Timestamp)

  /** The object handed to `messageHelpers.createMessage`: exactly the columns
      the callers name. */
  datatype NewMessage = NewMessage(
    conversationId: nat,
    telnyxMessageId: Option<string>,
    direction: Direction,
    fromNumber: Option<string>,
    toNumber: Option<string>,
    body: Option<string>,
    status: Status)

  datatype MessageRow = MessageRow(
    id: nat,
    conversationId: nat,
    telnyxMessageId: Option<string>,
    direction: Direction,
    fromNumber: Option<string>,
    toNumber: Option<string>,
    body: Option<string>,
    status: Status,
    createdAt: Timestamp,
    updatedAt: Option<Timestamp>,
    deliveredAt: Option<Timestamp>)

  /** The columns of a stored row that an insert supplies. */
  function Fields(m: MessageRow): NewMessage {
    NewMessage(m.conversationId, m.telnyxMessageId, m.direction, m.fromNumber, m.toNumber, m.body, m.status)
  }

  /** The `messages (body, created_at, direction)` projection of a joined message. */
  datatype LastMessage = LastMessage(body: Option<string>, createdAt: Timestamp, direction: Direction)

  /** A conversation row as a query with an embedded `messages` join returns it. */
  datatype JoinedConversation = JoinedConversation(row: ConversationRow, messages: seq<LastMessage>)

  /** A conversation as the list screens hold it: `{...conv, lastMessage}`. */
  datatype ConversationView = ConversationView(row: ConversationRow, lastMessage: Option<LastMessage>)

  /** `{...conv, lastMessage: conv.messages[0] || null, messages: undefined}`:
      the first joined message becomes `lastMessage` and the array is dropped. */
  function WithLastMessage(j: JoinedConversation): (v: ConversationView)
    ensures v.row == j.row
    ensures v.lastMessage.Some? <==> j.messages != []
    ensures v.lastMessage.Some? ==> v.lastMessage.value == j.messages[0]
  {
    ConversationView(j.row, if j.messages == [] then None else Some(j.messages[0]))
  }
}

/** The browser-side helpers of `src/lib/supabase.js`. They issue the same
    queries as the server helpers, through the user's client instead of the
    service-role client, so each is stated against its server counterpart. */
module ClientHelpers {
  import opened Common
  import opened Records
  import Store

  /** `clientHelpers.createConversation(phone, name = null)`: the existing row
      for the number, or on PGRST116 a new `{phone_number, name}` row; other
      lookup errors and insert errors are rethrown. */
  method CreateConversation(db: Store.Tables, phone: string, name: Option<string>, lookupFails: bool,
                            insertFails: bool, now: Timestamp)
    returns (r: Result<ConversationRow, Store.StoreError>)
    requires db.Valid()
    modifies db
    ensures db.Valid() && db.messages == old(db.messages)
    ensures r.Err? ==> unchanged(db)
    ensures r.Err? <==> Store.GetOrCreateFails(old(db.conversations), phone, lookupFails, insertFails)
    ensures db.conversations ==
              Store.AfterGetOrCreate(old(db.conversations), old(db.nextId), phone, name, lookupFails, insertFails, now)
    ensures r.Ok? ==> r.value.phoneNumber == phone && r.value in db.conversations
    ensures !lookupFails && (exists c :: c in old(db.conversations) && c.phoneNumber == phone) ==>
              r.Ok? && db.conversations == old(db.conversations)
    ensures !lookupFails && !insertFails ==> r.Ok? && r.value.phoneNumber == phone
    ensures !lookupFails && !insertFails && (forall c :: c in old(db.conversations) ==> c.phoneNumber != phone) ==>
              r.value.name == name && db.conversations == old(db.conversations) + [r.value]
  {
    r := db.GetOrCreateConversation(phone, name, lookupFails, insertFails, now);
  }

  /** `clientHelpers.getConversations`: the same projection as the server's
      `getAllConversations`, one view per joined row, errors rethrown. */
  function GetConversations(reply: Result<seq<JoinedConversation>, Store.StoreError>)
    : (r: Result<seq<ConversationView>, Store.StoreError>)
    ensures r == Store.GetAllConversations(reply)
    ensures r.Ok? <==> reply.Ok?
    ensures r.Ok? ==> forall i :: 0 <= i < |r.value| ==> r.value[i] == WithLastMessage(reply.value[i])
  {
    Store.GetAllConversations(reply)
  }

  /** `clientHelpers.getConversationMessages(conversationId, limit = 50)`. */
  function GetConversationMessages(messages: seq<MessageRow>, conversationId: nat, limit: Option<nat>, fails: bool)
    : (r: Result<seq<MessageRow>, Store.StoreError>)
    ensures r == Store.GetConversationMessages(messages, conversationId, limit, fails)
    ensures r.Ok? ==> |r.value| <= if limit.Some? then limit.value else Store.DefaultMessageLimit
  {
    Store.GetConversationMessages(messages, conversationId, limit, fails)
  }
}

/** The gateway callback endpoint, `src/app/api/webhooks/telnyx/route.js`.

    POST checks the signature headers (a failure is only logged), parses the
    body, and routes on the event type: `message.received` stores an inbound
    message and lets its errors through (500), while the three status events
    overwrite a message's status and swallow their errors. */
module WebhookRoute {
  import opened Common
  import opened Records
  import opened Telnyx
  import opened Http
  import opened Store

  const EventReceived := "message.received"
  const EventSent := "message.sent"
  const EventDelivered := "message.delivered"
  const EventDeliveryFailed := "message.delivery_failed"

  datatype HandlerError = MalformedPayload | StoreFailure(error: StoreError)

  /** The status a status event writes, if the event type is one of the three. */
  function StatusOf(eventType: string): (s: Option<Status>)
    ensures s == Some(Sent) <==> eventType == EventSent
    ensures s == Some(Delivered) <==> eventType == EventDelivered
    ensures s == Some(Failed) <==> eventType == EventDeliveryFailed
    ensures s.None? <==> eventType !in {EventSent, EventDelivered, EventDeliveryFailed}
  {
    if eventType == EventSent then Some(Sent)
    else if eventType == EventDelivered then Some(Delivered)
    else if eventType == EventDeliveryFailed then Some(Failed)
    else None
  }

  /** The fields `handleIncomingMessage` reads before touching the store are
      there: `payload`, `payload.from` and `payload.to[0]`. */
  predicate WellFormedInbound(event: WebhookEvent) {
    event.payload.Some? && event.payload.value.from.Some? && event.payload.value.to != []
  }

  /** The message row an inbound event asks to store. */
  function InboundRecord(p: EventPayload, conversationId: nat): NewMessage
    requires p.from.Some? && p.to != []
  {
    NewMessage(conversationId, p.id, Inbound, p.from, Some(p.to[0]), p.text, Received)
  }

  /** `m` is the inbound record of `p`, filed under a conversation for the sender's number. */
  ghost predicate InboundStored(m: MessageRow, p: EventPayload, conversations: seq<ConversationRow>)
    requires p.from.Some? && p.to != []
  {
    exists c :: c in conversations && c.phoneNumber == p.from.value && Fields(m) == InboundRecord(p, c.id)
  }

  /** `handleIncomingMessage` throws once its event is well formed: the
      sender's conversation cannot be found or created, or the message
      insert fails. */
  predicate InboundFails(conversations: seq<ConversationRow>, event: WebhookEvent, faults: Faults)
    requires WellFormedInbound(event)
  {
    || GetOrCreateFails(conversations, event.payload.value.from.value, faults.lookupFails, faults.conversationInsertFails)
    || faults.messageInsertFails
  }

  /** The conversations table after `handleIncomingMessage`: the sender's
      get-or-create, kept even when the message insert then fails. */
  function InboundConversations(conversations: seq<ConversationRow>, nextId: nat, event: WebhookEvent, faults: Faults,
                                now: Timestamp): seq<ConversationRow>
    requires WellFormedInbound(event)
  {
    AfterGetOrCreate(conversations, nextId, event.payload.value.from.value, None, faults.lookupFails,
                     faults.conversationInsertFails, now)
  }

  /** `handleIncomingMessage`: get-or-create the sender's conversation, then
      insert the message; there is no check for an existing row with the
      same provider id. Every error is rethrown. */
  method HandleIncomingMessage(db: Tables, event: WebhookEvent, faults: Faults, now: Timestamp)
    returns (outcome: Outcome<HandlerError>)
    requires db.Valid()
    modifies db
    ensures db.Valid() && old(db.conversations) <= db.conversations
    ensures !WellFormedInbound(event) ==> outcome == Fail(MalformedPayload) && unchanged(db)
    ensures outcome.Fail? ==> db.messages == old(db.messages)
    ensures outcome.Pass? ==>
              && WellFormedInbound(event)
              && |db.messages| == |old(db.messages)| + 1
              && db.messages[..|old(db.messages)|] == old(db.messages)
              && InboundStored(db.messages[|old(db.messages)|], event.payload.value, db.conversations)
    ensures WellFormedInbound(event) ==>
              && (outcome.Fail? <==> InboundFails(old(db.conversations), event, faults))
              && db.conversations == InboundConversations(old(db.conversations), old(db.nextId), event, faults, now)
    ensures WellFormedInbound(event) && faults == NoFaults ==> outcome.Pass?
  {
    if event.payload.None? || event.payload.value.from.None? || event.payload.value.to == [] {
      return Fail(MalformedPayload);
    }
    var payload := event.payload.value;
    var fromNumber := payload.from.value;
    var conversation := db.GetOrCreateConversation(fromNumber, None, faults.lookupFails,
                                                   faults.conversationInsertFails, now);
    if conversation.Err? {
      return Fail(StoreFailure(conversation.error));
    }
    var c := conversation.value;
    var stored := db.CreateMessage(InboundRecord(payload, c.id), faults.messageInsertFails, now);
    if stored.Err? {
      return Fail(StoreFailure(stored.error));
    }
    assert db.messages[..|old(db.messages)|] == old(db.messages);
    assert Fields(db.messages[|old(db.messages)|]) == InboundRecord(payload, c.id);
    outcome := Pass;
  }

  /** `new Date(event.occurredAt).toISOString()`: `null` is the epoch, an
      instant is kept, and a missing or non-date value makes an invalid date
      whose formatting throws (None). */
  function DeliveryTime(o: OccurredAt): (t: Option<Timestamp>)
    ensures t.None? <==> o == NoTime || o == BadTime
    ensures o == NullTime ==> t == Some(0)
    ensures o.TimeAt? ==> t == Some(o.instant)
  {
    match o
    case NoTime => None
    case NullTime => Some(0)
    case TimeAt(t) => Some(t)
    case BadTime => None
  }

  /** The messages table after a status event: a missing payload, a
      `delivered` event whose time cannot be formatted, and any store error
      leave it as it was (the error is logged and dropped); otherwise the
      message with that provider id takes the status, and only `delivered`
      records a delivery time. */
  function StatusEffect(messages: seq<MessageRow>, event: WebhookEvent, status: Status, faults: Faults,
                        now: Timestamp): seq<MessageRow>
  {
    if event.payload.None? || faults.updateFails then messages
    else if status == Delivered then
      if DeliveryTime(event.occurredAt).None? then messages
      else StatusUpdate(messages, event.payload.value.id, Delivered, DeliveryTime(event.occurredAt), now)
    else StatusUpdate(messages, event.payload.value.id, status, None, now)
  }

  /** A status event never adds or removes a message, changes only the row
      with the event's provider id, and only `delivered` touches
      `delivered_at`. */
  lemma {:induction false} StatusEventPreservesRows(messages: seq<MessageRow>, event: WebhookEvent, status: Status,
                                                    faults: Faults, now: Timestamp)
    ensures var after := StatusEffect(messages, event, status, faults, now);
      && |after| == |messages|
      && (forall j :: 0 <= j < |messages| && (event.payload.None? || !HasProviderId(messages[j], event.payload.value.id))
            ==> after[j] == messages[j])
      && (status != Delivered ==> forall j :: 0 <= j < |messages| ==> after[j].deliveredAt == messages[j].deliveredAt)
      && (forall j :: 0 <= j < |messages| ==>
            && after[j].id == messages[j].id
            && after[j].direction == messages[j].direction
            && after[j].telnyxMessageId == messages[j].telnyxMessageId)
  {
    if event.payload.Some? && !faults.updateFails {
      var key := event.payload.value.id;
      if status == Delivered {
        if DeliveryTime(event.occurredAt).Some? {
          UpdateTouchesOnlyItsRow(messages, key, Delivered, DeliveryTime(event.occurredAt), now);
        }
      } else {
        UpdateTouchesOnlyItsRow(messages, key, status, None, now);
      }
    }
  }

  /** A `delivered` callback with `occurred_at: null` is not dropped: the
      matching message is marked delivered at the epoch. */
  lemma NullTimeDeliversAtEpoch(messages: seq<MessageRow>, event: WebhookEvent, faults: Faults, now: Timestamp)
    requires event.payload.Some? && !faults.updateFails && event.occurredAt == NullTime
    requires CountWithProviderId(messages, event.payload.value.id) == 1
    ensures var i := FirstWithProviderId(messages, event.payload.value.id);
      && i < |messages|
      && StatusEffect(messages, event, Delivered, faults, now)[i].status == Delivered
      && StatusEffect(messages, event, Delivered, faults, now)[i].deliveredAt == Some(0)
  {
    SingleMatch(messages, event.payload.value.id);
  }

  /** `handleMessageSent`, `handleMessageDelivered`, `handleMessageFailed`:
      one status update keyed on `payload.id`; errors are swallowed. */
  method HandleStatusEvent(db: Tables, event: WebhookEvent, status: Status, faults: Faults, now: Timestamp)
    requires db.Valid()
    modifies db
    ensures db.Valid() && db.conversations == old(db.conversations)
    ensures db.messages == StatusEffect(old(db.messages), event, status, faults, now)
  {
    if event.payload.None? {
      return;  // reading payload.id throws; the handler logs and returns
    }
    var deliveredAt := None;
    if status == Delivered {
      if DeliveryTime(event.occurredAt).None? {
        return;  // an invalid date throws before the update; logged and dropped
      }
      deliveredAt := DeliveryTime(event.occurredAt);
    }
    var ignored := db.UpdateMessageStatus(event.payload.value.id, status, deliveredAt, faults.updateFails, now);
  }

  /** POST: the response and the new tables. The signature check decides only
      whether a warning is logged (`warned`). */
  method Post(db: Tables, body: WebhookBody, signature: Option<string>, timestamp: Option<string>,
              faults: Faults, now: Timestamp)
    returns (response: Response, warned: bool)
    requires db.Valid()
    modifies db
    ensures db.Valid() && old(db.conversations) <= db.conversations
    ensures warned <==> !VerifyWebhookSignature(body, signature, timestamp)
    ensures ParseWebhookEvent(body).Err? ==> response == InternalError && unchanged(db)
    ensures ParseWebhookEvent(body).Ok? && ParseWebhookEvent(body).value.eventType == EventReceived ==>
              var event := ParseWebhookEvent(body).value;
              && (response == Response(200, Acknowledged) || response == InternalError)
              && (!WellFormedInbound(event) ==> response == InternalError && unchanged(db))
              && (WellFormedInbound(event) ==>
                    && (response == InternalError <==> InboundFails(old(db.conversations), event, faults))
                    && db.conversations == InboundConversations(old(db.conversations), old(db.nextId), event, faults, now))
              && (response == InternalError ==> db.messages == old(db.messages))
              && (response.status == 200 ==>
                    && WellFormedInbound(event)
                    && |db.messages| == |old(db.messages)| + 1
                    && db.messages[..|old(db.messages)|] == old(db.messages)
                    && InboundStored(db.messages[|old(db.messages)|], event.payload.value, db.conversations))
              && (WellFormedInbound(event) && faults == NoFaults ==> response.status == 200)
    ensures ParseWebhookEvent(body).Ok? && StatusOf(ParseWebhookEvent(body).value.eventType).Some? ==>
              var event := ParseWebhookEvent(body).value;
              && response == Response(200, Acknowledged)
              && db.conversations == old(db.conversations)
              && db.messages == StatusEffect(old(db.messages), event, StatusOf(event.eventType).value, faults, now)
    ensures ParseWebhookEvent(body).Ok? && ParseWebhookEvent(body).value.eventType != EventReceived
            && StatusOf(ParseWebhookEvent(body).value.eventType).None? ==>
              response == Response(200, Acknowledged) && unchanged(db)
  {
    warned := !VerifyWebhookSignature(body, signature, timestamp);
    var parsed := ParseWebhookEvent(body);
    if parsed.Err? {
      return InternalError, warned;
    }
    var event := parsed.value;
    if event.eventType == EventReceived {
      var outcome := HandleIncomingMessage(db, event, faults, now);
      if outcome.Fail? {
        return InternalError, warned;
      }
    } else if StatusOf(event.eventType).Some? {
      HandleStatusEvent(db, event, StatusOf(event.eventType).value, faults, now);
    }
    response := Response(200, Acknowledged);
  }

  /** GET: the liveness answer, whatever the request. */
  function Get(): (r: Response)
    ensures r.status == 200 && r.body == EndpointActive
  {
    Response(200, EndpointActive)
  }

  /** The same `message.received` callback delivered twice stores two rows:
      the handler does not deduplicate on the provider id. */
  method ReplayedCallbackStoresTwice(body: WebhookBody, now: Timestamp) returns (stored: nat)
    requires ParseWebhookEvent(body).Ok?
    requires ParseWebhookEvent(body).value.eventType == EventReceived
    requires WellFormedInbound(ParseWebhookEvent(body).value)
    ensures stored == 2
  {
    var db := new Tables();
    var first, _ := Post(db, body, None, None, NoFaults, now);
    var second, _ := Post(db, body, None, None, NoFaults, now);
    stored := |db.messages|;
  }
}

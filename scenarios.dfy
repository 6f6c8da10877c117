/** Runs that cross the two API routes over one set of tables. */
module Scenarios {
  import opened Common
  import opened Records
  import opened Telnyx
  import opened Http
  import opened Store
  import SendRoute
  import WebhookRoute

  /** The send route files a conversation under the number as typed, while
      replies arrive from the gateway in canonical form: a reply to a number
      typed without "+1" opens a second conversation with the same person. */
  method ReplyOpensSecondConversation(cfg: Config, to: string, text: string, id: string, reply: string,
                                      now: Timestamp)
    returns (typed: ConversationRow, canonical: ConversationRow)
    requires to != [] && text != [] && ToE164(to) != to
    ensures typed.phoneNumber == to && canonical.phoneNumber == ToE164(to)
    ensures typed.id != canonical.id
  {
    var db := new Tables();
    var request := SendRoute.SendRequest(Some(to), Some(text), None);
    var accepted := Answered(Some(Some(MessageResource(Some(id)))));
    assert SendRoute.Admitted(true, Some(request)) && !SendRoute.HasConversationId(request);
    assert CarriesResource(accepted);
    var sent, submitted := SendRoute.Post(db, cfg, true, Some(request), accepted, NoFaults, now);
    assert sent.status == 200;
    typed := sent.body.conversation;
    ghost var afterSend := db.conversations;
    assert typed in afterSend && typed.phoneNumber == to;

    var payload := EventPayload(None, Some(ToE164(to)), [cfg.fromNumber], Some(reply));
    var body := Json(Some(EventData(Some(WebhookRoute.EventReceived), None, Some(payload), TimeAt(now), None)));
    assert ParseWebhookEvent(body).Ok? && ParseWebhookEvent(body).value.payload == Some(payload);
    assert WebhookRoute.WellFormedInbound(ParseWebhookEvent(body).value);
    var received, warned := WebhookRoute.Post(db, body, None, None, NoFaults, now);
    assert received.status == 200;
    assert typed in db.conversations;
    var inbound := db.messages[|db.messages| - 1];
    assert WebhookRoute.InboundStored(inbound, payload, db.conversations);
    canonical :| canonical in db.conversations && canonical.phoneNumber == ToE164(to)
                 && Fields(inbound) == WebhookRoute.InboundRecord(payload, canonical.id);
    assert typed != canonical;
  }
}

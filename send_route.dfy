/** The outbound SMS endpoint, `src/app/api/sms/send/route.js`.

    POST sends one message for a signed-in user and records it; PUT sends the
    same text to up to 100 recipients and records one row per result. Every
    thrown store error ends in the catch-all 500. */
module SendRoute {
  import opened Common
  import opened Records
  import opened Telnyx
  import opened Http
  import opened Store

  // ---------------------------------------------------------------------------
  // POST: one message

  /** The fields POST reads from the JSON body. */
  datatype SendRequest = SendRequest(to: Option<string>, message: Option<string>, conversationId: Option<nat>)

  const MissingSendFields := "Missing required fields: to, message"
  const ConversationNotFound := "Conversation not found"

  /** `if (conversationId)`: an absent or falsy id falls through to get-or-create. */
  predicate HasConversationId(request: SendRequest) {
    TruthyId(request.conversationId)
  }

  /** `c` is the conversation POST files the message under: the one named by
      a truthy id, otherwise the one for `to` as typed. */
  ghost predicate FiledUnder(c: ConversationRow, conversations: seq<ConversationRow>, request: SendRequest) {
    && c in conversations
    && if HasConversationId(request) then Some(c.id) == request.conversationId else Some(c.phoneNumber) == request.to
  }

  /** The request gets past authentication, parsing and the field check. */
  predicate Admitted(authenticated: bool, request: Option<SendRequest>) {
    authenticated && request.Some? && Truthy(request.value.to) && Truthy(request.value.message)
  }

  /** The id lookup `.eq('id', conversationId).single()` fails: a store error,
      or not exactly one row. */
  predicate UnknownConversation(conversations: seq<ConversationRow>, id: nat, faults: Faults) {
    faults.lookupFails || |WithId(conversations, id)| != 1
  }

  /** The row an outbound send records: from the configured number, to the
      canonical recipient. */
  function OutboundRecord(cfg: Config, conversationId: nat, to: string, text: string, providerId: Option<string>,
                          status: Status): (m: NewMessage)
    ensures m.direction == Outbound && m.conversationId == conversationId && m.status == status
    ensures m.toNumber == Some(ToE164(to)) && m.fromNumber == Some(cfg.fromNumber) && m.body == Some(text)
    ensures m.telnyxMessageId == providerId
  {
    NewMessage(conversationId, providerId, Outbound, Some(cfg.fromNumber), Some(ToE164(to)), Some(text), status)
  }

  /** POST. `reply` is the gateway's answer to the send, `submitted` the
      payload handed to the gateway, if the handler got that far. */
  method Post(db: Tables, cfg: Config, authenticated: bool, request: Option<SendRequest>, reply: GatewayReply,
              faults: Faults, now: Timestamp)
    returns (response: Response, submitted: Option<MessagePayload>)
    requires db.Valid()
    modifies db
    ensures db.Valid() && old(db.conversations) <= db.conversations
    ensures !authenticated ==> response == Unauthorized && submitted.None? && unchanged(db)
    ensures authenticated && request.None? ==> response == InternalError && submitted.None? && unchanged(db)
    ensures authenticated && request.Some? && !Admitted(authenticated, request) ==>
              response == Response(400, ErrorMessage(MissingSendFields)) && submitted.None? && unchanged(db)
    ensures Admitted(authenticated, request) && HasConversationId(request.value)
            && UnknownConversation(old(db.conversations), request.value.conversationId.value, faults) ==>
              response == Response(404, ErrorMessage(ConversationNotFound)) && submitted.None? && unchanged(db)
    ensures submitted.Some? ==>
              Admitted(authenticated, request)
              && submitted.value == Payload(cfg, request.value.to.value, request.value.message.value)
    ensures submitted.None? ==> db.messages == old(db.messages)
    // the message goes to the gateway exactly when its conversation is found or created
    ensures submitted.Some? <==>
              && Admitted(authenticated, request)
              && if HasConversationId(request.value)
                 then !UnknownConversation(old(db.conversations), request.value.conversationId.value, faults)
                 else !GetOrCreateFails(old(db.conversations), request.value.to.value, faults.lookupFails,
                                        faults.conversationInsertFails)
    ensures Admitted(authenticated, request) && !HasConversationId(request.value)
            && GetOrCreateFails(old(db.conversations), request.value.to.value, faults.lookupFails,
                                faults.conversationInsertFails) ==>
              response == InternalError && submitted.None? && db.messages == old(db.messages)
              && db.conversations == old(db.conversations)
    ensures db.conversations ==
              if Admitted(authenticated, request) && !HasConversationId(request.value)
              then AfterGetOrCreate(old(db.conversations), old(db.nextId), request.value.to.value, None,
                                    faults.lookupFails, faults.conversationInsertFails, now)
              else old(db.conversations)
    // the gateway refused: a failed row is stored and the detail returned
    ensures submitted.Some? && !CarriesResource(reply) ==> (response == InternalError <==> faults.messageInsertFails)
    ensures submitted.Some? && !CarriesResource(reply) && faults.messageInsertFails ==> db.messages == old(db.messages)
    ensures submitted.Some? && !CarriesResource(reply) && !faults.messageInsertFails ==>
              && response == Response(500, SendFailed(ErrorDetail(reply)))
              && |db.messages| == |old(db.messages)| + 1
              && db.messages[..|old(db.messages)|] == old(db.messages)
              && exists c :: FiledUnder(c, db.conversations, request.value)
                             && Fields(db.messages[|old(db.messages)|])
                                == OutboundRecord(cfg, c.id, request.value.to.value, request.value.message.value,
                                                  None, Failed)
    // the gateway accepted: a pending row with the gateway's id is stored and returned
    ensures response.status == 200 ==>
              && submitted.Some? && CarriesResource(reply)
              && response.body.MessageSent?
              && var sent := response.body;
              && var request := request.value;
              && sent.messageId == SendMessage(reply).messageId
              && db.messages == old(db.messages) + [sent.message]
              && Fields(sent.message) == OutboundRecord(cfg, sent.conversation.id, request.to.value,
                                                        request.message.value, sent.messageId, Pending)
              && FiledUnder(sent.conversation, db.conversations, request)
    ensures submitted.Some? && CarriesResource(reply) && !faults.messageInsertFails ==> response.status == 200
    ensures submitted.Some? && CarriesResource(reply) && faults.messageInsertFails ==>
              response == InternalError && db.messages == old(db.messages)
  {
    submitted := None;
    if !authenticated {
      return Unauthorized, submitted;
    }
    if request.None? {
      return InternalError, submitted;  // request.json() threw
    }
    var req := request.value;
    if !Truthy(req.to) || !Truthy(req.message) {
      return Response(400, ErrorMessage(MissingSendFields)), submitted;
    }
    var to, text := req.to.value, req.message.value;
    var conversation: ConversationRow;
    if HasConversationId(req) {
      var id := req.conversationId.value;
      if faults.lookupFails || |WithId(db.conversations, id)| != 1 {
        return Response(404, ErrorMessage(ConversationNotFound)), submitted;
      }
      conversation := WithId(db.conversations, id)[0];
    } else {
      var found := db.GetOrCreateConversation(to, None, faults.lookupFails, faults.conversationInsertFails, now);
      if found.Err? {
        return InternalError, submitted;
      }
      conversation := found.value;
    }
    submitted := Some(Payload(cfg, to, text));
    ghost var filed := db.conversations;
    assert FiledUnder(conversation, filed, req);
    response := SendAndRecord(db, cfg, conversation, to, text, reply, faults, now);
  }

  /** The tail of POST once the conversation is known: hand the text to the
      gateway, then store a pending row with the gateway's id, or a failed row
      when the gateway refused. */
  method SendAndRecord(db: Tables, cfg: Config, conversation: ConversationRow, to: string, text: string,
                       reply: GatewayReply, faults: Faults, now: Timestamp)
    returns (response: Response)
    requires db.Valid()
    modifies db
    ensures db.Valid() && db.conversations == old(db.conversations)
    ensures !CarriesResource(reply) ==> (response == InternalError <==> faults.messageInsertFails)
    ensures !CarriesResource(reply) && faults.messageInsertFails ==> db.messages == old(db.messages)
    ensures !CarriesResource(reply) && !faults.messageInsertFails ==>
              && response == Response(500, SendFailed(ErrorDetail(reply)))
              && |db.messages| == |old(db.messages)| + 1
              && db.messages[..|old(db.messages)|] == old(db.messages)
              && Fields(db.messages[|old(db.messages)|]) == OutboundRecord(cfg, conversation.id, to, text, None, Failed)
    ensures response.status == 200 ==>
              && CarriesResource(reply)
              && response.body.MessageSent?
              && response.body.messageId == SendMessage(reply).messageId
              && db.messages == old(db.messages) + [response.body.message]
              && Fields(response.body.message) == OutboundRecord(cfg, conversation.id, to, text,
                                                                 response.body.messageId, Pending)
              && response.body.conversation == conversation
    ensures CarriesResource(reply) && !faults.messageInsertFails ==> response.status == 200
    ensures CarriesResource(reply) && faults.messageInsertFails ==>
              response == InternalError && db.messages == old(db.messages)
  {
    var result := SendMessage(reply);
    if !result.success {
      var failedRow := db.CreateMessage(OutboundRecord(cfg, conversation.id, to, text, None, Failed),
                                        faults.messageInsertFails, now);
      if failedRow.Err? {
        return InternalError;
      }
      return Response(500, SendFailed(result.error.value));
    }
    var record := db.CreateMessage(OutboundRecord(cfg, conversation.id, to, text, result.messageId, Pending),
                                   faults.messageInsertFails, now);
    if record.Err? {
      return InternalError;
    }
    response := Response(200, MessageSent(result.messageId, record.value, conversation));
  }

  /** The gateway accepted the message but its row could not be stored: the
      caller is told the request failed although the text went out, and no
      row remembers it. */
  method SentButReportedFailed(cfg: Config, to: string, text: string, id: string, now: Timestamp)
    returns (response: Response, submitted: Option<MessagePayload>, stored: nat)
    requires to != [] && text != []
    ensures submitted == Some(Payload(cfg, to, text))
    ensures response == InternalError && stored == 0
  {
    var db := new Tables();
    response, submitted := Post(db, cfg, true, Some(SendRequest(Some(to), Some(text), None)),
                                Answered(Some(Some(MessageResource(Some(id))))),
                                NoFaults.(messageInsertFails := true), now);
    stored := |db.messages|;
  }

  // ---------------------------------------------------------------------------
  // PUT: bulk send

  /** `recipients` as found in the body: absent (or falsy), present but not an
      array, or an array of numbers. */
  datatype RecipientsField = Missing | NotAnArray | Recipients(items: seq<string>)

  datatype BulkRequest = BulkRequest(recipients: RecipientsField, message: Option<string>, delay: Option<int>)

  const MaxRecipients := 100
  const MissingBulkFields := "Missing required fields: recipients (array), message"
  const EmptyRecipients := "Recipients array cannot be empty"
  const TooManyRecipients := "Maximum 100 recipients allowed per bulk send"

  /** The three 400 checks, in order; `None` lets the request through. */
  function ValidateBulk(request: BulkRequest): (r: Option<Response>)
    ensures r.None? <==> request.recipients.Recipients? && Truthy(request.message)
                         && 1 <= |request.recipients.items| <= MaxRecipients
    ensures r.Some? ==> r.value.status == 400
    ensures !request.recipients.Recipients? || !Truthy(request.message) ==>
              r == Some(Response(400, ErrorMessage(MissingBulkFields)))
    ensures request.recipients.Recipients? && Truthy(request.message) && request.recipients.items == [] ==>
              r == Some(Response(400, ErrorMessage(EmptyRecipients)))
    ensures request.recipients.Recipients? && Truthy(request.message)
            && |request.recipients.items| > MaxRecipients ==>
              r == Some(Response(400, ErrorMessage(TooManyRecipients)))
  {
    if !request.recipients.Recipients? || !Truthy(request.message) then
      Some(Response(400, ErrorMessage(MissingBulkFields)))
    else if |request.recipients.items| == 0 then
      Some(Response(400, ErrorMessage(EmptyRecipients)))
    else if |request.recipients.items| > MaxRecipients then
      Some(Response(400, ErrorMessage(TooManyRecipients)))
    else
      None
  }

  /** One hundred recipients are accepted, one hundred and one are not. */
  lemma RecipientLimit(numbers: seq<string>, text: string, delay: Option<int>)
    requires |numbers| == MaxRecipients + 1 && text != []
    ensures ValidateBulk(BulkRequest(Recipients(numbers[..MaxRecipients]), Some(text), delay)).None?
    ensures ValidateBulk(BulkRequest(Recipients(numbers), Some(text), delay))
            == Some(Response(400, ErrorMessage(TooManyRecipients)))
  {
  }

  /** The row PUT records for one bulk result: pending when the send
      succeeded, failed otherwise, with the gateway id if there is one. */
  function BulkRecord(cfg: Config, conversationId: nat, result: BulkResult, text: string): (m: NewMessage)
    ensures m.status == (if result.success then Pending else Failed) && m.telnyxMessageId == result.messageId
    ensures m.direction == Outbound && m.conversationId == conversationId && m.body == Some(text)
    ensures m.fromNumber == Some(cfg.fromNumber) && m.toNumber == Some(ToE164(result.recipient))
  {
    OutboundRecord(cfg, conversationId, result.recipient, text, result.messageId,
                   if result.success then Pending else Failed)
  }

  /** Recording one result throws: the recipient's conversation can be
      neither found nor created, or the message insert fails. */
  predicate RecordFails(conversations: seq<ConversationRow>, result: BulkResult, faults: Faults) {
    || GetOrCreateFails(conversations, result.recipient, faults.lookupFails, faults.conversationInsertFails)
    || faults.messageInsertFails
  }

  /** A conversation the record step created: a bare row, stamped with the
      request time, for a recipient whose own lookup and insert both succeed. */
  predicate CreatedFor(c: ConversationRow, results: seq<BulkResult>, recordFaults: seq<Faults>, now: Timestamp) {
    && c.name == None && c.lastMessageAt == None && c.createdAt == now
    && exists i :: 0 <= i < |results| && i < |recordFaults| && results[i].recipient == c.phoneNumber
                   && !recordFaults[i].lookupFails && !recordFaults[i].conversationInsertFails
  }

  /** Whether recording fails only depends on rows present: once a lookup
      finds the recipient, appended rows cannot make it fail. */
  lemma RecordFailsShrinks(before: seq<ConversationRow>, after: seq<ConversationRow>, result: BulkResult, faults: Faults)
    requires before <= after
    ensures RecordFails(after, result, faults) ==> RecordFails(before, result, faults)
  {
    LookupSurvivesAppend(before, after, result.recipient);
  }

  /** `m` records `result`, under a conversation for the recipient as given. */
  ghost predicate BulkStored(m: MessageRow, cfg: Config, result: BulkResult, text: string,
                             conversations: seq<ConversationRow>)
  {
    exists c :: c in conversations && c.phoneNumber == result.recipient && Fields(m) == BulkRecord(cfg, c.id, result, text)
  }

  lemma BulkStoredGrows(m: MessageRow, cfg: Config, result: BulkResult, text: string,
                        before: seq<ConversationRow>, after: seq<ConversationRow>)
    requires BulkStored(m, cfg, result, text, before) && before <= after
    ensures BulkStored(m, cfg, result, text, after)
  {
    var c :| c in before && c.phoneNumber == result.recipient && Fields(m) == BulkRecord(cfg, c.id, result, text);
    assert c in after;
  }

  /** Every conversation added is a bare row for a recipient whose
      conversation insert went through. */
  ghost predicate OnlyRecipientsAdded(start: seq<ConversationRow>, conversations: seq<ConversationRow>,
                                      results: seq<BulkResult>, recordFaults: seq<Faults>, now: Timestamp)
  {
    && start <= conversations
    && forall c :: c in conversations && c !in start ==> CreatedFor(c, results, recordFaults, now)
  }

  /** `rows` store, in order, the results listed in `written`, all among the first `n`. */
  ghost predicate RowsRecordResults(n: nat, conversations: seq<ConversationRow>, rows: seq<MessageRow>,
                                    written: seq<nat>, cfg: Config, results: seq<BulkResult>, text: string)
    requires n <= |results|
  {
    && |rows| == |written|
    && (forall k, l :: 0 <= k < l < |written| ==> written[k] < written[l])
    && (forall k :: 0 <= k < |written| ==> written[k] < n)
    && (forall k :: 0 <= k < |written| ==> BulkStored(rows[k], cfg, results[written[k]], text, conversations))
  }

  /** Among the first `n` results, one whose store calls fail has no row and
      one whose calls succeed has one. */
  ghost predicate RowsMatchFaults(n: nat, start: seq<ConversationRow>, conversations: seq<ConversationRow>,
                                  written: seq<nat>, results: seq<BulkResult>, recordFaults: seq<Faults>)
    requires n <= |results| == |recordFaults|
  {
    && (forall j :: 0 <= j < n && RecordFails(conversations, results[j], recordFaults[j]) ==> j !in written)
    && (forall j :: 0 <= j < n && !RecordFails(start, results[j], recordFaults[j]) ==> j in written)
    && ((forall j :: 0 <= j < n ==> recordFaults[j] == NoFaults) ==>
          |written| == n && forall k :: 0 <= k < |written| ==> written[k] == k)
  }

  lemma StepAddsOnlyRecipients(n: nat, start: seq<ConversationRow>, before: seq<ConversationRow>, nextId: nat,
                               results: seq<BulkResult>, recordFaults: seq<Faults>, now: Timestamp)
    requires n < |results| == |recordFaults| && OnlyRecipientsAdded(start, before, results, recordFaults, now)
    ensures OnlyRecipientsAdded(start, AfterGetOrCreate(before, nextId, results[n].recipient, None,
                                                      recordFaults[n].lookupFails,
                                                      recordFaults[n].conversationInsertFails, now),
                                results, recordFaults, now)
  {
    var after := AfterGetOrCreate(before, nextId, results[n].recipient, None, recordFaults[n].lookupFails,
                                  recordFaults[n].conversationInsertFails, now);
    forall c | c in after && c !in start
      ensures CreatedFor(c, results, recordFaults, now)
    {
      if c !in before {
        assert results[n].recipient == c.phoneNumber;
      }
    }
  }

  /** A recipient with no row whose own conversation insert fails gets no
      conversation and no row, unless another result in the batch names the
      same recipient and has its insert go through. */
  lemma FailedInsertAddsNothing(start: seq<ConversationRow>, conversations: seq<ConversationRow>,
                                written: seq<nat>, results: seq<BulkResult>, recordFaults: seq<Faults>,
                                j: nat, now: Timestamp)
    requires j < |results| == |recordFaults| && recordFaults[j].conversationInsertFails
    requires WithPhone(start, results[j].recipient) == []
    requires forall k :: 0 <= k < |results| && results[k].recipient == results[j].recipient ==>
               recordFaults[k].lookupFails || recordFaults[k].conversationInsertFails
    requires OnlyRecipientsAdded(start, conversations, results, recordFaults, now)
    requires RowsMatchFaults(|results|, start, conversations, written, results, recordFaults)
    ensures forall c :: c in conversations ==> c.phoneNumber != results[j].recipient
    ensures j !in written
  {
    var r := results[j].recipient;
    LookupEmptyIffAbsent(start, r);
    forall c | c in conversations
      ensures c.phoneNumber != r
    {
      if c !in start && c.phoneNumber == r {
        assert false;
      }
    }
    LookupEmptyIffAbsent(conversations, r);
  }

  lemma StepRecordsRows(n: nat, before: seq<ConversationRow>, after: seq<ConversationRow>, rows: seq<MessageRow>,
                        written: seq<nat>, row: Option<MessageRow>, cfg: Config, results: seq<BulkResult>, text: string)
    requires n < |results| && before <= after
    requires RowsRecordResults(n, before, rows, written, cfg, results, text)
    requires row.Some? ==> BulkStored(row.value, cfg, results[n], text, after)
    ensures RowsRecordResults(n + 1, after, if row.Some? then rows + [row.value] else rows,
                              if row.Some? then written + [n] else written, cfg, results, text)
  {
    RowsStayRecorded(n, before, after, rows, written, cfg, results, text);
    if row.Some? {
      RowRecorded(n, after, rows, written, row.value, cfg, results, text);
    }
  }

  /** Appending conversations keeps every recorded row recorded. */
  lemma RowsStayRecorded(n: nat, before: seq<ConversationRow>, after: seq<ConversationRow>, rows: seq<MessageRow>,
                         written: seq<nat>, cfg: Config, results: seq<BulkResult>, text: string)
    requires n <= |results| && before <= after
    requires RowsRecordResults(n, before, rows, written, cfg, results, text)
    ensures RowsRecordResults(n, after, rows, written, cfg, results, text)
  {
    forall k | 0 <= k < |written|
      ensures BulkStored(rows[k], cfg, results[written[k]], text, after)
    {
      BulkStoredGrows(rows[k], cfg, results[written[k]], text, before, after);
    }
  }

  /** Storing the row of result `n` extends the record by that result. */
  lemma RowRecorded(n: nat, conversations: seq<ConversationRow>, rows: seq<MessageRow>, written: seq<nat>,
                    row: MessageRow, cfg: Config, results: seq<BulkResult>, text: string)
    requires n < |results|
    requires RowsRecordResults(n, conversations, rows, written, cfg, results, text)
    requires BulkStored(row, cfg, results[n], text, conversations)
    ensures RowsRecordResults(n + 1, conversations, rows + [row], written + [n], cfg, results, text)
  {
    var rows', written' := rows + [row], written + [n];
    forall k | 0 <= k < |written'|
      ensures BulkStored(rows'[k], cfg, results[written'[k]], text, conversations)
    {
      if k < |written| {
        assert rows'[k] == rows[k] && written'[k] == written[k];
      }
    }
  }

  /** One turn of the record loop: result `n` recorded on top of the first `n`. */
  lemma RecordStep(n: nat, start: seq<ConversationRow>, before: seq<ConversationRow>, nextId: nat,
                   rows: seq<MessageRow>, written: seq<nat>, row: Option<MessageRow>, cfg: Config,
                   results: seq<BulkResult>, text: string, recordFaults: seq<Faults>, now: Timestamp)
    requires n < |results| == |recordFaults|
    requires OnlyRecipientsAdded(start, before, results, recordFaults, now)
    requires RowsRecordResults(n, before, rows, written, cfg, results, text)
    requires RowsMatchFaults(n, start, before, written, results, recordFaults)
    requires row.None? <==> RecordFails(before, results[n], recordFaults[n])
    requires row.Some? ==>
               BulkStored(row.value, cfg, results[n], text,
                          AfterGetOrCreate(before, nextId, results[n].recipient, None, recordFaults[n].lookupFails,
                                           recordFaults[n].conversationInsertFails, now))
    ensures var after := AfterGetOrCreate(before, nextId, results[n].recipient, None, recordFaults[n].lookupFails,
                                          recordFaults[n].conversationInsertFails, now);
      var rows' := if row.Some? then rows + [row.value] else rows;
      var written' := if row.Some? then written + [n] else written;
      && OnlyRecipientsAdded(start, after, results, recordFaults, now)
      && RowsRecordResults(n + 1, after, rows', written', cfg, results, text)
      && RowsMatchFaults(n + 1, start, after, written', results, recordFaults)
  {
    var after := AfterGetOrCreate(before, nextId, results[n].recipient, None, recordFaults[n].lookupFails,
                                  recordFaults[n].conversationInsertFails, now);
    StepAddsOnlyRecipients(n, start, before, nextId, results, recordFaults, now);
    StepRecordsRows(n, before, after, rows, written, row, cfg, results, text);
    StepMatchesFaults(n, start, before, after, written, row.Some?, results, recordFaults);
  }


  lemma StepMatchesFaults(n: nat, start: seq<ConversationRow>, before: seq<ConversationRow>,
                          after: seq<ConversationRow>, written: seq<nat>, recorded: bool,
                          results: seq<BulkResult>, recordFaults: seq<Faults>)
    requires n < |results| == |recordFaults| && start <= before <= after
    requires forall k :: 0 <= k < |written| ==> written[k] < n
    requires RowsMatchFaults(n, start, before, written, results, recordFaults)
    requires !recorded <==> RecordFails(before, results[n], recordFaults[n])
    ensures RowsMatchFaults(n + 1, start, after, if recorded then written + [n] else written, results, recordFaults)
  {
    var written' := if recorded then written + [n] else written;
    forall j | 0 <= j <= n && RecordFails(after, results[j], recordFaults[j])
      ensures j !in written'
    {
      RecordFailsShrinks(before, after, results[j], recordFaults[j]);
    }
    RecordFailsShrinks(start, before, results[n], recordFaults[n]);
    assert forall j :: j in written ==> j in written';
  }

  /** The `results.map(async res => …)` step: for each result, get or create
      the recipient's conversation and store its row; a failure is logged and
      skipped. `written` lists, in order, the results whose row was stored. */
  method RecordResults(db: Tables, cfg: Config, results: seq<BulkResult>, text: string,
                       recordFaults: seq<Faults>, now: Timestamp)
    returns (ghost written: seq<nat>)
    requires db.Valid() && |recordFaults| == |results|
    modifies db
    ensures db.Valid() && OnlyRecipientsAdded(old(db.conversations), db.conversations, results, recordFaults, now)
    ensures |old(db.messages)| <= |db.messages| && db.messages[..|old(db.messages)|] == old(db.messages)
    ensures RowsRecordResults(|results|, db.conversations, db.messages[|old(db.messages)|..], written, cfg, results, text)
    ensures RowsMatchFaults(|results|, old(db.conversations), db.conversations, written, results, recordFaults)
  {
    written := [];
    ghost var rows: seq<MessageRow> := [];
    var i := 0;
    while i < |results|
      invariant 0 <= i <= |results|
      invariant db.Valid() && db.messages == old(db.messages) + rows
      invariant OnlyRecipientsAdded(old(db.conversations), db.conversations, results, recordFaults, now)
      invariant RowsRecordResults(i, db.conversations, rows, written, cfg, results, text)
      invariant RowsMatchFaults(i, old(db.conversations), db.conversations, written, results, recordFaults)
    {
      rows, written := RecordNext(db, cfg, results, text, recordFaults, now, i, old(db.conversations),
                                  old(db.messages), rows, written);
      i := i + 1;
    }
    assert db.messages[..|old(db.messages)|] == old(db.messages);
    assert db.messages[|old(db.messages)|..] == rows;
  }

  /** One turn of the `RecordResults` loop: records result `i` and carries the
      loop's account of the rows written so far over to `i + 1`. */
  method RecordNext(db: Tables, cfg: Config, results: seq<BulkResult>, text: string, recordFaults: seq<Faults>,
                    now: Timestamp, i: nat, ghost start: seq<ConversationRow>, ghost base: seq<MessageRow>,
                    ghost rows: seq<MessageRow>, ghost written: seq<nat>)
    returns (ghost rows': seq<MessageRow>, ghost written': seq<nat>)
    requires i < |results| == |recordFaults|
    requires db.Valid() && db.messages == base + rows
    requires OnlyRecipientsAdded(start, db.conversations, results, recordFaults, now)
    requires RowsRecordResults(i, db.conversations, rows, written, cfg, results, text)
    requires RowsMatchFaults(i, start, db.conversations, written, results, recordFaults)
    modifies db
    ensures db.Valid() && db.messages == base + rows'
    ensures OnlyRecipientsAdded(start, db.conversations, results, recordFaults, now)
    ensures RowsRecordResults(i + 1, db.conversations, rows', written', cfg, results, text)
    ensures RowsMatchFaults(i + 1, start, db.conversations, written', results, recordFaults)
  {
    ghost var before, nextId := db.conversations, db.nextId;
    ghost var row := RecordOne(db, cfg, results[i], text, recordFaults[i], now);
    rows' := if row.Some? then rows + [row.value] else rows;
    written' := if row.Some? then written + [i] else written;
    if row.Some? {
      assert base + rows + [row.value] == base + (rows + [row.value]);
    }
    RecordStep(i, start, before, nextId, rows, written, row, cfg, results, text, recordFaults, now);
  }

  /** One element of `RecordResults`: the row stored for `result`, if both
      store calls succeed. */
  method RecordOne(db: Tables, cfg: Config, result: BulkResult, text: string, faults: Faults, now: Timestamp)
    returns (ghost row: Option<MessageRow>)
    requires db.Valid()
    modifies db
    ensures db.Valid() && old(db.conversations) <= db.conversations
    ensures row.None? ==> db.messages == old(db.messages)
    ensures row.Some? ==> db.messages == old(db.messages) + [row.value]
                          && BulkStored(row.value, cfg, result, text, db.conversations)
    ensures row.None? <==> RecordFails(old(db.conversations), result, faults)
    ensures db.conversations == AfterGetOrCreate(old(db.conversations), old(db.nextId), result.recipient, None,
                                                 faults.lookupFails, faults.conversationInsertFails, now)
  {
    row := None;
    var conversation := db.GetOrCreateConversation(result.recipient, None, faults.lookupFails,
                                                   faults.conversationInsertFails, now);
    if conversation.Ok? {
      var c := conversation.value;
      var stored := db.CreateMessage(BulkRecord(cfg, c.id, result, text), faults.messageInsertFails, now);
      if stored.Ok? {
        row := Some(stored.value);
      }
    }
  }

  /** PUT. `replies[i]` answers the send to the i-th recipient and
      `recordFaults[i]` says which store calls fail while recording it.
      `written` lists, in order, the results whose row was stored; `pauses`
      and `pauseMs` are the waits between sends, and `sent` lists what each
      send posts to the gateway. */
  method Put(db: Tables, cfg: Config, authenticated: bool, request: Option<BulkRequest>,
             replies: seq<GatewayReply>, recordFaults: seq<Faults>, now: Timestamp)
    returns (response: Response, pauses: nat, pauseMs: int, sent: seq<MessagePayload>, ghost written: seq<nat>)
    requires db.Valid()
    requires request.Some? && request.value.recipients.Recipients? ==>
               |replies| == |request.value.recipients.items| == |recordFaults|
    modifies db
    ensures db.Valid() && old(db.conversations) <= db.conversations
    ensures !authenticated ==> response == Unauthorized && unchanged(db)
    ensures authenticated && request.None? ==> response == InternalError && unchanged(db)
    ensures authenticated && request.Some? && ValidateBulk(request.value).Some? ==>
              response == ValidateBulk(request.value).value && unchanged(db)
    ensures response.status == 200 <==> authenticated && request.Some? && ValidateBulk(request.value).None?
    ensures response.status == 200 ==>
              var recipients := request.value.recipients.items;
              && response.body.BulkSent?
              && var results := response.body.results;
              && |results| == |recipients|
              && (forall i :: 0 <= i < |recipients| ==>
                    results[i] == WithRecipient(recipients[i], SendMessage(replies[i])))
              && response.body.summary == Summary(SuccessCount(results), |results| - SuccessCount(results), |results|)
              && |sent| == |recipients|
              && (forall i :: 0 <= i < |recipients| ==>
                    sent[i] == Payload(cfg, recipients[i], request.value.message.value))
              && pauses == |recipients| - 1
              && pauseMs == DelayMs(request.value.delay)
              && |old(db.messages)| <= |db.messages| && db.messages[..|old(db.messages)|] == old(db.messages)
              && OnlyRecipientsAdded(old(db.conversations), db.conversations, results, recordFaults, now)
              && RowsRecordResults(|results|, db.conversations, db.messages[|old(db.messages)|..], written, cfg,
                                   results, request.value.message.value)
              && RowsMatchFaults(|results|, old(db.conversations), db.conversations, written, results, recordFaults)
    ensures response.status != 200 ==> sent == [] && unchanged(db)
  {
    written, sent := [], [];
    pauses, pauseMs := 0, 0;
    if !authenticated {
      return Unauthorized, pauses, pauseMs, sent, written;
    }
    if request.None? {
      return InternalError, pauses, pauseMs, sent, written;
    }
    var req := request.value;
    var invalid := ValidateBulk(req);
    if invalid.Some? {
      return invalid.value, pauses, pauseMs, sent, written;
    }
    var results, summary;
    results, summary, pauses, sent := SendBulkMessages(cfg, req.recipients.items, req.message.value, replies);
    pauseMs := DelayMs(req.delay);
    written := RecordResults(db, cfg, results, req.message.value, recordFaults, now);
    response := Response(200, BulkSent(summary, results));
  }
}

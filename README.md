# airophone messaging core, modelled in Dafny

airophone is a web application for sending and receiving SMS through the
Telnyx messaging gateway. Conversations (one per phone number) and messages
are stored in two Supabase tables. This project models its core:

- the gateway client (`src/lib/telnyx.js`): configuration check, E.164
  canonicalisation, single and bulk sends, webhook signature check and parsing;
- the table helpers used by the API routes (`src/lib/supabase-server.js`) and by
  the browser (`src/lib/supabase.js`);
- the outbound API route (`src/app/api/sms/send/route.js`): POST for one message,
  PUT for up to 100 recipients;
- the gateway callback route (`src/app/api/webhooks/telnyx/route.js`);
- the realtime list reducers of `src/hooks/useRealtime.js`, including the
  optimistic-send reconciliation;
- the request gate (`src/middleware.js`);
- the conversation-row helpers (`src/components/ui/conversation-item.js`).

Layout, one module per file:

| file | models |
|---|---|
| `common.dfy` | `Option`, `Result`, `Outcome`, JavaScript truthiness of strings, `replace(/\D/g, '')` |
| `seqs.dfy` | `Array.prototype.map`, `filter` and `some` as sequence functions |
| `records.dfy` | table rows, the insert payload of a message, the conversation list views |
| `telnyx.dfy` | the gateway client |
| `http.dfy` | the JSON responses of the two routes |
| `store.dfy` | the tables as a class (`Store.Tables`) whose methods are the server helpers, plus the pure query functions |
| `client_helpers.dfy` | the browser helpers, stated against the server ones |
| `webhook_route.dfy` | the gateway callback route |
| `send_route.dfy` | the outbound route |
| `realtime.dfy` | the list reducers of both realtime hooks |
| `middleware.dfy` | the request gate |
| `conversation_item.dfy` | truncation, initials, display name, unread marker |
| `scenarios.dfy` | a run crossing both routes |

How the environment is represented:

- Store failures are parameters. The `Faults` record says which of the lookup,
  conversation insert, message insert or update fails.
- `.single()` succeeds exactly when one row qualifies. Otherwise it yields the
  PGRST116 error (`NoSingleRow`).
- Ids are drawn from a counter that starts at 1, so a stored row never has the
  falsy id 0. Timestamps are natural numbers from an injected clock, in
  milliseconds since the epoch.
- The gateway's HTTP answer is a `GatewayReply`. It is either an answer, whose
  `data` may or may not hold `data`, or a thrown error, with or without a
  response body.
- The signed-in user is a boolean. A JSON body that fails to parse is `None`.
- A callback's `occurred_at` is missing, `null`, an instant, or not a date.
  `new Date(...)` turns `null` into the epoch and the other two non-instants
  into an invalid date.

The model follows the code, including where it behaves in ways a reader of
the route comments may not expect:

- Duplicate inbound callbacks are not absorbed. Each `message.received`
  callback inserts a row, with no check for an existing provider id
  (`WebhookRoute.ReplayedCallbackStoresTwice`).
- Status updates do not move only forward. A late `sent` overwrites
  `delivered`, and `delivered_at` stays behind
  (`Store.LateSentOverwritesDelivered`).
- The signature check never rejects a callback. It only decides whether a
  warning is logged, and it accepts any non-empty signature and timestamp.
- Phone numbers are not always stored canonically. `toE164` returns unmatched
  input unchanged, and the send route files the conversation under the number
  as typed, while callbacks arrive in canonical form. A reply can therefore
  open a second conversation (`Scenarios.ReplyOpensSecondConversation`).
- Get-or-create is a lookup followed by an insert, with no fallback when a
  concurrent insert wins.
- A gateway failure does store a `failed` row, as described. But a store error
  after a successful send answers 500 although the text went out
  (`SendRoute.SentButReportedFailed`).

## Model

| member | source | states |
|---|---|---|
| Common.Digits | src/lib/telnyx.js:28 | the result holds only decimal digits, is no longer than the input, and is the input itself when that is all digits |
| Common.DigitsKeepsEveryDigit | src/lib/telnyx.js:28 | the result is exactly the input's digit characters in their order (the filter that keeps digits) |
| Telnyx.NewClient | src/lib/telnyx.js:7-14 | a client exists exactly when API key, profile id and sender number are all non-empty, and it holds those three values; otherwise the configuration error |
| Telnyx.ToE164 | src/lib/telnyx.js:27-36 | eleven digits led by 1 get "+", ten digits get "+1", any other input is returned exactly as given; so the result is the input or a canonical +1 number |
| Telnyx.ToE164Digits | src/lib/telnyx.js:27-36 | the result's digits are the input's digits, with a leading 1 added when the input had ten |
| Telnyx.ToE164Idempotent | src/lib/telnyx.js:27-36 | canonicalising a number twice gives the same as once |
| Telnyx.ToE164FixesCanonical | src/lib/telnyx.js:29-30 | a "+1" number with ten further digits is returned unchanged |
| Telnyx.ToE164National | src/lib/telnyx.js:32-34 | ten bare digits become "+1" followed by them |
| Telnyx.ToE164WithCountryCode | src/lib/telnyx.js:29-31 | eleven bare digits led by 1 become "+" followed by them |
| Telnyx.SpellingsMeet | src/lib/telnyx.js:27-36 | for any ten digits, the bare digits, the digits led by 1, and "+1" followed by the digits all become "+1" followed by the digits |
| Telnyx.SendMessage | src/lib/telnyx.js:39-72 | success exactly when the answer carries `data.data`, with that resource's id and no error; otherwise failure with a null id and the error detail (the response body if any, else the error message; "Invalid response format from Telnyx" for an answer without data) |
| Telnyx.DelayMs | src/lib/telnyx.js:77 | a missing or zero delay becomes 1000 ms; any other value is kept |
| Telnyx.SendBulkMessages | src/lib/telnyx.js:75-115 | one result per recipient, in order, each the recipient joined to that send's result; the summary counts successes, failures as total minus successes, and the total; each send posts the same text from the configured number and profile to that recipient in canonical form; there is a pause after every send but the last |
| Telnyx.SummaryAllSucceeded | src/lib/telnyx.js:106-113 | the success count equals the number of results exactly when every result succeeded |
| Telnyx.SummaryOneFailure | src/lib/telnyx.js:106-107 | with exactly one failed result the success count is one less than the total |
| Telnyx.VerifyWebhookSignature | src/lib/telnyx.js:118-127 | valid exactly when both signature and timestamp are non-empty, whatever the payload |
| Telnyx.ParseWebhookEvent | src/lib/telnyx.js:130-153 | an event exactly when the body is JSON with `data` and a non-empty `event_type`, copying type, id, payload, occurrence time and record type; otherwise "Failed to parse webhook event" |
| Records.WithLastMessage | src/lib/supabase-server.js:73-77 | the view keeps the conversation row and has a last message exactly when the join returned messages, namely the first one |
| Store.LookupEmptyIffAbsent | src/lib/supabase-server.js:24-30 | the lookup by number comes back empty exactly when no conversation has that number, with or without unique numbers |
| Store.LookupFindsTheRow | src/lib/supabase-server.js:24-30 | with unique phone numbers the lookup by number finds at most one row, and none exactly when no conversation has that number |
| Store.GetOrCreateProvidesTheRow | src/lib/supabase-server.js:22-53 | get-or-create only appends, at most one row, for the given number and name; when it does not fail the number has a row afterwards |
| Store.LookupSurvivesAppend | src/lib/supabase-server.js:24-30 | appending conversations never hides a row the phone lookup found |
| Store.Stored | src/lib/supabase-server.js:83-95 | the inserted row keeps every given column, takes the next id and the insert time, and has no update or delivery time |
| Store.WithStatus | src/lib/supabase-server.js:98-102 | the row takes the status and a fresh `updated_at`, and `delivered_at` only when one is given; every other column is kept |
| Store.FirstWithProviderId | src/lib/supabase-server.js:104-109 | the first row with the provider id, and the end of the table exactly when no row has it |
| Store.UpdateTouchesOnlyItsRow | src/lib/supabase-server.js:98-116 | an update keeps the table's length and order, leaves rows with another provider id as they were, and rewrites the single matching row |
| Store.LateSentOverwritesDelivered | src/lib/supabase-server.js:98-109 | after `delivered` then `sent` for the same id the row reads `sent` and keeps its delivery time |
| Store.InsertByCreatedAt | src/lib/supabase-server.js:124 | inserting into an ascending list keeps it ascending and adds exactly the new row |
| Store.SortByCreatedAt | src/lib/supabase-server.js:124 | the result is ascending by creation time and a permutation of the input |
| Store.GetConversationMessages | src/lib/supabase-server.js:119-133 | an error exactly when the request fails; otherwise min(limit or 50, rows in the conversation) rows, all of that conversation, ascending, and no omitted row is earlier than a returned one |
| Store.GetAllConversations | src/lib/supabase-server.js:55-78 | an error is passed on; otherwise one view per joined row, in order, with the row kept and the first joined message as last message |
| Store.Tables.GetOrCreateConversation | src/lib/supabase-server.js:22-53 | a lookup error is rethrown; an existing row for the number is returned with nothing changed; otherwise a row with the number, the given name and the next id is appended, unless the insert fails; it fails exactly when the lookup fails or the number has no row and the insert fails; messages are never touched |
| Store.Tables.CreateMessage | src/lib/supabase-server.js:83-96 | on success the stored row is appended and returned; on failure the error and no change |
| Store.Tables.UpdateMessageStatus | src/lib/supabase-server.js:98-117 | succeeds exactly when the request goes through and one row has the provider id, returning that row updated; the table becomes the status update of the old table, or stays as it was on failure |
| ClientHelpers.CreateConversation | src/lib/supabase.js:59-92 | the same get-or-create as the server helper: an error, with nothing changed, exactly when the lookup fails or the number has no row and the insert fails; otherwise an existing row is returned unchanged or a missing one appended with the given name; the new table is given exactly |
| ClientHelpers.GetConversations | src/lib/supabase.js:16-40 | the same result as the server's listing: errors passed on, one view per joined row with its first message |
| ClientHelpers.GetConversationMessages | src/lib/supabase.js:42-57 | the same result as the server's message query, so never more rows than the limit (50 by default) |
| WebhookRoute.StatusOf | src/app/api/webhooks/telnyx/route.js:26-45 | `message.sent`, `message.delivered` and `message.delivery_failed` map to sent, delivered and failed; every other type to nothing |
| WebhookRoute.HandleIncomingMessage | src/app/api/webhooks/telnyx/route.js:58-88 | a payload without sender or recipient fails with nothing changed; otherwise it fails exactly when the sender's get-or-create or the message insert fails, with messages unchanged, and on success one inbound `received` row is appended under the sender's conversation; the conversations table is the sender's get-or-create, kept even when the message insert fails |
| WebhookRoute.DeliveryTime | src/app/api/webhooks/telnyx/route.js:110 | `null` gives the epoch, an instant is kept, a missing or non-date value gives no time (formatting it throws) |
| WebhookRoute.NullTimeDeliversAtEpoch | src/app/api/webhooks/telnyx/route.js:106-121 | a `delivered` callback with a null time marks the matching message delivered at the epoch |
| WebhookRoute.StatusEventPreservesRows | src/app/api/webhooks/telnyx/route.js:90-141 | a status event adds and removes no message, changes only the row with the event's provider id, never changes any row's id, direction or provider id, and only `delivered` touches a delivery time |
| WebhookRoute.HandleStatusEvent | src/app/api/webhooks/telnyx/route.js:90-141 | the messages become the event's status effect: unchanged without a payload, on `delivered` with a missing or non-date time, or on a store error; otherwise the status update keyed on the payload id |
| WebhookRoute.Post | src/app/api/webhooks/telnyx/route.js:6-56 | a warning exactly when the signature check fails, never a rejection; an unparseable body gives 500 and no change; `received` gives 500 exactly when the payload is malformed or the handler's store calls fail, with messages unchanged, and 200 with one stored inbound row otherwise; the conversations table is the sender's get-or-create; status events and unknown types always give 200 |
| WebhookRoute.Get | src/app/api/webhooks/telnyx/route.js:144-147 | always 200 with the endpoint-active body |
| WebhookRoute.ReplayedCallbackStoresTwice | src/app/api/webhooks/telnyx/route.js:58-80 | the same `message.received` callback delivered twice leaves two rows |
| SendRoute.OutboundRecord | src/app/api/sms/send/route.js:62-90 | an outbound row from the configured number to the canonical recipient with the text, status and provider id given |
| SendRoute.Post | src/app/api/sms/send/route.js:7-108 | 401 when signed out; 500 for a bad body; 400 without `to` or `message`; 404 when a given conversation id does not name exactly one row; 500 with nothing sent and no message stored when get-or-create for `to` fails; the text goes to the gateway, canonicalised, exactly when its conversation is found or created; the conversations table is that get-or-create or unchanged; acceptance stores a pending row with the gateway id and returns 200 with row and conversation; refusal stores a failed row without id, with every column of the outbound row, under the resolved conversation, and returns 500 with the detail; after a refusal the answer is the plain 500 exactly when that insert fails, and no row is then stored |
| SendRoute.SendAndRecord | src/app/api/sms/send/route.js:56-99 | conversations untouched; a refused send answers the plain 500 exactly when the failed-row insert fails, storing nothing, and otherwise stores the full outbound row under the given conversation with status failed and no gateway id and answers 500 with the gateway's detail; an accepted send stores one pending row carrying the gateway id under the given conversation and answers 200 with row, id and conversation; with an accepted send the answer is 200 exactly when the insert succeeds |
| SendRoute.SentButReportedFailed | src/app/api/sms/send/route.js:81-106 | an accepted send whose row cannot be stored answers 500 and leaves no row |
| SendRoute.ValidateBulk | src/app/api/sms/send/route.js:126-147 | the request passes exactly when recipients is an array of 1 to 100 numbers and the message is non-empty; otherwise 400 with the message of the first failing check |
| SendRoute.RecipientLimit | src/app/api/sms/send/route.js:141-147 | 100 recipients pass and 101 are refused with the limit message |
| SendRoute.BulkRecord | src/app/api/sms/send/route.js:159-167 | the row for a bulk result is outbound under the given conversation, pending when the send succeeded and failed otherwise, with the result's gateway id, the text, the configured sender and the canonical recipient |
| SendRoute.RecordOne | src/app/api/sms/send/route.js:155-171 | no row exactly when the recipient's get-or-create or the message insert fails; otherwise one row for the result appended under a conversation for the recipient as typed; the conversations table is that get-or-create |
| SendRoute.RecordResults | src/app/api/sms/send/route.js:155-173 | rows are appended in result order, each under a conversation for its recipient; a result whose store calls fail against the final table has no row, one whose calls succeed against the starting table has one, and with no store error every result has one; every added conversation is a bare row for a recipient whose own lookup and conversation insert succeeded |
| SendRoute.FailedInsertAddsNothing | src/app/api/sms/send/route.js:155-173 | when a recipient has no row at the start and every result naming it has a failed lookup or conversation insert, the record step adds no conversation for it and stores no row for its result |
| SendRoute.Put | src/app/api/sms/send/route.js:111-188 | 401 signed out, 500 bad body, the validation 400s, all with nothing changed; otherwise 200 with one result per recipient, one gateway payload per recipient carrying the text, the summary of those results, n-1 pauses of the given delay; the rows, the failed results without a row and the conversations added are those of RecordResults |
| Realtime.ProviderIdOf | src/hooks/useRealtime.js:83-85 | a stored row's provider id compares as null or a string, never as undefined |
| Realtime.FromRow | src/hooks/useRealtime.js:89-93 | the entry has the row's id, provider id, status, body and direction, and is not optimistic |
| Realtime.LoadMessages | src/hooks/useRealtime.js:13-34 | a missing or falsy conversation id or a query error keeps the list; otherwise the list is the returned rows, or empty for null data |
| Realtime.Optimistic | src/hooks/useRealtime.js:37-44 | the provisional entry has the clock-built id, status sending, creation time now, the optimistic flag and the draft's fields |
| Realtime.AddOptimistic | src/hooks/useRealtime.js:37-48 | the old entries stay in place, the provisional entry is appended after them, and the returned id is that entry's id |
| Realtime.ReplaceOptimistic | src/hooks/useRealtime.js:51-55 | same length; entries with the id become the confirmed row, the rest are kept |
| Realtime.RemoveOptimistic | src/hooks/useRealtime.js:58-60 | exactly the entries without the id remain |
| Realtime.RemoveOptimisticKeepsOrder | src/hooks/useRealtime.js:58-60 | removal works entry by entry: an entry is dropped exactly when it has the id, and the rest keep their order |
| Realtime.RemoveDropsOnlyIt | src/hooks/useRealtime.js:58-60 | removing an id that only one entry holds drops exactly that entry and keeps the others in order |
| Realtime.MessageInserted | src/hooks/useRealtime.js:78-100 | optimistic entries with the row's provider id are replaced in place; if there are none the row is appended unless its id is already listed |
| Realtime.MessageUpdated | src/hooks/useRealtime.js:110-118 | same length; the entry with the row's id takes the new row |
| Realtime.InsertedGrowsByAtMostOne | src/hooks/useRealtime.js:82-99 | an insert event never shrinks the list and adds at most one entry |
| Realtime.InsertedRowIsPresent | src/hooks/useRealtime.js:82-99 | after an insert event an entry has the row's id |
| Realtime.InsertedIsIdempotent | src/hooks/useRealtime.js:82-99 | the same insert event twice has the effect of once |
| Realtime.InsertedKeepsIdsDistinct | src/hooks/useRealtime.js:94-98 | without an optimistic match an insert event keeps ids distinct |
| Realtime.UpdatedUnknownRowIsNoOp | src/hooks/useRealtime.js:113-117 | an update event for a row not listed changes nothing |
| Realtime.AddThenRemoveRestores | src/hooks/useRealtime.js:37-60 | adding then removing a provisional entry restores the list |
| Realtime.AddThenReplaceConfirms | src/hooks/useRealtime.js:37-55 | adding then replacing a provisional entry yields the old list plus the confirmed row, in the same position |
| Realtime.InsertBeforeReplyDuplicates | src/hooks/useRealtime.js:82-98 | for a draft without provider id, an insert event before the reply followed by the replacement lists the row twice |
| Realtime.ReconcileOptimistic | src/hooks/useRealtime.js:51-55 | corrected reply handling: drop the provisional entry when the row is already listed, otherwise replace it |
| Realtime.ReplyThenEvent | src/hooks/useRealtime.js:51-98 | with the corrected reply, reply then insert event gives the old list plus the row |
| Realtime.EventThenReply | src/hooks/useRealtime.js:51-98 | with the corrected reply, insert event then reply gives the old list plus the row |
| Realtime.ReconcileIsOrderIndependent | src/hooks/useRealtime.js:51-98 | with the corrected reply both arrival orders give the same list, holding the row once |
| Realtime.ReconcileKeepsIdsDistinct | src/hooks/useRealtime.js:51-98 | with the corrected reply a list with distinct ids keeps distinct ids |
| Realtime.LoadConversations | src/hooks/useRealtime.js:144-176 | a query error keeps the list; null data empties it; otherwise one view per row with its first joined message |
| Realtime.ConversationInserted | src/hooks/useRealtime.js:192-197 | the list grows by one: the new conversation goes first, with no last message, and the old list follows unchanged |
| Realtime.ConversationUpdated | src/hooks/useRealtime.js:198-203 | same length; entries with the id take the new row and keep their last message |
| Realtime.ConversationDeleted | src/hooks/useRealtime.js:204-205 | exactly the entries without the id remain |
| Realtime.ConversationDeletedKeepsOrder | src/hooks/useRealtime.js:204-205 | deletion works entry by entry: a view is dropped exactly when it has the id, and the rest keep their order |
| Realtime.LastMessageInserted | src/hooks/useRealtime.js:221-237 | the owning conversation shows the message as last and moves its last-message time; others and the order are kept |
| Realtime.InsertThenDeleteRestores | src/hooks/useRealtime.js:192-206 | inserting then deleting a new conversation restores the list |
| Middleware.Decide | src/middleware.js:5-38 | webhook paths pass; signed out on a non-public path redirects to sign-in with the path as return; signed in on /login, /signup or / redirects to the inbox; everything else passes |
| Middleware.SessionDecidesRedirect | src/middleware.js:25-35 | a signed-in user is never sent to sign in, a signed-out user never to the inbox |
| Middleware.WebhooksAlwaysPass | src/middleware.js:21-23 | every path under /api/webhooks/ passes with or without a session |
| Middleware.SignedOutExamples | src/middleware.js:17-30 | signed out, / and /inbox go to sign-in while /login and /login-help pass |
| ConversationItem.TruncateMessage | src/components/ui/conversation-item.js:40-43 | empty for a missing text; a text within the limit is unchanged; a longer one keeps its first `maxLength` characters followed by "..."; no preview is longer than `maxLength` + 3 |
| ConversationItem.GetInitials | src/components/ui/conversation-item.js:45-50 | "??" for a missing number; otherwise at most two digits, the first two of the last four |
| ConversationItem.InitialsIgnoreCanonicalForm | src/components/ui/conversation-item.js:45-50 | a number and its canonical form have the same initials |
| ConversationItem.GetDisplayName | src/components/ui/conversation-item.js:52-57 | the saved name when non-empty, else the formatted number |
| ConversationItem.Preview | src/components/ui/conversation-item.js:97-118 | the "No messages yet" placeholder exactly when there is no last message; otherwise its body cut at the default 60 characters (never longer than 63, unchanged when it fits, the first 60 and "..." when it does not, empty when missing), with the sent icon exactly for an outbound message |
| ConversationItem.IsUnread | src/components/ui/conversation-item.js:59-63 | marked exactly when the last message is inbound |
| Scenarios.ReplyOpensSecondConversation | src/app/api/sms/send/route.js:50-53 | a send to a non-canonical number followed by the reply callback leaves two conversations for one person |

## Left out

- Network and SDK calls are not modelled: axios, the Supabase clients, `auth.getUser`/`getSession`, and the realtime channel subscriptions. Their outcomes are parameters.
- The `setTimeout` pause is not modelled: `Telnyx.SendBulkMessages` counts the pauses and `DelayMs` gives their length.
- The catch in `sendBulkMessages` is not modelled, because `sendMessage` never throws.
- The `...options` spread is not modelled. In bulk sends it also copies `delay` into the gateway payload.
- Telnyx.ToE164: `String(phoneNumber)` is not modelled; numbers are strings throughout. A JSON number sent as `to` or as a bulk recipient passes the field checks and is stringified before its digits are taken; the model has no such input, and `SendRoute.SendRequest` and `SendRoute.BulkRequest` hold strings only.
- `getMessageStatus` is not modelled; no route uses it.
- Ed25519 signature verification is not modelled; the source does not do it either.
- The ISO-8601 parsing and formatting of `occurred_at` is not modelled: a parsed time is an instant in milliseconds. A missing or non-date `occurred_at` makes the delivered handler throw, while `null` is the epoch.
- `formatTimestamp` is not modelled: it depends on the clock and locale formatting.
- `encodeURIComponent` in the row link is not modelled, nor is the rendering markup.
- The middleware `config.matcher` regular expression is not modelled.
- SendRoute.RecordResults: for a result whose conversation insert fails while its recipient had no row at the start, and another result in the batch, earlier or later, names the same recipient and adds its row, whether the failing result gets a row is not stated; the contract pins each outcome against the starting and the final table only, not against the table at that result's turn.
- SendRoute.Put: inherits that one gap from SendRoute.RecordResults.
- Promise.all in the bulk PUT is not modelled as concurrent: its per-recipient record steps run sequentially in result order. Interleavings of get-or-create for repeated recipients are not covered.
- Store.GetConversationMessages: the order among rows with equal `created_at` is not fixed. The model gives a sorted permutation without the database's tie order.
- Realtime.LoadConversations: the `messages!inner` filter and the `last_message_at` ordering are done by the database. The reply is a parameter.
- Message and conversation ids are natural numbers, not UUIDs. Table constraints and defaults beyond ids and `created_at` are not modelled.
- String lengths count characters, not UTF-16 code units.
- Realtime.Entry omits `updated_at`, which no reducer reads.
- WebhookRoute.HandleIncomingMessage: a `to` entry without `phone_number` (stored as undefined) is not distinguished from one with it.

## Findings

| source | as written | input that shows it | evidently intended | confidence | as-written member | corrected member |
|---|---|---|---|---|---|---|
| src/hooks/useRealtime.js:82-98 | the insert handler matches optimistic entries by `telnyx_message_id`, but the chat screen's draft has none (undefined, which never equals a row's null or string); the reply then replaces the provisional entry by the same row | send a message; the realtime INSERT for the stored row arrives before the HTTP reply | the stored message is listed once, whichever of the reply and the event arrives first | not executed | Realtime.InsertBeforeReplyDuplicates | Realtime.ReconcileOptimistic (with Realtime.ReconcileIsOrderIndependent) |

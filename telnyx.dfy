/** The gateway client of `src/lib/telnyx.js`: configuration, phone-number
    canonicalisation (the North-American subset of ITU-T Recommendation
    E.164), shaping of the gateway's answer into a send result, the bulk-send
    loop with its summary, and the two webhook helpers. The HTTP call itself
    is abstracted: each send is given the reply the gateway produced. */
module Telnyx {
  import opened Common
  import Seqs

  const DefaultBulkDelayMs := 1000

  /** The three settings read from the environment once, at construction. */
  datatype Config = Config(apiKey: string, profileId: string, fromNumber: string)

  const MissingConfiguration := "Missing Telnyx configuration"

  /** The constructor: it throws unless all three settings are non-empty. */
  function NewClient(apiKey: Option<string>, profileId: Option<string>, fromNumber: Option<string>)
    : (r: Result<Config, string>)
    ensures r.Ok? <==> Truthy(apiKey) && Truthy(profileId) && Truthy(fromNumber)
    ensures r.Ok? ==> r.value.apiKey == apiKey.value && r.value.profileId == profileId.value
                      && r.value.fromNumber == fromNumber.value
  {
    if Truthy(apiKey) && Truthy(profileId) && Truthy(fromNumber)
    then Ok(Config(apiKey.value, profileId.value, fromNumber.value))
    else Err(MissingConfiguration)
  }

  // ---------------------------------------------------------------------------
  // Phone numbers

  /** A "+1" number with ten national digits. */
  predicate IsCanonical(p: string) {
    |p| == 12 && p[0] == '+' && p[1] == '1' && AllDigits(p[1..])
  }

  /** `toE164`: eleven digits starting with 1 get a '+', ten digits get "+1",
      and any other shape is returned exactly as given (not its digits). */
  function ToE164(phone: string): (r: string)
    ensures var d := Digits(phone);
      && (|d| == 11 && d[0] == '1' ==> r == "+" + d)
      && (|d| == 10 ==> r == "+1" + d)
      && (|d| != 10 && !(|d| == 11 && d[0] == '1') ==> r == phone)
    ensures r == phone || IsCanonical(r)
  {
    var digits := Digits(phone);
    if |digits| == 11 && digits[0] == '1' then "+" + digits
    else if |digits| == 10 then "+1" + digits
    else phone
  }

  /** The digits of a canonical result are its input's digits, with the
      country code added when the input had only ten. */
  lemma ToE164Digits(phone: string)
    ensures var d := Digits(phone);
      Digits(ToE164(phone)) == if |d| == 10 then "1" + d else d
  {
    var d := Digits(phone);
    if |d| == 11 && d[0] == '1' {
      DigitsAppend("+", d);
      assert Digits("+") == [];
    } else if |d| == 10 {
      DigitsAppend("+", "1" + d);
      assert Digits("+") == [];
      assert "+1" + d == "+" + ("1" + d);
    }
  }

  /** Canonicalising twice is canonicalising once. */
  lemma {:induction false} ToE164Idempotent(phone: string)
    ensures ToE164(ToE164(phone)) == ToE164(phone)
  {
    var d := Digits(phone);
    ToE164Digits(phone);
    if |d| == 10 {
      assert "+" + ("1" + d) == "+1" + d;
    }
  }

  /** A number already in canonical form is returned unchanged. */
  lemma {:induction false} ToE164FixesCanonical(phone: string)
    requires IsCanonical(phone)
    ensures ToE164(phone) == phone
  {
    assert phone == "+" + phone[1..];
    DigitsAppend("+", phone[1..]);
    assert Digits("+") == [];
  }

  /** Ten bare digits gain the "+1" country code. */
  lemma ToE164National(d: string)
    requires AllDigits(d) && |d| == 10
    ensures ToE164(d) == "+1" + d
  {
  }

  /** Eleven bare digits led by 1 gain a "+". */
  lemma ToE164WithCountryCode(d: string)
    requires AllDigits(d) && |d| == 11 && d[0] == '1'
    ensures ToE164(d) == "+" + d
  {
  }

  /** The three spellings of one US number meet at one form: ten national
      digits, the same led by 1, and the canonical "+1" form. */
  lemma {:induction false} SpellingsMeet(national: string)
    requires AllDigits(national) && |national| == 10
    ensures ToE164(national) == "+1" + national
    ensures ToE164("1" + national) == "+1" + national
    ensures ToE164("+1" + national) == "+1" + national
  {
    ToE164National(national);
    var full := "1" + national;
    assert AllDigits(full) by {
      forall i | 0 < i < |full| ensures IsDigit(full[i]) {
        assert full[i] == national[i - 1];
      }
    }
    ToE164WithCountryCode(full);
    assert "+" + full == "+1" + national;
    assert "+1" + national == "+" + full;
    DigitsAppend("+", full);
    assert Digits("+") == [];
  }

  // ---------------------------------------------------------------------------
  // Sending

  /** The body POSTed to `/messages`. */
  datatype MessagePayload = MessagePayload(from: string, to: string, text: string, messagingProfileId: string)

  function Payload(cfg: Config, to: string, text: string): MessagePayload {
    MessagePayload(cfg.fromNumber, ToE164(to), text, cfg.profileId)
  }

  /** `response.data.data`, the message resource, carries the gateway id. */
  datatype MessageResource = MessageResource(id: Option<string>)

  /** What the POST produced, as the HTTP client reports it: an answer whose
      `response.data` may or may not hold `data`; or a thrown error, with the
      error response body when the gateway answered with an error status and
      without one on a network failure or the 10-second timeout. */
  datatype GatewayReply =
    | Answered(data: Option<Option<MessageResource>>)
    | Rejected(responseData: Option<string>, message: string)

  datatype SendResult = SendResult(
    success: bool,
    messageId: Option<string>,
    error: Option<string>,
    data: Option<MessageResource>)

  const InvalidResponse := "Invalid response format from Telnyx"

  /** The error detail of a failed send: `error.response?.data || error.message`. */
  function ErrorDetail(reply: GatewayReply): string {
    match reply
    case Answered(_) => InvalidResponse
    case Rejected(body, message) => if Truthy(body) then body.value else message
  }

  predicate CarriesResource(reply: GatewayReply) {
    reply.Answered? && reply.data.Some? && reply.data.value.Some?
  }

  /** `sendMessage`'s result: success with the resource's id exactly when the
      answer carries `data.data`; otherwise failure, a null id and the detail. */
  function SendMessage(reply: GatewayReply): (r: SendResult)
    ensures r.success <==> CarriesResource(reply)
    ensures r.success ==> r.messageId == reply.data.value.value.id && r.error == None
                          && r.data == reply.data.value
    ensures !r.success ==> r.messageId == None && r.error == Some(ErrorDetail(reply)) && r.data == None
  {
    if CarriesResource(reply) then
      var resource := reply.data.value.value;
      SendResult(true, resource.id, None, Some(resource))
    else
      SendResult(false, None, Some(ErrorDetail(reply)), None)
  }

  // ---------------------------------------------------------------------------
  // Bulk sending

  datatype BulkResult = BulkResult(
    recipient: string,
    success: bool,
    messageId: Option<string>,
    error: Option<string>,
    data: Option<MessageResource>)

  datatype Summary = Summary(successful: nat, failed: nat, total: nat)

  /** `{recipient, ...result}`. */
  function WithRecipient(recipient: string, r: SendResult): BulkResult {
    BulkResult(recipient, r.success, r.messageId, r.error, r.data)
  }

  predicate Succeeded(r: BulkResult) {
    r.success
  }

  /** `results.filter(r => r.success).length`. */
  function SuccessCount(results: seq<BulkResult>): nat {
    |Seqs.Filter(results, Succeeded)|
  }

  /** `options.delay || 1000`: a missing or zero delay becomes one second. */
  function DelayMs(delay: Option<int>): (ms: int)
    ensures delay.Some? && delay.value != 0 ==> ms == delay.value
    ensures delay.None? || delay.value == 0 ==> ms == DefaultBulkDelayMs
  {
    if delay.Some? && delay.value != 0 then delay.value else DefaultBulkDelayMs
  }

  /** `sendBulkMessages`: one send per recipient in order, with a pause after
      every send but the last. `replies[i]` is the gateway's answer to the
      i-th send; `sent` lists what each send posts, and `waits` counts the
      pauses (their length is `DelayMs`). */
  method SendBulkMessages(cfg: Config, recipients: seq<string>, text: string, replies: seq<GatewayReply>)
    returns (results: seq<BulkResult>, summary: Summary, waits: nat, sent: seq<MessagePayload>)
    requires |replies| == |recipients|
    ensures |results| == |recipients| == |sent|
    ensures forall i :: 0 <= i < |recipients| ==> sent[i] == Payload(cfg, recipients[i], text)
    ensures forall i :: 0 <= i < |recipients| ==>
              results[i] == WithRecipient(recipients[i], SendMessage(replies[i]))
    ensures summary.total == |results|
    ensures summary.successful == SuccessCount(results)
    ensures summary.failed == summary.total - summary.successful
    ensures waits == if recipients == [] then 0 else |recipients| - 1
  {
    results, sent := [], [];
    waits := 0;
    var i := 0;
    while i < |recipients|
      invariant 0 <= i <= |recipients|
      invariant |results| == i == |sent|
      invariant forall j :: 0 <= j < i ==> sent[j] == Payload(cfg, recipients[j], text)
      invariant forall j :: 0 <= j < i ==>
                  results[j] == WithRecipient(recipients[j], SendMessage(replies[j]))
      invariant waits == if i == |recipients| && i > 0 then i - 1 else i
    {
      var recipient := recipients[i];
      sent := sent + [Payload(cfg, recipient, text)];
      var result := SendMessage(replies[i]);
      results := results + [WithRecipient(recipient, result)];
      if i < |recipients| - 1 {
        waits := waits + 1;
      }
      i := i + 1;
    }
    var successful := SuccessCount(results);
    summary := Summary(successful, |results| - successful, |results|);
  }

  /** Every result succeeded exactly when the summary counts them all. */
  lemma {:induction false} SummaryAllSucceeded(results: seq<BulkResult>)
    ensures SuccessCount(results) == |results| <==> forall i :: 0 <= i < |results| ==> results[i].success
  {
    if forall i :: 0 <= i < |results| ==> results[i].success {
      Seqs.FilterKeepsAll(results, Succeeded);
    }
    if SuccessCount(results) == |results| {
      FilterFullLength(results);
    }
  }

  lemma {:induction false} FilterFullLength(results: seq<BulkResult>)
    requires |Seqs.Filter(results, Succeeded)| == |results|
    ensures forall i :: 0 <= i < |results| ==> results[i].success
  {
    if results != [] {
      assert results == [results[0]] + results[1..];
      Seqs.FilterAppend([results[0]], results[1..], Succeeded);
      assert Seqs.Filter([results[0]], Succeeded) == if results[0].success then [results[0]] else [];
      FilterFullLength(results[1..]);
      forall i | 0 <= i < |results| ensures results[i].success {
        if i > 0 { assert results[i] == results[1..][i - 1]; }
      }
    }
  }

  /** A bulk send in which exactly the k-th recipient fails reports one
      failure and `total - 1` successes. */
  lemma {:induction false} SummaryOneFailure(results: seq<BulkResult>, k: nat)
    requires k < |results|
    requires forall i :: 0 <= i < |results| ==> (results[i].success <==> i != k)
    ensures SuccessCount(results) == |results| - 1
  {
    var before, after := results[..k], results[k + 1..];
    assert results == before + [results[k]] + after;
    Seqs.FilterAppend(before + [results[k]], after, Succeeded);
    Seqs.FilterAppend(before, [results[k]], Succeeded);
    Seqs.FilterKeepsAll(before, Succeeded);
    Seqs.FilterKeepsAll(after, Succeeded);
    assert Seqs.Filter([results[k]], Succeeded) == [];
  }

  // ---------------------------------------------------------------------------
  // Webhooks

  /** `verifyWebhookSignature`: false when the signature or the timestamp is
      missing or empty, true otherwise; the payload is never examined. */
  function VerifyWebhookSignature<P>(payload: P, signature: Option<string>, timestamp: Option<string>)
    : (valid: bool)
    ensures valid <==> Truthy(signature) && Truthy(timestamp)
  {
    Truthy(signature) && Truthy(timestamp)
  }

  /** `payload` of a message event, reduced to the fields the handlers read:
      `id`, `from.phone_number` (None: no `from` object), the numbers of `to`,
      and `text`. */
  datatype EventPayload = EventPayload(id: Option<string>, from: Option<string>, to: seq<string>, text: Option<string>)

  /** `occurred_at` as found in the callback: missing, `null`, an instant,
      or a value that is not a date. */
  datatype OccurredAt = NoTime | NullTime | TimeAt(instant: Timestamp) | BadTime

  /** `body.data` of a callback. */
  datatype EventData = EventData(
    eventType: Option<string>,
    id: Option<string>,
    payload: Option<EventPayload>,
    occurredAt: OccurredAt,
    recordType: Option<string>)

  /** The raw callback body: text that is not a JSON object, or an object
      whose `data` member may be missing. */
  datatype WebhookBody = Unparseable | Json(data: Option<EventData>)

  datatype WebhookEvent = WebhookEvent(
    eventType: string,
    messageId: Option<string>,
    payload: Option<EventPayload>,
    occurredAt: OccurredAt,
    recordType: Option<string>)

  const ParseFailure := "Failed to parse webhook event"

  /** `parseWebhookEvent`: fails when the body is not JSON, has no `data` or
      no (or an empty) `event_type`; otherwise copies the five fields. */
  function ParseWebhookEvent(body: WebhookBody): (r: Result<WebhookEvent, string>)
    ensures r.Ok? <==> body.Json? && body.data.Some? && Truthy(body.data.value.eventType)
    ensures r.Err? ==> r.error == ParseFailure
    ensures r.Ok? ==> var d := body.data.value;
      && r.value.eventType == d.eventType.value
      && r.value.messageId == d.id
      && r.value.payload == d.payload
      && r.value.occurredAt == d.occurredAt
      && r.value.recordType == d.recordType
  {
    match body
    case Unparseable => Err(ParseFailure)
    case Json(None) => Err(ParseFailure)
    case Json(Some(d)) =>
      if !Truthy(d.eventType) then Err(ParseFailure)
      else Ok(WebhookEvent(d.eventType.value, d.id, d.payload, d.occurredAt, d.recordType))
  }
}

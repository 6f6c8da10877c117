/** The server-side store helpers of `src/lib/supabase-server.js` over an
    in-memory copy of the `conversations` and `messages` tables.

    A query that asks for a single row (`.single()`) fails with PGRST116
    unless exactly one row qualifies. Any other failure of a request
    (connection loss, a constraint the schema may impose, ...) is an input:
    the caller says which requests of a call report an error. Row ids come
    from a counter, standing for the ids the database assigns. */
module Store {
  import opened Common
  import opened Records
  import Seqs

  datatype StoreError = NoSingleRow /* PGRST116 */ | RequestFailed

  /** Which store requests of one call report an error. */
  datatype Faults = Faults(lookupFails: bool, conversationInsertFails: bool, messageInsertFails: bool, updateFails: bool)

  const NoFaults := Faults(false, false, false, false)

  // ---------------------------------------------------------------------------
  // Conversations

  predicate HasPhone(c: ConversationRow, phone: string) {
    c.phoneNumber == phone
  }

  /** `.eq('phone_number', phone)`. */
  function WithPhone(conversations: seq<ConversationRow>, phone: string): seq<ConversationRow> {
    Seqs.Filter(conversations, c => HasPhone(c, phone))
  }

  /** The registry invariant: at most one conversation per phone number. */
  predicate UniquePhones(conversations: seq<ConversationRow>) {
    forall i, j :: 0 <= i < j < |conversations| ==> conversations[i].phoneNumber != conversations[j].phoneNumber
  }

  predicate UniqueConversationIds(conversations: seq<ConversationRow>) {
    forall i, j :: 0 <= i < j < |conversations| ==> conversations[i].id != conversations[j].id
  }

  /** Appending a row with a fresh number and the next id keeps both
      registry invariants and the id bound. */
  lemma AppendKeepsRegistry(conversations: seq<ConversationRow>, row: ConversationRow, nextId: nat)
    requires UniquePhones(conversations) && UniqueConversationIds(conversations)
    requires forall c :: c in conversations ==> 0 < c.id < nextId && c.phoneNumber != row.phoneNumber
    requires 0 < row.id == nextId
    ensures UniquePhones(conversations + [row]) && UniqueConversationIds(conversations + [row])
    ensures forall c :: c in conversations + [row] ==> 0 < c.id < nextId + 1
  {
    var after := conversations + [row];
    forall i, j | 0 <= i < j < |after|
      ensures after[i].phoneNumber != after[j].phoneNumber && after[i].id != after[j].id
    {
      assert after[i] == conversations[i] && after[i] in conversations;
      if j < |conversations| {
        assert after[j] == conversations[j];
      }
    }
  }

  /** A lookup comes back empty exactly when no row has the number; unlike
      `LookupFindsTheRow` below this needs no uniqueness. */
  lemma LookupEmptyIffAbsent(conversations: seq<ConversationRow>, phone: string)
    ensures WithPhone(conversations, phone) == [] <==> forall c :: c in conversations ==> c.phoneNumber != phone
  {
    if forall c :: c in conversations ==> c.phoneNumber != phone {
      Seqs.FilterDropsAll(conversations, c => HasPhone(c, phone));
    }
    forall c | c in conversations && WithPhone(conversations, phone) == []
      ensures c.phoneNumber != phone
    {
      if c.phoneNumber == phone {
        assert false;
      }
    }
  }

  /** With unique phone numbers a lookup finds the row with that number, if any. */
  lemma {:induction false} LookupFindsTheRow(conversations: seq<ConversationRow>, phone: string)
    requires UniquePhones(conversations)
    ensures |WithPhone(conversations, phone)| <= 1
    ensures WithPhone(conversations, phone) == [] <==> forall c :: c in conversations ==> c.phoneNumber != phone
  {
    if conversations != [] {
      var rest := conversations[1..];
      assert UniquePhones(rest) by {
        forall i, j | 0 <= i < j < |rest| ensures rest[i].phoneNumber != rest[j].phoneNumber {
          assert rest[i] == conversations[i + 1] && rest[j] == conversations[j + 1];
        }
      }
      LookupFindsTheRow(rest, phone);
      assert conversations == [conversations[0]] + rest;
      if conversations[0].phoneNumber == phone {
        forall c | c in rest ensures c.phoneNumber != phone {
          var k :| 0 <= k < |rest| && rest[k] == c;
          assert c == conversations[k + 1];
        }
      }
    }
  }

  /** `getOrCreateConversation` throws: the lookup fails, or the number has
      no row and the insert fails. */
  predicate GetOrCreateFails(conversations: seq<ConversationRow>, phone: string, lookupFails: bool, insertFails: bool) {
    lookupFails || (insertFails && WithPhone(conversations, phone) == [])
  }

  /** The conversations table after `getOrCreateConversation`: one row more,
      appended with the next id, exactly when the lookup succeeds, the number
      has no row and the insert succeeds. */
  function AfterGetOrCreate(conversations: seq<ConversationRow>, nextId: nat, phone: string, name: Option<string>,
                            lookupFails: bool, insertFails: bool, now: Timestamp): seq<ConversationRow>
  {
    if lookupFails || WithPhone(conversations, phone) != [] || insertFails then conversations
    else conversations + [ConversationRow(nextId, phone, name, None, now)]
  }

  /** After a get-or-create that does not fail the number has a row, and at
      most one row was added, for that number. */
  lemma GetOrCreateProvidesTheRow(conversations: seq<ConversationRow>, nextId: nat, phone: string,
                                  name: Option<string>, lookupFails: bool, insertFails: bool, now: Timestamp)
    requires UniquePhones(conversations)
    ensures var after := AfterGetOrCreate(conversations, nextId, phone, name, lookupFails, insertFails, now);
      && conversations <= after && |after| <= |conversations| + 1
      && (forall c :: c in after && c !in conversations ==> c.phoneNumber == phone && c.name == name)
      && (!GetOrCreateFails(conversations, phone, lookupFails, insertFails) ==> exists c :: c in after && c.phoneNumber == phone)
  {
    LookupFindsTheRow(conversations, phone);
  }

  /** Appending rows never hides a row a lookup found. */
  lemma {:induction false} LookupSurvivesAppend(before: seq<ConversationRow>, after: seq<ConversationRow>, phone: string)
    requires before <= after
    ensures WithPhone(before, phone) <= WithPhone(after, phone)
  {
    var added := after[|before|..];
    assert after == before + added;
    Seqs.FilterAppend(before, added, c => HasPhone(c, phone));
  }

  /** `.eq('id', conversationId)`. */
  function WithId(conversations: seq<ConversationRow>, id: nat): seq<ConversationRow> {
    Seqs.Filter(conversations, (c: ConversationRow) => c.id == id)
  }

  // ---------------------------------------------------------------------------
  // Messages

  /** The row `.insert(data)` stores: the given columns plus the defaults the
      table supplies (id, `created_at`; no `updated_at`, no `delivered_at`). */
  function Stored(data: NewMessage, id: nat, now: Timestamp): (m: MessageRow)
    ensures Fields(m) == data && m.id == id && m.createdAt == now
    ensures m.updatedAt == None && m.deliveredAt == None
  {
    MessageRow(id, data.conversationId, data.telnyxMessageId, data.direction, data.fromNumber,
               data.toNumber, data.body, data.status, now, None, None)
  }

  /** The `updateData` of `updateMessageStatus` applied to one row: status and
      `updated_at` always, `delivered_at` only when one is given. */
  function WithStatus(m: MessageRow, status: Status, deliveredAt: Option<Timestamp>, now: Timestamp): (r: MessageRow)
    ensures r.status == status && r.updatedAt == Some(now)
    ensures r.deliveredAt == if deliveredAt.Some? then deliveredAt else m.deliveredAt
    ensures r.id == m.id && r.createdAt == m.createdAt
    ensures Fields(r) == Fields(m).(status := status)
  {
    m.(status := status, updatedAt := Some(now),
       deliveredAt := if deliveredAt.Some? then deliveredAt else m.deliveredAt)
  }

  /** `.eq('telnyx_message_id', key)`: a missing key matches no row. */
  predicate HasProviderId(m: MessageRow, key: Option<string>) {
    key.Some? && m.telnyxMessageId == key
  }

  /** How many rows carry the provider id. */
  function CountWithProviderId(messages: seq<MessageRow>, key: Option<string>): nat {
    if messages == [] then 0
    else (if HasProviderId(messages[0], key) then 1 else 0) + CountWithProviderId(messages[1..], key)
  }

  /** Position of the first row that carries the provider id (|messages| if none). */
  function FirstWithProviderId(messages: seq<MessageRow>, key: Option<string>): (i: nat)
    ensures i <= |messages|
    ensures forall j :: 0 <= j < i ==> !HasProviderId(messages[j], key)
    ensures i < |messages| ==> HasProviderId(messages[i], key)
    ensures i == |messages| <==> CountWithProviderId(messages, key) == 0
  {
    if messages == [] then 0
    else if HasProviderId(messages[0], key) then 0
    else 1 + FirstWithProviderId(messages[1..], key)
  }

  /** When exactly one row carries the provider id, it is the first such row
      and no other row carries it. */
  lemma {:induction false} SingleMatch(messages: seq<MessageRow>, key: Option<string>)
    requires CountWithProviderId(messages, key) == 1
    ensures FirstWithProviderId(messages, key) < |messages|
    ensures forall j :: 0 <= j < |messages| && j != FirstWithProviderId(messages, key)
              ==> !HasProviderId(messages[j], key)
  {
    var rest := messages[1..];
    if HasProviderId(messages[0], key) {
      NoneMatch(rest, key);
      forall j | 0 < j < |messages| ensures !HasProviderId(messages[j], key) {
        assert messages[j] == rest[j - 1];
      }
    } else {
      SingleMatch(rest, key);
      forall j | 0 < j < |messages| && j != FirstWithProviderId(messages, key)
        ensures !HasProviderId(messages[j], key)
      {
        assert messages[j] == rest[j - 1];
      }
    }
  }

  lemma {:induction false} NoneMatch(messages: seq<MessageRow>, key: Option<string>)
    requires CountWithProviderId(messages, key) == 0
    ensures forall j :: 0 <= j < |messages| ==> !HasProviderId(messages[j], key)
  {
    if messages != [] {
      NoneMatch(messages[1..], key);
      forall j | 0 < j < |messages| ensures !HasProviderId(messages[j], key) {
        assert messages[j] == messages[1..][j - 1];
      }
    }
  }

  /** The table after `updateMessageStatus`: the one row with the provider id
      gets the new status; when no row or several rows qualify the request
      fails (PGRST116) and the table is as before. */
  function StatusUpdate(messages: seq<MessageRow>, key: Option<string>, status: Status,
                        deliveredAt: Option<Timestamp>, now: Timestamp): seq<MessageRow>
  {
    if CountWithProviderId(messages, key) == 1 then
      var i := FirstWithProviderId(messages, key);
      messages[i := WithStatus(messages[i], status, deliveredAt, now)]
    else messages
  }

  /** A status update keeps the table's length and order, changes only the
      row whose provider id matches, and leaves every other row as it was. */
  lemma UpdateTouchesOnlyItsRow(messages: seq<MessageRow>, key: Option<string>, status: Status,
                                deliveredAt: Option<Timestamp>, now: Timestamp)
    ensures var after := StatusUpdate(messages, key, status, deliveredAt, now);
      && |after| == |messages|
      && (forall j :: 0 <= j < |messages| && !HasProviderId(messages[j], key) ==> after[j] == messages[j])
      && (CountWithProviderId(messages, key) == 1 ==>
            forall j :: 0 <= j < |messages| && HasProviderId(messages[j], key) ==>
              after[j] == WithStatus(messages[j], status, deliveredAt, now))
  {
    if CountWithProviderId(messages, key) == 1 {
      SingleMatch(messages, key);
    }
  }

  /** The update is unconditional: a late `sent` overwrites `delivered`, and
      the earlier `delivered_at` stays on the row. */
  lemma {:induction false} LateSentOverwritesDelivered(messages: seq<MessageRow>, key: Option<string>,
                                                       deliveredAt: Timestamp, t1: Timestamp, t2: Timestamp)
    requires CountWithProviderId(messages, key) == 1
    ensures var i := FirstWithProviderId(messages, key);
      var after := StatusUpdate(StatusUpdate(messages, key, Delivered, Some(deliveredAt), t1), key, Sent, None, t2);
      after[i].status == Sent && after[i].deliveredAt == Some(deliveredAt)
  {
    var i := FirstWithProviderId(messages, key);
    SingleMatch(messages, key);
    var mid := StatusUpdate(messages, key, Delivered, Some(deliveredAt), t1);
    assert CountWithProviderId(mid, key) == 1 && FirstWithProviderId(mid, key) == i by {
      SameKeysSameCount(messages, mid, key);
    }
  }

  /** Two tables whose rows agree on their provider ids agree on the lookup. */
  lemma {:induction false} SameKeysSameCount(a: seq<MessageRow>, b: seq<MessageRow>, key: Option<string>)
    requires |a| == |b|
    requires forall j :: 0 <= j < |a| ==> a[j].telnyxMessageId == b[j].telnyxMessageId
    ensures CountWithProviderId(a, key) == CountWithProviderId(b, key)
    ensures FirstWithProviderId(a, key) == FirstWithProviderId(b, key)
  {
    if a != [] {
      SameKeysSameCount(a[1..], b[1..], key);
    }
  }

  // ---------------------------------------------------------------------------
  // Queries

  const DefaultMessageLimit := 50

  predicate AscendingByCreatedAt(s: seq<MessageRow>) {
    forall i, j :: 0 <= i < j < |s| ==> s[i].createdAt <= s[j].createdAt
  }

  function InsertByCreatedAt(m: MessageRow, s: seq<MessageRow>): (r: seq<MessageRow>)
    requires AscendingByCreatedAt(s)
    ensures AscendingByCreatedAt(r)
    ensures |r| == |s| + 1 && (r[0] == m || (s != [] && r[0] == s[0]))
    ensures multiset(r) == multiset(s) + multiset{m}
  {
    if s == [] then [m]
    else if m.createdAt <= s[0].createdAt then [m] + s
    else
      assert s == [s[0]] + s[1..];
      [s[0]] + InsertByCreatedAt(m, s[1..])
  }

  /** `.order('created_at', { ascending: true })`. */
  function SortByCreatedAt(s: seq<MessageRow>): (r: seq<MessageRow>)
    ensures AscendingByCreatedAt(r)
    ensures multiset(r) == multiset(s)
  {
    if s == [] then []
    else
      assert s == [s[0]] + s[1..];
      InsertByCreatedAt(s[0], SortByCreatedAt(s[1..]))
  }

  predicate InConversation(m: MessageRow, conversationId: nat) {
    m.conversationId == conversationId
  }

  /** `.eq('conversation_id', conversationId)`. */
  function ConversationRows(messages: seq<MessageRow>, conversationId: nat): seq<MessageRow> {
    Seqs.Filter(messages, m => InConversation(m, conversationId))
  }

  function Min(a: nat, b: nat): nat {
    if a <= b then a else b
  }

  /** `getConversationMessages(conversationId, limit = 50)`: the earliest
      `limit` rows of the conversation, oldest first; a failed request is
      rethrown. */
  function GetConversationMessages(messages: seq<MessageRow>, conversationId: nat, limit: Option<nat>, fails: bool)
    : (r: Result<seq<MessageRow>, StoreError>)
    ensures fails <==> r.Err?
    ensures r.Ok? ==>
      var rows := ConversationRows(messages, conversationId);
      && |r.value| == Min(if limit.Some? then limit.value else DefaultMessageLimit, |rows|)
      && AscendingByCreatedAt(r.value)
      && multiset(r.value) <= multiset(rows)
      && (forall m :: m in r.value ==> m in messages && m.conversationId == conversationId)
      && (forall x, y :: x in r.value && y in multiset(rows) - multiset(r.value) ==> x.createdAt <= y.createdAt)
  {
    if fails then Err(RequestFailed)
    else
      var rows := ConversationRows(messages, conversationId);
      var sorted := SortByCreatedAt(rows);
      var k := Min(if limit.Some? then limit.value else DefaultMessageLimit, |sorted|);
      EarliestPrefix(sorted, k);
      RowsOfConversation(rows, sorted[..k], messages, conversationId);
      Ok(sorted[..k])
  }

  lemma RowsOfConversation(rows: seq<MessageRow>, picked: seq<MessageRow>, messages: seq<MessageRow>, conversationId: nat)
    requires rows == ConversationRows(messages, conversationId)
    requires multiset(picked) <= multiset(rows)
    ensures forall m :: m in picked ==> m in messages && m.conversationId == conversationId
  {
    forall m | m in picked ensures m in messages && m.conversationId == conversationId {
      assert m in multiset(picked);
      assert m in multiset(rows);
      assert m in rows;
      var i :| 0 <= i < |rows| && rows[i] == m;
    }
  }

  /** In an ascending sequence every element of a prefix is no later than
      every element after it. */
  lemma EarliestPrefix(s: seq<MessageRow>, k: nat)
    requires AscendingByCreatedAt(s) && k <= |s|
    ensures multiset(s[..k]) <= multiset(s)
    ensures multiset(s) - multiset(s[..k]) == multiset(s[k..])
    ensures forall x, y :: x in s[..k] && y in multiset(s) - multiset(s[..k]) ==> x.createdAt <= y.createdAt
  {
    assert s == s[..k] + s[k..];
    assert multiset(s) == multiset(s[..k]) + multiset(s[k..]);
    forall x, y | x in s[..k] && y in multiset(s[k..]) ensures x.createdAt <= y.createdAt {
      var i :| 0 <= i < k && s[..k][i] == x;
      var j :| 0 <= j < |s| - k && s[k..][j] == y;
      assert s[i] == x && s[k + j] == y;
    }
  }

  /** `getAllConversations`: each joined row becomes a view whose
      `lastMessage` is its first joined message (or null); a failed request
      is rethrown. The rows arrive in the order the query asks for. */
  function GetAllConversations(reply: Result<seq<JoinedConversation>, StoreError>)
    : (r: Result<seq<ConversationView>, StoreError>)
    ensures reply.Err? ==> r == Err(reply.error)
    ensures reply.Ok? ==> r.Ok? && |r.value| == |reply.value|
    ensures reply.Ok? ==> forall i :: 0 <= i < |reply.value| ==>
              r.value[i].row == reply.value[i].row
              && (r.value[i].lastMessage.Some? <==> reply.value[i].messages != [])
              && (reply.value[i].messages != [] ==> r.value[i].lastMessage == Some(reply.value[i].messages[0]))
  {
    match reply
    case Err(e) => Err(e)
    case Ok(rows) => Ok(Seqs.Map(rows, WithLastMessage))
  }

  // ---------------------------------------------------------------------------
  // The tables

  /** The two tables and the id counter. */
  class Tables {
    var conversations: seq<ConversationRow>
    var messages: seq<MessageRow>
    var nextId: nat

    ghost predicate Valid()
      reads this
    {
      && UniquePhones(conversations)
      && UniqueConversationIds(conversations)
      && 0 < nextId
      && (forall c :: c in conversations ==> 0 < c.id < nextId)
      && (forall m :: m in messages ==> 0 < m.id < nextId)
    }

    /** Ids start at 1: a stored row never has the falsy id 0. */
    constructor ()
      ensures Valid() && conversations == [] && messages == [] && nextId == 1
    {
      conversations, messages, nextId := [], [], 1;
    }

    /** `conversationHelpers.getOrCreateConversation(phone, name = null)`:
        the existing row, or on PGRST116 a newly inserted `{phone_number,
        name}`; any other lookup error and any insert error are rethrown. */
    method GetOrCreateConversation(phone: string, name: Option<string>, lookupFails: bool, insertFails: bool,
                                   now: Timestamp)
      returns (r: Result<ConversationRow, StoreError>)
      requires Valid()
      modifies this
      ensures Valid() && messages == old(messages) && old(conversations) <= conversations
      ensures r.Err? ==> unchanged(this)
      ensures r.Ok? ==> r.value.phoneNumber == phone && r.value in conversations
      ensures lookupFails ==> r == Err(RequestFailed) && conversations == old(conversations)
      ensures !lookupFails && (exists c :: c in old(conversations) && c.phoneNumber == phone) ==>
                r.Ok? && r.value in old(conversations) && conversations == old(conversations)
      ensures !lookupFails && (forall c :: c in old(conversations) ==> c.phoneNumber != phone) ==>
                if insertFails then r == Err(RequestFailed) && conversations == old(conversations)
                else r == Ok(ConversationRow(old(nextId), phone, name, None, now))
                     && conversations == old(conversations) + [r.value]
      ensures r.Err? <==> GetOrCreateFails(old(conversations), phone, lookupFails, insertFails)
      ensures conversations == AfterGetOrCreate(old(conversations), old(nextId), phone, name, lookupFails, insertFails, now)
    {
      if lookupFails {
        return Err(RequestFailed);
      }
      var found := WithPhone(conversations, phone);
      LookupFindsTheRow(conversations, phone);
      if |found| == 1 {
        return Ok(found[0]);
      }
      // PGRST116: the row does not exist yet
      if insertFails {
        return Err(RequestFailed);
      }
      var row := ConversationRow(nextId, phone, name, None, now);
      AppendKeepsRegistry(conversations, row, nextId);
      conversations := conversations + [row];
      nextId := nextId + 1;
      r := Ok(row);
    }

    /** `messageHelpers.createMessage(data)`: inserts exactly the given
        columns and returns the stored row; a failed insert is rethrown. */
    method CreateMessage(data: NewMessage, fails: bool, now: Timestamp) returns (r: Result<MessageRow, StoreError>)
      requires Valid()
      modifies this
      ensures Valid() && conversations == old(conversations)
      ensures fails ==> r == Err(RequestFailed) && unchanged(this)
      ensures !fails ==> r == Ok(Stored(data, old(nextId), now)) && messages == old(messages) + [r.value]
    {
      if fails {
        return Err(RequestFailed);
      }
      var row := Stored(data, nextId, now);
      messages := messages + [row];
      nextId := nextId + 1;
      r := Ok(row);
    }

    /** `messageHelpers.updateMessageStatus(key, status, deliveredAt = null)`:
        overwrites the status of the row with that provider id whatever its
        current status; errors, including "no single row", are rethrown. */
    method UpdateMessageStatus(key: Option<string>, status: Status, deliveredAt: Option<Timestamp>, fails: bool,
                               now: Timestamp)
      returns (r: Result<MessageRow, StoreError>)
      requires Valid()
      modifies this
      ensures Valid() && conversations == old(conversations) && nextId == old(nextId)
      ensures messages == if fails then old(messages) else StatusUpdate(old(messages), key, status, deliveredAt, now)
      ensures r.Ok? <==> !fails && CountWithProviderId(old(messages), key) == 1
      ensures r.Ok? ==> r.value == WithStatus(old(messages)[FirstWithProviderId(old(messages), key)], status, deliveredAt, now)
    {
      if fails {
        return Err(RequestFailed);
      }
      if CountWithProviderId(messages, key) != 1 {
        return Err(NoSingleRow);
      }
      var i := FirstWithProviderId(messages, key);
      var row := WithStatus(messages[i], status, deliveredAt, now);
      messages := messages[i := row];
      r := Ok(row);
    }
  }
}

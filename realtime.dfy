/** The client-side state of `src/hooks/useRealtime.js`: the message list of
    one conversation and the conversation list, each updated by a reducer per
    load, optimistic action or change event. Every reducer here is the
    function handed to a state setter (`setMessages(prev => …)`), so each is
    modelled as a function of the previous list. */
module Realtime {
  import opened Common
  import opened Records
  import Seqs
  import Store

  // ---------------------------------------------------------------------------
  // Message list entries

  /** An entry's `id`: a stored row's id, or the `optimistic-<ms>` id of a
      provisional entry, built from the clock. */
  datatype Key = Row(id: nat) | Provisional(stamp: nat)

  /** `telnyx_message_id` as JavaScript compares it with `===`: a draft that
      never set the field holds `undefined`, a stored row holds `null` or a
      string, and `undefined !== null`. */
  datatype ProviderId = Undefined | Null | Pid(value: string)

  function ProviderIdOf(id: Option<string>): (p: ProviderId)
    ensures p != Undefined
    ensures p == Null <==> id.None?
    ensures id.Some? ==> p == Pid(id.value)
  {
    if id.Some? then Pid(id.value) else Null
  }

  datatype Entry = Entry(
    id: Key,
    conversationId: nat,
    telnyxMessageId: ProviderId,
    direction: Direction,
    fromNumber: Option<string>,
    toNumber: Option<string>,
    body: Option<string>,
    status: Status,
    createdAt: Timestamp,
    deliveredAt: Option<Timestamp>,
    isOptimistic: bool)

  /** `{ ...row, isOptimistic: false }`; a change event's row without the flag
      reads the same, since `undefined` is falsy. */
  function FromRow(row: MessageRow): (e: Entry)
    ensures e.id == Row(row.id) && !e.isOptimistic
    ensures e.telnyxMessageId == ProviderIdOf(row.telnyxMessageId)
    ensures e.status == row.status && e.body == row.body && e.direction == row.direction
  {
    Entry(Row(row.id), row.conversationId, ProviderIdOf(row.telnyxMessageId), row.direction, row.fromNumber,
          row.toNumber, row.body, row.status, row.createdAt, row.deliveredAt, false)
  }

  /** The object a screen passes to `addOptimisticMessage`. */
  datatype Draft = Draft(
    conversationId: nat,
    telnyxMessageId: ProviderId,
    direction: Direction,
    fromNumber: Option<string>,
    toNumber: Option<string>,
    body: Option<string>)

  /** `ids` holds no id twice. */
  predicate NoDuplicates(entries: seq<Entry>) {
    forall i, j :: 0 <= i < j < |entries| ==> entries[i].id != entries[j].id
  }

  predicate HasId(entries: seq<Entry>, id: Key) {
    exists i :: 0 <= i < |entries| && entries[i].id == id
  }

  // ---------------------------------------------------------------------------
  // useRealtimeMessages

  /** `loadMessages`: a missing or falsy conversation id does nothing; a
      query error is logged and the list kept; otherwise the rows (or `[]`
      for `null`) replace it. */
  function LoadMessages(prev: seq<Entry>, conversationId: Option<nat>,
                        reply: Result<Option<seq<MessageRow>>, Store.StoreError>): (next: seq<Entry>)
    ensures !TruthyId(conversationId) || reply.Err? ==> next == prev
    ensures TruthyId(conversationId) && reply.Ok? ==>
              var rows := if reply.value.Some? then reply.value.value else [];
              |next| == |rows| && forall i :: 0 <= i < |rows| ==> next[i] == FromRow(rows[i])
  {
    if !TruthyId(conversationId) || reply.Err? then prev
    else Seqs.Map(if reply.value.Some? then reply.value.value else [], FromRow)
  }

  /** The provisional entry `addOptimisticMessage` appends at time `now`. */
  function Optimistic(draft: Draft, now: Timestamp): (e: Entry)
    ensures e.id == Provisional(now) && e.isOptimistic && e.status == Sending && e.createdAt == now
    ensures e.telnyxMessageId == draft.telnyxMessageId && e.body == draft.body
  {
    Entry(Provisional(now), draft.conversationId, draft.telnyxMessageId, draft.direction, draft.fromNumber,
          draft.toNumber, draft.body, Sending, now, None, true)
  }

  /** `addOptimisticMessage`: the new list and the returned id. */
  function AddOptimistic(prev: seq<Entry>, draft: Draft, now: Timestamp): (r: (seq<Entry>, Key))
    ensures |r.0| == |prev| + 1 && r.0[..|prev|] == prev
    ensures r.0[|prev|] == Optimistic(draft, now) && r.1 == r.0[|prev|].id
  {
    (prev + [Optimistic(draft, now)], Provisional(now))
  }

  function ReplaceIfId(e: Entry, id: Key, confirmed: MessageRow): Entry {
    if e.id == id then FromRow(confirmed) else e
  }

  /** `replaceOptimisticMessage`: every entry with the id becomes the confirmed row. */
  function ReplaceOptimistic(prev: seq<Entry>, optimisticId: Key, confirmed: MessageRow): (next: seq<Entry>)
    ensures |next| == |prev|
    ensures forall i :: 0 <= i < |prev| ==>
              next[i] == if prev[i].id == optimisticId then FromRow(confirmed) else prev[i]
  {
    Seqs.Map(prev, (e: Entry) => ReplaceIfId(e, optimisticId, confirmed))
  }

  function IdIsNot(e: Entry, id: Key): bool {
    e.id != id
  }

  /** `removeOptimisticMessage`: every entry with the id is dropped. */
  function RemoveOptimistic(prev: seq<Entry>, optimisticId: Key): (next: seq<Entry>)
    ensures |next| <= |prev|
    ensures forall e :: e in next <==> e in prev && e.id != optimisticId
  {
    Seqs.Filter(prev, (e: Entry) => IdIsNot(e, optimisticId))
  }

  /** Removal goes entry by entry and keeps the order of what remains: an
      entry is dropped exactly when it carries the id, wherever it stands. */
  lemma {:induction false} RemoveOptimisticKeepsOrder(before: seq<Entry>, x: Entry, after: seq<Entry>, optimisticId: Key)
    ensures RemoveOptimistic(before + [x] + after, optimisticId)
            == RemoveOptimistic(before, optimisticId) + (if x.id == optimisticId then [] else [x])
               + RemoveOptimistic(after, optimisticId)
  {
    var keep := (e: Entry) => IdIsNot(e, optimisticId);
    Seqs.FilterAppend(before + [x], after, keep);
    Seqs.FilterAppend(before, [x], keep);
    if x.id == optimisticId {
      Seqs.FilterDropsAll([x], keep);
    } else {
      Seqs.FilterKeepsAll([x], keep);
    }
  }

  /** The test the INSERT handler applies first: an optimistic entry with the
      new row's provider id. */
  predicate MatchesOptimistic(e: Entry, row: MessageRow) {
    e.telnyxMessageId == ProviderIdOf(row.telnyxMessageId) && e.isOptimistic
  }

  function ReplaceIfMatch(e: Entry, row: MessageRow): Entry {
    if MatchesOptimistic(e, row) then FromRow(row) else e
  }

  /** The INSERT handler: optimistic entries with the row's provider id are
      replaced by the row; failing that the row is appended unless an entry
      already has its id. */
  function MessageInserted(prev: seq<Entry>, row: MessageRow): (next: seq<Entry>)
    ensures Seqs.Any(prev, (e: Entry) => MatchesOptimistic(e, row)) ==>
              |next| == |prev| && forall i :: 0 <= i < |prev| ==> next[i] == ReplaceIfMatch(prev[i], row)
    ensures !Seqs.Any(prev, (e: Entry) => MatchesOptimistic(e, row)) ==>
              next == if HasId(prev, Row(row.id)) then prev else prev + [FromRow(row)]
  {
    if Seqs.Any(prev, (e: Entry) => MatchesOptimistic(e, row)) then
      Seqs.Map(prev, (e: Entry) => ReplaceIfMatch(e, row))
    else if Seqs.Any(prev, (e: Entry) => e.id == Row(row.id)) then
      prev
    else
      prev + [FromRow(row)]
  }

  function UpdateIfId(e: Entry, row: MessageRow): Entry {
    if e.id == Row(row.id) then FromRow(row) else e
  }

  /** The UPDATE handler: the entry with the row's id takes the new row. */
  function MessageUpdated(prev: seq<Entry>, row: MessageRow): (next: seq<Entry>)
    ensures |next| == |prev|
    ensures forall i :: 0 <= i < |prev| ==> next[i] == UpdateIfId(prev[i], row)
  {
    Seqs.Map(prev, (e: Entry) => UpdateIfId(e, row))
  }

  // ---------------------------------------------------------------------------
  // Properties of the message reducers

  /** An INSERT event adds at most one entry, and the list never shrinks. */
  lemma InsertedGrowsByAtMostOne(prev: seq<Entry>, row: MessageRow)
    ensures |prev| <= |MessageInserted(prev, row)| <= |prev| + 1
  {
  }

  /** After an INSERT event the row is in the list, as a confirmed entry. */
  lemma InsertedRowIsPresent(prev: seq<Entry>, row: MessageRow)
    ensures HasId(MessageInserted(prev, row), Row(row.id))
  {
    var next := MessageInserted(prev, row);
    if Seqs.Any(prev, (e: Entry) => MatchesOptimistic(e, row)) {
      var i :| 0 <= i < |prev| && MatchesOptimistic(prev[i], row);
      assert next[i] == FromRow(row);
    } else if !HasId(prev, Row(row.id)) {
      assert next[|prev|] == FromRow(row);
    }
  }

  /** Receiving the same INSERT event twice has the effect of receiving it once. */
  lemma InsertedIsIdempotent(prev: seq<Entry>, row: MessageRow)
    ensures MessageInserted(MessageInserted(prev, row), row) == MessageInserted(prev, row)
  {
    var once := MessageInserted(prev, row);
    InsertedRowIsPresent(prev, row);
    forall i | 0 <= i < |once| ensures !MatchesOptimistic(once[i], row) {
      if Seqs.Any(prev, (e: Entry) => MatchesOptimistic(e, row)) {
        assert once[i] == ReplaceIfMatch(prev[i], row);
      } else if !HasId(prev, Row(row.id)) && i == |prev| {
        assert once[i] == FromRow(row);
      } else {
        assert once[i] == prev[i];
      }
    }
    assert !Seqs.Any(once, (e: Entry) => MatchesOptimistic(e, row));
  }

  /** Without an optimistic match, an INSERT event keeps the ids distinct. */
  lemma InsertedKeepsIdsDistinct(prev: seq<Entry>, row: MessageRow)
    requires NoDuplicates(prev)
    requires !Seqs.Any(prev, (e: Entry) => MatchesOptimistic(e, row))
    ensures NoDuplicates(MessageInserted(prev, row))
  {
  }

  /** An UPDATE event for a row the list does not hold changes nothing. */
  lemma UpdatedUnknownRowIsNoOp(prev: seq<Entry>, row: MessageRow)
    requires !HasId(prev, Row(row.id))
    ensures MessageUpdated(prev, row) == prev
  {
    var next := MessageUpdated(prev, row);
    forall i | 0 <= i < |prev| ensures next[i] == prev[i] {
      assert prev[i].id != Row(row.id);
    }
  }

  /** A failed send: adding then removing the provisional entry restores the list. */
  lemma AddThenRemoveRestores(prev: seq<Entry>, draft: Draft, now: Timestamp)
    requires !HasId(prev, Provisional(now))
    ensures RemoveOptimistic(AddOptimistic(prev, draft, now).0, Provisional(now)) == prev
  {
    var keep := (e: Entry) => IdIsNot(e, Provisional(now));
    Seqs.FilterAppend(prev, [Optimistic(draft, now)], keep);
    Seqs.FilterKeepsAll(prev, keep);
    Seqs.FilterDropsAll([Optimistic(draft, now)], keep);
  }

  /** A successful send answered before its INSERT event: the provisional
      entry becomes the stored row, in place. */
  lemma AddThenReplaceConfirms(prev: seq<Entry>, draft: Draft, now: Timestamp, confirmed: MessageRow)
    requires !HasId(prev, Provisional(now))
    ensures ReplaceOptimistic(AddOptimistic(prev, draft, now).0, Provisional(now), confirmed) == prev + [FromRow(confirmed)]
  {
    var next := ReplaceOptimistic(AddOptimistic(prev, draft, now).0, Provisional(now), confirmed);
    forall i | 0 <= i < |prev| ensures next[i] == prev[i] {
      assert prev[i].id != Provisional(now);
    }
  }

  // ---------------------------------------------------------------------------
  // The send race

  /** No entry of `prev` can interfere with a send of `row` at time `now`:
      no entry has the provisional id or the row's id, and no optimistic
      entry carries the row's provider id. */
  predicate Fresh(prev: seq<Entry>, row: MessageRow, now: Timestamp) {
    && !HasId(prev, Provisional(now))
    && !HasId(prev, Row(row.id))
    && !Seqs.Any(prev, (e: Entry) => MatchesOptimistic(e, row))
  }

  /** As written: the chat screen's draft carries no provider id, so when the
      INSERT event for the stored row arrives before the HTTP reply, the
      handler appends the row, and `replaceOptimisticMessage` then turns the
      provisional entry into the same row: two entries with one id. */
  lemma InsertBeforeReplyDuplicates(prev: seq<Entry>, draft: Draft, now: Timestamp, row: MessageRow)
    requires draft.telnyxMessageId == Undefined
    requires Fresh(prev, row, now)
    ensures var added := AddOptimistic(prev, draft, now);
            ReplaceOptimistic(MessageInserted(added.0, row), added.1, row) == prev + [FromRow(row), FromRow(row)]
    ensures var added := AddOptimistic(prev, draft, now);
            !NoDuplicates(ReplaceOptimistic(MessageInserted(added.0, row), added.1, row))
  {
    var added := AddOptimistic(prev, draft, now).0;
    assert !MatchesOptimistic(Optimistic(draft, now), row);
    assert !Seqs.Any(added, (e: Entry) => MatchesOptimistic(e, row)) by {
      forall i | 0 <= i < |added| ensures !MatchesOptimistic(added[i], row) {
        if i < |prev| {
          assert added[i] == prev[i];
        }
      }
    }
    assert !HasId(added, Row(row.id)) by {
      forall i | 0 <= i < |added| ensures added[i].id != Row(row.id) {
        if i < |prev| {
          assert added[i] == prev[i];
        }
      }
    }
    var inserted := MessageInserted(added, row);
    assert inserted == prev + [Optimistic(draft, now), FromRow(row)];
    var next := ReplaceOptimistic(inserted, Provisional(now), row);
    forall i | 0 <= i < |prev| ensures next[i] == prev[i] {
      assert prev[i].id != Provisional(now);
    }
    assert next == prev + [FromRow(row), FromRow(row)];
    assert next[|prev|].id == next[|prev| + 1].id;
  }

  /** Corrected: the HTTP reply reconciles against what the list already
      holds. If the INSERT event got there first the provisional entry is
      dropped; otherwise it is replaced in place. */
  function ReconcileOptimistic(prev: seq<Entry>, optimisticId: Key, confirmed: MessageRow): (next: seq<Entry>)
    ensures HasId(prev, Row(confirmed.id)) ==> next == RemoveOptimistic(prev, optimisticId)
    ensures !HasId(prev, Row(confirmed.id)) ==> next == ReplaceOptimistic(prev, optimisticId, confirmed)
  {
    if Seqs.Any(prev, (e: Entry) => e.id == Row(confirmed.id)) then RemoveOptimistic(prev, optimisticId)
    else ReplaceOptimistic(prev, optimisticId, confirmed)
  }

  /** A draft without a provider id, appended to a list fresh for `row`,
      neither matches nor carries the row. */
  lemma AddedStaysFresh(prev: seq<Entry>, draft: Draft, now: Timestamp, row: MessageRow)
    requires draft.telnyxMessageId == Undefined
    requires Fresh(prev, row, now)
    ensures var added := AddOptimistic(prev, draft, now).0;
            !Seqs.Any(added, (e: Entry) => MatchesOptimistic(e, row)) && !HasId(added, Row(row.id))
  {
    var added := AddOptimistic(prev, draft, now).0;
    forall i | 0 <= i < |added| ensures !MatchesOptimistic(added[i], row) && added[i].id != Row(row.id) {
      if i < |prev| {
        assert added[i] == prev[i];
      }
    }
  }

  /** Reply first, with the reconciling reply: the provisional entry becomes
      the row, and the later INSERT event finds it already there. */
  lemma ReplyThenEvent(prev: seq<Entry>, draft: Draft, now: Timestamp, row: MessageRow)
    requires draft.telnyxMessageId == Undefined
    requires Fresh(prev, row, now)
    ensures var added := AddOptimistic(prev, draft, now);
            MessageInserted(ReconcileOptimistic(added.0, added.1, row), row) == prev + [FromRow(row)]
  {
    var added := AddOptimistic(prev, draft, now).0;
    AddedStaysFresh(prev, draft, now, row);
    var replied := ReconcileOptimistic(added, Provisional(now), row);
    AddThenReplaceConfirms(prev, draft, now, row);
    assert replied == prev + [FromRow(row)];
    assert HasId(replied, Row(row.id)) by {
      assert replied[|prev|] == FromRow(row);
    }
    assert !Seqs.Any(replied, (e: Entry) => MatchesOptimistic(e, row)) by {
      forall i | 0 <= i < |replied| ensures !MatchesOptimistic(replied[i], row) {
        if i < |prev| {
          assert replied[i] == prev[i];
        }
      }
    }
  }

  /** INSERT event first, with the reconciling reply: the row is appended by
      the event and the reply drops the provisional entry. */
  lemma EventThenReply(prev: seq<Entry>, draft: Draft, now: Timestamp, row: MessageRow)
    requires draft.telnyxMessageId == Undefined
    requires Fresh(prev, row, now)
    ensures var added := AddOptimistic(prev, draft, now);
            ReconcileOptimistic(MessageInserted(added.0, row), added.1, row) == prev + [FromRow(row)]
  {
    var added := AddOptimistic(prev, draft, now).0;
    AddedStaysFresh(prev, draft, now, row);
    var inserted := MessageInserted(added, row);
    assert inserted == prev + [Optimistic(draft, now)] + [FromRow(row)];
    assert HasId(inserted, Row(row.id)) by {
      assert inserted[|prev| + 1] == FromRow(row);
    }
    RemoveDropsOnlyIt(prev, Optimistic(draft, now), [FromRow(row)]);
  }

  /** Removing an id held by one entry only drops that entry. */
  lemma RemoveDropsOnlyIt(prev: seq<Entry>, x: Entry, rest: seq<Entry>)
    requires !HasId(prev, x.id) && !HasId(rest, x.id)
    ensures RemoveOptimistic(prev + [x] + rest, x.id) == prev + rest
  {
    var keep := (e: Entry) => IdIsNot(e, x.id);
    assert forall i :: 0 <= i < |prev| ==> keep(prev[i]);
    assert forall i :: 0 <= i < |rest| ==> keep(rest[i]);
    Seqs.FilterKeepsAll(prev, keep);
    Seqs.FilterKeepsAll(rest, keep);
    Seqs.FilterDropsAll([x], keep);
    Seqs.FilterAppend(prev, [x], keep);
    assert Seqs.Filter(prev + [x], keep) == prev;
    Seqs.FilterAppend(prev + [x], rest, keep);
    assert Seqs.Filter(prev + [x] + rest, keep) == prev + rest;
  }

  /** With the reconciling reply, both arrival orders end in the same list,
      holding the stored row exactly once. */
  lemma ReconcileIsOrderIndependent(prev: seq<Entry>, draft: Draft, now: Timestamp,
                                                       row: MessageRow)
    requires draft.telnyxMessageId == Undefined
    requires Fresh(prev, row, now)
    ensures var added := AddOptimistic(prev, draft, now);
            MessageInserted(ReconcileOptimistic(added.0, added.1, row), row)
            == ReconcileOptimistic(MessageInserted(added.0, row), added.1, row)
            == prev + [FromRow(row)]
  {
    ReplyThenEvent(prev, draft, now, row);
    EventThenReply(prev, draft, now, row);
  }

  /** The reconciled send leaves a list without repeated ids. */
  lemma ReconcileKeepsIdsDistinct(prev: seq<Entry>, draft: Draft, now: Timestamp, row: MessageRow)
    requires draft.telnyxMessageId == Undefined
    requires Fresh(prev, row, now) && NoDuplicates(prev)
    ensures var added := AddOptimistic(prev, draft, now);
            NoDuplicates(ReconcileOptimistic(MessageInserted(added.0, row), added.1, row))
  {
    ReconcileIsOrderIndependent(prev, draft, now, row);
    var next := prev + [FromRow(row)];
    forall i, j | 0 <= i < j < |next| ensures next[i].id != next[j].id {
      if j == |prev| {
        assert next[i] == prev[i];
      }
    }
  }

  // ---------------------------------------------------------------------------
  // useRealtimeConversations

  /** `loadConversations`: a query error keeps the list; otherwise each row
      with its first joined message, or `[]` for `null` data. */
  function LoadConversations(prev: seq<ConversationView>,
                             reply: Result<Option<seq<JoinedConversation>>, Store.StoreError>)
    : (next: seq<ConversationView>)
    ensures reply.Err? ==> next == prev
    ensures reply.Ok? && reply.value.None? ==> next == []
    ensures reply.Ok? && reply.value.Some? ==>
              |next| == |reply.value.value|
              && forall i :: 0 <= i < |next| ==> next[i] == WithLastMessage(reply.value.value[i])
  {
    match reply
    case Err(_) => prev
    case Ok(data) => if data.Some? then Seqs.Map(data.value, WithLastMessage) else []
  }

  /** INSERT on conversations: the new row goes first, with no last message. */
  function ConversationInserted(prev: seq<ConversationView>, row: ConversationRow): (next: seq<ConversationView>)
    ensures |next| == |prev| + 1 && next[1..] == prev
    ensures next[0].row == row && next[0].lastMessage.None?
  {
    [ConversationView(row, None)] + prev
  }

  function MergeIfId(c: ConversationView, row: ConversationRow): ConversationView {
    if c.row.id == row.id then ConversationView(row, c.lastMessage) else c
  }

  /** UPDATE on conversations: `{...conv, ...new}` takes every column from the
      event and keeps the entry's last message. */
  function ConversationUpdated(prev: seq<ConversationView>, row: ConversationRow): (next: seq<ConversationView>)
    ensures |next| == |prev|
    ensures forall i :: 0 <= i < |prev| ==> next[i].lastMessage == prev[i].lastMessage
    ensures forall i :: 0 <= i < |prev| ==> next[i].row == if prev[i].row.id == row.id then row else prev[i].row
  {
    Seqs.Map(prev, (c: ConversationView) => MergeIfId(c, row))
  }

  function ConversationIdIsNot(c: ConversationView, id: nat): bool {
    c.row.id != id
  }

  /** DELETE on conversations: entries with the old row's id are dropped. */
  function ConversationDeleted(prev: seq<ConversationView>, id: nat): (next: seq<ConversationView>)
    ensures |next| <= |prev|
    ensures forall c :: c in next <==> c in prev && c.row.id != id
  {
    Seqs.Filter(prev, (c: ConversationView) => ConversationIdIsNot(c, id))
  }

  /** DELETE goes entry by entry and keeps the order of what remains. */
  lemma {:induction false} ConversationDeletedKeepsOrder(before: seq<ConversationView>, x: ConversationView,
                                                         after: seq<ConversationView>, id: nat)
    ensures ConversationDeleted(before + [x] + after, id)
            == ConversationDeleted(before, id) + (if x.row.id == id then [] else [x]) + ConversationDeleted(after, id)
  {
    var keep := (c: ConversationView) => ConversationIdIsNot(c, id);
    Seqs.FilterAppend(before + [x], after, keep);
    Seqs.FilterAppend(before, [x], keep);
    if x.row.id == id {
      Seqs.FilterDropsAll([x], keep);
    } else {
      Seqs.FilterKeepsAll([x], keep);
    }
  }

  function TouchIfOwner(c: ConversationView, m: MessageRow): ConversationView {
    if c.row.id == m.conversationId then
      ConversationView(c.row.(lastMessageAt := Some(m.createdAt)), Some(LastMessage(m.body, m.createdAt, m.direction)))
    else c
  }

  /** INSERT on messages, in the list view: the owning conversation shows the
      message as its last one and moves its `last_message_at`; the order of
      the list does not change. */
  function LastMessageInserted(prev: seq<ConversationView>, m: MessageRow): (next: seq<ConversationView>)
    ensures |next| == |prev|
    ensures forall i :: 0 <= i < |prev| && prev[i].row.id == m.conversationId ==>
              next[i].lastMessage == Some(LastMessage(m.body, m.createdAt, m.direction))
              && next[i].row == prev[i].row.(lastMessageAt := Some(m.createdAt))
    ensures forall i :: 0 <= i < |prev| && prev[i].row.id != m.conversationId ==> next[i] == prev[i]
  {
    Seqs.Map(prev, (c: ConversationView) => TouchIfOwner(c, m))
  }

  /** A conversation inserted and then deleted leaves the list as it was,
      provided no other entry shared its id. */
  lemma InsertThenDeleteRestores(prev: seq<ConversationView>, row: ConversationRow)
    requires forall i :: 0 <= i < |prev| ==> prev[i].row.id != row.id
    ensures ConversationDeleted(ConversationInserted(prev, row), row.id) == prev
  {
    var keep := (c: ConversationView) => ConversationIdIsNot(c, row.id);
    Seqs.FilterAppend([ConversationView(row, None)], prev, keep);
    Seqs.FilterDropsAll([ConversationView(row, None)], keep);
    Seqs.FilterKeepsAll(prev, keep);
  }
}

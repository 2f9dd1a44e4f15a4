/** User-to-user messaging. Every delivery of a message is one directed
    conversation record (sender, recipient, message, time, read flag); a
    "conversation" between two users is the set of records between them in
    either direction, and a conversation id names one such record. */
module Messaging {
  import opened Types
  import opened Db
  import opened Schemas
  import opened Paging

  /** Values of the message `estado` column. */
  const ReadState: string := "leido"
  const UnreadState: string := "no_leido"

  /** Subject and body of the message that opens a new conversation. */
  const OpeningSubject: string := "Nueva Conversación"
  const OpeningBody: string := "Iniciada conversación."

  /** Subject of a message sent into a conversation, before the conversation id. */
  const SendSubjectPrefix: string := "Mensaje en Conversación "

  /** The number a string of decimal digits spells, most significant digit first. */
  function DigitsValue(s: string): int
    decreases |s|
  {
    if s == [] then 0 else DigitsValue(s[..|s| - 1]) * 10 + (s[|s| - 1] as int - '0' as int)
  }

  /** Decimal digits of `n`, as Python's f-string prints an int: the digits
      spell `n`, and there is no leading zero. */
  function NatToString(n: nat): (r: string)
    ensures |r| >= 1 && forall i :: 0 <= i < |r| ==> '0' <= r[i] <= '9'
    ensures DigitsValue(r) == n
    ensures |r| > 1 ==> r[0] != '0'
    decreases n
  {
    var digit := ['0' + (n % 10) as char];
    if n < 10 then digit
    else
      var r := NatToString(n / 10) + digit;
      assert r[..|r| - 1] == NatToString(n / 10);
      r
  }

  // ---------------------------------------------------------------------
  // Unread notifications

  /** The users with at least one unread record addressed to `user`:
      `count(distinct id_usuario_remitente)` of those records is the badge. */
  function UnreadSenders(convs: seq<ConvRecord>, user: nat): (r: set<nat>)
    ensures forall s :: s in r <==>
              exists k :: 0 <= k < |convs| && convs[k].recipient == user && !convs[k].read && convs[k].sender == s
    decreases |convs|
  {
    if convs == [] then {}
    else
      var n := |convs| - 1;
      var rest := UnreadSenders(convs[..n], user);
      assert forall k :: 0 <= k < n ==> convs[..n][k] == convs[k];
      if convs[n].recipient == user && !convs[n].read then rest + {convs[n].sender} else rest
  }

  /** get_unread_notification_count: 0 exactly when nothing addressed to the user is unread. */
  function UnreadNotificationCount(convs: seq<ConvRecord>, user: nat): (r: nat)
    ensures r == 0 <==> forall k :: 0 <= k < |convs| ==> !(convs[k].recipient == user && !convs[k].read)
  {
    var senders := UnreadSenders(convs, user);
    assert (exists k :: 0 <= k < |convs| && convs[k].recipient == user && !convs[k].read) ==> senders != {} by {
      if k :| 0 <= k < |convs| && convs[k].recipient == user && !convs[k].read {
        assert convs[k].sender in senders;
      }
    }
    |senders|
  }

  /** The badge counts senders, not records: it never exceeds the number of
      unread records addressed to the user. */
  lemma {:induction false} UnreadCountBounded(convs: seq<ConvRecord>, user: nat)
    ensures UnreadNotificationCount(convs, user) <= UnreadFor(convs, user)
    decreases |convs|
  {
    if convs != [] {
      var n := |convs| - 1;
      UnreadCountBounded(convs[..n], user);
      var rest := UnreadSenders(convs[..n], user);
      if convs[n].recipient == user && !convs[n].read {
        assert |rest + {convs[n].sender}| <= |rest| + 1;
      }
    }
  }

  /** Number of unread records addressed to `user`. */
  function UnreadFor(convs: seq<ConvRecord>, user: nat): nat
    decreases |convs|
  {
    if convs == [] then 0
    else
      var n := |convs| - 1;
      UnreadFor(convs[..n], user) + (if convs[n].recipient == user && !convs[n].read then 1 else 0)
  }

  // ---------------------------------------------------------------------
  // Conversations of a user

  predicate Involves(c: ConvRecord, user: nat) {
    c.sender == user || c.recipient == user
  }

  /** `case(remitente == user, destinatario, else remitente)`: the other side of a record. */
  function Partner(c: ConvRecord, user: nat): nat {
    if c.sender == user then c.recipient else c.sender
  }

  /** Record k involves the user and no later record involves the user with
      the same partner: it has row number 1 in its partner's partition. */
  predicate IsLatest(convs: seq<ConvRecord>, k: nat, user: nat)
    requires k < |convs|
  {
    && Involves(convs[k], user)
    && forall j :: k < j < |convs| && Involves(convs[j], user) ==>
         Partner(convs[j], user) != Partner(convs[k], user)
  }

  /** Positions below `k` of the latest record per partner, from the last position down. */
  function LatestIndices(convs: seq<ConvRecord>, user: nat, k: nat): (r: seq<nat>)
    requires k <= |convs|
    ensures forall i :: 0 <= i < |r| ==> r[i] < k && IsLatest(convs, r[i], user)
    ensures forall j :: 0 <= j < k && IsLatest(convs, j, user) ==> j in r
    ensures forall i, j :: 0 <= i < j < |r| ==> r[i] > r[j]
    decreases k
  {
    if k == 0 then []
    else if IsLatest(convs, k - 1, user) then [k - 1] + LatestIndices(convs, user, k - 1)
    else LatestIndices(convs, user, k - 1)
  }

  /** The latest record with each partner of `user`, newest first. */
  function LatestPerPartner(convs: seq<ConvRecord>, user: nat): (r: seq<ConvRecord>)
    ensures forall i :: 0 <= i < |r| ==> r[i] in convs && Involves(r[i], user)
  {
    var idx := LatestIndices(convs, user, |convs|);
    seq(|idx|, i requires 0 <= i < |idx| => convs[idx[i]])
  }

  /** No partner is listed twice. */
  lemma PartnersDistinct(convs: seq<ConvRecord>, user: nat)
    ensures var r := LatestPerPartner(convs, user);
            forall i, j :: 0 <= i < j < |r| ==> Partner(r[i], user) != Partner(r[j], user)
  {
    var idx := LatestIndices(convs, user, |convs|);
    var r := LatestPerPartner(convs, user);
    forall i, j | 0 <= i < j < |r| ensures Partner(r[i], user) != Partner(r[j], user) {
      assert idx[j] < idx[i] && IsLatest(convs, idx[j], user);
    }
  }

  /** The list is newest first. */
  lemma LatestNewestFirst(convs: seq<ConvRecord>, user: nat)
    requires RecordsChronological(convs)
    ensures var r := LatestPerPartner(convs, user);
            forall i, j :: 0 <= i < j < |r| ==> r[i].sentAt > r[j].sentAt
  {
    var idx := LatestIndices(convs, user, |convs|);
    var r := LatestPerPartner(convs, user);
    forall i, j | 0 <= i < j < |r| ensures r[i].sentAt > r[j].sentAt {
      assert idx[j] < idx[i];
    }
  }

  /** The last position below `k` holding a record with `user` and `partner`, if any. */
  function LastWith(convs: seq<ConvRecord>, user: nat, partner: nat, k: nat): (r: Option<nat>)
    requires k <= |convs|
    ensures r.Some? ==> r.value < k && Involves(convs[r.value], user) && Partner(convs[r.value], user) == partner
    ensures r.Some? ==> forall j :: r.value < j < k && Involves(convs[j], user) ==> Partner(convs[j], user) != partner
    ensures r.None? ==> forall j :: 0 <= j < k && Involves(convs[j], user) ==> Partner(convs[j], user) != partner
    decreases k
  {
    if k == 0 then None
    else if Involves(convs[k - 1], user) && Partner(convs[k - 1], user) == partner then Some(k - 1)
    else LastWith(convs, user, partner, k - 1)
  }

  /** Every partner the user has exchanged a record with is listed, with a
      record at least as recent as any other record with that partner. */
  lemma LatestCoversPartners(convs: seq<ConvRecord>, user: nat, k: nat)
    requires RecordsChronological(convs) && k < |convs| && Involves(convs[k], user)
    ensures exists i :: 0 <= i < |LatestPerPartner(convs, user)| &&
              Partner(LatestPerPartner(convs, user)[i], user) == Partner(convs[k], user) &&
              LatestPerPartner(convs, user)[i].sentAt >= convs[k].sentAt
  {
    var idx := LatestIndices(convs, user, |convs|);
    var last := LastWith(convs, user, Partner(convs[k], user), |convs|);
    var j := last.value;
    assert IsLatest(convs, j, user);
    assert j in idx;
    var i :| 0 <= i < |idx| && idx[i] == j;
    assert LatestPerPartner(convs, user)[i] == convs[j];
  }

  /** The unread count of one listed conversation: unread records addressed
      to the user whose sender is either participant of the listed record. */
  function UnreadInThread(convs: seq<ConvRecord>, c: ConvRecord, user: nat): nat
    decreases |convs|
  {
    if convs == [] then 0
    else
      var n := |convs| - 1;
      var x := convs[n];
      UnreadInThread(convs[..n], c, user) +
        (if !x.read && x.recipient == user && (x.sender == c.sender || x.sender == c.recipient) then 1 else 0)
  }

  /** Unread records from `partner` to `user`. */
  function UnreadFrom(convs: seq<ConvRecord>, partner: nat, user: nat): nat
    decreases |convs|
  {
    if convs == [] then 0
    else
      var n := |convs| - 1;
      var x := convs[n];
      UnreadFrom(convs[..n], partner, user) + (if !x.read && x.recipient == user && x.sender == partner then 1 else 0)
  }

  /** Since no record goes from a user to the same user, the per-conversation
      count is exactly the number of unread records the partner sent the user. */
  lemma {:induction false} UnreadInThreadIsFromPartner(convs: seq<ConvRecord>, c: ConvRecord, user: nat)
    requires Involves(c, user)
    requires forall k :: 0 <= k < |convs| ==> convs[k].sender != convs[k].recipient
    ensures UnreadInThread(convs, c, user) == UnreadFrom(convs, Partner(c, user), user)
    decreases |convs|
  {
    if convs != [] {
      var n := |convs| - 1;
      assert forall k :: 0 <= k < n ==> convs[..n][k] == convs[k];
      UnreadInThreadIsFromPartner(convs[..n], c, user);
    }
  }

  /** A listed conversation (ConversacionResponse), participants by id. */
  datatype ConvSummary = ConvSummary(
    conversationId: nat,
    sentAt: nat,
    sender: nat,
    recipient: nat,
    lastMessage: Option<MessageView>,
    unread: nat)

  /** A record together with its message, as MensajeResponse shows it. */
  function View(c: ConvRecord, m: Message): MessageView {
    MessageView(m.id, c.id, c.sender, c.sentAt, c.read, m.body)
  }

  /** The view of a record, when its message row exists. */
  function ViewOf(messages: map<nat, Message>, c: ConvRecord): Option<MessageView> {
    if c.messageId in messages then Some(View(c, messages[c.messageId])) else None
  }

  function Summary(messages: map<nat, Message>, convs: seq<ConvRecord>, c: ConvRecord, user: nat): ConvSummary {
    ConvSummary(c.id, c.sentAt, c.sender, c.recipient, ViewOf(messages, c), UnreadInThread(convs, c, user))
  }

  /** get_user_conversations: one summary per listed record, in list order. */
  method GetUserConversations(messages: map<nat, Message>, convs: seq<ConvRecord>, user: nat)
    returns (r: seq<ConvSummary>)
    ensures |r| == |LatestPerPartner(convs, user)|
    ensures forall i :: 0 <= i < |r| ==> r[i] == Summary(messages, convs, LatestPerPartner(convs, user)[i], user)
  {
    var latest := LatestPerPartner(convs, user);
    r := [];
    var i := 0;
    while i < |latest|
      invariant 0 <= i <= |latest| && |r| == i
      invariant forall j :: 0 <= j < i ==> r[j] == Summary(messages, convs, latest[j], user)
    {
      var c := latest[i];
      var last := ViewOf(messages, c);
      var unread := UnreadInThread(convs, c, user);
      r := r + [ConvSummary(c.id, c.sentAt, c.sender, c.recipient, last, unread)];
      i := i + 1;
    }
  }

  // ---------------------------------------------------------------------
  // Threads between two users

  /** The record goes from a to b or from b to a. */
  predicate Between(c: ConvRecord, a: nat, b: nat) {
    (c.sender == a && c.recipient == b) || (c.sender == b && c.recipient == a)
  }

  /** The records between a and b, newest first. */
  function Thread(convs: seq<ConvRecord>, a: nat, b: nat): (r: seq<ConvRecord>)
    ensures forall c :: c in r <==> c in convs && Between(c, a, b)
    decreases |convs|
  {
    if convs == [] then []
    else
      var n := |convs| - 1;
      var rest := Thread(convs[..n], a, b);
      assert forall c :: c in convs <==> c in convs[..n] || c == convs[n];
      if Between(convs[n], a, b) then [convs[n]] + rest else rest
  }

  /** The thread does not depend on which of the two users asks. */
  lemma {:induction false} ThreadSymmetric(convs: seq<ConvRecord>, a: nat, b: nat)
    ensures Thread(convs, a, b) == Thread(convs, b, a)
    decreases |convs|
  {
    if convs != [] {
      ThreadSymmetric(convs[..|convs| - 1], a, b);
    }
  }

  /** The thread is newest first. */
  lemma {:induction false} ThreadNewestFirst(convs: seq<ConvRecord>, a: nat, b: nat)
    requires RecordsChronological(convs)
    ensures forall i, j :: 0 <= i < j < |Thread(convs, a, b)| ==>
              Thread(convs, a, b)[i].sentAt > Thread(convs, a, b)[j].sentAt
    decreases |convs|
  {
    if convs != [] {
      var n := |convs| - 1;
      var last := convs[n];
      var rest := Thread(convs[..n], a, b);
      ThreadNewestFirst(convs[..n], a, b);
      forall j | 0 <= j < |rest| ensures rest[j].sentAt < last.sentAt {
        assert rest[j] in rest;
        var k :| 0 <= k < n && convs[..n][k] == rest[j];
      }
      var r := Thread(convs, a, b);
      if Between(last, a, b) {
        assert r == [last] + rest;
        forall i, j | 0 <= i < j < |r| ensures r[i].sentAt > r[j].sentAt {
          assert r[j] == rest[j - 1];
          if i == 0 {
            assert r[i] == last;
          } else {
            assert r[i] == rest[i - 1];
            assert rest[i - 1].sentAt > rest[j - 1].sentAt;
          }
        }
      } else {
        assert r == rest;
      }
    }
  }

  /** The most recent record between a and b: `order_by(fecha_envio.desc()).first()`. */
  function LatestBetween(convs: seq<ConvRecord>, a: nat, b: nat): (r: Option<ConvRecord>)
    ensures r.None? <==> forall k :: 0 <= k < |convs| ==> !Between(convs[k], a, b)
    ensures r.Some? ==> r.value in convs && Between(r.value, a, b)
  {
    var t := Thread(convs, a, b);
    if t == [] then None
    else
      assert t[0] in t;
      Some(t[0])
  }

  /** The record found is the most recent between the pair: none between
      them was sent later. */
  lemma LatestBetweenIsNewest(convs: seq<ConvRecord>, a: nat, b: nat, k: nat)
    requires RecordsChronological(convs) && k < |convs| && Between(convs[k], a, b)
    ensures LatestBetween(convs, a, b).Some?
    ensures convs[k].sentAt <= LatestBetween(convs, a, b).value.sentAt
  {
    var t := Thread(convs, a, b);
    assert convs[k] in t;
    ThreadNewestFirst(convs, a, b);
    var i :| 0 <= i < |t| && t[i] == convs[k];
  }

  /** A record appended between a and b becomes the latest between them. */
  lemma AppendedIsLatest(convs: seq<ConvRecord>, c: ConvRecord, a: nat, b: nat)
    requires Between(c, a, b)
    ensures LatestBetween(convs + [c], a, b) == Some(c)
  {
    assert (convs + [c])[..|convs|] == convs;
  }

  /** The records from `partner` to `user` that are still unread. */
  predicate Incoming(c: ConvRecord, partner: nat, user: nat) {
    c.sender == partner && c.recipient == user && !c.read
  }

  /** The bulk update of get_conversation_messages: every unread record from
      the partner to the user becomes read; nothing else changes. */
  function MarkThreadRead(convs: seq<ConvRecord>, partner: nat, user: nat): (r: seq<ConvRecord>)
    ensures |r| == |convs|
    ensures forall k :: 0 <= k < |r| ==>
              r[k] == if Incoming(convs[k], partner, user) then convs[k].(read := true) else convs[k]
  {
    seq(|convs|, k requires 0 <= k < |convs| =>
      if Incoming(convs[k], partner, user) then convs[k].(read := true) else convs[k])
  }

  /** Ids of the messages of the records that get marked. */
  function MarkedMessageIds(convs: seq<ConvRecord>, partner: nat, user: nat): set<nat> {
    set k | 0 <= k < |convs| && Incoming(convs[k], partner, user) :: convs[k].messageId
  }

  /** The second bulk update: the messages of the marked records get estado 'leido'. */
  function MarkMessagesRead(messages: map<nat, Message>, ids: set<nat>): (r: map<nat, Message>)
    ensures r.Keys == messages.Keys
    ensures forall id :: id in r ==>
              r[id] == if id in ids then messages[id].(state := ReadState) else messages[id]
  {
    map id | id in messages :: if id in ids then messages[id].(state := ReadState) else messages[id]
  }

  /** After reading the thread the partner no longer counts towards the
      user's badge, and every other sender still does exactly as before. */
  lemma ReadingClearsPartner(convs: seq<ConvRecord>, partner: nat, user: nat)
    ensures UnreadSenders(MarkThreadRead(convs, partner, user), user) == UnreadSenders(convs, user) - {partner}
  {
    var r := MarkThreadRead(convs, partner, user);
    forall s ensures s in UnreadSenders(r, user) <==> s in UnreadSenders(convs, user) - {partner} {
      if s in UnreadSenders(convs, user) - {partner} {
        var k :| 0 <= k < |convs| && convs[k].recipient == user && !convs[k].read && convs[k].sender == s;
        assert r[k] == convs[k];
      }
    }
  }

  /** Reading leaves no unread record from the partner to the user. */
  lemma {:induction false} ReadingLeavesNothingUnread(convs: seq<ConvRecord>, partner: nat, user: nat)
    ensures UnreadFrom(MarkThreadRead(convs, partner, user), partner, user) == 0
    decreases |convs|
  {
    if convs != [] {
      var n := |convs| - 1;
      assert MarkThreadRead(convs, partner, user)[..n] == MarkThreadRead(convs[..n], partner, user);
      ReadingLeavesNothingUnread(convs[..n], partner, user);
    }
  }

  /** The views of the records whose message row exists, in the records' order. */
  function Views(messages: map<nat, Message>, records: seq<ConvRecord>): (r: seq<MessageView>)
    ensures |r| <= |records|
    decreases |records|
  {
    if records == [] then []
    else
      var n := |records| - 1;
      var last := ViewOf(messages, records[n]);
      Views(messages, records[..n]) + (if last.Some? then [last.value] else [])
  }

  /** With every message present, the views are the records' views one for one. */
  lemma {:induction false} ViewsComplete(messages: map<nat, Message>, records: seq<ConvRecord>)
    requires forall k :: 0 <= k < |records| ==> records[k].messageId in messages
    ensures |Views(messages, records)| == |records|
    ensures forall k :: 0 <= k < |records| ==>
              Views(messages, records)[k] == View(records[k], messages[records[k].messageId])
    decreases |records|
  {
    if records != [] {
      var n := |records| - 1;
      ViewsComplete(messages, records[..n]);
    }
  }

  /** The loop over the fetched page: a view for each record whose message exists. */
  method CollectViews(messages: map<nat, Message>, records: seq<ConvRecord>) returns (r: seq<MessageView>)
    ensures r == Views(messages, records)
  {
    r := [];
    var i := 0;
    while i < |records|
      invariant 0 <= i <= |records|
      invariant r == Views(messages, records[..i])
    {
      assert records[..i + 1][..i] == records[..i];
      var c := records[i];
      if c.messageId in messages {
        r := r + [View(c, messages[c.messageId])];
      }
      i := i + 1;
    }
    assert records[..i] == records;
  }

  // ---------------------------------------------------------------------
  // Handlers that write

  /** Commits the messaging tables; every other table is left alone. */
  method SaveMessaging(db: Store, messages: map<nat, Message>, convs: seq<ConvRecord>, nextId: nat, clock: nat)
    requires db.Valid() && db.nextId <= nextId && db.clock <= clock
    requires MessagesKeyed(messages, nextId) && RecordsWellFormed(convs, nextId, clock)
    requires RecordsHaveMessages(convs, messages)
    modifies db
    ensures db.Valid()
    ensures db.messages == messages && db.convs == convs && db.nextId == nextId && db.clock == clock
    ensures db.users == old(db.users) && db.products == old(db.products) && db.carts == old(db.carts)
    ensures db.orders == old(db.orders)
  {
    MessagingUpdated(db.users, db.products, db.carts, db.orders, db.messages, db.convs, db.nextId, db.clock,
                     messages, convs, nextId, clock);
    db.messages, db.convs, db.nextId, db.clock := messages, convs, nextId, clock;
  }

  /** Appending a record stamped now with fresh ids keeps the records well formed. */
  lemma AppendRecord(convs: seq<ConvRecord>, nextId: nat, clock: nat, c: ConvRecord, nextId': nat)
    requires RecordsWellFormed(convs, nextId, clock)
    requires c.id < nextId' && nextId <= nextId' && c.sentAt == clock && c.sender != c.recipient
    ensures RecordsWellFormed(convs + [c], nextId', clock + 1)
  {
  }

  /** create_or_get_conversation. */
  method CreateOrGetConversation(db: Store, user: nat, recipient: nat) returns (r: Result<ConvRecord>)
    requires db.Valid()
    modifies db
    ensures db.Valid()
    ensures db.users == old(db.users) && db.products == old(db.products) && db.carts == old(db.carts)
    ensures db.orders == old(db.orders)
    ensures user == recipient ==> r == Err(SelfConversation) && unchanged(db)
    ensures user != recipient && LatestBetween(old(db.convs), user, recipient).Some? ==>
              r == Ok(LatestBetween(old(db.convs), user, recipient).value) && unchanged(db)
    ensures user != recipient && LatestBetween(old(db.convs), user, recipient).None? &&
            !UserExists(old(db.users), recipient) ==>
              r == Err(RecipientNotFound) && unchanged(db)
    ensures user != recipient && LatestBetween(old(db.convs), user, recipient).None? &&
            UserExists(old(db.users), recipient) ==>
              var id := old(db.nextId);
              var m := Message(id, user, OpeningSubject, OpeningBody, old(db.clock), ReadState);
              var c := ConvRecord(id + 1, user, recipient, id, old(db.clock), true);
              && r == Ok(c)
              && db.messages == old(db.messages)[id := m]
              && db.convs == old(db.convs) + [c]
              && db.nextId == id + 2 && db.clock == old(db.clock) + 1
  {
    if user == recipient {
      return Err(SelfConversation);
    }
    var existing := LatestBetween(db.convs, user, recipient);
    if existing.Some? {
      return Ok(existing.value);
    }
    if !UserExists(db.users, recipient) {
      return Err(RecipientNotFound);
    }
    var id := db.nextId;
    var m := Message(id, user, OpeningSubject, OpeningBody, db.clock, ReadState);
    var c := ConvRecord(id + 1, user, recipient, id, db.clock, true);
    AppendRecord(db.convs, db.nextId, db.clock, c, id + 2);
    SaveMessaging(db, db.messages[id := m], db.convs + [c], id + 2, db.clock + 1);
    r := Ok(c);
  }

  /** Asking twice for the conversation with the same user returns the same
      record, and the second call changes nothing. */
  method CreateOrGetTwice(db: Store, user: nat, recipient: nat) returns (first: Result<ConvRecord>, second: Result<ConvRecord>)
    requires db.Valid()
    modifies db
    ensures db.Valid()
    ensures first.Ok? ==> second == first
  {
    first := CreateOrGetConversation(db, user, recipient);
    if first.Ok? && LatestBetween(old(db.convs), user, recipient).None? {
      AppendedIsLatest(old(db.convs), first.value, user, recipient);
    }
    second := CreateOrGetConversation(db, user, recipient);
  }

  /** get_conversation_messages: marks the partner's unread records to the
      user (and their messages) read, then returns one page of the thread,
      newest first, as views of the records whose message exists. */
  method GetConversationMessages(db: Store, user: nat, partner: nat, page: nat, limit: nat)
    returns (r: seq<MessageView>)
    requires db.Valid() && page >= 1 && 1 <= limit <= 100
    modifies db
    ensures db.Valid()
    ensures db.users == old(db.users) && db.products == old(db.products) && db.carts == old(db.carts)
    ensures db.orders == old(db.orders) && db.nextId == old(db.nextId) && db.clock == old(db.clock)
    ensures db.convs == MarkThreadRead(old(db.convs), partner, user)
    ensures db.messages == MarkMessagesRead(old(db.messages), MarkedMessageIds(old(db.convs), partner, user))
    ensures r == Views(db.messages, Page(Thread(db.convs, user, partner), page, limit))
    ensures |r| == |Page(Thread(db.convs, user, partner), page, limit)|
    ensures forall k :: 0 <= k < |r| ==>
              ViewOf(db.messages, Page(Thread(db.convs, user, partner), page, limit)[k]) == Some(r[k])
  {
    var convs := MarkThreadRead(db.convs, partner, user);
    var messages := MarkMessagesRead(db.messages, MarkedMessageIds(db.convs, partner, user));
    assert RecordsWellFormed(convs, db.nextId, db.clock);
    assert RecordsHaveMessages(convs, messages);
    SaveMessaging(db, messages, convs, db.nextId, db.clock);
    var records := Page(Thread(convs, user, partner), page, limit);
    assert forall k :: 0 <= k < |records| ==> records[k] in convs;
    ViewsComplete(messages, records);
    r := CollectViews(messages, records);
  }

  /** The conversation record with the given id: `.filter(id == ...).first()`. */
  function FindRecord(convs: seq<ConvRecord>, id: nat): (r: Option<ConvRecord>)
    ensures r.None? <==> forall k :: 0 <= k < |convs| ==> convs[k].id != id
    ensures r.Some? ==> r.value in convs && r.value.id == id
    decreases |convs|
  {
    if convs == [] then None
    else if convs[0].id == id then Some(convs[0])
    else FindRecord(convs[1..], id)
  }

  /** send_message: 404 for an unknown conversation id, 403 when the user is
      on neither side of it; otherwise one message and one unread record to
      the other participant are added. */
  method SendMessage(db: Store, user: nat, conversationId: nat, content: string) returns (r: Result<MessageView>)
    requires db.Valid() && ValidMessageContent(content)
    modifies db
    ensures db.Valid()
    ensures db.users == old(db.users) && db.products == old(db.products) && db.carts == old(db.carts)
    ensures db.orders == old(db.orders)
    ensures FindRecord(old(db.convs), conversationId).None? ==> r == Err(ConversationNotFound) && unchanged(db)
    ensures FindRecord(old(db.convs), conversationId).Some? &&
            !Involves(FindRecord(old(db.convs), conversationId).value, user) ==>
              r == Err(NotParticipant) && unchanged(db)
    ensures FindRecord(old(db.convs), conversationId).Some? &&
            Involves(FindRecord(old(db.convs), conversationId).value, user) ==>
              var base := FindRecord(old(db.convs), conversationId).value;
              var id := old(db.nextId);
              var m := Message(id, user, SendSubjectPrefix + NatToString(conversationId), content,
                               old(db.clock), UnreadState);
              var c := ConvRecord(id + 1, user, Partner(base, user), id, old(db.clock), false);
              && r == Ok(View(c, m))
              && db.messages == old(db.messages)[id := m]
              && db.convs == old(db.convs) + [c]
              && db.nextId == id + 2 && db.clock == old(db.clock) + 1
  {
    var base := FindRecord(db.convs, conversationId);
    if base.None? {
      return Err(ConversationNotFound);
    }
    if !Involves(base.value, user) {
      return Err(NotParticipant);
    }
    var id := db.nextId;
    var m := Message(id, user, SendSubjectPrefix + NatToString(conversationId), content, db.clock, UnreadState);
    var recipient := if base.value.sender == user then base.value.recipient else base.value.sender;
    var c := ConvRecord(id + 1, user, recipient, id, db.clock, false);
    AppendRecord(db.convs, db.nextId, db.clock, c, id + 2);
    SaveMessaging(db, db.messages[id := m], db.convs + [c], id + 2, db.clock + 1);
    r := Ok(MessageView(id, id + 1, user, m.sentAt, false, content));
  }

  /** A sent message makes its sender count towards the recipient's badge. */
  lemma SendingNotifies(convs: seq<ConvRecord>, c: ConvRecord)
    requires !c.read
    ensures UnreadSenders(convs + [c], c.recipient) == UnreadSenders(convs, c.recipient) + {c.sender}
  {
    assert (convs + [c])[..|convs|] == convs;
  }

  /** A sent message opens the thread between its two users. */
  lemma SentMessageOnTop(convs: seq<ConvRecord>, c: ConvRecord)
    ensures Thread(convs + [c], c.sender, c.recipient)[0] == c
  {
    assert (convs + [c])[..|convs|] == convs;
  }
}

/** TwitterDataWriter: the ingestion of the events of a direct-message archive into the
    tables of the archive database.

    Each event names a conversation; the writer makes sure the conversation, the archived
    account's participation in it and every user and participation the event mentions
    have rows, then stores the event's own rows (message, reactions, media and links, or a
    name update) or records the join and leave facts it reveals. The in-memory caches
    added_users_cache, added_conversations_cache and added_participants_cache stand for
    the rows already written; participant_events collects, per participant, the join and
    leave facts that finalize reconciles into start and end times. */
module Writer {
  import opened Wrappers
  import opened Timestamps
  import opened Reconcile
  import opened Media

  /** A (user_id, conversation_id) participant tuple. */
  datatype Pair = Pair(user: string, conversation: string)

  /** A participants row: added_by, start_time and end_time, None being NULL. */
  datatype ParticipantRecord = ParticipantRecord(
    addedBy: Option<string>, startTime: Option<int>, endTime: Option<int>)

  /** The row inserted for a participant seen for the first time. */
  const Unjoined := ParticipantRecord(None, None, None)

  /** A conversations row as the writer leaves it: type and other_person from the insert,
      first_time, added_by and created_by_me from a joinConversation (None when never
      written). */
  datatype ConversationRecord = ConversationRecord(
    kind: string, otherPerson: Option<string>,
    firstTime: Option<int>, addedBy: Option<string>, createdByMe: Option<bool>)

  datatype MessageRecord = MessageRecord(
    id: string, sentTime: int, sender: string, conversation: string, content: string)
  datatype ReactionRecord = ReactionRecord(
    emotion: string, creationTime: int, creator: string, message: string)
  datatype MediaRecord = MediaRecord(
    id: string, origUrl: string, filename: string, message: string,
    kind: MediaKind, fromGroupMessage: bool)
  datatype LinkRecord = LinkRecord(
    origUrl: string, urlPreview: string, shortenedUrl: string, message: string)
  datatype NameUpdateRecord = NameUpdateRecord(
    updateTime: int, initiator: string, newName: string, conversation: string)

  // ----- Input events -----

  datatype Reaction = Reaction(reactionKey: string, createdAt: int, senderId: string)
  datatype Link = Link(expanded: string, display: string, url: string)

  /** The part of an event that depends on its "type". */
  datatype Body =
    | MessageCreate(id: string, text: string, reactions: seq<Reaction>,
                    mediaUrls: seq<string>, urls: seq<Link>)
    | ConversationNameUpdate(initiatingUserId: string, name: string)
    | ParticipantsJoin(initiatingUserId: string, userIds: seq<string>)
    | ParticipantsLeave(userIds: seq<string>)
    | JoinConversation(initiatingUserId: string, participantsSnapshot: seq<string>)
    | OtherEvent(eventType: string)

  /** One message or conversation event; senderId and recipientId are None where the
      event's dict has no such key. */
  datatype Event = Event(
    conversationId: string, createdAt: int,
    senderId: Option<string>, recipientId: Option<string>, body: Body)

  /** What add_message demands of an event in order not to raise: the keys it reads
      exist (senderId, and recipientId when the sender is the account, to find the other
      person of an individual conversation; senderId and, outside groups, recipientId for
      a message), a name update comes from a group (the assert of the conversationNameUpdate
      branch), and a joinConversation names an initiator (the first_time/added_by
      assertion of add_conversation_if_necessary). */
  predicate Readable(ev: Event, group: bool, account: string)
  {
    && (!group ==> ev.senderId.Some? && (ev.senderId.value == account ==> ev.recipientId.Some?))
    && (ev.body.MessageCreate? ==> ev.senderId.Some? && (!group ==> ev.recipientId.Some?))
    && (ev.body.ConversationNameUpdate? ==> group)
    && (ev.body.JoinConversation? ==> ev.body.initiatingUserId != "")
  }

  // ----- The state -----

  /** The tables the writer fills (the ids of the users table, which the API requests
      later fill in), participant_events and the added_messages counter. The three caches
      and the API queue are fields of the writer that its invariant ties to these. */
  datatype Db = Db(
    users: set<string>,
    participants: map<Pair, ParticipantRecord>, conversations: map<string, ConversationRecord>,
    messages: seq<MessageRecord>, reactions: seq<ReactionRecord>, media: seq<MediaRecord>,
    links: seq<LinkRecord>, nameUpdates: seq<NameUpdateRecord>,
    participantEvents: map<Pair, seq<Fact>>, addedMessages: nat)

  predicate Distinct(s: seq<string>)
  {
    forall i, j :: 0 <= i < j < |s| ==> s[i] != s[j]
  }

  /** A request queue that names every known user exactly once. */
  ghost predicate QueuedOnce(requested: seq<string>, users: set<string>)
  {
    Distinct(requested) && forall u :: u in requested <==> u in users
  }

  /** Every participant with a row has a fact list. */
  ghost predicate Consistent(d: Db)
  {
    forall p :: p in d.participants ==> p in d.participantEvents
  }

  /** The type column and the other person of a conversation stay as first inserted. */
  predicate SameIdentity(a: ConversationRecord, b: ConversationRecord)
  {
    a.kind == b.kind && a.otherPerson == b.otherPerson
  }

  /** What no step of the writer undoes: user and participant rows are only ever added,
      and a conversation's type and other person are never rewritten. */
  ghost predicate Grows(d: Db, r: Db)
  {
    && d.users <= r.users
    && d.participants.Keys <= r.participants.Keys
    && (forall c :: c in d.conversations ==>
          c in r.conversations && SameIdentity(d.conversations[c], r.conversations[c]))
  }

  /** The state right after the constructor: empty tables and caches. */
  const Fresh := Db({}, map[], map[], [], [], [], [], [], map[], 0)

  /** `if x:` on an optional id string. */
  predicate Given(x: Option<string>)
  {
    x.Some? && x.value != ""
  }

  function Kind(group: bool): string
  {
    if group then "group" else "individual"
  }

  // ----- add_user_if_necessary, add_participant_if_necessary, add_conversation_if_necessary -----

  /** A user row is inserted (and the id queued for the API) unless the id already has
      one. */
  function AddUser(d: Db, id: string): (r: Db)
    requires Consistent(d)
    ensures Consistent(r) && Grows(d, r) && r == d.(users := r.users)
    ensures id in r.users
  {
    if id in d.users then d else d.(users := d.users + {id})
  }

  /** The insert of a bare participant row, with an empty fact list, unless one exists. */
  function Enroll(d: Db, p: Pair): (r: Db)
    requires Consistent(d)
    ensures Consistent(r) && p in r.participants
    ensures r == d.(participants := r.participants, participantEvents := r.participantEvents)
  {
    if p in d.participants then d
    else d.(participants := d.participants[p := Unjoined], participantEvents := d.participantEvents[p := []])
  }

  /** Appends one fact to a participant's list. */
  function Record(d: Db, p: Pair, f: Fact): (r: Db)
    requires Consistent(d) && p in d.participants
    ensures Consistent(r) && r == d.(participantEvents := r.participantEvents)
  {
    d.(participantEvents := d.participantEvents[p := d.participantEvents[p] + [f]])
  }

  /** The update of a participant row's added_by. */
  function Adopt(d: Db, p: Pair, addedBy: Option<string>): (r: Db)
    requires Consistent(d) && p in d.participants
    ensures Consistent(r) && r == d.(participants := r.participants)
  {
    d.(participants := d.participants[p := d.participants[p].(addedBy := addedBy)])
  }

  /** The facts one call of add_participant_if_necessary appends: the start, then the end. */
  function NewFacts(startTime: Option<int>, endTime: Option<int>): seq<Fact>
  {
    (if startTime.Some? then [Fact(StartFact, startTime.value)] else [])
    + (if endTime.Some? then [Fact(EndFact, endTime.value)] else [])
  }

  /** add_participant_if_necessary: a participant's fact list starts empty and is only
      appended to, a given start before a given end; its row's added_by is the last one
      given, and its start and end are left for finalize; no other participant changes. */
  function AddParticipant(d: Db, user: string, conversation: string,
                          startTime: Option<int>, endTime: Option<int>, addedBy: Option<string>): (r: Db)
    requires Consistent(d)
    ensures Consistent(r) && Grows(d, r)
    ensures r == d.(participants := r.participants, participantEvents := r.participantEvents)
    ensures var p := Pair(user, conversation);
      && p in r.participants
      && r.participantEvents[p] == (if p in d.participants then d.participantEvents[p] else []) + NewFacts(startTime, endTime)
      && r.participants[p].addedBy ==
           (if Given(addedBy) then addedBy else if p in d.participants then d.participants[p].addedBy else None)
      && r.participants[p].startTime == (if p in d.participants then d.participants[p].startTime else None)
      && r.participants[p].endTime == (if p in d.participants then d.participants[p].endTime else None)
    ensures forall q :: q in d.participants && q != Pair(user, conversation) ==>
      r.participants[q] == d.participants[q] && r.participantEvents[q] == d.participantEvents[q]
  {
    var p := Pair(user, conversation);
    var d1 := Enroll(d, p);
    var d2 := if startTime.Some? then Record(d1, p, Fact(StartFact, startTime.value)) else d1;
    var d3 := if endTime.Some? then Record(d2, p, Fact(EndFact, endTime.value)) else d2;
    if Given(addedBy) then Adopt(d3, p, addedBy) else d3
  }

  /** add_conversation_if_necessary: a conversation keeps the type and other person of
      its first insert; a join time and adder, given together, are recorded with
      created_by_me false; otherwise an existing row is left as it was. No other
      conversation changes. */
  function AddConversation(d: Db, id: string, group: bool, otherPerson: Option<string>,
                           firstTime: Option<int>, addedBy: Option<string>): (r: Db)
    requires Consistent(d)
    requires firstTime.Some? <==> Given(addedBy)
    ensures Consistent(r) && Grows(d, r) && r == d.(conversations := r.conversations)
    ensures id in r.conversations
    ensures id !in d.conversations ==>
      r.conversations[id].kind == Kind(group) && r.conversations[id].otherPerson == otherPerson
    ensures firstTime.Some? ==>
      && r.conversations[id].firstTime == firstTime && r.conversations[id].addedBy == addedBy
      && r.conversations[id].createdByMe == Some(false)
    ensures firstTime.None? ==>
      r.conversations[id] == (if id in d.conversations then d.conversations[id]
                              else ConversationRecord(Kind(group), otherPerson, None, None, None))
    ensures forall c :: c in d.conversations && c != id ==> r.conversations[c] == d.conversations[c]
  {
    var d1 := if id in d.conversations then d
      else d.(conversations := d.conversations[id := ConversationRecord(Kind(group), otherPerson, None, None, None)]);
    if firstTime.Some? && Given(addedBy) then
      d1.(conversations := d1.conversations[id := d1.conversations[id].(
            firstTime := firstTime, addedBy := addedBy, createdByMe := Some(false))])
    else d1
  }

  /** The add_user_if_necessary, add_participant_if_necessary pair made for every user an
      event mentions. */
  function Mention(d: Db, user: string, conversation: string): (r: Db)
    requires Consistent(d)
    ensures Consistent(r) && Grows(d, r) && r == d.(users := r.users, participants := r.participants, participantEvents := r.participantEvents)
    ensures user in r.users && Pair(user, conversation) in r.participants
  {
    AddParticipant(AddUser(d, user), user, conversation, None, None, None)
  }

  // ----- The loops of add_message -----

  /** The loop over the sender and, outside groups, the recipient of a message. */
  function MentionAll(d: Db, ids: seq<string>, conversation: string): (r: Db)
    requires Consistent(d)
    ensures Consistent(r) && Grows(d, r) && r == d.(users := r.users, participants := r.participants, participantEvents := r.participantEvents)
    ensures forall u :: u in ids ==> u in r.users && Pair(u, conversation) in r.participants
    decreases |ids|
  {
    if ids == [] then d
    else Mention(MentionAll(d, ids[..|ids| - 1], conversation), ids[|ids| - 1], conversation)
  }

  function ReactionRow(x: Reaction, message: string): ReactionRecord
  {
    ReactionRecord(x.reactionKey, x.createdAt, x.senderId, message)
  }

  /** One pass of the loop over a message's reactions. */
  function React(d: Db, x: Reaction, conversation: string, message: string): (r: Db)
    requires Consistent(d)
    ensures Consistent(r) && Grows(d, r)
    ensures r == d.(users := r.users, participants := r.participants, participantEvents := r.participantEvents, reactions := r.reactions)
    ensures x.senderId in r.users && Pair(x.senderId, conversation) in r.participants
    ensures r.reactions == d.reactions + [ReactionRow(x, message)]
  {
    var d1 := Mention(d, x.senderId, conversation);
    d1.(reactions := d1.reactions + [ReactionRow(x, message)])
  }

  /** The rows of a message's reactions, one per reaction and in order. */
  function ReactionRows(xs: seq<Reaction>, message: string): (rows: seq<ReactionRecord>)
    ensures |rows| == |xs| && forall i :: 0 <= i < |xs| ==> rows[i] == ReactionRow(xs[i], message)
    decreases |xs|
  {
    if xs == [] then [] else ReactionRows(xs[..|xs| - 1], message) + [ReactionRow(xs[|xs| - 1], message)]
  }

  /** The loop over a message's reactions: each reacting user is mentioned and each
      reaction gets its row, in order. */
  function AddReactions(d: Db, xs: seq<Reaction>, conversation: string, message: string): (r: Db)
    requires Consistent(d)
    ensures Consistent(r) && Grows(d, r)
    ensures r == d.(users := r.users, participants := r.participants, participantEvents := r.participantEvents, reactions := r.reactions)
    ensures r.reactions == d.reactions + ReactionRows(xs, message)
    ensures forall x :: x in xs ==> x.senderId in r.users && Pair(x.senderId, conversation) in r.participants
    decreases |xs|
  {
    if xs == [] then d
    else React(AddReactions(d, xs[..|xs| - 1], conversation, message), xs[|xs| - 1], conversation, message)
  }

  function MediaRow(url: string, p: MediaParts, message: string, group: bool): MediaRecord
  {
    MediaRecord(p.mediaId, url, p.filename, message, p.kind, group)
  }

  /** One pass of the loop over a message's media URLs: the URL's media row, or the
      exception its decomposition raises. */
  function MediaRowOf(url: string, message: string, group: bool): Result<MediaRecord, MediaError>
  {
    match Decompose(url, message)
    case Success(p) => Success(MediaRow(url, p, message, group))
    case Failure(e) => Failure(e)
  }

  function MediaStep(message: string, group: bool): string -> Result<MediaRecord, MediaError>
  {
    url => MediaRowOf(url, message, group)
  }

  /** A URL's pass of the media loop fails exactly when its decomposition does, with the
      same exception. */
  lemma MediaStepFails(url: string, message: string, group: bool)
    ensures MediaStep(message, group)(url).Failure? <==> Decompose(url, message).Failure?
    ensures Decompose(url, message).Failure? ==>
      MediaStep(message, group)(url).error == Decompose(url, message).error
  {
  }

  /** One more pass of a loop that has not failed yet. */
  lemma CollectNext<T, R, E>(xs: seq<T>, i: nat, f: T -> Result<R, E>)
    requires i < |xs| && Collect(xs[..i], f).error.None?
    ensures Collect(xs[..i + 1], f) == match f(xs[i])
      case Success(row) => Run(Collect(xs[..i], f).rows + [row], None)
      case Failure(e) => Run(Collect(xs[..i], f).rows, Some(e))
  {
    assert xs[..i + 1][..i] == xs[..i];
  }

  /** Once a pass has failed, the later elements change nothing. */
  lemma {:induction false} CollectStops<T, R, E>(xs: seq<T>, k: nat, f: T -> Result<R, E>)
    requires k <= |xs| && Collect(xs[..k], f).error.Some?
    ensures Collect(xs, f) == Collect(xs[..k], f)
    decreases |xs|
  {
    if k < |xs| {
      var init := xs[..|xs| - 1];
      assert init[..k] == xs[..k];
      CollectStops(init, k, f);
    } else {
      assert xs[..k] == xs;
    }
  }

  /** The rows a loop collects before its first failing pass, and that pass's exception. */
  datatype Run<R, E> = Run(rows: seq<R>, error: Option<E>)

  /** A loop over xs whose pass f either gives a row or raises (the loop over a message's
      media URLs is one, with f the decomposition of a URL). */
  function Collect<T, R, E>(xs: seq<T>, f: T -> Result<R, E>): (o: Run<R, E>)
    ensures |o.rows| <= |xs|
    ensures o.error.None? <==> |o.rows| == |xs|
    decreases |xs|
  {
    if xs == [] then Run([], None)
    else
      var o := Collect(xs[..|xs| - 1], f);
      if o.error.Some? then o
      else match f(xs[|xs| - 1])
        case Success(row) => Run(o.rows + [row], None)
        case Failure(e) => Run(o.rows, Some(e))
  }

  /** The rows are those of the longest run of passes that succeed, in order, and the
      exception is that of the pass after the run. */
  lemma {:induction false} CollectShape<T, R, E>(xs: seq<T>, f: T -> Result<R, E>)
    ensures var o := Collect(xs, f);
      && (forall i :: 0 <= i < |o.rows| ==> f(xs[i]) == Success(o.rows[i]))
      && (o.error.Some? ==> f(xs[|o.rows|]) == Failure(o.error.value))
    decreases |xs|
  {
    if xs != [] {
      var init, x := xs[..|xs| - 1], xs[|xs| - 1];
      CollectShape(init, f);
      var o, r := Collect(init, f), Collect(xs, f);
      forall i | 0 <= i < |o.rows|
        ensures f(xs[i]) == Success(o.rows[i])
      {
        assert init[i] == xs[i];
      }
      if o.error.None? && f(x).Success? {
        forall i | 0 <= i < |r.rows|
          ensures f(xs[i]) == Success(r.rows[i])
        {
          if i == |o.rows| {
            assert xs[i] == x;
          }
        }
      }
    }
  }

  /** What an event that may raise leaves behind: the state so far and the exception. */
  datatype Outcome = Outcome(db: Db, error: Option<MediaError>)

  function LinkRow(x: Link, message: string): LinkRecord
  {
    LinkRecord(x.expanded, x.display, x.url, message)
  }

  /** The rows of the loop over a message's links: one per link, in order. */
  function LinkRows(xs: seq<Link>, message: string): (rows: seq<LinkRecord>)
    ensures |rows| == |xs| && forall i :: 0 <= i < |xs| ==> rows[i] == LinkRow(xs[i], message)
    decreases |xs|
  {
    if xs == [] then [] else LinkRows(xs[..|xs| - 1], message) + [LinkRow(xs[|xs| - 1], message)]
  }

  /** The loop of participantsJoin: each joining user is added with the event's time as
      a start fact and the initiator as adder. */
  function AddJoined(d: Db, ids: seq<string>, conversation: string, time: int, adder: string): (r: Db)
    requires Consistent(d)
    ensures Consistent(r) && Grows(d, r) && r == d.(users := r.users, participants := r.participants, participantEvents := r.participantEvents)
    ensures forall u :: u in ids ==>
      && u in r.users && Pair(u, conversation) in r.participants
      && Fact(StartFact, time) in r.participantEvents[Pair(u, conversation)]
      && (adder != "" ==> r.participants[Pair(u, conversation)].addedBy == Some(adder))
    decreases |ids|
  {
    if ids == [] then d
    else
      var u := ids[|ids| - 1];
      AddParticipant(AddUser(AddJoined(d, ids[..|ids| - 1], conversation, time, adder), u),
                     u, conversation, Some(time), None, Some(adder))
  }

  /** The loop of participantsLeave: each leaving user is added with the event's time as
      an end fact. */
  function AddLeft(d: Db, ids: seq<string>, conversation: string, time: int): (r: Db)
    requires Consistent(d)
    ensures Consistent(r) && Grows(d, r) && r == d.(users := r.users, participants := r.participants, participantEvents := r.participantEvents)
    ensures forall u :: u in ids ==>
      && u in r.users && Pair(u, conversation) in r.participants
      && Fact(EndFact, time) in r.participantEvents[Pair(u, conversation)]
    decreases |ids|
  {
    if ids == [] then d
    else
      var u := ids[|ids| - 1];
      AddParticipant(AddUser(AddLeft(d, ids[..|ids| - 1], conversation, time), u),
                     u, conversation, None, Some(time), None)
  }

  /** The loop over a joinConversation's participants snapshot: every user other than the
      account is added with a start fact at the zero sentinel, since they were there
      before the account; the account's own row and facts are left alone. */
  function AddSnapshot(d: Db, ids: seq<string>, conversation: string, account: string): (r: Db)
    requires Consistent(d)
    ensures Consistent(r) && Grows(d, r) && r == d.(users := r.users, participants := r.participants, participantEvents := r.participantEvents)
    ensures forall u :: u in ids && u != account ==>
      && u in r.users && Pair(u, conversation) in r.participants
      && Fact(StartFact, Zeroes) in r.participantEvents[Pair(u, conversation)]
    ensures Pair(account, conversation) in d.participants ==>
      && r.participants[Pair(account, conversation)] == d.participants[Pair(account, conversation)]
      && r.participantEvents[Pair(account, conversation)] == d.participantEvents[Pair(account, conversation)]
    decreases |ids|
  {
    if ids == [] then d
    else
      var d1 := AddSnapshot(d, ids[..|ids| - 1], conversation, account);
      var u := ids[|ids| - 1];
      if u != account then
        AddParticipant(AddUser(d1, u), u, conversation, Some(Zeroes), None, None)
      else d1
  }

  // ----- add_message -----

  /** recipient_id: the other person of an individual conversation, which is the
      recipient of a message the account sent and the sender of any other; None in a
      group. */
  function RecipientOf(ev: Event, group: bool, account: string): Option<string>
    requires Readable(ev, group, account)
  {
    if group then None
    else if ev.senderId.value == account then ev.recipientId
    else ev.senderId
  }

  /** The start of every event: its conversation and the account's participation in it. */
  function Prelude(d: Db, ev: Event, group: bool, account: string): (r: Db)
    requires Consistent(d) && Readable(ev, group, account)
    ensures Consistent(r) && Grows(d, r) && r.addedMessages == d.addedMessages
    ensures var conv := ev.conversationId;
      && conv in r.conversations && Pair(account, conv) in r.participants
      && (conv !in d.conversations ==>
            r.conversations[conv].kind == Kind(group)
            && r.conversations[conv].otherPerson == RecipientOf(ev, group, account))
  {
    AddParticipant(AddConversation(d, ev.conversationId, group, RecipientOf(ev, group, account), None, None),
                   account, ev.conversationId, None, None, None)
  }

  /** The first part of the messageCreate branch: the sender and, outside groups, the
      recipient take part; the message gets its row, then its reactions theirs. */
  function Posted(d: Db, ev: Event, group: bool): (r: Db)
    requires Consistent(d) && ev.body.MessageCreate?
    requires ev.senderId.Some? && (!group ==> ev.recipientId.Some?)
    ensures Consistent(r) && Grows(d, r) && r.addedMessages == d.addedMessages
    ensures var m, conv, sender := ev.body, ev.conversationId, ev.senderId.value;
      && sender in r.users && Pair(sender, conv) in r.participants
      && (!group ==> ev.recipientId.value in r.users && Pair(ev.recipientId.value, conv) in r.participants)
      && r.messages == d.messages + [MessageRecord(m.id, ev.createdAt, sender, conv, m.text)]
      && r.reactions == d.reactions + ReactionRows(m.reactions, m.id)
      && r.media == d.media && r.links == d.links
      && r.conversations == d.conversations && r.nameUpdates == d.nameUpdates
  {
    var conv, m, sender := ev.conversationId, ev.body, ev.senderId.value;
    var ids := [sender] + (if group then [] else [ev.recipientId.value]);
    assert sender in ids && (!group ==> ev.recipientId.value in ids);
    var d1 := MentionAll(d, ids, conv);
    var d2 := d1.(messages := d1.messages + [MessageRecord(m.id, ev.createdAt, sender, conv, m.text)]);
    AddReactions(d2, m.reactions, conv, m.id)
  }

  /** The messageCreate branch: after the message and its reactions, its media and links
      get their rows, in order; a media URL that does not decompose raises before any
      link row is written. */
  function MessageCreated(d: Db, ev: Event, group: bool): (o: Outcome)
    requires Consistent(d) && ev.body.MessageCreate?
    requires ev.senderId.Some? && (!group ==> ev.recipientId.Some?)
    ensures Consistent(o.db) && Grows(d, o.db) && o.db.addedMessages == d.addedMessages
    ensures var m, d1 := ev.body, Posted(d, ev, group);
      && o.db == d1.(media := o.db.media, links := o.db.links)
      && o.db.media == d1.media + Collect(m.mediaUrls, MediaStep(m.id, group)).rows
      && o.error == Collect(m.mediaUrls, MediaStep(m.id, group)).error
      && o.db.links == d1.links + (if o.error.None? then LinkRows(m.urls, m.id) else [])
  {
    var m, d1 := ev.body, Posted(d, ev, group);
    var media := Collect(m.mediaUrls, MediaStep(m.id, group));
    var d2 := d1.(media := d1.media + media.rows);
    if media.error.Some? then Outcome(d2, media.error)
    else Outcome(d2.(links := d2.links + LinkRows(m.urls, m.id)), None)
  }

  /** The conversationNameUpdate branch: the initiator takes part, and the update gets
      its row. */
  function NameUpdated(d: Db, ev: Event): (r: Db)
    requires Consistent(d) && ev.body.ConversationNameUpdate?
    ensures Consistent(r) && Grows(d, r) && r.addedMessages == d.addedMessages
    ensures var init := ev.body.initiatingUserId;
      && init in r.users && Pair(init, ev.conversationId) in r.participants
      && r.nameUpdates == d.nameUpdates + [NameUpdateRecord(ev.createdAt, init, ev.body.name, ev.conversationId)]
      && r.messages == d.messages && r.conversations == d.conversations
  {
    var init := ev.body.initiatingUserId;
    var d1 := Mention(d, init, ev.conversationId);
    d1.(nameUpdates := d1.nameUpdates + [NameUpdateRecord(ev.createdAt, init, ev.body.name, ev.conversationId)])
  }

  /** The participantsJoin branch: the initiator's participation, then the initiator's
      user row, then the joining users. */
  function ParticipantsJoined(d: Db, ev: Event): (r: Db)
    requires Consistent(d) && ev.body.ParticipantsJoin?
    ensures Consistent(r) && Grows(d, r) && r.addedMessages == d.addedMessages
    ensures var init, conv := ev.body.initiatingUserId, ev.conversationId;
      && init in r.users && Pair(init, conv) in r.participants
      && forall u :: u in ev.body.userIds ==>
           && u in r.users && Pair(u, conv) in r.participants
           && Fact(StartFact, ev.createdAt) in r.participantEvents[Pair(u, conv)]
           && (init != "" ==> r.participants[Pair(u, conv)].addedBy == Some(init))
    ensures r.conversations == d.conversations && r.messages == d.messages
  {
    var init := ev.body.initiatingUserId;
    var d1 := AddUser(AddParticipant(d, init, ev.conversationId, None, None, None), init);
    AddJoined(d1, ev.body.userIds, ev.conversationId, ev.createdAt, init)
  }

  /** The joinConversation branch: the initiator is mentioned, the conversation gets the
      join time and the initiator as adder, the account gets a start fact and the
      initiator as its adder, and the snapshot's users their sentinel start facts. */
  function ConversationJoined(d: Db, ev: Event, group: bool, account: string): (r: Db)
    requires Consistent(d) && ev.body.JoinConversation? && Readable(ev, group, account)
    ensures Consistent(r) && Grows(d, r) && r.addedMessages == d.addedMessages
    ensures var init, conv, t := ev.body.initiatingUserId, ev.conversationId, ev.createdAt;
      && conv in r.conversations && r.conversations[conv].firstTime == Some(t)
      && r.conversations[conv].addedBy == Some(init) && r.conversations[conv].createdByMe == Some(false)
      && init in r.users && Pair(init, conv) in r.participants
      && Pair(account, conv) in r.participants
      && r.participants[Pair(account, conv)].addedBy == Some(init)
      && Fact(StartFact, t) in r.participantEvents[Pair(account, conv)]
      && forall u :: u in ev.body.participantsSnapshot && u != account ==>
           && u in r.users && Pair(u, conv) in r.participants
           && Fact(StartFact, Zeroes) in r.participantEvents[Pair(u, conv)]
  {
    var init, conv := ev.body.initiatingUserId, ev.conversationId;
    var d1 := Mention(d, init, conv);
    var d2 := AddConversation(d1, conv, group, RecipientOf(ev, group, account), Some(ev.createdAt), Some(init));
    var d3 := AddParticipant(d2, account, conv, Some(ev.createdAt), None, Some(init));
    AddSnapshot(d3, ev.body.participantsSnapshot, conv, account)
  }

  /** The branch of add_message for the event's type; an event of any other type only
      has its prelude. */
  function Handle(d: Db, ev: Event, group: bool, account: string): (o: Outcome)
    requires Consistent(d) && Readable(ev, group, account)
    ensures Consistent(o.db) && Grows(d, o.db) && o.db.addedMessages == d.addedMessages
  {
    match ev.body
    case MessageCreate(_, _, _, _, _) => MessageCreated(d, ev, group)
    case ConversationNameUpdate(_, _) => Outcome(NameUpdated(d, ev), None)
    case ParticipantsJoin(_, _) => Outcome(ParticipantsJoined(d, ev), None)
    case ParticipantsLeave(ids) => Outcome(AddLeft(d, ids, ev.conversationId, ev.createdAt), None)
    case JoinConversation(_, _) => Outcome(ConversationJoined(d, ev, group, account), None)
    case OtherEvent(_) => Outcome(d, None)
  }

  /** add_message: the prelude, the branch of the event's type, and the counter, which is
      not reached when a media URL raises. */
  function Ingest(d: Db, ev: Event, group: bool, account: string): (o: Outcome)
    requires Consistent(d) && Readable(ev, group, account)
    ensures Consistent(o.db) && Grows(d, o.db) && Grows(Prelude(d, ev, group, account), o.db)
  {
    var o := Handle(Prelude(d, ev, group, account), ev, group, account);
    if o.error.Some? then o else Outcome(o.db.(addedMessages := o.db.addedMessages + 1), None)
  }

  // ----- finalize -----

  /** The start and end times finalize gives one participant row. */
  function Closed(row: ParticipantRecord, facts: seq<Fact>): ParticipantRecord
  {
    var s := Reconcile.Reconcile(facts);
    row.(startTime := s.start, endTime := s.end)
  }

  /** The state after the reconciliation loop of finalize. */
  ghost function Finalized(d: Db): Db
    requires Consistent(d)
  {
    d.(participants := map p | p in d.participants :: Closed(d.participants[p], d.participantEvents[p]))
  }

  // ----- Properties -----

  /** finalize rewrites only the start and end of participant rows: a start is the time
      of a start fact that no fact precedes and is never the zero sentinel, an end the
      time of an end fact that no fact follows. */
  lemma FinalizedSpans(d: Db, p: Pair)
    requires Consistent(d) && p in d.participants
    ensures var r, facts := Finalized(d), d.participantEvents[p];
      && r == d.(participants := r.participants) && r.participants.Keys == d.participants.Keys
      && r.participants[p].addedBy == d.participants[p].addedBy
      && (r.participants[p].startTime.Some? ==>
            var t := r.participants[p].startTime.value;
            t != Zeroes && Fact(StartFact, t) in facts && forall f :: f in facts ==> t <= f.time)
      && (r.participants[p].endTime.Some? ==>
            var t := r.participants[p].endTime.value;
            Fact(EndFact, t) in facts && forall f :: f in facts ==> f.time <= t)
  {
    StartEarliestEndLatest(d.participantEvents[p]);
  }

  /** A user found in a joinConversation's snapshot carries the sentinel start fact, so
      finalize gives them no start time. */
  lemma SnapshotUserHasNoStart(d: Db, p: Pair)
    requires Consistent(d) && p in d.participants
    requires Timed(d.participantEvents[p]) && Fact(StartFact, Zeroes) in d.participantEvents[p]
    ensures Finalized(d).participants[p].startTime == None
  {
    SentinelStart(d.participantEvents[p]);
  }

  /** Running the reconciliation twice gives what running it once does. */
  lemma FinalizeIdempotent(d: Db)
    requires Consistent(d)
    ensures Consistent(Finalized(d)) && Finalized(Finalized(d)) == Finalized(d)
  {
  }

  /** After any event the conversation has a row carrying, when the event created it, the
      type and the other person found from the event, and the account takes part in it. */
  lemma IngestOwnerTakesPart(d: Db, ev: Event, group: bool, account: string)
    requires Consistent(d) && Readable(ev, group, account)
    ensures var r, conv := Ingest(d, ev, group, account).db, ev.conversationId;
      && conv in r.conversations && Pair(account, conv) in r.participants
      && (conv !in d.conversations ==>
            r.conversations[conv].kind == Kind(group)
            && r.conversations[conv].otherPerson == RecipientOf(ev, group, account))
  {
    var d1 := Prelude(d, ev, group, account);
    assert Grows(d1, Ingest(d, ev, group, account).db);
  }

  /** The counter counts the events that did not raise, and only a message's media URL
      that does not decompose raises. */
  lemma IngestCounts(d: Db, ev: Event, group: bool, account: string)
    requires Consistent(d) && Readable(ev, group, account)
    ensures var o := Ingest(d, ev, group, account);
      && o.db.addedMessages == d.addedMessages + (if o.error.None? then 1 else 0)
      && (o.error.Some? ==>
            ev.body.MessageCreate?
            && exists i :: 0 <= i < |ev.body.mediaUrls| && Decompose(ev.body.mediaUrls[i], ev.body.id) == Failure(o.error.value))
      && (ev.body.MessageCreate? ==>
            (o.error.None? <==> forall i :: 0 <= i < |ev.body.mediaUrls| ==> Decompose(ev.body.mediaUrls[i], ev.body.id).Success?))
  {
    if ev.body.MessageCreate? {
      var urls, f := ev.body.mediaUrls, MediaStep(ev.body.id, group);
      var run := Collect(urls, f);
      CollectShape(urls, f);
      assert Ingest(d, ev, group, account).error == run.error;
      if run.error.Some? {
        var k := |run.rows|;
        MediaStepFails(urls[k], ev.body.id, group);
        assert Decompose(urls[k], ev.body.id) == Failure(run.error.value);
      } else {
        forall i | 0 <= i < |urls|
          ensures Decompose(urls[i], ev.body.id).Success?
        {
          MediaStepFails(urls[i], ev.body.id, group);
        }
      }
    }
  }

  // ----- The writer -----

  /** TwitterDataWriter: its tables, the three caches, the ids handed to the API client's
      queue and participant_events. */
  class TwitterDataWriter {
    /** The id written to the me table. */
    const accountId: string
    var users: set<string>
    var participants: map<Pair, ParticipantRecord>
    var conversations: map<string, ConversationRecord>
    var messages: seq<MessageRecord>
    var reactions: seq<ReactionRecord>
    var media: seq<MediaRecord>
    var links: seq<LinkRecord>
    var nameUpdates: seq<NameUpdateRecord>
    var addedUsersCache: set<string>
    var addedConversationsCache: set<string>
    var addedParticipantsCache: set<Pair>
    /** The ids passed to queue_twitter_user_request, in order. */
    var requested: seq<string>
    var participantEvents: map<Pair, seq<Fact>>
    var addedMessages: nat

    function State(): Db
      reads this
    {
      Db(users, participants, conversations, messages, reactions, media, links, nameUpdates,
         participantEvents, addedMessages)
    }

    /** Each cache holds exactly the keys of its table, and every user id was queued for
        the API exactly once. */
    ghost predicate Valid()
      reads this
    {
      && Consistent(State())
      && addedUsersCache == users
      && addedConversationsCache == conversations.Keys
      && addedParticipantsCache == participants.Keys
      && QueuedOnce(requested, users)
    }

    constructor (accountId: string)
      ensures Valid() && State() == Fresh && requested == [] && this.accountId == accountId
    {
      this.accountId := accountId;
      users, participants, conversations := {}, map[], map[];
      messages, reactions, media, links, nameUpdates := [], [], [], [], [];
      addedUsersCache, addedConversationsCache, addedParticipantsCache := {}, {}, {};
      requested, participantEvents, addedMessages := [], map[], 0;
    }

    method AddUserIfNecessary(userId: string)
      requires Valid()
      modifies this
      ensures Valid() && State() == AddUser(old(State()), userId)
      ensures requested == old(requested) + (if userId in old(users) then [] else [userId])
    {
      if userId !in addedUsersCache {
        if userId !in users {
          users := users + {userId};
          requested := requested + [userId];
          addedUsersCache := addedUsersCache + {userId};
        }
      }
    }

    method AddParticipantIfNecessary(userId: string, conversationId: string,
                                     startTime: Option<int>, endTime: Option<int>, addedBy: Option<string>)
      requires Valid()
      modifies this
      ensures Valid() && requested == old(requested)
      ensures State() == AddParticipant(old(State()), userId, conversationId, startTime, endTime, addedBy)
    {
      var p := Pair(userId, conversationId);
      if p !in addedParticipantsCache {
        InsertParticipant(p);
      }
      if startTime.Some? {
        AppendFact(p, Fact(StartFact, startTime.value));
      }
      if endTime.Some? {
        AppendFact(p, Fact(EndFact, endTime.value));
      }
      if Given(addedBy) {
        SetAddedBy(p, addedBy);
      }
    }

    /** The insert of a participants row with no adder, start or end, and of its empty
        fact list. */
    method InsertParticipant(p: Pair)
      requires Valid() && p !in participants
      modifies this
      ensures Valid() && requested == old(requested)
      ensures State() == Enroll(old(State()), p)
    {
      participants := participants[p := Unjoined];
      addedParticipantsCache := addedParticipantsCache + {p};
      participantEvents := participantEvents[p := []];
    }

    /** The update of a participants row's added_by. */
    method SetAddedBy(p: Pair, addedBy: Option<string>)
      requires Valid() && p in participants
      modifies this
      ensures Valid() && requested == old(requested)
      ensures State() == Adopt(old(State()), p, addedBy)
    {
      participants := participants[p := participants[p].(addedBy := addedBy)];
    }

    /** The append of one fact to participant_events[participant]. */
    method AppendFact(p: Pair, f: Fact)
      requires Valid() && p in participants
      modifies this
      ensures Valid() && requested == old(requested)
      ensures State() == Record(old(State()), p, f)
    {
      participantEvents := participantEvents[p := participantEvents[p] + [f]];
    }

    method AddConversationIfNecessary(conversationId: string, group: bool, otherPerson: Option<string>,
                                      firstTime: Option<int>, addedBy: Option<string>)
      requires Valid() && (firstTime.Some? <==> Given(addedBy))
      modifies this
      ensures Valid() && requested == old(requested)
      ensures State() == AddConversation(old(State()), conversationId, group, otherPerson, firstTime, addedBy)
    {
      if conversationId !in addedConversationsCache {
        conversations := conversations[conversationId := ConversationRecord(Kind(group), otherPerson, None, None, None)];
        addedConversationsCache := addedConversationsCache + {conversationId};
      }
      if firstTime.Some? && Given(addedBy) {
        conversations := conversations[conversationId := conversations[conversationId].(
          firstTime := firstTime, addedBy := addedBy, createdByMe := Some(false))];
      }
    }

    /** add_user_if_necessary then add_participant_if_necessary with no times and no
        adder, the pair of calls add_message makes for each user it mentions. */
    method MentionUser(userId: string, conversationId: string)
      requires Valid()
      modifies this
      ensures Valid() && old(requested) <= requested
      ensures State() == Mention(old(State()), userId, conversationId)
    {
      AddUserIfNecessary(userId);
      AddParticipantIfNecessary(userId, conversationId, None, None, None);
    }

    /** The start of add_message: the conversation row and the account's participation. */
    method OpenConversation(ev: Event, group: bool)
      requires Valid() && Readable(ev, group, accountId)
      modifies this
      ensures Valid() && requested == old(requested)
      ensures State() == Prelude(old(State()), ev, group, accountId)
    {
      var recipient := if group then None else if ev.senderId.value == accountId then ev.recipientId else ev.senderId;
      AddConversationIfNecessary(ev.conversationId, group, recipient, None, None);
      AddParticipantIfNecessary(accountId, ev.conversationId, None, None, None);
    }

    /** add_message: the counter of added messages goes up unless a media URL raised. */
    method AddMessage(ev: Event, group: bool) returns (error: Option<MediaError>)
      requires Valid() && Readable(ev, group, accountId)
      modifies this
      ensures Valid() && old(requested) <= requested
      ensures Outcome(State(), error) == Ingest(old(State()), ev, group, accountId)
    {
      OpenConversation(ev, group);
      error := HandleEvent(ev, group);
      if error.None? {
        addedMessages := addedMessages + 1;
      }
    }

    /** The branch of add_message for the event's type. */
    method HandleEvent(ev: Event, group: bool) returns (error: Option<MediaError>)
      requires Valid() && Readable(ev, group, accountId)
      modifies this
      ensures Valid() && old(requested) <= requested
      ensures Outcome(State(), error) == Handle(old(State()), ev, group, accountId)
    {
      error := None;
      match ev.body {
        case MessageCreate(_, _, _, _, _) =>
          error := CreateMessage(ev, group);
        case ConversationNameUpdate(_, _) =>
          UpdateName(ev);
        case ParticipantsJoin(_, _) =>
          JoinParticipants(ev);
        case ParticipantsLeave(ids) =>
          LeaveAll(ids, ev.conversationId, ev.createdAt);
        case JoinConversation(_, _) =>
          JoinConversation(ev, group);
        case OtherEvent(_) =>
      }
    }

    /** The conversationNameUpdate branch of add_message. */
    method UpdateName(ev: Event)
      requires Valid() && ev.body.ConversationNameUpdate?
      modifies this
      ensures Valid() && old(requested) <= requested
      ensures State() == NameUpdated(old(State()), ev)
    {
      var init := ev.body.initiatingUserId;
      MentionUser(init, ev.conversationId);
      nameUpdates := nameUpdates + [NameUpdateRecord(ev.createdAt, init, ev.body.name, ev.conversationId)];
    }

    /** The participantsJoin branch of add_message. */
    method JoinParticipants(ev: Event)
      requires Valid() && ev.body.ParticipantsJoin?
      modifies this
      ensures Valid() && old(requested) <= requested
      ensures State() == ParticipantsJoined(old(State()), ev)
    {
      var init := ev.body.initiatingUserId;
      AddParticipantIfNecessary(init, ev.conversationId, None, None, None);
      AddUserIfNecessary(init);
      JoinAll(ev.body.userIds, ev.conversationId, ev.createdAt, init);
    }

    /** The joinConversation branch of add_message. */
    method JoinConversation(ev: Event, group: bool)
      requires Valid() && ev.body.JoinConversation? && Readable(ev, group, accountId)
      modifies this
      ensures Valid() && old(requested) <= requested
      ensures State() == ConversationJoined(old(State()), ev, group, accountId)
    {
      var init, conv := ev.body.initiatingUserId, ev.conversationId;
      var recipient := if group then None else if ev.senderId.value == accountId then ev.recipientId else ev.senderId;
      MentionUser(init, conv);
      AddConversationIfNecessary(conv, group, recipient, Some(ev.createdAt), Some(init));
      AddParticipantIfNecessary(accountId, conv, Some(ev.createdAt), None, Some(init));
      JoinSnapshot(ev.body.participantsSnapshot, conv);
    }

    /** The messageCreate branch of add_message. */
    method CreateMessage(ev: Event, group: bool) returns (error: Option<MediaError>)
      requires Valid() && ev.body.MessageCreate? && ev.senderId.Some? && (!group ==> ev.recipientId.Some?)
      modifies this
      ensures Valid() && old(requested) <= requested
      ensures Outcome(State(), error) == MessageCreated(old(State()), ev, group)
    {
      var m, conv, sender := ev.body, ev.conversationId, ev.senderId.value;
      MentionUsers([sender] + (if group then [] else [ev.recipientId.value]), conv);
      messages := messages + [MessageRecord(m.id, ev.createdAt, sender, conv, m.text)];
      AddReactionRows(m.reactions, conv, m.id);
      assert State() == Posted(old(State()), ev, group);
      error := AddMediaRows(m.mediaUrls, m.id, group);
      if error.None? {
        AddLinkRows(m.urls, m.id);
      }
    }

    /** The loop over the sender and, outside groups, the recipient of a message. */
    method MentionUsers(ids: seq<string>, conversation: string)
      requires Valid()
      modifies this
      ensures Valid() && old(requested) <= requested
      ensures State() == MentionAll(old(State()), ids, conversation)
    {
      for i := 0 to |ids|
        invariant Valid() && old(requested) <= requested
        invariant State() == MentionAll(old(State()), ids[..i], conversation)
      {
        assert ids[..i + 1][..i] == ids[..i];
        MentionUser(ids[i], conversation);
      }
      assert ids[..|ids|] == ids;
    }

    /** The loop over a message's reactions. */
    method AddReactionRows(xs: seq<Reaction>, conversation: string, message: string)
      requires Valid()
      modifies this
      ensures Valid() && old(requested) <= requested
      ensures State() == AddReactions(old(State()), xs, conversation, message)
    {
      for i := 0 to |xs|
        invariant Valid() && old(requested) <= requested
        invariant State() == AddReactions(old(State()), xs[..i], conversation, message)
      {
        assert xs[..i + 1][..i] == xs[..i];
        ghost var before := State();
        MentionUser(xs[i].senderId, conversation);
        InsertReaction(ReactionRow(xs[i], message));
        assert State() == React(before, xs[i], conversation, message);
      }
      assert xs[..|xs|] == xs;
    }

    /** The insert of one media row. */
    method InsertMedia(row: MediaRecord)
      requires Valid()
      modifies this
      ensures Valid() && requested == old(requested)
      ensures State() == old(State()).(media := old(media) + [row])
    {
      media := media + [row];
    }

    /** The insert of one reactions row. */
    method InsertReaction(row: ReactionRecord)
      requires Valid()
      modifies this
      ensures Valid() && requested == old(requested)
      ensures State() == old(State()).(reactions := old(reactions) + [row])
    {
      reactions := reactions + [row];
    }

    /** The loop over a message's media URLs, which stops at the first that raises. */
    method AddMediaRows(urls: seq<string>, message: string, group: bool) returns (error: Option<MediaError>)
      requires Valid()
      modifies this
      ensures Valid() && requested == old(requested)
      ensures State() == old(State()).(media := old(media) + Collect(urls, MediaStep(message, group)).rows)
      ensures error == Collect(urls, MediaStep(message, group)).error
    {
      var step := MediaStep(message, group);
      error := None;
      var i := 0;
      while i < |urls|
        invariant 0 <= i <= |urls| && Collect(urls[..i], step).error.None?
        invariant Valid() && requested == old(requested)
        invariant State() == old(State()).(media := old(media) + Collect(urls[..i], step).rows)
      {
        CollectNext(urls, i, step);
        match step(urls[i]) {
          case Failure(e) =>
            error := Some(e);
            CollectStops(urls, i + 1, step);
            return;
          case Success(row) =>
            InsertMedia(row);
        }
        i := i + 1;
      }
      assert urls[..|urls|] == urls;
    }

    /** The loop over a message's links. */
    method AddLinkRows(xs: seq<Link>, message: string)
      requires Valid()
      modifies this
      ensures Valid() && requested == old(requested)
      ensures State() == old(State()).(links := old(links) + LinkRows(xs, message))
    {
      for i := 0 to |xs|
        invariant Valid() && requested == old(requested)
        invariant State() == old(State()).(links := old(links) + LinkRows(xs[..i], message))
      {
        assert xs[..i + 1][..i] == xs[..i];
        links := links + [LinkRow(xs[i], message)];
      }
      assert xs[..|xs|] == xs;
    }

    /** The loop of participantsJoin. */
    method JoinAll(ids: seq<string>, conversation: string, time: int, adder: string)
      requires Valid()
      modifies this
      ensures Valid() && old(requested) <= requested
      ensures State() == AddJoined(old(State()), ids, conversation, time, adder)
    {
      for i := 0 to |ids|
        invariant Valid() && old(requested) <= requested
        invariant State() == AddJoined(old(State()), ids[..i], conversation, time, adder)
      {
        assert ids[..i + 1][..i] == ids[..i];
        AddUserIfNecessary(ids[i]);
        AddParticipantIfNecessary(ids[i], conversation, Some(time), None, Some(adder));
      }
      assert ids[..|ids|] == ids;
    }

    /** The loop of participantsLeave. */
    method LeaveAll(ids: seq<string>, conversation: string, time: int)
      requires Valid()
      modifies this
      ensures Valid() && old(requested) <= requested
      ensures State() == AddLeft(old(State()), ids, conversation, time)
    {
      for i := 0 to |ids|
        invariant Valid() && old(requested) <= requested
        invariant State() == AddLeft(old(State()), ids[..i], conversation, time)
      {
        assert ids[..i + 1][..i] == ids[..i];
        AddUserIfNecessary(ids[i]);
        AddParticipantIfNecessary(ids[i], conversation, None, Some(time), None);
      }
      assert ids[..|ids|] == ids;
    }

    /** The loop over a joinConversation's participants snapshot. */
    method JoinSnapshot(ids: seq<string>, conversation: string)
      requires Valid()
      modifies this
      ensures Valid() && old(requested) <= requested
      ensures State() == AddSnapshot(old(State()), ids, conversation, accountId)
    {
      for i := 0 to |ids|
        invariant Valid() && old(requested) <= requested
        invariant State() == AddSnapshot(old(State()), ids[..i], conversation, accountId)
      {
        assert ids[..i + 1][..i] == ids[..i];
        if ids[i] != accountId {
          AddUserIfNecessary(ids[i]);
          AddParticipantIfNecessary(ids[i], conversation, Some(Zeroes), None, None);
        }
      }
      assert ids[..|ids|] == ids;
    }

    /** The reconciliation loop of finalize: every participant with a fact list gets the
        start and end its facts reconcile to (the update finds no row for a pair without
        one). */
    method Finalize()
      requires Valid()
      modifies this
      ensures Valid() && requested == old(requested)
      ensures State() == Finalized(old(State()))
    {
      var pending := participantEvents.Keys;
      while pending != {}
        invariant pending <= participantEvents.Keys
        invariant Valid() && requested == old(requested)
        invariant State() == old(State()).(participants := participants)
        invariant participants.Keys == old(participants).Keys
        invariant forall p :: p in participants ==>
          participants[p] == if p in pending then old(participants)[p]
                             else Closed(old(participants)[p], participantEvents[p])
        decreases pending
      {
        var p :| p in pending;
        var span := Reconcile.Reconcile(participantEvents[p]);
        if p in participants {
          participants := participants[p := participants[p].(startTime := span.start, endTime := span.end)];
        }
        pending := pending - {p};
      }
    }
  }
}

/** The message traversal of the reader (traverse_messages): one page of a conversation's
    (or a user's, or everybody's) messages around a cursor, merged with the conversation
    events that fall in the same stretch of time.

    The SQL store is a set of in-memory tables; every query becomes "filter, order by,
    limit". SQL leaves the order of rows with equal times open, and the model resolves it
    the way a stable sort does. */
module Traversal {
  import opened Wrappers
  import opened Sorting
  import opened Timestamps
  import Search

  /** MESSAGES_PER_PAGE. */
  const MessagesPerPage: nat := 40

  /** int(MESSAGES_PER_PAGE / 2), the size of each half of an `at` page. */
  const BatchSize: nat := 20

  datatype MessageRow = MessageRow(id: nat, sentTime: int, conversation: string, sender: nat, content: string)

  datatype NameUpdateRow = NameUpdateRow(updateTime: int, initiator: nat, newName: string, conversation: string)

  /** A participants row: a user's membership of a conversation. Its aggregate columns
      (messages_sent) are filled by a script outside the model and are given here. */
  datatype ParticipantRow = ParticipantRow(
    participant: nat, conversation: string, startTime: Option<int>, endTime: Option<int>,
    addedBy: Option<nat>, messagesSent: nat)

  datatype Store = Store(messages: seq<MessageRow>, nameUpdates: seq<NameUpdateRow>, participants: seq<ParticipantRow>)

  /** The four kinds of MessageLike: a message, a rename, a join and a leave. */
  datatype Item =
    | Message(m: MessageRow)
    | NameUpdate(u: NameUpdateRow)
    | ParticipantJoin(p: ParticipantRow)
    | ParticipantLeave(p: ParticipantRow)

  /** sort_by_timestamp. A join or leave is only ever selected when its time is present. */
  function Time(x: Item): int
  {
    match x
    case Message(m) => m.sentTime
    case NameUpdate(u) => u.updateTime
    case ParticipantJoin(p) => p.startTime.GetOr(Zeroes)
    case ParticipantLeave(p) => p.endTime.GetOr(Zeroes)
  }

  /** The key of "order by sent_time desc". */
  function Descending(x: Item): int
  {
    -Time(x)
  }

  function MessageItems(db: Store): seq<Item>
  {
    MapSeq(db.messages, (m: MessageRow) => Message(m))
  }

  function NameUpdateItems(db: Store): seq<Item>
  {
    MapSeq(db.nameUpdates, (u: NameUpdateRow) => NameUpdate(u))
  }

  function JoinItems(db: Store): seq<Item>
  {
    MapSeq(db.participants, (p: ParticipantRow) => ParticipantJoin(p))
  }

  function LeaveItems(db: Store): seq<Item>
  {
    MapSeq(db.participants, (p: ParticipantRow) => ParticipantLeave(p))
  }

  /** The arguments of traverse_messages. The empty conversation string means "every
      conversation", an absent user "every user", the empty search "no search". */
  datatype Query = Query(conversation: string, user: Option<nat>, after: Cursor, before: Cursor, at: Cursor, search: string)

  /** The three assertions at the top of traverse_messages. */
  datatype TraverseError = NoTimeGiven | NotUnidirectional | TimeOutOfRange

  /** Python's `after or before or at`. */
  function FirstSet(q: Query): Cursor
  {
    if IsSet(q.after) then q.after else if IsSet(q.before) then q.before else q.at
  }

  function CheckCursors(q: Query): Option<TraverseError>
  {
    if !(IsSet(q.after) || IsSet(q.before) || IsSet(q.at)) then Some(NoTimeGiven)
    else if !((IsSet(q.after) != IsSet(q.before)) || (IsSet(q.before) != IsSet(q.at))) then Some(NotUnidirectional)
    else if !(q.after == Beginning || q.before == End || Zeroes <= Rank(FirstSet(q)) <= Nines) then Some(TimeOutOfRange)
    else None
  }

  /** What the assertions demand: some cursor, not all three of them (the exclusive-or
      formula rejects nothing else), and a time within the sentinels unless `after` is
      "beginning" or `before` is "end". */
  lemma CheckCursorsMeaning(q: Query)
    ensures CheckCursors(q).None? <==>
      (IsSet(q.after) || IsSet(q.before) || IsSet(q.at))
      && !(IsSet(q.after) && IsSet(q.before) && IsSet(q.at))
      && (q.after == Beginning || q.before == End || Zeroes <= Rank(FirstSet(q)) <= Nines)
    ensures CheckCursors(q) == Some(NotUnidirectional) <==> IsSet(q.after) && IsSet(q.before) && IsSet(q.at)
  {
  }

  predicate InConversation(conversation: string, c: string)
  {
    conversation == "" || c == conversation
  }

  predicate ByUser(user: Option<nat>, u: nat)
  {
    user.None? || u == user.value
  }

  /** The where clause of the message queries; `matched` is the set of message ids the
      full-text index returns for the search, when there is one. */
  predicate MessageMatches(conversation: string, user: Option<nat>, matched: Option<set<nat>>, x: Item)
  {
    x.Message? && InConversation(conversation, x.m.conversation) && ByUser(user, x.m.sender)
    && (matched.None? || x.m.id in matched.value)
  }

  /** The where clause of the event queries, apart from the time window; SQL's comparison
      with a null time is never true, so a join or leave needs its time. */
  predicate EventMatches(conversation: string, user: Option<nat>, x: Item)
  {
    match x
    case Message(_) => false
    case NameUpdate(u) => InConversation(conversation, u.conversation) && ByUser(user, u.initiator)
    case ParticipantJoin(p) => InConversation(conversation, p.conversation) && ByUser(user, p.participant) && p.startTime.Some?
    case ParticipantLeave(p) => InConversation(conversation, p.conversation) && ByUser(user, p.participant) && p.endTime.Some?
  }

  function Matching(db: Store, conversation: string, user: Option<nat>, matched: Option<set<nat>>): (r: seq<Item>)
    ensures forall x :: x in r <==> x in MessageItems(db) && MessageMatches(conversation, user, matched, x)
  {
    Filter(MessageItems(db), (x: Item) => MessageMatches(conversation, user, matched, x))
  }

  /** The message rows a query fetches, and the two edge flags. */
  datatype Selection = Selection(messages: seq<Item>, atFirstPage: bool, atLastPage: bool)

  function SelectMessages(msgs: seq<Item>, q: Query): (sel: Selection)
    requires IsSet(q.after) || IsSet(q.before) || IsSet(q.at)
    ensures forall x :: x in sel.messages ==> x in msgs
  {
    if IsSet(q.at) then
      var first := Take(SortBy(AtOrBefore(msgs, q.at), Descending), BatchSize);
      var second := Take(SortBy(Later(msgs, q.at), Time), BatchSize);
      Selection(first + second, |first| < BatchSize, |second| < BatchSize)
    else if IsSet(q.before) then
      var page := Take(SortBy(BeforeCandidates(msgs, q.before), Descending), MessagesPerPage);
      var short := |page| < MessagesPerPage;
      Selection(page, short && !IsSet(q.after), short && IsSet(q.after))
    else
      var page := Take(SortBy(AfterCandidates(msgs, q.after), Time), MessagesPerPage);
      Selection(page, false, |page| < MessagesPerPage)
  }

  /** The first half of an `at` page comes from these: a message exactly at the pivot
      belongs here. */
  function AtOrBefore(msgs: seq<Item>, at: Cursor): (r: seq<Item>)
    ensures forall x :: x in r <==> x in msgs && Time(x) <= Rank(at)
    ensures multiset(r) <= multiset(msgs)
  {
    Filter(msgs, (x: Item) => Time(x) <= Rank(at))
  }

  /** The second half of an `at` page comes from these. */
  function Later(msgs: seq<Item>, at: Cursor): (r: seq<Item>)
    ensures forall x :: x in r <==> x in msgs && Time(x) > Rank(at)
    ensures multiset(r) <= multiset(msgs)
  {
    Filter(msgs, (x: Item) => Time(x) > Rank(at))
  }

  /** The messages "after" may return: those later than the cursor, or all for "beginning". */
  function AfterCandidates(msgs: seq<Item>, after: Cursor): (r: seq<Item>)
    ensures forall x :: x in r <==> x in msgs && (after == Beginning || Time(x) > Rank(after))
    ensures multiset(r) <= multiset(msgs)
  {
    if after != Beginning then Filter(msgs, (x: Item) => Time(x) > Rank(after)) else msgs
  }

  /** The messages "before" may return: those earlier than the cursor, or all for "end". */
  function BeforeCandidates(msgs: seq<Item>, before: Cursor): (r: seq<Item>)
    ensures forall x :: x in r <==> x in msgs && (before == End || Time(x) < Rank(before))
    ensures multiset(r) <= multiset(msgs)
  {
    if before != End then Filter(msgs, (x: Item) => Time(x) < Rank(before)) else msgs
  }

  /** Python's min(x.sort_by_timestamp for x in s). */
  function MinTime(s: seq<Item>): (t: int)
    requires s != []
    ensures forall i :: 0 <= i < |s| ==> t <= Time(s[i])
    ensures exists i :: 0 <= i < |s| && Time(s[i]) == t
  {
    if |s| == 1 then Time(s[0])
    else
      var t := MinTime(s[1..]);
      assert forall i :: 1 <= i < |s| ==> s[i] == s[1..][i - 1];
      if Time(s[0]) <= t then Time(s[0]) else t
  }

  /** Python's max(x.sort_by_timestamp for x in s). */
  function MaxTime(s: seq<Item>): (t: int)
    requires s != []
    ensures forall i :: 0 <= i < |s| ==> Time(s[i]) <= t
    ensures exists i :: 0 <= i < |s| && Time(s[i]) == t
  {
    if |s| == 1 then Time(s[0])
    else
      var t := MaxTime(s[1..]);
      assert forall i :: 1 <= i < |s| ==> s[i] == s[1..][i - 1];
      if Time(s[0]) >= t then Time(s[0]) else t
  }

  /** sequence_start falls through to the minimum message time. */
  predicate StartFromMessages(q: Query, sel: Selection)
  {
    !(q.after == Beginning || sel.atFirstPage) && !IsSet(q.after)
  }

  /** sequence_end falls through to the maximum message time. */
  predicate EndFromMessages(q: Query, sel: Selection)
  {
    !(q.before == End || sel.atLastPage) && !IsSet(q.before)
  }

  function WindowStart(q: Query, sel: Selection): int
    requires StartFromMessages(q, sel) ==> sel.messages != []
  {
    if q.after == Beginning || sel.atFirstPage then Zeroes
    else if IsSet(q.after) then Rank(q.after)
    else MinTime(sel.messages)
  }

  function WindowEnd(q: Query, sel: Selection): int
    requires EndFromMessages(q, sel) ==> sel.messages != []
  {
    if q.before == End || sel.atLastPage then Nines
    else if IsSet(q.before) then Rank(q.before)
    else MaxTime(sel.messages)
  }

  /** min and max are never taken over an empty page: whenever the window falls through to
      the message times, the selection is full. */
  lemma WindowDefined(msgs: seq<Item>, q: Query)
    requires CheckCursors(q).None?
    ensures StartFromMessages(q, SelectMessages(msgs, q)) ==> |SelectMessages(msgs, q).messages| >= BatchSize
    ensures EndFromMessages(q, SelectMessages(msgs, q)) ==> |SelectMessages(msgs, q).messages| >= BatchSize
  {
  }

  /** The items of `items` that the event where clause selects, strictly inside (lo, hi). */
  function InWindow(items: seq<Item>, conversation: string, user: Option<nat>, lo: int, hi: int): (r: seq<Item>)
    ensures forall x :: x in r <==> x in items && EventMatches(conversation, user, x) && lo < Time(x) < hi
    ensures multiset(r) <= multiset(items)
  {
    if items == [] then []
    else
      assert items == [items[0]] + items[1..];
      (if EventMatches(conversation, user, items[0]) && lo < Time(items[0]) < hi then [items[0]] else [])
      + InWindow(items[1..], conversation, user, lo, hi)
  }

  /** A narrower window selects a sub-collection. */
  lemma {:induction false} InWindowWider(items: seq<Item>, conversation: string, user: Option<nat>, lo: int, hi: int, lo': int, hi': int)
    requires lo' <= lo && hi <= hi'
    ensures multiset(InWindow(items, conversation, user, lo, hi)) <= multiset(InWindow(items, conversation, user, lo', hi'))
  {
    if items != [] {
      InWindowWider(items[1..], conversation, user, lo, hi, lo', hi');
    }
  }

  lemma EventsWider(db: Store, conversation: string, user: Option<nat>, lo: int, hi: int, lo': int, hi': int)
    requires lo' <= lo && hi <= hi'
    ensures multiset(Events(db, conversation, user, lo, hi)) <= multiset(Events(db, conversation, user, lo', hi'))
  {
    InWindowWider(NameUpdateItems(db), conversation, user, lo, hi, lo', hi');
    InWindowWider(JoinItems(db), conversation, user, lo, hi, lo', hi');
    InWindowWider(LeaveItems(db), conversation, user, lo, hi, lo', hi');
  }

  /** The renames, joins and leaves of the window, in the order the three queries add them. */
  function Events(db: Store, conversation: string, user: Option<nat>, lo: int, hi: int): seq<Item>
  {
    InWindow(NameUpdateItems(db), conversation, user, lo, hi)
    + InWindow(JoinItems(db), conversation, user, lo, hi)
    + InWindow(LeaveItems(db), conversation, user, lo, hi)
  }

  /** The message ids the full-text index matches for the query's search, if it has one. */
  function Matched(q: Query, index: string -> set<nat>): Option<set<nat>>
  {
    if q.search != "" then Some(index(Search.ParseSearch(q.search))) else None
  }

  /** traverse_messages' "results": the selected messages and, without a search, the events
      of the window, merged by a stable sort on time. `index` stands for the full-text
      index: the ids of the messages matching a sanitised search. */
  function Traverse(db: Store, q: Query, index: string -> set<nat>): (r: Result<seq<Item>, TraverseError>)
    ensures r.Success? <==> CheckCursors(q).None?
    ensures r.Failure? ==> r.error == CheckCursors(q).value
    ensures r.Success? ==> SortedBy(r.value, Time)
  {
    match CheckCursors(q)
    case Some(e) => Failure(e)
    case None =>
      var msgs := Matching(db, q.conversation, q.user, Matched(q, index));
      WindowDefined(msgs, q);
      var sel := SelectMessages(msgs, q);
      var events :=
        if q.search != "" then []
        else Events(db, q.conversation, q.user, WindowStart(q, sel), WindowEnd(q, sel));
      Success(SortBy(sel.messages + events, Time))
  }

  /** `after` alone: up to 40 of the messages later than the cursor (any, for "beginning"),
      the earliest ones, ascending; fewer than 40 marks the last page. */
  lemma AfterPage(msgs: seq<Item>, q: Query)
    requires IsSet(q.after) && !IsSet(q.before) && !IsSet(q.at)
    ensures TakesNearest(SelectMessages(msgs, q).messages, AfterCandidates(msgs, q.after), Time, MessagesPerPage)
    ensures SelectMessages(msgs, q).atLastPage <==> |AfterCandidates(msgs, q.after)| < MessagesPerPage
    ensures !SelectMessages(msgs, q).atFirstPage
  {
    TakeSortByNearest(AfterCandidates(msgs, q.after), Time, MessagesPerPage);
  }

  /** `before` (with or without `after`, but without `at`): up to 40 of the messages earlier
      than the cursor (any, for "end"), the latest ones, descending. Fewer than 40 marks the
      first page, or the last page when `after` is set as well. */
  lemma BeforePage(msgs: seq<Item>, q: Query)
    requires IsSet(q.before) && !IsSet(q.at)
    ensures TakesNearest(SelectMessages(msgs, q).messages, BeforeCandidates(msgs, q.before), Descending, MessagesPerPage)
    ensures SelectMessages(msgs, q).atFirstPage <==>
      |BeforeCandidates(msgs, q.before)| < MessagesPerPage && !IsSet(q.after)
    ensures SelectMessages(msgs, q).atLastPage <==>
      |BeforeCandidates(msgs, q.before)| < MessagesPerPage && IsSet(q.after)
  {
    TakeSortByNearest(BeforeCandidates(msgs, q.before), Descending, MessagesPerPage);
  }

  /** `at`: the 20 messages nearest the pivot at or before it, latest first, then the 20
      nearest after it, earliest first; each half that comes up short sets its own flag. */
  lemma AtPage(msgs: seq<Item>, q: Query)
    requires IsSet(q.at)
    ensures var k := if |AtOrBefore(msgs, q.at)| < BatchSize then |AtOrBefore(msgs, q.at)| else BatchSize;
      var page := SelectMessages(msgs, q).messages;
      && k <= |page|
      && TakesNearest(page[..k], AtOrBefore(msgs, q.at), Descending, BatchSize)
      && TakesNearest(page[k..], Later(msgs, q.at), Time, BatchSize)
    ensures SelectMessages(msgs, q).atFirstPage <==> |AtOrBefore(msgs, q.at)| < BatchSize
    ensures SelectMessages(msgs, q).atLastPage <==> |Later(msgs, q.at)| < BatchSize
  {
    var first := Take(SortBy(AtOrBefore(msgs, q.at), Descending), BatchSize);
    var second := Take(SortBy(Later(msgs, q.at), Time), BatchSize);
    TakeSortByNearest(AtOrBefore(msgs, q.at), Descending, BatchSize);
    TakeSortByNearest(Later(msgs, q.at), Time, BatchSize);
    assert (first + second)[..|first|] == first;
    assert (first + second)[|first|..] == second;
  }

  function EventItems(db: Store): seq<Item>
  {
    NameUpdateItems(db) + JoinItems(db) + LeaveItems(db)
  }

  /** Without a search the page holds exactly the selected messages and, of the renames,
      joins and leaves of the store, exactly those that match the filters and lie strictly
      inside the window. */
  lemma EventsInWindow(db: Store, q: Query, index: string -> set<nat>)
    requires CheckCursors(q).None? && q.search == ""
    ensures var msgs := Matching(db, q.conversation, q.user, None);
      var sel := SelectMessages(msgs, q);
      var lo, hi := WindowStart(q, sel), WindowEnd(q, sel);
      && (forall x: Item :: x.Message? ==> (x in Traverse(db, q, index).value <==> x in sel.messages))
      && (forall x: Item :: !x.Message? ==>
           (x in Traverse(db, q, index).value <==> x in EventItems(db) && EventMatches(q.conversation, q.user, x) && lo < Time(x) < hi))
  {
    var msgs := Matching(db, q.conversation, q.user, None);
    assert Matched(q, index) == None;
    var sel := SelectMessages(msgs, q);
    var lo, hi := WindowStart(q, sel), WindowEnd(q, sel);
    var ev := Events(db, q.conversation, q.user, lo, hi);
    var page := SortBy(sel.messages + ev, Time);
    assert Traverse(db, q, index) == Success(page);
    EventsMembership(db, q.conversation, q.user, lo, hi);
    forall x: Item ensures x in page <==> x in sel.messages || x in ev {
      assert x in sel.messages + ev <==> x in sel.messages || x in ev;
    }
  }

  lemma EventsMembership(db: Store, conversation: string, user: Option<nat>, lo: int, hi: int)
    ensures forall x :: x in Events(db, conversation, user, lo, hi) <==>
      x in EventItems(db) && EventMatches(conversation, user, x) && lo < Time(x) < hi
  {
  }

  /** With a search the page is exactly the selected messages among those the index
      matched, sorted by time, and holds no events. */
  lemma SearchHasNoEvents(db: Store, q: Query, index: string -> set<nat>)
    requires CheckCursors(q).None? && q.search != ""
    ensures Traverse(db, q, index).value
      == SortBy(SelectMessages(Matching(db, q.conversation, q.user, Matched(q, index)), q).messages, Time)
    ensures forall x :: x in Traverse(db, q, index).value ==>
      x.Message? && x.m.id in index(Search.ParseSearch(q.search))
  {
    var matched := Matched(q, index);
    var msgs := Matching(db, q.conversation, q.user, matched);
    var sel := SelectMessages(msgs, q);
    assert Traverse(db, q, index) == Success(SortBy(sel.messages + [], Time));
    assert sel.messages + [] == sel.messages;
  }
}

/** Scrolling through a conversation with the traversal: from "beginning", ask for the page
    after the last item shown until a page comes back empty; or from "end", ask for the page
    before the first item shown. Either way every message and event is shown exactly once
    and in time order, provided no two of them share a timestamp and none sits on a
    sentinel. */
module Scroll {
  import opened Wrappers
  import opened Sorting
  import opened Timestamps
  import opened Traversal

  /** Everything an unsearched traversal can show for one conversation and user filter: the
      matching messages and the matching events of the widest window. */
  function Shown(db: Store, conversation: string, user: Option<nat>): seq<Item>
  {
    Matching(db, conversation, user, None) + Events(db, conversation, user, Zeroes, Nines)
  }

  /** The whole conversation in time order. */
  function Timeline(db: Store, conversation: string, user: Option<nat>): seq<Item>
  {
    SortBy(Shown(db, conversation, user), Time)
  }

  /** No two shown items share a time, and every time lies strictly inside the sentinels. */
  predicate Spread(db: Store, conversation: string, user: Option<nat>)
  {
    var s := Shown(db, conversation, user);
    DistinctKeys(s, Time) && forall x :: x in s ==> Zeroes < Time(x) < Nines
  }

  function ForwardQuery(conversation: string, user: Option<nat>, cursor: Cursor): Query
  {
    Query(conversation, user, cursor, Unset, Unset, "")
  }

  function BackwardQuery(conversation: string, user: Option<nat>, cursor: Cursor): Query
  {
    Query(conversation, user, Unset, cursor, Unset, "")
  }

  predicate ForwardCursor(cursor: Cursor)
  {
    cursor == Beginning || (cursor.Stamp? && Zeroes <= cursor.t <= Nines)
  }

  predicate BackwardCursor(cursor: Cursor)
  {
    cursor == End || (cursor.Stamp? && Zeroes <= cursor.t <= Nines)
  }

  /** The time a forward cursor stands for. */
  function Low(cursor: Cursor): int
    requires ForwardCursor(cursor)
  {
    if cursor == Beginning then Zeroes else cursor.t
  }

  /** The time a backward cursor stands for. */
  function High(cursor: Cursor): int
    requires BackwardCursor(cursor)
  {
    if cursor == End then Nines else cursor.t
  }

  lemma ShownParts(db: Store, conversation: string, user: Option<nat>)
    ensures forall x :: x in Shown(db, conversation, user) <==>
      x in Matching(db, conversation, user, None) || x in Events(db, conversation, user, Zeroes, Nines)
    ensures forall x :: x in Matching(db, conversation, user, None) ==> x.Message?
    ensures forall x :: x in Events(db, conversation, user, Zeroes, Nines) ==> !x.Message?
    ensures multiset(Matching(db, conversation, user, None)) <= multiset(Shown(db, conversation, user))
  {
    EventsMembership(db, conversation, user, Zeroes, Nines);
  }

  // ----- The set-level argument, over the pieces of a page -----

  /** S is made of the messages M and the events E, each at a distinct time strictly inside
      the sentinels. */
  ghost predicate ShownShape(S: seq<Item>, M: seq<Item>, E: seq<Item>)
  {
    && (forall x :: x in S <==> x in M || x in E)
    && (forall x :: x in M ==> x.Message?)
    && (forall x :: x in E ==> !x.Message?)
    && (forall x :: x in S ==> Zeroes < Time(x) < Nines)
    && DistinctKeys(S, Time)
  }

  /** The messages of a forward page: `cands` are the messages after lo, `msgs` the nearest
      of them; a short page (not `full`) reaches to the upper sentinel, a full one to its
      last message. */
  ghost predicate AfterSelection(M: seq<Item>, cands: seq<Item>, msgs: seq<Item>, lo: int, hi: int, full: bool)
  {
    && (forall x :: x in cands <==> x in M && lo < Time(x))
    && (forall x :: x in msgs ==> x in cands)
    && (forall x, y :: x in msgs && y in cands && y !in msgs ==> Time(x) < Time(y))
    && Zeroes <= lo
    && (full ==> (exists i :: 0 <= i < |msgs| && Time(msgs[i]) == hi) && forall x :: x in msgs ==> Time(x) <= hi)
    && (!full ==> hi == Nines && forall x :: x in cands ==> x in msgs)
  }

  /** The messages of a backward page: `cands` are the messages before hi, `msgs` the
      nearest of them; a short page reaches down to the lower sentinel, a full one to its
      first message. */
  ghost predicate BeforeSelection(M: seq<Item>, cands: seq<Item>, msgs: seq<Item>, lo: int, hi: int, full: bool)
  {
    && (forall x :: x in cands <==> x in M && Time(x) < hi)
    && (forall x :: x in msgs ==> x in cands)
    && (forall x, y :: x in msgs && y in cands && y !in msgs ==> Time(x) > Time(y))
    && hi <= Nines
    && (full ==> (exists i :: 0 <= i < |msgs| && Time(msgs[i]) == lo) && forall x :: x in msgs ==> Time(x) >= lo)
    && (!full ==> lo == Zeroes && forall x :: x in cands ==> x in msgs)
  }

  /** `ev` holds the events of E strictly inside (lo, hi). */
  ghost predicate WindowEvents(E: seq<Item>, ev: seq<Item>, lo: int, hi: int)
  {
    forall x :: x in ev <==> x in E && lo < Time(x) < hi
  }

  lemma ForwardMembership(S: seq<Item>, M: seq<Item>, E: seq<Item>, cands: seq<Item>, msgs: seq<Item>, ev: seq<Item>, lo: int, hi: int, full: bool)
    requires ShownShape(S, M, E) && AfterSelection(M, cands, msgs, lo, hi, full) && WindowEvents(E, ev, lo, hi)
    ensures forall x :: x in msgs || x in ev <==> x in S && lo < Time(x) <= hi
  {
    forall x | x in S && lo < Time(x) <= hi ensures x in msgs || x in ev {
      if full {
        var i0 :| 0 <= i0 < |msgs| && Time(msgs[i0]) == hi;
        if x.Message? {
          assert x in cands;
        } else {
          DistinctValues(S, Time, x, msgs[i0]);
        }
      }
    }
  }

  lemma BackwardMembership(S: seq<Item>, M: seq<Item>, E: seq<Item>, cands: seq<Item>, msgs: seq<Item>, ev: seq<Item>, lo: int, hi: int, full: bool)
    requires ShownShape(S, M, E) && BeforeSelection(M, cands, msgs, lo, hi, full) && WindowEvents(E, ev, lo, hi)
    ensures forall x :: x in msgs || x in ev <==> x in S && lo <= Time(x) < hi
  {
    forall x | x in S && lo <= Time(x) < hi ensures x in msgs || x in ev {
      if full {
        var i0 :| 0 <= i0 < |msgs| && Time(msgs[i0]) == lo;
        if x.Message? {
          assert x in cands;
        } else {
          DistinctValues(S, Time, x, msgs[i0]);
        }
      }
    }
  }

  /** A strictly sorted page holding the items of (lo, hi] holds those of (lo, t] for t its
      last time. */
  lemma UpToLast(P: seq<Item>, S: seq<Item>, lo: int, hi: int)
    requires SortedBy(P, Time) && P != []
    requires forall x :: x in P <==> x in S && lo < Time(x) <= hi
    ensures forall x :: x in P <==> x in S && lo < Time(x) <= Time(P[|P| - 1])
  {
    assert P[|P| - 1] in P;
  }

  lemma FromFirst(P: seq<Item>, S: seq<Item>, lo: int, hi: int)
    requires SortedBy(P, Time) && P != []
    requires forall x :: x in P <==> x in S && lo <= Time(x) < hi
    ensures forall x :: x in P <==> x in S && Time(P[0]) <= Time(x) < hi
  {
    assert P[0] in P;
  }

  // ----- The traversal's side: what one call computes -----

  function ForwardSelection(db: Store, conversation: string, user: Option<nat>, cursor: Cursor): Selection
    requires ForwardCursor(cursor)
  {
    SelectMessages(Matching(db, conversation, user, None), ForwardQuery(conversation, user, cursor))
  }

  function BackwardSelection(db: Store, conversation: string, user: Option<nat>, cursor: Cursor): Selection
    requires BackwardCursor(cursor)
  {
    SelectMessages(Matching(db, conversation, user, None), BackwardQuery(conversation, user, cursor))
  }

  lemma ForwardUnfold(db: Store, conversation: string, user: Option<nat>, cursor: Cursor, index: string -> set<nat>)
    requires ForwardCursor(cursor)
    ensures var q := ForwardQuery(conversation, user, cursor);
      var sel := ForwardSelection(db, conversation, user, cursor);
      && CheckCursors(q).None?
      && WindowStart(q, sel) == Low(cursor)
      && Traverse(db, q, index) == Success(SortBy(sel.messages
           + Events(db, conversation, user, Low(cursor), WindowEnd(q, sel)), Time))
  {
    assert Matched(ForwardQuery(conversation, user, cursor), index) == None;
  }

  lemma BackwardUnfold(db: Store, conversation: string, user: Option<nat>, cursor: Cursor, index: string -> set<nat>)
    requires BackwardCursor(cursor)
    ensures var q := BackwardQuery(conversation, user, cursor);
      var sel := BackwardSelection(db, conversation, user, cursor);
      && CheckCursors(q).None?
      && WindowEnd(q, sel) == High(cursor)
      && Traverse(db, q, index) == Success(SortBy(sel.messages
           + Events(db, conversation, user, WindowStart(q, sel), High(cursor)), Time))
  {
    assert Matched(BackwardQuery(conversation, user, cursor), index) == None;
  }

  /** With every message after the lower sentinel, "after" keeps exactly the messages later
      than the cursor's time. */
  lemma AfterExact(M: seq<Item>, cursor: Cursor)
    requires ForwardCursor(cursor) && forall x :: x in M ==> Zeroes < Time(x)
    ensures forall x :: x in AfterCandidates(M, cursor) <==> x in M && Low(cursor) < Time(x)
  {
  }

  lemma BeforeExact(M: seq<Item>, cursor: Cursor)
    requires BackwardCursor(cursor) && forall x :: x in M ==> Time(x) < Nines
    ensures forall x :: x in BeforeCandidates(M, cursor) <==> x in M && Time(x) < High(cursor)
  {
  }

  /** The nearest candidates by time, of distinct times, are strictly nearer than the rest. */
  lemma NearestEarliest(S: seq<Item>, cands: seq<Item>, msgs: seq<Item>)
    requires TakesNearest(msgs, cands, Time, MessagesPerPage)
    requires DistinctKeys(S, Time) && multiset(cands) <= multiset(S)
    ensures forall x :: x in msgs ==> x in cands
    ensures forall x, y :: x in msgs && y in cands && y !in msgs ==> Time(x) < Time(y)
  {
    DistinctKeysSub(S, cands, Time);
    NearestStrict(msgs, cands, Time, MessagesPerPage);
    forall x | x in msgs ensures x in cands {
      assert x in multiset(msgs);
    }
  }

  lemma NearestLatest(S: seq<Item>, cands: seq<Item>, msgs: seq<Item>)
    requires TakesNearest(msgs, cands, Descending, MessagesPerPage)
    requires DistinctKeys(S, Time) && multiset(cands) <= multiset(S)
    ensures forall x :: x in msgs ==> x in cands
    ensures forall x, y :: x in msgs && y in cands && y !in msgs ==> Time(x) > Time(y)
  {
    DistinctKeysSub(S, cands, Time);
    assert DistinctKeys(cands, Descending);
    NearestStrict(msgs, cands, Descending, MessagesPerPage);
    forall x | x in msgs ensures x in cands {
      assert x in multiset(msgs);
    }
  }

  /** A forward page's messages are the nearest candidates, strictly. */
  lemma ForwardNearest(S: seq<Item>, M: seq<Item>, conversation: string, user: Option<nat>, cursor: Cursor)
    requires ForwardCursor(cursor) && DistinctKeys(S, Time) && multiset(M) <= multiset(S)
    ensures var msgs := SelectMessages(M, ForwardQuery(conversation, user, cursor)).messages;
      var cands := AfterCandidates(M, cursor);
      && (forall x :: x in msgs ==> x in cands)
      && (forall x, y :: x in msgs && y in cands && y !in msgs ==> Time(x) < Time(y))
      && multiset(msgs) <= multiset(M)
  {
    var q := ForwardQuery(conversation, user, cursor);
    var cands := AfterCandidates(M, cursor);
    AfterPage(M, q);
    NearestEarliest(S, cands, SelectMessages(M, q).messages);
  }

  lemma BackwardNearest(S: seq<Item>, M: seq<Item>, conversation: string, user: Option<nat>, cursor: Cursor)
    requires BackwardCursor(cursor) && DistinctKeys(S, Time) && multiset(M) <= multiset(S)
    ensures var msgs := SelectMessages(M, BackwardQuery(conversation, user, cursor)).messages;
      var cands := BeforeCandidates(M, cursor);
      && (forall x :: x in msgs ==> x in cands)
      && (forall x, y :: x in msgs && y in cands && y !in msgs ==> Time(x) > Time(y))
      && multiset(msgs) <= multiset(M)
  {
    var q := BackwardQuery(conversation, user, cursor);
    var cands := BeforeCandidates(M, cursor);
    BeforePage(M, q);
    NearestLatest(S, cands, SelectMessages(M, q).messages);
  }

  /** A page that takes every candidate when short, and whose window ends at its maximum
      when full. */
  lemma EdgeAbove(cands: seq<Item>, msgs: seq<Item>, key: Item -> int, short: bool, hi: int)
    requires TakesNearest(msgs, cands, key, MessagesPerPage)
    requires short <==> |cands| < MessagesPerPage
    requires !short ==> msgs != [] && hi == MaxTime(msgs)
    ensures !short ==> (exists i :: 0 <= i < |msgs| && Time(msgs[i]) == hi) && (forall x :: x in msgs ==> Time(x) <= hi)
    ensures short ==> forall x :: x in cands ==> x in msgs
  {
    if short {
      forall x | x in cands ensures x in msgs {
        assert x in multiset(cands);
      }
    } else {
      forall x | x in msgs ensures Time(x) <= hi {
        var i :| 0 <= i < |msgs| && msgs[i] == x;
      }
    }
  }

  lemma EdgeBelow(cands: seq<Item>, msgs: seq<Item>, key: Item -> int, short: bool, lo: int)
    requires TakesNearest(msgs, cands, key, MessagesPerPage)
    requires short <==> |cands| < MessagesPerPage
    requires !short ==> msgs != [] && lo == MinTime(msgs)
    ensures !short ==> (exists i :: 0 <= i < |msgs| && Time(msgs[i]) == lo) && (forall x :: x in msgs ==> Time(x) >= lo)
    ensures short ==> forall x :: x in cands ==> x in msgs
  {
    if short {
      forall x | x in cands ensures x in msgs {
        assert x in multiset(cands);
      }
    } else {
      forall x | x in msgs ensures Time(x) >= lo {
        var i :| 0 <= i < |msgs| && msgs[i] == x;
      }
    }
  }

  /** A full forward page ends its window at its latest message; a short one at the upper
      sentinel, having taken every candidate. */
  lemma ForwardEdge(M: seq<Item>, conversation: string, user: Option<nat>, cursor: Cursor)
    requires ForwardCursor(cursor)
    ensures var q := ForwardQuery(conversation, user, cursor);
      var sel := SelectMessages(M, q);
      var hi := WindowEnd(q, sel);
      && (!sel.atLastPage ==>
            (exists i :: 0 <= i < |sel.messages| && Time(sel.messages[i]) == hi)
            && forall x :: x in sel.messages ==> Time(x) <= hi)
      && (sel.atLastPage ==> hi == Nines && forall x :: x in AfterCandidates(M, cursor) ==> x in sel.messages)
  {
    var q := ForwardQuery(conversation, user, cursor);
    var sel := SelectMessages(M, q);
    AfterPage(M, q);
    EdgeAbove(AfterCandidates(M, cursor), sel.messages, Time, sel.atLastPage, WindowEnd(q, sel));
  }

  lemma BackwardEdge(M: seq<Item>, conversation: string, user: Option<nat>, cursor: Cursor)
    requires BackwardCursor(cursor)
    ensures var q := BackwardQuery(conversation, user, cursor);
      var sel := SelectMessages(M, q);
      var lo := WindowStart(q, sel);
      && (!sel.atFirstPage ==>
            (exists i :: 0 <= i < |sel.messages| && Time(sel.messages[i]) == lo)
            && forall x :: x in sel.messages ==> Time(x) >= lo)
      && (sel.atFirstPage ==> lo == Zeroes && forall x :: x in BeforeCandidates(M, cursor) ==> x in sel.messages)
  {
    var q := BackwardQuery(conversation, user, cursor);
    var sel := SelectMessages(M, q);
    BeforePage(M, q);
    EdgeBelow(BeforeCandidates(M, cursor), sel.messages, Descending, sel.atFirstPage, WindowStart(q, sel));
  }

  /** Inside the sentinels, the events of a window are the widest window's events that lie
      in it. */
  lemma EventsNarrow(db: Store, conversation: string, user: Option<nat>, lo: int, hi: int)
    requires Zeroes <= lo && hi <= Nines
    ensures WindowEvents(Events(db, conversation, user, Zeroes, Nines), Events(db, conversation, user, lo, hi), lo, hi)
    ensures multiset(Events(db, conversation, user, lo, hi)) <= multiset(Events(db, conversation, user, Zeroes, Nines))
  {
    EventsWider(db, conversation, user, lo, hi, Zeroes, Nines);
    EventsMembership(db, conversation, user, lo, hi);
    EventsMembership(db, conversation, user, Zeroes, Nines);
  }

  lemma MultisetSum(a: seq<Item>, b: seq<Item>, c: seq<Item>, d: seq<Item>)
    requires multiset(a) <= multiset(c) && multiset(b) <= multiset(d)
    ensures multiset(a + b) <= multiset(c + d)
  {
  }

  /** The facts about the whole conversation both directions rely on. */
  lemma ShownFacts(db: Store, conversation: string, user: Option<nat>)
    requires Spread(db, conversation, user)
    ensures var M := Matching(db, conversation, user, None);
      && ShownShape(Shown(db, conversation, user), M, Events(db, conversation, user, Zeroes, Nines))
      && (forall x :: x in M ==> Zeroes < Time(x) < Nines)
      && DistinctKeys(M, Time)
  {
    ShownParts(db, conversation, user);
    DistinctKeysSub(Shown(db, conversation, user), Matching(db, conversation, user, None), Time);
  }

  /** The messages of a forward call satisfy AfterSelection. */
  lemma ForwardMessages(M: seq<Item>, conversation: string, user: Option<nat>, cursor: Cursor)
    requires ForwardCursor(cursor) && DistinctKeys(M, Time) && forall x :: x in M ==> Zeroes < Time(x)
    ensures var q := ForwardQuery(conversation, user, cursor);
      var sel := SelectMessages(M, q);
      && AfterSelection(M, AfterCandidates(M, cursor), sel.messages, Low(cursor), WindowEnd(q, sel), !sel.atLastPage)
      && multiset(sel.messages) <= multiset(M)
  {
    AfterExact(M, cursor);
    ForwardNearest(M, M, conversation, user, cursor);
    ForwardEdge(M, conversation, user, cursor);
  }

  lemma BackwardMessages(M: seq<Item>, conversation: string, user: Option<nat>, cursor: Cursor)
    requires BackwardCursor(cursor) && DistinctKeys(M, Time) && forall x :: x in M ==> Time(x) < Nines
    ensures var q := BackwardQuery(conversation, user, cursor);
      var sel := SelectMessages(M, q);
      && BeforeSelection(M, BeforeCandidates(M, cursor), sel.messages, WindowStart(q, sel), High(cursor), !sel.atFirstPage)
      && multiset(sel.messages) <= multiset(M)
  {
    BeforeExact(M, cursor);
    BackwardNearest(M, M, conversation, user, cursor);
    BackwardEdge(M, conversation, user, cursor);
  }

  /** Sorting keeps the members of both pieces. */
  lemma SortedMembers(msgs: seq<Item>, ev: seq<Item>)
    ensures forall x :: x in SortBy(msgs + ev, Time) <==> x in msgs || x in ev
  {
  }

  /** A strictly sorted page holding the shown items of (lo, hi], where a page can only be
      empty when hi is the upper sentinel, is the forward page after lo. */
  lemma ForwardPageFrom(S: seq<Item>, P: seq<Item>, lo: int, hi: int)
    requires StrictlySortedBy(P, Time)
    requires forall x :: x in S ==> Time(x) < Nines
    requires forall x :: x in P <==> x in S && lo < Time(x) <= hi
    requires P == [] ==> hi == Nines
    ensures ForwardPageOf(S, P, lo)
  {
    if P != [] {
      UpToLast(P, S, lo, hi);
      assert P[0] in P;
    }
  }

  lemma BackwardPageFrom(S: seq<Item>, P: seq<Item>, lo: int, hi: int)
    requires StrictlySortedBy(P, Time)
    requires forall x :: x in S ==> Zeroes < Time(x)
    requires forall x :: x in P <==> x in S && lo <= Time(x) < hi
    requires P == [] ==> lo == Zeroes
    ensures BackwardPageOf(S, P, hi)
  {
    if P != [] {
      FromFirst(P, S, lo, hi);
      assert P[0] in P;
    }
  }

  /** From the membership of a forward page's pieces to the page itself. */
  lemma ForwardConclude(S: seq<Item>, msgs: seq<Item>, ev: seq<Item>, lo: int, hi: int, full: bool)
    requires DistinctKeys(S, Time) && multiset(msgs + ev) <= multiset(S)
    requires forall x :: x in S ==> Time(x) < Nines
    requires forall x :: x in msgs || x in ev <==> x in S && lo < Time(x) <= hi
    requires full ==> msgs != []
    requires !full ==> hi == Nines
    ensures ForwardPageOf(S, SortBy(msgs + ev, Time), lo)
  {
    var P := SortBy(msgs + ev, Time);
    SortedSubIsStrict(S, msgs + ev, Time);
    SortedMembers(msgs, ev);
    assert msgs != [] ==> msgs[0] in P;
    ForwardPageFrom(S, P, lo, hi);
  }

  lemma BackwardConclude(S: seq<Item>, msgs: seq<Item>, ev: seq<Item>, lo: int, hi: int, full: bool)
    requires DistinctKeys(S, Time) && multiset(msgs + ev) <= multiset(S)
    requires forall x :: x in S ==> Zeroes < Time(x)
    requires forall x :: x in msgs || x in ev <==> x in S && lo <= Time(x) < hi
    requires full ==> msgs != []
    requires !full ==> lo == Zeroes
    ensures BackwardPageOf(S, SortBy(msgs + ev, Time), hi)
  {
    var P := SortBy(msgs + ev, Time);
    SortedSubIsStrict(S, msgs + ev, Time);
    SortedMembers(msgs, ev);
    assert msgs != [] ==> msgs[0] in P;
    BackwardPageFrom(S, P, lo, hi);
  }

  /** What a forward page is: strictly increasing in time; empty exactly when no shown item
      is later than lo; otherwise the shown items from just after lo up to its last item. */
  ghost predicate ForwardPageOf(S: seq<Item>, P: seq<Item>, lo: int)
  {
    && StrictlySortedBy(P, Time)
    && (P == [] <==> forall x :: x in S ==> Time(x) <= lo)
    && (P != [] ==> forall x :: x in P <==> x in S && lo < Time(x) <= Time(P[|P| - 1]))
  }

  /** What a backward page is: strictly increasing in time; empty exactly when no shown item
      is earlier than hi; otherwise the shown items from its first item up to just before hi. */
  ghost predicate BackwardPageOf(S: seq<Item>, P: seq<Item>, hi: int)
  {
    && StrictlySortedBy(P, Time)
    && (P == [] <==> forall x :: x in S ==> Time(x) >= hi)
    && (P != [] ==> forall x :: x in P <==> x in S && Time(P[0]) <= Time(x) < hi)
  }

  lemma ForwardSorted(db: Store, conversation: string, user: Option<nat>, cursor: Cursor)
    requires Spread(db, conversation, user) && ForwardCursor(cursor)
    ensures var q := ForwardQuery(conversation, user, cursor);
      var sel := ForwardSelection(db, conversation, user, cursor);
      var ev := Events(db, conversation, user, Low(cursor), WindowEnd(q, sel));
      ForwardPageOf(Shown(db, conversation, user), SortBy(sel.messages + ev, Time), Low(cursor))
  {
    var q := ForwardQuery(conversation, user, cursor);
    var S := Shown(db, conversation, user);
    var M := Matching(db, conversation, user, None);
    var E := Events(db, conversation, user, Zeroes, Nines);
    var sel := SelectMessages(M, q);
    var lo, hi := Low(cursor), WindowEnd(q, sel);
    var ev := Events(db, conversation, user, lo, hi);
    ShownFacts(db, conversation, user);
    ForwardMessages(M, conversation, user, cursor);
    EventsNarrow(db, conversation, user, lo, hi);
    ForwardMembership(S, M, E, AfterCandidates(M, cursor), sel.messages, ev, lo, hi, !sel.atLastPage);
    MultisetSum(sel.messages, ev, M, E);
    ForwardConclude(S, sel.messages, ev, lo, hi, !sel.atLastPage);
  }

  lemma BackwardSorted(db: Store, conversation: string, user: Option<nat>, cursor: Cursor)
    requires Spread(db, conversation, user) && BackwardCursor(cursor)
    ensures var q := BackwardQuery(conversation, user, cursor);
      var sel := BackwardSelection(db, conversation, user, cursor);
      var ev := Events(db, conversation, user, WindowStart(q, sel), High(cursor));
      BackwardPageOf(Shown(db, conversation, user), SortBy(sel.messages + ev, Time), High(cursor))
  {
    var q := BackwardQuery(conversation, user, cursor);
    var S := Shown(db, conversation, user);
    var M := Matching(db, conversation, user, None);
    var E := Events(db, conversation, user, Zeroes, Nines);
    var sel := SelectMessages(M, q);
    var lo, hi := WindowStart(q, sel), High(cursor);
    var ev := Events(db, conversation, user, lo, hi);
    ShownFacts(db, conversation, user);
    BackwardMessages(M, conversation, user, cursor);
    EventsNarrow(db, conversation, user, lo, hi);
    BackwardMembership(S, M, E, BeforeCandidates(M, cursor), sel.messages, ev, lo, hi, !sel.atFirstPage);
    MultisetSum(sel.messages, ev, M, E);
    BackwardConclude(S, sel.messages, ev, lo, hi, !sel.atFirstPage);
  }

  /** One forward page: the shown items after the cursor, up to and including the last one
      on the page, in strictly increasing time; it is empty only when nothing is left. */
  lemma ForwardPage(db: Store, conversation: string, user: Option<nat>, cursor: Cursor, index: string -> set<nat>)
    requires Spread(db, conversation, user) && ForwardCursor(cursor)
    ensures Traverse(db, ForwardQuery(conversation, user, cursor), index).Success?
    ensures ForwardPageOf(Shown(db, conversation, user), PageOf(Traverse(db, ForwardQuery(conversation, user, cursor), index)), Low(cursor))
  {
    ForwardUnfold(db, conversation, user, cursor, index);
    ForwardSorted(db, conversation, user, cursor);
  }

  /** One backward page: the shown items before the cursor, from the first one on the page,
      in strictly increasing time; it is empty only when nothing is left. */
  lemma BackwardPage(db: Store, conversation: string, user: Option<nat>, cursor: Cursor, index: string -> set<nat>)
    requires Spread(db, conversation, user) && BackwardCursor(cursor)
    ensures Traverse(db, BackwardQuery(conversation, user, cursor), index).Success?
    ensures BackwardPageOf(Shown(db, conversation, user), PageOf(Traverse(db, BackwardQuery(conversation, user, cursor), index)), High(cursor))
  {
    BackwardUnfold(db, conversation, user, cursor, index);
    BackwardSorted(db, conversation, user, cursor);
  }

  // ----- Scrolling -----

  /** What the forward scroll has shown so far: the shown items up to lo, in strictly
      increasing time. */
  ghost predicate ShownUpTo(S: seq<Item>, lo: int, shown: seq<Item>)
  {
    StrictlySortedBy(shown, Time) && forall x :: x in shown <==> x in S && Time(x) <= lo
  }

  /** What the backward scroll has shown so far: the shown items from hi on, in strictly
      increasing time. */
  ghost predicate ShownFrom(S: seq<Item>, hi: int, shown: seq<Item>)
  {
    StrictlySortedBy(shown, Time) && forall x :: x in shown <==> x in S && Time(x) >= hi
  }

  /** Appending the next forward page to what is shown extends it to the page's last time,
      which lies beyond the old cursor. */
  lemma ForwardStep(S: seq<Item>, shown: seq<Item>, page: seq<Item>, lo: int)
    requires ForwardPageOf(S, page, lo) && page != []
    requires forall x :: x in S ==> Time(x) < Nines
    requires ShownUpTo(S, lo, shown)
    ensures lo < Time(page[|page| - 1]) < Nines
    ensures ShownUpTo(S, Time(page[|page| - 1]), shown + page)
  {
    assert page[|page| - 1] in page;
    assert page[0] in page;
    ConcatStrict(shown, page, Time);
  }

  lemma BackwardStep(S: seq<Item>, shown: seq<Item>, page: seq<Item>, hi: int)
    requires BackwardPageOf(S, page, hi) && page != []
    requires forall x :: x in S ==> Zeroes < Time(x)
    requires ShownFrom(S, hi, shown)
    ensures Zeroes < Time(page[0]) < hi
    ensures ShownFrom(S, Time(page[0]), page + shown)
  {
    assert page[0] in page;
    assert page[|page| - 1] in page;
    ConcatStrict(page, shown, Time);
  }

  lemma SpreadBounds(db: Store, conversation: string, user: Option<nat>)
    requires Spread(db, conversation, user)
    ensures forall x :: x in Shown(db, conversation, user) ==> Zeroes < Time(x) < Nines
  {
  }

  /** The page a traversal returns; a failed call shows nothing. */
  function PageOf(r: Result<seq<Item>, TraverseError>): seq<Item>
  {
    if r.Success? then r.value else []
  }

  /** A strictly sorted sequence holding every shown item is the timeline. */
  lemma Complete(db: Store, conversation: string, user: Option<nat>, shown: seq<Item>)
    requires Spread(db, conversation, user)
    requires StrictlySortedBy(shown, Time)
    requires forall x :: x in shown <==> x in Shown(db, conversation, user)
    ensures shown == Timeline(db, conversation, user)
  {
    var S := Shown(db, conversation, user);
    var T := Timeline(db, conversation, user);
    DistinctKeysSub(S, T, Time);
    SortedDistinctIsStrict(T, Time);
    StrictlySortedUnique(shown, T, Time);
  }

  lemma ForwardDone(db: Store, conversation: string, user: Option<nat>, lo: int, shown: seq<Item>)
    requires Spread(db, conversation, user)
    requires ShownUpTo(Shown(db, conversation, user), lo, shown)
    requires ForwardPageOf(Shown(db, conversation, user), [], lo)
    ensures shown == Timeline(db, conversation, user)
  {
    Complete(db, conversation, user, shown);
  }

  lemma BackwardDone(db: Store, conversation: string, user: Option<nat>, hi: int, shown: seq<Item>)
    requires Spread(db, conversation, user)
    requires ShownFrom(Shown(db, conversation, user), hi, shown)
    requires BackwardPageOf(Shown(db, conversation, user), [], hi)
    ensures shown == Timeline(db, conversation, user)
  {
    Complete(db, conversation, user, shown);
  }

  /** The forward scroll of the round-trip test: start from "beginning", continue after the
      last item of each page, stop at the first empty page. */
  method ScrollForward(db: Store, conversation: string, user: Option<nat>, index: string -> set<nat>)
    returns (shown: seq<Item>, last: Cursor)
    requires Spread(db, conversation, user)
    ensures shown == Timeline(db, conversation, user)
    ensures ForwardCursor(last)
    ensures Traverse(db, ForwardQuery(conversation, user, last), index) == Success([])
  {
    ghost var S := Shown(db, conversation, user);
    SpreadBounds(db, conversation, user);
    var cursor := Beginning;
    shown := [];
    ForwardPage(db, conversation, user, cursor, index);
    var page := PageOf(Traverse(db, ForwardQuery(conversation, user, cursor), index));
    while page != []
      invariant ForwardCursor(cursor)
      invariant Traverse(db, ForwardQuery(conversation, user, cursor), index) == Success(page)
      invariant ForwardPageOf(S, page, Low(cursor))
      invariant ShownUpTo(S, Low(cursor), shown)
      decreases Nines - Low(cursor)
    {
      ForwardStep(S, shown, page, Low(cursor));
      shown := shown + page;
      cursor := Stamp(Time(page[|page| - 1]));
      ForwardPage(db, conversation, user, cursor, index);
      page := PageOf(Traverse(db, ForwardQuery(conversation, user, cursor), index));
    }
    last := cursor;
    ForwardDone(db, conversation, user, Low(cursor), shown);
  }

  /** The backward scroll of the round-trip test: start from "end", continue before the
      first item of each page, putting each page in front, stop at the first empty page. */
  method ScrollBackward(db: Store, conversation: string, user: Option<nat>, index: string -> set<nat>)
    returns (shown: seq<Item>, last: Cursor)
    requires Spread(db, conversation, user)
    ensures shown == Timeline(db, conversation, user)
    ensures BackwardCursor(last)
    ensures Traverse(db, BackwardQuery(conversation, user, last), index) == Success([])
  {
    ghost var S := Shown(db, conversation, user);
    SpreadBounds(db, conversation, user);
    var cursor := End;
    shown := [];
    BackwardPage(db, conversation, user, cursor, index);
    var page := PageOf(Traverse(db, BackwardQuery(conversation, user, cursor), index));
    while page != []
      invariant BackwardCursor(cursor)
      invariant Traverse(db, BackwardQuery(conversation, user, cursor), index) == Success(page)
      invariant BackwardPageOf(S, page, High(cursor))
      invariant ShownFrom(S, High(cursor), shown)
      decreases High(cursor) - Zeroes
    {
      BackwardStep(S, shown, page, High(cursor));
      shown := page + shown;
      cursor := Stamp(Time(page[0]));
      BackwardPage(db, conversation, user, cursor, index);
      page := PageOf(Traverse(db, BackwardQuery(conversation, user, cursor), index));
    }
    last := cursor;
    BackwardDone(db, conversation, user, High(cursor), shown);
  }
}

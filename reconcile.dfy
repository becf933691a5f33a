/** The participant reconciliation of TwitterDataWriter.finalize: from the join and leave
    facts recorded for one participant of one conversation, the start and end times its
    participants row is given. */
module Reconcile {
  import opened Wrappers
  import opened Timestamps
  import opened Sorting

  /** The first member of a fact tuple: "start_time" or "end_time". */
  datatype FactKind = StartFact | EndFact

  /** One (kind, timestamp) tuple of participant_events. */
  datatype Fact = Fact(kind: FactKind, time: int)

  function FactTime(f: Fact): int
  {
    f.time
  }

  /** Every fact carries a timestamp, so none is below the zero sentinel. */
  predicate Timed(facts: seq<Fact>)
  {
    forall i :: 0 <= i < |facts| ==> facts[i].time >= Zeroes
  }

  /** The (start_time, end_time) pair written to the participants row; None is NULL. */
  datatype Span = Span(start: Option<int>, end: Option<int>)

  /** The body of the loop of finalize for one participant: sort the facts by timestamp
      (a stable sort); the start is the earliest fact's time when that fact is a start,
      collapsed to NULL when it is the zero sentinel; the end is the latest fact's time
      when that fact is an end. */
  function Reconcile(facts: seq<Fact>): Span
  {
    if facts == [] then Span(None, None)
    else
      var ordered := SortBy(facts, FactTime);
      var first, last := ordered[0], ordered[|ordered| - 1];
      var start := if first.kind == StartFact then Some(first.time) else None;
      Span(if start == Some(Zeroes) then None else start,
           if last.kind == EndFact then Some(last.time) else None)
  }

  /** The start and end without sorting: the start is decided by the first, in recording
      order, of the facts with the least time, the end by the last of those with the
      greatest time. */
  lemma ReconcileByExtremes(facts: seq<Fact>)
    ensures facts == [] ==> Reconcile(facts) == Span(None, None)
    ensures facts != [] ==>
      var f := facts[FirstMinIndex(facts, FactTime)];
      Reconcile(facts).start == (if f.kind == StartFact && f.time != Zeroes then Some(f.time) else None)
    ensures facts != [] ==>
      var l := facts[LastMaxIndex(facts, FactTime)];
      Reconcile(facts).end == (if l.kind == EndFact then Some(l.time) else None)
  {
    if facts != [] {
      SortByFirst(facts, FactTime);
      SortByLast(facts, FactTime);
    }
  }

  /** A start is the time of a start fact that no fact precedes; an end is the time of an
      end fact that no fact follows. */
  lemma StartEarliestEndLatest(facts: seq<Fact>)
    ensures Reconcile(facts).start.Some? ==>
      var t := Reconcile(facts).start.value;
      t != Zeroes && Fact(StartFact, t) in facts && forall f :: f in facts ==> t <= f.time
    ensures Reconcile(facts).end.Some? ==>
      var t := Reconcile(facts).end.value;
      Fact(EndFact, t) in facts && forall f :: f in facts ==> f.time <= t
  {
    ReconcileByExtremes(facts);
    if facts != [] {
      var i := FirstMinIndex(facts, FactTime);
      var k := LastMaxIndex(facts, FactTime);
      forall f | f in facts
        ensures facts[i].time <= f.time && f.time <= facts[k].time
      {
        var j :| 0 <= j < |facts| && facts[j] == f;
        assert FactTime(facts[i]) <= FactTime(facts[j]) <= FactTime(facts[k]);
      }
    }
  }

  /** A join followed by a leave gives both times. */
  lemma JoinThenLeave(t1: int, t2: int)
    requires Zeroes < t1 < t2
    ensures Reconcile([Fact(StartFact, t1), Fact(EndFact, t2)]) == Span(Some(t1), Some(t2))
  {
    ReconcileByExtremes([Fact(StartFact, t1), Fact(EndFact, t2)]);
  }

  /** A leave followed by a join leaves both open: the earliest fact is not a start and
      the latest is not an end. */
  lemma LeaveThenJoin(t1: int, t2: int)
    requires t1 < t2
    ensures Reconcile([Fact(EndFact, t1), Fact(StartFact, t2)]) == Span(None, None)
  {
    ReconcileByExtremes([Fact(EndFact, t1), Fact(StartFact, t2)]);
  }

  /** The snapshot fact of a joinConversation, a start at the zero sentinel, sorts first,
      so a participant carrying one is given no start time. */
  lemma SentinelStart(facts: seq<Fact>)
    requires Timed(facts) && Fact(StartFact, Zeroes) in facts
    ensures Reconcile(facts).start == None
  {
    ReconcileByExtremes(facts);
    var i := FirstMinIndex(facts, FactTime);
    var j :| 0 <= j < |facts| && facts[j] == Fact(StartFact, Zeroes);
    assert FactTime(facts[i]) <= FactTime(facts[j]);
  }
}

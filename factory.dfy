/** MessageFactory of the demo data: it makes messageCreate and conversationNameUpdate
    events for one conversation, dated by a clock that advances a fixed number of minutes
    per event, with message ids drawn from one counter that every factory shares.

    The clock is a count of microseconds since 0001-01-01T00:00:00, the origin of Python's
    datetime; a date is the clock read to the millisecond, which is what cutting the
    formatted datetime after its third fractional digit keeps. Such a count is an
    order-preserving stand-in for the date string; it is not the digit reading the archive's
    timestamps use, so factory dates are not to be compared with the Zeroes and Nines
    sentinels.
    User ids are natural numbers, written as decimal strings in the events. */
module Factory {
  import opened Wrappers
  import opened Strings
  import opened Writer

  const MicrosPerMinute: int := 60_000_000

  /** A date as written into an event: the clock truncated to whole milliseconds. */
  function Millis(micros: int): int
  {
    micros / 1000
  }

  /** The StopIteration raised when no recipient differs from the sender. */
  datatype FactoryError = StopIteration

  /** A recipients tuple is used only when it is given and not empty. */
  predicate Truthy(recipients: Option<seq<nat>>)
  {
    recipients.Some? && |recipients.value| > 0
  }

  /** The first recipient that is not the sender. */
  function FirstOther(xs: seq<nat>, sender: nat): (r: Option<nat>)
    ensures r.None? <==> forall x :: x in xs ==> x == sender
    ensures r.Some? ==> exists i :: 0 <= i < |xs| && xs[i] == r.value && r.value != sender
                                   && forall j :: 0 <= j < i ==> xs[j] == sender
  {
    if xs == [] then None
    else if xs[0] != sender then
      assert xs[0] in xs;
      Some(xs[0])
    else
      var r := FirstOther(xs[1..], sender);
      assert forall x :: x in xs <==> x == xs[0] || x in xs[1..];
      assert r.Some? ==> exists i :: 0 <= i < |xs| && xs[i] == r.value && r.value != sender
                                     && forall j :: 0 <= j < i ==> xs[j] == sender by {
        if r.Some? {
          var i :| 0 <= i < |xs[1..]| && xs[1..][i] == r.value && forall j :: 0 <= j < i ==> xs[1..][j] == sender;
          assert xs[i + 1] == r.value;
          assert forall j :: 0 <= j < i + 1 ==> xs[j] == sender by {
            forall j | 0 <= j < i + 1 ensures xs[j] == sender {
              if j > 0 { assert xs[j] == xs[1..][j - 1]; }
            }
          }
        }
      }
      r
  }

  /** The dict create_message builds, once its date and id are drawn: a messageCreate
      event of the factory's conversation with no media, reactions or links, and, when
      recipients were given, the first of them that is not the sender as recipientId. */
  function MessageOf(conversation: string, createdAt: int, id: string,
                     recipients: Option<seq<nat>>, sender: nat, text: string): (r: Result<Event, FactoryError>)
    ensures r.Failure? <==> Truthy(recipients) && forall x :: x in recipients.value ==> x == sender
    ensures r.Success? ==>
      && r.value.conversationId == conversation && r.value.createdAt == createdAt
      && r.value.senderId == Some(NatToDecimal(sender))
      && r.value.body == MessageCreate(id, text, [], [], [])
      && (r.value.recipientId.Some? <==> Truthy(recipients))
      && (r.value.recipientId.Some? ==>
            exists x :: x in recipients.value && x != sender && r.value.recipientId.value == NatToDecimal(x))
  {
    var body := MessageCreate(id, text, [], [], []);
    if !Truthy(recipients) then
      Success(Event(conversation, createdAt, Some(NatToDecimal(sender)), None, body))
    else
      match FirstOther(recipients.value, sender)
      case None => Failure(StopIteration)
      case Some(x) => Success(Event(conversation, createdAt, Some(NatToDecimal(sender)), Some(NatToDecimal(x)), body))
  }

  /** The dict create_name_update builds. */
  function NameUpdateOf(conversation: string, createdAt: int, initiator: nat, newName: string): (r: Event)
    ensures r.body.ConversationNameUpdate? && r.body.initiatingUserId == NatToDecimal(initiator)
    ensures r.senderId.None? && r.recipientId.None? && r.conversationId == conversation
  {
    Event(conversation, createdAt, None, None, ConversationNameUpdate(NatToDecimal(initiator), newName))
  }

  /** The ids handed out by n calls of get_next_message_id starting at counter value start. */
  function IdsFrom(start: nat, n: nat): (ids: seq<string>)
    ensures |ids| == n && forall i :: 0 <= i < n ==> ids[i] == NatToDecimal(start + i)
    decreases n
  {
    if n == 0 then [] else [NatToDecimal(start)] + IdsFrom(start + 1, n - 1)
  }

  /** The class-wide counter: every id ever handed out differs from every other. */
  lemma IdsDistinct(start: nat, n: nat)
    ensures var ids := IdsFrom(start, n);
      forall i, j :: 0 <= i < j < n ==> ids[i] != ids[j]
  {
    var ids := IdsFrom(start, n);
    forall i, j | 0 <= i < j < n
      ensures ids[i] != ids[j]
    {
      if ids[i] == ids[j] {
        DecimalInjective(start + i, start + j);
      }
    }
  }

  /** Two factories drawing in turn from the shared counter get consecutive runs of ids. */
  lemma {:induction false} IdsConsecutive(start: nat, n: nat, m: nat)
    ensures IdsFrom(start, n + m) == IdsFrom(start, n) + IdsFrom(start + n, m)
    decreases n
  {
    if n > 0 {
      IdsConsecutive(start + 1, n - 1, m);
      assert IdsFrom(start, n + m) == [NatToDecimal(start)] + IdsFrom(start + 1, n - 1 + m);
    }
  }

  /** With a non-negative step the dates of successive events never go back, and with a
      positive one they go strictly forward. */
  lemma DatesAdvance(clock: int, minutesApart: int)
    requires minutesApart >= 0
    ensures Millis(clock) <= Millis(clock + minutesApart * MicrosPerMinute)
    ensures minutesApart > 0 ==> Millis(clock) < Millis(clock + minutesApart * MicrosPerMinute)
  {
    var step := minutesApart * MicrosPerMinute;
    assert step == (minutesApart * 60_000) * 1000;
    assert Millis(clock + step) == Millis(clock) + minutesApart * 60_000 by {
      var q, r := clock / 1000, clock % 1000;
      assert clock + step == (q + minutesApart * 60_000) * 1000 + r;
    }
  }

  /** A message made with recipients can be read as one of an individual conversation,
      by any account; one made without them as one of a group. A name update can be read
      as one of a group. */
  lemma MadeEventsReadable(conversation: string, createdAt: int, id: string,
                           recipients: Option<seq<nat>>, sender: nat, text: string,
                           initiator: nat, newName: string, account: string)
    ensures var r := MessageOf(conversation, createdAt, id, recipients, sender, text);
      r.Success? ==> Readable(r.value, !Truthy(recipients), account)
    ensures Readable(NameUpdateOf(conversation, createdAt, initiator, newName), true, account)
  {
  }

  /** The class attribute next_message_id, shared by every factory. */
  class IdCounter {
    var next: nat

    constructor ()
      ensures next == 0
    {
      next := 0;
    }

    /** get_next_message_id: the counter's value as a string; the counter goes up by one. */
    method GetNextMessageId() returns (id: string)
      modifies this
      ensures id == NatToDecimal(old(next)) && next == old(next) + 1
    {
      id := NatToDecimal(next);
      next := next + 1;
    }
  }

  class MessageFactory {
    const conversationId: string
    var nextMessageTime: int
    const recipientIds: Option<seq<nat>>
    const minutesApart: int
    /** The class the factory draws its ids from. */
    const ids: IdCounter

    constructor (conversationId: string, firstMessageTime: int, recipients: Option<seq<nat>>,
                 minutesApart: int, ids: IdCounter)
      ensures this.conversationId == conversationId && nextMessageTime == firstMessageTime
      ensures recipientIds == recipients && this.minutesApart == minutesApart && this.ids == ids
    {
      this.conversationId := conversationId;
      nextMessageTime := firstMessageTime;
      recipientIds := recipients;
      this.minutesApart := minutesApart;
      this.ids := ids;
    }

    /** get_next_date: the clock's current date; the clock moves on minutes_apart minutes. */
    method GetNextDate() returns (date: int)
      modifies this
      ensures date == Millis(old(nextMessageTime))
      ensures nextMessageTime == old(nextMessageTime) + minutesApart * MicrosPerMinute
    {
      date := Millis(nextMessageTime);
      nextMessageTime := nextMessageTime + minutesApart * MicrosPerMinute;
    }

    /** create_message: one date and one id are drawn, even when no recipient differs
        from the sender and StopIteration is raised. */
    method CreateMessage(senderId: nat, text: string) returns (r: Result<Event, FactoryError>)
      modifies this, ids
      ensures nextMessageTime == old(nextMessageTime) + minutesApart * MicrosPerMinute
      ensures ids.next == old(ids.next) + 1
      ensures r == MessageOf(conversationId, Millis(old(nextMessageTime)), NatToDecimal(old(ids.next)),
                             recipientIds, senderId, text)
    {
      var createdAt := GetNextDate();
      var id := ids.GetNextMessageId();
      r := MessageOf(conversationId, createdAt, id, recipientIds, senderId, text);
    }

    /** create_name_update: one date is drawn and no id. */
    method CreateNameUpdate(initiatorId: nat, newName: string) returns (ev: Event)
      modifies this
      ensures nextMessageTime == old(nextMessageTime) + minutesApart * MicrosPerMinute
      ensures ev == NameUpdateOf(conversationId, Millis(old(nextMessageTime)), initiatorId, newName)
    {
      var createdAt := GetNextDate();
      ev := NameUpdateOf(conversationId, createdAt, initiatorId, newName);
    }
  }
}

/** JSONStream: reading a direct-message archive file as a stream of conversation events.

    PrefixedJSON skips the JavaScript assignment in front of the JSON data of an archive
    file. MessageStream turns the parser's tokens, each a (prefix, event, value) triple,
    into one dict per conversation event, adding its "type" and "conversationId". A
    prefix is kept as the list of its dot-separated components. */
module JsonStream {
  import opened Wrappers

  newtype byte = b: int | 0 <= b < 256

  const OpenBracket: byte := 0x5B
  const OpenBrace: byte := 0x7B

  /** A byte that can start JSON data: "[" or "{". */
  predicate IsOpening(b: byte)
  {
    b == OpenBracket || b == OpenBrace
  }

  predicate HasOpening(data: seq<byte>)
  {
    exists i :: 0 <= i < |data| && IsOpening(data[i])
  }

  /** The position of the first "[" or "{" of the file. */
  function FirstOpening(data: seq<byte>): (k: nat)
    requires HasOpening(data)
    ensures k < |data| && IsOpening(data[k])
    ensures forall j :: 0 <= j < k ==> !IsOpening(data[j])
  {
    if IsOpening(data[0]) then 0
    else
      assert HasOpening(data[1..]) by {
        var i :| 0 <= i < |data| && IsOpening(data[i]);
        assert data[1..][i - 1] == data[i];
      }
      var k := FirstOpening(data[1..]);
      assert forall j :: 1 <= j < k + 1 ==> data[j] == data[1..][j - 1];
      k + 1
  }

  /** PrefixedJSON: a file opened in bytes mode, read one byte at a time. */
  class PrefixedJson {
    const data: seq<byte>
    var pos: nat

    ghost predicate Valid()
      reads this
    {
      pos <= |data|
    }

    constructor (data: seq<byte>)
      ensures Valid() && this.data == data && pos == 0
    {
      this.data := data;
      pos := 0;
    }

    /** read(1): the next byte, or nothing at the end of the file. */
    method ReadByte() returns (b: seq<byte>)
      requires Valid()
      modifies this
      ensures Valid()
      ensures old(pos) < |data| ==> b == [data[old(pos)]] && pos == old(pos) + 1
      ensures old(pos) == |data| ==> b == [] && pos == old(pos)
    {
      if pos < |data| {
        b := [data[pos]];
        pos := pos + 1;
      } else {
        b := [];
      }
    }

    /** __enter__: open, read up to and including the first bracket, and step back one
        byte, so that the bracket is the next byte read. Without a bracket the loop would
        never end, so the file must hold one. */
    method Enter()
      requires Valid() && HasOpening(data)
      modifies this
      ensures Valid() && pos == FirstOpening(data)
    {
      pos := 0;
      var k := FirstOpening(data);
      var b := ReadByte();
      while b != [OpenBracket] && b != [OpenBrace]
        invariant Valid() && 1 <= pos <= k + 1 && b == [data[pos - 1]]
        invariant forall j :: 0 <= j < pos - 1 ==> !IsOpening(data[j])
        decreases k + 1 - pos
      {
        assert pos - 1 != k;
        b := ReadByte();
      }
      pos := pos - 1;
    }
  }

  // ----- Tokens -----

  /** The values the parser gives: a scalar, or null for events that carry none (the
      parser's Decimal numbers are kept as their text). */
  datatype Scalar = JString(s: string) | JNull | JBool(b: bool) | JInt(i: int) | JNumber(text: string)

  /** The parser's event names; Value stands for string, null, boolean, integer, double
      and number. */
  datatype TokenEvent = StartMap | EndMap | StartArray | EndArray | MapKey | Value

  datatype Token = Token(prefix: seq<string>, event: TokenEvent, value: Scalar)

  const ConversationIdPath: seq<string> := ["item", "dmConversation", "conversationId"]
  const MessagesItemPath: seq<string> := ["item", "dmConversation", "messages", "item"]

  /** The event_types list. */
  const EventTypes: seq<string> :=
    ["messageCreate", "joinConversation", "participantsJoin", "participantsLeave", "conversationNameUpdate"]

  /** prefix.startswith("item.dmConversation.messages.item." + x + ".") for one of the
      event types x: the first four components are those of a message item, the fifth
      is an event type, and at least one more follows. */
  predicate OnEventPath(prefix: seq<string>)
  {
    |prefix| >= 6 && prefix[..4] == MessagesItemPath && prefix[4] in EventTypes
  }

  // ----- The event under construction -----

  /** A nested dict appended to a list: a reference into the heap of dicts, so that
      current_dict can go on writing into it. */
  datatype Element = Item(v: Scalar) | DictRef(ref: nat)

  /** A value of the top-level message dict: a scalar or a list. */
  datatype Field = Plain(v: Scalar) | List(items: seq<Element>)

  /** current_dict: the message itself or one of the nested dicts. */
  datatype Cur = Top | Nested(ref: nat)

  /** The variables of __iter__: conversation_id, in_message, message and current_dict,
      with the nested dicts created so far. */
  datatype St = St(conversationId: Scalar, inMessage: bool, message: map<string, Field>,
                   current: Cur, dicts: seq<map<string, Scalar>>)

  const Init := St(JString(""), false, map[], Top, [])

  /** Every reference points at a dict that exists. */
  predicate WellFormed(st: St)
  {
    && (st.current.Nested? ==> st.current.ref < |st.dicts|)
    && forall k :: k in st.message && st.message[k].List? ==> RefsBelow(st.message[k].items, |st.dicts|)
  }

  predicate RefsBelow(items: seq<Element>, n: nat)
  {
    forall i :: 0 <= i < |items| && items[i].DictRef? ==> items[i].ref < n
  }

  /** A yielded event, its nested dicts read out. */
  datatype OutElement = OutItem(v: Scalar) | OutDict(m: map<string, Scalar>)
  datatype OutField = OutPlain(v: Scalar) | OutList(items: seq<OutElement>)

  function Resolve(m: map<string, Field>, dicts: seq<map<string, Scalar>>): (r: map<string, OutField>)
    requires forall k :: k in m && m[k].List? ==> RefsBelow(m[k].items, |dicts|)
    ensures r.Keys == m.Keys
    ensures forall k :: k in m && m[k].Plain? ==> r[k] == OutPlain(m[k].v)
  {
    map k | k in m :: ResolveField(m[k], dicts)
  }

  function ResolveField(f: Field, dicts: seq<map<string, Scalar>>): OutField
    requires f.List? ==> RefsBelow(f.items, |dicts|)
  {
    match f
    case Plain(v) => OutPlain(v)
    case List(items) =>
      OutList(seq(|items|, i requires 0 <= i < |items| =>
        if items[i].Item? then OutItem(items[i].v) else OutDict(dicts[items[i].ref])))
  }

  /** The errors an unusual file raises inside the event branch: the list named by the
      penultimate component is missing (KeyError) or is not a list (AttributeError). */
  datatype StreamError = KeyError(key: string) | AttributeError(key: string)

  /** message[name].append(e). */
  function Append(st: St, name: string, e: Element): (r: Result<St, StreamError>)
    requires WellFormed(st) && (e.DictRef? ==> e.ref < |st.dicts|)
    ensures r.Failure? <==> name !in st.message || !st.message[name].List?
    ensures r.Success? ==> WellFormed(r.value) && r.value == st.(message := r.value.message)
    ensures r.Success? ==> r.value.message == st.message[name := List(st.message[name].items + [e])]
  {
    if name !in st.message then Failure(KeyError(name))
    else if !st.message[name].List? then Failure(AttributeError(name))
    else Success(st.(message := st.message[name := List(st.message[name].items + [e])]))
  }

  /** current_dict[key] = value. */
  function SetKey(st: St, key: string, v: Scalar): (r: St)
    requires WellFormed(st)
    ensures WellFormed(r)
  {
    match st.current
    case Top => st.(message := st.message[key := Plain(v)])
    case Nested(ref) => st.(dicts := st.dicts[ref := st.dicts[ref][key := v]])
  }

  /** One token on the path of an event: the event is under way and its type is the
      fifth component; a start_array puts an empty list at the key, a start_map appends
      a fresh dict to the list named by the penultimate component and makes it the
      current dict, an end_map makes the message current again; a scalar under the key
      "item" is appended to the list named by the penultimate component, any other
      scalar is written into the current dict. */
  function InEvent(st: St, t: Token): (r: Result<St, StreamError>)
    requires WellFormed(st) && OnEventPath(t.prefix)
    ensures r.Success? ==> WellFormed(r.value) && r.value.inMessage && r.value.conversationId == st.conversationId
  {
    var p := t.prefix;
    var key, name := p[|p| - 1], p[|p| - 2];
    var s := st.(inMessage := true, message := st.message["type" := Plain(JString(p[4]))]);
    match t.event
    case StartArray => Success(s.(message := s.message[key := List([])]))
    case StartMap =>
      var ref := |s.dicts|;
      var grown := s.(dicts := s.dicts + [map[]]);
      (match Append(grown, name, DictRef(ref))
       case Failure(e) => Failure(e)
       case Success(s1) => Success(s1.(current := Nested(ref))))
    case EndMap => Success(s.(current := Top))
    case Value =>
      if key == "item" then Append(s, name, Item(t.value))
      else Success(SetKey(s, key, t.value))
    case _ => Success(s)
  }

  /** The state after a yield: message, current_dict and in_message start afresh. */
  function Reset(st: St): St
  {
    st.(inMessage := false, message := map[], current := Top)
  }

  /** The event yielded at the end of a message item: the message with the conversation
      id added. */
  function Finished(st: St): map<string, OutField>
    requires WellFormed(st)
  {
    Resolve(st.message["conversationId" := Plain(st.conversationId)], st.dicts)
  }

  datatype Stepped = Stepped(st: St, out: Option<map<string, OutField>>)

  /** The body of the loop of __iter__ for one token. */
  function Step(st: St, t: Token): (r: Result<Stepped, StreamError>)
    requires WellFormed(st)
    ensures r.Success? ==> WellFormed(r.value.st)
  {
    var st1 := if t.prefix == ConversationIdPath then st.(conversationId := t.value) else st;
    if OnEventPath(t.prefix) then
      match InEvent(st1, t)
      case Failure(e) => Failure(e)
      case Success(s) => Success(Stepped(s, None))
    else if t.prefix == MessagesItemPath && st1.inMessage then
      Success(Stepped(Reset(st1), Some(Finished(st1))))
    else Success(Stepped(st1, None))
  }

  /** What __iter__ has done after a run of tokens: the events yielded, the error that
      ended it if any, the state, and the number of tokens fully processed. */
  datatype Run = Run(events: seq<map<string, OutField>>, error: Option<StreamError>, st: St, processed: nat)

  function Iterate(tokens: seq<Token>): (r: Run)
    ensures WellFormed(r.st)
    ensures r.error.None? ==> r.processed == |tokens|
    ensures r.error.Some? ==> r.processed < |tokens|
    decreases |tokens|
  {
    if tokens == [] then Run([], None, Init, 0)
    else
      var r := Iterate(tokens[..|tokens| - 1]);
      if r.error.Some? then r
      else match Step(r.st, tokens[|tokens| - 1])
        case Failure(e) => Run(r.events, Some(e), r.st, r.processed)
        case Success(s) =>
          Run(r.events + (if s.out.Some? then [s.out.value] else []), None, s.st, r.processed + 1)
  }

  // ----- Properties -----

  /** A token off every event path touches nothing but, when it is the conversation id
      token, the conversation id, unless it closes a message item under way. */
  lemma OffPathChangesNothing(st: St, t: Token)
    requires WellFormed(st) && !OnEventPath(t.prefix) && !(t.prefix == MessagesItemPath && st.inMessage)
    ensures Step(st, t) == Success(Stepped(
      st.(conversationId := if t.prefix == ConversationIdPath then t.value else st.conversationId), None))
  {
  }

  /** An event is yielded exactly when a token with the message item's own prefix arrives
      while an event is under way; it then carries the conversation id, and the message,
      the current dict and in_message are reset. */
  lemma YieldAtBoundary(st: St, t: Token)
    requires WellFormed(st)
    ensures var r := Step(st, t);
      (r.Success? && r.value.out.Some?) <==> t.prefix == MessagesItemPath && st.inMessage
    ensures var r := Step(st, t);
      r.Success? && r.value.out.Some? ==>
        && r.value.out.value.Keys == st.message.Keys + {"conversationId"}
        && r.value.out.value["conversationId"] == OutPlain(st.conversationId)
        && !r.value.st.inMessage && r.value.st.message == map[] && r.value.st.current == Top
  {
    assert MessagesItemPath != ConversationIdPath;
    if t.prefix == MessagesItemPath {
      assert !OnEventPath(t.prefix);
    }
  }

  /** A token on an event path sets the event under way and its type to the fifth
      component of the prefix, unless its own key is "type"; it raises only for a
      start_map or an "item" scalar whose list is missing or not a list (the "type"
      entry, just written, being a string). */
  lemma EventPathStep(st: St, t: Token)
    requires WellFormed(st) && OnEventPath(t.prefix)
    ensures var r, p := Step(st, t), t.prefix;
      var name := p[|p| - 2];
      && (r.Success? ==> r.value.out.None? && r.value.st.inMessage)
      && (r.Success? && p[|p| - 1] != "type" ==> r.value.st.message["type"] == Plain(JString(p[4])))
      && (r.Failure? <==>
            (t.event == StartMap || (t.event == Value && p[|p| - 1] == "item"))
            && (name == "type" || name !in st.message || !st.message[name].List?))
  {
    var p := t.prefix;
    assert p != ConversationIdPath;
  }

  /** A start_map appends a fresh empty dict to its list, and a scalar that follows it
      on an event path, not under "item", is written into that dict, where the yielded
      event will show it; the list itself is not otherwise changed. */
  lemma StartMapDirectsScalars(st: St, t1: Token, t2: Token)
    requires WellFormed(st) && OnEventPath(t1.prefix) && t1.event == StartMap && InEvent(st, t1).Success?
    requires OnEventPath(t2.prefix) && t2.event == Value && t2.prefix[|t2.prefix| - 1] != "item"
    ensures var name, s1 := t1.prefix[|t1.prefix| - 2], InEvent(st, t1).value;
      && name in st.message && st.message[name].List?
      && Resolve(s1.message, s1.dicts)[name]
           == OutList(ResolveField(st.message[name], st.dicts).items + [OutDict(map[])])
      && InEvent(s1, t2).Success?
      && var s2 := InEvent(s1, t2).value;
         var key := t2.prefix[|t2.prefix| - 1];
         && name in s2.message && s2.message[name] == s1.message[name]
         && var out := Resolve(s2.message, s2.dicts)[name];
            out.OutList? && |out.items| > 0 && out.items[|out.items| - 1] == OutDict(map[key := t2.value])
  {
    var name := t1.prefix[|t1.prefix| - 2];
    var s1 := InEvent(st, t1).value;
    var ref := |st.dicts|;
    assert s1.current == Nested(ref) && s1.dicts == st.dicts + [map[]];
    assert s1.message[name] == List(st.message[name].items + [DictRef(ref)]);
    var s2 := InEvent(s1, t2).value;
    assert s2.dicts == s1.dicts[ref := map[t2.prefix[|t2.prefix| - 1] := t2.value]];
  }

  /** An end_map makes the message the current dict again, so a scalar that follows it
      on an event path, not under "item", is written into the message itself. */
  lemma EndMapReturnsToMessage(st: St, t1: Token, t2: Token)
    requires WellFormed(st) && OnEventPath(t1.prefix) && t1.event == EndMap
    requires OnEventPath(t2.prefix) && t2.event == Value && t2.prefix[|t2.prefix| - 1] != "item"
    ensures InEvent(st, t1).Success? && InEvent(st, t1).value.current == Top
    ensures var s2 := InEvent(InEvent(st, t1).value, t2);
      s2.Success? && s2.value.message[t2.prefix[|t2.prefix| - 1]] == Plain(t2.value)
  {
  }

  /** A start_array puts an empty list at its key; an "item" scalar is appended to the
      list named by the penultimate component. */
  lemma ArraysCollectItems(st: St, t: Token)
    requires WellFormed(st) && OnEventPath(t.prefix)
    ensures var r, p := InEvent(st, t), t.prefix;
      t.event == StartArray ==> r.Success? && r.value.message[p[|p| - 1]] == List([])
    ensures var r, p := InEvent(st, t), t.prefix;
      var name := p[|p| - 2];
      t.event == Value && p[|p| - 1] == "item" && r.Success? ==>
        name in st.message && st.message[name].List?
        && r.value.message[name] == List(st.message[name].items + [Item(t.value)])
  {
  }

  /** One more token of a run that has not raised. */
  lemma IterateNext(tokens: seq<Token>, i: nat)
    requires i < |tokens| && Iterate(tokens[..i]).error.None?
    ensures var r := Iterate(tokens[..i]);
      Iterate(tokens[..i + 1]) == match Step(r.st, tokens[i])
        case Failure(e) => Run(r.events, Some(e), r.st, r.processed)
        case Success(s) => Run(r.events + (if s.out.Some? then [s.out.value] else []), None, s.st, r.processed + 1)
  {
    assert tokens[..i + 1][..i] == tokens[..i];
  }

  /** A run that raised stops there: later tokens change nothing. */
  lemma {:induction false} ErrorStops(tokens: seq<Token>, k: nat)
    requires k <= |tokens| && Iterate(tokens[..k]).error.Some?
    ensures Iterate(tokens) == Iterate(tokens[..k])
    decreases |tokens|
  {
    if k < |tokens| {
      var init := tokens[..|tokens| - 1];
      assert init[..k] == tokens[..k];
      ErrorStops(init, k);
    } else {
      assert tokens[..k] == tokens;
    }
  }

  /** The value of the last conversation id token, "" before any. */
  function LastConversationId(tokens: seq<Token>): Scalar
    decreases |tokens|
  {
    if tokens == [] then JString("")
    else if tokens[|tokens| - 1].prefix == ConversationIdPath then tokens[|tokens| - 1].value
    else LastConversationId(tokens[..|tokens| - 1])
  }

  /** The conversation id held is always that of the latest conversation id token. */
  lemma {:induction false} ConversationIdIsLatest(tokens: seq<Token>)
    ensures Iterate(tokens).error.None? ==> Iterate(tokens).st.conversationId == LastConversationId(tokens)
    decreases |tokens|
  {
    if tokens != [] {
      var init := tokens[..|tokens| - 1];
      ConversationIdIsLatest(init);
      var r, t := Iterate(init), tokens[|tokens| - 1];
      if r.error.None? && Iterate(tokens).error.None? {
        var st1 := if t.prefix == ConversationIdPath then r.st.(conversationId := t.value) else r.st;
        assert Step(r.st, t).value.st.conversationId == st1.conversationId by {
          assert MessagesItemPath != ConversationIdPath;
          if OnEventPath(t.prefix) {
            assert t.prefix != ConversationIdPath;
          }
        }
      }
    }
  }

  /** The fifth component of the latest token on an event path. */
  function LastEventType(tokens: seq<Token>): Option<string>
    decreases |tokens|
  {
    if tokens == [] then None
    else if OnEventPath(tokens[|tokens| - 1].prefix) then Some(tokens[|tokens| - 1].prefix[4])
    else LastEventType(tokens[..|tokens| - 1])
  }

  /** No token on an event path is itself under a "type" key. */
  predicate NoTypeKey(tokens: seq<Token>)
  {
    forall i :: 0 <= i < |tokens| && OnEventPath(tokens[i].prefix) ==>
      tokens[i].prefix[|tokens[i].prefix| - 1] != "type"
  }

  /** While an event is under way its type is the fifth component of the latest token on
      an event path. */
  lemma {:induction false} TypeIsLatest(tokens: seq<Token>)
    requires NoTypeKey(tokens)
    ensures var r := Iterate(tokens);
      r.error.None? && r.st.inMessage ==>
        LastEventType(tokens).Some? && "type" in r.st.message
        && r.st.message["type"] == Plain(JString(LastEventType(tokens).value))
    decreases |tokens|
  {
    if tokens != [] {
      var init, t := tokens[..|tokens| - 1], tokens[|tokens| - 1];
      assert NoTypeKey(init) by {
        forall i | 0 <= i < |init| ensures init[i] == tokens[i] { }
      }
      TypeIsLatest(init);
      var r := Iterate(init);
      if r.error.None? && Iterate(tokens).error.None? {
        if OnEventPath(t.prefix) {
          EventPathStep(r.st, t);
        } else if !(t.prefix == MessagesItemPath && r.st.inMessage) {
          OffPathChangesNothing(r.st, t);
        } else {
          YieldAtBoundary(r.st, t);
        }
      }
    }
  }

  /** Each yielded event's conversationId is the value of the latest conversation id
      token before it, its type the fifth component of the latest token on an event
      path, and the events come out one per closing message item. */
  lemma YieldedEvent(tokens: seq<Token>, i: nat)
    requires i < |tokens| && Iterate(tokens[..i]).error.None?
    requires tokens[i].prefix == MessagesItemPath && Iterate(tokens[..i]).st.inMessage
    ensures var before, after := Iterate(tokens[..i]), Iterate(tokens[..i + 1]);
      && after.error.None?
      && after.events == before.events + [Finished(before.st)]
      && after.events[|after.events| - 1]["conversationId"] == OutPlain(LastConversationId(tokens[..i]))
    ensures NoTypeKey(tokens[..i]) ==>
      var e := Iterate(tokens[..i + 1]).events[|Iterate(tokens[..i + 1]).events| - 1];
      LastEventType(tokens[..i]).Some? && "type" in e
      && e["type"] == OutPlain(JString(LastEventType(tokens[..i]).value))
  {
    var before := Iterate(tokens[..i]);
    assert tokens[..i + 1][..i] == tokens[..i];
    ConversationIdIsLatest(tokens[..i]);
    YieldAtBoundary(before.st, tokens[i]);
    assert MessagesItemPath != ConversationIdPath;
    if NoTypeKey(tokens[..i]) {
      TypeIsLatest(tokens[..i]);
    }
  }

  /** The number of tokens the counter has counted: all of them after a run that did not
      raise, and those before the one that raised otherwise. */
  lemma ProcessedCount(tokens: seq<Token>)
    ensures Iterate(tokens).processed <= |tokens|
    ensures Iterate(tokens).error.None? <==> Iterate(tokens).processed == |tokens|
  {
  }

  /** MessageStream: the parser's tokens for its file, the pre-counted total and the
      counter of processed tokens. */
  class MessageStream {
    /** What ijson.parse gives for the file, each time it is read. */
    const tokens: seq<Token>
    const total: nat
    var processed: nat

    /** __init__: the counter starts at zero and the total is counted in one pass. */
    constructor (tokens: seq<Token>)
      ensures this.tokens == tokens && total == |tokens| && processed == 0
    {
      this.tokens := tokens;
      var n := 0;
      for i := 0 to |tokens|
        invariant n == i
      {
        n := n + 1;
      }
      total := n;
      processed := 0;
    }

    /** __iter__: the events in order, up to the error that ends the iteration if one is
        raised; the counter goes up once per token fully processed. */
    method Iter() returns (events: seq<map<string, OutField>>, error: Option<StreamError>)
      modifies this
      ensures events == Iterate(tokens).events && error == Iterate(tokens).error
      ensures processed == old(processed) + Iterate(tokens).processed
    {
      var st := Init;
      events, error := [], None;
      var i := 0;
      while i < |tokens|
        invariant 0 <= i <= |tokens|
        invariant var r := Iterate(tokens[..i]);
          r.error.None? && r.events == events && r.processed == i && r.st == st
        invariant processed == old(processed) + i
      {
        IterateNext(tokens, i);
        var r := TokenStep(st, tokens[i]);
        match r {
          case Failure(e) =>
            error := Some(e);
            ErrorStops(tokens, i + 1);
            return;
          case Success(s) =>
            if s.out.Some? {
              events := events + [s.out.value];
            }
            st := s.st;
        }
        processed := processed + 1;
        i := i + 1;
      }
      assert tokens[..|tokens|] == tokens;
    }

    /** The body of the loop of __iter__ for one token: the event it yields, if any. */
    static method TokenStep(st: St, t: Token) returns (r: Result<Stepped, StreamError>)
      requires WellFormed(st)
      ensures r == Step(st, t)
    {
      var s := st;
      if t.prefix == ConversationIdPath {
        s := s.(conversationId := t.value);
      }
      if OnEventPath(t.prefix) {
        var e := EventToken(s, t);
        match e {
          case Failure(err) =>
            return Failure(err);
          case Success(s1) =>
            s := s1;
        }
        r := Success(Stepped(s, None));
      } else if t.prefix == MessagesItemPath && s.inMessage {
        var message := Finished(s);
        r := Success(Stepped(s.(message := map[], current := Top, inMessage := false), Some(message)));
      } else {
        r := Success(Stepped(s, None));
      }
    }

    /** The event branch of the loop of __iter__ for one token. */
    static method EventToken(st: St, t: Token) returns (r: Result<St, StreamError>)
      requires WellFormed(st) && OnEventPath(t.prefix)
      ensures r == InEvent(st, t)
    {
      var message, current, dicts := st.message, st.current, st.dicts;
      var p := t.prefix;
      var key, name := p[|p| - 1], p[|p| - 2];
      message := message["type" := Plain(JString(p[4]))];
      match t.event {
        case StartArray =>
          message := message[key := List([])];
        case StartMap =>
          if name !in message {
            return Failure(KeyError(name));
          } else if !message[name].List? {
            return Failure(AttributeError(name));
          }
          var ref := |dicts|;
          dicts := dicts + [map[]];
          message := message[name := List(message[name].items + [DictRef(ref)])];
          current := Nested(ref);
        case EndMap =>
          current := Top;
        case Value =>
          if key == "item" {
            if name !in message {
              return Failure(KeyError(name));
            } else if !message[name].List? {
              return Failure(AttributeError(name));
            }
            message := message[name := List(message[name].items + [Item(t.value)])];
          } else if current.Top? {
            message := message[key := Plain(t.value)];
          } else {
            dicts := dicts[current.ref := dicts[current.ref][key := t.value]];
          }
        case _ =>
      }
      r := Success(St(st.conversationId, true, message, current, dicts));
    }
  }
}

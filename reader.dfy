/** The conversation objects of the reader and the caches that hold them.

    A conversation row becomes a Conversation by looking up the users it names
    (other_person, added_by and, for an unnamed group, its five most active participants).
    The reader keeps the conversations it has built in conversations_cache and records, for
    every user, the conversations built from that user's data, so that a nickname edit can
    evict exactly those. */
module Reader {
  import opened Wrappers
  import opened Strings
  import opened Sorting
  import opened Timestamps
  import opened Traversal
  import opened Rows

  /** A key of the reader's dictionaries. users_cache is filled under the summary's string
      id but looked up and popped with int ids, and the dependency sets hold conversation
      ids next to the int 0 that added_by dependencies are registered under, so the model
      keeps the two kinds of key apart. */
  datatype CacheKey = IntKey(n: int) | StrKey(s: string)

  /** A conversations row (the aggregate columns are left out); other_person and added_by
      are user ids. */
  datatype ConversationRow = ConversationRow(
    id: string, kind: string, createdByMe: bool,
    otherPerson: Option<nat>, addedBy: Option<nat>, notes: Option<string>)

  datatype Conversation = Conversation(
    id: string, kind: string, createdByMe: bool,
    otherPerson: Option<UserSummary>, addedBy: Option<UserSummary>,
    name: string, imageUrl: string, notes: string)

  /** `if row[9]:` on a nullable user id. */
  predicate Truthy(u: Option<nat>)
  {
    u.Some? && u.value != 0
  }

  // ----- Lookups -----

  /** The first users row with this id. */
  function UserWithId(users: seq<UserRow>, id: nat): (r: Option<UserRow>)
    ensures r.Some? ==> r.value in users && r.value.id == id
    ensures r.None? ==> forall u :: u in users ==> u.id != id
  {
    if users == [] then None
    else if users[0].id == id then Some(users[0])
    else UserWithId(users[1..], id)
  }

  /** The users rows `where id in (...)`, in table order. */
  function UsersWithIds(users: seq<UserRow>, ids: seq<nat>): (r: seq<UserRow>)
    ensures forall u :: u in r <==> u in users && u.id in ids
  {
    Filter(users, (u: UserRow) => u.id in ids)
  }

  function Summaries(rows: seq<UserRow>): (r: seq<UserSummary>)
    ensures |r| == |rows|
  {
    MapSeq(rows, FormatUser)
  }

  /** get_users_by_id([id])[0] is the summary of the first row with that id. */
  lemma {:induction false} FetchOne(users: seq<UserRow>, id: nat)
    ensures UsersWithIds(users, [id]) != [] <==> UserWithId(users, id).Some?
    ensures UserWithId(users, id).Some? ==> UsersWithIds(users, [id])[0] == UserWithId(users, id).value
  {
    if users != [] {
      FetchOne(users[1..], id);
      assert UsersWithIds(users, [id]) ==
        (if users[0].id in [id] then [users[0]] else []) + UsersWithIds(users[1..], [id]);
    }
  }

  /** The first conversations row with this id; the id is the table's primary key. */
  function RowWithId(rows: seq<ConversationRow>, id: string): (r: Option<ConversationRow>)
    ensures r.Some? ==> r.value in rows && r.value.id == id
    ensures r.None? ==> forall c :: c in rows ==> c.id != id
  {
    if rows == [] then None
    else if rows[0].id == id then Some(rows[0])
    else RowWithId(rows[1..], id)
  }

  // ----- Building a conversation -----

  /** What the reader needs of a row: the users it names exist, and an individual
      conversation names the other person. */
  predicate RowIntegrity(row: ConversationRow, users: seq<UserRow>)
  {
    && (Truthy(row.otherPerson) ==> UserWithId(users, row.otherPerson.value).Some?)
    && (Truthy(row.addedBy) ==> UserWithId(users, row.addedBy.value).Some?)
    && (row.kind == "individual" ==> Truthy(row.otherPerson))
  }

  predicate Integrity(rows: seq<ConversationRow>, users: seq<UserRow>)
  {
    forall i :: 0 <= i < |rows| ==> RowIntegrity(rows[i], users)
  }

  lemma StoredRowIntegrity(rows: seq<ConversationRow>, users: seq<UserRow>, row: ConversationRow)
    requires Integrity(rows, users) && row in rows
    ensures RowIntegrity(row, users)
  {
    var j :| 0 <= j < |rows| && rows[j] == row;
  }

  function Lookup(u: Option<nat>, users: seq<UserRow>): Option<UserSummary>
    requires Truthy(u) ==> UserWithId(users, u.value).Some?
  {
    if Truthy(u) then Some(FormatUser(UserWithId(users, u.value).value)) else None
  }

  /** "select new_name from name_updates where conversation=? order by update_time desc
      limit 1". */
  function NewestName(updates: seq<NameUpdateRow>, conversation: string): Option<string>
  {
    var s := SortBy(RenamesOf(updates, conversation), Latest);
    if s == [] then None else Some(s[0].newName)
  }

  function RenamesOf(updates: seq<NameUpdateRow>, conversation: string): (r: seq<NameUpdateRow>)
    ensures forall u :: u in r <==> u in updates && u.conversation == conversation
  {
    Filter(updates, (u: NameUpdateRow) => u.conversation == conversation)
  }

  /** The key of "order by update_time desc". */
  function Latest(u: NameUpdateRow): int
  {
    -u.updateTime
  }

  /** The name-rows behind a group's name: the join of its participants with users,
      ordered by messages_sent, most first. */
  function Ranked(db: Store, users: seq<UserRow>, conversation: string): seq<NameRow>
  {
    JoinUsers(SortBy(ParticipantsOf(db, conversation), MostActive), users)
  }

  function ParticipantsOf(db: Store, conversation: string): seq<ParticipantRow>
  {
    Filter(db.participants, (p: ParticipantRow) => p.conversation == conversation)
  }

  /** The key of "order by messages_sent desc". */
  function MostActive(p: ParticipantRow): int
  {
    -(p.messagesSent as int)
  }

  /** "join users on participants.participant=users.id": participants without a users row
      drop out. */
  function JoinUsers(ps: seq<ParticipantRow>, users: seq<UserRow>): (r: seq<NameRow>)
    ensures |r| <= |ps|
  {
    if ps == [] then [] else JoinOne(ps[0], users) + JoinUsers(ps[1..], users)
  }

  function JoinOne(p: ParticipantRow, users: seq<UserRow>): (r: seq<NameRow>)
    ensures |r| <= 1
  {
    match UserWithId(users, p.participant)
    case None => []
    case Some(u) => [NameRow(u.nickname, Some(u.displayName), u.id)]
  }

  /** Conversation.from_row. */
  function ConversationOf(row: ConversationRow, users: seq<UserRow>, db: Store): Conversation
    requires RowIntegrity(row, users)
  {
    var other := Lookup(row.otherPerson, users);
    var individual := row.kind == "individual";
    Conversation(
      row.id, row.kind, row.createdByMe, other, Lookup(row.addedBy, users),
      if individual then IndividualName(other.value)
      else GroupName(NewestName(db.nameUpdates, row.id), Ranked(db, users, row.id)),
      if individual then other.value.avatarUrl else GroupDmDefaultUrl,
      OrEmpty(row.notes))
  }

  /** The users whose data the conversation's other person and name are built from. */
  function DependsOn(row: ConversationRow, users: seq<UserRow>, db: Store): set<nat>
  {
    (if Truthy(row.otherPerson) then {row.otherPerson.value} else {})
    + (if row.kind != "individual" && NewestName(db.nameUpdates, row.id).None?
       then NamedParticipants(Ranked(db, users, row.id)) else {})
  }

  /** An individual conversation is named and pictured after the other person; a group
      gets the group picture. */
  lemma ConversationKinds(row: ConversationRow, users: seq<UserRow>, db: Store)
    requires RowIntegrity(row, users)
    ensures row.kind == "individual" ==>
      var other := FormatUser(UserWithId(users, row.otherPerson.value).value);
      ConversationOf(row, users, db).name == IndividualName(other) &&
      ConversationOf(row, users, db).imageUrl == other.avatarUrl &&
      DependsOn(row, users, db) == {row.otherPerson.value}
    ensures row.kind != "individual" ==> ConversationOf(row, users, db).imageUrl == GroupDmDefaultUrl
    ensures ConversationOf(row, users, db).id == row.id
  {
  }

  /** A renamed group is called by the text of its latest rename, the first such in table
      order when several share that time; a group never renamed has no rename to use. */
  lemma NewestNameLatest(updates: seq<NameUpdateRow>, conversation: string)
    ensures NewestName(updates, conversation).None? <==>
      forall u :: u in updates ==> u.conversation != conversation
    ensures NewestName(updates, conversation).Some? ==>
      exists u :: u in updates && u.conversation == conversation &&
        u.newName == NewestName(updates, conversation).value &&
        forall v :: v in updates && v.conversation == conversation ==> v.updateTime <= u.updateTime
  {
    var f := RenamesOf(updates, conversation);
    var s := SortBy(f, Latest);
    if s == [] {
      assert f == [];
      forall u | u in updates
        ensures u.conversation != conversation
      {
        assert u !in f;
      }
    } else {
      SortByFirst(f, Latest);
      var i := FirstMinIndex(f, Latest);
      var u := f[i];
      assert s[0] == u && u in f;
      forall v | v in updates && v.conversation == conversation
        ensures v.updateTime <= u.updateTime
      {
        assert v in f;
        FirstMinLeast(f, Latest, v);
      }
      assert u in updates && u.conversation == conversation;
    }
  }

  // ----- Registering dependencies -----

  /** user_data_in_conversations[user], created empty on first use like a defaultdict. */
  function DepsOf(deps: map<nat, set<CacheKey>>, user: nat): set<CacheKey>
  {
    if user in deps then deps[user] else {}
  }

  /** cache_user_conversation_dependency. */
  function Register(deps: map<nat, set<CacheKey>>, user: nat, c: CacheKey): map<nat, set<CacheKey>>
  {
    deps[user := DepsOf(deps, user) + {c}]
  }

  function RegisterAll(deps: map<nat, set<CacheKey>>, users: seq<nat>, c: CacheKey): map<nat, set<CacheKey>>
    decreases |users|
  {
    if users == [] then deps else RegisterAll(Register(deps, users[0], c), users[1..], c)
  }

  /** Registering the first of the remaining users leaves the rest to register. */
  lemma RegisterAllStep(deps: map<nat, set<CacheKey>>, users: seq<nat>, i: nat, c: CacheKey)
    requires i < |users|
    ensures RegisterAll(Register(deps, users[i], c), users[i + 1..], c) == RegisterAll(deps, users[i..], c)
  {
    assert users[i..][0] == users[i];
    assert users[i..][1..] == users[i + 1..];
  }

  function ParticipantIds(rows: seq<NameRow>): (r: seq<nat>)
    ensures |r| == |rows|
    ensures forall i :: 0 <= i < |rows| ==> r[i] == rows[i].participant
  {
    MapSeq(rows, (x: NameRow) => x.participant)
  }

  /** The registrations from_row makes, in its order: the other person under the
      conversation, the adder under 0, and the participants named in a group's derived
      name under the conversation. */
  function RowDeps(deps: map<nat, set<CacheKey>>, row: ConversationRow, users: seq<UserRow>, db: Store): map<nat, set<CacheKey>>
  {
    Registrations(deps, row.otherPerson, row.addedBy, NameDeps(row, users, db), StrKey(row.id))
  }

  /** The participants registered for the name: those of a group that was never renamed. */
  function NameDeps(row: ConversationRow, users: seq<UserRow>, db: Store): seq<nat>
  {
    if row.kind != "individual" && NewestName(db.nameUpdates, row.id).None?
    then ParticipantIds(Take(Ranked(db, users, row.id), 5))
    else []
  }

  function Registrations(deps: map<nat, set<CacheKey>>, other: Option<nat>, addedBy: Option<nat>, named: seq<nat>, c: CacheKey): map<nat, set<CacheKey>>
  {
    RegisterAll(UserRegistrations(deps, other, addedBy, c), named, c)
  }

  /** The registrations of the other person and the adder. */
  function UserRegistrations(deps: map<nat, set<CacheKey>>, other: Option<nat>, addedBy: Option<nat>, c: CacheKey): map<nat, set<CacheKey>>
  {
    var d1 := if Truthy(other) then Register(deps, other.value, c) else deps;
    if Truthy(addedBy) then Register(d1, addedBy.value, IntKey(0)) else d1
  }

  /** Registration only ever adds. */
  ghost predicate Grows(deps: map<nat, set<CacheKey>>, deps': map<nat, set<CacheKey>>)
  {
    forall u :: u in deps ==> u in deps' && deps[u] <= deps'[u]
  }

  lemma {:induction false} RegisterAllFacts(deps: map<nat, set<CacheKey>>, users: seq<nat>, c: CacheKey)
    ensures Grows(deps, RegisterAll(deps, users, c))
    ensures forall i :: 0 <= i < |users| ==>
      users[i] in RegisterAll(deps, users, c) && c in RegisterAll(deps, users, c)[users[i]]
    decreases |users|
  {
    if users != [] {
      var d := Register(deps, users[0], c);
      RegisterAllFacts(d, users[1..], c);
      forall i | 0 <= i < |users| ensures users[i] in RegisterAll(deps, users, c) && c in RegisterAll(deps, users, c)[users[i]] {
        if i > 0 {
          assert users[i] == users[1..][i - 1];
        }
      }
    }
  }

  lemma RegisterFacts(deps: map<nat, set<CacheKey>>, user: nat, c: CacheKey)
    ensures Grows(deps, Register(deps, user, c))
    ensures user in Register(deps, user, c) && c in Register(deps, user, c)[user]
  {
  }

  lemma GrowsTransitive(d1: map<nat, set<CacheKey>>, d2: map<nat, set<CacheKey>>, d3: map<nat, set<CacheKey>>)
    requires Grows(d1, d2) && Grows(d2, d3)
    ensures Grows(d1, d3)
  {
  }

  lemma RegistrationsFacts(deps: map<nat, set<CacheKey>>, other: Option<nat>, addedBy: Option<nat>, named: seq<nat>, c: CacheKey)
    ensures Grows(deps, Registrations(deps, other, addedBy, named, c))
    ensures Truthy(other) ==>
      other.value in Registrations(deps, other, addedBy, named, c) && c in Registrations(deps, other, addedBy, named, c)[other.value]
    ensures forall i :: 0 <= i < |named| ==>
      named[i] in Registrations(deps, other, addedBy, named, c) && c in Registrations(deps, other, addedBy, named, c)[named[i]]
    ensures Truthy(addedBy) ==>
      addedBy.value in Registrations(deps, other, addedBy, named, c) && IntKey(0) in Registrations(deps, other, addedBy, named, c)[addedBy.value]
  {
    var d1 := if Truthy(other) then Register(deps, other.value, c) else deps;
    var d2 := if Truthy(addedBy) then Register(d1, addedBy.value, IntKey(0)) else d1;
    if Truthy(other) {
      RegisterFacts(deps, other.value, c);
    }
    if Truthy(addedBy) {
      RegisterFacts(d1, addedBy.value, IntKey(0));
    }
    RegisterAllFacts(d2, named, c);
    GrowsTransitive(deps, d1, d2);
    GrowsTransitive(deps, d2, RegisterAll(d2, named, c));
  }

  /** After from_row, every user the conversation depends on lists it, the adder lists 0
      rather than the conversation, and no earlier registration is lost. */
  lemma RowDepsFacts(deps: map<nat, set<CacheKey>>, row: ConversationRow, users: seq<UserRow>, db: Store)
    ensures Grows(deps, RowDeps(deps, row, users, db))
    ensures forall v :: v in DependsOn(row, users, db) ==>
      v in RowDeps(deps, row, users, db) && StrKey(row.id) in RowDeps(deps, row, users, db)[v]
    ensures Truthy(row.addedBy) ==>
      row.addedBy.value in RowDeps(deps, row, users, db) && IntKey(0) in RowDeps(deps, row, users, db)[row.addedBy.value]
  {
    var named := NameDeps(row, users, db);
    var d := RowDeps(deps, row, users, db);
    RegistrationsFacts(deps, row.otherPerson, row.addedBy, named, StrKey(row.id));
    forall v | v in DependsOn(row, users, db) ensures v in d && StrKey(row.id) in d[v] {
      if !(Truthy(row.otherPerson) && v == row.otherPerson.value) {
        var ranked := Ranked(db, users, row.id);
        assert v in NamedParticipants(ranked);
        var i :| 0 <= i < |ranked| && i < 5 && ranked[i].participant == v;
        assert named[i] == v;
      }
    }
  }

  // ----- Edits of the tables -----

  /** "update users set ... where id=?": f applied to the rows with that id. */
  function UpdateUsers(users: seq<UserRow>, id: nat, f: UserRow -> UserRow): (r: seq<UserRow>)
    ensures |r| == |users|
    ensures forall i :: 0 <= i < |users| ==> r[i] == if users[i].id == id then f(users[i]) else users[i]
  {
    if users == [] then [] else [if users[0].id == id then f(users[0]) else users[0]] + UpdateUsers(users[1..], id, f)
  }

  /** The nickname column receives new_nickname[0:50]. */
  function SetNickname(nickname: string): UserRow -> UserRow
  {
    (u: UserRow) => u.(nickname := Some(Take(nickname, 50)))
  }

  function SetUserNotesTo(notes: string): UserRow -> UserRow
  {
    (u: UserRow) => u.(notes := Some(notes))
  }

  /** An edit that keeps every row's id. */
  ghost predicate KeepsIds(f: UserRow -> UserRow)
  {
    forall u :: f(u).id == u.id
  }

  lemma {:induction false} UserWithIdUpdate(users: seq<UserRow>, id: nat, f: UserRow -> UserRow, v: nat)
    requires KeepsIds(f)
    ensures UserWithId(UpdateUsers(users, id, f), v).Some? <==> UserWithId(users, v).Some?
    ensures v != id ==> UserWithId(UpdateUsers(users, id, f), v) == UserWithId(users, v)
    ensures v == id && UserWithId(users, v).Some? ==>
      UserWithId(UpdateUsers(users, id, f), v) == Some(f(UserWithId(users, v).value))
  {
    if users != [] {
      var r := UpdateUsers(users, id, f);
      assert r[1..] == UpdateUsers(users[1..], id, f);
      assert r[0].id == users[0].id;
      UserWithIdUpdate(users[1..], id, f, v);
    }
  }

  /** Two name-row lists that differ at most in the entries of one participant. */
  ghost predicate SameParticipants(r: seq<NameRow>, r': seq<NameRow>, id: nat)
  {
    |r'| == |r| &&
    forall i :: 0 <= i < |r| ==> r'[i].participant == r[i].participant && (r[i].participant != id ==> r'[i] == r[i])
  }

  /** The edit only touches the display fields. */
  ghost predicate KeepsNames(f: UserRow -> UserRow)
  {
    forall u :: f(u).nickname == u.nickname && f(u).displayName == u.displayName
  }

  lemma JoinOneUpdate(p: ParticipantRow, users: seq<UserRow>, id: nat, f: UserRow -> UserRow)
    requires KeepsIds(f)
    ensures SameParticipants(JoinOne(p, users), JoinOne(p, UpdateUsers(users, id, f)), id)
    ensures KeepsNames(f) ==> JoinOne(p, UpdateUsers(users, id, f)) == JoinOne(p, users)
  {
    UserWithIdUpdate(users, id, f, p.participant);
  }

  lemma SameParticipantsConcat(a: seq<NameRow>, a': seq<NameRow>, b: seq<NameRow>, b': seq<NameRow>, id: nat)
    requires SameParticipants(a, a', id) && SameParticipants(b, b', id)
    ensures SameParticipants(a + b, a' + b', id)
  {
    forall i | 0 <= i < |a + b|
      ensures (a' + b')[i].participant == (a + b)[i].participant
      ensures (a + b)[i].participant != id ==> (a' + b')[i] == (a + b)[i]
    {
      if i >= |a| {
        assert (a + b)[i] == b[i - |a|] && (a' + b')[i] == b'[i - |a|];
      }
    }
  }

  lemma {:induction false} JoinUsersUpdate(ps: seq<ParticipantRow>, users: seq<UserRow>, id: nat, f: UserRow -> UserRow)
    requires KeepsIds(f)
    ensures SameParticipants(JoinUsers(ps, users), JoinUsers(ps, UpdateUsers(users, id, f)), id)
    ensures KeepsNames(f) ==> JoinUsers(ps, UpdateUsers(users, id, f)) == JoinUsers(ps, users)
  {
    if ps != [] {
      var users' := UpdateUsers(users, id, f);
      JoinOneUpdate(ps[0], users, id, f);
      JoinUsersUpdate(ps[1..], users, id, f);
      SameParticipantsConcat(JoinOne(ps[0], users), JoinOne(ps[0], users'),
        JoinUsers(ps[1..], users), JoinUsers(ps[1..], users'), id);
    }
  }

  /** Rows that agree everywhere but on one participant's entries, where the participant
      is not among the five named, give the same name. */
  lemma GroupNameUnaffected(newest: Option<string>, ranked: seq<NameRow>, ranked': seq<NameRow>, id: nat)
    requires SameParticipants(ranked, ranked', id)
    requires id !in NamedParticipants(ranked)
    ensures GroupName(newest, ranked') == GroupName(newest, ranked)
  {
    {
      var t, t' := Take(Take(ranked, 6), 5), Take(Take(ranked', 6), 5);
      forall i | 0 <= i < |t| ensures t'[i] == t[i] {
        assert t[i] == ranked[i] && t'[i] == ranked'[i];
      }
      assert t' == t;
    }
  }

  lemma NamedParticipantsSame(ranked: seq<NameRow>, ranked': seq<NameRow>, id: nat)
    requires SameParticipants(ranked, ranked', id)
    ensures NamedParticipants(ranked') == NamedParticipants(ranked)
  {
    forall u | u in NamedParticipants(ranked) ensures u in NamedParticipants(ranked') {
      var i :| 0 <= i < |ranked| && i < 5 && ranked[i].participant == u;
      assert ranked'[i].participant == u;
    }
  }

  lemma RankedUpdate(db: Store, users: seq<UserRow>, conversation: string, id: nat, f: UserRow -> UserRow)
    requires KeepsIds(f)
    ensures SameParticipants(Ranked(db, users, conversation), Ranked(db, UpdateUsers(users, id, f), conversation), id)
    ensures KeepsNames(f) ==> Ranked(db, UpdateUsers(users, id, f), conversation) == Ranked(db, users, conversation)
  {
    JoinUsersUpdate(SortBy(ParticipantsOf(db, conversation), MostActive), users, id, f);
  }

  /** What a conversation depends on does not change with the users' data. */
  lemma DependsOnUpdate(row: ConversationRow, users: seq<UserRow>, db: Store, id: nat, f: UserRow -> UserRow)
    requires KeepsIds(f)
    ensures DependsOn(row, UpdateUsers(users, id, f), db) == DependsOn(row, users, db)
  {
    RankedUpdate(db, users, row.id, id, f);
    NamedParticipantsSame(Ranked(db, users, row.id), Ranked(db, UpdateUsers(users, id, f), row.id), id);
  }

  lemma IntegrityUpdate(row: ConversationRow, users: seq<UserRow>, id: nat, f: UserRow -> UserRow)
    requires KeepsIds(f) && RowIntegrity(row, users)
    ensures RowIntegrity(row, UpdateUsers(users, id, f))
  {
    if Truthy(row.otherPerson) {
      UserWithIdUpdate(users, id, f, row.otherPerson.value);
    }
    if Truthy(row.addedBy) {
      UserWithIdUpdate(users, id, f, row.addedBy.value);
    }
  }

  /** Editing a user the conversation does not depend on leaves it as it was, except
      perhaps for the adder's summary. */
  lemma ConversationOfUpdate(row: ConversationRow, users: seq<UserRow>, db: Store, id: nat, f: UserRow -> UserRow)
    requires KeepsIds(f) && RowIntegrity(row, users)
    requires id !in DependsOn(row, users, db)
    ensures RowIntegrity(row, UpdateUsers(users, id, f))
    ensures ConversationOf(row, UpdateUsers(users, id, f), db) ==
      ConversationOf(row, users, db).(addedBy := ConversationOf(row, UpdateUsers(users, id, f), db).addedBy)
  {
    var users' := UpdateUsers(users, id, f);
    IntegrityUpdate(row, users, id, f);
    RankedUpdate(db, users, row.id, id, f);
    if row.kind != "individual" && NewestName(db.nameUpdates, row.id).None? {
      GroupNameUnaffected(None, Ranked(db, users, row.id), Ranked(db, users', row.id), id);
    }
    if Truthy(row.otherPerson) {
      UserWithIdUpdate(users, id, f, row.otherPerson.value);
    }
    if Truthy(row.addedBy) {
      UserWithIdUpdate(users, id, f, row.addedBy.value);
    }
  }

  /** An edit of data no summary shows (the notes) changes no conversation. */
  lemma ConversationOfHidden(row: ConversationRow, users: seq<UserRow>, db: Store, id: nat, f: UserRow -> UserRow)
    requires KeepsIds(f) && RowIntegrity(row, users)
    requires KeepsNames(f) && forall u :: FormatUser(f(u)) == FormatUser(u)
    ensures RowIntegrity(row, UpdateUsers(users, id, f))
    ensures ConversationOf(row, UpdateUsers(users, id, f), db) == ConversationOf(row, users, db)
  {
    IntegrityUpdate(row, users, id, f);
    RankedUpdate(db, users, row.id, id, f);
    if Truthy(row.otherPerson) {
      UserWithIdUpdate(users, id, f, row.otherPerson.value);
    }
    if Truthy(row.addedBy) {
      UserWithIdUpdate(users, id, f, row.addedBy.value);
    }
  }

  /** "update conversations set notes=? where id=?". */
  function SetConversationNotesTo(rows: seq<ConversationRow>, id: string, notes: string): (r: seq<ConversationRow>)
    ensures |r| == |rows|
    ensures forall i :: 0 <= i < |rows| ==> r[i] == if rows[i].id == id then rows[i].(notes := Some(notes)) else rows[i]
  {
    if rows == [] then []
    else [if rows[0].id == id then rows[0].(notes := Some(notes)) else rows[0]] + SetConversationNotesTo(rows[1..], id, notes)
  }

  lemma {:induction false} RowWithIdNotes(rows: seq<ConversationRow>, id: string, notes: string, k: string)
    ensures k != id ==> RowWithId(SetConversationNotesTo(rows, id, notes), k) == RowWithId(rows, k)
    ensures k == id && RowWithId(rows, k).Some? ==>
      RowWithId(SetConversationNotesTo(rows, id, notes), k) == Some(RowWithId(rows, k).value.(notes := Some(notes)))
    ensures RowWithId(SetConversationNotesTo(rows, id, notes), k).Some? <==> RowWithId(rows, k).Some?
  {
    if rows != [] {
      assert SetConversationNotesTo(rows, id, notes)[1..] == SetConversationNotesTo(rows[1..], id, notes);
      RowWithIdNotes(rows[1..], id, notes, k);
    }
  }

  // ----- The cache invariants -----

  ghost predicate CachedAgrees(k: CacheKey, c: Conversation, rows: seq<ConversationRow>, users: seq<UserRow>, db: Store)
  {
    && k.StrKey? && RowWithId(rows, k.s).Some? && RowIntegrity(RowWithId(rows, k.s).value, users)
    && c == ConversationOf(RowWithId(rows, k.s).value, users, db).(addedBy := c.addedBy)
  }

  /** Every cached conversation is what its row gives now, apart from the adder's summary:
      added_by dependencies are filed under 0, so an edit of the adder leaves it stale. */
  ghost predicate Coherent(cache: map<CacheKey, Conversation>, rows: seq<ConversationRow>, users: seq<UserRow>, db: Store)
  {
    forall k {:trigger CachedAgrees(k, cache[k], rows, users, db)} :: k in cache ==> CachedAgrees(k, cache[k], rows, users, db)
  }

  ghost predicate ListedUnder(k: CacheKey, vs: set<nat>, deps: map<nat, set<CacheKey>>)
  {
    forall v :: v in vs ==> v in deps && k in deps[v]
  }

  /** Every cached conversation is listed under each user it depends on. */
  ghost predicate Tracked(cache: map<CacheKey, Conversation>, deps: map<nat, set<CacheKey>>, rows: seq<ConversationRow>, users: seq<UserRow>, db: Store)
  {
    forall k {:trigger TrackedKey(k, deps, rows, users, db)} :: k in cache ==> TrackedKey(k, deps, rows, users, db)
  }

  ghost predicate TrackedKey(k: CacheKey, deps: map<nat, set<CacheKey>>, rows: seq<ConversationRow>, users: seq<UserRow>, db: Store)
  {
    k.StrKey? && RowWithId(rows, k.s).Some? && ListedUnder(k, DependsOn(RowWithId(rows, k.s).value, users, db), deps)
  }

  lemma TrackedGrows(cache: map<CacheKey, Conversation>, deps: map<nat, set<CacheKey>>, deps': map<nat, set<CacheKey>>, rows: seq<ConversationRow>, users: seq<UserRow>, db: Store)
    requires Tracked(cache, deps, rows, users, db) && Grows(deps, deps')
    ensures Tracked(cache, deps', rows, users, db)
  {
    forall k | k in cache ensures TrackedKey(k, deps', rows, users, db) {
      assert TrackedKey(k, deps, rows, users, db);
    }
  }

  /** Caching a freshly built conversation keeps both invariants. */
  lemma CacheInsert(cache: map<CacheKey, Conversation>, deps: map<nat, set<CacheKey>>, rows: seq<ConversationRow>, users: seq<UserRow>, db: Store, row: ConversationRow, c: Conversation)
    requires Coherent(cache, rows, users, db) && Tracked(cache, deps, rows, users, db)
    requires RowWithId(rows, row.id) == Some(row) && RowIntegrity(row, users)
    requires c == ConversationOf(row, users, db)
    requires ListedUnder(StrKey(row.id), DependsOn(row, users, db), deps)
    ensures Coherent(cache[StrKey(row.id) := c], rows, users, db)
    ensures Tracked(cache[StrKey(row.id) := c], deps, rows, users, db)
  {
    var cache' := cache[StrKey(row.id) := c];
    forall k | k in cache'
      ensures CachedAgrees(k, cache'[k], rows, users, db)
      ensures TrackedKey(k, deps, rows, users, db)
    {
      if k == StrKey(row.id) {
        assert c == c.(addedBy := c.addedBy);
      } else {
        assert CachedAgrees(k, cache[k], rows, users, db);
        assert TrackedKey(k, deps, rows, users, db);
      }
    }
  }

  /** set_user_nickname keeps the cache coherent and tracked: whatever it does not evict
      does not depend on the user. */
  lemma NicknameEviction(cache: map<CacheKey, Conversation>, deps: map<nat, set<CacheKey>>, rows: seq<ConversationRow>, users: seq<UserRow>, db: Store, id: nat, nickname: string)
    requires Integrity(rows, users) && Coherent(cache, rows, users, db) && Tracked(cache, deps, rows, users, db)
    ensures Integrity(rows, UpdateUsers(users, id, SetNickname(nickname)))
    ensures Coherent(cache - DepsOf(deps, id), rows, UpdateUsers(users, id, SetNickname(nickname)), db)
    ensures Tracked(cache - DepsOf(deps, id), deps[id := DepsOf(deps, id)], rows, UpdateUsers(users, id, SetNickname(nickname)), db)
    ensures forall k :: k in cache - DepsOf(deps, id) ==>
      k.StrKey? && RowWithId(rows, k.s).Some? &&
      id !in DependsOn(RowWithId(rows, k.s).value, UpdateUsers(users, id, SetNickname(nickname)), db)
  {
    var f := SetNickname(nickname);
    var users' := UpdateUsers(users, id, f);
    var ev := DepsOf(deps, id);
    var cache' := cache - ev;
    var deps' := deps[id := ev];
    assert KeepsIds(f);
    forall i | 0 <= i < |rows| ensures RowIntegrity(rows[i], users') {
      IntegrityUpdate(rows[i], users, id, f);
    }
    forall k | k in cache'
      ensures CachedAgrees(k, cache'[k], rows, users', db)
      ensures TrackedKey(k, deps', rows, users', db)
      ensures k.StrKey? && RowWithId(rows, k.s).Some? && id !in DependsOn(RowWithId(rows, k.s).value, users', db)
    {
      assert CachedAgrees(k, cache[k], rows, users, db);
      assert TrackedKey(k, deps, rows, users, db);
      var row := RowWithId(rows, k.s).value;
      assert k !in ev;
      DependsOnUpdate(row, users, db, id, f);
      ConversationOfUpdate(row, users, db, id, f);
    }
  }

  /** set_user_notes changes no conversation, so the caches stay as they are. */
  lemma NotesKeepCache(cache: map<CacheKey, Conversation>, deps: map<nat, set<CacheKey>>, rows: seq<ConversationRow>, users: seq<UserRow>, db: Store, id: nat, notes: string)
    requires Integrity(rows, users) && Coherent(cache, rows, users, db) && Tracked(cache, deps, rows, users, db)
    ensures Integrity(rows, UpdateUsers(users, id, SetUserNotesTo(notes)))
    ensures Coherent(cache, rows, UpdateUsers(users, id, SetUserNotesTo(notes)), db)
    ensures Tracked(cache, deps, rows, UpdateUsers(users, id, SetUserNotesTo(notes)), db)
  {
    var f := SetUserNotesTo(notes);
    var users' := UpdateUsers(users, id, f);
    assert KeepsIds(f);
    assert KeepsNames(f) && forall u :: FormatUser(f(u)) == FormatUser(u);
    forall i | 0 <= i < |rows| ensures RowIntegrity(rows[i], users') {
      IntegrityUpdate(rows[i], users, id, f);
    }
    forall k | k in cache
      ensures CachedAgrees(k, cache[k], rows, users', db)
      ensures TrackedKey(k, deps, rows, users', db)
    {
      assert CachedAgrees(k, cache[k], rows, users, db);
      assert TrackedKey(k, deps, rows, users, db);
      var row := RowWithId(rows, k.s).value;
      DependsOnUpdate(row, users, db, id, f);
      ConversationOfHidden(row, users, db, id, f);
    }
  }

  /** set_conversation_notes keeps the invariants once the edited conversation is evicted. */
  lemma ConversationNotesEviction(cache: map<CacheKey, Conversation>, deps: map<nat, set<CacheKey>>, rows: seq<ConversationRow>, users: seq<UserRow>, db: Store, id: string, notes: string)
    requires Integrity(rows, users) && Coherent(cache, rows, users, db) && Tracked(cache, deps, rows, users, db)
    ensures Integrity(SetConversationNotesTo(rows, id, notes), users)
    ensures Coherent(cache - {StrKey(id)}, SetConversationNotesTo(rows, id, notes), users, db)
    ensures Tracked(cache - {StrKey(id)}, deps, SetConversationNotesTo(rows, id, notes), users, db)
  {
    var rows' := SetConversationNotesTo(rows, id, notes);
    var cache' := cache - {StrKey(id)};
    forall i | 0 <= i < |rows| ensures RowIntegrity(rows'[i], users) {
      assert RowIntegrity(rows[i], users);
    }
    forall k | k in cache'
      ensures CachedAgrees(k, cache'[k], rows', users, db)
      ensures TrackedKey(k, deps, rows', users, db)
    {
      assert CachedAgrees(k, cache[k], rows, users, db);
      assert TrackedKey(k, deps, rows, users, db);
      RowWithIdNotes(rows, id, notes, k.s);
    }
  }

  // ----- The reader -----

  /** The summaries get_users_by_id stores, each under its string id, later ones winning. */
  function CacheAll(cache: map<CacheKey, UserSummary>, found: seq<UserSummary>): map<CacheKey, UserSummary>
    decreases |found|
  {
    if found == [] then cache else CacheAll(cache[StrKey(found[0].id) := found[0]], found[1..])
  }

  lemma {:induction false} CacheAllKeys(cache: map<CacheKey, UserSummary>, found: seq<UserSummary>)
    requires forall k :: k in cache ==> k.StrKey?
    ensures forall k :: k in CacheAll(cache, found) ==> k.StrKey?
    decreases |found|
  {
    if found != [] {
      CacheAllKeys(cache[StrKey(found[0].id) := found[0]], found[1..]);
    }
  }

  /** The summaries one truthy user id fetches. */
  function Fetched(u: Option<nat>, users: seq<UserRow>): seq<UserSummary>
  {
    if Truthy(u) then Summaries(UsersWithIds(users, [u.value])) else []
  }

  /** The failures of the reader's operations: an IndexError for a conversation id with no
      row, the ValueError of the cursor checks, and the ValueError int() raises for a join
      whose added_by is NULL. */
  datatype ReadError = NoSuchConversation(id: string) | BadCursor(e: TraverseError) | NoAdder

  lemma AppendThree<T>(a: seq<T>, b: seq<T>, c: seq<T>, d: seq<T>)
    ensures a + b + c + d == a + (b + c + d)
  {
  }

  /** What traverse_messages returns: "results", "users" and "conversations". */
  datatype Page = Page(results: seq<Item>, users: seq<UserSummary>, conversations: seq<Conversation>)

  // ----- The sidecars of a page of items -----

  /** MessageLike.user_ids: the sender of a message (reactions are not modelled), the
      initiator of a rename, the participant of a leave, and the participant and then the
      adder of a join; None when the adder is NULL. */
  function ItemUserIds(x: Item): Option<seq<nat>>
  {
    match x
    case Message(m) => Some([m.sender])
    case NameUpdate(u) => Some([u.initiator])
    case ParticipantJoin(p) => if p.addedBy.Some? then Some([p.participant, p.addedBy.value]) else None
    case ParticipantLeave(p) => Some([p.participant])
  }

  /** The user id lists of every item, in order; None as soon as one of them fails. */
  function AllUserIds(items: seq<Item>): (r: Option<seq<seq<nat>>>)
    ensures r.None? <==> exists i :: 0 <= i < |items| && ItemUserIds(items[i]).None?
    ensures r.Some? ==> |r.value| == |items| && forall i :: 0 <= i < |items| ==> Some(r.value[i]) == ItemUserIds(items[i])
  {
    if items == [] then Some([])
    else match ItemUserIds(items[0])
      case None => None
      case Some(ids) =>
        var rest := AllUserIds(items[1..]);
        assert forall i :: 1 <= i < |items| ==> items[i] == items[1..][i - 1];
        if rest.None? then None else Some([ids] + rest.value)
  }

  /** Every user an item shows: the users of a page are exactly these, once each. */
  lemma SidecarUsers(items: seq<Item>, x: Item, u: nat)
    requires AllUserIds(items).Some? && x in items
    ensures u in UserIdIterator(AllUserIds(items).value) <==> u in Flatten(AllUserIds(items).value)
    ensures x.Message? ==> x.m.sender in UserIdIterator(AllUserIds(items).value)
    ensures x.ParticipantJoin? ==> x.p.participant in UserIdIterator(AllUserIds(items).value)
  {
    var lists := AllUserIds(items).value;
    var i :| 0 <= i < |items| && items[i] == x;
    FlattenHas(lists, i);
  }

  lemma {:induction false} FlattenHas(lists: seq<seq<nat>>, i: nat)
    requires i < |lists|
    ensures forall y :: y in lists[i] ==> y in Flatten(lists)
  {
    if i > 0 {
      FlattenHas(lists[1..], i - 1);
    }
  }

  function ItemConversation(x: Item): string
  {
    match x
    case Message(m) => m.conversation
    case NameUpdate(u) => u.conversation
    case ParticipantJoin(p) => p.conversation
    case ParticipantLeave(p) => p.conversation
  }

  /** set(x.conversation for x in messages). */
  function ItemConversations(items: seq<Item>): set<string>
  {
    set x | x in items :: ItemConversation(x)
  }

  /** Every conversation in cs has one of the ids and is what its row gives (apart from a
      cached adder). */
  ghost predicate AllBuilt(cs: seq<Conversation>, ids: set<string>, rows: seq<ConversationRow>, users: seq<UserRow>, db: Store)
  {
    forall c :: c in cs ==> c.id in ids && CachedAgrees(StrKey(c.id), c, rows, users, db)
  }

  ghost predicate Covers(cs: seq<Conversation>, ids: set<string>)
  {
    forall id :: id in ids ==> exists c :: c in cs && c.id == id
  }

  /** One conversation per id, each as its row gives it. */
  ghost predicate SidecarConversations(cs: seq<Conversation>, ids: set<string>, rows: seq<ConversationRow>, users: seq<UserRow>, db: Store)
  {
    |cs| == |ids| && AllBuilt(cs, ids, rows, users, db) && Covers(cs, ids)
  }

  lemma SidecarStep(cs: seq<Conversation>, done: set<string>, c: Conversation, rows: seq<ConversationRow>, users: seq<UserRow>, db: Store)
    requires SidecarConversations(cs, done, rows, users, db) && c.id !in done
    requires CachedAgrees(StrKey(c.id), c, rows, users, db)
    ensures SidecarConversations(cs + [c], done + {c.id}, rows, users, db)
  {
    AllBuiltSnoc(cs, done, c, rows, users, db);
    CoversSnoc(cs, done, c);
    assert |done + {c.id}| == |done| + 1;
  }

  lemma AllBuiltSnoc(cs: seq<Conversation>, done: set<string>, c: Conversation, rows: seq<ConversationRow>, users: seq<UserRow>, db: Store)
    requires AllBuilt(cs, done, rows, users, db)
    requires CachedAgrees(StrKey(c.id), c, rows, users, db)
    ensures AllBuilt(cs + [c], done + {c.id}, rows, users, db)
  {
    forall x | x in cs + [c]
      ensures x.id in done + {c.id} && CachedAgrees(StrKey(x.id), x, rows, users, db)
    {
      if x != c {
        assert x in cs;
      }
    }
  }

  lemma CoversSnoc(cs: seq<Conversation>, done: set<string>, c: Conversation)
    requires Covers(cs, done)
    ensures Covers(cs + [c], done + {c.id})
  {
    forall id | id in done + {c.id}
      ensures exists c' :: c' in cs + [c] && c'.id == id
    {
      if id == c.id {
        assert c in cs + [c];
      } else {
        var c' :| c' in cs && c'.id == id;
        assert c' in cs + [c];
      }
    }
  }

  class TwitterDataReader {
    /** The tables. */
    var users: seq<UserRow>
    var conversations: seq<ConversationRow>
    const db: Store

    /** users_cache, conversations_cache and user_data_in_conversations. */
    var usersCache: map<CacheKey, UserSummary>
    var conversationsCache: map<CacheKey, Conversation>
    var deps: map<nat, set<CacheKey>>

    ghost predicate Valid()
      reads this
    {
      && (forall k :: k in usersCache ==> k.StrKey?)
      && Integrity(conversations, users)
      && Coherent(conversationsCache, conversations, users, db)
      && Tracked(conversationsCache, deps, conversations, users, db)
    }

    constructor(users: seq<UserRow>, conversations: seq<ConversationRow>, db: Store)
      requires Integrity(conversations, users)
      ensures Valid()
      ensures this.users == users && this.conversations == conversations && this.db == db
      ensures usersCache == map[] && conversationsCache == map[] && deps == map[]
    {
      this.users := users;
      this.conversations := conversations;
      this.db := db;
      usersCache := map[];
      conversationsCache := map[];
      deps := map[];
    }

    /** cache_user_conversation_dependency. */
    method CacheUserConversationDependency(user: nat, conversation: CacheKey)
      requires Valid()
      modifies this
      ensures Valid()
      ensures deps == Register(old(deps), user, conversation)
      ensures users == old(users) && conversations == old(conversations)
      ensures usersCache == old(usersCache) && conversationsCache == old(conversationsCache)
    {
      RegisterFacts(deps, user, conversation);
      TrackedGrows(conversationsCache, deps, Register(deps, user, conversation), conversations, users, db);
      deps := deps[user := DepsOf(deps, user) + {conversation}];
    }

    /** get_users_by_id for sidecar summaries. The cache is consulted with int ids but
        filled under string ids, so every id misses; the query binds the ids as given,
        which are then exactly the uncached ones. */
    method GetUsersById(ids: seq<nat>) returns (found: seq<UserSummary>)
      requires Valid()
      modifies this
      ensures Valid()
      ensures found == Summaries(UsersWithIds(users, ids))
      ensures usersCache == CacheAll(old(usersCache), found)
      ensures users == old(users) && conversations == old(conversations)
      ensures conversationsCache == old(conversationsCache) && deps == old(deps)
    {
      var hits: seq<UserSummary> := [];
      var uncached: seq<nat> := [];
      var i := 0;
      while i < |ids|
        invariant 0 <= i <= |ids|
        invariant hits == [] && uncached == ids[..i]
      {
        if IntKey(ids[i]) in usersCache {
          assert false;
        } else {
          uncached := uncached + [ids[i]];
        }
        assert ids[..i + 1] == ids[..i] + [ids[i]];
        i := i + 1;
      }
      assert |uncached| == |ids|;
      var loaded := Summaries(UsersWithIds(users, ids));
      var j := 0;
      CacheAllKeys(usersCache, loaded);
      while j < |loaded|
        invariant 0 <= j <= |loaded|
        invariant CacheAll(usersCache, loaded[j..]) == CacheAll(old(usersCache), loaded)
        invariant forall k :: k in usersCache ==> k.StrKey?
        invariant users == old(users) && conversations == old(conversations)
        invariant conversationsCache == old(conversationsCache) && deps == old(deps)
      {
        assert loaded[j..][1..] == loaded[j + 1..];
        usersCache := usersCache[StrKey(loaded[j].id) := loaded[j]];
        j := j + 1;
      }
      assert loaded[j..] == [];
      found := hits + loaded;
    }

    /** get_users_by_id([id])[0] for an id the row names. */
    method FetchUser(id: nat) returns (u: UserSummary)
      requires Valid() && UserWithId(users, id).Some?
      modifies this
      ensures users == old(users) && conversations == old(conversations)
      ensures conversationsCache == old(conversationsCache) && deps == old(deps)
      ensures Valid()
      ensures u == FormatUser(UserWithId(users, id).value)
      ensures usersCache == CacheAll(old(usersCache), Summaries(UsersWithIds(users, [id])))
    {
      var found := GetUsersById([id]);
      FetchOne(users, id);
      u := found[0];
    }

    /** The loop of from_row over the named participants of a group: the label of each,
        in order, each participant registered as a dependency of the conversation. */
    method LabelParticipants(top: seq<NameRow>, conversation: string) returns (participants: seq<string>)
      requires Valid()
      modifies this
      ensures users == old(users) && conversations == old(conversations)
      ensures conversationsCache == old(conversationsCache) && usersCache == old(usersCache)
      ensures Valid()
      ensures participants == Labels(top)
      ensures deps == RegisterAll(old(deps), ParticipantIds(top), StrKey(conversation))
    {
      var ids := ParticipantIds(top);
      participants := [];
      var i := 0;
      while i < |top|
        invariant 0 <= i <= |top|
        invariant |participants| == i && forall j :: 0 <= j < i ==> participants[j] == ParticipantLabel(top[j])
        invariant RegisterAll(deps, ids[i..], StrKey(conversation)) == RegisterAll(old(deps), ids, StrKey(conversation))
        invariant Valid()
        invariant users == old(users) && conversations == old(conversations)
        invariant conversationsCache == old(conversationsCache) && usersCache == old(usersCache)
      {
        var x := top[i];
        var tag := if OrEmpty(x.nickname) != "" then x.nickname.value
                   else if OrEmpty(x.displayName) != "" then x.displayName.value
                   else ParticipantLabel(x);
        assert tag == ParticipantLabel(x);
        participants := participants + [tag];
        RegisterAllStep(deps, ids, i, StrKey(conversation));
        CacheUserConversationDependency(x.participant, StrKey(conversation));
        i := i + 1;
      }
      assert ids[i..] == [];
    }

    /** The name of a group that was never renamed, as from_row derives it: the labels of
        the first five of the six most active participants, with ", etc." when there is a
        sixth. */
    method DerivedGroupName(conversation: string) returns (name: string)
      requires Valid()
      modifies this
      ensures users == old(users) && conversations == old(conversations)
      ensures conversationsCache == old(conversationsCache) && usersCache == old(usersCache)
      ensures Valid()
      ensures name == GroupName(None, Ranked(db, users, conversation))
      ensures deps == RegisterAll(old(deps), ParticipantIds(Take(Ranked(db, users, conversation), 5)), StrKey(conversation))
    {
      var participantRows := Take(Ranked(db, users, conversation), 6);
      var top := Take(participantRows, 5);
      assert top == Take(Ranked(db, users, conversation), 5);
      var participants := LabelParticipants(top, conversation);
      name := Join(participants, ", ");
      if |participantRows| == 6 {
        name := name + ", etc.";
      }
    }

    /** The users from_row fetches: the other person, registered under the conversation,
        and the adder, registered under 0. */
    method FetchRowUsers(row: ConversationRow) returns (other: Option<UserSummary>, addedBy: Option<UserSummary>)
      requires Valid() && RowIntegrity(row, users)
      modifies this
      ensures users == old(users) && conversations == old(conversations)
      ensures conversationsCache == old(conversationsCache)
      ensures Valid()
      ensures other == Lookup(row.otherPerson, users) && addedBy == Lookup(row.addedBy, users)
      ensures deps == UserRegistrations(old(deps), row.otherPerson, row.addedBy, StrKey(row.id))
      ensures usersCache == CacheAll(CacheAll(old(usersCache), Fetched(row.otherPerson, users)), Fetched(row.addedBy, users))
    {
      other := None;
      if row.otherPerson.Some? && row.otherPerson.value != 0 {
        var u := FetchUser(row.otherPerson.value);
        other := Some(u);
        CacheUserConversationDependency(row.otherPerson.value, StrKey(row.id));
      }
      addedBy := None;
      if row.addedBy.Some? && row.addedBy.value != 0 {
        var u := FetchUser(row.addedBy.value);
        addedBy := Some(u);
        CacheUserConversationDependency(row.addedBy.value, IntKey(0));
      }
    }

    /** The name and picture from_row gives the conversation: the other person's for an
        individual conversation; for a group the latest rename, else the derived name,
        whose participants are registered under the conversation. */
    method NameConversation(row: ConversationRow, other: Option<UserSummary>) returns (name: string, image: string)
      requires Valid() && RowIntegrity(row, users) && other == Lookup(row.otherPerson, users)
      modifies this
      ensures users == old(users) && conversations == old(conversations)
      ensures conversationsCache == old(conversationsCache) && usersCache == old(usersCache)
      ensures Valid()
      ensures name == ConversationOf(row, users, db).name && image == ConversationOf(row, users, db).imageUrl
      ensures deps == RegisterAll(old(deps), NameDeps(row, users, db), StrKey(row.id))
    {
      if row.kind == "individual" {
        name := if other.value.nickname != "" then other.value.nickname
                else other.value.displayName + " (@" + other.value.handle + ")";
        image := other.value.avatarUrl;
      } else {
        image := GroupDmDefaultUrl;
        var newest := NewestName(db.nameUpdates, row.id);
        if newest.Some? {
          name := newest.value;
        } else {
          name := DerivedGroupName(row.id);
        }
      }
    }

    /** Conversation.from_row: builds the conversation and registers the users it was
        built from. */
    method ConversationFromRow(row: ConversationRow) returns (c: Conversation)
      requires Valid() && RowIntegrity(row, users)
      modifies this
      ensures users == old(users) && conversations == old(conversations)
      ensures conversationsCache == old(conversationsCache)
      ensures Valid()
      ensures c == ConversationOf(row, users, db)
      ensures deps == RowDeps(old(deps), row, users, db)
      ensures usersCache == CacheAll(CacheAll(old(usersCache), Fetched(row.otherPerson, users)), Fetched(row.addedBy, users))
    {
      var other, addedBy := FetchRowUsers(row);
      var name, image := NameConversation(row, other);
      c := Conversation(row.id, row.kind, row.createdByMe, other, addedBy, name, image, OrEmpty(row.notes));
    }

    /** get_conversation_by_id on a miss, for an id that has a row: the conversation
        get_conversations(..., "id=?", [id])[0] builds from the first such row, which is
        then cached. */
    method LoadConversation(row: ConversationRow) returns (c: Conversation)
      requires Valid() && StrKey(row.id) !in conversationsCache && RowWithId(conversations, row.id) == Some(row)
      modifies this
      ensures users == old(users) && conversations == old(conversations)
      ensures Valid()
      ensures c == ConversationOf(row, users, db)
      ensures conversationsCache == old(conversationsCache)[StrKey(row.id) := c]
      ensures deps == RowDeps(old(deps), row, users, db)
      ensures usersCache == CacheAll(CacheAll(old(usersCache), Fetched(row.otherPerson, users)), Fetched(row.addedBy, users))
    {
      StoredRowIntegrity(conversations, users, row);
      ghost var deps0 := deps;
      c := ConversationFromRow(row);
      RowDepsFacts(deps0, row, users, db);
      CacheConversation(row, c);
    }

    /** The cache entry get_conversation_by_id stores for a conversation just built,
        whose users have been registered. */
    method CacheConversation(row: ConversationRow, c: Conversation)
      requires Valid() && RowWithId(conversations, row.id) == Some(row) && RowIntegrity(row, users)
      requires c == ConversationOf(row, users, db)
      requires ListedUnder(StrKey(row.id), DependsOn(row, users, db), deps)
      modifies this
      ensures users == old(users) && conversations == old(conversations)
      ensures usersCache == old(usersCache) && deps == old(deps)
      ensures Valid()
      ensures conversationsCache == old(conversationsCache)[StrKey(row.id) := c]
    {
      CacheInsert(conversationsCache, deps, conversations, users, db, row, c);
      conversationsCache := conversationsCache[StrKey(row.id) := c];
      assert Coherent(conversationsCache, conversations, users, db);
      assert Tracked(conversationsCache, deps, conversations, users, db);
    }

    /** get_conversation_by_id: the cached conversation, else the one loaded; an id
        without a row makes get_conversations return no rows, and indexing them raises
        an IndexError. */
    method GetConversationById(id: string) returns (r: Result<Conversation, ReadError>)
      requires Valid()
      modifies this
      ensures users == old(users) && conversations == old(conversations)
      ensures Valid()
      ensures r.Failure? <==> RowWithId(conversations, id).None?
      ensures r.Failure? ==> r.error == NoSuchConversation(id) && unchanged(this)
      ensures r.Success? ==> r.value.id == id && CachedAgrees(StrKey(id), r.value, conversations, users, db)
      ensures StrKey(id) in old(conversationsCache) ==> r == Success(old(conversationsCache)[StrKey(id)]) && unchanged(this)
      ensures StrKey(id) !in old(conversationsCache) && r.Success? ==>
        r.value == ConversationOf(RowWithId(conversations, id).value, users, db) &&
        conversationsCache == old(conversationsCache)[StrKey(id) := r.value] &&
        deps == RowDeps(old(deps), RowWithId(conversations, id).value, users, db)
    {
      if StrKey(id) in conversationsCache {
        assert CachedAgrees(StrKey(id), conversationsCache[StrKey(id)], conversations, users, db);
        r := Success(conversationsCache[StrKey(id)]);
      } else if RowWithId(conversations, id).None? {
        r := Failure(NoSuchConversation(id));
      } else {
        var c := LoadConversation(RowWithId(conversations, id).value);
        r := Success(c);
      }
    }

    /** get_conversations_by_id: the conversation of every id of the set, in the set's
        order; the first id without a row raises. */
    method GetConversationsById(ids: set<string>) returns (r: Result<seq<Conversation>, ReadError>)
      requires Valid()
      modifies this
      ensures users == old(users) && conversations == old(conversations)
      ensures Valid()
      ensures r.Success? ==> SidecarConversations(r.value, ids, conversations, users, db)
      ensures r.Failure? ==> r.error.NoSuchConversation? && r.error.id in ids && RowWithId(conversations, r.error.id).None?
      ensures (forall id :: id in ids ==> RowWithId(conversations, id).Some?) ==> r.Success?
    {
      var found: seq<Conversation> := [];
      var done: set<string> := {};
      while done != ids
        invariant done <= ids
        invariant Valid()
        invariant users == old(users) && conversations == old(conversations)
        invariant SidecarConversations(found, done, conversations, users, db)
        decreases |ids - done|
      {
        var id :| id in ids - done;
        var got := GetConversationById(id);
        if got.Failure? {
          return Failure(got.error);
        }
        SidecarStep(found, done, got.value, conversations, users, db);
        found := found + [got.value];
        done := done + {id};
      }
      r := Success(found);
    }

    /** The "results" of traverse_messages: the selected messages, then the renames, joins
        and leaves of the window each appended in turn, sorted by time. */
    method PageItems(q: Query, index: string -> set<nat>) returns (messages: seq<Item>)
      requires CheckCursors(q).None?
      ensures Traverse(db, q, index) == Success(messages)
    {
      var msgs := Matching(db, q.conversation, q.user, Matched(q, index));
      WindowDefined(msgs, q);
      var sel := SelectMessages(msgs, q);
      messages := sel.messages;
      if q.search == "" {
        var lo, hi := WindowStart(q, sel), WindowEnd(q, sel);
        var renames := InWindow(NameUpdateItems(db), q.conversation, q.user, lo, hi);
        var joins := InWindow(JoinItems(db), q.conversation, q.user, lo, hi);
        var leaves := InWindow(LeaveItems(db), q.conversation, q.user, lo, hi);
        messages := messages + renames;
        messages := messages + joins;
        messages := messages + leaves;
        AppendThree(sel.messages, renames, joins, leaves);
        assert messages == sel.messages + Events(db, q.conversation, q.user, lo, hi);
      } else {
        assert messages == sel.messages + [];
      }
      ghost var events :=
        if q.search != "" then []
        else Events(db, q.conversation, q.user, WindowStart(q, sel), WindowEnd(q, sel));
      assert messages == sel.messages + events;
      messages := SortBy(messages, Time);
    }

    /** traverse_messages: the items of the query, the summaries of every user they show
        and the conversations they belong to. */
    method TraverseMessages(q: Query, index: string -> set<nat>) returns (r: Result<Page, ReadError>)
      requires Valid()
      modifies this
      ensures users == old(users) && conversations == old(conversations)
      ensures Valid()
      ensures CheckCursors(q).Some? ==> r == Failure(BadCursor(CheckCursors(q).value)) && unchanged(this)
      ensures r.Success? ==> Traverse(db, q, index) == Success(r.value.results)
      ensures r.Success? ==>
        && AllUserIds(r.value.results).Some?
        && r.value.users == Summaries(UsersWithIds(users, UserIdIterator(AllUserIds(r.value.results).value)))
        && SidecarConversations(r.value.conversations, ItemConversations(r.value.results), conversations, users, db)
      ensures CheckCursors(q).None? ==>
        var items := Traverse(db, q, index).value;
        && (AllUserIds(items).None? <==> r == Failure(NoAdder))
        && (AllUserIds(items).None? ==> unchanged(this))
        && (r.Failure? && r.error.NoSuchConversation? ==>
              r.error.id in ItemConversations(items) && RowWithId(conversations, r.error.id).None?)
        && ((AllUserIds(items).Some? && forall id :: id in ItemConversations(items) ==> RowWithId(conversations, id).Some?)
              ==> r.Success?)
    {
      var check := CheckCursors(q);
      if check.Some? {
        return Failure(BadCursor(check.value));
      }
      var messages := PageItems(q, index);
      var lists := AllUserIds(messages);
      if lists.None? {
        return Failure(NoAdder);
      }
      var summaries := GetUsersById(UserIdIterator(lists.value));
      var convs := GetConversationsById(ItemConversations(messages));
      if convs.Failure? {
        return Failure(convs.error);
      }
      r := Success(Page(messages, summaries, convs.value));
    }

    /** set_user_nickname: stores the first 50 characters and evicts the user and every
        conversation registered under the user, whose ids it returns. */
    method SetUserNickname(userId: nat, newNickname: string) returns (evicted: set<CacheKey>)
      requires Valid()
      modifies this
      ensures Valid()
      ensures users == UpdateUsers(old(users), userId, SetNickname(newNickname))
      ensures evicted == DepsOf(old(deps), userId)
      ensures conversationsCache == old(conversationsCache) - evicted
      ensures usersCache == old(usersCache) - {IntKey(userId)} == old(usersCache)
      ensures deps == old(deps)[userId := evicted]
      ensures conversations == old(conversations)
      ensures forall k :: k in conversationsCache ==>
        k.StrKey? && RowWithId(conversations, k.s).Some? && userId !in DependsOn(RowWithId(conversations, k.s).value, users, db)
    {
      NicknameEviction(conversationsCache, deps, conversations, users, db, userId, newNickname);
      users := UpdateUsers(users, userId, SetNickname(newNickname));
      var dependents := DepsOf(deps, userId);
      deps := deps[userId := dependents];
      conversationsCache := conversationsCache - dependents;
      usersCache := usersCache - {IntKey(userId)};
      evicted := dependents;
    }

    /** set_user_notes: evicts the user only; no conversation shows notes. */
    method SetUserNotes(userId: nat, newNotes: string)
      requires Valid()
      modifies this
      ensures Valid()
      ensures users == UpdateUsers(old(users), userId, SetUserNotesTo(newNotes))
      ensures usersCache == old(usersCache) - {IntKey(userId)}
      ensures conversationsCache == old(conversationsCache) && deps == old(deps)
      ensures conversations == old(conversations)
    {
      NotesKeepCache(conversationsCache, deps, conversations, users, db, userId, newNotes);
      users := UpdateUsers(users, userId, SetUserNotesTo(newNotes));
      usersCache := usersCache - {IntKey(userId)};
    }

    /** set_conversation_notes: evicts that conversation only. */
    method SetConversationNotes(conversationId: string, notes: string)
      requires Valid()
      modifies this
      ensures Valid()
      ensures conversations == SetConversationNotesTo(old(conversations), conversationId, notes)
      ensures conversationsCache == old(conversationsCache) - {StrKey(conversationId)}
      ensures users == old(users) && usersCache == old(usersCache) && deps == old(deps)
    {
      ConversationNotesEviction(conversationsCache, deps, conversations, users, db, conversationId, notes);
      conversations := SetConversationNotesTo(conversations, conversationId, notes);
      conversationsCache := conversationsCache - {StrKey(conversationId)};
    }
  }
}

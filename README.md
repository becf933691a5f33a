# Twitter Archive Browser: a verified model of its archive access

Twitter Archive Browser turns the direct messages of a Twitter data export into an SQLite
database. It then serves chronologically merged, paginated views of that database.
This project models, in Dafny, the four parts that do the work:

- **The reader** (`ArchiveAccess/DBRead.py`), in `reader.dfy`, `traversal.dfy`, `scroll.dfy`,
  `rows.dfy`, `search.dfy` and `timestamps.dfy`.
  - `traverse_messages` is a function over an in-memory store of messages, renames and
    participant rows. Each SQL query is "filter, sort, take n". After the queries come the
    edge flags, the event window and the final stable sort.
  - Two scroll loops walk a conversation page by page, forward from "beginning" and
    backward from "end".
  - Further pieces:
    - the `parse_search` sanitiser;
    - `WhereClause`;
    - the user-summary defaults;
    - conversation naming;
    - the link rewriting of `html_content`;
    - `user_id_iterator`.
  - `TwitterDataReader` is a class with its three caches. It keeps an invariant: every
    cached conversation is what its row gives now, and is listed under every user it
    depends on. The invariant holds across lookups and across nickname and notes edits.
- **The writer** (`ArchiveAccess/DBWrite.py`), in `writer.dfy`, `media.dfy` and `reconcile.dfy`.
  - `TwitterDataWriter` is a class whose fields are the tables, the dedupe caches,
    `participant_events`, the API request queue and the `added_messages` counter.
  - `add_message` and its helpers are methods. Each is proved equal to a function of the
    old state, and the properties are proved about those functions.
  - The media-URL decomposition and the per-participant reconciliation of `finalize` are
    pure functions.
- **The event stream** (`ArchiveAccess/JSONStream.py`), in `jsonstream.dfy`.
  - `PrefixedJSON.__enter__` is a byte scan.
  - `MessageStream.__iter__` is a loop over a given token sequence, proved equal to a
    state-machine function.
  - The nested dicts that `current_dict` aliases live in a small heap of dict cells, and
    the state points into it by reference.
- **The demo message factory** (`DemoData/MessageFactory.py`), in `factory.dfy`. It has a
  per-factory clock and a class-wide id counter.

`sorting.dfy`, `strings.dfy` and `wrappers.dfy` hold the Python and SQL primitives the
models share:
- `sorted` as a stable insertion sort;
- `limit` as a prefix;
- `split`, `join`, `replace` and `strip`;
- `str` and `int` on ids;
- Option and Result.

Timestamps of the archive are integers, standing for the fixed-width ISO strings read
as their digits, which keeps their text order. The demo factory's dates are a separate
order-preserving stand-in: milliseconds since 0001-01-01T00:00:00, the origin of Python's
`datetime`.
- The sentinels `"0000-00-00T00:00:00.000Z"` and `"9999-99-99T99:99:99.999Z"` are
  `Zeroes` and `Nines`.
- The cursor words "beginning" and "end" start with a letter, so in a text comparison
  they sort after every timestamp. `Timestamps.Rank` models this.

On a leave at T1 followed by a join at T2, `finalize` gives no start and no end
(`Reconcile.LeaveThenJoin`), because the earliest fact is not a start
(ArchiveAccess/DBWrite.py:623-627).

## Model

| member | source | states |
|---|---|---|
| Timestamps.Rank | ArchiveAccess/DBRead.py:856-872 | the empty cursor sorts below the zero sentinel, and "beginning"/"end" sort above the nines sentinel, as text comparison orders them |
| Traversal.CheckCursorsMeaning | ArchiveAccess/DBRead.py:859-872 | the assertions reject exactly these queries: those with no cursor, those with all three cursors, and those whose first set cursor lies outside the sentinels (unless after is "beginning" or before is "end") |
| Traversal.Matching | ArchiveAccess/DBRead.py:874-889 | the messages kept are exactly those of the store that match the conversation, sender and full-text filters |
| Traversal.SelectMessages | ArchiveAccess/DBRead.py:894-955 | the messages of the three cursor modes, each one of the matching messages, with the at_first_page and at_last_page flags |
| Traversal.AtOrBefore | ArchiveAccess/DBRead.py:898 | exactly the candidates at or before the pivot |
| Traversal.Later | ArchiveAccess/DBRead.py:899 | exactly the candidates after the pivot |
| Traversal.AfterCandidates | ArchiveAccess/DBRead.py:938-942 | the candidates later than the cursor, or every one for "beginning" |
| Traversal.BeforeCandidates | ArchiveAccess/DBRead.py:933-937 | the candidates earlier than the cursor, or every one for "end" |
| Traversal.AfterPage | ArchiveAccess/DBRead.py:938-955 | with only `after` set, the page is up to 40 of the nearest later messages, ascending; at_last_page is set exactly when fewer than 40 candidates exist |
| Traversal.BeforePage | ArchiveAccess/DBRead.py:933-955 | with `before` set and no `at`, the page is up to 40 of the nearest earlier messages, descending; fewer than 40 candidates set at_first_page, or at_last_page when `after` is set too |
| Traversal.AtPage | ArchiveAccess/DBRead.py:895-929 | with `at` set, 20 nearest at or before the pivot, latest first, then 20 nearest after it; a message at the pivot lands in the first half, and each short half sets its own flag |
| Traversal.MinTime | ArchiveAccess/DBRead.py:962 | the least time of a non-empty page, which is the time of one of its items |
| Traversal.MaxTime | ArchiveAccess/DBRead.py:967 | the greatest time of a non-empty page, which is the time of one of its items |
| Traversal.WindowDefined | ArchiveAccess/DBRead.py:957-967 | min and max are taken only over a full, hence non-empty, page |
| Traversal.InWindow | ArchiveAccess/DBRead.py:969-1008 | exactly the events that match the filters and lie strictly inside (lo, hi) |
| Traversal.InWindowWider | ArchiveAccess/DBRead.py:978-996 | a narrower window selects a sub-collection of a wider one |
| Traversal.Traverse | ArchiveAccess/DBRead.py:844-1010 | traverse_messages' results: a failure for rejected cursors, otherwise a page sorted by time |
| Traversal.EventsInWindow | ArchiveAccess/DBRead.py:957-1010 | without a search, the page holds exactly the selected messages plus the renames, joins and leaves that match and lie strictly inside the window |
| Traversal.SearchHasNoEvents | ArchiveAccess/DBRead.py:883-889 | with a search the page is exactly the selected messages among those the index matched, sorted by time; it holds only such messages and no events |
| Scroll.ForwardPage | ArchiveAccess/DBRead.py:938-1010 | a forward page is strictly increasing, empty only when nothing is later than the cursor, and otherwise every shown item from just after the cursor up to its last item |
| Scroll.BackwardPage | ArchiveAccess/DBRead.py:933-1010 | a backward page is strictly increasing, empty only when nothing is earlier than the cursor, and otherwise every shown item from its first item to just before the cursor |
| Scroll.ForwardStep | tests/test_db_read.py:646-650 | appending the next forward page extends what has been shown up to that page's last time, beyond the old cursor |
| Scroll.BackwardStep | tests/test_db_read.py:669-673 | prepending the next backward page extends what has been shown down to that page's first time |
| Scroll.Complete | tests/test_db_read.py:677 | a strictly sorted sequence holding every shown item is the timeline |
| Scroll.ScrollForward | tests/test_db_read.py:644-652 | with distinct times, scrolling forward from "beginning" yields the whole timeline of messages and events once each, in order, and ends on an empty page |
| Scroll.ScrollBackward | tests/test_db_read.py:667-677 | scrolling backward from "end" yields the same timeline and ends on an empty page |
| Search.ParseSearchReference | ArchiveAccess/DBRead.py:824-842 | parse_search equals the sanitised query: the last quote dropped when the count is odd, all other punctuation blanked, "" spaced |
| Search.GluedIsSanitised | ArchiveAccess/DBRead.py:833-841 | split, translate and re-glue equal dropping the last odd quote and blanking the other punctuation |
| Search.ParseSearchQuotes | ArchiveAccess/DBRead.py:834-842 | the quotes of the query survive, except that an odd one out is dropped |
| Search.ParseSearchEvenQuotes | ArchiveAccess/DBRead.py:834-842 | the output always holds an even number of quotes |
| Search.ParseSearchPunctuation | ArchiveAccess/DBRead.py:833-842 | no punctuation but the double quote remains, so no single quote can end the SQL literal |
| Search.ParseSearchPlain | ArchiveAccess/DBRead.py:833-842 | a query without punctuation comes back unchanged |
| Search.ParseSearchKeepsQuotes | ArchiveAccess/DBRead.py:842 | replacing "" by " " keeps the number of quotes |
| Rows.FormatUserId | ArchiveAccess/DBRead.py:119 | the id string reads back as the numeric id, so different users never share one |
| Rows.FormatUnresolved | ArchiveAccess/DBRead.py:117-128 | an unfetched user gets the id as handle, "Mystery User" and the placeholder avatar, whatever else the row holds |
| Rows.FormatResolved | ArchiveAccess/DBRead.py:117-128 | a fetched user keeps their handle and display name, and the avatar URL is the avatar route followed by the id |
| Rows.IndividualName | ArchiveAccess/DBRead.py:258-262 | the nickname when non-empty, else display name, " (@", handle and ")" |
| Rows.IndividualNameUnresolved | ArchiveAccess/DBRead.py:258-262 | an unfetched other person without a nickname is named "Mystery User (@id)" |
| Rows.ParticipantLabel | ArchiveAccess/DBRead.py:290 | nickname, else display name, else "@" and the id |
| Rows.Labels | ArchiveAccess/DBRead.py:287-291 | one label per participant row, in order |
| Rows.GroupName | ArchiveAccess/DBRead.py:273-297 | a renamed group is called by its newest rename's text, whatever its participants |
| Rows.NamedParticipants | ArchiveAccess/DBRead.py:288 | the ids of at most the five most active participants |
| Rows.GroupNameParticipants | ArchiveAccess/DBRead.py:287-297 | without a rename the name starts with the most active participant's label; at most five are named in full, more end in ", etc." |
| Rows.GroupNameCommas | ArchiveAccess/DBRead.py:287-297 | with comma-free labels the derived name has n - 1 commas for n <= 6 participants and 5 beyond |
| Rows.HtmlContent | ArchiveAccess/DBRead.py:523-542 | the loop over the links computes Html: line breaks become <br />, each link is rewritten, and the result is stripped |
| Rows.ApplyLinksChars | ArchiveAccess/DBRead.py:524-535 | every character the links add comes from their markup |
| Rows.HtmlHasNoNewline | ArchiveAccess/DBRead.py:523-542 | no raw line break survives unless a link's URL or preview brings one |
| Rows.HtmlPlain | ArchiveAccess/DBRead.py:523-542 | a message without links or line breaks shows as its stripped text |
| Rows.HtmlAbsentLink | ArchiveAccess/DBRead.py:528-535 | a link whose shortened URL does not occur changes nothing |
| Rows.MediaLinkDeletes | ArchiveAccess/DBRead.py:525-530 | an attached-media link only deletes its shortened URL |
| Rows.Unique | ArchiveAccess/DBRead.py:337-342 | exactly the ids of the list not yet seen, with no id twice |
| Rows.UserIdIterator | ArchiveAccess/DBRead.py:332-342 | exactly the ids of the lists, none twice |
| Rows.UserIdsStream | ArchiveAccess/DBRead.py:338-342 | a further list only adds its new ids, after everything earlier lists gave |
| Rows.WhereClause.constructor | ArchiveAccess/DBRead.py:57-58 | a clause starts with no conditions |
| Rows.WhereClause.Add | ArchiveAccess/DBRead.py:60-62 | the stripped condition is appended unless it is empty |
| Rows.WhereClause.Format | ArchiveAccess/DBRead.py:64-68 | the clause text of the stored conditions, empty exactly when there are none |
| Rows.FormatSnoc | ArchiveAccess/DBRead.py:64-68 | each further condition is and-ed onto the clause |
| Rows.StripClean | ArchiveAccess/DBRead.py:60-62 | a condition already stripped and non-empty is stored as given |
| Rows.TypeConditions | ArchiveAccess/DBRead.py:694-702 | no listing exactly when neither kind is asked for, and a single type condition exactly when one kind is |
| Rows.ConversationClause | ArchiveAccess/DBRead.py:694-703 | get_conversations' clause: the type condition, then the caller's where when not blank |
| Rows.OneKindClause | ArchiveAccess/DBRead.py:694-703 | one kind with a further condition gives both, type first |
| Reader.FetchOne | ArchiveAccess/DBRead.py:247 | get_users_by_id([id])[0] is the summary of the first row with that id |
| Reader.ConversationKinds | ArchiveAccess/DBRead.py:258-265 | an individual conversation is named and pictured after the other person and depends only on them; a group gets the group picture |
| Reader.NewestNameLatest | ArchiveAccess/DBRead.py:266-274 | a renamed group takes the text of a rename with the latest time; a group never renamed has none |
| Reader.RowDepsFacts | ArchiveAccess/DBRead.py:246-294 | after from_row every user the conversation depends on lists it, the adder lists 0, and no registration is lost |
| Reader.GroupNameUnaffected | ArchiveAccess/DBRead.py:279-297 | editing a participant outside the five named leaves a group's name as it was |
| Reader.DependsOnUpdate | ArchiveAccess/DBRead.py:246-297 | editing users' data does not change what a conversation depends on |
| Reader.ConversationOfUpdate | ArchiveAccess/DBRead.py:241-309 | editing a user the conversation does not depend on changes at most its adder summary |
| Reader.ConversationOfHidden | ArchiveAccess/DBRead.py:653-655 | an edit that keeps ids, names and summaries, such as the notes, changes no conversation |
| Reader.CacheInsert | ArchiveAccess/DBRead.py:784 | caching a freshly built, registered conversation keeps the cache coherent and tracked |
| Reader.NicknameEviction | ArchiveAccess/DBRead.py:642-651 | after a nickname edit and its evictions the cache stays coherent and tracked, and nothing left depends on the user |
| Reader.NotesKeepCache | ArchiveAccess/DBRead.py:653-661 | a notes edit keeps the invariants with the conversation cache untouched |
| Reader.ConversationNotesEviction | ArchiveAccess/DBRead.py:816-822 | a conversation notes edit keeps the invariants once that conversation is evicted |
| Reader.SidecarUsers | ArchiveAccess/DBRead.py:1012-1014 | the users of a page are exactly those its items show, each once, senders and participants included |
| Reader.TwitterDataReader.constructor | ArchiveAccess/DBRead.py:550-569 | the caches start empty over a store whose rows name existing users |
| Reader.TwitterDataReader.CacheUserConversationDependency | ArchiveAccess/DBRead.py:571-575 | the conversation is added to the user's set, created empty on first use, and nothing else changes |
| Reader.TwitterDataReader.GetUsersById | ArchiveAccess/DBRead.py:583-618 | the summaries of the rows with those ids, in table order; they are stored under their string ids, which int lookups never hit |
| Reader.TwitterDataReader.FetchUser | ArchiveAccess/DBRead.py:247 | the summary of the first row with that id, and the cache filled with it |
| Reader.TwitterDataReader.LabelParticipants | ArchiveAccess/DBRead.py:287-294 | the label of each named participant in order, each registered under the conversation |
| Reader.TwitterDataReader.DerivedGroupName | ArchiveAccess/DBRead.py:278-297 | the derived group name of the six most active, with the five named registered |
| Reader.TwitterDataReader.FetchRowUsers | ArchiveAccess/DBRead.py:246-256 | the other person and the adder when the row names them, registered under the conversation and under 0 |
| Reader.TwitterDataReader.NameConversation | ArchiveAccess/DBRead.py:258-297 | the name and image of ConversationOf, with the named participants registered |
| Reader.TwitterDataReader.ConversationFromRow | ArchiveAccess/DBRead.py:241-309 | the conversation the row gives, with every user it was built from registered |
| Reader.TwitterDataReader.LoadConversation | ArchiveAccess/DBRead.py:780-785 | on a miss, the conversation of the id's first row, then cached under the id |
| Reader.TwitterDataReader.CacheConversation | ArchiveAccess/DBRead.py:784 | the cache gains exactly that entry and the invariant holds |
| Reader.TwitterDataReader.GetConversationById | ArchiveAccess/DBRead.py:776-785 | a hit returns the cached entry unchanged; a miss builds and caches; an id without a row fails, which is the IndexError |
| Reader.TwitterDataReader.GetConversationsById | ArchiveAccess/DBRead.py:787-792 | one conversation per id as its row gives it, or failure at an id without a row; success when every id has one |
| Reader.TwitterDataReader.PageItems | ArchiveAccess/DBRead.py:874-1010 | the accumulated and sorted items are Traverse's page |
| Reader.TwitterDataReader.TraverseMessages | ArchiveAccess/DBRead.py:844-1019 | rejected cursors fail and change nothing; otherwise the results are Traverse's page, with the summaries of every user shown and the conversations of the items |
| Reader.TwitterDataReader.SetUserNickname | ArchiveAccess/DBRead.py:642-651 | the nickname becomes the first 50 characters, every conversation registered under the user is evicted and returned, and the cache stays coherent |
| Reader.TwitterDataReader.SetUserNotes | ArchiveAccess/DBRead.py:653-661 | the notes are set and only the user is evicted |
| Reader.TwitterDataReader.SetConversationNotes | ArchiveAccess/DBRead.py:816-822 | the conversation's notes are set and only that conversation is evicted |
| Sorting.SortBy | ArchiveAccess/DBRead.py:1010 | sorted by key, and a permutation of the input |
| Sorting.SortByFirst | ArchiveAccess/DBWrite.py:617 | the stable sort starts with the first, in input order, of the least-keyed elements |
| Sorting.SortByLast | ArchiveAccess/DBWrite.py:617 | the stable sort ends with the last, in input order, of the greatest-keyed elements |
| Sorting.Take | ArchiveAccess/DBRead.py:947 | "limit n": the first min(n, length) elements |
| Sorting.TakeSortByNearest | ArchiveAccess/DBRead.py:943-949 | "order by key limit n" takes the n nearest candidates in key order, or all if fewer |
| Sorting.Filter | ArchiveAccess/DBRead.py:945 | "where": exactly the elements satisfying the condition, a sub-multiset |
| Sorting.StrictlySortedUnique | tests/test_db_read.py:677 | two strictly sorted sequences with the same elements are equal |
| Strings.Split | ArchiveAccess/DBWrite.py:496 | one more piece than separators, none holding the separator |
| Strings.SplitJoin | ArchiveAccess/DBWrite.py:496 | joining the pieces with the separator gives back the string |
| Strings.JoinSplit | ArchiveAccess/DBWrite.py:496 | splitting joined separator-free pieces gives them back |
| Strings.ReplaceAbsent | ArchiveAccess/DBRead.py:528-535 | replacing an absent pattern changes nothing |
| Strings.ReplaceChars | ArchiveAccess/DBRead.py:528-535 | every character of the result comes from the text or the replacement |
| Strings.Strip | ArchiveAccess/DBRead.py:542 | the slice left once the outer whitespace goes, starting and ending with non-space |
| Strings.NatToDecimal | ArchiveAccess/DBWrite.py:319 | a non-empty string of decimal digits |
| Strings.DecimalRoundTrip | ArchiveAccess/DBRead.py:363 | int(str(n)) == n |
| Strings.DecimalInjective | DemoData/MessageFactory.py:30 | different ids give different strings |
| Writer.AddUser | ArchiveAccess/DBWrite.py:311-331 | the id has a user row afterwards, existing rows stay, and no other table changes |
| Writer.AddParticipant | ArchiveAccess/DBWrite.py:333-388 | the row and empty list on first reference; given start then end appended, never overwriting; added_by last-write-wins; no other participant changes |
| Writer.AddConversation | ArchiveAccess/DBWrite.py:390-429 | the type and other person of the first insert are kept; a join time and adder set first_time, added_by and created_by_me 0 |
| Writer.Mention | ArchiveAccess/DBWrite.py:456-458 | the user and the participation both exist afterwards |
| Writer.MentionAll | ArchiveAccess/DBWrite.py:453-458 | every listed user is a user and a participant afterwards |
| Writer.React | ArchiveAccess/DBWrite.py:472-486 | one reaction: its user takes part and its row is appended |
| Writer.ReactionRows | ArchiveAccess/DBWrite.py:477-486 | one row per reaction, in order |
| Writer.AddReactions | ArchiveAccess/DBWrite.py:472-486 | every reacting user takes part and exactly the reaction rows are appended |
| Writer.MediaStepFails | ArchiveAccess/DBWrite.py:494-514 | a URL's pass fails exactly when its decomposition does, with the same error |
| Writer.Collect | ArchiveAccess/DBWrite.py:488-527 | at most one row per element, and no error exactly when every element gave its row |
| Writer.CollectShape | ArchiveAccess/DBWrite.py:488-527 | the rows are those of the longest successful run, in order, and the error is that of the pass after it |
| Writer.LinkRows | ArchiveAccess/DBWrite.py:529-535 | one links row per link, in order |
| Writer.AddJoined | ArchiveAccess/DBWrite.py:559-566 | each joining user takes part and gains a start fact at the event's time, and the initiator, when given, as adder |
| Writer.AddLeft | ArchiveAccess/DBWrite.py:567-574 | each leaving user takes part and gains an end fact at the event's time |
| Writer.AddSnapshot | ArchiveAccess/DBWrite.py:594-601 | every snapshot user but the account gains a sentinel start fact; the account is untouched |
| Writer.Prelude | ArchiveAccess/DBWrite.py:437-450 | the conversation row, with the other person found from the event, and the account's participation |
| Writer.Posted | ArchiveAccess/DBWrite.py:452-486 | sender and, outside groups, recipient take part; the message row, then the reaction rows |
| Writer.MessageCreated | ArchiveAccess/DBWrite.py:452-535 | after the message, media rows stop at the first bad URL, which raises before any link row; otherwise every link row follows |
| Writer.NameUpdated | ArchiveAccess/DBWrite.py:537-552 | the initiator takes part and the rename row is appended |
| Writer.ParticipantsJoined | ArchiveAccess/DBWrite.py:554-566 | the initiator takes part and every joining user is added with a start fact |
| Writer.ConversationJoined | ArchiveAccess/DBWrite.py:576-601 | first_time, added_by and created_by_me 0 set; the account gets a start fact and the adder; snapshot users sentinel starts |
| Writer.Handle | ArchiveAccess/DBWrite.py:452-601 | each event type's branch keeps the state consistent and only adds rows, never rewriting a conversation's identity |
| Writer.Ingest | ArchiveAccess/DBWrite.py:431-603 | add_message keeps the state consistent and only adds to what its prelude left |
| Writer.IngestOwnerTakesPart | ArchiveAccess/DBWrite.py:437-450 | after any event the conversation exists, the account takes part, and a new row has the event's type and other person |
| Writer.IngestCounts | ArchiveAccess/DBWrite.py:431-603 | the counter goes up by one exactly when nothing raised, and only a message with an undecomposable media URL raises |
| Writer.FinalizedSpans | ArchiveAccess/DBWrite.py:615-646 | finalize rewrites only start and end: a start is a non-sentinel start fact no fact precedes, an end an end fact no fact follows |
| Writer.SnapshotUserHasNoStart | ArchiveAccess/DBWrite.py:628-631 | a participant with the sentinel start fact finalizes with no start |
| Writer.FinalizeIdempotent | ArchiveAccess/DBWrite.py:615-646 | reconciling twice gives what reconciling once does |
| Writer.TwitterDataWriter.constructor | ArchiveAccess/DBWrite.py:259-277 | empty tables, caches, queue and fact map, counter 0 |
| Writer.TwitterDataWriter.AddUserIfNecessary | ArchiveAccess/DBWrite.py:311-331 | the state becomes AddUser, and the id is queued exactly when it is inserted |
| Writer.TwitterDataWriter.AddParticipantIfNecessary | ArchiveAccess/DBWrite.py:333-388 | the state becomes AddParticipant and the caches stay in step |
| Writer.TwitterDataWriter.AddConversationIfNecessary | ArchiveAccess/DBWrite.py:390-429 | the state becomes AddConversation; the both-or-neither assertion is its precondition |
| Writer.TwitterDataWriter.OpenConversation | ArchiveAccess/DBWrite.py:437-450 | the state becomes Prelude |
| Writer.TwitterDataWriter.AddMessage | ArchiveAccess/DBWrite.py:431-603 | the new state and the raised error are those of Ingest, and the queue only grows |
| Writer.TwitterDataWriter.HandleEvent | ArchiveAccess/DBWrite.py:452-601 | the state and error are those of Handle |
| Writer.TwitterDataWriter.UpdateName | ArchiveAccess/DBWrite.py:537-552 | the state becomes NameUpdated |
| Writer.TwitterDataWriter.JoinParticipants | ArchiveAccess/DBWrite.py:554-566 | the state becomes ParticipantsJoined |
| Writer.TwitterDataWriter.JoinConversation | ArchiveAccess/DBWrite.py:576-601 | the state becomes ConversationJoined |
| Writer.TwitterDataWriter.CreateMessage | ArchiveAccess/DBWrite.py:452-535 | the state and error are those of MessageCreated |
| Writer.TwitterDataWriter.MentionUsers | ArchiveAccess/DBWrite.py:453-458 | the state becomes MentionAll |
| Writer.TwitterDataWriter.AddReactionRows | ArchiveAccess/DBWrite.py:472-486 | the state becomes AddReactions |
| Writer.TwitterDataWriter.AddMediaRows | ArchiveAccess/DBWrite.py:488-527 | the media rows and error of Collect over the URLs |
| Writer.TwitterDataWriter.AddLinkRows | ArchiveAccess/DBWrite.py:529-535 | the links rows of LinkRows appended |
| Writer.TwitterDataWriter.JoinAll | ArchiveAccess/DBWrite.py:559-566 | the state becomes AddJoined |
| Writer.TwitterDataWriter.LeaveAll | ArchiveAccess/DBWrite.py:567-574 | the state becomes AddLeft |
| Writer.TwitterDataWriter.JoinSnapshot | ArchiveAccess/DBWrite.py:594-601 | the state becomes AddSnapshot |
| Writer.TwitterDataWriter.Finalize | ArchiveAccess/DBWrite.py:615-646 | the state becomes Finalized: each participant row gets the span its facts reconcile to |
| Reconcile.ReconcileByExtremes | ArchiveAccess/DBWrite.py:615-639 | no facts give (None, None); the start comes from the first least-timed fact, the end from the last greatest-timed fact |
| Reconcile.StartEarliestEndLatest | ArchiveAccess/DBWrite.py:617-636 | a start is a non-sentinel start fact's time at most every fact's; an end is an end fact's time at least every fact's |
| Reconcile.JoinThenLeave | ArchiveAccess/DBWrite.py:617-636 | [join T1, leave T2] gives (T1, T2) |
| Reconcile.LeaveThenJoin | ArchiveAccess/DBWrite.py:617-636 | [leave T1, join T2] gives (None, None) |
| Reconcile.SentinelStart | ArchiveAccess/DBWrite.py:628-631 | facts holding the sentinel start give no start |
| Media.KindOf | ArchiveAccess/DBWrite.py:489-499 | the first prefix, in image, gif, video order, that the URL starts with, or none |
| Media.Pieces | ArchiveAccess/DBWrite.py:496 | the "/"-free pieces of the URL after its prefix |
| Media.UnsupportedExactly | ArchiveAccess/DBWrite.py:494-504 | a URL raises the unsupported error exactly when it has none of the three prefixes |
| Media.DecomposedShape | ArchiveAccess/DBWrite.py:495-514 | a decomposed URL is its prefix plus its pieces, an image naming its own message, a video with two ignored middle pieces |
| Media.ImageRoundTrip | ArchiveAccess/DBWrite.py:506-510 | composing an image URL and decomposing it gives the media id and filename back |
| Media.GifRoundTrip | ArchiveAccess/DBWrite.py:511-512 | the same for a gif URL |
| Media.VideoRoundTrip | ArchiveAccess/DBWrite.py:513-514 | the same for a video URL |
| JsonStream.FirstOpening | ArchiveAccess/JSONStream.py:34-38 | the index of a bracket with no bracket before it |
| JsonStream.PrefixedJson.constructor | ArchiveAccess/JSONStream.py:19-20 | the file is read from its start |
| JsonStream.PrefixedJson.ReadByte | ArchiveAccess/JSONStream.py:34 | read(1): the next byte and one step on, or nothing at the end |
| JsonStream.PrefixedJson.Enter | ArchiveAccess/JSONStream.py:33-40 | the next byte to be read is the first "[" or "{" of the file |
| JsonStream.Append | ArchiveAccess/JSONStream.py:131 | fails exactly when the named entry is missing or not a list; otherwise the element joins the end of that list and nothing else changes |
| JsonStream.InEvent | ArchiveAccess/JSONStream.py:124-147 | a token on an event path leaves every reference valid, the event under way and the conversation id unchanged |
| JsonStream.Step | ArchiveAccess/JSONStream.py:115-153 | a token of the loop leaves every reference valid |
| JsonStream.Iterate | ArchiveAccess/JSONStream.py:115-154 | every token is processed when nothing raised, fewer otherwise, and every reference stays valid |
| JsonStream.OffPathChangesNothing | ArchiveAccess/JSONStream.py:116-123 | a token off every event path changes at most the conversation id, unless it closes a message |
| JsonStream.YieldAtBoundary | ArchiveAccess/JSONStream.py:148-153 | an event is yielded exactly at a message-item token while one is under way, carrying the conversation id, and the state is reset |
| JsonStream.EventPathStep | ArchiveAccess/JSONStream.py:124-147 | an event token sets in_message and the type; it raises exactly for a start_map or "item" scalar whose list is missing or not a list |
| JsonStream.StartMapDirectsScalars | ArchiveAccess/JSONStream.py:129-132 | start_map appends a fresh dict and later scalars land in it, where the yielded event shows them |
| JsonStream.EndMapReturnsToMessage | ArchiveAccess/JSONStream.py:133-134 | after end_map scalars land in the message itself |
| JsonStream.ArraysCollectItems | ArchiveAccess/JSONStream.py:127-145 | start_array sets an empty list; an "item" scalar is appended to the list named by the penultimate component |
| JsonStream.ErrorStops | ArchiveAccess/JSONStream.py:115-154 | once a token raises, later tokens change nothing |
| JsonStream.ConversationIdIsLatest | ArchiveAccess/JSONStream.py:116-117 | the conversation id held is the value of the latest conversation id token |
| JsonStream.TypeIsLatest | ArchiveAccess/JSONStream.py:126 | while an event is under way its type is the fifth component of the latest event-path token |
| JsonStream.YieldedEvent | ArchiveAccess/JSONStream.py:148-150 | each yielded event carries the latest conversation id and type before it |
| JsonStream.ProcessedCount | ArchiveAccess/JSONStream.py:154 | the counter reaches the number of tokens exactly when nothing raised |
| JsonStream.MessageStream.constructor | ArchiveAccess/JSONStream.py:78-83 | the counter starts at 0 and the total is the number of tokens |
| JsonStream.MessageStream.Iter | ArchiveAccess/JSONStream.py:101-154 | the events and error of Iterate, the counter advanced by the tokens processed |
| Factory.FirstOther | DemoData/MessageFactory.py:46 | the first recipient unlike the sender, and None exactly when all are the sender |
| Factory.MessageOf | DemoData/MessageFactory.py:33-48 | StopIteration exactly when recipients are given and all are the sender; otherwise the factory's conversation, empty media, reactions and links, and recipientId exactly when recipients were given |
| Factory.NameUpdateOf | DemoData/MessageFactory.py:51-57 | a rename by the initiator in the factory's conversation |
| Factory.IdsFrom | DemoData/MessageFactory.py:26-30 | the n ids a run of calls hands out are the consecutive counter values |
| Factory.IdsDistinct | DemoData/MessageFactory.py:7 | the ids handed out are pairwise distinct |
| Factory.IdsConsecutive | DemoData/MessageFactory.py:7 | factories drawing in turn from the shared counter get consecutive runs |
| Factory.DatesAdvance | DemoData/MessageFactory.py:21-24 | dates never go back with a non-negative step, and go forward with a positive one |
| Factory.MadeEventsReadable | DemoData/MessageFactory.py:32-57 | the factory's events meet what add_message reads |
| Factory.IdCounter.constructor | DemoData/MessageFactory.py:7 | the counter starts at 0 |
| Factory.IdCounter.GetNextMessageId | DemoData/MessageFactory.py:26-30 | the counter as a string, then one more |
| Factory.MessageFactory.constructor | DemoData/MessageFactory.py:9-19 | the fields as given |
| Factory.MessageFactory.GetNextDate | DemoData/MessageFactory.py:21-24 | the clock to the millisecond, then minutes_apart minutes on |
| Factory.MessageFactory.CreateMessage | DemoData/MessageFactory.py:32-48 | MessageOf for one drawn date and one drawn id, drawn even when StopIteration results |
| Factory.MessageFactory.CreateNameUpdate | DemoData/MessageFactory.py:50-57 | NameUpdateOf for one drawn date, and no id drawn |

## Left out

- SQLite itself is not modelled. Tables are sequences, sets and maps. The SQL scripts
  (setup, indexes, conversation statistics) are not part of this model. The aggregate
  columns they fill in are given fields of the rows.
- The SQLite FTS5 matcher and its stemming are not modelled. The full-text index is a
  parameter: a function from the sanitised search string to the set of message ids it
  matches.
- `SimpleTwitterAPIClient` is not modelled: its HTTP calls, asyncio batching, callbacks and
  `save_user_data`. The writer keeps only the sequence of ids passed to
  `queue_twitter_user_request`.
- The `me` table insert, commits, `pragma optimize` and `vacuum` are not modelled.
- Media dimension probing with cv2 in `Media.from_row` is left out, because it is image
  and video I/O. So are the reactions and media lists of a message item.
- Other reader queries are left out, because they are plain SQL with no logic beyond the
  query: `get_main_user`, `get_users_by_message_count`, `get_user_avatar`,
  `get_conversations_by_time`/`_by_message_count`/`_by_user`, `get_conversation_names`,
  `get_message_by_id`, `get_message_timestamp_by_id`, `get_random_messages` (SQL RANDOM())
  and `get_global_stats`. Of `get_conversations`, only the type filter and where clause
  are modelled (`Rows.ConversationClause`).
- Reader.TwitterDataReader.GetUsersById: modelled for int ids only. The users cache is
  looked up under int ids but filled under string ids, so it never hits. The query's
  parameter list (all the ids) and its placeholder count (the uncached ids) therefore
  always have the same length. Callers passing string ids, which could hit the cache and
  make the two lengths differ, are not modelled.
- Reader.TwitterDataReader.TraverseMessages: the renames, joins, leaves and messages carry
  only the fields the traversal reads. They do not carry their rendered dicts.
- Scroll.ScrollForward, Scroll.ScrollBackward: these require that no two shown items
  share a time, which is what the round-trip test's data gives. With ties the cursors
  would skip items.
- Writer.TwitterDataWriter.AddMessage: its Readable precondition stands for the KeyErrors
  and AssertionErrors add_message raises on a malformed event, which are not modelled as
  results. These are:
  - a missing senderId or recipientId;
  - a rename outside a group;
  - a joinConversation without an initiator.
- Writer.TwitterDataWriter.AddMessage: the queue of API requests is stated to only grow.
  Its exact new contents, in order, are covered by `QueuedOnce` but not spelled out.
- The writer's `str()` normalisation of ids is not modelled, because ids are strings
  throughout. Neither is the `int()` cast of the participant id in finalize's update.
- Reader.TwitterDataReader.constructor: the store is assumed to be as the writer builds
  it, where add_user_if_necessary runs for every sender, recipient, reactor and initiator
  (ArchiveAccess/DBWrite.py:457, 473, 539, 558-560, 577). On a store that breaks this,
  from_row raises, and these errors are not modelled as results: the IndexError of
  `get_users_by_id([row[9]])[0]` or `get_users_by_id([row[10]])[0]` for an other_person
  or added_by with no users row, and the AttributeError of `other_person.nickname` for
  an individual conversation with no other person.
- Dates are integers standing for the ISO strings. Datetime formatting and the
  `datetime` overflow of the factory's clock are left out. Factory user ids are natural
  numbers, so negative Python ints are not covered.
- The ijson parser is not modelled. MessageStream takes its tokens as a given sequence,
  with each prefix already split at ".", so keys holding a "." are not modelled. Lazy
  generation is left out too: Iter returns all the events at once.
- The float `percentage` property is left out because it is floating point.
- The debug helpers `prefix_finder`, `dump` and `test` are not modelled.
- `PrefixedJSON.__exit__` and file handles are left out. The file is its byte sequence.

/** The row formatters of the reader: how a users row becomes the summary sent beside
    messages, how a conversation gets the name it is shown under, how a message's text
    becomes HTML, how the user ids a page refers to are collected, and the WHERE clause
    builder the conversation listings share. */
module Rows {
  import opened Wrappers
  import opened Strings
  import opened Sorting

  /** AVATAR_API_URL, USER_AVATAR_DEFAULT_URL, GROUP_DM_DEFAULT_URL, DEFAULT_DISPLAY_NAME. */
  const AvatarApiUrl: string := "/api/avatar/"
  const UserAvatarDefaultUrl: string := "/assets/svg/mysteryuser.svg"
  const GroupDmDefaultUrl: string := "/assets/svg/group.svg"
  const DefaultDisplayName: string := "Mystery User"

  /** `value or ""` on a nullable text column: None and "" are both false. */
  function OrEmpty(s: Option<string>): string
  {
    s.GetOr("")
  }

  // ----- ArchivedUserSummary -----

  /** A users row: the columns ArchivedUserSummary selects (id, nickname, handle,
      display_name, avatar_extension, loaded_full_data and whether the user is the
      archive's owner) and the notes the owner keeps about the user. A display name or
      handle that is NULL in the table is the empty string here. */
  datatype UserRow = UserRow(
    id: nat, nickname: Option<string>, handle: string, displayName: string,
    avatarExtension: string, loadedFullData: bool, isMainUser: bool, notes: Option<string>)

  /** What the API sends for a user; the id becomes a string, which JavaScript can hold
      without losing precision. */
  datatype UserSummary = UserSummary(
    id: string, nickname: string, handle: string, displayName: string,
    avatarUrl: string, loadedFullData: bool, isMainUser: bool)

  /** _get_formatted_tuple: a user whose profile was never fetched is shown with the
      placeholder name and avatar and with the id as handle. */
  function FormatUser(row: UserRow): UserSummary
  {
    var id := NatToDecimal(row.id);
    UserSummary(
      id,
      OrEmpty(row.nickname),
      if row.loadedFullData then row.handle else id,
      if row.loadedFullData then row.displayName else DefaultDisplayName,
      if row.loadedFullData then AvatarApiUrl + id + "." + row.avatarExtension else UserAvatarDefaultUrl,
      row.loadedFullData,
      row.isMainUser)
  }

  /** The id string reads back as the numeric id, so summaries of different users never
      share an id. */
  lemma FormatUserId(row: UserRow, other: UserRow)
    ensures forall i :: 0 <= i < |FormatUser(row).id| ==> '0' <= FormatUser(row).id[i] <= '9'
    ensures DecimalToNat(FormatUser(row).id) == row.id
    ensures FormatUser(row).id == FormatUser(other).id ==> row.id == other.id
  {
    DecimalRoundTrip(row.id);
    if FormatUser(row).id == FormatUser(other).id {
      DecimalInjective(row.id, other.id);
    }
  }

  /** An unfetched user is shown with the defaults, whatever the row's other columns
      hold: only the id, the nickname and the owner flag come through. */
  lemma FormatUnresolved(row: UserRow, other: UserRow)
    requires !row.loadedFullData && !other.loadedFullData
    requires row.id == other.id && row.nickname == other.nickname && row.isMainUser == other.isMainUser
    ensures FormatUser(row) == FormatUser(other)
    ensures FormatUser(row).displayName == DefaultDisplayName
    ensures FormatUser(row).avatarUrl == UserAvatarDefaultUrl
    ensures DecimalToNat(FormatUser(row).handle) == row.id
  {
    DecimalRoundTrip(row.id);
  }

  /** A fetched user keeps their own handle and display name, and the avatar is served
      from the avatar route under the user's id. */
  lemma FormatResolved(row: UserRow)
    requires row.loadedFullData
    ensures FormatUser(row).handle == row.handle && FormatUser(row).displayName == row.displayName
    ensures StartsWith(FormatUser(row).avatarUrl, AvatarApiUrl)
    ensures FormatUser(row).avatarUrl[|AvatarApiUrl|..][..|FormatUser(row).id|] == FormatUser(row).id
  {
    var u := FormatUser(row);
    assert u.avatarUrl == AvatarApiUrl + (u.id + "." + row.avatarExtension);
    assert u.avatarUrl[|AvatarApiUrl|..] == u.id + "." + row.avatarExtension;
  }

  // ----- Conversation names -----

  /** The name of an individual conversation: the other person's nickname when they have
      one, else their display name with the handle. */
  function IndividualName(other: UserSummary): (name: string)
    ensures other.nickname != "" ==> name == other.nickname
    ensures other.nickname == "" ==> name == other.displayName + " (@" + other.handle + ")"
  {
    if other.nickname != "" then other.nickname
    else other.displayName + " (@" + other.handle + ")"
  }

  /** With an unfetched, nickname-less other person the conversation is named after the
      placeholder and the id. */
  lemma IndividualNameUnresolved(row: UserRow)
    requires !row.loadedFullData && OrEmpty(row.nickname) == ""
    ensures IndividualName(FormatUser(row)) == DefaultDisplayName + " (@" + NatToDecimal(row.id) + ")"
  {
  }

  /** A row of the participants-users join behind a group's name. */
  datatype NameRow = NameRow(nickname: Option<string>, displayName: Option<string>, participant: nat)

  /** How one participant appears in a group's name: nickname, else display name, else
      "@" and the id. */
  function ParticipantLabel(r: NameRow): (tag: string)
    ensures tag != []
    ensures OrEmpty(r.nickname) != "" ==> tag == r.nickname.value
    ensures OrEmpty(r.nickname) == "" && OrEmpty(r.displayName) != "" ==> tag == r.displayName.value
    ensures OrEmpty(r.nickname) == "" && OrEmpty(r.displayName) == "" ==>
      tag[0] == '@' && (forall i :: 1 <= i < |tag| ==> '0' <= tag[i] <= '9') &&
      DecimalToNat(tag[1..]) == r.participant
  {
    if OrEmpty(r.nickname) != "" then r.nickname.value
    else if OrEmpty(r.displayName) != "" then r.displayName.value
    else
      var digits := NatToDecimal(r.participant);
      DecimalRoundTrip(r.participant);
      assert (['@'] + digits)[1..] == digits;
      ['@'] + digits
  }

  function Labels(rows: seq<NameRow>): (r: seq<string>)
    ensures |r| == |rows|
  {
    MapSeq(rows, ParticipantLabel)
  }

  /** The name of a group: the text of its newest rename if it was ever renamed, else the
      first five of its six most active participants (`ranked` lists them all, most
      messages first), with ", etc." when there is a sixth. */
  function GroupName(newest: Option<string>, ranked: seq<NameRow>): (name: string)
    ensures newest.Some? ==> name == newest.value
  {
    match newest
    case Some(n) => n
    case None =>
      var top := Take(ranked, 6);
      Join(Labels(Take(top, 5)), ", ") + (if |top| == 6 then ", etc." else "")
  }

  /** The participants a group's derived name depends on: the five named in it. */
  function NamedParticipants(ranked: seq<NameRow>): (ids: set<nat>)
    ensures forall i :: 0 <= i < |ranked| && i < 5 ==> ranked[i].participant in ids
    ensures forall u :: u in ids ==> exists i :: 0 <= i < |ranked| && i < 5 && ranked[i].participant == u
  {
    set i | 0 <= i < |ranked| && i < 5 :: ranked[i].participant
  }

  predicate EndsWith(s: string, p: string)
  {
    |p| <= |s| && s[|s| - |p|..] == p
  }

  /** Without a rename the most active participant is named first; a group of at most
      five is named in full, a larger one ends in ", etc.". */
  lemma GroupNameParticipants(ranked: seq<NameRow>)
    ensures ranked != [] ==> StartsWith(GroupName(None, ranked), ParticipantLabel(ranked[0]))
    ensures |ranked| <= 5 ==> GroupName(None, ranked) == Join(Labels(ranked), ", ")
    ensures |ranked| > 5 ==> EndsWith(GroupName(None, ranked), ", etc.")
    ensures ranked == [] ==> GroupName(None, ranked) == ""
  {
    var top := Take(ranked, 6);
    var named := Labels(Take(top, 5));
    if ranked != [] {
      assert named[0] == ParticipantLabel(ranked[0]);
      JoinStarts(named, ", ");
      var j := Join(named, ", ");
      var name := GroupName(None, ranked);
      assert name == j + (if |top| == 6 then ", etc." else "");
      assert name[..|named[0]|] == j[..|named[0]|];
    }
    if |ranked| <= 5 {
      assert Take(top, 5) == ranked;
    }
  }

  lemma JoinStarts(parts: seq<string>, sep: string)
    requires parts != []
    ensures StartsWith(Join(parts, sep), parts[0])
  {
    if |parts| > 1 {
      assert Join(parts, sep) == parts[0] + (sep + Join(parts[1..], sep));
    }
  }

  /** When no label holds a comma, the derived name has one comma per further name:
      n - 1 commas for n <= 6 participants and 5 beyond that (four separators and the
      one before "etc."). */
  lemma GroupNameCommas(ranked: seq<NameRow>)
    requires ranked != []
    requires forall i :: 0 <= i < |ranked| ==> ',' !in ParticipantLabel(ranked[i])
    ensures Count(GroupName(None, ranked), ',') == (if |ranked| < 6 then |ranked| else 6) - 1
  {
    var top := Take(ranked, 6);
    var named := Labels(Take(top, 5));
    JoinCount(named, ", ", ',');
    EtcCount();
    CountConcat(Join(named, ", "), if |top| == 6 then ", etc." else "", ',');
    if |top| < 6 {
      assert Count("", ',') == 0;
    }
  }

  lemma EtcCount()
    ensures Count(", etc.", ',') == 1 && Count(", ", ',') == 1
  {
    assert Count("", ',') == 0;
    assert ", etc."[1..] == " etc.";
    assert ", "[1..] == " ";
    assert Count(" etc.", ',') == 0 by {
      CountZero(" etc.", ',');
    }
    assert Count(" ", ',') == 0 by {
      CountZero(" ", ',');
    }
  }

  lemma {:induction false} JoinCount(parts: seq<string>, sep: string, c: char)
    requires parts != []
    requires forall i :: 0 <= i < |parts| ==> c !in parts[i]
    ensures Count(Join(parts, sep), c) == (|parts| - 1) * Count(sep, c)
  {
    CountZero(parts[0], c);
    if |parts| > 1 {
      JoinCount(parts[1..], sep, c);
      CountConcat(parts[0] + sep, Join(parts[1..], sep), c);
      CountConcat(parts[0], sep, c);
    }
  }

  // ----- html_content -----

  /** A links row: the expanded URL, the text Twitter shows for it, and the t.co URL that
      stands for it in the message text. */
  datatype Link = Link(origUrl: string, urlPreview: string, shortenedUrl: string)

  const MediaUrlPrefix: string := "https://twitter.com/messages/media/"
  const PicPreviewPrefix: string := "pic.twitter.com/"

  /** A link to the message's own attached media, which is shown separately. */
  predicate IsMediaLink(l: Link)
  {
    StartsWith(l.origUrl, MediaUrlPrefix) && StartsWith(l.urlPreview, PicPreviewPrefix)
  }

  /** What a link's shortened URL is replaced by: nothing for attached media, an anchor
      otherwise. */
  function LinkMarkup(l: Link): string
  {
    if IsMediaLink(l) then "" else "<a href=\"" + l.origUrl + "\">" + l.urlPreview + "</a>"
  }

  /** The links applied one after the other, each replacing every occurrence of its
      shortened URL in the text left by the ones before. */
  function ApplyLinks(h: string, links: seq<Link>): string
    decreases |links|
  {
    if links == [] then h
    else ApplyLinks(Replace(h, links[0].shortenedUrl, LinkMarkup(links[0])), links[1..])
  }

  const LineBreak: string := "<br />"

  /** The html_content of a message: line breaks become <br />, the links are rewritten,
      and the outer whitespace is stripped. */
  ghost function Html(content: string, links: seq<Link>): string
  {
    Strip(ApplyLinks(Replace(content, "\n", LineBreak), links))
  }

  method HtmlContent(content: string, links: seq<Link>) returns (html: string)
    ensures html == Html(content, links)
  {
    html := Replace(content, "\n", LineBreak);
    var i := 0;
    while i < |links|
      invariant 0 <= i <= |links|
      invariant ApplyLinks(html, links[i..]) == ApplyLinks(Replace(content, "\n", LineBreak), links)
    {
      var link := links[i];
      assert links[i..][1..] == links[i + 1..];
      if StartsWith(link.origUrl, MediaUrlPrefix) && StartsWith(link.urlPreview, PicPreviewPrefix) {
        html := Replace(html, link.shortenedUrl, "");
      } else {
        html := Replace(html, link.shortenedUrl, "<a href=\"" + link.origUrl + "\">" + link.urlPreview + "</a>");
      }
      i := i + 1;
    }
    assert links[i..] == [];
    html := Strip(html);
  }

  /** Every character the links add comes from their markup. */
  lemma {:induction false} ApplyLinksChars(h: string, links: seq<Link>, c: char)
    requires c !in h
    requires forall i :: 0 <= i < |links| ==> c !in LinkMarkup(links[i])
    ensures c !in ApplyLinks(h, links)
    decreases |links|
  {
    if links != [] {
      var h' := Replace(h, links[0].shortenedUrl, LinkMarkup(links[0]));
      ReplaceChars(h, links[0].shortenedUrl, LinkMarkup(links[0]));
      forall k | 0 <= k < |h'| ensures h'[k] != c {
      }
      ApplyLinksChars(h', links[1..], c);
    }
  }

  /** No raw line break survives: the text's own become <br />, and a link can only bring
      one in through its URL or preview. */
  lemma HtmlHasNoNewline(content: string, links: seq<Link>)
    requires forall i :: 0 <= i < |links| ==> '\n' !in links[i].origUrl && '\n' !in links[i].urlPreview
    ensures '\n' !in Html(content, links)
  {
    ReplaceOneChar(content, '\n', LineBreak);
    ExpandCharRemoves(content, '\n', LineBreak);
    forall i | 0 <= i < |links| ensures '\n' !in LinkMarkup(links[i]) {
    }
    ApplyLinksChars(Replace(content, "\n", LineBreak), links, '\n');
  }

  /** A message without links or line breaks is shown as its stripped text. */
  lemma HtmlPlain(content: string)
    requires '\n' !in content
    ensures Html(content, []) == Strip(content)
  {
    ReplaceOneChar(content, '\n', LineBreak);
    ExpandCharAbsent(content, '\n', LineBreak);
  }

  /** A link whose shortened URL does not occur in the text changes nothing. */
  lemma HtmlAbsentLink(content: string, link: Link)
    requires link.shortenedUrl != [] && !Occurs(Replace(content, "\n", LineBreak), link.shortenedUrl)
    ensures Html(content, [link]) == Html(content, [])
  {
    ReplaceAbsent(Replace(content, "\n", LineBreak), link.shortenedUrl, LinkMarkup(link));
    assert [link][1..] == [];
  }

  /** Removing an attached-media link adds no character of its own to the text. */
  lemma MediaLinkDeletes(h: string, link: Link)
    requires IsMediaLink(link)
    ensures forall i :: 0 <= i < |ApplyLinks(h, [link])| ==> ApplyLinks(h, [link])[i] in h
  {
    ReplaceChars(h, link.shortenedUrl, "");
    assert [link][1..] == [];
  }

  // ----- user_id_iterator -----

  function Flatten(lists: seq<seq<nat>>): seq<nat>
  {
    if lists == [] then [] else lists[0] + Flatten(lists[1..])
  }

  /** The ids of xs not in `seen`, each at its first occurrence. */
  function Unique(xs: seq<nat>, seen: set<nat>): (r: seq<nat>)
    ensures forall y :: y in r <==> y in xs && y !in seen
    ensures forall i, j :: 0 <= i < j < |r| ==> r[i] != r[j]
  {
    if xs == [] then []
    else if xs[0] in seen then Unique(xs[1..], seen)
    else [xs[0]] + Unique(xs[1..], seen + {xs[0]})
  }

  /** user_id_iterator: every id of every list once, at its first occurrence. */
  function UserIdIterator(lists: seq<seq<nat>>): (ids: seq<nat>)
    ensures forall y :: y in ids <==> y in Flatten(lists)
    ensures forall i, j :: 0 <= i < j < |ids| ==> ids[i] != ids[j]
  {
    Unique(Flatten(lists), {})
  }

  function Elements(xs: seq<nat>): (r: set<nat>)
    ensures forall y :: y in r <==> y in xs
  {
    set x | x in xs
  }

  lemma {:induction false} UniqueConcat(xs: seq<nat>, ys: seq<nat>, seen: set<nat>)
    ensures Unique(xs + ys, seen) == Unique(xs, seen) + Unique(ys, seen + Elements(xs))
    decreases |xs|
  {
    if xs == [] {
      assert xs + ys == ys;
      assert seen + Elements(xs) == seen;
    } else {
      assert (xs + ys)[1..] == xs[1..] + ys;
      if xs[0] in seen {
        UniqueConcat(xs[1..], ys, seen);
        assert seen + Elements(xs) == seen + Elements(xs[1..]);
      } else {
        UniqueConcat(xs[1..], ys, seen + {xs[0]});
        assert seen + {xs[0]} + Elements(xs[1..]) == seen + Elements(xs);
      }
    }
  }

  lemma {:induction false} FlattenSnoc(lists: seq<seq<nat>>, l: seq<nat>)
    ensures Flatten(lists + [l]) == Flatten(lists) + l
  {
    if lists != [] {
      assert (lists + [l])[1..] == lists[1..] + [l];
      FlattenSnoc(lists[1..], l);
    } else {
      assert Flatten([l]) == l + Flatten([]);
    }
  }

  /** The ids stream out list by list: a further list only adds what is new in it, after
      everything the earlier lists gave. */
  lemma UserIdsStream(lists: seq<seq<nat>>, l: seq<nat>)
    ensures UserIdIterator(lists + [l]) == UserIdIterator(lists) + Unique(l, Elements(Flatten(lists)))
  {
    FlattenSnoc(lists, l);
    UniqueConcat(Flatten(lists), l, {});
    assert {} + Elements(Flatten(lists)) == Elements(Flatten(lists));
  }

  // ----- WhereClause -----

  /** The clause text for a list of conditions: each parenthesised, joined with "and",
      after "where"; no conditions give no clause at all. */
  function FormatConditions(conditions: seq<string>): string
  {
    if conditions == [] then "" else "where " + Join(Parenthesised(conditions), " and ")
  }

  function Parenthesised(conditions: seq<string>): (r: seq<string>)
    ensures |r| == |conditions|
  {
    MapSeq(conditions, (c: string) => "(" + c + ")")
  }

  /** A condition as the clause stores it: non-empty and without outer whitespace. */
  predicate Clean(c: string)
  {
    c != [] && !IsSpace(c[0]) && !IsSpace(c[|c| - 1])
  }

  class WhereClause {
    var conditions: seq<string>

    ghost predicate Valid()
      reads this
    {
      forall i :: 0 <= i < |conditions| ==> Clean(conditions[i])
    }

    constructor()
      ensures conditions == [] && Valid()
    {
      conditions := [];
    }

    /** add: keeps the stripped condition unless nothing is left of it. */
    method Add(condition: string)
      requires Valid()
      modifies this
      ensures Valid()
      ensures conditions == old(conditions) + (if Strip(condition) != "" then [Strip(condition)] else [])
    {
      var clean := Strip(condition);
      if clean != "" {
        conditions := conditions + [clean];
      }
    }

    /** __format__. */
    function Format(): (f: string)
      reads this
      ensures f == FormatConditions(conditions)
      ensures f == "" <==> conditions == []
    {
      if |conditions| > 0 then "where " + Join(Parenthesised(conditions), " and ") else ""
    }
  }

  /** Each further condition is and-ed onto the clause. */
  lemma FormatSnoc(conditions: seq<string>, c: string)
    requires conditions != []
    ensures FormatConditions(conditions + [c]) == FormatConditions(conditions) + " and (" + c + ")"
  {
    assert Parenthesised(conditions + [c]) == Parenthesised(conditions) + ["(" + c + ")"];
    JoinSnoc(Parenthesised(conditions), "(" + c + ")", " and ");
  }

  lemma FormatSingle(c: string)
    ensures FormatConditions([c]) == "where (" + c + ")"
  {
  }

  /** Whitespace-only conditions are dropped and the rest are stored stripped, so adding
      an already clean condition stores it as given. */
  lemma StripClean(c: string)
    requires Clean(c)
    ensures Strip(c) == c
  {
    assert LeadingSpaces(c) == 0;
    assert TrailingSpaces(c) == 0;
  }

  // ----- The type filter of get_conversations -----

  const GroupCondition: string := "type='group'"
  const IndividualCondition: string := "type='individual'"

  /** The type conditions for the two flags, or None when neither kind is asked for and
      the listing is empty without a query. */
  function TypeConditions(group: bool, individual: bool): (r: Option<seq<string>>)
    ensures r.None? <==> !group && !individual
    ensures r.Some? ==> (|r.value| == 1 <==> group != individual)
  {
    if group && individual then Some([])
    else if group then Some([GroupCondition])
    else if individual then Some([IndividualCondition])
    else None
  }

  /** The type conditions are stored as written. */
  lemma TypeConditionsClean()
    ensures Strip(GroupCondition) == GroupCondition && Strip(IndividualCondition) == IndividualCondition
  {
    StripClean(GroupCondition);
    StripClean(IndividualCondition);
  }

  /** get_conversations' WHERE clause: the type condition, then the caller's own `where`
      when it is not blank. */
  method ConversationClause(group: bool, individual: bool, where: string) returns (clause: Option<string>)
    ensures clause.None? <==> !group && !individual
    ensures clause.Some? ==>
      clause.value == FormatConditions(
        TypeConditions(group, individual).value + (if Strip(where) != "" then [Strip(where)] else []))
  {
    var typeClause := new WhereClause();
    TypeConditionsClean();
    if group && individual {
    } else if group {
      typeClause.Add(GroupCondition);
    } else if individual {
      typeClause.Add(IndividualCondition);
    } else {
      return None;
    }
    assert typeClause.conditions == TypeConditions(group, individual).value;
    typeClause.Add(where);
    clause := Some(typeClause.Format());
  }

  /** Asking for one kind with a further condition gives both, type first, and-ed. */
  lemma OneKindClause(condition: string, where: string)
    requires Clean(where)
    ensures FormatConditions([condition, where]) == "where (" + condition + ") and (" + where + ")"
  {
    FormatSnoc([condition], where);
    assert [condition] + [where] == [condition, where];
  }
}

/**
 * The group directory, user pages and notifications once their pages have
 * been fetched: `loadGroups`, `loadUserPage` and `loadNotifications`.
 */
module Community {
  import opened Optional
  import opened Foundation
  import opened Markdown
  import opened Comments
  import opened CommentExtraction
  import opened TopicExtraction
  import opened FeedItems

  // ---------------------------------------------------------------------------
  // Groups
  // ---------------------------------------------------------------------------

  /** `TildesAPI.Group` */
  datatype Group = Group(name: string, description: string, activity: string, isSubscribed: bool)

  /** A row of the group list; `UnreadableRow` when the HTML library throws on it. */
  datatype GroupRow = UnreadableRow | GroupRow(name: string, description: string, activity: string)

  /** The group list; `GroupsPageFailed` when the fetch or the HTML library fails. */
  datatype GroupsPage = GroupsPageFailed | GroupsPage(subscribed: seq<GroupRow>, unsubscribed: seq<GroupRow>)

  function ReadableRows(rows: seq<GroupRow>): (n: nat)
    ensures n <= |rows|
    decreases |rows|
  {
    if |rows| == 0 then 0 else (if rows[0].UnreadableRow? then 0 else 1) + ReadableRows(rows[1..])
  }

  /** `compactMap { try? parseGroupData(from: $0, isSubscribed: flag) }` */
  function GroupsOf(rows: seq<GroupRow>, flag: bool): (r: seq<Group>)
    ensures |r| == ReadableRows(rows)
    ensures forall k | 0 <= k < |r| :: r[k].isSubscribed == flag
    ensures forall k | 0 <= k < |r| :: GroupRow(r[k].name, r[k].description, r[k].activity) in rows
    decreases |rows|
  {
    if |rows| == 0 then []
    else
      var rest := GroupsOf(rows[1..], flag);
      assert forall k | 0 <= k < |rest| :: GroupRow(rest[k].name, rest[k].description, rest[k].activity) in rows by {
        assert forall row | row in rows[1..] :: row in rows;
      }
      match rows[0]
      case UnreadableRow => rest
      case GroupRow(name, description, activity) => [Group(name, description, activity, flag)] + rest
  }

  /** Rows are read independently: the groups of two runs of rows are those of each run, in order. */
  lemma {:induction false} GroupsOfConcat(a: seq<GroupRow>, b: seq<GroupRow>, flag: bool)
    ensures GroupsOf(a + b, flag) == GroupsOf(a, flag) + GroupsOf(b, flag)
    decreases |a|
  {
    if |a| == 0 {
      assert a + b == b;
    } else {
      assert (a + b)[1..] == a[1..] + b;
      GroupsOfConcat(a[1..], b, flag);
    }
  }

  /** An unreadable row is skipped as if it were not there. */
  lemma GroupsSkipUnreadable(a: seq<GroupRow>, b: seq<GroupRow>, flag: bool)
    ensures GroupsOf(a + [UnreadableRow] + b, flag) == GroupsOf(a + b, flag)
  {
    GroupsOfConcat(a + [UnreadableRow], b, flag);
    GroupsOfConcat(a, [UnreadableRow], flag);
    GroupsOfConcat(a, b, flag);
    assert GroupsOf([UnreadableRow], flag) == [] by {
      assert [UnreadableRow][1..] == [];
    }
    assert GroupsOf(a + [UnreadableRow], flag) == GroupsOf(a, flag);
  }

  /** `loadGroups()` after the fetch: every readable subscribed group, then every readable other one. */
  function LoadGroups(page: GroupsPage): (r: seq<Group>)
    ensures page.GroupsPageFailed? ==> r == []
    ensures page.GroupsPage? ==> |r| == ReadableRows(page.subscribed) + ReadableRows(page.unsubscribed)
    ensures forall i, j | 0 <= i < j < |r| :: r[j].isSubscribed ==> r[i].isSubscribed
    ensures page.GroupsPage? ==> forall k | 0 <= k < |r| ::
              GroupRow(r[k].name, r[k].description, r[k].activity) in (if r[k].isSubscribed then page.subscribed else page.unsubscribed)
  {
    match page
    case GroupsPageFailed => []
    case GroupsPage(subscribed, unsubscribed) =>
      var a := GroupsOf(subscribed, true);
      var b := GroupsOf(unsubscribed, false);
      assert forall k | |a| <= k < |a + b| :: (a + b)[k] == b[k - |a|];
      a + b
  }

  /** The subscribed groups come first and are exactly the readable subscribed rows. */
  lemma SubscribedFirst(page: GroupsPage)
    requires page.GroupsPage?
    ensures var r := LoadGroups(page);
            var n := ReadableRows(page.subscribed);
            && r[..n] == GroupsOf(page.subscribed, true)
            && forall k | n <= k < |r| :: !r[k].isSubscribed
  {
    var a := GroupsOf(page.subscribed, true);
    var b := GroupsOf(page.unsubscribed, false);
    assert (a + b)[..|a|] == a;
    assert forall k | |a| <= k < |a + b| :: (a + b)[k] == b[k - |a|];
  }

  // ---------------------------------------------------------------------------
  // User pages
  // ---------------------------------------------------------------------------

  /** `UserBio` */
  datatype UserBio = UserBio(username: string, joinDate: string, bio: Option<MarkdownString>)

  /** A `dd` of the profile sidebar: its text and its inner HTML, each none when reading it throws. */
  datatype SidebarEntry = SidebarEntry(text: Option<string>, html: Option<string>)

  /**
   * The profile `loadUserPage` assembles: present when the first sidebar
   * entry's text (the join date) was read; the second entry's HTML, if read,
   * is its bio.
   */
  function Bio(username: string, dds: seq<SidebarEntry>): (r: Option<UserBio>)
    ensures r.Some? <==> |dds| > 0 && dds[0].text.Some?
    ensures r.Some? ==> r.value.username == username && r.value.joinDate == dds[0].text.value
    ensures r.Some? ==> (r.value.bio.Some? <==> |dds| > 1 && dds[1].html.Some?)
    ensures r.Some? && r.value.bio.Some? ==> r.value.bio.value == FromHtml(dds[1].html.value)
  {
    var registered := if |dds| > 0 then dds[0].text else None;
    var bio := if |dds| > 1 then dds[1].html else None;
    match registered
    case None => None
    case Some(joined) => Some(UserBio(username, joined, if bio.Some? then Some(FromHtml(bio.value)) else None))
  }

  /** A bio is never shown without a join date, however the rest of the sidebar reads. */
  lemma BioNeedsJoinDate(username: string, dds: seq<SidebarEntry>, rest: seq<SidebarEntry>, html: Option<string>)
    requires |dds| > 0 && dds[0].text.None?
    ensures Bio(username, dds).None?
    ensures Bio(username, [dds[0], SidebarEntry(None, html)] + rest).None?
  {
  }

  /** `UserPageComment` */
  datatype UserPageComment = UserPageComment(heading: MarkdownString, comment: BasicComment, isCollapsed: bool)

  /**
   * A comment of a user page: the HTML of its heading (none when there is
   * none) and the comment element itself.
   */
  datatype UserCommentItem = UserCommentItem(heading: Option<string>, element: CommentElement)

  /** The comment of an entry is parsed only once its heading has been found. */
  predicate HeadedParses(items: seq<UserCommentItem>)
  {
    forall k | 0 <= k < |items| :: items[k].heading.Some? ==> CanParse(items[k].element)
  }

  /** The loop of `loadUserPage` over comments: those with a heading whose comment parses, in order. */
  function UserComments(items: seq<UserCommentItem>, dec: Decoders): (r: seq<UserPageComment>)
    requires HeadedParses(items)
    ensures |r| <= |items|
    ensures forall k | 0 <= k < |r| :: !r[k].isCollapsed
    decreases |items|
  {
    if |items| == 0 then []
    else
      assert HeadedParses(items[1..]) by {
        forall k | 0 <= k < |items[1..]| ensures items[1..][k].heading.Some? ==> CanParse(items[1..][k].element) {
          assert items[1..][k] == items[k + 1];
        }
      }
      var rest := UserComments(items[1..], dec);
      match items[0].heading
      case None => rest
      case Some(h) =>
        match ParseBasicComment(items[0].element, dec)
        case None => rest
        case Some(c) => [UserPageComment(FromHtml(h), c, false)] + rest
  }

  /** An entry with a heading and a readable comment is listed with both; any other entry is dropped. */
  lemma UserCommentsHead(item: UserCommentItem, rest: seq<UserCommentItem>, dec: Decoders)
    requires item.heading.Some? ==> CanParse(item.element)
    requires HeadedParses(rest)
    ensures HeadedParses([item] + rest)
    ensures item.heading.None? || item.element.Unreadable? ==> UserComments([item] + rest, dec) == UserComments(rest, dec)
    ensures item.heading.Some? && !item.element.Unreadable? ==>
              UserComments([item] + rest, dec)
              == [UserPageComment(FromHtml(item.heading.value), ParseBasicComment(item.element, dec).value, false)]
                 + UserComments(rest, dec)
  {
    assert ([item] + rest)[1..] == rest;
    assert forall k | 0 <= k < |rest| :: rest[k] == ([item] + rest)[k + 1];
  }

  /** `UserPageResponse` */
  datatype UserPageResponse = UserPageResponse(bio: Option<UserBio>, topics: seq<FeedItem>, comments: seq<UserPageComment>)

  /** A user page as fetched; `UserPageFailed` when the fetch or the HTML library fails. */
  datatype UserPage =
    | UserPageFailed
    | UserPage(sidebar: seq<SidebarEntry>, topics: seq<TopicElement>, comments: seq<UserCommentItem>)

  /** `loadUserPage(username:type:after:)` after the fetch. */
  function LoadUserPage(username: string, page: UserPage, dec: Decoders): (r: UserPageResponse)
    requires page.UserPage? ==> ListingParses(page.topics) && HeadedParses(page.comments)
    ensures page.UserPageFailed? ==> r == UserPageResponse(None, [], [])
    ensures page.UserPage? ==>
      && r.bio == Bio(username, page.sidebar)
      && r.topics == ParseListing(page.topics, None, dec)
      && r.comments == UserComments(page.comments, dec)
  {
    match page
    case UserPageFailed => UserPageResponse(None, [], [])
    case UserPage(sidebar, topics, comments) =>
      UserPageResponse(Bio(username, sidebar), ParseListing(topics, None, dec), UserComments(comments, dec))
  }

  /**
   * A topic on a user page keeps the group it shows, and is left without one
   * when it shows none: no group is requested there.
   */
  lemma UserTopicsKeepTheirGroup(username: string, page: UserPage, dec: Decoders)
    requires page.UserPage? ==> ListingParses(page.topics) && HeadedParses(page.comments)
    ensures var r := LoadUserPage(username, page, dec);
      page.UserPage? ==>
        && |r.topics| == |Readable(page.topics)|
        && forall j | 0 <= j < |r.topics| :: r.topics[j].group == Readable(page.topics)[j].groupText
  {
  }

  // ---------------------------------------------------------------------------
  // Notifications
  // ---------------------------------------------------------------------------

  /** `SBNotification`, without its random `id`. */
  datatype Notification = Notification(heading: MarkdownString, comment: BasicComment, isRead: bool, isCollapsed: bool)

  /**
   * An entry of the notification list: `ThrowingItem` when the HTML library
   * throws on it, which abandons the whole list; otherwise its heading's HTML
   * and its first article, each none when absent.
   */
  datatype NotificationItem = ThrowingItem | NotificationItem(heading: Option<string>, article: Option<CommentElement>)

  /** The article of an entry is parsed only when the entry has a heading too. */
  predicate NotificationsParse(items: seq<NotificationItem>)
  {
    forall k | 0 <= k < |items| ::
      items[k].NotificationItem? && items[k].heading.Some? && items[k].article.Some? ==> CanParse(items[k].article.value)
  }

  /**
   * What the loop demands before it throws: the article of every headed entry
   * up to the first throwing one is parsed. Entries after a throwing one are
   * never reached.
   */
  predicate ParseBeforeThrow(items: seq<NotificationItem>)
  {
    forall k | 0 <= k < |items| ::
      && (forall j | 0 <= j <= k :: items[j].NotificationItem?)
      && items[k].heading.Some? && items[k].article.Some?
      ==> CanParse(items[k].article.value)
  }

  predicate AnyThrows(items: seq<NotificationItem>)
  {
    exists k | 0 <= k < |items| :: items[k].ThrowingItem?
  }

  /** The loop of `loadNotifications` when nothing throws: entries with a heading and a readable comment, in order. */
  function NotificationsOf(items: seq<NotificationItem>, unread: bool, dec: Decoders): (r: seq<Notification>)
    requires NotificationsParse(items)
    ensures |r| <= |items|
    ensures forall k | 0 <= k < |r| :: r[k].isRead == !unread && !r[k].isCollapsed
    decreases |items|
  {
    if |items| == 0 then []
    else
      assert NotificationsParse(items[1..]) by {
        forall k | 0 <= k < |items[1..]|
          ensures items[1..][k].NotificationItem? && items[1..][k].heading.Some? && items[1..][k].article.Some?
                  ==> CanParse(items[1..][k].article.value)
        {
          assert items[1..][k] == items[k + 1];
        }
      }
      var rest := NotificationsOf(items[1..], unread, dec);
      match items[0]
      case ThrowingItem => rest
      case NotificationItem(heading, article) =>
        if heading.None? || article.None? then rest
        else match ParseBasicComment(article.value, dec)
          case None => rest
          case Some(c) => [Notification(FromHtml(heading.value), c, !unread, false)] + rest
  }

  /**
   * An entry with a heading and a readable article is listed, ahead of the
   * rest, with its heading, its parsed comment and the read flag; an entry
   * missing either, or whose article cannot be read, is skipped.
   */
  lemma NotificationsOfHead(item: NotificationItem, rest: seq<NotificationItem>, unread: bool, dec: Decoders)
    requires item.NotificationItem? && item.heading.Some? && item.article.Some? ==> CanParse(item.article.value)
    requires NotificationsParse(rest)
    ensures NotificationsParse([item] + rest)
    ensures item.NotificationItem? && (item.heading.None? || item.article.None? || item.article.value.Unreadable?) ==>
              NotificationsOf([item] + rest, unread, dec) == NotificationsOf(rest, unread, dec)
    ensures item.NotificationItem? && item.heading.Some? && item.article.Some? && !item.article.value.Unreadable? ==>
              NotificationsOf([item] + rest, unread, dec)
              == [Notification(FromHtml(item.heading.value), ParseBasicComment(item.article.value, dec).value, !unread, false)]
                 + NotificationsOf(rest, unread, dec)
  {
    assert ([item] + rest)[1..] == rest;
    assert forall k | 0 <= k < |rest| :: rest[k] == ([item] + rest)[k + 1];
  }

  /** The notification list; `NotificationsFailed` when the fetch or the HTML library fails. */
  datatype NotificationsPage = NotificationsFailed | NotificationsPage(status: Option<int>, items: seq<NotificationItem>)

  /**
   * `loadNotifications(unread:)` after the fetch: nothing unless the page came
   * with HTTP 200 and every entry could be read; otherwise the readable
   * notifications, marked read exactly when the read list was asked for.
   */
  function LoadNotifications(unread: bool, page: NotificationsPage, dec: Decoders): (r: seq<Notification>)
    requires page.NotificationsPage? && page.status == Some(200) ==> ParseBeforeThrow(page.items)
    ensures page.NotificationsFailed? || page.status != Some(200) ==> r == []
    ensures page.NotificationsPage? && page.status == Some(200) && AnyThrows(page.items) ==> r == []
    ensures page.NotificationsPage? && page.status == Some(200) && !AnyThrows(page.items) ==>
              r == NotificationsOf(page.items, unread, dec)
    ensures forall k | 0 <= k < |r| :: r[k].isRead == !unread
  {
    match page
    case NotificationsFailed => []
    case NotificationsPage(status, items) =>
      if status != Some(200) then []
      else if AnyThrows(items) then []
      else
        assert NotificationsParse(items);
        NotificationsOf(items, unread, dec)
  }

  /**
   * One entry the HTML library throws on empties the whole list, unlike an
   * entry that merely lacks its heading or article, which is skipped.
   */
  lemma ThrowingEntryAbandonsList(unread: bool, a: seq<NotificationItem>, b: seq<NotificationItem>, dec: Decoders)
    requires ParseBeforeThrow(a + [ThrowingItem] + b)
    ensures LoadNotifications(unread, NotificationsPage(Some(200), a + [ThrowingItem] + b), dec) == []
  {
    assert (a + [ThrowingItem] + b)[|a|].ThrowingItem?;
  }
}

/**
 * `parseFeedItem`, `loadFeed` and `loadPost` once the page has been fetched:
 * the rules that turn what a topic listing or a topic page shows into
 * `FeedItem`s, a `Post` and its comments.
 */
module TopicExtraction {
  import opened Optional
  import opened Text
  import opened Patterns
  import opened Foundation
  import opened Markdown
  import opened Site
  import opened Comments
  import opened CommentTrees
  import opened FeedItems
  import opened Posts

  /** What the rules read from one `.topic` of a listing. */
  datatype TopicView = TopicView(
    articleId: string,            // `id` of its article; empty when there is none
    title: string,                // text of `.topic-title`
    titleHref: string,            // `href` of the title's link
    groupText: string,            // text of `.topic-group`
    tags: seq<string>,            // text of each tag label's link
    contentType: Option<string>,  // text of `.topic-content-type`; none when reading it throws
    commentsText: string,         // text of the comments link
    newCommentsText: string,      // text of `.topic-info-comments-new`
    sourceText: string,           // text of `.topic-info-source`
    userHref: Option<string>,     // `href` of the source's user link; none when reading it throws
    datetime: string,             // `datetime` of `.time-responsive`
    votesText: string,            // text of `.topic-voting-votes`
    deleteTargets: seq<string>)   // every `data-ic-delete-from` value inside it

  /** A listing entry; `UnreadableTopic` stands for one on which the HTML library throws. */
  datatype TopicElement = UnreadableTopic | Topic(view: TopicView)

  /** The `data-ic-delete-from` URL of the button that undoes `action` on topic `id`. */
  function TopicActionUrl(id: string, action: string): string
  {
    BaseUrl + "/api/web/topics/" + id + "/" + action
  }

  /** The force-unwrap of the topic id does not fire: the article's id has the `topic-` form. */
  predicate HasTopicId(v: TopicView)
  {
    TopicId(v.articleId).Some?
  }

  /**
   * `parseFeedItem(from:group:)` on an entry it does not throw on. `group` is
   * the group the listing was requested for, if any.
   */
  function ParseFeedItem(v: TopicView, group: Option<string>, dec: Decoders): (r: FeedItem)
    requires HasTopicId(v)
    ensures r.id == TopicId(v.articleId).value
    ensures v.groupText != "" ==> r.group == v.groupText
    ensures v.groupText == "" ==> r.group == group.GetOr("")
    ensures r.comments == CountIn(v.commentsText) && r.newComments == CountIn(v.newCommentsText)
    ensures 0 <= r.comments && 0 <= r.newComments
    ensures r.votes == IntOrZero(v.votesText)
    ensures r.isUserSource <==> v.userHref.Some? && v.userHref.value != ""
    ensures r.isUserVoted <==> TopicActionUrl(r.id, "vote") in v.deleteTargets
    ensures r.isUserBookmarked <==> TopicActionUrl(r.id, "bookmark") in v.deleteTargets
    ensures r.isUserIgnored <==> TopicActionUrl(r.id, "ignore") in v.deleteTargets
    ensures r.title == v.title && r.source == v.sourceText && r.tags == v.tags && r.contentType == v.contentType
    ensures r.topicLink == dec.url(v.titleHref) && r.date == dec.date(v.datetime)
  {
    var id := TopicId(v.articleId).value;
    FeedItem(
      id := id,
      title := v.title,
      topicLink := dec.url(v.titleHref),
      group := if v.groupText == "" && group.Some? then group.value else v.groupText,
      tags := v.tags,
      contentType := v.contentType,
      comments := CountIn(v.commentsText),
      newComments := CountIn(v.newCommentsText),
      source := v.sourceText,
      isUserSource := v.userHref.Some? && v.userHref.value != "",
      date := dec.date(v.datetime),
      votes := IntOrZero(v.votesText),
      isUserVoted := TopicActionUrl(id, "vote") in v.deleteTargets,
      isUserBookmarked := TopicActionUrl(id, "bookmark") in v.deleteTargets,
      isUserIgnored := TopicActionUrl(id, "ignore") in v.deleteTargets)
  }

  /**
   * How the site shows a listing entry for `item`: its article id is
   * `topic-<id>`, its counters are labels that start with the number, its
   * source links to the user's page exactly when the user posted it, and its
   * buttons undo exactly the actions the user has taken.
   */
  function RenderedTopic(item: FeedItem, titleHref: string, datetime: string): TopicView
  {
    TopicView(
      articleId := TopicPrefix + item.id,
      title := item.title,
      titleHref := titleHref,
      groupText := item.group,
      tags := item.tags,
      contentType := item.contentType,
      commentsText := DecimalString(item.comments) + " comments",
      newCommentsText := DecimalString(item.newComments) + " new",
      sourceText := item.source,
      userHref := Some(if item.isUserSource then "/user/" + item.source else ""),
      datetime := datetime,
      votesText := DecimalString(item.votes),
      deleteTargets := UndoTargets(item))
  }

  /** The undo buttons a listing shows for the actions the user has taken on `item`. */
  function UndoTargets(item: FeedItem): (r: seq<string>)
    ensures TopicActionUrl(item.id, "vote") in r <==> item.isUserVoted
    ensures TopicActionUrl(item.id, "bookmark") in r <==> item.isUserBookmarked
    ensures TopicActionUrl(item.id, "ignore") in r <==> item.isUserIgnored
  {
    var vote, bookmark, ignore := TopicActionUrl(item.id, "vote"), TopicActionUrl(item.id, "bookmark"),
                                  TopicActionUrl(item.id, "ignore");
    assert |vote| != |bookmark| && |vote| != |ignore| && |bookmark| != |ignore|;
    (if item.isUserVoted then [vote] else [])
    + (if item.isUserBookmarked then [bookmark] else [])
    + (if item.isUserIgnored then [ignore] else [])
  }

  /**
   * Every topic the site can show in a listing is read back exactly: its id
   * has no line break, its counters fit in 64 bits and are not negative, and
   * its link and timestamp decode to the item's.
   */
  lemma ParseRenderedTopic(item: FeedItem, titleHref: string, datetime: string, dec: Decoders)
    requires forall k | 0 <= k < |item.id| :: !IsNewline(item.id[k])
    requires 0 <= item.comments <= Int64Max && 0 <= item.newComments <= Int64Max && InInt64(item.votes)
    requires dec.url(titleHref) == item.topicLink && dec.date(datetime) == item.date
    ensures var v := RenderedTopic(item, titleHref, datetime);
            HasTopicId(v) && ParseFeedItem(v, None, dec) == item
  {
    var v := RenderedTopic(item, titleHref, datetime);
    TopicIdOfAttribute(item.id);
    CountInLabel(item.comments, " comments");
    CountInLabel(item.newComments, " new");
    IntOrZeroOfDecimal(item.votes);
    var r := ParseFeedItem(v, None, dec);
    assert r.id == item.id;
    assert r.isUserSource == item.isUserSource;
    assert r.group == item.group;
  }

  /** No entry of the listing makes `parseFeedItem` trap. */
  predicate ListingParses(entries: seq<TopicElement>)
  {
    forall i | 0 <= i < |entries| :: entries[i].Topic? ==> HasTopicId(entries[i].view)
  }

  /** The entries `parseFeedItem` reads, in order. */
  function Readable(entries: seq<TopicElement>): (r: seq<TopicView>)
    ensures |r| <= |entries|
    ensures (forall i | 0 <= i < |entries| :: entries[i].Topic?) ==>
              |r| == |entries| && forall j | 0 <= j < |r| :: r[j] == entries[j].view
    ensures ListingParses(entries) ==> forall j | 0 <= j < |r| :: HasTopicId(r[j])
    decreases |entries|
  {
    if |entries| == 0 then []
    else
      var rest := Readable(entries[1..]);
      assert ListingParses(entries) ==> ListingParses(entries[1..]) by {
        if ListingParses(entries) {
          forall i | 0 <= i < |entries[1..]| ensures entries[1..][i].Topic? ==> HasTopicId(entries[1..][i].view) {
            assert entries[1..][i] == entries[i + 1];
          }
        }
      }
      match entries[0]
      case UnreadableTopic => rest
      case Topic(v) => [v] + rest
  }

  /** The first entry is kept, ahead of the rest, when it can be read, and dropped otherwise. */
  lemma ReadableHead(e: TopicElement, rest: seq<TopicElement>)
    ensures e.Topic? ==> Readable([e] + rest) == [e.view] + Readable(rest)
    ensures e.UnreadableTopic? ==> Readable([e] + rest) == Readable(rest)
  {
    assert ([e] + rest)[1..] == rest;
  }

  /**
   * The loop of `loadFeed` over the listing's entries: entries on which the
   * HTML library throws are skipped, the others parsed, in order.
   */
  function ParseListing(entries: seq<TopicElement>, group: Option<string>, dec: Decoders): (r: seq<FeedItem>)
    requires ListingParses(entries)
    ensures |r| == |Readable(entries)|
    ensures forall j | 0 <= j < |r| :: r[j] == ParseFeedItem(Readable(entries)[j], group, dec)
  {
    var views := Readable(entries);
    seq(|views|, j requires 0 <= j < |views| => ParseFeedItem(views[j], group, dec))
  }

  /** An entry the HTML library cannot read leaves the listing as if it were absent. */
  lemma {:induction false} ReadableSkipsUnreadable(a: seq<TopicElement>, b: seq<TopicElement>)
    ensures Readable(a + [UnreadableTopic] + b) == Readable(a + b)
    decreases |a|
  {
    if |a| == 0 {
      assert a + [UnreadableTopic] + b == [UnreadableTopic] + b;
      assert ([UnreadableTopic] + b)[1..] == b;
      assert a + b == b;
    } else {
      assert (a + [UnreadableTopic] + b)[1..] == a[1..] + [UnreadableTopic] + b;
      assert (a + b)[1..] == a[1..] + b;
      ReadableSkipsUnreadable(a[1..], b);
    }
  }

  /**
   * `isFiltered`: unknown unless the listing shows a filter notice with
   * some non-blank text; then whether that notice offers the unfiltered list.
   */
  function IsFiltered(filterText: Option<string>): (r: Option<bool>)
    ensures r.None? <==> filterText.None? || Trimmed(filterText.value) == ""
    ensures r.Some? ==> (r.value <==> Contains(filterText.value, "View unfiltered list"))
  {
    match filterText
    case None => None
    case Some(t) => if Trimmed(t) == "" then None else Some(Contains(t, "View unfiltered list"))
  }

  /** A notice made only of whitespace leaves the filter state unknown. */
  lemma BlankNoticeIsUnknown(t: string)
    requires forall k | 0 <= k < |t| :: IsWhitespace(t[k])
    ensures IsFiltered(Some(t)).None?
  {
  }

  /** A topic listing as fetched: `Unloadable` when the fetch or the HTML library fails. */
  datatype FeedPage =
    | UnloadableFeed
    | FeedPage(emptyTitle: Option<string>, filterText: Option<string>, entries: seq<TopicElement>)

  const AnErrorOccurred: string := "An error occurred."

  /** `loadFeed` after the fetch: the topics, the filter state and the empty-listing title. */
  function LoadFeed(page: FeedPage, group: Option<string>, dec: Decoders): (r: (seq<FeedItem>, Option<bool>, Option<string>))
    requires page.FeedPage? ==> ListingParses(page.entries)
    ensures page.UnloadableFeed? ==> r == ([], None, Some(AnErrorOccurred))
    ensures page.FeedPage? ==>
              && r.0 == ParseListing(page.entries, group, dec)
              && r.1 == IsFiltered(page.filterText)
              && r.2 == page.emptyTitle
  {
    match page
    case UnloadableFeed => ([], None, Some(AnErrorOccurred))
    case FeedPage(emptyTitle, filterText, entries) =>
      (ParseListing(entries, group, dec), IsFiltered(filterText), emptyTitle)
  }

  // ---------------------------------------------------------------------------
  // The topic page
  // ---------------------------------------------------------------------------

  /** What `loadPost` reads from a topic page. */
  datatype PostPage =
    | UnloadablePost
    | PostPage(
        title: string,                    // text of the header's `h1`
        tags: seq<string>,                // text of each tag link
        linkHref: string,                 // `href` of the topic's link
        commentsHeader: string,           // text of the comments header
        author: string,                   // text of the byline's user link
        datetime: string,
        votesText: string,
        deleteTargets: seq<string>,
        bodyHtml: string,                 // inner HTML of `.topic-full-text`
        comments: Option<CommentTree>)    // the first `.comment-tree`, with each item's parse result

  const AutomaticallyPosted: string := "Automatically posted"

  /** The post `loadPost` builds from the page of topic `id` in `group`. */
  function PagePost(page: PostPage, id: string, group: string, dec: Decoders): (p: Post)
    requires page.PostPage?
    ensures p.id == id && p.group == group
    ensures p.isUserSource <==> page.author != ""
    ensures p.source == if page.author != "" then page.author else AutomaticallyPosted
    ensures p.commentsCount == CountIn(page.commentsHeader) && p.commentsCount >= 0
    ensures p.votes == IntOrZero(page.votesText)
    ensures p.isUserVoted <==> TopicActionUrl(id, "vote") in page.deleteTargets
    ensures p.isUserBookmarked <==> TopicActionUrl(id, "bookmark") in page.deleteTargets
    ensures p.isUserIgnored <==> TopicActionUrl(id, "ignore") in page.deleteTargets
    ensures p.body == FromHtml(page.bodyHtml) && p.title == page.title && p.tags == page.tags
    ensures p.topicLink == dec.url(page.linkHref) && p.date == dec.date(page.datetime)
  {
    Post(
      id := id,
      group := group,
      title := page.title,
      body := FromHtml(page.bodyHtml),
      topicLink := dec.url(page.linkHref),
      tags := page.tags,
      source := if page.author != "" then page.author else AutomaticallyPosted,
      isUserSource := page.author != "",
      date := dec.date(page.datetime),
      votes := IntOrZero(page.votesText),
      isUserVoted := TopicActionUrl(id, "vote") in page.deleteTargets,
      isUserBookmarked := TopicActionUrl(id, "bookmark") in page.deleteTargets,
      isUserIgnored := TopicActionUrl(id, "ignore") in page.deleteTargets,
      commentsCount := CountIn(page.commentsHeader))
  }

  /**
   * `loadPost(id:group:commentOrder:)` after the fetch: nothing when the page
   * cannot be loaded; otherwise the post and the flattened comments, flagged
   * against the topic's author.
   */
  function LoadPost(page: PostPage, id: string, group: string, respectWebCollapsed: bool, dec: Decoders)
    : (r: Option<(Post, seq<Comment>)>)
    ensures r.None? <==> page.UnloadablePost?
    ensures r.Some? ==> r.value.0 == PagePost(page, id, group, dec)
    ensures r.Some? && page.comments.None? ==> r.value.1 == []
    ensures r.Some? && page.comments.Some? ==>
              r.value.1 == Flatten(page.comments.value, Context(page.author, respectWebCollapsed), None, None)
  {
    match page
    case UnloadablePost => None
    case PostPage(_, _, _, _, author, _, _, _, _, comments) =>
      var bag := TopicComments(comments, Context(author, respectWebCollapsed));
      Some((PagePost(page, id, group, dec), bag))
  }

  /** The comments `loadPost` collects: the flattening of the page's comment tree, if it has one. */
  function TopicComments(tree: Option<CommentTree>, ctx: Context): (r: seq<Comment>)
    ensures tree.None? ==> r == []
    ensures tree.Some? ==> r == Flatten(tree.value, ctx, None, None)
  {
    if tree.None? then []
    else
      ParseCommentsIsPreorder(tree.value, ctx, None, None, []);
      assert [] + Flatten(tree.value, ctx, None, None) == Flatten(tree.value, ctx, None, None);
      ParseComments(tree.value, ctx, None, None, []).0
  }

  /**
   * On a topic page every thread starts at a top-level comment: each comment
   * carries the id of the top-level comment it sits under, and top-level
   * comments have no parent.
   */
  lemma PostThreads(page: PostPage, id: string, group: string, respectWebCollapsed: bool, dec: Decoders, i: nat)
    requires page.PostPage? && page.comments.Some?
    requires i < |page.comments.value.items| && page.comments.value.items[i].parsed.Some?
    ensures var ctx := Context(page.author, respectWebCollapsed);
            var item := page.comments.value.items[i];
            && Head(item, ctx, None, None).parent.None?
            && forall c | c in Block(item, ctx, None, None) :: c.threadParent == item.parsed.value.id
  {
    TopLevelThreads(page.comments.value, i, Context(page.author, respectWebCollapsed), None);
  }
}

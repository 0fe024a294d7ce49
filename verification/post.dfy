/** `Post`: a topic as shown on its own page. */
module Posts {
  import opened Optional
  import opened Text
  import opened Foundation
  import opened Markdown
  import opened Patterns
  import opened Site
  import FeedItems

  datatype Post = Post(
    id: string,
    group: string,
    title: string,
    body: MarkdownString,
    topicLink: Option<Url>,
    tags: seq<string>,
    source: string,
    isUserSource: bool,
    date: Option<Date>,
    votes: int,
    isUserVoted: bool,
    isUserBookmarked: bool,
    isUserIgnored: bool,
    commentsCount: int)

  /**
   * `canonicalLink`: the page of the post's topic, from which the
   * group-and-post pattern reads back the post's group and id.
   */
  function CanonicalLink(p: Post): (r: string)
    ensures r == PageUrl([p.group, p.id])
    ensures IsGroupName(p.group) && IsPostId(p.id) ==> GroupAndPost(r) == Some((p.group, p.id))
  {
    FeedItems.TopicPage(p.group, p.id)
  }

  /** A post and a listing entry for the same group and id link to the same page. */
  lemma CanonicalLinksAgree(p: Post, item: FeedItems.FeedItem)
    requires p.group == item.group && p.id == item.id
    ensures CanonicalLink(p) == FeedItems.CanonicalLink(item)
  {
  }

  /** `shortPubDate` */
  function ShortPubDate(p: Post, short: Date -> string): (r: string)
    ensures p.date.None? ==> r == "-"
    ensures p.date.Some? ==> r == short(p.date.value)
  {
    ShortOrDash(p.date, short)
  }

  /** The extensions `linkIsImage` recognises, in lower case. */
  const ImageExtensions: seq<string> := ["png", "jpg", "jpeg"]

  /** `linkIsImage`: the link's path extension, lower-cased, is an image extension. */
  function LinkIsImage(p: Post): (r: bool)
    ensures p.topicLink.None? ==> !r
    ensures p.topicLink.Some? ==> (r <==> Lowercased(p.topicLink.value.pathExtension) in ImageExtensions)
  {
    match p.topicLink
    case None => false
    case Some(u) => Lowercased(u.pathExtension) in ImageExtensions
  }

  /** The image test ignores the case of the extension. */
  lemma LinkIsImageIgnoresCase(p: Post, q: Post)
    requires p.topicLink.Some? && q.topicLink.Some?
    requires Lowercased(p.topicLink.value.pathExtension) == Lowercased(q.topicLink.value.pathExtension)
    ensures LinkIsImage(p) == LinkIsImage(q)
  {
  }
}

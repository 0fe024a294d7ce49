/** `FeedItem`: one topic of a listing, and the strings the views derive from it. */
module FeedItems {
  import opened Optional
  import opened Text
  import opened Patterns
  import opened Foundation
  import opened Site

  datatype FeedItem = FeedItem(
    id: string,
    title: string,
    topicLink: Option<Url>,
    group: string,
    tags: seq<string>,
    contentType: Option<string>,   // `type`
    comments: int,
    newComments: int,
    source: string,
    isUserSource: bool,
    date: Option<Date>,
    votes: int,
    isUserVoted: bool,
    isUserBookmarked: bool,
    isUserIgnored: bool)

  /**
   * The address of a topic's page on the site, written as `canonicalLink`
   * writes it. It is the page the path components group and id name, and the
   * group-and-post pattern reads the group and the id back out of it.
   */
  function TopicPage(group: string, id: string): (r: string)
    ensures r == PageUrl([group, id])
    ensures IsGroupName(group) && IsPostId(id) ==> GroupAndPost(r) == Some((group, id))
  {
    PageUrlSnoc([], group);
    PageUrlSnoc([group], id);
    assert [] + [group] == [group] && [group] + [id] == [group, id];
    TopicPageNamesTopic(group, id);
    BaseUrl + "/" + group + "/" + id
  }

  lemma TopicPageNamesTopic(group: string, id: string)
    ensures IsGroupName(group) && IsPostId(id) ==> GroupAndPost(BaseUrl + "/" + group + "/" + id) == Some((group, id))
  {
    if IsGroupName(group) && IsPostId(id) {
      var prefix := BaseUrl + "/";
      var name := group[1..];
      assert forall k | 0 <= k < |prefix| :: prefix[k] != '~';
      assert "~" + name == group;
      assert prefix + "~" + name + "/" + id + "" == BaseUrl + "/" + group + "/" + id;
      GroupAndPostOfLink(prefix, name, id, "");
    }
  }

  /**
   * `canonicalLink`: the page of the item's topic, from which the
   * group-and-post pattern reads back the item's group and id.
   */
  function CanonicalLink(item: FeedItem): (r: string)
    ensures r == PageUrl([item.group, item.id])
    ensures IsGroupName(item.group) && IsPostId(item.id) ==> GroupAndPost(r) == Some((item.group, item.id))
  {
    TopicPage(item.group, item.id)
  }

  /** The canonical link depends on the group and the id and on nothing else. */
  lemma CanonicalLinkOnlyFromGroupAndId(a: FeedItem, b: FeedItem)
    requires a.group == b.group && a.id == b.id
    ensures CanonicalLink(a) == CanonicalLink(b)
  {
  }

  /**
   * A topic's canonical link is the page actions on the topic name as their
   * referrer, whenever its group and id are both known.
   */
  lemma CanonicalLinkIsReferrer(item: FeedItem)
    requires item.group != "" && item.id != ""
    ensures CanonicalLink(item) == TopicReferrer(item.id, Some(item.group))
  {
  }

  /** `shortPubDate`: the caller-supplied relative rendering of the date, or a dash. */
  function ShortPubDate(item: FeedItem, short: Date -> string): (r: string)
    ensures item.date.None? ==> r == "-"
    ensures item.date.Some? ==> r == short(item.date.value)
  {
    ShortOrDash(item.date, short)
  }

  const DateUnavailable: string := "Date unavailable"
  const MiddleDot: string := " \U{00B7} "

  /**
   * `fullPubDate`: without a date, a fixed notice; with one, the short
   * rendering, a middle dot, and the caller-supplied `M/d/yyyy · h:mm a`
   * rendering.
   */
  function FullPubDate(item: FeedItem, short: Date -> string, long: Date -> string): (r: string)
    ensures item.date.None? <==> r == DateUnavailable
    ensures item.date.Some? ==> HasPrefix(r, ShortPubDate(item, short) + MiddleDot)
    ensures item.date.Some? ==> r == ShortPubDate(item, short) + MiddleDot + long(item.date.value)
  {
    match item.date
    case None => DateUnavailable
    case Some(d) =>
      var r := ShortPubDate(item, short) + MiddleDot + long(d);
      assert r[..|ShortPubDate(item, short) + MiddleDot|] == ShortPubDate(item, short) + MiddleDot;
      assert r != DateUnavailable by {
        var s := ShortPubDate(item, short);
        assert r[|s| + 1] == '\U{00B7}';
        if |r| == |DateUnavailable| {
          assert DateUnavailable[|s| + 1] != '\U{00B7}';
        }
      }
      r
  }
}

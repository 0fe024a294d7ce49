/**
 * `parseBasicComment`: the rules that turn what the page shows about one
 * comment into a `BasicComment`. HTML selection is abstracted away: a comment
 * element is given by the attribute values, class flags and texts the rules
 * consult.
 */
module CommentExtraction {
  import opened Optional
  import opened Text
  import opened Patterns
  import opened Foundation
  import opened Markdown
  import opened Site
  import opened Comments

  /** What the rules read from the first `<article>` of a comment tree item. */
  datatype ArticleView = ArticleView(
    id36: string,                        // `data-comment-id36`
    hasNewClass: bool,                   // class `is-comment-new`
    hasExemplaryClass: bool,             // class `is-comment-exemplary`
    repliesAttr: string,                 // `data-comment-replies`
    depthAttr: string,                   // `data-comment-depth`
    firstCollapsedId36: Option<string>)  // `data-comment-id36` of the first `.is-comment-collapsed` in the article

  /** What the rules read from the first `.comment-itself` of a comment tree item. */
  datatype BodyView = BodyView(
    hasExemplaryLabel: bool,             // a `.label-comment-exemplary` among its `.comment-labels`
    hasRemovedMarker: bool,              // an `.is-comment-removed` inside it
    hasDeletedMarker: bool,              // an `.is-comment-deleted` inside it
    navHrefs: seq<string>,               // `href` of each `.comment-nav-link`, in document order
    textHtml: string,                    // inner HTML of `.comment-text`
    author: string,                      // text of `.comment-header > .link-user`
    postedTime: string,                  // `datetime` of `.comment-posted-time`
    editedTime: string,                  // `datetime` of the edited time
    deleteTargets: seq<string>,          // every `data-ic-delete-from` value inside it
    votesText: Option<string>,           // text of the first `.comment-votes`
    postButtonText: Option<string>)      // text of the first `.btn-post`

  /**
   * A `.comment-tree-item` as the rules see it. `Unreadable` stands for an
   * element on which the HTML library throws; the other variant may still
   * lack an article or a body.
   */
  datatype CommentElement =
    | Unreadable
    | CommentElement(article: Option<ArticleView>, itself: Option<BodyView>)

  /** The `data-ic-delete-from` URL of the button that undoes `action` on comment `id`. */
  function CommentActionUrl(id: string, action: string): string
  {
    BaseUrl + "/api/web/comments/" + id + "/" + action
  }

  /** Position of the last of `hrefs` that ends with `id`. */
  function LastLinkIndex(hrefs: seq<string>, id: string): (r: Option<nat>)
    ensures r.None? <==> forall k | 0 <= k < |hrefs| :: !HasSuffix(hrefs[k], id)
    ensures r.Some? ==> r.value < |hrefs| && HasSuffix(hrefs[r.value], id)
    ensures r.Some? ==> forall k | r.value < k < |hrefs| :: !HasSuffix(hrefs[k], id)
    decreases |hrefs|
  {
    if |hrefs| == 0 then None
    else if HasSuffix(hrefs[|hrefs| - 1], id) then Some(|hrefs| - 1)
    else LastLinkIndex(hrefs[..|hrefs| - 1], id)
  }

  /**
   * The comment's own link: the last navigation link ending with the
   * comment's id, or empty when none does.
   */
  function CommentLink(hrefs: seq<string>, id: string): (r: string)
    ensures (forall k | 0 <= k < |hrefs| :: !HasSuffix(hrefs[k], id)) ==> r == ""
    ensures forall j | 0 <= j < |hrefs| && HasSuffix(hrefs[j], id) && (forall k | j < k < |hrefs| :: !HasSuffix(hrefs[k], id)) ::
              r == hrefs[j]
  {
    match LastLinkIndex(hrefs, id)
    case None => ""
    case Some(j) => hrefs[j]
  }

  /** The first digit run of an optional text. */
  function DigitRunOf(text: Option<string>): Option<string>
  {
    match text
    case None => None
    case Some(t) => FirstDigitRun(t)
  }

  /**
   * The vote count: the first digit run of the votes label, or when it has
   * none, that of the vote button, or else zero.
   */
  function Votes(v: BodyView): (r: int)
    ensures 0 <= r <= Int64Max
    ensures DigitRunOf(v.votesText).Some? ==> r == CountIn(v.votesText.value)
    ensures DigitRunOf(v.votesText).None? ==> r == CountIn(v.postButtonText.GetOr(""))
  {
    IntOrZero(match DigitRunOf(v.votesText)
              case Some(x) => x
              case None => DigitRunOf(v.postButtonText).GetOr("0"))
  }

  /**
   * The force-unwraps of `parseBasicComment` do not fire: the item has an
   * article and a body, and its comment link names a group and a post.
   * An element on which the HTML library throws is caught instead.
   */
  predicate CanParse(e: CommentElement)
  {
    e.Unreadable? ||
    (e.article.Some? && e.itself.Some? &&
     GroupAndPost(CommentLink(e.itself.value.navHrefs, e.article.value.id36)).Some?)
  }

  /** `parseBasicComment(from:)`, with the date parser supplied by the caller. */
  function ParseBasicComment(e: CommentElement, dec: Decoders): (r: Option<BasicComment>)
    requires CanParse(e)
    ensures r.None? <==> e.Unreadable?
    ensures r.Some? ==>
      var a := e.article.value;
      var v := e.itself.value;
      var b := r.value;
      var link := CommentLink(v.navHrefs, a.id36);
      && b.id == a.id36
      && b.repliesCount == IntOrZero(a.repliesAttr)
      && b.depth == IntOrZero(a.depthAttr)
      && b.isNew == a.hasNewClass
      && b.isExemplary == (a.hasExemplaryClass || v.hasExemplaryLabel)
      && b.isAlreadyCollapsed == (a.firstCollapsedId36 == Some(a.id36))
      && b.isRemoved == (v.hasRemovedMarker || v.hasDeletedMarker)
      && (b.removalReason == Admin <==> v.hasRemovedMarker)
      && HasSuffix(link, b.id)
      && b.canonicalLink == BaseUrl + link
      && (b.group, b.post) == GroupAndPost(link).value
      && b.markdown == FromHtml(v.textHtml)
      && b.user == v.author
      && b.createdDate == dec.date(v.postedTime)
      && b.editedDate == dec.date(v.editedTime)
      && b.votes == Votes(v)
      && b.isUserVoted == (CommentActionUrl(b.id, "vote") in v.deleteTargets)
      && b.isUserBookmarked == (CommentActionUrl(b.id, "bookmark") in v.deleteTargets)
  {
    match e
    case Unreadable => None
    case CommentElement(article, itself) =>
      var a := article.value;
      var v := itself.value;
      var link := CommentLink(v.navHrefs, a.id36);
      var (group, post) := GroupAndPost(link).value;
      Some(BasicComment(
        id := a.id36,
        repliesCount := IntOrZero(a.repliesAttr),
        depth := IntOrZero(a.depthAttr),
        isRemoved := v.hasRemovedMarker || v.hasDeletedMarker,
        removalReason := if v.hasRemovedMarker then Admin else User,
        canonicalLink := BaseUrl + link,
        group := group,
        post := post,
        markdown := FromHtml(v.textHtml),
        user := v.author,
        createdDate := dec.date(v.postedTime),
        editedDate := dec.date(v.editedTime),
        votes := Votes(v),
        isUserVoted := CommentActionUrl(a.id36, "vote") in v.deleteTargets,
        isUserBookmarked := CommentActionUrl(a.id36, "bookmark") in v.deleteTargets,
        isAlreadyCollapsed := a.firstCollapsedId36 == Some(a.id36),
        isExemplary := a.hasExemplaryClass || v.hasExemplaryLabel,
        isNew := a.hasNewClass))
  }

  // ---------------------------------------------------------------------------
  // Reading back what the site renders
  // ---------------------------------------------------------------------------

  /**
   * The markup the site renders for comment `b` whose permalink is `link`,
   * with its timestamps written as `postedTime` and `editedTime`.
   */
  function Rendered(b: BasicComment, link: string, postedTime: string, editedTime: string): CommentElement
  {
    CommentElement(
      Some(ArticleView(
        id36 := b.id,
        hasNewClass := b.isNew,
        hasExemplaryClass := b.isExemplary,
        repliesAttr := DecimalString(b.repliesCount),
        depthAttr := DecimalString(b.depth),
        firstCollapsedId36 := if b.isAlreadyCollapsed then Some(b.id) else None)),
      Some(BodyView(
        hasExemplaryLabel := false,
        hasRemovedMarker := b.isRemoved && b.removalReason == Admin,
        hasDeletedMarker := b.isRemoved && b.removalReason == User,
        navHrefs := [link],
        textHtml := b.markdown.originalContent,
        author := b.user,
        postedTime := postedTime,
        editedTime := editedTime,
        deleteTargets := (if b.isUserVoted then [CommentActionUrl(b.id, "vote")] else [])
                         + (if b.isUserBookmarked then [CommentActionUrl(b.id, "bookmark")] else []),
        votesText := Some(DecimalString(b.votes)),
        postButtonText := None)))
  }

  /**
   * Every comment the site can render is read back exactly: its permalink
   * `/~group/post…` ends with its id, its counts fit in 64 bits (votes are
   * never negative), a comment that is not removed has the default reason,
   * its body is kept as HTML, and its timestamps parse to its dates.
   */
  lemma ParseRendered(b: BasicComment, tail: string, postedTime: string, editedTime: string, dec: Decoders)
    requires |b.group| >= 2 && b.group[0] == '~' && forall k | 1 <= k < |b.group| :: IsGroupChar(b.group[k])
    requires |b.post| > 0 && forall k | 0 <= k < |b.post| :: IsAsciiAlphanumeric(b.post[k])
    requires |tail| == 0 || !IsAsciiAlphanumeric(tail[0])
    requires HasSuffix("/" + b.group + "/" + b.post + tail, b.id)
    requires b.canonicalLink == BaseUrl + ("/" + b.group + "/" + b.post + tail)
    requires InInt64(b.repliesCount) && InInt64(b.depth) && 0 <= b.votes <= Int64Max
    requires b.isRemoved || b.removalReason == User
    requires b.markdown == FromHtml(b.markdown.originalContent)
    requires dec.date(postedTime) == b.createdDate && dec.date(editedTime) == b.editedDate
    ensures var e := Rendered(b, "/" + b.group + "/" + b.post + tail, postedTime, editedTime);
            CanParse(e) && ParseBasicComment(e, dec) == Some(b)
  {
    var link := "/" + b.group + "/" + b.post + tail;
    var e := Rendered(b, link, postedTime, editedTime);
    var v := e.itself.value;
    assert CommentLink(v.navHrefs, b.id) == link;
    PermalinkNamesGroupAndPost(b.group, b.post, tail);
    assert CanParse(e);
    IntOrZeroOfDecimal(b.repliesCount);
    IntOrZeroOfDecimal(b.depth);
    VotesFromLabel(v, b.votes);
    assert CommentActionUrl(b.id, "vote") != CommentActionUrl(b.id, "bookmark");
  }

  /** A permalink of the site's shape names its group and post. */
  lemma PermalinkNamesGroupAndPost(group: string, post: string, tail: string)
    requires |group| >= 2 && group[0] == '~' && forall k | 1 <= k < |group| :: IsGroupChar(group[k])
    requires |post| > 0 && forall k | 0 <= k < |post| :: IsAsciiAlphanumeric(post[k])
    requires |tail| == 0 || !IsAsciiAlphanumeric(tail[0])
    ensures GroupAndPost("/" + group + "/" + post + tail) == Some((group, post))
  {
    var name := group[1..];
    assert "~" + name == group;
    assert "/" + "~" + name + "/" + post + tail == "/" + group + "/" + post + tail;
    GroupAndPostOfLink("/", name, post, tail);
  }

  /** A votes label showing a count in decimal is read as that count. */
  lemma VotesFromLabel(v: BodyView, votes: int)
    requires 0 <= votes <= Int64Max
    requires v.votesText == Some(DecimalString(votes))
    ensures Votes(v) == votes
  {
    CountInDecimal(votes);
    NatDigitsValue(votes);
  }
}

/**
 * `createPost(group:title:link:markdown:tags:)` and the double-check it falls
 * back on, `getLatestPostFromFeed(group:checkTitle:)`.
 */
module CreatePosts {
  import opened Optional
  import opened Text
  import opened Patterns
  import opened Site
  import opened Http
  import opened Sessions
  import opened UrlEncoding

  /** `CreatePostResponse`: the new topic's id, or the seconds to wait before posting again. */
  datatype CreatePostResponse = CreatePostResponse(postId: Option<string>, retryAfter: Option<int>)

  /** `didSucceed` */
  predicate DidSucceed(r: CreatePostResponse)
  {
    r.postId.Some?
  }

  // ---------------------------------------------------------------------------
  // Tags
  // ---------------------------------------------------------------------------

  /** `tags.joined(separator: ",")` */
  function JoinTags(tags: seq<string>): (r: string)
    ensures |tags| == 0 ==> r == ""
    ensures |tags| == 1 ==> r == tags[0]
    decreases |tags|
  {
    if |tags| == 0 then "" else if |tags| == 1 then tags[0] else tags[0] + "," + JoinTags(tags[1..])
  }

  /** Position of the first `c` in `s`. */
  function IndexOf(s: string, c: char): (r: Option<nat>)
    ensures r.None? <==> c !in s
    ensures r.Some? ==> r.value < |s| && s[r.value] == c && c !in s[..r.value]
    decreases |s|
  {
    if |s| == 0 then None
    else if s[0] == c then Some(0)
    else match IndexOf(s[1..], c)
      case None => None
      case Some(i) =>
        assert s[..i + 1] == [s[0]] + s[1..][..i];
        Some(i + 1)
  }

  /** How the site reads a tag list: the pieces between commas. */
  function SplitTags(s: string): (r: seq<string>)
    ensures |r| > 0
    decreases |s|
  {
    match IndexOf(s, ',')
    case None => [s]
    case Some(i) => [s[..i]] + SplitTags(s[i + 1..])
  }

  /** Tags without commas are sent so that they can be told apart again. */
  lemma {:induction false} JoinTagsRoundTrip(tags: seq<string>)
    requires |tags| > 0
    requires forall k | 0 <= k < |tags| :: ',' !in tags[k]
    ensures SplitTags(JoinTags(tags)) == tags
    decreases |tags|
  {
    if |tags| == 1 {
      assert IndexOf(tags[0], ',').None?;
    } else {
      var rest := tags[1..];
      assert forall k | 0 <= k < |rest| :: rest[k] == tags[k + 1];
      JoinTagsRoundTrip(rest);
      assert JoinTags(tags) == tags[0] + "," + JoinTags(rest);
      SplitAtFirstComma(tags[0], JoinTags(rest));
      assert [tags[0]] + rest == tags;
    }
  }

  lemma SplitAtFirstComma(head: string, rest: string)
    requires ',' !in head
    ensures SplitTags(head + "," + rest) == [head] + SplitTags(rest)
  {
    var s := head + "," + rest;
    FirstComma(head, rest);
    assert s[..|head|] == head;
    assert s[|head| + 1..] == rest;
  }

  lemma {:induction false} FirstComma(head: string, rest: string)
    requires ',' !in head
    ensures IndexOf(head + "," + rest, ',') == Some(|head|)
    decreases |head|
  {
    if |head| > 0 {
      var s := head + "," + rest;
      assert s[1..] == head[1..] + "," + rest;
      FirstComma(head[1..], rest);
    }
  }

  // ---------------------------------------------------------------------------
  // The request
  // ---------------------------------------------------------------------------

  /** The request `createPost` sends to the group's topic list. */
  function CreatePostRequest(s: Session, group: string, title: string, link: string, markdown: string,
                             tags: seq<string>): (r: Option<Request>)
    ensures r.None? <==> s.csrfToken.None?
    ensures r.Some? ==>
      && r.value.verb == Post && r.value.url == BaseUrl + "/" + group + "/topics"
      && r.value.referrer == BaseUrl + "/" + group
      && r.value.csrfToken == s.csrfToken && r.value.icRequest && r.value.methodOverride.None?
      && r.value.form.Keys == {"title", "link", "markdown", "tags"}
      && r.value.form["title"] == title && r.value.form["link"] == link
      && r.value.form["markdown"] == UrlPrepMarkdown(markdown) && r.value.form["tags"] == JoinTags(tags)
  {
    match s.csrfToken
    case None => None
    case Some(token) =>
      PageUrlSpelled(group, "topics", "", "", "");
      Some(Request(Post, PageUrl([group, "topics"]), PageUrl([group]), Some(token), true, None,
                   map["title" := title, "link" := link, "markdown" := UrlPrepMarkdown(markdown),
                       "tags" := JoinTags(tags)]))
  }

  /**
   * The site reads back what was submitted: an ASCII body after form
   * decoding, and the tags after splitting at commas, as long as no tag
   * holds a comma itself.
   */
  lemma CreatePostFormRoundTrip(s: Session, group: string, title: string, link: string, markdown: string,
                                tags: seq<string>)
    requires s.csrfToken.Some? && AllAscii(markdown)
    requires |tags| > 0 && forall k | 0 <= k < |tags| :: ',' !in tags[k]
    ensures var form := CreatePostRequest(s, group, title, link, markdown, tags).value.form;
            FormDecode(form["markdown"]) == markdown && SplitTags(form["tags"]) == tags
  {
    MarkdownRoundTrip(markdown);
    JoinTagsRoundTrip(tags);
  }

  // ---------------------------------------------------------------------------
  // The double-check against the group's newest topics
  // ---------------------------------------------------------------------------

  /**
   * The first of the user's own topics on the listing: its article's `id`
   * and the text of its title, each none when reading it throws.
   */
  datatype MinePost = MinePost(idAttr: Option<string>, titleText: Option<string>)

  /** The group's listing as the double-check reads it; `FeedCheckFailed` when loading it throws. */
  datatype FeedCheck = FeedCheckFailed | FeedCheck(csrfMeta: Option<string>, firstMine: Option<MinePost>)

  /** Titles are compared trimmed and lowercased. */
  function Normalized(t: string): string
  {
    Lowercased(Trimmed(t))
  }

  /**
   * `getLatestPostFromFeed(group:checkTitle:)`: the id of the user's newest
   * topic in the group, provided its title is the one just submitted. Loading
   * the listing stashes its CSRF token.
   */
  function LatestPostFromFeed(s: Session, page: FeedCheck, checkTitle: string): (r: (Session, Option<string>))
    ensures page.FeedCheckFailed? ==> r == (s, None)
    ensures page.FeedCheck? ==> r.0 == Stash(s, page.csrfMeta)
    ensures r.1.Some? <==>
      && page.FeedCheck? && page.firstMine.Some?
      && page.firstMine.value.titleText.Some?
      && Normalized(page.firstMine.value.titleText.value) == Normalized(checkTitle)
      && page.firstMine.value.idAttr.Some? && TopicId(page.firstMine.value.idAttr.value).Some?
    ensures r.1.Some? ==> r.1 == TopicId(page.firstMine.value.idAttr.value)
  {
    match page
    case FeedCheckFailed => (s, None)
    case FeedCheck(meta, mine) =>
      var s' := Stash(s, meta);
      match mine
      case None => (s', None)
      case Some(MinePost(idAttr, titleText)) =>
        var id := if idAttr.Some? then TopicId(idAttr.value) else None;
        if titleText.None? || Normalized(titleText.value) != Normalized(checkTitle) then (s', None)
        else (s', id)
  }

  /** The title comparison ignores letter case and surrounding whitespace. */
  lemma NormalizedIgnoresCase(t: string)
    ensures Normalized(Lowercased(t)) == Normalized(t)
  {
    TrimmedLowercased(t);
    LowercasedTwice(Trimmed(t));
  }

  lemma LowercasedTwice(t: string)
    ensures Lowercased(Lowercased(t)) == Lowercased(t)
  {
  }

  lemma TrimmedLowercased(t: string)
    ensures Trimmed(Lowercased(t)) == Lowercased(Trimmed(t))
  {
    var r := Trimmed(t);
    var i := RunLength(t, IsWhitespace);
    var j := i + |r|;
    var l := Lowercased(t);
    forall k | 0 <= k < |t|
      ensures IsWhitespace(l[k]) == IsWhitespace(t[k])
    {
      LowerCharKeepsSpace(t[k]);
    }
    if i < j {
      assert t[i] == r[0] && t[j - 1] == r[|r| - 1];
    }
    TrimmedOf(l, i, j);
    LowercasedSlice(t, i, j);
  }

  lemma LowerCharKeepsSpace(c: char)
    ensures IsWhitespace(LowerChar(c)) == IsWhitespace(c)
  {
  }

  lemma LowercasedSlice(t: string, i: nat, j: nat)
    requires i <= j <= |t|
    ensures Lowercased(t)[i..j] == Lowercased(t[i..j])
  {
  }

  // ---------------------------------------------------------------------------
  // The outcome
  // ---------------------------------------------------------------------------

  /**
   * How `createPost` judges the answer before any double-check: `Posted` when
   * the redirect names the new topic in this group, `RateLimited` for a
   * numeric `Retry-After`, `Rejected` for the errors it gives up on, and
   * `Unconfirmed` for the ones it double-checks against the listing.
   */
  datatype Verdict = Posted(postId: string) | RateLimited(secs: int) | Rejected | Unconfirmed

  predicate NumericRetryAfter(resp: Response)
  {
    resp.Received? && resp.retryAfter.Some? && ParseInt(resp.retryAfter.value).Some?
  }

  /**
   * The ordered checks of `createPost` on an answer; `matchRedirect` is
   * `Regexes.onlyGroupAndPost` applied to the redirect address.
   */
  function Judge(resp: Response, group: string, matchRedirect: string -> Option<(string, string)>): (v: Verdict)
    ensures resp.Failed? || resp.status.None? ==> v == Rejected
    ensures resp.Received? && resp.status.Some? && NumericRetryAfter(resp) ==>
              v == RateLimited(ParseInt(resp.retryAfter.value).value)
    ensures v == Rejected <==> resp.Failed? || resp.status.None? || (!NumericRetryAfter(resp) && resp.status != Some(200))
    ensures v.Posted? <==>
      && IsOk(resp) && !NumericRetryAfter(resp) && resp.icRedirect.Some? && resp.body == ""
      && matchRedirect(resp.icRedirect.value).Some? && matchRedirect(resp.icRedirect.value).value.0 == group
    ensures v.Posted? ==> v.postId == matchRedirect(resp.icRedirect.value).value.1
    ensures v.RateLimited? ==> InInt64(v.secs)
  {
    match resp
    case Failed => Rejected
    case Received(status, retryAfter, redirect, body) =>
      if status.None? then Rejected
      else if retryAfter.Some? && ParseInt(retryAfter.value).Some? then RateLimited(ParseInt(retryAfter.value).value)
      else if status != Some(200) then Rejected
      else if redirect.None? || body != "" then Unconfirmed
      else match matchRedirect(redirect.value)
        case None => Unconfirmed
        case Some(m) => if m.0 != group then Unconfirmed else Posted(m.1)
  }

  /**
   * `createPost(group:title:link:markdown:tags:)`. `feed` is the group's
   * listing the double-check loads when the answer is inconclusive.
   */
  function CreatePost(s: Session, group: string, title: string, link: string, markdown: string, tags: seq<string>,
                      send: Request -> Response, matchRedirect: string -> Option<(string, string)>,
                      feed: FeedCheck): (r: (Session, CreatePostResponse))
    ensures s.csrfToken.None? ==> r == (s, CreatePostResponse(None, None))
    ensures s.csrfToken.Some? ==>
      var v := Judge(send(CreatePostRequest(s, group, title, link, markdown, tags).value), group, matchRedirect);
      && (v.Posted? ==> r == (s, CreatePostResponse(Some(v.postId), None)))
      && (v.RateLimited? ==> r == (s, CreatePostResponse(None, Some(v.secs))))
      && (v.Rejected? ==> r == (s, CreatePostResponse(None, None)))
      && (v.Unconfirmed? ==> r.0 == LatestPostFromFeed(s, feed, title).0
                             && r.1 == CreatePostResponse(LatestPostFromFeed(s, feed, title).1, None))
  {
    match CreatePostRequest(s, group, title, link, markdown, tags)
    case None => (s, CreatePostResponse(None, None))
    case Some(req) =>
      match Judge(send(req), group, matchRedirect)
      case Posted(id) => (s, CreatePostResponse(Some(id), None))
      case RateLimited(secs) => (s, CreatePostResponse(None, Some(secs)))
      case Rejected => (s, CreatePostResponse(None, None))
      case Unconfirmed =>
        var (s', id) := LatestPostFromFeed(s, feed, title);
        (s', CreatePostResponse(id, None))
  }

  /** A post attempt never reports both a new topic and a wait. */
  lemma NeverBoth(s: Session, group: string, title: string, link: string, markdown: string, tags: seq<string>,
                  send: Request -> Response, matchRedirect: string -> Option<(string, string)>, feed: FeedCheck)
    ensures var r := CreatePost(s, group, title, link, markdown, tags, send, matchRedirect, feed).1;
            !(r.postId.Some? && r.retryAfter.Some?)
  {
  }

  /**
   * A numeric `Retry-After` decides the outcome before the status is looked
   * at: whatever the status, body or redirect, the answer is to wait.
   */
  lemma RetryAfterFirst(resp: Response, group: string, matchRedirect: string -> Option<(string, string)>, status: int,
                        body: string, redirect: Option<string>)
    requires NumericRetryAfter(resp) && resp.status.Some?
    ensures Judge(resp.(status := Some(status), body := body, icRedirect := redirect), group, matchRedirect)
            == Judge(resp, group, matchRedirect)
  {
  }

  /**
   * A topic is reported as posted only when the site's redirect names it in
   * this group, or when the double-check finds the user's newest topic there
   * under the submitted title.
   */
  lemma PostedOnlyWhenConfirmed(s: Session, group: string, title: string, link: string, markdown: string,
                                tags: seq<string>, send: Request -> Response,
                                matchRedirect: string -> Option<(string, string)>, feed: FeedCheck)
    ensures DidSucceed(CreatePost(s, group, title, link, markdown, tags, send, matchRedirect, feed).1) ==>
            s.csrfToken.Some?
    ensures DidSucceed(CreatePost(s, group, title, link, markdown, tags, send, matchRedirect, feed).1) ==>
            var resp := send(CreatePostRequest(s, group, title, link, markdown, tags).value);
            var v := Judge(resp, group, matchRedirect);
            || (v.Posted? && resp.icRedirect.Some? && matchRedirect(resp.icRedirect.value).value.0 == group)
            || (v.Unconfirmed? && feed.FeedCheck? && feed.firstMine.Some? && feed.firstMine.value.titleText.Some?
                && Normalized(feed.firstMine.value.titleText.value) == Normalized(title))
  {
  }

  /** Hard failures are final: no token, a failed transfer, or a status other than 200 without a numeric wait. */
  lemma HardFailuresSkipDoubleCheck(s: Session, group: string, title: string, link: string, markdown: string,
                                    tags: seq<string>, send: Request -> Response,
                                    matchRedirect: string -> Option<(string, string)>, feed: FeedCheck, other: FeedCheck)
    requires s.csrfToken.Some? ==>
      var resp := send(CreatePostRequest(s, group, title, link, markdown, tags).value);
      resp.Failed? || (!NumericRetryAfter(resp) && resp.status != Some(200))
    ensures CreatePost(s, group, title, link, markdown, tags, send, matchRedirect, feed)
            == CreatePost(s, group, title, link, markdown, tags, send, matchRedirect, other)
            == (s, CreatePostResponse(None, None))
  {
  }
}

/**
 * The actions a logged-in user takes on topics, comments and groups. Each
 * builds one request from the session's CSRF token, hands it to `send`, and
 * judges the answer; without a token no request is sent at all.
 */
module Mutations {
  import opened Optional
  import opened Text
  import opened Site
  import opened Foundation
  import opened Http
  import opened Sessions
  import opened UrlEncoding
  import opened Comments
  import opened CommentExtraction
  import opened TopicExtraction

  /** `HTTPMethod`: `put` sets a vote, bookmark or ignore; `delete` takes it back. */
  datatype Toggle = On | Off

  function Verb(t: Toggle): (m: Method)
    ensures m == Put || m == Delete
  {
    if t == On then Put else Delete
  }

  /** `PostAction`, by its raw value. */
  datatype PostAction = IgnorePost | BookmarkPost | VotePost

  function PostActionName(a: PostAction): string
  {
    match a
    case IgnorePost => "ignore"
    case BookmarkPost => "bookmark"
    case VotePost => "vote"
  }

  /** `CommentAction`, by its raw value. */
  datatype CommentAction = VoteComment | BookmarkComment | MarkRead

  function CommentActionName(a: CommentAction): string
  {
    match a
    case VoteComment => "vote"
    case BookmarkComment => "bookmark"
    case MarkRead => "mark_read"
  }

  /** The form every edit and reply sends: the body, prepared for a form. */
  function MarkdownForm(body: string): (f: map<string, string>)
    ensures f.Keys == {"markdown"}
    ensures ' ' !in f["markdown"] && '&' !in f["markdown"]
  {
    map["markdown" := UrlPrepMarkdown(body)]
  }

  /** An ASCII body survives the form preparation and the site's form decoding. */
  lemma MarkdownFormRoundTrip(body: string)
    requires AllAscii(body)
    ensures FormDecode(MarkdownForm(body)["markdown"]) == body
  {
    MarkdownRoundTrip(body);
  }

  /** The verdict of a request that may not have been sent. */
  predicate Succeeded(req: Option<Request>, send: Request -> Response)
  {
    req.Some? && IsOk(send(req.value))
  }

  // ---------------------------------------------------------------------------
  // Topics
  // ---------------------------------------------------------------------------

  /** The request `actOnPost(action:id:group:method:)` sends. */
  function ActOnPostRequest(s: Session, action: PostAction, id: string, group: Option<string>, t: Toggle): (r: Option<Request>)
    ensures r.None? <==> s.csrfToken.None?
    ensures r.Some? ==>
      && r.value.verb == Verb(t)
      && r.value.url == TopicActionUrl(id, PostActionName(action))
      && r.value.referrer == TopicReferrer(id, group)
      && r.value.csrfToken == s.csrfToken
      && r.value.icRequest && r.value.methodOverride.None? && r.value.form == map[]
  {
    match s.csrfToken
    case None => None
    case Some(token) =>
      ApiUrlSpelled("topics", id, PostActionName(action));
      Some(Request(Verb(t), ApiUrl(["topics", id, PostActionName(action)]), TopicReferrer(id, group),
                   Some(token), true, None, map[]))
  }

  /**
   * `actOnPost`, behind `putVoteOnPost`, `deleteVoteOnPost`, `putBookmarkOnPost`,
   * `deleteBookmarkOnPost`, `putIgnoreOnPost` and `deleteIgnoreOnPost`: true
   * exactly when a request went out and came back with HTTP 200.
   */
  function ActOnPost(s: Session, action: PostAction, id: string, group: Option<string>, t: Toggle,
                     send: Request -> Response): (ok: bool)
    ensures s.csrfToken.None? ==> !ok
    ensures ok <==> Succeeded(ActOnPostRequest(s, action, id, group, t), send)
  {
    match ActOnPostRequest(s, action, id, group, t)
    case None => false
    case Some(req) => IsOk(send(req))
  }

  /**
   * Setting and taking back an action on a topic address the same resource,
   * the one whose URL a topic listing shows as the undo target of that
   * action (and from which the listing's flags are read); only the verb differs.
   */
  lemma PostTogglesShareAddress(s: Session, action: PostAction, id: string, group: Option<string>)
    requires s.csrfToken.Some?
    ensures var on := ActOnPostRequest(s, action, id, group, On).value;
            var off := ActOnPostRequest(s, action, id, group, Off).value;
            && on.verb == Put && off.verb == Delete
            && off == on.(verb := Delete)
            && on.url == TopicActionUrl(id, PostActionName(action))
  {
  }

  /** The topic actions name distinct resources. */
  lemma PostActionsDistinct(a: PostAction, b: PostAction)
    requires a != b
    ensures PostActionName(a) != PostActionName(b)
  {
  }

  /** `deletePost(id:)`'s request. */
  function DeletePostRequest(s: Session, id: string): (r: Option<Request>)
    ensures r.None? <==> s.csrfToken.None?
    ensures r.Some? ==>
      && r.value.verb == Delete && r.value.url == BaseUrl + "/api/web/topics/" + id
      && r.value.referrer == BaseUrl && r.value.csrfToken == s.csrfToken && r.value.icRequest
      && r.value.form == map[]
  {
    match s.csrfToken
    case None => None
    case Some(token) =>
      ApiUrlSpelled("topics", id, "");
      Some(Request(Delete, ApiUrl(["topics", id]), BaseUrl, Some(token), true, None, map[]))
  }

  /** `deletePost(id:)`: true exactly on HTTP 200. */
  function DeletePost(s: Session, id: string, send: Request -> Response): (ok: bool)
    ensures s.csrfToken.None? ==> !ok
    ensures ok <==> Succeeded(DeletePostRequest(s, id), send)
  {
    match DeletePostRequest(s, id)
    case None => false
    case Some(req) => IsOk(send(req))
  }

  /** `editPost(id:body:)`'s request. */
  function EditPostRequest(s: Session, id: string, body: string): (r: Option<Request>)
    ensures r.None? <==> s.csrfToken.None?
    ensures r.Some? ==>
      && r.value.verb == Patch && r.value.url == BaseUrl + "/api/web/topics/" + id
      && r.value.referrer == BaseUrl && r.value.csrfToken == s.csrfToken && r.value.icRequest
      && r.value.form == MarkdownForm(body)
  {
    match DeletePostRequest(s, id)
    case None => None
    case Some(req) => Some(req.(verb := Patch, form := MarkdownForm(body)))
  }

  /**
   * `editPost(id:body:)`: the status (404 when there is none) and the page
   * returned; `(404, "")` when no request went out or the transfer failed.
   */
  function EditPost(s: Session, id: string, body: string, send: Request -> Response): (r: (int, string))
    ensures s.csrfToken.None? ==> r == (404, "")
    ensures s.csrfToken.Some? ==>
      var resp := send(EditPostRequest(s, id, body).value);
      && r.0 == StatusOr404(resp)
      && (resp.Received? ==> r.1 == resp.body)
      && (resp.Failed? ==> r == (404, ""))
  {
    match EditPostRequest(s, id, body)
    case None => (404, "")
    case Some(req) =>
      match send(req)
      case Failed => (404, "")
      case Received(status, _, _, html) => (status.GetOr(404), html)
  }

  /**
   * The answer to a reply: none when the transfer failed, otherwise the
   * status and the first `<article>` of the page returned, if any.
   * `readArticle` is the HTML selection.
   */
  predicate ArticleReadable(resp: Response, readArticle: string -> Option<CommentElement>)
  {
    resp.Failed? || readArticle(resp.body).None? || CanParse(readArticle(resp.body).value)
  }

  function ReplyOutcome(resp: Response, readArticle: string -> Option<CommentElement>, dec: Decoders): (r: (int, Option<BasicComment>))
    requires ArticleReadable(resp, readArticle)
    ensures r.0 == StatusOr404(resp)
    ensures r.1.Some? <==> resp.Received? && readArticle(resp.body).Some? && !readArticle(resp.body).value.Unreadable?
    ensures r.1.Some? ==> r.1 == ParseBasicComment(readArticle(resp.body).value, dec)
  {
    match resp
    case Failed => (404, None)
    case Received(status, _, _, html) =>
      match readArticle(html)
      case None => (status.GetOr(404), None)
      case Some(e) => (status.GetOr(404), ParseBasicComment(e, dec))
  }

  /** `replyToPost(id:group:body:)`'s request. */
  function ReplyToPostRequest(s: Session, id: string, group: Option<string>, body: string): (r: Option<Request>)
    ensures r.None? <==> s.csrfToken.None?
    ensures r.Some? ==>
      && r.value.verb == Post && r.value.url == TopicActionUrl(id, "comments")
      && r.value.referrer == TopicReferrer(id, group) && r.value.csrfToken == s.csrfToken && r.value.icRequest
      && r.value.form == MarkdownForm(body)
  {
    match s.csrfToken
    case None => None
    case Some(token) =>
      ApiUrlSpelled("topics", id, "comments");
      assert ApiUrl(["topics", id, "comments"]) == TopicActionUrl(id, "comments");
      Some(Request(Post, ApiUrl(["topics", id, "comments"]), TopicReferrer(id, group), Some(token), true, None,
                   MarkdownForm(body)))
  }

  /**
   * `replyToPost(id:group:body:)`: the status and the new comment as the
   * returned page shows it; `(404, nil)` when no request went out or the
   * transfer failed.
   */
  function ReplyToPost(s: Session, id: string, group: Option<string>, body: string, send: Request -> Response,
                       readArticle: string -> Option<CommentElement>, dec: Decoders): (r: (int, Option<BasicComment>))
    requires s.csrfToken.Some? ==> ArticleReadable(send(ReplyToPostRequest(s, id, group, body).value), readArticle)
    ensures s.csrfToken.None? ==> r == (404, None)
    ensures s.csrfToken.Some? ==> r == ReplyOutcome(send(ReplyToPostRequest(s, id, group, body).value), readArticle, dec)
  {
    match ReplyToPostRequest(s, id, group, body)
    case None => (404, None)
    case Some(req) => ReplyOutcome(send(req), readArticle, dec)
  }

  /**
   * A reply, a vote and any other action on the same topic name the topic's
   * page as referrer; an ASCII body reaches the site exactly as typed.
   */
  lemma ReplyToPostLikeVote(s: Session, id: string, group: Option<string>, body: string, action: PostAction, t: Toggle)
    requires s.csrfToken.Some? && AllAscii(body)
    ensures var reply := ReplyToPostRequest(s, id, group, body).value;
            && reply.referrer == ActOnPostRequest(s, action, id, group, t).value.referrer
            && FormDecode(reply.form["markdown"]) == body
  {
    MarkdownFormRoundTrip(body);
  }

  // ---------------------------------------------------------------------------
  // Comments
  // ---------------------------------------------------------------------------

  /**
   * The request `actOnComment(action:id:postId:group:method:)` sends: always a
   * POST, with the toggle's verb in `X-HTTP-Method-Override`; the referrer is
   * the page of the topic `postId`.
   */
  function ActOnCommentRequest(s: Session, action: CommentAction, id: string, postId: string, group: Option<string>,
                               t: Toggle): (r: Option<Request>)
    ensures r.None? <==> s.csrfToken.None?
    ensures r.Some? ==>
      && r.value.verb == Post && r.value.methodOverride == Some(Verb(t))
      && r.value.url == CommentActionUrl(id, CommentActionName(action))
      && r.value.referrer == TopicReferrer(postId, group)
      && r.value.csrfToken == s.csrfToken && r.value.icRequest && r.value.form == map[]
  {
    match s.csrfToken
    case None => None
    case Some(token) =>
      ApiUrlSpelled("comments", id, CommentActionName(action));
      Some(Request(Post, ApiUrl(["comments", id, CommentActionName(action)]), TopicReferrer(postId, group),
                   Some(token), true, Some(Verb(t)), map[]))
  }

  /**
   * `actOnComment`, behind `putVoteOnComment`, `deleteVoteOnComment`,
   * `putBookmarkOnComment`, `deleteBookmarkOnComment` and `markCommentRead`
   * (which only ever sets): true exactly on HTTP 200.
   */
  function ActOnComment(s: Session, action: CommentAction, id: string, postId: string, group: Option<string>, t: Toggle,
                        send: Request -> Response): (ok: bool)
    ensures s.csrfToken.None? ==> !ok
    ensures ok <==> Succeeded(ActOnCommentRequest(s, action, id, postId, group, t), send)
  {
    match ActOnCommentRequest(s, action, id, postId, group, t)
    case None => false
    case Some(req) => IsOk(send(req))
  }

  /**
   * Voting on a comment and bookmarking it address exactly the resources a
   * comment's page shows as the undo targets `parseBasicComment` reads its
   * `isUserVoted` and `isUserBookmarked` flags from.
   */
  lemma CommentTogglesMatchPage(s: Session, id: string, postId: string, group: Option<string>, t: Toggle)
    requires s.csrfToken.Some?
    ensures ActOnCommentRequest(s, VoteComment, id, postId, group, t).value.url == CommentActionUrl(id, "vote")
    ensures ActOnCommentRequest(s, BookmarkComment, id, postId, group, t).value.url == CommentActionUrl(id, "bookmark")
    ensures ActOnCommentRequest(s, VoteComment, id, postId, group, On).value
            == ActOnCommentRequest(s, VoteComment, id, postId, group, Off).value.(methodOverride := Some(Put))
  {
  }

  /** `deleteComment(id:)`'s request. */
  function DeleteCommentRequest(s: Session, id: string): (r: Option<Request>)
    ensures r.None? <==> s.csrfToken.None?
    ensures r.Some? ==>
      && r.value.verb == Delete && r.value.url == BaseUrl + "/api/web/comments/" + id
      && r.value.referrer == BaseUrl && r.value.csrfToken == s.csrfToken && r.value.icRequest
      && r.value.form == map[]
  {
    match s.csrfToken
    case None => None
    case Some(token) =>
      ApiUrlSpelled("comments", id, "");
      Some(Request(Delete, ApiUrl(["comments", id]), BaseUrl, Some(token), true, None, map[]))
  }

  /** `deleteComment(id:)`: true exactly on HTTP 200. */
  function DeleteComment(s: Session, id: string, send: Request -> Response): (ok: bool)
    ensures s.csrfToken.None? ==> !ok
    ensures ok <==> Succeeded(DeleteCommentRequest(s, id), send)
  {
    match DeleteCommentRequest(s, id)
    case None => false
    case Some(req) => IsOk(send(req))
  }

  /** `editComment(id:body:)`'s request. */
  function EditCommentRequest(s: Session, id: string, body: string): (r: Option<Request>)
    ensures r.None? <==> s.csrfToken.None?
    ensures r.Some? ==>
      && r.value.verb == Patch && r.value.url == BaseUrl + "/api/web/comments/" + id
      && r.value.referrer == BaseUrl && r.value.csrfToken == s.csrfToken && r.value.icRequest
      && r.value.form == MarkdownForm(body)
  {
    match DeleteCommentRequest(s, id)
    case None => None
    case Some(req) => Some(req.(verb := Patch, form := MarkdownForm(body)))
  }

  /**
   * `editComment(id:body:)`: the status and the new body's HTML, read by
   * `commentText` from the `.comment-text` of the returned `.comment-itself`
   * (none when the page has no such element); `(404, nil)` when no request
   * went out or the transfer failed.
   */
  function EditComment(s: Session, id: string, body: string, send: Request -> Response,
                       commentText: string -> Option<string>): (r: (int, Option<string>))
    ensures s.csrfToken.None? ==> r == (404, None)
    ensures s.csrfToken.Some? ==>
      var resp := send(EditCommentRequest(s, id, body).value);
      && r.0 == StatusOr404(resp)
      && (resp.Received? ==> r.1 == commentText(resp.body))
      && (resp.Failed? ==> r.1.None?)
  {
    match EditCommentRequest(s, id, body)
    case None => (404, None)
    case Some(req) =>
      match send(req)
      case Failed => (404, None)
      case Received(status, _, _, html) => (status.GetOr(404), commentText(html))
  }

  /** `replyToComment(id:postId:group:body:)`'s request. */
  function ReplyToCommentRequest(s: Session, id: string, postId: string, group: Option<string>, body: string): (r: Option<Request>)
    ensures r.None? <==> s.csrfToken.None?
    ensures r.Some? ==>
      && r.value.verb == Post && r.value.url == CommentActionUrl(id, "replies") && r.value.methodOverride.None?
      && r.value.referrer == TopicReferrer(postId, group) && r.value.csrfToken == s.csrfToken && r.value.icRequest
      && r.value.form == MarkdownForm(body)
  {
    match s.csrfToken
    case None => None
    case Some(token) =>
      ApiUrlSpelled("comments", id, "replies");
      assert ApiUrl(["comments", id, "replies"]) == CommentActionUrl(id, "replies");
      Some(Request(Post, ApiUrl(["comments", id, "replies"]), TopicReferrer(postId, group), Some(token), true, None,
                   MarkdownForm(body)))
  }

  /**
   * `replyToComment(id:postId:group:body:)`: as `replyToPost`, for a reply to
   * comment `id` under topic `postId`.
   */
  function ReplyToComment(s: Session, id: string, postId: string, group: Option<string>, body: string,
                          send: Request -> Response, readArticle: string -> Option<CommentElement>,
                          dec: Decoders): (r: (int, Option<BasicComment>))
    requires s.csrfToken.Some? ==> ArticleReadable(send(ReplyToCommentRequest(s, id, postId, group, body).value), readArticle)
    ensures s.csrfToken.None? ==> r == (404, None)
    ensures s.csrfToken.Some? ==> r == ReplyOutcome(send(ReplyToCommentRequest(s, id, postId, group, body).value), readArticle, dec)
  {
    match ReplyToCommentRequest(s, id, postId, group, body)
    case None => (404, None)
    case Some(req) => ReplyOutcome(send(req), readArticle, dec)
  }

  /**
   * A reply to a comment and a reply to its topic carry the same referrer
   * and the same form, and differ in the resource they post to.
   */
  lemma RepliesAgree(s: Session, id: string, postId: string, group: Option<string>, body: string)
    requires s.csrfToken.Some?
    ensures var toComment := ReplyToCommentRequest(s, id, postId, group, body).value;
            var toPost := ReplyToPostRequest(s, postId, group, body).value;
            && toComment.referrer == toPost.referrer
            && toComment.form == toPost.form
            && toComment.url != toPost.url
  {
    ReplyUrlsDiffer(id, postId);
  }

  /** Comments and topics live under different parts of the web API. */
  lemma ReplyUrlsDiffer(id: string, postId: string)
    ensures CommentActionUrl(id, "replies") != TopicActionUrl(postId, "comments")
  {
    var ca := BaseUrl + "/api/web/comments/";
    var cb := BaseUrl + "/api/web/topics/";
    assert |BaseUrl| == 18;
    assert ca[27] == 'c' && cb[27] == 't';
    PrefixChar(ca, id + "/" + "replies", 27);
    PrefixChar(cb, postId + "/" + "comments", 27);
    assert CommentActionUrl(id, "replies") == ca + (id + "/" + "replies");
    assert TopicActionUrl(postId, "comments") == cb + (postId + "/" + "comments");
  }

  lemma PrefixChar(x: string, y: string, k: nat)
    requires k < |x|
    ensures (x + y)[k] == x[k]
  {
  }

  // ---------------------------------------------------------------------------
  // Groups
  // ---------------------------------------------------------------------------

  /**
   * The request `actOnGroup(action:group:method:)` sends. The group is named
   * with its leading `~`, which is dropped from the address: the first
   * character is cut whatever it is, and an empty name traps once a token is
   * there.
   */
  function ActOnGroupRequest(s: Session, group: string, t: Toggle): (r: Option<Request>)
    requires s.csrfToken.Some? ==> |group| > 0
    ensures r.None? <==> s.csrfToken.None?
    ensures r.Some? ==>
      && r.value.verb == Verb(t) && r.value.url == BaseUrl + "/api/web/group/" + group[1..] + "/subscribe"
      && r.value.referrer == BaseUrl + "/" + group
      && r.value.csrfToken == s.csrfToken && r.value.icRequest && r.value.methodOverride.None? && r.value.form == map[]
  {
    match s.csrfToken
    case None => None
    case Some(token) =>
      PageUrlSpelled(group, "", "", "", "");
      ApiUrlSpelled("group", group[1..], "subscribe");
      Some(Request(Verb(t), ApiUrl(["group", group[1..], "subscribe"]), PageUrl([group]), Some(token), true, None, map[]))
  }

  /** `subscribeToGroup(_:)` (`On`) and `unsubscribeFromGroup(_:)` (`Off`): true exactly on HTTP 200. */
  function ActOnGroup(s: Session, group: string, t: Toggle, send: Request -> Response): (ok: bool)
    requires s.csrfToken.Some? ==> |group| > 0
    ensures s.csrfToken.None? ==> !ok
    ensures ok <==> Succeeded(ActOnGroupRequest(s, group, t), send)
  {
    match ActOnGroupRequest(s, group, t)
    case None => false
    case Some(req) => IsOk(send(req))
  }

  /** For a group named `~name` the request addresses `name` and is referred from the group's page. */
  lemma SubscribeNamesGroup(s: Session, name: string, t: Toggle)
    requires s.csrfToken.Some?
    ensures var req := ActOnGroupRequest(s, "~" + name, t).value;
            && req.url == BaseUrl + "/api/web/group/" + name + "/subscribe"
            && req.referrer == PageUrl(["~" + name])
  {
    assert ("~" + name)[1..] == name;
    PageUrlSpelled("~" + name, "", "", "", "");
  }
}

/**
 * The two comment records: `BasicComment`, read from one comment element, and
 * `Comment`, the same data placed in its thread (Comment.swift).
 */
module Comments {
  import opened Optional
  import opened Foundation
  import opened Markdown

  /** Who removed a comment: a site administrator or its author. */
  datatype RemovalReason = Admin | User

  /** `TildesAPI.BasicComment` */
  datatype BasicComment = BasicComment(
    id: string,
    repliesCount: int,          // direct replies, as the server declares them
    depth: int,                 // nesting depth, as the server declares it
    isRemoved: bool,
    removalReason: RemovalReason,
    canonicalLink: string,
    group: string,
    post: string,
    markdown: MarkdownString,
    user: string,
    createdDate: Option<Date>,
    editedDate: Option<Date>,
    votes: int,
    isUserVoted: bool,
    isUserBookmarked: bool,
    isAlreadyCollapsed: bool,   // the server rendered it collapsed
    isExemplary: bool,
    isNew: bool)

  /** `Comment` */
  datatype Comment = Comment(
    id: string,
    markdown: MarkdownString,
    createdDate: Option<Date>,
    editedDate: Option<Date>,
    user: string,
    repliesCount: int,
    totalCount: int,            // this comment and all of its descendants
    votes: int,
    isUserVoted: bool,
    isUserBookmarked: bool,
    depth: int,
    isOriginalPoster: bool,
    isCollapsed: bool,
    isRemoved: bool,
    removalReason: RemovalReason,
    canonicalLink: string,
    group: string,
    post: string,
    parent: Option<string>,     // id of the comment replied to; none at top level
    threadParent: string,       // id of the top-level comment of the thread
    isExemplary: bool,
    isNew: bool)

  /**
   * `BasicComment.init(comment:)`: forgets a comment's place in its thread.
   * The server's collapse flag is not kept by `Comment`, so it comes back false.
   */
  function ToBasic(c: Comment): (b: BasicComment)
    ensures !b.isAlreadyCollapsed
    ensures b.id == c.id && b.depth == c.depth && b.user == c.user
  {
    BasicComment(
      id := c.id,
      repliesCount := c.repliesCount,
      depth := c.depth,
      isRemoved := c.isRemoved,
      removalReason := c.removalReason,
      canonicalLink := c.canonicalLink,
      group := c.group,
      post := c.post,
      markdown := c.markdown,
      user := c.user,
      createdDate := c.createdDate,
      editedDate := c.editedDate,
      votes := c.votes,
      isUserVoted := c.isUserVoted,
      isUserBookmarked := c.isUserBookmarked,
      isAlreadyCollapsed := false,
      isExemplary := c.isExemplary,
      isNew := c.isNew)
  }

  /**
   * `Comment.init(basicComment:totalCount:isOriginalPoster:isCollapsed:parent:threadParent:depthOverride:)`.
   * Every field of the basic comment is carried over except the depth, which a
   * caller showing the comment out of its thread may override; the thread
   * fields come from the arguments alone.
   */
  function FromBasic(
    b: BasicComment,
    totalCount: int,
    isOriginalPoster: bool,
    isCollapsed: bool,
    parent: Option<string>,
    threadParent: string,
    depthOverride: Option<int>): (c: Comment)
    ensures ToBasic(c) == b.(depth := depthOverride.GetOr(b.depth), isAlreadyCollapsed := false)
    ensures c.totalCount == totalCount && c.isOriginalPoster == isOriginalPoster && c.isCollapsed == isCollapsed
    ensures c.parent == parent && c.threadParent == threadParent
  {
    Comment(
      id := b.id,
      markdown := b.markdown,
      createdDate := b.createdDate,
      editedDate := b.editedDate,
      user := b.user,
      repliesCount := b.repliesCount,
      totalCount := totalCount,
      votes := b.votes,
      isUserVoted := b.isUserVoted,
      isUserBookmarked := b.isUserBookmarked,
      depth := depthOverride.GetOr(b.depth),
      isOriginalPoster := isOriginalPoster,
      isCollapsed := isCollapsed,
      isRemoved := b.isRemoved,
      removalReason := b.removalReason,
      canonicalLink := b.canonicalLink,
      group := b.group,
      post := b.post,
      parent := parent,
      threadParent := threadParent,
      isExemplary := b.isExemplary,
      isNew := b.isNew)
  }

  /** The defaults of the Swift initialiser: a lone, expanded comment at its server depth. */
  lemma DefaultArguments(b: BasicComment, isOriginalPoster: bool, parent: Option<string>, threadParent: string)
    ensures var c := FromBasic(b, 1, isOriginalPoster, false, parent, threadParent, None);
      c.totalCount == 1 && !c.isCollapsed && c.depth == b.depth
  {
  }

  /** Placing a basic comment and forgetting the placement gives it back, less the collapse flag. */
  lemma BasicRoundTrip(b: BasicComment, totalCount: int, isOriginalPoster: bool, isCollapsed: bool,
                       parent: Option<string>, threadParent: string)
    ensures ToBasic(FromBasic(b, totalCount, isOriginalPoster, isCollapsed, parent, threadParent, None))
            == b.(isAlreadyCollapsed := false)
  {
  }

  /** Forgetting a comment's placement and restoring the same placement gives the comment back. */
  lemma CommentRoundTrip(c: Comment)
    ensures FromBasic(ToBasic(c), c.totalCount, c.isOriginalPoster, c.isCollapsed, c.parent, c.threadParent, None) == c
  {
  }

  /** Two basic comments placed alike get the same parent and thread, whatever their contents. */
  lemma PlacementIgnoresContent(b1: BasicComment, b2: BasicComment, totalCount: int, isOriginalPoster: bool,
                                isCollapsed: bool, parent: Option<string>, threadParent: string, depthOverride: Option<int>)
    ensures var c1 := FromBasic(b1, totalCount, isOriginalPoster, isCollapsed, parent, threadParent, depthOverride);
            var c2 := FromBasic(b2, totalCount, isOriginalPoster, isCollapsed, parent, threadParent, depthOverride);
            c1.parent == c2.parent && c1.threadParent == c2.threadParent
  {
  }

  datatype CommentLabel = NewLabel | ExemplaryLabel

  /** `labels`: the badges shown on a comment, "new" before "exemplary". */
  function Labels(c: Comment): (r: seq<CommentLabel>)
    ensures |r| == (if c.isNew then 1 else 0) + (if c.isExemplary then 1 else 0)
    ensures NewLabel in r <==> c.isNew
    ensures ExemplaryLabel in r <==> c.isExemplary
    ensures |r| == 2 ==> r == [NewLabel, ExemplaryLabel]
  {
    (if c.isNew then [NewLabel] else []) + (if c.isExemplary then [ExemplaryLabel] else [])
  }

  /** `shortCreatedDate` of a basic comment. */
  function BasicShortCreatedDate(b: BasicComment, short: Date -> string): (r: string)
    ensures b.createdDate.None? ==> r == "-"
  {
    ShortOrDash(b.createdDate, short)
  }

  /** `shortEditedDate` of a basic comment: none when it was never edited. */
  function BasicShortEditedDate(b: BasicComment, short: Date -> string): (r: Option<string>)
    ensures r.None? <==> b.editedDate.None?
  {
    match b.editedDate
    case None => None
    case Some(d) => Some(short(d))
  }

  /** `shortCreatedDate` of a comment. */
  function ShortCreatedDate(c: Comment, short: Date -> string): (r: string)
    ensures c.createdDate.None? ==> r == "-"
    ensures r == BasicShortCreatedDate(ToBasic(c), short)
  {
    ShortOrDash(c.createdDate, short)
  }

  /** `shortEditedDate` of a comment. */
  function ShortEditedDate(c: Comment, short: Date -> string): (r: Option<string>)
    ensures r.None? <==> c.editedDate.None?
    ensures r == BasicShortEditedDate(ToBasic(c), short)
  {
    match c.editedDate
    case None => None
    case Some(d) => Some(short(d))
  }

  /** `isLoggedInUser`, with the signed-in account passed in. */
  function IsLoggedInUser(c: Comment, loggedInUser: Option<string>): (r: bool)
    ensures r <==> loggedInUser.Some? && loggedInUser.value == c.user
  {
    loggedInUser == Some(c.user)
  }
}

# Surfboard's Tildes client, modelled in Dafny

Surfboard is an iOS client for the Tildes forum (tildes.net). It has no API to
talk to. It loads the site's HTML pages, scrapes them with SwiftSoup, and posts
the same forms and Intercooler requests the web front end sends. Under that
plumbing, `TildesAPI` holds a set of deterministic rules:

- how a page of nested comment containers is flattened into a pre-order list
  of `Comment`s, with thread roots, parents and subtree counts;
- how one comment element, one listing entry or one topic page becomes a
  `BasicComment`, a `FeedItem` or a `Post`;
- which CSRF token the session keeps, and how a mutation is sent and judged;
- how `createPost` reads the site's answer, and when it falls back to
  checking the group's newest topics;
- which address, query items and referrer each page load uses;
- how search terms and Markdown bodies are escaped for a form.

The model states these rules over already-extracted values. HTML selection,
networking and Foundation's parsers are not modelled. Their effects enter as:

- datatypes of what a page shows (`CommentElement`, `TopicView`, `PostPage`, …);
- a `send: Request -> Response` function;
- caller-supplied decoders for dates and URLs.

The session's static stash (`stashedCsrfToken`, `stashedUsername`) is an
explicit `Session` value, which operations take and return.

Modules, one per file:

| file | module | models |
|---|---|---|
| optional.dfy | Optional | Swift optionals |
| text.dfy | Text | `Int(String)`, `"\(n)"`, the regex `(\d+)`, ASCII trimming and lowercasing |
| patterns.dfy | Patterns | the regexes `topic-(.*)` and `(~group)/(post)` |
| foundation.dfy | Foundation | `Date`, `URL` and the decoders the extractors call |
| site.dfy | Site | `baseURL`, `appendingPathComponent`, the topic referrer rule |
| http.dfy | Http | requests, responses, the status verdicts |
| markdown_string.dfy | Markdown | `MarkdownString` |
| comment.dfy | Comments | `BasicComment`, `Comment` and their conversions |
| comment_extraction.dfy | CommentExtraction | `parseBasicComment` |
| comment_tree.dfy | CommentTrees | `parseComments` and its reference pre-order listing |
| feed_order.dfy, feed_order_period.dfy, comment_order.dfy | FeedOrders, FeedOrderPeriods, CommentOrders | the enum tables |
| feed_item.dfy, post.dfy | FeedItems, Posts | `FeedItem`, `Post` |
| topic_extraction.dfy | TopicExtraction | `parseFeedItem`, `loadFeed`, `loadPost` |
| url_encoding.dfy | UrlEncoding | `urlPrepSearch`, `urlPrepMarkdown`, and a form decoder to read them back |
| session.dfy | Sessions | CSRF stashing, login, two-factor login, logout |
| mutations.dfy | Mutations | edits, replies, deletions, votes, bookmarks, ignores, subscriptions |
| create_post.dfy | CreatePosts | `createPost` and `getLatestPostFromFeed` |
| queries.dfy | Queries | the page loads' addresses, query items and referrers |
| community.dfy | Community | `loadGroups`, `loadUserPage`, `loadNotifications` |

A force-unwrap (`!`) in the source is a runtime trap, not a `nil`. The model
turns each one into a `requires`:

- `parseBasicComment`'s article, body and link match (`CanParse`);
- `parseFeedItem`'s topic id (`HasTopicId`);
- the `~` strip in `actOnGroup`, which needs a non-empty group.

An error the HTML library throws and the source catches is a variant of the
page datatype (`Unreadable`, `UnreadableTopic`, `ThrowingItem`, …), except
where "## Left out" says the answer is read by a function that cannot throw.

A listing entry without a topic id is not skipped. `parseFeedItem`
force-unwraps the `topic-` match (TildesAPI.swift:298), and the `try?` around
its call (TildesAPI.swift:287) does not catch a trap. So `ParseFeedItem`
requires `HasTopicId`, and the listing functions require `ListingParses`.

## Model

| member | source | states |
|---|---|---|
| CommentTrees.ParseComments | TildesAPI.swift:558-582 | The count returned is the number of comments added to the bag, and the bag's earlier contents are left unchanged as its prefix |
| CommentTrees.InsertPlaces | TildesAPI.swift:578 | Inserting at position i puts the comment at i, keeps everything before it, and shifts everything from i on one place later |
| CommentTrees.ParseFrom | TildesAPI.swift:560-580 | The loop over sibling items only grows the bag: the running count never decreases, and the bag grows by exactly the amount the count grows |
| CommentTrees.ParseItem | TildesAPI.swift:561-579 | One item adds as many comments to the bag as the count it reports, which is never negative |
| CommentTrees.ParseItemIsBlock | TildesAPI.swift:561-579 | One turn of the loop appends the item's pre-order block (its comment first, then its replies') and reports that block's length |
| CommentTrees.ParseCommentsIsPreorder | TildesAPI.swift:565-578 | The bag left behind is the old bag followed by the pre-order listing. Each parsed comment comes immediately before its replies' comments, siblings in document order, and the count is the listing's length |
| CommentTrees.FlattenConcat | TildesAPI.swift:560-580 | Sibling order is kept: two runs of siblings are listed one after the other |
| CommentTrees.SkipsUnparsedSubtree | TildesAPI.swift:562 | An item whose comment fails to parse contributes nothing, nor does its whole reply subtree; the result is as if it were absent |
| CommentTrees.TotalCountIsBlockSize | TildesAPI.swift:564-577 | A comment's totalCount is the number of comments in its block (itself plus all descendants), at least 1 |
| CommentTrees.TotalCounts | TildesAPI.swift:558-581 | The returned count is the sum of the totalCounts of the top-level comments placed |
| CommentTrees.FlatSizeIsSumOfHeadTotals | TildesAPI.swift:560-580 | A run of siblings lists as many comments as their totalCounts add up to |
| CommentTrees.DirectReplies | TildesAPI.swift:566-577 | Each direct reply names the comment as its parent and shares its thread; the comment's totalCount is 1 plus the sum of its direct replies' totalCounts |
| CommentTrees.HeadsPlacement | TildesAPI.swift:567-576 | Top-level comments get the parent passed in, and the thread passed in or otherwise their own id |
| CommentTrees.FlatKeepsThread | TildesAPI.swift:567 | Under a given thread root every descendant carries that root |
| CommentTrees.BlockKeepsThread | TildesAPI.swift:567-575 | Every comment of an item's block belongs to the thread passed in, or at top level to the thread the item starts |
| CommentTrees.TopLevelThreads | TildesAPI.swift:567-575 | In a call with no thread, each parsed item starts a thread named by its own id, and all its block carries that id |
| CommentTrees.ParsedCommentsWellPlaced | TildesAPI.swift:570-577 | Every appended comment counts at least itself, is flagged as the original poster's exactly when its author is the topic's, and is collapsed only when the preference asks to respect the site's collapsing |
| CommentTrees.ParsedContent | TildesAPI.swift:562-577 | The appended comments correspond one to one, in pre-order, to the comments that parsed. Each has its parsed content, and is collapsed exactly when the preference respects the site's collapsing and the site collapsed it. Neither the poster nor the parent or thread changes which comments appear or what they say |
| Comments.FromBasic | Comment.swift:41-72 | Every BasicComment field is copied unchanged except depth, which is the override when given. totalCount, isOriginalPoster, isCollapsed, parent and threadParent come from the arguments alone |
| Comments.ToBasic | Comment.swift:112-133 | Converting back keeps id, depth and user, and always yields isAlreadyCollapsed == false |
| Comments.DefaultArguments | Comment.swift:43-49 | With the defaulted arguments, totalCount is 1, isCollapsed is false and depth is the basic comment's |
| Comments.BasicRoundTrip | Comment.swift:112-133 | BasicComment(comment: Comment(basicComment: b, …, depthOverride: nil)) equals b except isAlreadyCollapsed |
| Comments.CommentRoundTrip | Comment.swift:50-71 | A comment rebuilt from its own basic comment and its own placement is the same comment |
| Comments.PlacementIgnoresContent | Comment.swift:68-69 | parent and threadParent depend on the arguments only, never on the basic comment |
| Comments.Labels | Comment.swift:102-107 | The labels hold "new" iff isNew and "exemplary" iff isExemplary, one per true flag, with new before exemplary |
| Comments.BasicShortCreatedDate | Comment.swift:76-78 | A basic comment without a creation date shows "-" |
| Comments.BasicShortEditedDate | Comment.swift:80-84 | There is an edited-date string exactly when there is an edited date |
| Comments.ShortCreatedDate | Comment.swift:88-90 | A comment without a creation date shows "-", the same as its basic comment |
| Comments.ShortEditedDate | Comment.swift:92-96 | There is an edited-date string exactly when there is an edited date, the same as its basic comment's |
| Comments.IsLoggedInUser | Comment.swift:98-100 | True exactly when someone is logged in under the comment's author name |
| CommentExtraction.LastLinkIndex | TildesAPI.swift:499-505 | Finds the last nav href ending with the id: it ends with the id, no later one does, and none exists when there is no match |
| CommentExtraction.CommentLink | TildesAPI.swift:497-505 | The comment link is the last href ending with the comment id, or empty when none does |
| CommentExtraction.Votes | TildesAPI.swift:520-525 | Votes come from the first digit run of the votes label; else from the post button's; else 0. The value is never negative |
| CommentExtraction.ParseBasicComment | TildesAPI.swift:478-556 | Parsing fails exactly on an element the HTML library throws on. Counts are read leniently (`Int(s) ?? 0`), isRemoved = removed or deleted, the reason is admin iff removed, exemplary = class or label, collapsed iff the first collapsed id equals the comment's id, the canonical link is baseURL + the last matching nav link, group and post are that link's regex captures, and the flags come from the delete-from URLs |
| CommentExtraction.ParseRendered | TildesAPI.swift:478-556 | Any comment the site can render, with a permalink of the site's shape, is parsed back to itself |
| CommentExtraction.PermalinkNamesGroupAndPost | TildesAPI.swift:505 | The group-and-post regex applied to a permalink `/~group/post…` captures that group and post |
| CommentExtraction.VotesFromLabel | TildesAPI.swift:520-525 | A votes label showing a count in decimal is read as that count |
| Patterns.TopicId | TildesAPI.swift:298 | `topic-(.*)` matches iff the text contains `topic-`. The capture is the text after the first `topic-`, up to the first line terminator or the end |
| Patterns.FirstOccurrence | TildesAPI.swift:298 | The first position where `topic-` occurs: none iff it does not occur, and no earlier position starts it |
| Patterns.TopicIdOfAttribute | TildesAPI.swift:298 | The id attribute `topic-<id>` yields exactly `<id>` |
| Patterns.GroupAndPost | TildesAPI.swift:505 | A match captures `~` plus group characters, and a non-empty alphanumeric post id; text without `~` does not match |
| Patterns.GroupAndPostOfLink | TildesAPI.swift:505 | For a link `prefix~group/post suffix` with a tilde-free prefix, the match is exactly (~group, post) |
| Text.ParseInt | TildesAPI.swift:535-536 | Swift's `Int(_:)`: a value exactly for an optional sign followed by one or more ASCII digits whose signed value fits in 64 bits, and then that value; nil for anything else, including the empty string |
| Text.ParseIntRejectsOthers | TildesAPI.swift:535-536 | A string with any character other than one leading sign and digits, such as `12x`, `1 2`, `+` or `--5`, is nil |
| Text.IntOrZero | TildesAPI.swift:535-536 | `Int(s) ?? 0`: the parsed value when there is one, else 0, always within 64 bits |
| Text.DecimalStringRoundTrip | TildesAPI.swift:535-536 | Printing a 64-bit integer and reading it back gives the same integer |
| Text.FirstDigitRun | TildesAPI.swift:306 | The first match of `(\d+)`: absent iff there is no digit, otherwise the leftmost maximal run of digits |
| Text.CountIn | TildesAPI.swift:306-308 | A counter is the value of the first digit run; 0 when there is none or it overflows 64 bits |
| Text.CountInDecimal | TildesAPI.swift:306-308 | A non-negative count the site prints is read back as itself |
| Text.CountInLabel | TildesAPI.swift:306-308 | A counter label that starts with a printed count, like `12 comments`, is read as that count |
| Text.Trimmed | TildesAPI.swift:279 | Trimming gives the stretch of the text after its leading whitespace, followed only by whitespace, and neither starting nor ending with whitespace; all-whitespace text becomes empty |
| Text.TrimmedOf | TildesAPI.swift:718 | Any split of a text into whitespace, a core that neither starts nor ends with whitespace, and whitespace trims to that core |
| Text.Lowercased | TildesAPI.swift:718 | Lowercasing keeps the length and lowers each ASCII capital in place |
| TopicExtraction.ParseFeedItem | TildesAPI.swift:297-341 | The id is the `topic-` capture. The group falls back to the requested one only when the shown group is empty. Counts come from the first digit run, else 0. isUserSource iff the user link is non-empty, and the vote, bookmark and ignore flags are the presence of their delete-from URLs for this id |
| TopicExtraction.ParseRenderedTopic | TildesAPI.swift:297-341 | Any topic the site can show in a listing (id without a line break, counters within 64 bits) is parsed back to itself |
| TopicExtraction.UndoTargets | TildesAPI.swift:315-317 | The undo buttons name the vote, bookmark and ignore URLs of the topic exactly for the actions taken |
| TopicExtraction.Readable | TildesAPI.swift:286-290 | At most one view per entry, each of a topic id when the listing parses; when no entry throws, the views are the entries' own, in order |
| TopicExtraction.ReadableHead | TildesAPI.swift:286-290 | A readable first entry is kept ahead of the rest; an unreadable one is dropped |
| TopicExtraction.ParseListing | TildesAPI.swift:286-290 | Each readable entry is parsed, in order, and those the HTML library throws on are skipped |
| TopicExtraction.ReadableSkipsUnreadable | TildesAPI.swift:286-290 | An unreadable entry leaves the listing as if it were absent |
| TopicExtraction.IsFiltered | TildesAPI.swift:278-281 | Unknown iff there is no filter notice or it is blank; otherwise true iff the notice contains "View unfiltered list" |
| TopicExtraction.LoadFeed | TildesAPI.swift:234-295 | A failed load gives no topics, unknown filtering and "An error occurred."; otherwise the parsed listing, filter state and empty-listing title |
| TopicExtraction.PagePost | TildesAPI.swift:359-396 | The post has the requested id and group. The source is the author, or "Automatically posted" when the author is empty, and isUserSource iff the author is non-empty. The comment count is the header's first digit run, and the flags come from the delete-from URLs |
| TopicExtraction.LoadPost | TildesAPI.swift:343-403 | Nothing iff the page cannot be loaded. Otherwise the post and the flattened comment tree, judged against the topic's author with no parent or thread, or no comments when the page has no tree |
| TopicExtraction.TopicComments | TildesAPI.swift:376-379 | With no comment tree the bag stays empty; otherwise it is the pre-order listing of the tree |
| TopicExtraction.PostThreads | TildesAPI.swift:376-378 | On a topic page, top-level comments have no parent, and each comment carries the id of the top-level comment it sits under |
| FeedItems.CanonicalLink | FeedItem.swift:41-43 | canonicalLink is the page the path components group and id name under baseURL, and for a group and id of the site's shape the group-and-post regex reads them back out of it |
| FeedItems.TopicPage | FeedItem.swift:41-43 | `baseURL/group/id` equals appending group then id as path components, and names that group and id to the group-and-post regex |
| FeedItems.CanonicalLinkOnlyFromGroupAndId | FeedItem.swift:41-43 | Items with the same group and id have the same canonical link, whatever else differs |
| FeedItems.CanonicalLinkIsReferrer | FeedItem.swift:41-43 | When group and id are non-empty, the canonical link is the referrer actions on that topic send |
| FeedItems.ShortPubDate | FeedItem.swift:37-39 | "-" when there is no date; otherwise the short rendering |
| FeedItems.FullPubDate | FeedItem.swift:29-35 | "Date unavailable" iff there is no date. Otherwise it is the short date, " · ", then the long rendering |
| Posts.CanonicalLink | Post.swift:33-35 | canonicalLink is the page the path components group and id name under baseURL, and for a group and id of the site's shape the group-and-post regex reads them back out of it |
| Posts.CanonicalLinksAgree | Post.swift:33-35 | A post and a listing entry with the same group and id link to the same page |
| Posts.ShortPubDate | Post.swift:28-31 | "-" when there is no date; otherwise the short rendering |
| Posts.LinkIsImage | Post.swift:37-40 | False without a link; otherwise true iff the lowercased path extension is png, jpg or jpeg |
| Posts.LinkIsImageIgnoresCase | Post.swift:39 | Extensions that agree after lowercasing get the same answer |
| Markdown.FromHtml | MarkdownString.swift:14-18 | init(html:) stores the input as originalContent, and markdownContent equals originalContent |
| Markdown.FromMarkdown | MarkdownString.swift:20-23 | init(markdown:) stores the input in both fields |
| Markdown.InitialisersAgree | MarkdownString.swift:14-23 | init(html: s) and init(markdown: s) produce equal values |
| FeedOrders.FromRawValue | FeedOrder.swift:10-15 | A raw value is defined exactly for 0 through 4, and maps back to a case with that raw value |
| FeedOrders.RawValue | FeedOrder.swift:10-15 | Each case's raw value is its position in allCases |
| FeedOrders.ApiName | FeedOrder.swift:17-25 | The `order` value is a lower-case word that needs no escaping |
| FeedOrders.IconName | FeedOrder.swift:27-35 | The icon is an SF Symbol name of lower-case letters and dots |
| FeedOrders.DisplayName | FeedOrder.swift:37-45 | The label starts with a capital letter |
| FeedOrders.PickerId | FeedOrder.swift:57-58 | The picker id is the raw value, from which the case is recovered |
| FeedOrders.RawValues | FeedOrder.swift:10-15 | Raw values are 0..4, one per case, and allCases lists the cases in raw-value order |
| FeedOrders.ApiNameInjective | FeedOrder.swift:17-25 | Distinct orders have distinct apiNames |
| FeedOrders.DisplayNameInjective | FeedOrder.swift:37-45 | Distinct orders have distinct displayNames |
| FeedOrders.IconNameInjective | FeedOrder.swift:27-35 | Distinct orders have distinct iconNames |
| FeedOrders.CanSelectPeriodExceptNew | FeedOrder.swift:47-54 | canSelectPeriod is false exactly for .new |
| FeedOrderPeriods.RawValueInjective | FeedOrderPeriod.swift:10-20 | Distinct periods have distinct raw values |
| FeedOrderPeriods.RawValue | FeedOrderPeriod.swift:10-20 | Each case's raw value is its position in allCases |
| FeedOrderPeriods.ApiName | FeedOrderPeriod.swift:22-35 | A `period` value, when there is one, is a lower-case word that needs no escaping |
| FeedOrderPeriods.DisplayName | FeedOrderPeriod.swift:37-50 | Every period has a non-empty label |
| FeedOrderPeriods.DisplayNameInjective | FeedOrderPeriod.swift:37-50 | Distinct periods have distinct labels |
| FeedOrderPeriods.ApiNameAbsentOnlyForDefault | FeedOrderPeriod.swift:22-35 | apiName is nil iff the period is websiteDefault |
| FeedOrderPeriods.ApiNameInjective | FeedOrderPeriod.swift:24-32 | The nine non-default periods have distinct apiNames |
| FeedOrderPeriods.DisplayedCasesShape | FeedOrderPeriod.swift:52-58 | displayedCases omits websiteDefault, lastTwelveHours and lastThreeDays and holds every other case. It is strictly increasing in raw value, every entry has an apiName, and pickerId == rawValue |
| CommentOrders.RawValues | CommentOrder.swift:10-14 | Raw values are 0..3, one per case, and pickerId == rawValue |
| CommentOrders.RawValue | CommentOrder.swift:10-14 | Each case's raw value is its position in allCases |
| CommentOrders.ApiName | CommentOrder.swift:16-23 | The `comment_order` value is a lower-case word that needs no escaping |
| CommentOrders.DisplayName | CommentOrder.swift:25-32 | The label starts with a capital letter |
| CommentOrders.ApiNameInjective | CommentOrder.swift:16-23 | Distinct orders have distinct apiNames |
| CommentOrders.DisplayNameInjective | CommentOrder.swift:25-32 | Distinct orders have distinct displayNames |
| UrlEncoding.EncodeChar | TildesAPI.swift:593 | An allowed character passes unchanged; any other becomes a `%`-escape. The output holds only allowed characters and `%` |
| UrlEncoding.PercentEncode | TildesAPI.swift:587 | Percent-encoding leaves only allowed characters and `%`, and never shortens the text |
| UrlEncoding.PercentEncodeAllowed | TildesAPI.swift:593 | Text made only of allowed characters is left unchanged |
| UrlEncoding.IsQueryAllowed | TildesAPI.swift:587 | `.urlQueryAllowed` admits every ASCII letter and digit, only ASCII, and never space, `%`, `#`, quotes, angle or square brackets, backslash, caret, backtick, braces or bar |
| UrlEncoding.QueryWordsNeedNoEscaping | TildesAPI.swift:249-262 | The order and period words the client sends pass through percent-encoding and urlPrepSearch unchanged |
| UrlEncoding.ReplaceChar | TildesAPI.swift:585-587 | After replacing c with a replacement that does not contain c, no c remains; text without c is unchanged |
| UrlEncoding.ReplaceCharKeepsAbsent | TildesAPI.swift:592-595 | A replacement never introduces a character that was in neither the text nor the replacement |
| UrlEncoding.UrlPrepSearch | TildesAPI.swift:584-589 | The prepared search term holds no space and no `&` |
| UrlEncoding.UrlPrepMarkdown | TildesAPI.swift:591-597 | The prepared body holds no space, `+` or `&` |
| UrlEncoding.MarkdownSpaceStepIsIdle | TildesAPI.swift:594 | The " " to "+" step of urlPrepMarkdown never changes anything, because encoding has already escaped every space |
| UrlEncoding.SearchMergesSpaceAndPlus | TildesAPI.swift:584-589 | "a b" and "a+b" both come out as "a+b", so urlPrepSearch is not injective |
| UrlEncoding.MarkdownRoundTrip | TildesAPI.swift:591-597 | Form-decoding the prepared form of an ASCII body gives back the body exactly |
| UrlEncoding.SearchRoundTrip | TildesAPI.swift:584-589 | Form-decoding an ASCII search term reads every `+` as a space and everything else as typed |
| Sessions.TokenFromMeta | TildesAPI.swift:44-51 | A token exists iff the csrftoken meta content exists and is non-empty, and it is that content |
| Sessions.Stash | TildesAPI.swift:25-30 | A page with a token replaces the stashed token; one without leaves the session unchanged; the pending user name is never touched |
| Sessions.StashIdempotent | TildesAPI.swift:25-30 | Stashing the same page twice is the same as stashing it once |
| Sessions.StashLastWins | TildesAPI.swift:25-30 | Of two pages, the later one's token wins when it has one |
| Sessions.StashNeverForgets | TildesAPI.swift:25-30 | Once a token is stashed, later page loads never lose it |
| Sessions.StashAllKeepsLastToken | TildesAPI.swift:25-30 | After a run of page loads, the stashed token is that of the last page carrying one |
| Sessions.StashAllKeepsSession | TildesAPI.swift:25-30 | Page loads without tokens leave the session unchanged |
| Sessions.ErrorMessage | TildesAPI.swift:105 | A body under 100 characters is the message; otherwise the status code in decimal; otherwise "An error occurred" |
| Sessions.LoginToken | TildesAPI.swift:53-65 | A failed fetch of the login page gives no token; otherwise its meta token |
| Sessions.LoginRequest | TildesAPI.swift:72-92 | A POST to /login, referred from /login, carrying the token as header and as the csrf_token field next to username and password |
| Sessions.LogIntoAccount | TildesAPI.swift:68-114 | Without a token or on a failed transfer: "Unable to post request". Asked for a second factor: "2fa", with the token and user name stashed. A status other than 200 gives the error message. Success (nil) iff there is a 200 and no second-factor form. The session changes only in the 2fa case |
| Sessions.TwoFactorRequest | TildesAPI.swift:116-134 | Without a stashed token nothing is sent. Otherwise a POST to /login_two_factor, referred from /login, with the code and the token |
| Sessions.TwoFactorLogin | TildesAPI.swift:116-149 | Throws without a token or when the transfer fails. A status other than 200 returns the error message of that status and body. Success iff the answer is 200, which clears the pending user name. On any other outcome the session is unchanged, and the token always is |
| Sessions.TwoFactorFollowsLogin | TildesAPI.swift:100-134 | After a login answered with the 2fa form, the session waits for that user and the code request carries the login's token |
| Sessions.LogoutRequest | TildesAPI.swift:151-166 | Without a token nothing is sent. Otherwise a POST to /logout, referred from itself, whose only field is the token |
| Sessions.Logout | TildesAPI.swift:151-184 | Success (nil) iff the answer is 200 or 403; any other status returns the body. No token or a failed transfer gives the fixed logout message |
| Http.StatusOr404 | TildesAPI.swift:761 | The HTTP status when there is one; 404 for a failed transfer or a non-HTTP answer |
| Http.ApiUrlSpelled | TildesAPI.swift:898-903 | appendingPathComponent over api/web/kind/id(/action) spells baseURL/api/web/kind/id(/action) |
| Site.PageUrl | TildesAPI.swift:245-248 | Appending path components gives baseURL followed by them, so a non-empty path is longer than baseURL and starts with it |
| Site.TopicReferrer | TildesAPI.swift:885-892 | The root when the id is empty or the group missing or empty; otherwise baseURL/group/id |
| Mutations.Verb | TildesAPI.swift:1061-1064 | A toggle is sent as PUT or DELETE |
| Mutations.MarkdownForm | TildesAPI.swift:751 | The edit/reply form has the single key markdown, whose value holds no space or `&` |
| Mutations.MarkdownFormRoundTrip | TildesAPI.swift:751 | An ASCII body reaches the site exactly as typed |
| Mutations.ActOnPostRequest | TildesAPI.swift:882-912 | No request without a token. Otherwise it carries the toggle's verb, goes to the topic's action URL, and is referred from the topic's page when group and id are known, else from the site root |
| Mutations.ActOnPost | TildesAPI.swift:882-925 | The action succeeds iff a request went out and came back 200; there is never success without a token |
| Mutations.PostTogglesShareAddress | TildesAPI.swift:852-874 | Setting and undoing an action on a topic differ only in the verb, and address the URL a listing shows as that action's undo target |
| Mutations.PostActionsDistinct | TildesAPI.swift:876-880 | Ignore, bookmark and vote address distinct resources |
| Mutations.DeletePostRequest | TildesAPI.swift:817-836 | No request without a token. Otherwise a DELETE of /api/web/topics/id, referred from the site root |
| Mutations.DeletePost | TildesAPI.swift:817-850 | True iff the request went out and came back 200 |
| Mutations.EditPostRequest | TildesAPI.swift:729-753 | No request without a token. Otherwise a PATCH of /api/web/topics/id with the prepared markdown form |
| Mutations.EditPost | TildesAPI.swift:729-765 | The status (404 when there is none) and the body; (404, "") without a token or on a failed transfer |
| Mutations.ReplyOutcome | TildesAPI.swift:802-811 | The status (404 when absent). The reply is present iff a readable article came back, and it is that article parsed |
| Mutations.ReplyToPostRequest | TildesAPI.swift:767-800 | No request without a token. Otherwise a POST to /api/web/topics/id/comments with the topic referrer and the prepared markdown form |
| Mutations.ReplyToPost | TildesAPI.swift:767-815 | (404, nil) without a token; otherwise the status and the parsed article of the answer |
| Mutations.ReplyToPostLikeVote | TildesAPI.swift:770-777 | A reply names the same referrer as any other action on the topic, and its ASCII body reads back as typed |
| Mutations.ActOnCommentRequest | TildesAPI.swift:1087-1118 | No request without a token. Otherwise always a POST, with the toggle's verb in X-HTTP-Method-Override, to the comment's action URL, referred from the topic's page |
| Mutations.ActOnComment | TildesAPI.swift:1087-1131 | True iff a request went out and came back 200 |
| Mutations.CommentTogglesMatchPage | TildesAPI.swift:1067-1085 | Vote and bookmark requests address the URLs a comment's page shows as their undo targets, and setting and undoing differ only in the override |
| Mutations.DeleteCommentRequest | TildesAPI.swift:969-988 | No request without a token. Otherwise a DELETE of /api/web/comments/id, referred from the site root |
| Mutations.DeleteComment | TildesAPI.swift:969-1002 | True iff the request went out and came back 200 |
| Mutations.EditCommentRequest | TildesAPI.swift:927-951 | No request without a token. Otherwise a PATCH of /api/web/comments/id with the prepared markdown form |
| Mutations.EditComment | TildesAPI.swift:927-967 | The status (404 when there is none) and the new comment text read from the answer; (404, nil) without a token or on a failed transfer |
| Mutations.ReplyToCommentRequest | TildesAPI.swift:1004-1038 | No request without a token. Otherwise a POST to /api/web/comments/id/replies, referred from the page of topic postId, with the prepared markdown form |
| Mutations.ReplyToComment | TildesAPI.swift:1004-1053 | (404, nil) without a token; otherwise the status and the parsed article of the answer |
| Mutations.RepliesAgree | TildesAPI.swift:1004-1025 | A reply to a comment and a reply to its topic send the same referrer and form, to different resources |
| Mutations.ActOnGroupRequest | TildesAPI.swift:1179-1203 | No request without a token. Otherwise the group's first character is cut to form /api/web/group/name/subscribe, and the request is referred from the group's page |
| Mutations.ActOnGroup | TildesAPI.swift:1179-1223 | Subscribing or unsubscribing succeeds iff a request went out and came back 200 |
| Mutations.SubscribeNamesGroup | TildesAPI.swift:1187-1194 | For `~name` the request addresses `name` and is referred from the page of `~name` |
| CreatePosts.JoinTags | TildesAPI.swift:633 | No tags give the empty string, and one tag is itself |
| CreatePosts.JoinTagsRoundTrip | TildesAPI.swift:633 | Tags without commas split back at the commas into exactly the list sent |
| CreatePosts.IndexOf | TildesAPI.swift:633 | The first comma's position, or none iff there is no comma |
| CreatePosts.CreatePostRequest | TildesAPI.swift:609-639 | No request without a token. Otherwise a POST to /group/topics, referred from the group's page. The form holds exactly title, link, the prepared markdown and the comma-joined tags |
| CreatePosts.CreatePostFormRoundTrip | TildesAPI.swift:629-634 | The site reads back the ASCII body and the comma-free tags exactly as submitted |
| CreatePosts.LatestPostFromFeed | TildesAPI.swift:697-727 | The listing's token is stashed. The id is returned iff the first `.is-topic-mine` item exists, its trimmed, lowercased title equals the submitted one, and its id attribute has the `topic-` form |
| CreatePosts.NormalizedIgnoresCase | TildesAPI.swift:718 | The title comparison ignores letter case |
| CreatePosts.TrimmedLowercased | TildesAPI.swift:718 | Trimming and lowercasing commute |
| CreatePosts.Judge | TildesAPI.swift:641-678 | A failed transfer or non-HTTP answer is rejected. A numeric Retry-After means waiting, whatever the status. Any other non-200 is rejected. Posted iff the answer is 200 with an X-IC-Redirect, an empty body and a redirect whose group is the requested one, and the id is the redirect's post. Everything else is unconfirmed |
| CreatePosts.CreatePost | TildesAPI.swift:609-695 | (nil, nil) without a token or when rejected; the post id or the wait otherwise; unconfirmed answers fall back on the double-check and its stash |
| CreatePosts.NeverBoth | TildesAPI.swift:600-607 | A response never carries both a post id and a wait |
| CreatePosts.RetryAfterFirst | TildesAPI.swift:646-652 | A numeric Retry-After decides before status, body or redirect are read |
| CreatePosts.PostedOnlyWhenConfirmed | TildesAPI.swift:604-606 | didSucceed only when a token was held and either the redirect names the post in this group or the double-check found the user's newest topic under the same title |
| CreatePosts.HardFailuresSkipDoubleCheck | TildesAPI.swift:618-693 | A missing token, a failed transfer or a non-200 status without a wait gives (nil, nil) whatever the listing shows |
| Queries.Lookup | TildesAPI.swift:249-266 | None iff no item has the name; otherwise the value of an item with that name |
| Queries.ItemsInOrder | TildesAPI.swift:249-266 | The items present keep the order of the keys |
| Queries.ItemsLookup | TildesAPI.swift:249-266 | With distinct keys, the item for each key carries its value, or is absent when the value is |
| Queries.PeriodItem | TildesAPI.swift:259-261 | A period is sent iff the order can take one and a non-default period is chosen, as its apiName |
| Queries.FeedRequest | TildesAPI.swift:234-270 | The path is the escaped group, then "search" for a search. The items are q, after, order, period and unfiltered, in that order, each exactly when given. The referrer is the site root |
| Queries.FeedItemsOnce | TildesAPI.swift:249-266 | No query item appears twice in a listing request |
| Queries.PostRequest | TildesAPI.swift:343-352 | A topic is loaded from baseURL/group/id with its comment_order, referred from the group's page |
| Queries.PostIsCanonicalPage | TildesAPI.swift:345-348 | The address loaded is the topic's canonical link |
| Queries.LatestPostRequest | TildesAPI.swift:697-703 | The double-check loads the group's page with order=new as its only item, referred from the site root |
| Queries.LatestPostIsNewestListing | TildesAPI.swift:697-703 | For a group name needing no escaping, the double-check loads the page loadFeed shows for the New order |
| Queries.UserPageRequest | TildesAPI.swift:1256-1269 | A user page is /user/name with type and after, in that order, each when given, referred from the site root |
| Queries.NotificationsRequest | TildesAPI.swift:187-197 | Notifications load from /notifications, or /notifications/unread, referred from the site root |
| Queries.GroupsRequest | TildesAPI.swift:1140-1144 | The directory is /groups, referred from the site root |
| Community.GroupsOf | TildesAPI.swift:1158-1168 | The groups are one per readable row, each with the given subscription flag and its row's fields |
| Community.GroupsOfConcat | TildesAPI.swift:1167-1168 | Rows are read independently and in order |
| Community.GroupsSkipUnreadable | TildesAPI.swift:1167-1168 | An unreadable row is skipped as if absent |
| Community.LoadGroups | TildesAPI.swift:1140-1172 | A failed load gives no groups. Otherwise there is one group per readable row, subscribed before unsubscribed, each from a row of its own list |
| Community.SubscribedFirst | TildesAPI.swift:1167-1168 | The prefix of the list is exactly the subscribed groups, and no subscribed group follows |
| Community.Bio | TildesAPI.swift:1282-1298 | A profile exists iff the first sidebar entry's text was read. It holds the join date, and a bio iff the second entry's HTML was read |
| Community.BioNeedsJoinDate | TildesAPI.swift:1292-1298 | Without a join date there is no profile, whatever bio follows |
| Community.UserComments | TildesAPI.swift:1310-1318 | At most one entry per item, none of them collapsed |
| Community.UserCommentsHead | TildesAPI.swift:1310-1318 | An entry with a heading and a readable comment is listed with both; any other entry is dropped |
| Community.LoadUserPage | TildesAPI.swift:1250-1322 | A failed load gives an empty response. Otherwise the profile, the parsed topics (with no requested group) and the headed comments |
| Community.UserTopicsKeepTheirGroup | TildesAPI.swift:1304-1307 | A topic on a user page keeps the group it shows |
| Community.NotificationsOf | TildesAPI.swift:206-226 | At most one notification per entry, each marked read iff the read list was asked for, and none collapsed |
| Community.NotificationsOfHead | TildesAPI.swift:214-225 | An entry with a heading and a readable article is listed ahead of the rest with its heading, parsed comment and read flag; an entry missing either, or with an unreadable article, is skipped |
| Community.LoadNotifications | TildesAPI.swift:187-231 | Nothing unless the answer is 200 and no entry throws; otherwise the list NotificationsOfHead describes entry by entry, each read iff the read list was asked for. Only the articles of headed entries before the first throwing one must parse |
| Community.ThrowingEntryAbandonsList | TildesAPI.swift:208-230 | One entry the HTML library throws on empties the whole list, whatever follows it |

## Left out

- Networking, `async` sequencing, `URLRequest` headers other than those in `Request`, and content types: the answer to a request comes from a caller-supplied `send`.
- SwiftSoup selection and CSS selectors: each page is the datatype of the values the code reads from it.
- `ISO8601DateFormatter`, `URL(string:)` and `Date.shortFormattedString()` (Date+Extensions.swift): these depend on Foundation and the clock, so they are functions passed in.
- `UserPreferences.shared`, `AccountManager.shared` and `DLog`: the preference is a parameter, the commented-out account calls have no effect, and logging has none.
- `UUID()` in notifications: random, so `Notification` has no id.
- The order of form fields, which comes from Swift's dictionary order: forms are maps. The login forms' `.alphanumerics` value encoding is not modelled either.
- Rendering query items into the address, and the escaping `appendingPathComponent` adds: a request keeps its path components and its items.
- Unicode: percent-encoding covers all characters, but the round-trip lemmas are for ASCII. Trimming, lowercasing and `\d` are ASCII only. `html.count < 100` counts characters, not grapheme clusters.
- `Regexes.onlyGroupAndPost` is not part of this model: it is the caller-supplied `matchRedirect`.
- `getCSRFToken(for:)`'s fetch is the `LoginPage` value. The stashing of tokens while loading feeds, posts, groups, user pages and notifications is modelled once (`Stash`) and not threaded through those loaders.
- `stashCSRFToken`'s reading of the logged-in user name: its only effect is a log line.
- In `loadUserPage`, a throw after some results were gathered returns those partial results. The model has only whole success or `UserPageFailed`.
- In `replyToPost`, `replyToComment` and `editComment`, `SwiftSoup.parse` throwing on the answer gives (404, nil). The model reads the answer through `readArticle` / `commentText`, which cannot throw.
- Sessions.LogIntoAccount: does not model `SwiftSoup.parse` or the two-factor `select` throwing on a received answer (TildesAPI.swift:97-99), which gives "Unable to post request" (:111-112). The answer is read through `asksForTwoFactor`, which cannot throw, so the promise of success for a 200 answer without the form assumes a readable answer.
- The commented-out `getMarkdownForComment` and the disabled HTML-to-Markdown conversion.
- `createPost` sends title and link without escaping. Forms are maps here, so an `&` or `=` in a title is not modelled as breaking the body.
- Mutations.ReplyToPost: requires that a readable article in the answer parses, because `parseBasicComment` traps otherwise; the same holds for `ReplyToComment` and the community loaders.

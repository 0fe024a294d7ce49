/**
 * The pages the client loads: the address, the query items in the order
 * they are appended, and the referrer of each GET request.
 */
module Queries {
  import opened Optional
  import opened Text
  import opened Site
  import opened UrlEncoding
  import FeedOrders
  import FeedOrderPeriods
  import CommentOrders
  import FeedItems

  /**
   * A page load: the path components appended to the site's address, the
   * query items in order, and the `referer` header.
   */
  datatype PageRequest = PageRequest(path: seq<string>, query: seq<(string, string)>, referrer: string)

  /** The page's address without its query. */
  function Address(r: PageRequest): (a: string)
    ensures HasPrefix(a, BaseUrl)
  {
    PageUrl(r.path)
  }

  /** The value of the first query item called `name`. */
  function Lookup(query: seq<(string, string)>, name: string): (r: Option<string>)
    ensures r.None? <==> forall k | 0 <= k < |query| :: query[k].0 != name
    ensures r.Some? ==> exists k | 0 <= k < |query| :: query[k] == (name, r.value)
    decreases |query|
  {
    if |query| == 0 then None
    else if query[0].0 == name then Some(query[0].1)
    else
      var r := Lookup(query[1..], name);
      if r.Some? then
        ghost var k :| 0 <= k < |query[1..]| && query[1..][k] == (name, r.value);
        assert query[k + 1] == (name, r.value);
        r
      else r
  }

  function Names(query: seq<(string, string)>): (r: seq<string>)
    ensures |r| == |query|
    ensures forall k | 0 <= k < |query| :: r[k] == query[k].0
  {
    seq(|query|, k requires 0 <= k < |query| => query[k].0)
  }

  /** `a` is `b` with some elements left out. */
  predicate IsSubsequence(a: seq<string>, b: seq<string>)
    decreases |b|
  {
    |a| == 0 || (|b| > 0 && if a[0] == b[0] then IsSubsequence(a[1..], b[1..]) else IsSubsequence(a, b[1..]))
  }

  predicate Distinct(names: seq<string>)
  {
    forall i, j | 0 <= i < j < |names| :: names[i] != names[j]
  }

  /** The query items `names[k]=values[k]` for each value present, in the order of `names`. */
  function Items(names: seq<string>, values: seq<Option<string>>): (r: seq<(string, string)>)
    requires |names| == |values|
    decreases |names|
  {
    if |names| == 0 then []
    else (if values[0].Some? then [(names[0], values[0].value)] else []) + Items(names[1..], values[1..])
  }

  /** The items are a selection of `names`, kept in order. */
  lemma {:induction false} ItemsInOrder(names: seq<string>, values: seq<Option<string>>)
    requires |names| == |values|
    ensures IsSubsequence(Names(Items(names, values)), names)
    decreases |names|
  {
    if |names| > 0 {
      ItemsInOrder(names[1..], values[1..]);
      var rest := Items(names[1..], values[1..]);
      if values[0].Some? {
        var r := [(names[0], values[0].value)] + rest;
        assert Names(r)[1..] == Names(rest);
      } else {
        assert Items(names, values) == rest;
        SubsequenceOfTail(Names(rest), names);
      }
    }
  }

  lemma {:induction false} SubsequenceOfTail(a: seq<string>, b: seq<string>)
    requires |b| > 0 && IsSubsequence(a, b[1..])
    ensures IsSubsequence(a, b)
    decreases |b|, 0
  {
    if |a| > 0 && a[0] == b[0] {
      SubsequenceShorter(a, b[1..]);
    }
  }

  lemma {:induction false} SubsequenceShorter(a: seq<string>, b: seq<string>)
    requires |a| > 0 && IsSubsequence(a, b)
    ensures IsSubsequence(a[1..], b)
    decreases |b|, 1
  {
    if a[0] == b[0] {
      SubsequenceOfTail(a[1..], b);
    } else {
      SubsequenceShorter(a, b[1..]);
      SubsequenceOfTail(a[1..], b);
    }
  }

  /** With distinct names, the item called `names[i]` carries `values[i]`, or is absent when that is. */
  lemma {:induction false} ItemsLookup(names: seq<string>, values: seq<Option<string>>, i: nat)
    requires |names| == |values| && Distinct(names) && i < |names|
    ensures Lookup(Items(names, values), names[i]) == values[i]
    decreases |names|
  {
    var head: seq<(string, string)> := if values[0].Some? then [(names[0], values[0].value)] else [];
    var rest := Items(names[1..], values[1..]);
    assert Items(names, values) == head + rest;
    if i == 0 {
      if values[0].None? {
        assert head + rest == rest;
        ItemsNames(names[1..], values[1..]);
        assert forall k | 0 <= k < |rest| :: rest[k].0 != names[0];
      }
    } else {
      ItemsLookup(names[1..], values[1..], i - 1);
      if values[0].Some? {
        assert (head + rest)[1..] == rest;
      } else {
        assert head + rest == rest;
      }
    }
  }

  lemma {:induction false} ItemsNames(names: seq<string>, values: seq<Option<string>>)
    requires |names| == |values|
    ensures forall k | 0 <= k < |Items(names, values)| :: Items(names, values)[k].0 in names
    decreases |names|
  {
    if |names| > 0 {
      ItemsNames(names[1..], values[1..]);
    }
  }

  // ---------------------------------------------------------------------------
  // Topic listings
  // ---------------------------------------------------------------------------

  /** The query items a listing may carry, in the order `loadFeed` appends them. */
  const FeedKeys: seq<string> := ["q", "after", "order", "period", "unfiltered"]

  /** The `period` item: only for an order that takes a period, and never for the site default. */
  function PeriodItem(order: FeedOrders.FeedOrder, period: Option<FeedOrderPeriods.FeedOrderPeriod>): (r: Option<string>)
    ensures r.Some? <==> FeedOrders.CanSelectPeriod(order) && period.Some? && period.value != FeedOrderPeriods.WebsiteDefault
    ensures r.Some? ==> r == FeedOrderPeriods.ApiName(period.value)
  {
    if FeedOrders.CanSelectPeriod(order) && period.Some? then FeedOrderPeriods.ApiName(period.value) else None
  }

  /**
   * The request of `loadFeed(group:order:after:period:search:unfiltered:)`:
   * the group's page (the front page without one), its search page when
   * there are search terms, and the query items in a fixed order.
   */
  function FeedRequest(group: Option<string>, order: FeedOrders.FeedOrder, after: Option<string>,
                       period: Option<FeedOrderPeriods.FeedOrderPeriod>, search: Option<string>,
                       unfiltered: bool): (r: PageRequest)
    ensures r.referrer == BaseUrl
    ensures r.path == (if group.Some? then [PercentEncode(group.value)] else []) + (if search.Some? then ["search"] else [])
    ensures IsSubsequence(Names(r.query), FeedKeys)
    ensures Lookup(r.query, "q") == (if search.Some? then Some(UrlPrepSearch(search.value)) else None)
    ensures Lookup(r.query, "after") == after
    ensures Lookup(r.query, "order") == Some(FeedOrders.ApiName(order))
    ensures Lookup(r.query, "period") == PeriodItem(order, period)
    ensures Lookup(r.query, "unfiltered") == (if unfiltered then Some("true") else None)
  {
    var values := [if search.Some? then Some(UrlPrepSearch(search.value)) else None,
                   after,
                   Some(FeedOrders.ApiName(order)),
                   PeriodItem(order, period),
                   if unfiltered then Some("true") else None];
    FeedRequestFacts(values);
    PageRequest((if group.Some? then [PercentEncode(group.value)] else []) + (if search.Some? then ["search"] else []),
                Items(FeedKeys, values), BaseUrl)
  }

  lemma FeedRequestFacts(values: seq<Option<string>>)
    requires |values| == |FeedKeys|
    ensures IsSubsequence(Names(Items(FeedKeys, values)), FeedKeys)
    ensures forall i | 0 <= i < |FeedKeys| :: Lookup(Items(FeedKeys, values), FeedKeys[i]) == values[i]
  {
    ItemsInOrder(FeedKeys, values);
    forall i | 0 <= i < |FeedKeys|
      ensures Lookup(Items(FeedKeys, values), FeedKeys[i]) == values[i]
    {
      ItemsLookup(FeedKeys, values, i);
    }
  }

  /** Every listing names its order, and carries each possible item at most once. */
  lemma FeedItemsOnce(group: Option<string>, order: FeedOrders.FeedOrder, after: Option<string>,
                      period: Option<FeedOrderPeriods.FeedOrderPeriod>, search: Option<string>, unfiltered: bool)
    ensures var q := FeedRequest(group, order, after, period, search, unfiltered).query;
            forall i, j | 0 <= i < j < |q| :: q[i].0 != q[j].0
  {
    var q := FeedRequest(group, order, after, period, search, unfiltered).query;
    assert IsSubsequence(Names(q), FeedKeys);
    FeedKeysDistinct();
    forall i, j | 0 <= i < j < |q|
      ensures q[i].0 != q[j].0
    {
      SubsequenceDistinct(Names(q), FeedKeys, i, j);
    }
  }

  lemma FeedKeysDistinct()
    ensures Distinct(FeedKeys)
  {
  }

  lemma {:induction false} SubsequenceDistinct(a: seq<string>, b: seq<string>, i: nat, j: nat)
    requires IsSubsequence(a, b) && Distinct(b) && i < j < |a|
    ensures a[i] != a[j]
    decreases |b|
  {
    if a[0] == b[0] {
      if i == 0 {
        SubsequenceMembers(a[1..], b[1..], j - 1);
      } else {
        SubsequenceDistinct(a[1..], b[1..], i - 1, j - 1);
      }
    } else {
      SubsequenceDistinct(a, b[1..], i, j);
    }
  }

  lemma {:induction false} SubsequenceMembers(a: seq<string>, b: seq<string>, k: nat)
    requires IsSubsequence(a, b) && k < |a|
    ensures a[k] in b
    decreases |b|
  {
    if a[0] == b[0] {
      if k > 0 {
        SubsequenceMembers(a[1..], b[1..], k - 1);
      }
    } else {
      SubsequenceMembers(a, b[1..], k);
    }
  }

  // ---------------------------------------------------------------------------
  // Other pages
  // ---------------------------------------------------------------------------

  /**
   * The request of `loadPost(id:group:commentOrder:)`: the topic's own page
   * with the chosen comment order, referred from the group's page.
   */
  function PostRequest(group: string, id: string, order: CommentOrders.CommentOrder): (r: PageRequest)
    ensures Address(r) == FeedItems.TopicPage(group, id)
    ensures r.referrer == PageUrl([group])
    ensures r.query == [("comment_order", CommentOrders.ApiName(order))]
  {
    PageUrlSpelled(group, id, "", "", "");
    PageRequest([group, id], [("comment_order", CommentOrders.ApiName(order))], PageUrl([group]))
  }

  /** A topic is loaded from its canonical link, whatever the comment order. */
  lemma PostIsCanonicalPage(item: FeedItems.FeedItem, order: CommentOrders.CommentOrder)
    ensures Address(PostRequest(item.group, item.id, order)) == FeedItems.CanonicalLink(item)
  {
  }

  /** `getLatestPostFromFeed`'s request: the group's listing, newest first. */
  function LatestPostRequest(group: string): (r: PageRequest)
    ensures r.path == [group] && r.referrer == BaseUrl
    ensures Lookup(r.query, "order") == Some(FeedOrders.ApiName(FeedOrders.New))
    ensures |r.query| == 1
  {
    PageRequest([group], [("order", "new")], BaseUrl)
  }

  /**
   * For a group whose name needs no escaping, the double-check after posting
   * loads exactly the page the listing ordered by `New` shows.
   */
  lemma LatestPostIsNewestListing(group: string)
    requires forall k | 0 <= k < |group| :: IsQueryAllowed(group[k])
    ensures LatestPostRequest(group) == FeedRequest(Some(group), FeedOrders.New, None, None, None, false)
  {
    PercentEncodeAllowed(group);
    var r := FeedRequest(Some(group), FeedOrders.New, None, None, None, false);
    assert r.path == [group];
    OnlyOrderItem("new");
  }

  lemma OnlyOrderItem(order: string)
    ensures Items(FeedKeys, [None, None, Some(order), None, None]) == [("order", order)]
  {
    var values: seq<Option<string>> := [None, None, Some(order), None, None];
    assert Items(FeedKeys[5..], values[5..]) == [];
    assert Items(FeedKeys[4..], values[4..]) == [];
    assert Items(FeedKeys[3..], values[3..]) == [];
    assert Items(FeedKeys[2..], values[2..]) == [("order", order)];
    assert Items(FeedKeys[1..], values[1..]) == [("order", order)];
  }

  /** `UserPageType`, by its raw value. */
  datatype UserPageType = CommentPages | TopicPages

  function UserPageTypeName(t: UserPageType): string
  {
    match t
    case CommentPages => "comment"
    case TopicPages => "topic"
  }

  /** The request of `loadUserPage(username:type:after:)`. */
  function UserPageRequest(username: string, pageType: Option<UserPageType>, after: Option<string>): (r: PageRequest)
    ensures Address(r) == BaseUrl + "/user/" + username && r.referrer == BaseUrl
    ensures IsSubsequence(Names(r.query), ["type", "after"])
    ensures Lookup(r.query, "type") == (if pageType.Some? then Some(UserPageTypeName(pageType.value)) else None)
    ensures Lookup(r.query, "after") == after
  {
    var values := [if pageType.Some? then Some(UserPageTypeName(pageType.value)) else None, after];
    ItemsInOrder(["type", "after"], values);
    ItemsLookup(["type", "after"], values, 0);
    ItemsLookup(["type", "after"], values, 1);
    PageUrlSpelled("user", username, "", "", "");
    PageRequest(["user", username], Items(["type", "after"], values), BaseUrl)
  }

  /** The request of `loadNotifications(unread:)`. */
  function NotificationsRequest(unread: bool): (r: PageRequest)
    ensures Address(r) == if unread then BaseUrl + "/notifications/unread" else BaseUrl + "/notifications"
    ensures r.query == [] && r.referrer == BaseUrl
  {
    PageUrlSpelled("notifications", "unread", "", "", "");
    PageRequest(["notifications"] + (if unread then ["unread"] else []), [], BaseUrl)
  }

  /** The request of `loadGroups()`. */
  function GroupsRequest(): (r: PageRequest)
    ensures Address(r) == BaseUrl + "/groups" && r.query == [] && r.referrer == BaseUrl
  {
    PageUrlSpelled("groups", "", "", "", "");
    PageRequest(["groups"], [], BaseUrl)
  }
}

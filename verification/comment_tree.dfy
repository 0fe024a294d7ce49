/**
 * The comment-tree flattener `parseComments`: walks the comment containers of
 * a topic page depth-first, in document order, and appends one `Comment` per
 * comment it can read to a bag, each placed before the comments of its
 * replies, while adding up how many comments each subtree holds.
 */
module CommentTrees {
  import opened Optional
  import opened Comments

  /**
   * A comment container (the page's `.comment-tree`, or a comment's
   * `.comment-tree-replies`) with its direct `.comment-tree-item` children in
   * document order.
   */
  datatype CommentTree = CommentTree(items: seq<TreeItem>)

  /**
   * One `.comment-tree-item`: what `parseBasicComment` made of it (none when
   * it failed) and the first replies container found inside it, if any.
   */
  datatype TreeItem = TreeItem(parsed: Option<BasicComment>, replies: Option<CommentTree>)

  /**
   * What the flattener consults besides the tree: the topic author's name and
   * the user's `respectWebCollapsed` preference.
   */
  datatype Context = Context(originalPoster: string, respectWebCollapsed: bool)

  /** `bag.insert(c, at: i)` */
  function Insert(bag: seq<Comment>, i: nat, c: Comment): (r: seq<Comment>)
    requires i <= |bag|
    ensures |r| == |bag| + 1
  {
    bag[..i] + [c] + bag[i..]
  }

  /**
   * Inserting puts the comment at position `i`, keeps everything before it
   * and moves everything from `i` on one place later.
   */
  lemma InsertPlaces(bag: seq<Comment>, i: nat, c: Comment)
    requires i <= |bag|
    ensures Insert(bag, i, c)[i] == c
    ensures forall k | 0 <= k < i :: Insert(bag, i, c)[k] == bag[k]
    ensures forall k | i < k <= |bag| :: Insert(bag, i, c)[k] == bag[k - 1]
  {
  }

  /**
   * The loop of `parseComments` from item `from` of container `t` onwards,
   * with the bag and the running `returnCount` it has built so far.
   */
  function ParseFrom(
    t: CommentTree, from: nat, ctx: Context, parent: Option<string>, threadParent: Option<string>,
    bag: seq<Comment>, returnCount: int): (r: (seq<Comment>, int))
    requires from <= |t.items|
    ensures r.1 >= returnCount
    ensures |r.0| == |bag| + (r.1 - returnCount)
    decreases t, |t.items| - from
  {
    if from == |t.items| then (bag, returnCount)
    else
      var turn := ParseItem(t.items[from], ctx, parent, threadParent, bag);
      ParseFrom(t, from + 1, ctx, parent, threadParent, turn.0, returnCount + turn.1)
  }

  /**
   * One turn of that loop: the grown bag and what the item adds to
   * `returnCount`. An item that does not parse is skipped together with
   * everything nested in it. Otherwise its replies are flattened into the bag
   * first, and its own comment, counting itself and all of them, is then
   * inserted where the bag ended before them.
   */
  function ParseItem(item: TreeItem, ctx: Context, parent: Option<string>, threadParent: Option<string>,
                     bag: seq<Comment>): (r: (seq<Comment>, int))
    ensures r.1 >= 0
    ensures |r.0| == |bag| + r.1
    decreases item
  {
    match item.parsed
    case None => (bag, 0)
    case Some(b) =>
      var indexBefore := |bag|;
      var root := threadParent.GetOr(b.id);
      var (withReplies, count) :=
        match item.replies
        case None => (bag, 1)
        case Some(replies) =>
          var (after, sub) := ParseFrom(replies, 0, ctx, Some(b.id), Some(root), bag, 0);
          (after, 1 + sub);
      var c := FromBasic(b, count, b.user == ctx.originalPoster,
                         ctx.respectWebCollapsed && b.isAlreadyCollapsed, parent, root, None);
      (Insert(withReplies, indexBefore, c), count)
  }

  /**
   * `parseComments(from:originalPoster:basePath:parent:threadParent:into:)`:
   * the grown bag and the returned count. The count is the number of comments
   * appended, and what the bag held before is left as it was.
   */
  function ParseComments(t: CommentTree, ctx: Context, parent: Option<string>, threadParent: Option<string>,
                         bag: seq<Comment>): (r: (seq<Comment>, int))
    ensures r.1 >= 0
    ensures |r.0| == |bag| + r.1
    ensures r.0[..|bag|] == bag
  {
    ParseFromIsFlat(t, 0, ctx, parent, threadParent, bag, 0);
    ParseFrom(t, 0, ctx, parent, threadParent, bag, 0)
  }

  // ---------------------------------------------------------------------------
  // Reference definition: the pre-order listing
  // ---------------------------------------------------------------------------

  /** The comments the items of `t` from `from` on contribute, sibling after sibling. */
  function Flat(t: CommentTree, from: nat, ctx: Context, parent: Option<string>, threadParent: Option<string>): seq<Comment>
    requires from <= |t.items|
    decreases t, |t.items| - from
  {
    if from == |t.items| then []
    else Block(t.items[from], ctx, parent, threadParent) + Flat(t, from + 1, ctx, parent, threadParent)
  }

  /** Everything one item contributes: nothing if it does not parse, else its comment then its replies'. */
  function Block(item: TreeItem, ctx: Context, parent: Option<string>, threadParent: Option<string>): seq<Comment>
    decreases item, 2
  {
    match item.parsed
    case None => []
    case Some(b) => [Head(item, ctx, parent, threadParent)] + Below(item, ctx, threadParent)
  }

  /** The comments of the replies of a parsed item, which are placed under it and in its thread. */
  function Below(item: TreeItem, ctx: Context, threadParent: Option<string>): seq<Comment>
    requires item.parsed.Some?
    decreases item, 0
  {
    var b := item.parsed.value;
    match item.replies
    case None => []
    case Some(r) => Flat(r, 0, ctx, Some(b.id), Some(threadParent.GetOr(b.id)))
  }

  /** The comment a parsed item becomes: it counts itself and everything below it. */
  function Head(item: TreeItem, ctx: Context, parent: Option<string>, threadParent: Option<string>): Comment
    requires item.parsed.Some?
    decreases item, 1
  {
    var b := item.parsed.value;
    FromBasic(b, 1 + |Below(item, ctx, threadParent)|, b.user == ctx.originalPoster,
              ctx.respectWebCollapsed && b.isAlreadyCollapsed, parent, threadParent.GetOr(b.id), None)
  }

  function Flatten(t: CommentTree, ctx: Context, parent: Option<string>, threadParent: Option<string>): seq<Comment>
  {
    Flat(t, 0, ctx, parent, threadParent)
  }

  /** The comments of the parsed items of `t` themselves, from `from` on, in order. */
  function Heads(t: CommentTree, from: nat, ctx: Context, parent: Option<string>, threadParent: Option<string>): seq<Comment>
    requires from <= |t.items|
    decreases |t.items| - from
  {
    if from == |t.items| then []
    else
      var item := t.items[from];
      (if item.parsed.Some? then [Head(item, ctx, parent, threadParent)] else [])
      + Heads(t, from + 1, ctx, parent, threadParent)
  }

  function SumTotals(cs: seq<Comment>): int
    decreases |cs|
  {
    if |cs| == 0 then 0 else cs[0].totalCount + SumTotals(cs[1..])
  }

  // ---------------------------------------------------------------------------
  // The flattener produces the pre-order listing
  // ---------------------------------------------------------------------------

  lemma {:induction false} ParseFromIsFlat(
    t: CommentTree, from: nat, ctx: Context, parent: Option<string>, threadParent: Option<string>,
    bag: seq<Comment>, returnCount: int)
    requires from <= |t.items|
    ensures ParseFrom(t, from, ctx, parent, threadParent, bag, returnCount)
         == (bag + Flat(t, from, ctx, parent, threadParent), returnCount + |Flat(t, from, ctx, parent, threadParent)|)
    decreases t, |t.items| - from
  {
    if from < |t.items| {
      var block := Block(t.items[from], ctx, parent, threadParent);
      ParseItemIsBlock(t.items[from], ctx, parent, threadParent, bag);
      ParseFromIsFlat(t, from + 1, ctx, parent, threadParent, bag + block, returnCount + |block|);
      ParseFromTurn(t, from, ctx, parent, threadParent, bag, returnCount);
    } else {
      assert bag + [] == bag;
    }
  }

  /** The inductive step of `ParseFromIsFlat`: the first item's block, then the rest of the listing. */
  lemma ParseFromTurn(t: CommentTree, from: nat, ctx: Context, parent: Option<string>, threadParent: Option<string>,
                      bag: seq<Comment>, returnCount: int)
    requires from < |t.items|
    requires var block := Block(t.items[from], ctx, parent, threadParent);
             && ParseItem(t.items[from], ctx, parent, threadParent, bag) == (bag + block, |block|)
             && ParseFrom(t, from + 1, ctx, parent, threadParent, bag + block, returnCount + |block|)
             == (bag + block + Flat(t, from + 1, ctx, parent, threadParent),
                 returnCount + |block| + |Flat(t, from + 1, ctx, parent, threadParent)|)
    ensures ParseFrom(t, from, ctx, parent, threadParent, bag, returnCount)
         == (bag + Flat(t, from, ctx, parent, threadParent), returnCount + |Flat(t, from, ctx, parent, threadParent)|)
  {
    var block := Block(t.items[from], ctx, parent, threadParent);
    var rest := Flat(t, from + 1, ctx, parent, threadParent);
    assert bag + block + rest == bag + (block + rest);
  }

  /** One turn of the loop appends the item's block and counts its comments. */
  lemma {:induction false} ParseItemIsBlock(item: TreeItem, ctx: Context, parent: Option<string>,
                                           threadParent: Option<string>, bag: seq<Comment>)
    ensures ParseItem(item, ctx, parent, threadParent, bag)
         == (bag + Block(item, ctx, parent, threadParent), |Block(item, ctx, parent, threadParent)|)
    decreases item
  {
    match item.parsed {
      case None =>
        assert bag + [] == bag;
      case Some(b) =>
        var below := Below(item, ctx, threadParent);
        var c := Head(item, ctx, parent, threadParent);
        match item.replies {
          case None =>
            assert Insert(bag, |bag|, c) == bag + ([c] + below);
          case Some(r) =>
            ParseFromIsFlat(r, 0, ctx, Some(b.id), Some(threadParent.GetOr(b.id)), bag, 0);
            assert Insert(bag + below, |bag|, c) == bag + ([c] + below);
        }
    }
  }

  /**
   * The bag `parseComments` leaves is the old bag followed by the pre-order
   * listing of the tree: every parsed comment immediately followed by the
   * comments of its replies, siblings in document order; the count it returns
   * is the length of that listing.
   */
  lemma ParseCommentsIsPreorder(t: CommentTree, ctx: Context, parent: Option<string>, threadParent: Option<string>,
                                bag: seq<Comment>)
    ensures ParseComments(t, ctx, parent, threadParent, bag)
         == (bag + Flatten(t, ctx, parent, threadParent), |Flatten(t, ctx, parent, threadParent)|)
  {
    ParseFromIsFlat(t, 0, ctx, parent, threadParent, bag, 0);
  }

  /** What a run of items contributes depends on those items alone. */
  lemma {:induction false} FlatOfSameItems(t1: CommentTree, from1: nat, t2: CommentTree, from2: nat,
                                          ctx: Context, parent: Option<string>, threadParent: Option<string>)
    requires from1 <= |t1.items| && from2 <= |t2.items|
    requires t1.items[from1..] == t2.items[from2..]
    ensures Flat(t1, from1, ctx, parent, threadParent) == Flat(t2, from2, ctx, parent, threadParent)
    ensures Heads(t1, from1, ctx, parent, threadParent) == Heads(t2, from2, ctx, parent, threadParent)
    decreases |t1.items| - from1
  {
    if from1 < |t1.items| {
      assert t1.items[from1] == t1.items[from1..][0] == t2.items[from2];
      assert t1.items[from1 + 1..] == t1.items[from1..][1..];
      FlatOfSameItems(t1, from1 + 1, t2, from2 + 1, ctx, parent, threadParent);
    }
  }

  /** Sibling order is kept: the listing of two runs of siblings is the two listings one after the other. */
  lemma {:induction false} FlattenConcat(a: seq<TreeItem>, b: seq<TreeItem>, ctx: Context,
                                        parent: Option<string>, threadParent: Option<string>)
    ensures Flatten(CommentTree(a + b), ctx, parent, threadParent)
         == Flatten(CommentTree(a), ctx, parent, threadParent) + Flatten(CommentTree(b), ctx, parent, threadParent)
    decreases |a|
  {
    if |a| == 0 {
      assert a + b == b;
    } else {
      var ab := CommentTree(a + b);
      assert (a + b)[1..] == a[1..] + b;
      FlatOfSameItems(ab, 1, CommentTree(a[1..] + b), 0, ctx, parent, threadParent);
      FlatOfSameItems(CommentTree(a), 1, CommentTree(a[1..]), 0, ctx, parent, threadParent);
      FlattenConcat(a[1..], b, ctx, parent, threadParent);
      var blk := Block(a[0], ctx, parent, threadParent);
      assert ab.items[0] == a[0];
      assert Flatten(ab, ctx, parent, threadParent) == blk + Flat(ab, 1, ctx, parent, threadParent);
      assert Flatten(CommentTree(a), ctx, parent, threadParent) == blk + Flat(CommentTree(a), 1, ctx, parent, threadParent);
    }
  }

  /**
   * An item that does not parse contributes nothing, and nor does anything
   * nested in it: `parseComments` behaves as if the item were absent.
   */
  lemma SkipsUnparsedSubtree(a: seq<TreeItem>, replies: Option<CommentTree>, b: seq<TreeItem>, ctx: Context,
                             parent: Option<string>, threadParent: Option<string>, bag: seq<Comment>)
    ensures ParseComments(CommentTree(a + [TreeItem(None, replies)] + b), ctx, parent, threadParent, bag)
         == ParseComments(CommentTree(a + b), ctx, parent, threadParent, bag)
  {
    var skipped := TreeItem(None, replies);
    FlattenConcat(a + [skipped], b, ctx, parent, threadParent);
    FlattenConcat(a, [skipped], ctx, parent, threadParent);
    FlattenConcat(a, b, ctx, parent, threadParent);
    assert Block(skipped, ctx, parent, threadParent) == [];
    assert Flat(CommentTree([skipped]), 1, ctx, parent, threadParent) == [];
    assert Flatten(CommentTree([skipped]), ctx, parent, threadParent) == [];
    var fa := Flatten(CommentTree(a), ctx, parent, threadParent);
    assert fa + [] == fa;
    assert Flatten(CommentTree(a + [skipped] + b), ctx, parent, threadParent)
        == Flatten(CommentTree(a + b), ctx, parent, threadParent);
    ParseCommentsIsPreorder(CommentTree(a + [skipped] + b), ctx, parent, threadParent, bag);
    ParseCommentsIsPreorder(CommentTree(a + b), ctx, parent, threadParent, bag);
  }

  // ---------------------------------------------------------------------------
  // Counts
  // ---------------------------------------------------------------------------

  /** A parsed item's comment counts exactly the comments its block lists. */
  lemma TotalCountIsBlockSize(item: TreeItem, ctx: Context, parent: Option<string>, threadParent: Option<string>)
    requires item.parsed.Some?
    ensures Head(item, ctx, parent, threadParent).totalCount == |Block(item, ctx, parent, threadParent)| >= 1
  {
  }

  /** The listing from `from` on is as long as the totals of its top-level comments add up to. */
  lemma {:induction false} FlatSizeIsSumOfHeadTotals(t: CommentTree, from: nat, ctx: Context,
                                                    parent: Option<string>, threadParent: Option<string>)
    requires from <= |t.items|
    ensures |Flat(t, from, ctx, parent, threadParent)| == SumTotals(Heads(t, from, ctx, parent, threadParent))
    decreases |t.items| - from
  {
    if from < |t.items| {
      FlatSizeIsSumOfHeadTotals(t, from + 1, ctx, parent, threadParent);
      var item := t.items[from];
      var rest := Heads(t, from + 1, ctx, parent, threadParent);
      if item.parsed.Some? {
        var h := Head(item, ctx, parent, threadParent);
        assert ([h] + rest)[1..] == rest;
      } else {
        assert [] + rest == rest;
      }
    }
  }

  /**
   * The count `parseComments` returns is the sum of the totals of the
   * top-level comments it placed, and each comment's total is one more than
   * the sum of the totals of its direct replies.
   */
  lemma TotalCounts(t: CommentTree, ctx: Context, parent: Option<string>, threadParent: Option<string>, bag: seq<Comment>)
    ensures ParseComments(t, ctx, parent, threadParent, bag).1 == SumTotals(Heads(t, 0, ctx, parent, threadParent))
  {
    ParseCommentsIsPreorder(t, ctx, parent, threadParent, bag);
    FlatSizeIsSumOfHeadTotals(t, 0, ctx, parent, threadParent);
  }

  /**
   * One comment and its direct replies: each reply points to the comment as
   * its parent and shares its thread, and the comment's total is one more than
   * the sum of the replies' totals.
   */
  lemma DirectReplies(item: TreeItem, ctx: Context, parent: Option<string>, threadParent: Option<string>)
    requires item.parsed.Some? && item.replies.Some?
    ensures var h := Head(item, ctx, parent, threadParent);
            var replies := Heads(item.replies.value, 0, ctx, Some(h.id), Some(h.threadParent));
            && h.totalCount == 1 + SumTotals(replies)
            && (forall c | c in replies :: c.parent == Some(h.id) && c.threadParent == h.threadParent)
  {
    var b := item.parsed.value;
    var root := threadParent.GetOr(b.id);
    FlatSizeIsSumOfHeadTotals(item.replies.value, 0, ctx, Some(b.id), Some(root));
    HeadsPlacement(item.replies.value, 0, ctx, Some(b.id), Some(root));
  }

  // ---------------------------------------------------------------------------
  // Parents and threads
  // ---------------------------------------------------------------------------

  /**
   * Top-level comments get the parent passed in, and the thread passed in or,
   * when there is none, their own id.
   */
  lemma {:induction false} HeadsPlacement(t: CommentTree, from: nat, ctx: Context,
                                         parent: Option<string>, threadParent: Option<string>)
    requires from <= |t.items|
    ensures forall c | c in Heads(t, from, ctx, parent, threadParent) ::
              c.parent == parent && c.threadParent == threadParent.GetOr(c.id)
    decreases |t.items| - from
  {
    if from < |t.items| {
      HeadsPlacement(t, from + 1, ctx, parent, threadParent);
    }
  }

  /** Below a thread root, every comment keeps that root. */
  lemma {:induction false} FlatKeepsThread(t: CommentTree, from: nat, ctx: Context, parent: Option<string>, root: string)
    requires from <= |t.items|
    ensures forall c | c in Flat(t, from, ctx, parent, Some(root)) :: c.threadParent == root
    decreases t, |t.items| - from
  {
    if from < |t.items| {
      BlockKeepsThread(t.items[from], ctx, parent, Some(root));
      FlatKeepsThread(t, from + 1, ctx, parent, root);
    }
  }

  /**
   * Every comment of an item's block belongs to the thread passed in or, at
   * top level, to the thread the item's own comment starts.
   */
  lemma {:induction false} BlockKeepsThread(item: TreeItem, ctx: Context, parent: Option<string>, threadParent: Option<string>)
    ensures forall c | c in Block(item, ctx, parent, threadParent) ::
              item.parsed.Some? && c.threadParent == threadParent.GetOr(item.parsed.value.id)
    decreases item, 2
  {
    match item.parsed {
      case None =>
      case Some(b) =>
        match item.replies {
          case None =>
          case Some(r) =>
            FlatKeepsThread(r, 0, ctx, Some(b.id), threadParent.GetOr(b.id));
        }
    }
  }

  /**
   * A top-level call (no thread yet) starts one thread per parsed item: all
   * comments of the item's block carry the item's id as their thread.
   */
  lemma TopLevelThreads(t: CommentTree, i: nat, ctx: Context, parent: Option<string>)
    requires i < |t.items| && t.items[i].parsed.Some?
    ensures forall c | c in Block(t.items[i], ctx, parent, None) :: c.threadParent == t.items[i].parsed.value.id
  {
    BlockKeepsThread(t.items[i], ctx, parent, None);
  }

  // ---------------------------------------------------------------------------
  // What every placed comment carries
  // ---------------------------------------------------------------------------

  /** The flags and counts the flattener computes for every comment it places. */
  predicate WellPlaced(c: Comment, ctx: Context)
  {
    && c.totalCount >= 1
    && c.isOriginalPoster == (c.user == ctx.originalPoster)
    && (c.isCollapsed ==> ctx.respectWebCollapsed)
  }

  lemma {:induction false} FlatWellPlaced(t: CommentTree, from: nat, ctx: Context,
                                         parent: Option<string>, threadParent: Option<string>)
    requires from <= |t.items|
    ensures forall c | c in Flat(t, from, ctx, parent, threadParent) :: WellPlaced(c, ctx)
    decreases t, |t.items| - from
  {
    if from < |t.items| {
      BlockWellPlaced(t.items[from], ctx, parent, threadParent);
      FlatWellPlaced(t, from + 1, ctx, parent, threadParent);
    }
  }

  lemma {:induction false} BlockWellPlaced(item: TreeItem, ctx: Context, parent: Option<string>, threadParent: Option<string>)
    ensures forall c | c in Block(item, ctx, parent, threadParent) :: WellPlaced(c, ctx)
    decreases item, 2
  {
    match item.parsed {
      case None =>
      case Some(b) =>
        match item.replies {
          case None =>
          case Some(r) =>
            FlatWellPlaced(r, 0, ctx, Some(b.id), Some(threadParent.GetOr(b.id)));
        }
    }
  }

  /**
   * Every comment the flattener appends counts at least itself, is marked as
   * the topic author's exactly when its author is the topic's, and is
   * collapsed only when the user asked to respect the site's collapsing.
   */
  lemma ParsedCommentsWellPlaced(t: CommentTree, ctx: Context, parent: Option<string>, threadParent: Option<string>,
                                 bag: seq<Comment>)
    ensures var r := ParseComments(t, ctx, parent, threadParent, bag);
            forall i | |bag| <= i < |r.0| :: WellPlaced(r.0[i], ctx)
  {
    ParseCommentsIsPreorder(t, ctx, parent, threadParent, bag);
    FlatWellPlaced(t, 0, ctx, parent, threadParent);
    var r := ParseComments(t, ctx, parent, threadParent, bag);
    forall i | |bag| <= i < |r.0| ensures WellPlaced(r.0[i], ctx) {
      assert r.0[i] == Flatten(t, ctx, parent, threadParent)[i - |bag|];
    }
  }

  // ---------------------------------------------------------------------------
  // What the placed comments hold
  // ---------------------------------------------------------------------------

  /** The parsed comments of the items of `t` from `from` on, in pre-order, as the site showed them. */
  function ParsedFrom(t: CommentTree, from: nat): seq<BasicComment>
    requires from <= |t.items|
    decreases t, |t.items| - from
  {
    if from == |t.items| then [] else ParsedItem(t.items[from]) + ParsedFrom(t, from + 1)
  }

  function ParsedItem(item: TreeItem): seq<BasicComment>
    decreases item
  {
    match item.parsed
    case None => []
    case Some(b) => [b] + (match item.replies case None => [] case Some(r) => ParsedFrom(r, 0))
  }

  /**
   * A placed comment carries the parsed comment `b`: the same content, and
   * collapsed exactly when the user respects the site's collapsing and the
   * site collapsed it.
   */
  predicate Carries(c: Comment, b: BasicComment, ctx: Context)
  {
    && ToBasic(c) == b.(isAlreadyCollapsed := false)
    && c.isCollapsed == (ctx.respectWebCollapsed && b.isAlreadyCollapsed)
  }

  /** Each placed comment carries the parsed comment at the same position. */
  predicate CarriesAll(cs: seq<Comment>, bs: seq<BasicComment>, ctx: Context)
  {
    |cs| == |bs| && forall i | 0 <= i < |cs| :: Carries(cs[i], bs[i], ctx)
  }

  lemma CarriesConcat(x: seq<Comment>, y: seq<Comment>, xs: seq<BasicComment>, ys: seq<BasicComment>, ctx: Context)
    requires CarriesAll(x, xs, ctx) && CarriesAll(y, ys, ctx)
    ensures CarriesAll(x + y, xs + ys, ctx)
  {
    forall i | 0 <= i < |x + y|
      ensures Carries((x + y)[i], (xs + ys)[i], ctx)
    {
      if i < |x| {
        assert (x + y)[i] == x[i] && (xs + ys)[i] == xs[i];
      } else {
        assert (x + y)[i] == y[i - |x|] && (xs + ys)[i] == ys[i - |x|];
      }
    }
  }

  lemma {:induction false} FlatContent(t: CommentTree, from: nat, ctx: Context,
                                      parent: Option<string>, threadParent: Option<string>)
    requires from <= |t.items|
    ensures CarriesAll(Flat(t, from, ctx, parent, threadParent), ParsedFrom(t, from), ctx)
    decreases t, |t.items| - from
  {
    if from < |t.items| {
      BlockContent(t.items[from], ctx, parent, threadParent);
      FlatContent(t, from + 1, ctx, parent, threadParent);
      CarriesConcat(Block(t.items[from], ctx, parent, threadParent), Flat(t, from + 1, ctx, parent, threadParent),
                    ParsedItem(t.items[from]), ParsedFrom(t, from + 1), ctx);
    }
  }

  lemma {:induction false} BlockContent(item: TreeItem, ctx: Context, parent: Option<string>, threadParent: Option<string>)
    ensures CarriesAll(Block(item, ctx, parent, threadParent), ParsedItem(item), ctx)
    decreases item
  {
    match item.parsed {
      case None =>
      case Some(b) =>
        var h := Head(item, ctx, parent, threadParent);
        assert Carries(h, b, ctx);
        assert CarriesAll([h], [b], ctx);
        match item.replies {
          case None =>
            assert Block(item, ctx, parent, threadParent) == [h] + [];
            CarriesConcat([h], [], [b], [], ctx);
          case Some(r) =>
            FlatContent(r, 0, ctx, Some(b.id), Some(threadParent.GetOr(b.id)));
            CarriesConcat([h], Below(item, ctx, threadParent), [b], ParsedFrom(r, 0), ctx);
        }
    }
  }

  /**
   * The comments appended are exactly the comments that parsed, in pre-order,
   * each with the content, author, dates, depth and vote state it was parsed
   * with, and collapsed exactly when the user respects the site's collapsing
   * and the site collapsed it; neither the topic author nor the parent and
   * thread passed in change which comments appear or what they say.
   */
  lemma ParsedContent(t: CommentTree, ctx: Context, parent: Option<string>, threadParent: Option<string>,
                      bag: seq<Comment>)
    ensures var r := ParseComments(t, ctx, parent, threadParent, bag);
            r.0[..|bag|] == bag && CarriesAll(r.0[|bag|..], ParsedFrom(t, 0), ctx)
  {
    ParseCommentsIsPreorder(t, ctx, parent, threadParent, bag);
    var f := Flatten(t, ctx, parent, threadParent);
    assert (bag + f)[..|bag|] == bag;
    assert (bag + f)[|bag|..] == f;
    FlatContent(t, 0, ctx, parent, threadParent);
  }
}

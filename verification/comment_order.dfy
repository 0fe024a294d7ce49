/** `CommentOrder`: how the comments under a topic are sorted. */
module CommentOrders {
  import opened Text

  datatype CommentOrder = Votes | NewestFirst | OldestFirst | Relevance

  /** `allCases`, in declaration order. */
  const AllCases: seq<CommentOrder> := [Votes, NewestFirst, OldestFirst, Relevance]

  /** The Swift raw value of each case: its position among the cases. */
  function RawValue(o: CommentOrder): (r: nat)
    ensures r < |AllCases| && AllCases[r] == o
  {
    match o
    case Votes => 0
    case NewestFirst => 1
    case OldestFirst => 2
    case Relevance => 3
  }

  /** The value of the `comment_order` query parameter, a word that needs no escaping. */
  function ApiName(o: CommentOrder): (r: string)
    ensures IsQueryWord(r)
  {
    match o
    case Votes => "votes"
    case NewestFirst => "newest"
    case OldestFirst => "oldest"
    case Relevance => "relevance"
  }

  /** The label shown in the picker. */
  function DisplayName(o: CommentOrder): (r: string)
    ensures IsCapitalised(r)
  {
    match o
    case Votes => "Votes"
    case NewestFirst => "Newest First"
    case OldestFirst => "Order Posted"
    case Relevance => "Relevance"
  }

  function PickerId(o: CommentOrder): int
  {
    RawValue(o)
  }

  /** Raw values are 0 through 3, one per case, and double as picker ids. */
  lemma RawValues()
    ensures forall o :: 0 <= RawValue(o) <= 3 && PickerId(o) == RawValue(o)
    ensures forall a, b :: RawValue(a) == RawValue(b) ==> a == b
  {
  }

  lemma ApiNameInjective(a: CommentOrder, b: CommentOrder)
    requires ApiName(a) == ApiName(b)
    ensures a == b
  {
  }

  lemma DisplayNameInjective(a: CommentOrder, b: CommentOrder)
    requires DisplayName(a) == DisplayName(b)
    ensures a == b
  {
  }
}

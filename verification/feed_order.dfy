/** `FeedOrder`: how a topic listing is sorted. */
module FeedOrders {
  import opened Optional
  import opened Text

  datatype FeedOrder = Activity | Votes | Comments | New | AllActivity

  /** `allCases`, in declaration order. */
  const AllCases: seq<FeedOrder> := [Activity, Votes, Comments, New, AllActivity]

  /** The Swift raw value of each case: its position among the cases. */
  function RawValue(o: FeedOrder): (r: nat)
    ensures r < |AllCases| && AllCases[r] == o
  {
    match o
    case Activity => 0
    case Votes => 1
    case Comments => 2
    case New => 3
    case AllActivity => 4
  }

  /** `FeedOrder(rawValue:)` */
  function FromRawValue(n: int): (r: Option<FeedOrder>)
    ensures r.Some? <==> 0 <= n <= 4
    ensures r.Some? ==> RawValue(r.value) == n
  {
    if n == 0 then Some(Activity)
    else if n == 1 then Some(Votes)
    else if n == 2 then Some(Comments)
    else if n == 3 then Some(New)
    else if n == 4 then Some(AllActivity)
    else None
  }

  /** The value of the `order` query parameter, a word that needs no escaping. */
  function ApiName(o: FeedOrder): (r: string)
    ensures IsQueryWord(r)
  {
    match o
    case Activity => "activity"
    case Votes => "votes"
    case Comments => "comments"
    case AllActivity => "all_activity"
    case New => "new"
  }

  /** The SF Symbol shown for the order. */
  function IconName(o: FeedOrder): (r: string)
    ensures IsSymbolName(r)
  {
    match o
    case Votes => "arrow.up"
    case Comments => "bubble.left"
    case New => "clock"
    case Activity => "trophy"
    case AllActivity => "arrow.up.and.down.text.horizontal"
  }

  /** The label shown in the picker. */
  function DisplayName(o: FeedOrder): (r: string)
    ensures IsCapitalised(r)
  {
    match o
    case Votes => "Votes"
    case Comments => "Comments"
    case Activity => "Activity"
    case New => "New"
    case AllActivity => "All Activity"
  }

  /** Whether a time period may accompany this order. */
  function CanSelectPeriod(o: FeedOrder): bool
  {
    match o
    case New => false
    case _ => true
  }

  function PickerId(o: FeedOrder): (r: int)
    ensures FromRawValue(r) == Some(o)
  {
    RawValue(o)
  }

  /** The raw values are 0 through 4, each used once, and listed by `allCases` in order. */
  lemma RawValues()
    ensures forall o :: 0 <= RawValue(o) <= 4 && FromRawValue(RawValue(o)) == Some(o)
    ensures forall a, b :: RawValue(a) == RawValue(b) ==> a == b
    ensures forall i | 0 <= i < |AllCases| :: RawValue(AllCases[i]) == i
    ensures forall o :: o in AllCases
  {
    forall o ensures o in AllCases {
      assert AllCases[RawValue(o)] == o;
    }
  }

  /** Distinct orders send distinct `order` values to the server. */
  lemma ApiNameInjective(a: FeedOrder, b: FeedOrder)
    requires ApiName(a) == ApiName(b)
    ensures a == b
  {
  }

  lemma DisplayNameInjective(a: FeedOrder, b: FeedOrder)
    requires DisplayName(a) == DisplayName(b)
    ensures a == b
  {
  }

  lemma IconNameInjective(a: FeedOrder, b: FeedOrder)
    requires IconName(a) == IconName(b)
    ensures a == b
  {
  }

  /** Only the "new" order refuses a period. */
  lemma CanSelectPeriodExceptNew(o: FeedOrder)
    ensures !CanSelectPeriod(o) <==> o == New
  {
  }
}

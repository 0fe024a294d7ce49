/** `FeedOrderPeriod`: the time window a topic listing covers. */
module FeedOrderPeriods {
  import opened Optional
  import opened Text

  datatype FeedOrderPeriod =
    | WebsiteDefault
    | LastHour
    | LastTwelveHours
    | LastDay
    | LastThreeDays
    | LastWeek
    | LastMonth
    | LastSixMonth
    | LastYear
    | AllTime

  /** `allCases`, in declaration order. */
  const AllCases: seq<FeedOrderPeriod> :=
    [WebsiteDefault, LastHour, LastTwelveHours, LastDay, LastThreeDays, LastWeek, LastMonth, LastSixMonth, LastYear, AllTime]

  /** The Swift raw value of each case: its position among the cases. */
  function RawValue(p: FeedOrderPeriod): (r: nat)
    ensures r < |AllCases| && AllCases[r] == p
  {
    match p
    case WebsiteDefault => 0
    case LastHour => 1
    case LastTwelveHours => 2
    case LastDay => 3
    case LastThreeDays => 4
    case LastWeek => 5
    case LastMonth => 6
    case LastSixMonth => 7
    case LastYear => 8
    case AllTime => 9
  }

  /** The value of the `period` query parameter; the site default sends none. */
  function ApiName(p: FeedOrderPeriod): (r: Option<string>)
    ensures r.Some? ==> IsQueryWord(r.value)
  {
    match p
    case LastHour => Some("1h")
    case LastTwelveHours => Some("12h")
    case LastDay => Some("24h")
    case LastThreeDays => Some("3d")
    case LastWeek => Some("7d")
    case LastMonth => Some("30d")
    case LastSixMonth => Some("182d")
    case LastYear => Some("365d")
    case AllTime => Some("all")
    case WebsiteDefault => None
  }

  /** The label shown in the picker. */
  function DisplayName(p: FeedOrderPeriod): (r: string)
    ensures |r| > 0
  {
    match p
    case LastHour => "Hour"
    case LastTwelveHours => "12 Hours"
    case LastDay => "Day"
    case LastThreeDays => "Three Days"
    case LastWeek => "Week"
    case LastMonth => "Month"
    case LastSixMonth => "½ Year"
    case LastYear => "Year"
    case AllTime => "All Time"
    case WebsiteDefault => "Unspecified"
  }

  /** The periods offered in the picker. */
  const DisplayedCases: seq<FeedOrderPeriod> :=
    [LastHour, LastDay, LastWeek, LastMonth, LastSixMonth, LastYear, AllTime]

  function PickerId(p: FeedOrderPeriod): int
  {
    RawValue(p)
  }

  lemma RawValueInjective(a: FeedOrderPeriod, b: FeedOrderPeriod)
    requires RawValue(a) == RawValue(b)
    ensures a == b
  {
  }

  /** Only the site default has no `period` value. */
  lemma ApiNameAbsentOnlyForDefault(p: FeedOrderPeriod)
    ensures ApiName(p).None? <==> p == WebsiteDefault
  {
  }

  /** Distinct periods have distinct labels. */
  lemma DisplayNameInjective(a: FeedOrderPeriod, b: FeedOrderPeriod)
    requires DisplayName(a) == DisplayName(b)
    ensures a == b
  {
  }

  /** Distinct non-default periods send distinct `period` values. */
  lemma ApiNameInjective(a: FeedOrderPeriod, b: FeedOrderPeriod)
    requires ApiName(a).Some? && ApiName(a) == ApiName(b)
    ensures a == b
  {
  }

  /**
   * The picker leaves out the default, twelve hours and three days; the rest
   * appear once each, in increasing raw value, each with a `period` value.
   */
  lemma DisplayedCasesShape()
    ensures WebsiteDefault !in DisplayedCases
    ensures LastTwelveHours !in DisplayedCases
    ensures LastThreeDays !in DisplayedCases
    ensures forall p :: p != WebsiteDefault && p != LastTwelveHours && p != LastThreeDays ==> p in DisplayedCases
    ensures forall i, j | 0 <= i < j < |DisplayedCases| :: RawValue(DisplayedCases[i]) < RawValue(DisplayedCases[j])
    ensures forall i | 0 <= i < |DisplayedCases| :: ApiName(DisplayedCases[i]).Some?
    ensures forall p :: PickerId(p) == RawValue(p)
  {
  }
}

/** The activity list page: formatting of the fetched activities, their order by price, and
    the search, budget, date and rating filter. */
module ActivityList {
  import opened Base
  import Strings
  import Seqs
  import Sorting

  // ---------------------------------------------------------------------------
  // useGetMyActivities: the fetched records and their formatted form
  // ---------------------------------------------------------------------------

  datatype RawTag = RawTag(name: Option<string>)
  datatype RawCategory = RawCategory(name: Option<string>)
  datatype RawLocation = RawLocation(name: Option<string>, latitude: Option<int>, longitude: Option<int>)

  /** An activity as the server sends it; `location` is dereferenced without a guard. */
  datatype RawActivity = RawActivity(datetime: Option<string>, location: Option<RawLocation>,
                                     price: Option<int>, category: Option<RawCategory>,
                                     tags: Option<seq<RawTag>>, specialDiscounts: Option<int>,
                                     bookingOpen: Option<bool>)

  datatype Location = Location(name: string, latitude: int, longitude: int)

  /** The `Activity` record the page works with. */
  datatype Activity = Activity(date: string, time: string, location: Location, ratings: int,
                               price: int, category: string, tags: seq<string>,
                               specialDiscounts: int, bookingOpen: bool)

  const NotAvailable: string := "N/A"
  /** The price given to an activity the server sends without one. */
  const NoPrice: int := -1

  /** `Math.floor(Math.random() * 5)`: the random draw behind each placeholder rating. */
  type Roll = r: int | 0 <= r < 5

  /** The locale's rendering of a date-time text (`toLocaleDateString`, `toLocaleTimeString`). */
  type Render = string -> string

  /** One record of the fetch, the `index`-th; `None` when it has no `location`. */
  function FormatActivity(item: RawActivity, index: nat, localDate: Render, localTime: Render,
                          roll: nat -> Roll): (r: Option<Activity>)
    ensures r.Some? <==> item.location.Some?
    ensures r.Some? ==> var a := r.value;
      && a.date == localDate(item.datetime.OrElse(NotAvailable))
      && a.time == localTime(item.datetime.OrElse(NotAvailable))
      && a.price == (if item.price.Some? then item.price.value else NoPrice)
      && (if item.category.Some? && item.category.value.name.Some? then a.category == item.category.value.name.value
          else a.category == NotAvailable)
      && a.location == Location(item.location.value.name.OrElse(NotAvailable),
                                item.location.value.latitude.OrElse(0), item.location.value.longitude.OrElse(0))
      && |a.tags| == |item.tags.OrElse([])|
      && (forall i :: 0 <= i < |a.tags| ==> a.tags[i] == item.tags.OrElse([])[i].name.OrElse(NotAvailable))
      && a.specialDiscounts == item.specialDiscounts.OrElse(0)
      && a.bookingOpen == (item.bookingOpen == Some(true))
      && 1 <= a.ratings <= 5
  {
    match item.location
    case None => None
    case Some(loc) =>
      var datetime := item.datetime.OrElse(NotAvailable);
      var category := match item.category
        case Some(RawCategory(Some(name))) => name
        case _ => NotAvailable;
      var tags := item.tags.OrElse([]);
      Some(Activity(localDate(datetime), localTime(datetime),
                    Location(loc.name.OrElse(NotAvailable), loc.latitude.OrElse(0), loc.longitude.OrElse(0)),
                    roll(index) + 1, item.price.OrElse(NoPrice), category,
                    seq(|tags|, i requires 0 <= i < |tags| => tags[i].name.OrElse(NotAvailable)),
                    item.specialDiscounts.OrElse(0), item.bookingOpen.OrElse(false)))
  }

  /** The mapped list, before sorting; `None` when a record fails. */
  function FormatFrom(items: seq<RawActivity>, from: nat, localDate: Render, localTime: Render,
                      roll: nat -> Roll): (r: Option<seq<Activity>>)
    ensures r.Some? <==> forall i :: 0 <= i < |items| ==> items[i].location.Some?
    ensures r.Some? ==> (|r.value| == |items|
      && forall i :: 0 <= i < |items| ==> Some(r.value[i]) == FormatActivity(items[i], from + i, localDate, localTime, roll))
    decreases |items|
  {
    if |items| == 0 then
      Some([])
    else
      match FormatActivity(items[0], from, localDate, localTime, roll)
      case None => None
      case Some(a) =>
        match FormatFrom(items[1..], from + 1, localDate, localTime, roll)
        case None => None
        case Some(rest) =>
          var r := [a] + rest;
          assert forall i :: 1 <= i < |items| ==> items[i] == items[1..][i - 1] && r[i] == rest[i - 1];
          assert forall i :: 1 <= i < |items| ==>
            Some(r[i]) == FormatActivity(items[1..][i - 1], from + 1 + (i - 1), localDate, localTime, roll);
          Some(r)
  }

  /** `a` may be placed before `b` by `(a, b) => a.price - b.price`. */
  predicate PriceLe(a: Activity, b: Activity) {
    a.price - b.price <= 0
  }

  lemma PriceLeIsTotalPreorder()
    ensures Sorting.TotalPreorder(PriceLe)
  {
  }

  /** `useGetMyActivities`: the formatted activities, cheapest first (those without a price,
      at -1, ahead of all others), or `None` when the fetch fails. */
  function GetActivities(items: seq<RawActivity>, localDate: Render, localTime: Render,
                         roll: nat -> Roll): (r: Option<seq<Activity>>)
    ensures r.Some? <==> forall i :: 0 <= i < |items| ==> items[i].location.Some?
    ensures r.Some? ==> multiset(r.value) == multiset(FormatFrom(items, 0, localDate, localTime, roll).value)
    ensures r.Some? ==> forall i, j :: 0 <= i < j < |r.value| ==> r.value[i].price <= r.value[j].price
  {
    match FormatFrom(items, 0, localDate, localTime, roll)
    case None => None
    case Some(formatted) =>
      PriceLeIsTotalPreorder();
      var sorted := Sorting.Sort(formatted, PriceLe);
      assert forall i, j :: 0 <= i < j < |sorted| ==> PriceLe(sorted[i], sorted[j]);
      Some(sorted)
  }

  /** Every fetched record appears, formatted, in the sorted list. */
  lemma GetActivitiesKeepsEachRecord(items: seq<RawActivity>, localDate: Render, localTime: Render,
                                     roll: nat -> Roll, i: nat)
    requires i < |items|
    requires GetActivities(items, localDate, localTime, roll).Some?
    ensures FormatActivity(items[i], i, localDate, localTime, roll).Some?
    ensures FormatActivity(items[i], i, localDate, localTime, roll).value
              in GetActivities(items, localDate, localTime, roll).value
  {
    var formatted := FormatFrom(items, 0, localDate, localTime, roll).value;
    assert Some(formatted[i]) == FormatActivity(items[i], i, localDate, localTime, roll);
    assert formatted[i] in multiset(formatted);
  }

  /** An activity's displayed fields keep exactly what the server sent wherever it sent it. */
  lemma FormatKeepsPresentFields(item: RawActivity, index: nat, localDate: Render, localTime: Render,
                                 roll: nat -> Roll, loc: RawLocation, price: int, category: string)
    requires item.location == Some(loc) && item.price == Some(price)
    requires item.category == Some(RawCategory(Some(category)))
    ensures var a := FormatActivity(item, index, localDate, localTime, roll).value;
      a.price == price && a.category == category
      && a.location == Location(loc.name.OrElse(NotAvailable), loc.latitude.OrElse(0), loc.longitude.OrElse(0))
  {
  }

  // ---------------------------------------------------------------------------
  // formatText
  // ---------------------------------------------------------------------------

  const TagWidth: nat := 5 * 3

  /** `formatText`: a tag shown in at most 15 characters, longer ones cut and marked by "...". */
  function FormatText(text: string): (r: string)
    ensures |text| <= 15 ==> r == text
    ensures |text| > 15 ==> |r| == 18 && r[..15] == text[..15] && r[15..] == "..."
  {
    Strings.Truncate(text, TagWidth)
  }

  // ---------------------------------------------------------------------------
  // the filter
  // ---------------------------------------------------------------------------

  /** The tool bar: search text, maximum budget, earliest date and minimum rating; an empty
      text and a `null` number each switch their criterion off. */
  datatype Criteria = Criteria(searchQuery: string, budget: Option<int>, date: string, ratings: Option<int>)

  const NoCriteria := Criteria("", None, "", None)

  /** `new Date(a) >= new Date(b)` for two date texts. */
  type DateOrder = (string, string) -> bool

  predicate MatchesSearchQuery(a: Activity, q: string) {
    || q == ""
    || Strings.IncludesIgnoringCase(a.date, q)
    || Strings.IncludesIgnoringCase(a.category, q)
    || exists k :: 0 <= k < |a.tags| && Strings.IncludesIgnoringCase(a.tags[k], q)
  }

  predicate MatchesBudget(a: Activity, budget: Option<int>) {
    budget.None? || a.price <= budget.value
  }

  predicate MatchesDate(a: Activity, date: string, onOrAfter: DateOrder) {
    date == "" || onOrAfter(a.date, date)
  }

  predicate MatchesRatings(a: Activity, ratings: Option<int>) {
    ratings.None? || a.ratings >= ratings.value
  }

  /** All four criteria hold. */
  predicate Matches(a: Activity, c: Criteria, onOrAfter: DateOrder) {
    && MatchesSearchQuery(a, c.searchQuery)
    && MatchesBudget(a, c.budget)
    && MatchesDate(a, c.date, onOrAfter)
    && MatchesRatings(a, c.ratings)
  }

  function Keeps(c: Criteria, onOrAfter: DateOrder): Activity -> bool {
    (a: Activity) => Matches(a, c, onOrAfter)
  }

  /** `filteredData`: the activities meeting every criterion, in their original order. */
  function FilterActivities(data: seq<Activity>, c: Criteria, onOrAfter: DateOrder): (r: seq<Activity>)
    ensures Seqs.IsSubsequence(r, data)
    ensures forall a :: a in r <==> a in data && Matches(a, c, onOrAfter)
    ensures forall a :: multiset(r)[a] == if Matches(a, c, onOrAfter) then multiset(data)[a] else 0
  {
    Seqs.Filter(data, Keeps(c, onOrAfter))
  }

  /** With the tool bar empty every activity is shown. */
  lemma NoCriteriaKeepsAll(data: seq<Activity>, onOrAfter: DateOrder)
    ensures FilterActivities(data, NoCriteria, onOrAfter) == data
  {
    Seqs.FilterAll(data, Keeps(NoCriteria, onOrAfter));
  }

  /** Filtering the price-ordered list keeps it ordered by price. */
  lemma FilterKeepsPriceOrder(data: seq<Activity>, c: Criteria, onOrAfter: DateOrder)
    requires forall i, j :: 0 <= i < j < |data| ==> data[i].price <= data[j].price
    ensures var r := FilterActivities(data, c, onOrAfter);
      forall i, j :: 0 <= i < j < |r| ==> r[i].price <= r[j].price
  {
    var r := FilterActivities(data, c, onOrAfter);
    assert Sorting.SortedBy(data, PriceLe);
    Sorting.SubsequenceOfSorted(r, data, PriceLe);
    assert forall i, j :: 0 <= i < j < |r| ==> PriceLe(r[i], r[j]);
  }

  /** A budget only ever hides activities: raising it shows everything shown before. */
  lemma RaisingBudgetShowsMore(data: seq<Activity>, c: Criteria, onOrAfter: DateOrder, low: int, high: int)
    requires low <= high
    ensures forall a :: a in FilterActivities(data, c.(budget := Some(low)), onOrAfter) ==>
                        a in FilterActivities(data, c.(budget := Some(high)), onOrAfter)
  {
  }
}

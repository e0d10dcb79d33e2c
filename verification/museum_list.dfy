/** The museum list page: formatting of the fetched museums, the text truncation helpers,
    the search-and-tag filter, and the museum selected by the id at the end of the URL. */
module MuseumList {
  import opened Base
  import Strings
  import Seqs

  // ---------------------------------------------------------------------------
  // getMuseums: the fetched records and their formatted form
  // ---------------------------------------------------------------------------

  datatype RawTag = RawTag(name: Option<string>)
  datatype RawLocation = RawLocation(name: Option<string>, latitude: Option<int>, longitude: Option<int>)
  datatype RawTicketPrices = RawTicketPrices(foreigner: Option<int>, native: Option<int>, student: Option<int>)

  /** A museum as the server sends it; `location` and `ticket_prices` are dereferenced without
      a guard, so a record lacking either makes the whole fetch fail. */
  datatype RawMuseum = RawMuseum(id: string, name: Option<string>, tags: Option<seq<RawTag>>,
                                 description: Option<string>, category: Option<string>,
                                 pictures: Option<seq<string>>, location: Option<RawLocation>,
                                 openingHours: Option<string>, ticketPrices: Option<RawTicketPrices>)

  datatype Location = Location(name: string, latitude: int, longitude: int)
  datatype TicketPrices = TicketPrices(foreigner: int, native: int, student: int)

  /** The `Museum` record the page works with. */
  datatype Museum = Museum(id: string, name: string, tags: seq<string>, description: string,
                           category: string, pictures: seq<string>, location: Location,
                           openingHours: string, ticketPrices: TicketPrices)

  const NotAvailable: string := "N/A"

  /** `tags.map(tag => tag.name ?? "N/A")`. */
  function TagNames(tags: seq<RawTag>): (names: seq<string>)
    ensures |names| == |tags|
    ensures forall i :: 0 <= i < |tags| ==> names[i] == tags[i].name.OrElse(NotAvailable)
  {
    seq(|tags|, i requires 0 <= i < |tags| => tags[i].name.OrElse(NotAvailable))
  }

  /** How a formatted museum relates to its record: `??` replaces only a missing value (an
      empty string or a zero is kept), by "N/A", 0 or the empty list. */
  ghost predicate FormattedFrom(m: Museum, item: RawMuseum) {
    && item.location.Some? && item.ticketPrices.Some?
    && m.id == item.id
    && (if item.name.Some? then m.name == item.name.value else m.name == NotAvailable)
    && (if item.description.Some? then m.description == item.description.value else m.description == NotAvailable)
    && (if item.category.Some? then m.category == item.category.value else m.category == NotAvailable)
    && (if item.openingHours.Some? then m.openingHours == item.openingHours.value else m.openingHours == NotAvailable)
    && (if item.pictures.Some? then m.pictures == item.pictures.value else m.pictures == [])
    && (if item.tags.Some? then m.tags == TagNames(item.tags.value) else m.tags == [])
    && m.location == Location(item.location.value.name.OrElse(NotAvailable),
                              item.location.value.latitude.OrElse(0), item.location.value.longitude.OrElse(0))
    && m.ticketPrices == TicketPrices(item.ticketPrices.value.foreigner.OrElse(0),
                                      item.ticketPrices.value.native.OrElse(0), item.ticketPrices.value.student.OrElse(0))
  }

  /** One record of `getMuseums`; `None` when the record lacks `location` or `ticket_prices`. */
  function FormatMuseum(item: RawMuseum): (r: Option<Museum>)
    ensures r.Some? <==> item.location.Some? && item.ticketPrices.Some?
    ensures r.Some? ==> FormattedFrom(r.value, item)
  {
    match (item.location, item.ticketPrices)
    case (Some(loc), Some(tp)) =>
      Some(Museum(item.id, item.name.OrElse(NotAvailable), TagNames(item.tags.OrElse([])),
                  item.description.OrElse(NotAvailable), item.category.OrElse(NotAvailable),
                  item.pictures.OrElse([]),
                  Location(loc.name.OrElse(NotAvailable), loc.latitude.OrElse(0), loc.longitude.OrElse(0)),
                  item.openingHours.OrElse(NotAvailable),
                  TicketPrices(tp.foreigner.OrElse(0), tp.native.OrElse(0), tp.student.OrElse(0))))
    case _ => None
  }

  /** `getMuseums`: every record formatted, in order, or `None` when one of them fails. */
  function FormatMuseums(items: seq<RawMuseum>): (r: Option<seq<Museum>>)
    ensures r.Some? <==> forall i :: 0 <= i < |items| ==> FormatMuseum(items[i]).Some?
    ensures r.Some? ==> |r.value| == |items| && forall i :: 0 <= i < |items| ==> FormattedFrom(r.value[i], items[i])
    decreases |items|
  {
    if |items| == 0 then
      Some([])
    else
      match FormatMuseum(items[0])
      case None => None
      case Some(m) =>
        match FormatMuseums(items[1..])
        case None => None
        case Some(rest) =>
          assert forall i :: 1 <= i < |items| ==> items[i] == items[1..][i - 1];
          Some([m] + rest)
  }

  /** The record the server would send for a museum with every field present. */
  function ToRecord(m: Museum): RawMuseum {
    RawMuseum(m.id, Some(m.name), Some(seq(|m.tags|, i requires 0 <= i < |m.tags| => RawTag(Some(m.tags[i])))),
              Some(m.description), Some(m.category), Some(m.pictures),
              Some(RawLocation(Some(m.location.name), Some(m.location.latitude), Some(m.location.longitude))),
              Some(m.openingHours),
              Some(RawTicketPrices(Some(m.ticketPrices.foreigner), Some(m.ticketPrices.native), Some(m.ticketPrices.student))))
  }

  /** Formatting loses nothing of a complete record: it gives back the museum it describes. */
  lemma FormatCompleteRecord(m: Museum)
    ensures FormatMuseum(ToRecord(m)) == Some(m)
  {
    var r := FormatMuseum(ToRecord(m));
    assert r.value.tags == m.tags;
  }

  // ---------------------------------------------------------------------------
  // formatLocation and formatDescription
  // ---------------------------------------------------------------------------

  const LocationWidth: nat := 5 * 4
  const DescriptionWidth: nat := 5 * 15 * 4

  /** `formatLocation`: at most 20 characters, longer names cut to 20 and marked by "...". */
  function FormatLocation(location: string): (r: string)
    ensures |location| <= 20 ==> r == location
    ensures |location| > 20 ==> |r| == 23 && r[..20] == location[..20] && r[20..] == "..."
  {
    Strings.Truncate(location, LocationWidth)
  }

  /** `formatDescription`: at most 300 characters, longer texts cut to 300 and marked by "...". */
  function FormatDescription(description: string): (r: string)
    ensures |description| <= 300 ==> r == description
    ensures |description| > 300 ==> |r| == 303 && r[..300] == description[..300] && r[300..] == "..."
  {
    Strings.Truncate(description, DescriptionWidth)
  }

  // ---------------------------------------------------------------------------
  // the search and tag filter
  // ---------------------------------------------------------------------------

  /** The query is found, ignoring case, in the name, the category or one of the tags. */
  predicate MatchesSearch(m: Museum, query: string) {
    || Strings.IncludesIgnoringCase(m.name, query)
    || Strings.IncludesIgnoringCase(m.category, query)
    || exists k :: 0 <= k < |m.tags| && Strings.IncludesIgnoringCase(m.tags[k], query)
  }

  /** No tag is selected, or the museum carries exactly the selected tag. */
  predicate MatchesTag(m: Museum, tag: string) {
    tag == "" || tag in m.tags
  }

  function Keeps(query: string, tag: string): Museum -> bool {
    (m: Museum) => MatchesSearch(m, query) && MatchesTag(m, tag)
  }

  /** `data.filter(...)`: the museums matching both the search query and the selected tag,
      in their original order. */
  function FilterMuseums(data: seq<Museum>, query: string, tag: string): (r: seq<Museum>)
    ensures Seqs.IsSubsequence(r, data)
    ensures forall m :: m in r <==> m in data && MatchesSearch(m, query) && MatchesTag(m, tag)
    ensures forall m :: multiset(r)[m] == if MatchesSearch(m, query) && MatchesTag(m, tag) then multiset(data)[m] else 0
  {
    Seqs.Filter(data, Keeps(query, tag))
  }

  /** With an empty query and no tag selected the whole list is shown. */
  lemma EmptyFilterKeepsAll(data: seq<Museum>)
    ensures FilterMuseums(data, "", "") == data
  {
    forall i | 0 <= i < |data|
      ensures Keeps("", "")(data[i])
    {
      Strings.EmptyQueryMatches(data[i].name);
    }
    Seqs.FilterAll(data, Keeps("", ""));
  }

  // ---------------------------------------------------------------------------
  // the museum named by the URL
  // ---------------------------------------------------------------------------

  /** `url.split("/").pop()`. */
  function MuseumIdFromUrl(url: string): (id: string)
    ensures '/' !in id
    ensures |id| <= |url| && id == url[|url| - |id|..]
    ensures |id| < |url| ==> url[|url| - |id| - 1] == '/'
  {
    Strings.LastSegment(url, '/')
  }

  /** A URL ending in `/` and an id (which holds no `/`) names that id. */
  lemma UrlEndingInId(prefix: string, id: string)
    requires '/' !in id
    ensures MuseumIdFromUrl(prefix + "/" + id) == id
  {
    assert prefix + "/" + id == prefix + ['/'] + id;
    Strings.LastSegmentAfterSeparator(prefix, id, '/');
  }

  /** The search query once the museums have loaded: the name of the first museum whose id is
      the last segment of the URL, or the current query when none has it. */
  method SearchQueryFromUrl(data: seq<Museum>, url: string, current: string) returns (query: string)
    ensures var id := MuseumIdFromUrl(url);
      || (exists k :: 0 <= k < |data| && data[k].id == id && query == data[k].name
                      && forall j :: 0 <= j < k ==> data[j].id != id)
      || ((forall k :: 0 <= k < |data| ==> data[k].id != id) && query == current)
  {
    var id := MuseumIdFromUrl(url);
    query := current;
    var i := 0;
    while i < |data|
      invariant 0 <= i <= |data|
      invariant forall j :: 0 <= j < i ==> data[j].id != id
    {
      if data[i].id == id {
        query := data[i].name;
        return;
      }
      i := i + 1;
    }
  }
}

/** The museum controller: ticket-price localisation in `getAllMuseums`, the `tagIds` query
    parsing of `findMuseumsByTags`, and the creator stamping of `createMuseum`.
    The currency converter, the ObjectId constructor and the repository are parameters. */
module MuseumController {
  import opened Base
  import Strings

  datatype TicketPrices = TicketPrices(foreigner: Option<int>, native: Option<int>, student: Option<int>)

  /** The museum fields the controller touches; every other field travels unchanged. */
  datatype Museum = Museum(id: string, name: string, tags: seq<string>,
                           createdBy: Option<string>, ticketPrices: Option<TicketPrices>)

  /** `currencyConverterService.convertPrice(amount, currency)`: a converted amount or the
      error the service rejects with. */
  type Converter = (int, string) -> Result<int, string>

  const MuseumsFetched: string := "Museums fetched successfully"
  const MuseumCreated: string := "Museum created successfully"
  const MissingTagIds: string := "Invalid or missing tagIds parameter"

  // ---------------------------------------------------------------------------
  // getAllMuseums
  // ---------------------------------------------------------------------------

  /** How one ticket price field relates before and after localisation: a truthy amount is
      replaced by its conversion, a missing or zero one is left exactly as it was. */
  ghost predicate FieldLocalised(before: Option<int>, after: Option<int>, currency: string, convert: Converter) {
    if TruthyNumber(before) then
      convert(before.value, currency).Ok? && after == Some(convert(before.value, currency).value)
    else
      after == before
  }

  /** `if (field) field = await convertPrice(field, currency)`. */
  function LocaliseField(field: Option<int>, currency: string, convert: Converter): (r: Result<Option<int>, string>)
    ensures r.Ok? <==> !TruthyNumber(field) || convert(field.value, currency).Ok?
    ensures r.Ok? ==> FieldLocalised(field, r.value, currency, convert)
  {
    if TruthyNumber(field) then
      match convert(field.value, currency)
      case Ok(v) => Ok(Some(v))
      case Err(e) => Err(e)
    else
      Ok(field)
  }

  /** Every field of the museum converts (or is left alone). */
  ghost predicate Localisable(m: Museum, currency: string, convert: Converter) {
    m.ticketPrices.Some? ==>
      && (!TruthyNumber(m.ticketPrices.value.foreigner) || convert(m.ticketPrices.value.foreigner.value, currency).Ok?)
      && (!TruthyNumber(m.ticketPrices.value.native) || convert(m.ticketPrices.value.native.value, currency).Ok?)
      && (!TruthyNumber(m.ticketPrices.value.student) || convert(m.ticketPrices.value.student.value, currency).Ok?)
  }

  /** One museum of `getAllMuseums`: foreigner, native and student prices each converted when
      truthy; a museum without ticket prices, and every other field, stay as they were. */
  function LocaliseMuseum(m: Museum, currency: string, convert: Converter): (r: Result<Museum, string>)
    ensures r.Ok? <==> Localisable(m, currency, convert)
    ensures r.Ok? ==> r.value.(ticketPrices := m.ticketPrices) == m
    ensures r.Ok? ==> (r.value.ticketPrices.Some? <==> m.ticketPrices.Some?)
    ensures r.Ok? && m.ticketPrices.Some? ==>
              && FieldLocalised(m.ticketPrices.value.foreigner, r.value.ticketPrices.value.foreigner, currency, convert)
              && FieldLocalised(m.ticketPrices.value.native, r.value.ticketPrices.value.native, currency, convert)
              && FieldLocalised(m.ticketPrices.value.student, r.value.ticketPrices.value.student, currency, convert)
  {
    match m.ticketPrices
    case None => Ok(m)
    case Some(tp) =>
      match LocaliseField(tp.foreigner, currency, convert)
      case Err(e) => Err(e)
      case Ok(foreigner) =>
        match LocaliseField(tp.native, currency, convert)
        case Err(e) => Err(e)
        case Ok(native) =>
          match LocaliseField(tp.student, currency, convert)
          case Err(e) => Err(e)
          case Ok(student) => Ok(m.(ticketPrices := Some(TicketPrices(foreigner, native, student))))
  }

  /** `Promise.all(museums.map(...))`: the localised list, in the same order and of the same
      length, or the error of the first museum (in list order) whose conversion fails. */
  function LocaliseAll(ms: seq<Museum>, currency: string, convert: Converter): (r: Result<seq<Museum>, string>)
    ensures r.Ok? <==> forall i :: 0 <= i < |ms| ==> Localisable(ms[i], currency, convert)
    ensures r.Ok? ==> |r.value| == |ms|
    ensures r.Ok? ==> forall i :: 0 <= i < |ms| ==> LocaliseMuseum(ms[i], currency, convert) == Ok(r.value[i])
    decreases |ms|
  {
    if |ms| == 0 then
      Ok([])
    else
      match LocaliseMuseum(ms[0], currency, convert)
      case Err(e) => Err(e)
      case Ok(m) =>
        match LocaliseAll(ms[1..], currency, convert)
        case Err(e) => Err(e)
        case Ok(rest) =>
          assert forall i :: 1 <= i < |ms| ==> ms[i] == ms[1..][i - 1];
          Ok([m] + rest)
  }

  /** The JSON envelope of `getAllMuseums`: `{message, data: {museums}, currency}` on success,
      `{message, data: []}` on failure. */
  datatype MuseumsResponse = MuseumsResponse(status: int, message: string, museums: seq<Museum>, currency: Option<string>)

  /** `getAllMuseums`: `stored` is the repository read (`Err` when it throws). */
  function GetAllMuseums(stored: Result<seq<Museum>, string>, currency: string, convert: Converter): (r: MuseumsResponse)
    ensures r.status == OK <==> stored.Ok? && LocaliseAll(stored.value, currency, convert).Ok?
    ensures r.status == OK ==>
              r.currency == Some(currency) && r.message == MuseumsFetched
              && r.museums == LocaliseAll(stored.value, currency, convert).value
    ensures r.status != OK ==> r.status == BAD_REQUEST && r.museums == [] && r.currency == None
  {
    match stored
    case Err(e) => MuseumsResponse(BAD_REQUEST, e, [], None)
    case Ok(ms) =>
      match LocaliseAll(ms, currency, convert)
      case Err(e) => MuseumsResponse(BAD_REQUEST, e, [], None)
      case Ok(localised) => MuseumsResponse(OK, MuseumsFetched, localised, Some(currency))
  }

  /** Localisation changes ticket prices only: names, ids, tags and creators of the listed
      museums are those of the stored ones, position by position. */
  lemma LocalisationKeepsOtherFields(ms: seq<Museum>, currency: string, convert: Converter)
    requires LocaliseAll(ms, currency, convert).Ok?
    ensures var r := LocaliseAll(ms, currency, convert).value;
      forall i :: 0 <= i < |ms| ==>
        r[i].id == ms[i].id && r[i].name == ms[i].name && r[i].tags == ms[i].tags && r[i].createdBy == ms[i].createdBy
  {
    var r := LocaliseAll(ms, currency, convert).value;
    forall i | 0 <= i < |ms|
      ensures r[i].id == ms[i].id && r[i].name == ms[i].name && r[i].tags == ms[i].tags && r[i].createdBy == ms[i].createdBy
    {
      assert r[i].(ticketPrices := ms[i].ticketPrices) == ms[i];
    }
  }

  /** The worked example: at a rate of 0.9 to EUR, prices 100 and 50 become 90 and 45 and the
      absent student price stays absent. */
  lemma LocaliseScenario()
    ensures var convert: Converter := (amount: int, c: string) => if c == "EUR" then Ok(amount * 9 / 10) else Err("unsupported");
      var m := Museum("m", "Museum", [], None, Some(TicketPrices(Some(100), Some(50), None)));
      LocaliseMuseum(m, "EUR", convert) == Ok(m.(ticketPrices := Some(TicketPrices(Some(90), Some(45), None))))
  {
  }

  // ---------------------------------------------------------------------------
  // findMuseumsByTags
  // ---------------------------------------------------------------------------

  /** The shapes `req.query.tagIds` can take. */
  datatype TagQuery = QueryString(text: string) | QueryArray(items: seq<string>) | QueryMissing

  /** The `tagIds` list: a string is split on commas, an array is taken element-wise, anything
      else gives the empty list. */
  function ParseTagIds(q: TagQuery): (ids: seq<string>)
    ensures q.QueryString? ==>
              |ids| >= 1 && Strings.Join(ids, ',') == q.text
              && forall i :: 0 <= i < |ids| ==> ',' !in ids[i]
    ensures q.QueryArray? ==> ids == q.items
    ensures q.QueryMissing? ==> ids == []
  {
    match q
    case QueryString(text) => Strings.Split(text, ',')
    case QueryArray(items) => items
    case QueryMissing => []
  }

  /** The list is empty exactly for a missing parameter or an empty array: a string, even the
      empty one, always yields at least one id (`"".split(",")` is `[""]`). */
  lemma ParseTagIdsEmpty(q: TagQuery)
    ensures ParseTagIds(q) == [] <==> q.QueryMissing? || q == QueryArray([])
  {
  }

  /** `tagIds.map(id => new mongoose.Types.ObjectId(id))`: the first id the constructor rejects
      aborts the conversion. */
  function ToObjectIds(ids: seq<string>, toObjectId: string -> Result<string, string>): (r: Result<seq<string>, string>)
    ensures r.Ok? <==> forall i :: 0 <= i < |ids| ==> toObjectId(ids[i]).Ok?
    ensures r.Ok? ==> |r.value| == |ids| && forall i :: 0 <= i < |ids| ==> r.value[i] == toObjectId(ids[i]).value
    decreases |ids|
  {
    if |ids| == 0 then
      Ok([])
    else
      match toObjectId(ids[0])
      case Err(e) => Err(e)
      case Ok(oid) =>
        match ToObjectIds(ids[1..], toObjectId)
        case Err(e) => Err(e)
        case Ok(rest) =>
          assert forall i :: 1 <= i < |ids| ==> ids[i] == ids[1..][i - 1];
          Ok([oid] + rest)
  }

  /** The answer of `findMuseumsByTags`: the bare museum list with status 200, or
      `{message, data: []}` with status 400. */
  datatype TagsResponse = Found(museums: seq<Museum>) | Rejected(message: string) {
    function Status(): int {
      if Found? then OK else BAD_REQUEST
    }
  }

  /** `findMuseumsByTags`; `find` is the repository query on the converted ids. */
  function FindMuseumsByTags(q: TagQuery, toObjectId: string -> Result<string, string>,
                             find: seq<string> -> Result<seq<Museum>, string>): (r: TagsResponse)
    ensures ParseTagIds(q) == [] ==> r == Rejected(MissingTagIds)
    ensures r.Found? <==>
              ParseTagIds(q) != [] && ToObjectIds(ParseTagIds(q), toObjectId).Ok?
              && find(ToObjectIds(ParseTagIds(q), toObjectId).value).Ok?
    ensures r.Found? ==> r.museums == find(ToObjectIds(ParseTagIds(q), toObjectId).value).value
  {
    var ids := ParseTagIds(q);
    if |ids| == 0 then
      Rejected(MissingTagIds)
    else
      match ToObjectIds(ids, toObjectId)
      case Err(e) => Rejected(e)
      case Ok(oids) =>
        match find(oids)
        case Err(e) => Rejected(e)
        case Ok(museums) => Found(museums)
  }

  // ---------------------------------------------------------------------------
  // createMuseum
  // ---------------------------------------------------------------------------

  /** The answer of `createMuseum`: the new id with 201, or the error with 400. */
  datatype CreateResponse = CreateResponse(status: int, message: string, museumId: Option<string>)

  /** `createMuseum`: what the repository is asked to persist, and the answer. */
  datatype CreateOutcome = CreateOutcome(persisted: Museum, response: CreateResponse)

  function CreateMuseum(body: Museum, userId: string, store: Museum -> Result<string, string>): (o: CreateOutcome)
    ensures o.persisted.createdBy == Some(userId)
    ensures o.persisted.(createdBy := body.createdBy) == body
    ensures o.response.status == CREATED <==> store(o.persisted).Ok?
    ensures o.response.status == CREATED ==> o.response.museumId == Some(store(o.persisted).value)
    ensures o.response.status != CREATED ==> o.response.status == BAD_REQUEST && o.response.museumId == None
  {
    var museum := body.(createdBy := Some(userId));
    match store(museum)
    case Ok(id) => CreateOutcome(museum, CreateResponse(CREATED, MuseumCreated, Some(id)))
    case Err(e) => CreateOutcome(museum, CreateResponse(BAD_REQUEST, e, None))
  }
}

/**
 * `GET /api/getCoffeeStoreById?id=` (pages/api/getCoffeeStoreById.ts): a
 * read-only lookup of a stored coffee store.
 */
module GetCoffeeStore {
  import opened Js
  import opened Airtable
  import opened Api

  /** A query-string parameter: absent, given once, or repeated. */
  datatype QueryParam = Missing | Single(value: string) | Repeated(values: seq<string>)

  const LookupPrefix: string := "Something went wrong while trying to get a coffee store by id, "
  const IdMissing: string := "The id of the coffee store is missing from the request"

  /** The message of the TypeError `undefined.toString()` raises. */
  const UndefinedToStringError: string := "Cannot read properties of undefined (reading 'toString')"

  /** `id.toString()` (and `${id}`) for a present parameter: repeated values are joined by commas. */
  function QueryText(id: QueryParam): string
    requires !id.Missing?
  {
    if id.Single? then id.value else Join(id.values, ",")
  }

  function NotFound(idText: string): string {
    "The coffee store could not be found for id: " + idText
  }

  /**
   * The handler's response; it takes the table's rows and gives back only
   * a response, so it cannot write. `lookupError` is the message of the
   * error the hosted table raises on the lookup, if it does. An absent id
   * passes the id check and then fails at `id.toString()`.
   */
  function GetCoffeeStoreById(rows: seq<Row>, id: QueryParam, lookupError: Option<string>): (res: Response)
    ensures res.Reply?
    ensures res.status == Some(400) <==> id == Single("")
    ensures res.status == Some(400) ==> res.body == Message(IdMissing)
    ensures res.status == Some(500) <==> id.Missing? || (id != Single("") && lookupError.Some?)
    ensures res.status == Some(500) ==>
      res.body == Message(LookupPrefix + (if id.Missing? then UndefinedToStringError else lookupError.value))
    ensures res.status.None? ==> !id.Missing? && lookupError.None?
    ensures res.status.None? && res.body.Records? ==>
      && res.body.records == FindRecordByFilter(rows, QueryText(id))
      && res.body.records != []
      && forall r :: r in res.body.records ==> Get(r, "id") == Str(QueryText(id))
    ensures res.status.None? && res.body.Message? ==>
      && res.body.text == NotFound(QueryText(id))
      && forall x :: x in rows ==> !HasId(x, QueryText(id))
  {
    if id == Single("") then
      Reply(Some(400), Message(IdMissing))
    else if id.Missing? then
      Reply(Some(500), Message(LookupPrefix + UndefinedToStringError))
    else if lookupError.Some? then
      Reply(Some(500), Message(LookupPrefix + lookupError.value))
    else
      var records := FindRecordByFilter(rows, QueryText(id));
      if |records| != 0 then Reply(None, Records(records))
      else Reply(None, Message(NotFound(QueryText(id))))
  }

  /** A stored store is answered with every matching record of the first page, in table order. */
  lemma StoredStoreIsFound(rows: seq<Row>, key: string, x: Row)
    requires key != "" && x in rows && HasId(x, key)
    ensures GetCoffeeStoreById(rows, Single(key), None) == Reply(None, Records(FindRecordByFilter(rows, key)))
    ensures |FindRecordByFilter(rows, key)| == |Matching(rows, key)| || |FindRecordByFilter(rows, key)| == PageSize
  {
  }
}

/**
 * `POST /api/createCoffeeStore` (pages/api/createCoffeeStore.ts): find the
 * store by id in the hosted table, or create it from the request body.
 */
module CreateCoffeeStore {
  import opened Js
  import opened Airtable
  import opened Api

  /** `req.body`: each field is whatever JSON the client sent, `undefined` when left out. */
  datatype StoreBody = StoreBody(
    id: JsValue, name: JsValue, neighbourhood: JsValue,
    address: JsValue, voting: JsValue, imgUrl: JsValue)

  datatype Request = Request(httpMethod: string, body: StoreBody)

  const IssuePrefix: string := "There has been an issue trying to create or find a coffee store, "
  const IdMissing: string := "The id of coffee store is missing from the request"
  const NameMissing: string := "The coffee store name is missing from the request"

  function WrongMethod(httpMethod: string): string {
    "This API endpoint expects a POST request, the method used was " + httpMethod
  }

  /** The fields of the record `table.create` is given: copied from the body. */
  function NewStoreFields(b: StoreBody): (f: map<string, JsValue>)
    ensures f.Keys == Columns
  {
    map["id" := b.id, "name" := b.name, "address" := b.address,
        "neighbourhood" := b.neighbourhood, "voting" := b.voting, "imgUrl" := b.imgUrl]
  }

  /** The row `table.create` appends to `rows` for this body. */
  function NewRow(rows: seq<Row>, b: StoreBody): Row {
    Row(RecordId(|rows|), NewStoreFields(b))
  }

  /**
   * The handler's response and the table it leaves behind. `lookupError`
   * and `createError` are the messages of the errors the hosted table
   * raises on the lookup and on the create, if it does.
   */
  function CreateOutcome(rows: seq<Row>, req: Request, lookupError: Option<string>, createError: Option<string>): (out: Outcome)
    ensures out.rows == rows || out.rows == rows + [NewRow(rows, req.body)]
    ensures out.rows != rows <==>
      && req.httpMethod == "POST" && IdGiven(req.body.id) && lookupError.None?
      && (forall x :: x in rows ==> !HasId(x, ToText(req.body.id)))
      && Truthy(req.body.name) && createError.None?
  {
    if req.httpMethod != "POST" then
      Outcome(Reply(Some(500), Message(WrongMethod(req.httpMethod))), rows)
    else if !IdGiven(req.body.id) then
      Outcome(Reply(Some(400), Message(IdMissing)), rows)
    else if lookupError.Some? then
      Outcome(Reply(Some(500), Message(IssuePrefix + lookupError.value)), rows)
    else
      var records := FindRecordByFilter(rows, ToText(req.body.id));
      if |records| > 0 then
        Outcome(Reply(Some(200), Records(records)), rows)
      else if !Truthy(req.body.name) then
        Outcome(Reply(Some(400), Message(NameMissing)), rows)
      else if createError.Some? then
        Outcome(Reply(Some(500), Message(IssuePrefix + createError.value)), rows)
      else
        var created := [NewRow(rows, req.body)];
        assert rows + created != rows by { assert |rows + created| == |rows| + 1; }
        Outcome(Reply(None, Records(GetMinifiedRecords(created))), rows + created)
  }

  /** The route handler, run against the hosted table. */
  method Handler(table: Table, req: Request, lookupError: Option<string>, createError: Option<string>)
    returns (res: Response)
    requires table.Valid()
    modifies table
    ensures table.Valid()
    ensures Outcome(res, table.rows) == CreateOutcome(old(table.rows), req, lookupError, createError)
  {
    if req.httpMethod == "POST" {
      var b := req.body;
      if b.id != Null && b.id != Str("") {
        if lookupError.Some? {
          res := Reply(Some(500), Message(IssuePrefix + lookupError.value));
          return;
        }
        var records := FindRecordByFilter(table.rows, ToText(b.id));
        if |records| > 0 {
          res := Reply(Some(200), Records(records));
        } else if Truthy(b.name) {
          if createError.Some? {
            res := Reply(Some(500), Message(IssuePrefix + createError.value));
            return;
          }
          var created := table.Create(NewStoreFields(b));
          res := Reply(None, Records(GetMinifiedRecords(created)));
        } else {
          res := Reply(Some(400), Message(NameMissing));
        }
      } else {
        res := Reply(Some(400), Message(IdMissing));
      }
    } else {
      res := Reply(Some(500), Message(WrongMethod(req.httpMethod)));
    }
  }

  /** A non-POST request is answered 500 naming the method; the table is untouched. */
  lemma WrongMethodIsRefused(rows: seq<Row>, req: Request, lookupError: Option<string>, createError: Option<string>)
    requires req.httpMethod != "POST"
    ensures CreateOutcome(rows, req, lookupError, createError)
      == Outcome(Reply(Some(500), Message(WrongMethod(req.httpMethod))), rows)
  {
  }

  /** Only a `null` or `''` id is refused with 400; the table is untouched. */
  lemma MissingIdIsRefused(rows: seq<Row>, req: Request, lookupError: Option<string>, createError: Option<string>)
    requires req.httpMethod == "POST"
    ensures CreateOutcome(rows, req, lookupError, createError).response == Reply(Some(400), Message(IdMissing))
      <==> (req.body.id == Null || req.body.id == Str(""))
  {
  }

  /** A store already in the table is answered 200 with every matching record; nothing is created. */
  lemma FoundStoreIsReturned(rows: seq<Row>, req: Request, createError: Option<string>, x: Row)
    requires req.httpMethod == "POST" && IdGiven(req.body.id)
    requires x in rows && HasId(x, ToText(req.body.id))
    ensures CreateOutcome(rows, req, None, createError)
      == Outcome(Reply(Some(200), Records(FindRecordByFilter(rows, ToText(req.body.id)))), rows)
    ensures FindRecordByFilter(rows, ToText(req.body.id)) != []
  {
  }

  /**
   * An unknown store with a truthy name is appended as one record holding
   * the body's six values (`voting` as sent, not reset), and that record is
   * answered minified, with its new record id.
   */
  lemma UnknownStoreIsCreated(rows: seq<Row>, req: Request)
    requires req.httpMethod == "POST" && IdGiven(req.body.id) && Truthy(req.body.name)
    requires forall x :: x in rows ==> !HasId(x, ToText(req.body.id))
    ensures var out := CreateOutcome(rows, req, None, None);
      var r := GetMinifiedRecord(NewRow(rows, req.body));
      && out.rows == rows + [NewRow(rows, req.body)]
      && out.response == Reply(None, Records([r]))
      && r.Keys == Columns + {"recordId"}
      && r["recordId"] == Str(RecordId(|rows|))
      && r["id"] == req.body.id && r["name"] == req.body.name
      && r["address"] == req.body.address && r["neighbourhood"] == req.body.neighbourhood
      && r["voting"] == req.body.voting && r["imgUrl"] == req.body.imgUrl
  {
    var row := NewRow(rows, req.body);
    MinifiedRecordIdOfSchemaRow(row);
    assert FindRecordByFilter(rows, ToText(req.body.id)) == [];
    assert GetMinifiedRecords([row]) == [GetMinifiedRecord(row)];
    var r := GetMinifiedRecord(row);
    assert r.Keys == Columns + {"recordId"};
    assert r["id"] == row.fields["id"] == req.body.id;
  }

  /** An unknown store without a truthy name is refused with 400; the table is untouched. */
  lemma NamelessStoreIsRefused(rows: seq<Row>, req: Request, createError: Option<string>)
    requires req.httpMethod == "POST" && IdGiven(req.body.id) && !Truthy(req.body.name)
    requires forall x :: x in rows ==> !HasId(x, ToText(req.body.id))
    ensures CreateOutcome(rows, req, None, createError) == Outcome(Reply(Some(400), Message(NameMissing)), rows)
  {
  }

  /**
   * Any error the table raises is answered 500 with the issue prefix; the
   * table is untouched. A lookup error always ends the request; a create
   * error does when the request reaches the create call.
   */
  lemma TableErrorIsReported(rows: seq<Row>, req: Request, lookupError: Option<string>, createError: Option<string>)
    requires req.httpMethod == "POST" && IdGiven(req.body.id)
    requires lookupError.Some? || createError.Some?
    ensures var out := CreateOutcome(rows, req, lookupError, createError);
      out.rows == rows &&
      (out.response.status == Some(500) ==>
        exists m :: (lookupError == Some(m) || createError == Some(m)) && out.response.body == Message(IssuePrefix + m))
    ensures lookupError.Some? ==>
      CreateOutcome(rows, req, lookupError, createError)
        == Outcome(Reply(Some(500), Message(IssuePrefix + lookupError.value)), rows)
    ensures lookupError.None? && (forall x :: x in rows ==> !HasId(x, ToText(req.body.id))) && Truthy(req.body.name) ==>
      CreateOutcome(rows, req, lookupError, createError)
        == Outcome(Reply(Some(500), Message(IssuePrefix + createError.value)), rows)
  {
    var out := CreateOutcome(rows, req, lookupError, createError);
    if out.response.status == Some(500) {
      if lookupError.Some? {
        assert out.response.body == Message(IssuePrefix + lookupError.value);
      } else {
        assert out.response.body == Message(IssuePrefix + createError.value);
      }
    }
  }

  /** The handler keeps the table's schema and record ids. */
  lemma CreateKeepsTableWellFormed(rows: seq<Row>, req: Request, lookupError: Option<string>, createError: Option<string>)
    requires WellFormed(rows)
    ensures WellFormed(CreateOutcome(rows, req, lookupError, createError).rows)
  {
  }

  /**
   * Ensure is idempotent for a string id: once a request has succeeded,
   * repeating it finds the store, answers 200 and adds no row.
   */
  lemma {:induction false} EnsureIsIdempotent(rows: seq<Row>, req: Request, key: string)
    requires req.httpMethod == "POST" && req.body.id == Str(key) && key != ""
    requires CreateOutcome(rows, req, None, None).response.Reply?
    requires CreateOutcome(rows, req, None, None).response.body.Records?
    ensures var first := CreateOutcome(rows, req, None, None);
      var second := CreateOutcome(first.rows, req, None, None);
      && second.rows == first.rows
      && second.response == Reply(Some(200), Records(FindRecordByFilter(first.rows, key)))
      && FindRecordByFilter(first.rows, key) != []
  {
    var first := CreateOutcome(rows, req, None, None);
    if first.rows == rows {
      assert FindRecordByFilter(rows, key) != [];
    } else {
      var row := NewRow(rows, req.body);
      assert first.rows == rows + [row];
      MatchingAppend(rows, [row], key);
      assert HasId(row, key);
      assert Matching([row], key) == [row];
      assert row in first.rows;
    }
  }

  /**
   * An absent id is not refused: the lookup runs on the text "undefined",
   * the row is created without an id, and so every such request with a
   * truthy name appends another row.
   */
  lemma {:induction false} AbsentIdCreatesEveryTime(rows: seq<Row>, req: Request)
    requires req.httpMethod == "POST" && req.body.id == Undefined && Truthy(req.body.name)
    requires forall x :: x in rows ==> !HasId(x, "undefined")
    ensures var first := CreateOutcome(rows, req, None, None);
      var second := CreateOutcome(first.rows, req, None, None);
      && first.rows == rows + [NewRow(rows, req.body)]
      && second.rows == first.rows + [NewRow(first.rows, req.body)]
  {
    var first := CreateOutcome(rows, req, None, None);
    var row := NewRow(rows, req.body);
    assert !HasId(row, "undefined");
    assert forall x :: x in first.rows ==> !HasId(x, "undefined") by {
      assert first.rows == rows + [row];
      forall x | x in first.rows ensures !HasId(x, "undefined") {
        assert x in rows || x == row;
      }
    }
  }
}

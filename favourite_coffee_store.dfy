/**
 * `PUT /api/favouriteCoffeeStoreById` (pages/api/favouriteCoffeeStoreById.ts):
 * upvote a stored coffee store by one.
 */
module FavouriteCoffeeStore {
  import opened Js
  import opened Airtable
  import opened Api

  /** The method and `req.body.id`. */
  datatype Request = Request(httpMethod: string, id: JsValue)

  const ErrorPrefix: string := "There has been an error upvoting the coffee store, "
  const IdMissing: string := "The id of the coffee store is missing from the request"

  /**
   * The message of the error the hosted table raises for an update whose
   * record id names no record. Its wording is the service's and is not
   * part of this model.
   */
  const UnknownRecordError: string := "NOT_FOUND"

  function NotFound(idText: string): string {
    "The coffee store could not be found for id: " + idText
  }

  /** `calculateVoting`: the prior count plus one when truthy, else 1. */
  function CalculateVoting(prior: JsValue): (v: JsValue)
    ensures !Truthy(prior) ==> v == Num(1)
    ensures prior.Num? ==> v == Num(if prior.n == 0 then 1 else prior.n + 1)
    ensures prior.Str? && prior.s != "" ==> v == Str(prior.s + "1")
  {
    if Truthy(prior) then PlusOne(prior) else Num(1)
  }

  /**
   * The handler's response and the table it leaves behind. `lookupError`
   * and `updateError` are the messages of the errors the hosted table
   * raises on the lookup and on the update, if it does.
   */
  function VoteOutcome(rows: seq<Row>, req: Request, lookupError: Option<string>, updateError: Option<string>): (out: Outcome)
    ensures |out.rows| == |rows|
    ensures out.rows != rows ==> && req.httpMethod == "PUT" && IdGiven(req.id)
                                 && lookupError.None? && updateError.None?
                                 && exists x :: x in rows && HasId(x, ToText(req.id))
  {
    if req.httpMethod != "PUT" then
      Outcome(NoResponse, rows)
    else if !IdGiven(req.id) then
      Outcome(Reply(Some(400), Message(IdMissing)), rows)
    else if lookupError.Some? then
      Outcome(Reply(Some(500), Message(ErrorPrefix + lookupError.value)), rows)
    else
      var records := FindRecordByFilter(rows, ToText(req.id));
      if |records| == 0 then
        Outcome(Reply(None, Message(NotFound(ToText(req.id)))), rows)
      else
        var record := records[0];
        var voting := CalculateVoting(Get(record, "voting"));
        if updateError.Some? then
          Outcome(Reply(Some(500), Message(ErrorPrefix + updateError.value)), rows)
        else
          var (after, updated) := ApplyUpdate(rows, Get(record, "recordId"), map["voting" := voting]);
          match updated
          case None => Outcome(Reply(Some(500), Message(ErrorPrefix + UnknownRecordError)), rows)
          case Some(u) =>
            assert after != rows ==> exists x :: x in rows && HasId(x, ToText(req.id)) by {
              assert Matching(rows, ToText(req.id))[0] in Matching(rows, ToText(req.id));
            }
            Outcome(Reply(None, Records(GetMinifiedRecords(u))), after)
  }

  /** The route handler, run against the hosted table. */
  method Handler(table: Table, req: Request, lookupError: Option<string>, updateError: Option<string>)
    returns (res: Response)
    requires table.Valid()
    modifies table
    ensures table.Valid()
    ensures Outcome(res, table.rows) == VoteOutcome(old(table.rows), req, lookupError, updateError)
  {
    if req.httpMethod != "PUT" {
      res := NoResponse;
      return;
    }
    var id := req.id;
    if id != Null && id != Str("") {
      if lookupError.Some? {
        res := Reply(Some(500), Message(ErrorPrefix + lookupError.value));
        return;
      }
      var records := FindRecordByFilter(table.rows, ToText(id));
      if |records| != 0 {
        var record := records[0];
        var voting := CalculateVoting(Get(record, "voting"));
        if updateError.Some? {
          res := Reply(Some(500), Message(ErrorPrefix + updateError.value));
          return;
        }
        var updated := table.Update(Get(record, "recordId"), map["voting" := voting]);
        match updated
        case None =>
          res := Reply(Some(500), Message(ErrorPrefix + UnknownRecordError));
        case Some(u) =>
          res := Reply(None, Records(GetMinifiedRecords(u)));
      } else {
        res := Reply(None, Message(NotFound(ToText(id))));
      }
    } else {
      res := Reply(Some(400), Message(IdMissing));
    }
  }

  /** Any method but PUT gets no response and leaves the table alone. */
  lemma OnlyPutIsHandled(rows: seq<Row>, req: Request, lookupError: Option<string>, updateError: Option<string>)
    requires req.httpMethod != "PUT"
    ensures VoteOutcome(rows, req, lookupError, updateError) == Outcome(NoResponse, rows)
  {
  }

  /** A `null` or `''` id is answered 400 and nothing is written. */
  lemma MissingIdIsRefused(rows: seq<Row>, req: Request, lookupError: Option<string>, updateError: Option<string>)
    requires req.httpMethod == "PUT" && (req.id == Null || req.id == Str(""))
    ensures VoteOutcome(rows, req, lookupError, updateError) == Outcome(Reply(Some(400), Message(IdMissing)), rows)
  {
  }

  /** An unknown id gets the not-found message, with no status set and no write. */
  lemma UnknownIdIsNotWritten(rows: seq<Row>, req: Request, updateError: Option<string>)
    requires req.httpMethod == "PUT" && IdGiven(req.id)
    requires forall x :: x in rows ==> !HasId(x, ToText(req.id))
    ensures VoteOutcome(rows, req, None, updateError) == Outcome(Reply(None, Message(NotFound(ToText(req.id)))), rows)
  {
  }

  /** The row an upvote leaves behind: only its `voting` cell changes. */
  function Upvoted(row: Row): Row {
    Row(row.recordId, row.fields["voting" := CalculateVoting(Get(row.fields, "voting"))])
  }

  /**
   * In a well-formed table, an upvote rewrites the first row with the id,
   * and in it only the `voting` cell; every other row and cell stays, and
   * the updated row is answered minified.
   */
  lemma UpvoteRewritesFirstMatch(rows: seq<Row>, req: Request, i: nat)
    requires WellFormed(rows)
    requires req.httpMethod == "PUT" && IdGiven(req.id)
    requires i < |rows| && HasId(rows[i], ToText(req.id))
    requires forall j :: 0 <= j < i ==> !HasId(rows[j], ToText(req.id))
    ensures var out := VoteOutcome(rows, req, None, None);
      && out.rows == rows[i := Upvoted(rows[i])]
      && out.response == Reply(None, Records([GetMinifiedRecord(Upvoted(rows[i]))]))
  {
    var key := ToText(req.id);
    var record := FirstRecordOfLookup(rows, key, i);
    var voting := CalculateVoting(Get(rows[i].fields, "voting"));
    UpdateBySerial(rows, i, voting);
    assert GetMinifiedRecords([Upvoted(rows[i])]) == [GetMinifiedRecord(Upvoted(rows[i]))];
  }

  /** The record the handler reads first is the first row with the key, minified. */
  lemma FirstRecordOfLookup(rows: seq<Row>, key: string, i: nat) returns (record: MinifiedRecord)
    requires WellFormed(rows)
    requires i < |rows| && HasId(rows[i], key)
    requires forall j :: 0 <= j < i ==> !HasId(rows[j], key)
    ensures FindRecordByFilter(rows, key) != [] && FindRecordByFilter(rows, key)[0] == record
    ensures Get(record, "recordId") == Str(RecordId(i))
    ensures Get(record, "voting") == Get(rows[i].fields, "voting")
  {
    FirstMatchHeadsMatching(rows, key, i);
    record := GetMinifiedRecord(rows[i]);
    MinifiedRecordIdOfSchemaRow(rows[i]);
  }

  /** Updating the i-th record id of a well-formed table rewrites row i's `voting` cell. */
  lemma UpdateBySerial(rows: seq<Row>, i: nat, voting: JsValue)
    requires WellFormed(rows) && i < |rows|
    ensures ApplyUpdate(rows, Str(RecordId(i)), map["voting" := voting])
      == (rows[i := Row(rows[i].recordId, rows[i].fields["voting" := voting])],
          Some([Row(rows[i].recordId, rows[i].fields["voting" := voting])]))
  {
    RecordIndexOfSerial(rows, i);
    assert rows[i].fields + map["voting" := voting] == rows[i].fields["voting" := voting];
  }

  /**
   * The count goes up by one: a stored count v (not 0) becomes v + 1, and
   * an absent or 0 count becomes 1.
   */
  lemma UpvoteCountsOne(rows: seq<Row>, req: Request, i: nat)
    requires WellFormed(rows)
    requires req.httpMethod == "PUT" && IdGiven(req.id)
    requires i < |rows| && HasId(rows[i], ToText(req.id))
    requires forall j :: 0 <= j < i ==> !HasId(rows[j], ToText(req.id))
    requires Get(rows[i].fields, "voting").Num? || Get(rows[i].fields, "voting") == Undefined
    ensures var after := VoteOutcome(rows, req, None, None).rows;
      var before := Get(rows[i].fields, "voting");
      Get(after[i].fields, "voting") == Num(if before.Num? && before.n != 0 then before.n + 1 else 1)
  {
    UpvoteRewritesFirstMatch(rows, req, i);
  }

  /**
   * Any error the table raises is answered 500 with the upvote prefix and
   * nothing is written. A lookup error always ends the request; an update
   * error does when some row has the id, so that the update is reached.
   */
  lemma TableErrorIsReported(rows: seq<Row>, req: Request, lookupError: Option<string>, updateError: Option<string>)
    requires req.httpMethod == "PUT" && IdGiven(req.id)
    requires lookupError.Some? || updateError.Some?
    ensures var out := VoteOutcome(rows, req, lookupError, updateError);
      out.rows == rows &&
      (out.response.status == Some(500) ==>
        exists m :: (lookupError == Some(m) || updateError == Some(m)) && out.response.body == Message(ErrorPrefix + m))
    ensures lookupError.Some? ==>
      VoteOutcome(rows, req, lookupError, updateError)
        == Outcome(Reply(Some(500), Message(ErrorPrefix + lookupError.value)), rows)
    ensures lookupError.None? && (exists x :: x in rows && HasId(x, ToText(req.id))) ==>
      VoteOutcome(rows, req, lookupError, updateError)
        == Outcome(Reply(Some(500), Message(ErrorPrefix + updateError.value)), rows)
  {
    var out := VoteOutcome(rows, req, lookupError, updateError);
    if out.response.status == Some(500) {
      if lookupError.Some? {
        assert out.response.body == Message(ErrorPrefix + lookupError.value);
      } else {
        assert out.response.body == Message(ErrorPrefix + updateError.value);
      }
    }
  }

  /** In a well-formed table the update never misses: the record id read back names a row. */
  lemma UpvoteNeverMissesRecord(rows: seq<Row>, req: Request)
    requires WellFormed(rows)
    requires req.httpMethod == "PUT" && IdGiven(req.id)
    ensures VoteOutcome(rows, req, None, None).response != Reply(Some(500), Message(ErrorPrefix + UnknownRecordError))
  {
    var key := ToText(req.id);
    if FindRecordByFilter(rows, key) != [] {
      var k := FirstMatchIndex(rows, key);
      UpvoteRewritesFirstMatch(rows, req, k);
    }
  }
}

/** What the API routes answer, and the id check they share. */
module Api {
  import opened Js
  import opened Airtable

  /** The JSON a handler sends: minified records, or `{ message }`. */
  datatype Body = Records(records: seq<MinifiedRecord>) | Message(text: string)

  /**
   * What a handler writes through `res.status` and `res.json`. `status` is
   * `None` when the handler leaves it at the framework's default (200);
   * `NoResponse` when the handler writes nothing at all.
   */
  datatype Response = NoResponse | Reply(status: Option<int>, body: Body)

  /** A handler's response together with the table it leaves behind. */
  datatype Outcome = Outcome(response: Response, rows: seq<Row>)

  /** `id !== null && id !== ''`: an absent (`undefined`) id passes. */
  predicate IdGiven(id: JsValue) {
    id != Null && id != Str("")
  }
}

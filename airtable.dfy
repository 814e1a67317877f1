/**
 * The hosted `coffee-stores` table and the helpers of lib/airtable.ts that
 * read it: record minification and the lookup of the records whose `id`
 * field equals a key. The table is an in-memory sequence of rows.
 */
module Airtable {
  import opened Js

  /** The columns the handlers write. */
  const Columns: set<string> := {"id", "name", "address", "neighbourhood", "voting", "imgUrl"}

  /** Records in the first page of a `select`: the hosted table's default page size. */
  const PageSize: nat := 100

  /** A stored record: the table's own record id and the cell values. */
  datatype Row = Row(recordId: string, fields: map<string, JsValue>)

  /** A record flattened into one object: `{ recordId, ...fields }`. */
  type MinifiedRecord = map<string, JsValue>

  /**
   * The record id the table issues to its `serial`-th record. The real
   * service issues opaque ids; what matters is that no two rows share one.
   */
  function RecordId(serial: nat): string {
    "rec" + NatToDecimal(serial)
  }

  lemma RecordIdInjective(a: nat, b: nat)
    requires RecordId(a) == RecordId(b)
    ensures a == b
  {
    assert NatToDecimal(a) == RecordId(a)[3..];
    assert NatToDecimal(b) == RecordId(b)[3..];
    NatToDecimalInjective(a, b);
  }

  /**
   * What the table always satisfies: rows are never deleted, so the i-th
   * row carries the i-th record id, and only the handlers' columns are
   * ever written.
   */
  ghost predicate WellFormed(rows: seq<Row>) {
    forall i :: 0 <= i < |rows| ==> rows[i].recordId == RecordId(i) && rows[i].fields.Keys <= Columns
  }

  /**
   * `getMinifiedRecord`: the fields are spread after `recordId`, so a
   * field literally named `recordId` overrides the record id.
   */
  function GetMinifiedRecord(row: Row): (r: MinifiedRecord)
    ensures r.Keys == row.fields.Keys + {"recordId"}
    ensures forall k :: k in row.fields ==> r[k] == row.fields[k]
    ensures "recordId" !in row.fields ==> r["recordId"] == Str(row.recordId)
  {
    map["recordId" := Str(row.recordId)] + row.fields
  }

  /** `getMinifiedRecords`: `records.map(getMinifiedRecord)`. */
  function GetMinifiedRecords(rows: seq<Row>): (r: seq<MinifiedRecord>)
    ensures |r| == |rows|
    ensures forall i :: 0 <= i < |rows| ==> r[i] == GetMinifiedRecord(rows[i])
    decreases |rows|
  {
    if rows == [] then [] else [GetMinifiedRecord(rows[0])] + GetMinifiedRecords(rows[1..])
  }

  /** Under the table's schema no field shadows the record id. */
  lemma MinifiedRecordIdOfSchemaRow(row: Row)
    requires row.fields.Keys <= Columns
    ensures Get(GetMinifiedRecord(row), "recordId") == Str(row.recordId)
    ensures forall k :: k != "recordId" ==> Get(GetMinifiedRecord(row), k) == Get(row.fields, k)
  {
  }

  /** The formula `findRecordByFilter` sends: the key is pasted in unescaped. */
  function FilterFormula(key: string): string {
    "id=\"" + key + "\""
  }

  /**
   * Reads the key back from a formula `id="<literal>"` whose literal holds
   * no quote and no backslash (a literal that needs no unescaping).
   */
  function FormulaKey(formula: string): Option<string> {
    if 5 <= |formula| && formula[..4] == "id=\"" && formula[|formula| - 1] == '"'
       && '"' !in formula[4..|formula| - 1] && '\\' !in formula[4..|formula| - 1]
    then Some(formula[4..|formula| - 1])
    else None
  }

  /**
   * The formula denotes exactly the key precisely when the key holds no
   * quote or backslash: nothing is escaped.
   */
  lemma FilterFormulaRoundTrip(key: string)
    ensures FormulaKey(FilterFormula(key)) == Some(key) <==> ('"' !in key && '\\' !in key)
  {
    var f := FilterFormula(key);
    assert f[..4] == "id=\"";
    assert f[4..|f| - 1] == key;
    assert f[|f| - 1] == '"';
  }

  /** The filter `id="<key>"`, read as equality of the `id` cell with the key. */
  predicate HasId(row: Row, key: string) {
    Get(row.fields, "id") == Str(key)
  }

  /** The rows the filter selects, in table order. */
  function Matching(rows: seq<Row>, key: string): (r: seq<Row>)
    ensures |r| <= |rows|
    decreases |rows|
  {
    if rows == [] then []
    else (if HasId(rows[0], key) then [rows[0]] else []) + Matching(rows[1..], key)
  }

  /** The filter keeps exactly the rows with the key. */
  lemma {:induction false} MatchingMembers(rows: seq<Row>, key: string)
    ensures forall x :: x in Matching(rows, key) <==> x in rows && HasId(x, key)
    ensures (forall x :: x in rows ==> !HasId(x, key)) ==> Matching(rows, key) == []
    decreases |rows|
  {
    if rows != [] {
      MatchingMembers(rows[1..], key);
      assert rows == [rows[0]] + rows[1..];
    }
  }

  /** Filtering distributes over concatenation: the filter keeps table order. */
  lemma {:induction false} MatchingAppend(a: seq<Row>, b: seq<Row>, key: string)
    ensures Matching(a + b, key) == Matching(a, key) + Matching(b, key)
    decreases |a|
  {
    if a == [] {
      assert a + b == b;
    } else {
      MatchingAppend(a[1..], b, key);
      MatchingStep(a, b, key);
    }
  }

  /** One step of MatchingAppend: the head of `a` is filtered first. */
  lemma MatchingStep(a: seq<Row>, b: seq<Row>, key: string)
    requires a != []
    requires Matching(a[1..] + b, key) == Matching(a[1..], key) + Matching(b, key)
    ensures Matching(a + b, key) == Matching(a, key) + Matching(b, key)
  {
    var head := if HasId(a[0], key) then [a[0]] else [];
    assert (a + b)[0] == a[0];
    assert (a + b)[1..] == a[1..] + b;
    Associative(head, Matching(a[1..], key), Matching(b, key));
  }

  lemma Associative<T>(x: seq<T>, y: seq<T>, z: seq<T>)
    ensures x + (y + z) == (x + y) + z
  {
  }

  /** When row i is the first with the key, it heads the filtered rows. */
  lemma FirstMatchHeadsMatching(rows: seq<Row>, key: string, i: nat)
    requires i < |rows| && HasId(rows[i], key)
    requires forall j :: 0 <= j < i ==> !HasId(rows[j], key)
    ensures Matching(rows, key) != [] && Matching(rows, key)[0] == rows[i]
  {
    assert rows == rows[..i] + rows[i..];
    MatchingAppend(rows[..i], rows[i..], key);
    assert forall x :: x in rows[..i] ==> !HasId(x, key);
    MatchingMembers(rows[..i], key);
    assert rows[i..][0] == rows[i];
  }

  /** Position of the first row with the key. */
  function FirstMatchIndex(rows: seq<Row>, key: string): (i: nat)
    requires exists x :: x in rows && HasId(x, key)
    ensures i < |rows| && HasId(rows[i], key)
    ensures forall j :: 0 <= j < i ==> !HasId(rows[j], key)
    decreases |rows|
  {
    if HasId(rows[0], key) then 0
    else
      var x :| x in rows && HasId(x, key);
      assert x in rows[1..];
      1 + FirstMatchIndex(rows[1..], key)
  }

  /** `.firstPage()`: at most PageSize records, from the front. */
  function FirstPage(rs: seq<Row>): seq<Row> {
    if |rs| <= PageSize then rs else rs[..PageSize]
  }

  /**
   * `findRecordByFilter`: the minified first page of the rows whose `id`
   * equals the key, in table order. It reads the table and writes nothing.
   */
  function FindRecordByFilter(rows: seq<Row>, key: string): (r: seq<MinifiedRecord>)
    ensures |r| == if |Matching(rows, key)| <= PageSize then |Matching(rows, key)| else PageSize
    ensures forall i :: 0 <= i < |r| ==> r[i] == GetMinifiedRecord(Matching(rows, key)[i])
    ensures forall i :: 0 <= i < |r| ==> Get(r[i], "id") == Str(key)
    ensures r == [] <==> forall x :: x in rows ==> !HasId(x, key)
  {
    var page := FirstPage(Matching(rows, key));
    MatchingMembers(rows, key);
    assert forall i :: 0 <= i < |page| ==> page[i] in Matching(rows, key);
    GetMinifiedRecords(page)
  }

  /** Position of the record with a given record id, if any. */
  function RecordIndex(rows: seq<Row>, recordId: string): (r: Option<nat>)
    ensures r.Some? ==> r.value < |rows| && rows[r.value].recordId == recordId
    ensures r.None? ==> forall j :: 0 <= j < |rows| ==> rows[j].recordId != recordId
    decreases |rows|
  {
    if rows == [] then None
    else if rows[0].recordId == recordId then Some(0)
    else match RecordIndex(rows[1..], recordId)
      case None => None
      case Some(k) => Some(k + 1)
  }

  /** In a well-formed table the i-th record id names the i-th row and no other. */
  lemma RecordIndexOfSerial(rows: seq<Row>, i: nat)
    requires WellFormed(rows) && i < |rows|
    ensures RecordIndex(rows, RecordId(i)) == Some(i)
  {
    var r := RecordIndex(rows, RecordId(i));
    if r.Some? {
      RecordIdInjective(r.value, i);
    }
  }

  /**
   * `table.update([{ id, fields: patch }])`: the patch is merged into the
   * record with that id, which is returned; an id that names no record
   * (or is not a string) makes the call fail.
   */
  function ApplyUpdate(rows: seq<Row>, recordId: JsValue, patch: map<string, JsValue>): (seq<Row>, Option<seq<Row>>) {
    if recordId.Str? && RecordIndex(rows, recordId.s).Some? then
      var i := RecordIndex(rows, recordId.s).value;
      var row := Row(rows[i].recordId, rows[i].fields + patch);
      (rows[i := row], Some([row]))
    else
      (rows, None)
  }

  /** The hosted table, updated in place by `create` and `update`. */
  class Table {
    var rows: seq<Row>

    ghost predicate Valid()
      reads this
    {
      WellFormed(rows)
    }

    constructor ()
      ensures Valid() && rows == []
    {
      rows := [];
    }

    /** `table.create([{ fields }])`: appends one record and returns it. */
    method Create(fields: map<string, JsValue>) returns (created: seq<Row>)
      requires Valid() && fields.Keys <= Columns
      modifies this
      ensures Valid()
      ensures created == [Row(RecordId(|old(rows)|), fields)]
      ensures rows == old(rows) + created
    {
      created := [Row(RecordId(|rows|), fields)];
      rows := rows + created;
    }

    /** `table.update([{ id, fields: patch }])`; `None` when the call fails. */
    method Update(recordId: JsValue, patch: map<string, JsValue>) returns (updated: Option<seq<Row>>)
      requires Valid() && patch.Keys <= Columns
      modifies this
      ensures Valid()
      ensures (rows, updated) == ApplyUpdate(old(rows), recordId, patch)
      ensures updated.None? ==> rows == old(rows)
      ensures |rows| == |old(rows)|
    {
      if recordId.Str? && RecordIndex(rows, recordId.s).Some? {
        var i := RecordIndex(rows, recordId.s).value;
        var row := Row(rows[i].recordId, rows[i].fields + patch);
        rows := rows[i := row];
        updated := Some([row]);
      } else {
        updated := None;
      }
    }
  }
}

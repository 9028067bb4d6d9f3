/**
 * The first stage of the box-plot chart: after the table is loaded, every row's Likes
 * field is overwritten in place by `+d.Likes`, and a NaN outcome by 0.
 *
 * A JavaScript number is modelled as `JsNumber = Option<real>`, `None` standing for NaN.
 * The loader delivers the field as text; what unary plus makes of that text is abstracted
 * to its parse outcome (`Text(parsed)`).
 */
module Coercion {
  import opened Wrappers
  import opened Records

  /** A JavaScript number: `None` is NaN, `Some(x)` any other value. */
  type JsNumber = Option<real>

  /** The Likes field of a row: the loader's text, or (after coercion) a number. */
  datatype LikesField = Text(parsed: JsNumber) | Number(value: JsNumber)

  /** A loaded row, reduced to the two fields the box plot reads. */
  datatype Row = Row(platform: string, likes: LikesField)

  /** Unary plus on the field: text is parsed, a number is left as it is. */
  function ToNumber(l: LikesField): JsNumber
  {
    match l
    case Text(p) => p
    case Number(n) => n
  }

  /** `isNaN(x) ? 0 : x` for the outcome of unary plus. */
  function Coerce(n: JsNumber): real
  {
    match n
    case None => 0.0
    case Some(x) => x
  }

  /** What the body of the `forEach` callback leaves in one row. */
  function CoerceRow(r: Row): Row
  {
    Row(r.platform, Number(Some(Coerce(ToNumber(r.likes)))))
  }

  /** The whole table after the `forEach` loop. */
  function CoercedRows(rows: seq<Row>): seq<Row>
  {
    seq(|rows|, i requires 0 <= i < |rows| => CoerceRow(rows[i]))
  }

  /** Every Likes field holds a number that is not NaN. */
  predicate Numeric(rows: seq<Row>)
  {
    forall i | 0 <= i < |rows| :: rows[i].likes.Number? && rows[i].likes.value.Some?
  }

  /** The numeric table as the later stages read it. */
  function ToRecords(rows: seq<Row>): seq<Record>
    requires Numeric(rows)
  {
    seq(|rows|, i requires 0 <= i < |rows| => Record(rows[i].platform, rows[i].likes.value.value))
  }

  /**
   * The coercion loop: `d.Likes = +d.Likes; if (isNaN(d.Likes)) d.Likes = 0;` for each row,
   * front to back, overwriting the row in place.
   */
  method CoerceLikes(rows: array<Row>)
    modifies rows
    ensures rows[..] == CoercedRows(old(rows[..]))
  {
    for i := 0 to rows.Length
      invariant forall k | 0 <= k < i :: rows[k] == CoerceRow(old(rows[k]))
      invariant forall k | i <= k < rows.Length :: rows[k] == old(rows[k])
    {
      var d := rows[i];
      d := d.(likes := Number(ToNumber(d.likes)));
      if d.likes.value.None? {
        d := d.(likes := Number(Some(0.0)));
      }
      rows[i] := d;
    }
  }

  /**
   * After coercion no row is added, dropped, reordered or moved to another platform;
   * a value that parsed is kept, a NaN becomes exactly 0, and every field is numeric.
   */
  lemma CoercedRowsCorrect(rows: seq<Row>)
    ensures |CoercedRows(rows)| == |rows|
    ensures Numeric(CoercedRows(rows))
    ensures forall i | 0 <= i < |rows| :: CoercedRows(rows)[i].platform == rows[i].platform
    ensures forall i | 0 <= i < |rows| && ToNumber(rows[i].likes).Some? ::
              CoercedRows(rows)[i].likes == Number(ToNumber(rows[i].likes))
    ensures forall i | 0 <= i < |rows| && ToNumber(rows[i].likes).None? ::
              CoercedRows(rows)[i].likes == Number(Some(0.0))
  {
  }

  /** Running the loop a second time changes nothing. */
  lemma CoercionIdempotent(rows: seq<Row>)
    ensures CoercedRows(CoercedRows(rows)) == CoercedRows(rows)
  {
  }

  /** A table that is already numeric is left unchanged by the loop. */
  lemma CoercionKeepsNumeric(rows: seq<Row>)
    requires Numeric(rows)
    ensures CoercedRows(rows) == rows
  {
    forall i | 0 <= i < |rows| ensures CoercedRows(rows)[i] == rows[i] {
      assert rows[i].likes == Number(Some(rows[i].likes.value.value));
    }
  }

  /** The records the later stages see: the platform, and the parsed value or 0 in place of NaN. */
  lemma RecordsAfterCoercion(rows: seq<Row>)
    ensures Numeric(CoercedRows(rows))
    ensures |ToRecords(CoercedRows(rows))| == |rows|
    ensures forall i | 0 <= i < |rows| ::
              ToRecords(CoercedRows(rows))[i]
              == Record(rows[i].platform, if ToNumber(rows[i].likes).Some? then ToNumber(rows[i].likes).value else 0.0)
  {
  }
}

/** The handful of JavaScript value semantics the front end's decision rules
    depend on: a field read from a JSON document or from browser storage is
    either missing (`undefined`), `null`, or a string; `String(x)` turns it
    into text; `if (x)` tests its truthiness. */
module JsValues {

  datatype Option<+T> = None | Some(value: T)

  /** A document field or storage entry as the page reads it. Ids arrive as
      JSON text, so every present value is a string. */
  datatype Value = Undefined | Null | Str(s: string)

  /** JavaScript's `String(x)`. */
  function ToStr(v: Value): string {
    match v
    case Undefined => "undefined"
    case Null => "null"
    case Str(s) => s
  }

  /** JavaScript truthiness of a string-or-missing value: only a non-empty
      string is truthy. */
  predicate Truthy(v: Value) {
    v.Str? && v.s != ""
  }

  /** `x || fallback` for a string-or-missing value. */
  function OrElse(v: Value, fallback: string): string {
    if Truthy(v) then v.s else fallback
  }

  /** The two comparisons agree whenever one side is a present string
      other than the texts "null" and "undefined". */
  lemma StringEqualIsStrictForOrdinaryText(a: Value, b: Value)
    requires b.Str? && b.s != "null" && b.s != "undefined"
    ensures ToStr(a) == ToStr(b) <==> a == b
  {
  }

  /** ... and they disagree exactly there: a missing field and the stored
      text "undefined" are equal as strings but not strictly. */
  lemma StringEqualIsLooserThanStrict()
    ensures ToStr(Undefined) == ToStr(Str("undefined"))
    ensures Undefined != Str("undefined")
    ensures ToStr(Null) == ToStr(Str("null"))
  {
  }
}

/** Values shared by the monitor model: an option type and the JSON values that
    `json.loads` produces (numbers are finite reals; Python's NaN and Infinity
    literals are not modelled). */
module Values {

  datatype Option<+T> = None | Some(value: T)

  /** A decoded JSON document as Python sees it after `json.loads`. */
  datatype Json =
    | JNull
    | JBool(b: bool)
    | JNum(x: real)
    | JStr(s: string)
    | JArr(items: seq<Json>)
    | JObj(fields: map<string, Json>)

  /** The empty string a blank sheet cell is written with. */
  const Blank: Json := JStr("")

  /** The empty list `[]`. */
  const EmptyList: Json := JArr([])

  /** Python truthiness of a JSON value, as used by `if not deals`. */
  predicate Truthy(j: Json)
  {
    match j
    case JNull => false
    case JBool(b) => b
    case JNum(x) => x != 0.0
    case JStr(s) => s != ""
    case JArr(items) => items != []
    case JObj(fields) => fields != map[]
  }

  /** The numeric value of a JSON value that Python can compare with a float:
      numbers, and booleans (which are integers in Python). */
  function Numeric(j: Json): Option<real>
  {
    match j
    case JNum(x) => Some(x)
    case JBool(b) => Some(if b then 1.0 else 0.0)
    case _ => None
  }
}

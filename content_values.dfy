/** A `ContentValues` entry and its typed accessors. */
module ContentValues {
  import opened Wrappers
  import opened JavaText

  /** What a value set or a table cell holds: a string, an `Integer`, or null. */
  datatype Value = Text(text: string) | Int(n: Int32) | Null

  /** `getAsString` on a present entry: `toString()` of the object, or null. */
  function AsString(v: Value): (r: Option<string>)
    ensures r.None? <==> v.Null?
    ensures v.Text? ==> r == Some(v.text)
    ensures v.Int? ==> r.Some? && r.value != [] && ParseInt(r.value) == Some(v.n)
  {
    match v
    case Text(s) => Some(s)
    case Int(n) =>
      ParseIntToString(n);
      Some(ToString(n))
    case Null => None
  }

  /** `getAsInteger` on a present entry: the number, a parsed string, or null. */
  function AsInteger(v: Value): (r: Option<Int32>)
    ensures v.Int? ==> r == Some(v.n)
    ensures v.Null? ==> r.None?
    ensures v.Text? ==> r == ParseInt(v.text)
  {
    match v
    case Text(s) => ParseInt(s)
    case Int(n) => Some(n)
    case Null => None
  }

  /** `values.getAsString(key)`: null for a missing key. */
  function GetAsString(values: map<string, Value>, key: string): Option<string> {
    if key in values then AsString(values[key]) else None
  }

  /** `values.getAsInteger(key)`: null for a missing key. */
  function GetAsInteger(values: map<string, Value>, key: string): Option<Int32> {
    if key in values then AsInteger(values[key]) else None
  }
}

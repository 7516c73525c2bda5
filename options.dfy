/** The WordPress option store as the plugin sees it: a map from option
    names to stored values, read with a default when the name is absent
    (`get_option( $key, $default )`), and PHP's conversions of a stored
    value to an integer, a string and a boolean. */
module Options {
  import opened Text

  datatype Value = VStr(s: string) | VInt(i: int) | VBool(b: bool)

  /** `get_option( $key, $default )`. */
  function Get(values: map<string, Value>, key: string, default: Value): (v: Value)
    ensures key in values ==> v == values[key]
    ensures key !in values ==> v == default
  {
    if key in values then values[key] else default
  }

  /** PHP's `(int)` cast. */
  function ToInt(v: Value): int {
    match v
    case VInt(i) => i
    case VBool(b) => if b then 1 else 0
    case VStr(s) => StringToInt(s)
  }

  /** PHP's coercion of a stored value into a `string` property. */
  function ToStr(v: Value): string {
    match v
    case VStr(s) => s
    case VInt(i) => IntToString(i)
    case VBool(b) => if b then "1" else ""
  }

  /** PHP's truthiness of a stored value, as in `if ( get_option( ... ) )`. */
  predicate Truthy(v: Value) {
    match v
    case VStr(s) => !Falsy(s)
    case VInt(i) => i != 0
    case VBool(b) => b
  }

  /** An integer option reads back as the same integer whether WordPress
      returns it as stored or as the string it keeps in the database. */
  lemma IntOptionReadsBack(i: int)
    ensures ToInt(VInt(i)) == i
    ensures ToInt(VStr(IntToString(i))) == i
    ensures ToInt(VStr(ToStr(VInt(i)))) == i
  {
    StringToIntOfIntToString(i);
  }

  /** The option table. */
  class OptionStore {
    var values: map<string, Value>

    constructor (initial: map<string, Value>)
      ensures values == initial
    {
      values := initial;
    }
  }
}

/** Python values as the modelled code inspects them with `isinstance` and
    renders them with `str()`. Floats, lists and dicts are carried by their
    `str()` text (and, for lists and dicts, their JSON text), since their
    formatting is a library matter. */
module PyValues {
  import opened Text

  datatype Value =
    | NoneV
    | IntV(i: int)
    | BoolV(b: bool)
    | FloatV(text: string)
    | StrV(s: string)
    | ListV(text: string, json: string)
    | DictV(text: string, json: string)

  /** `isinstance(v, int)`: a bool is an int in Python. */
  predicate IsInt(v: Value) {
    v.IntV? || v.BoolV?
  }

  /** `str(v)`. */
  function Str(v: Value): string {
    match v
    case NoneV => "None"
    case IntV(i) => IntToString(i)
    case BoolV(b) => if b then "True" else "False"
    case FloatV(t) => t
    case StrV(s) => s
    case ListV(t, _) => t
    case DictV(t, _) => t
  }
}

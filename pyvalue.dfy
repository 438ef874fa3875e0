/**
 * The dict records that flow through the harness (corpus documents,
 * search hits, candidates) hold strings or None in their fields.
 */
module PyValue {

  /** A field value: Python's None or a string. */
  datatype Value = Null | Str(s: string)

  /** A record as a Python dict from field name to value. */
  type Record = map<string, Value>

  /** `m.get(k, default)`: the stored value, even None, or `default` when `k` is absent. */
  function GetOr(m: Record, k: string, default: Value): (v: Value)
    ensures k in m ==> v == m[k]
    ensures k !in m ==> v == default
  {
    if k in m then m[k] else default
  }

  /** `v or ""`: None and the empty string both give "". */
  function OrEmpty(v: Value): (s: string)
    ensures v.Str? ==> s == v.s
    ensures v.Null? ==> s == ""
  {
    match v
    case Null => ""
    case Str(s) => s
  }

  /** `f"{v}"`: None renders as the text None. */
  function ValueText(v: Value): (s: string)
    ensures v.Str? ==> s == v.s
    ensures v.Null? ==> s == "None"
  {
    match v
    case Null => "None"
    case Str(s) => s
  }
}

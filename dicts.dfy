/** The dictionaries returned by `to_dict` and the masking helpers. */
module Dicts {

  import opened Wrappers

  /** The values that occur in the returned dictionaries. */
  datatype Value =
    | Int(i: int)
    | Str(s: string)
    | Bool(b: bool)
    | Null
    | Strs(ss: seq<string>)

  /** A Python `Dict[str, Any]`. */
  type Dict = map<string, Value>

  /** `Optional[int]` as a dictionary value (`None` becomes `Null`). */
  function OptInt(o: Option<int>): (v: Value)
    ensures o.None? <==> v == Null
    ensures o.Some? ==> v == Int(o.value)
  {
    match o
    case None => Null
    case Some(n) => Int(n)
  }
}

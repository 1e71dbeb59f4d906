/** The Python objects the readers handle: parsed JSON values and the
    exceptions the readers raise or catch. */
module Values {

  /** A parsed JSON value as Python represents it (`None`, `bool`, `int`,
      `str`, `list`, `dict`). Floating-point numbers are not modelled. */
  datatype Value =
    | Null
    | Bool(b: bool)
    | Num(n: int)
    | Str(s: string)
    | Arr(elems: seq<Value>)
    | Obj(fields: map<string, Value>)

  /** The exceptions that matter to the readers. */
  datatype Exc =
    | ValueError(message: string)
    | KeyError(key: string)
    | TypeError
    | AttributeError
    | StopIteration

  /** `dict.get(key)`: the stored value, or `None` when the key is absent.
      A stored JSON `null` and an absent key both come back as `None`. */
  function Get(m: map<string, Value>, key: string): (v: Value)
    ensures v != Null ==> key in m && m[key] == v
    ensures key in m ==> v == m[key]
    ensures key !in m ==> v == Null
  {
    if key in m then m[key] else Null
  }
}

/** The loosely typed values a JSON request body carries, and the JavaScript
    coercions the handlers apply to them. */
module Values {
  import opened Text

  datatype Option<+T> = None | Some(value: T) {
    /** `v ?? default` */
    function GetOr(default: T): T {
      match this
      case Some(v) => v
      case None => default
    }
  }

  /** One field of a parsed JSON body: absent or `null`, a boolean, a string,
      or an array of strings. Numbers and nested objects are not modelled. */
  datatype Raw = Missing | Flag(b: bool) | Str(s: string) | Lst(items: seq<string>)

  /** A parsed JSON body: field name to value. */
  type Body = map<string, Raw>

  /** `body[key]`, which is `undefined` for a key the body does not have. */
  function Field(body: Body, key: string): Raw {
    if key in body then body[key] else Missing
  }

  /** `String(v ?? "")`: an array is rendered as its items joined with ",". */
  function ToStr(v: Raw): (r: string)
    ensures v.Missing? ==> r == ""
    ensures v.Str? ==> r == v.s
    ensures v.Flag? ==> r == (if v.b then "true" else "false")
    ensures v.Lst? && v.items == [] ==> r == ""
    ensures v.Lst? && |v.items| > 0 && (forall k :: 0 <= k < |v.items| ==> ',' !in v.items[k])
            ==> Split(r, ',') == v.items
  {
    match v
    case Missing => ""
    case Flag(b) => if b then "true" else "false"
    case Str(s) => s
    case Lst(xs) =>
      if |xs| > 0 && (forall k :: 0 <= k < |xs| ==> ',' !in xs[k]) then
        SplitJoin(xs, ',');
        Join(xs, ",")
      else Join(xs, ",")
  }

  /** `Boolean(v)`: JavaScript truthiness. */
  predicate Truthy(v: Raw): (b: bool)
    ensures b ==> !v.Missing?
    ensures v.Lst? ==> b
    ensures v.Str? ==> (b <==> v.s != "")
    ensures v.Flag? ==> (b <==> v.b)
  {
    match v
    case Missing => false
    case Flag(b) => b
    case Str(s) => s != ""
    case Lst(_) => true
  }

  /** `String(v ?? "").trim()` */
  function TrimmedText(v: Raw): (r: string)
    ensures IsTrimmed(r)
    ensures v.Str? && IsTrimmed(v.s) ==> r == v.s
    ensures v.Str? ==> r == Trim(v.s)
    ensures v.Missing? ==> r == ""
    ensures v.Flag? ==> r == (if v.b then "true" else "false")
  {
    Trim(ToStr(v))
  }

  /** `s || undefined`: the empty string becomes absent. */
  function OrAbsent(s: string): (r: Option<string>)
    ensures r.None? <==> s == ""
    ensures r.Some? ==> r.value == s
  {
    if s == "" then None else Some(s)
  }
}

/** A decoded JSON document as Python's json module returns it, and the
    three ways the alert ingester looks into one: d[key], d[i] and key in d,
    each with the exception Python raises when the value has the wrong shape,
    and chains of subscripts. */
module JsonValue {
  import opened Common
  import opened PyStr

  /** Numbers keep their text: the ingester only stores them. */
  datatype Json =
    | JNull
    | JBool(b: bool)
    | JNumber(text: string)
    | JString(s: string)
    | JArray(items: seq<Json>)
    | JObject(fields: map<string, Json>)

  /** j[key] with a string key. */
  function Get(j: Json, key: string): (r: Result<Json, PyError>)
    ensures r.Ok? <==> j.JObject? && key in j.fields
    ensures r.Ok? ==> r.value == j.fields[key]
    ensures r.Err? ==> r.error == (if j.JObject? then KeyError else TypeError)
  {
    match j
    case JObject(fields) => if key in fields then Ok(fields[key]) else Err(KeyError)
    case _ => Err(TypeError)
  }

  /** j[i] with a non-negative integer index: a list element, a one-character
      string, or a KeyError on a dict, whose keys are strings. */
  function At(j: Json, i: nat): (r: Result<Json, PyError>)
    ensures j.JArray? ==> r == (if i < |j.items| then Ok(j.items[i]) else Err(IndexError))
    ensures j.JString? ==> r == (if i < |j.s| then Ok(JString([j.s[i]])) else Err(IndexError))
    ensures j.JObject? ==> r == Err(KeyError)
    ensures !(j.JArray? || j.JString? || j.JObject?) ==> r == Err(TypeError)
  {
    match j
    case JArray(items) => if i < |items| then Ok(items[i]) else Err(IndexError)
    case JString(s) => if i < |s| then Ok(JString([s[i]])) else Err(IndexError)
    case JObject(_) => Err(KeyError)
    case _ => Err(TypeError)
  }

  /** key in j: a dict key, a list element equal to the string, or a substring. */
  function Has(j: Json, key: string): (r: Result<bool, PyError>)
    ensures j.JObject? ==> r == Ok(key in j.fields)
    ensures j.JArray? ==> r == Ok(JString(key) in j.items)
    ensures j.JString? ==> r == Ok(Contains(j.s, key))
    ensures !(j.JArray? || j.JString? || j.JObject?) ==> r == Err(TypeError)
  {
    match j
    case JObject(fields) => Ok(key in fields)
    case JArray(items) => Ok(JString(key) in items)
    case JString(s) => Ok(Contains(s, key))
    case _ => Err(TypeError)
  }
  /** One subscript: d[key] or d[i]. */
  datatype Step = Key(name: string) | Index(i: nat)

  function StepInto(j: Json, step: Step): (r: Result<Json, PyError>)
    ensures step.Key? ==> r == Get(j, step.name)
    ensures step.Index? ==> r == At(j, step.i)
  {
    match step
    case Key(k) => Get(j, k)
    case Index(i) => At(j, i)
  }

  /** j[p0][p1]...: the subscripts applied left to right, stopping at the
      first that raises. */
  function Follow(j: Json, path: seq<Step>): (r: Result<Json, PyError>)
    ensures |path| == 0 ==> r == Ok(j)
    ensures |path| == 1 ==> r == StepInto(j, path[0])
    decreases |path|
  {
    if |path| == 0 then Ok(j)
    else
      match StepInto(j, path[0])
      case Err(e) => Err(e)
      case Ok(v) => Follow(v, path[1..])
  }

  /** Following a longer path continues from where the shorter one ended,
      and a subscript that fails on the way fails the longer path with the
      same exception. */
  lemma {:induction false} FollowAppend(j: Json, p: seq<Step>, q: seq<Step>)
    ensures Follow(j, p + q) == match Follow(j, p) case Err(e) => Err(e) case Ok(v) => Follow(v, q)
    decreases |p|
  {
    if |p| > 0 {
      assert (p + q)[0] == p[0] && (p + q)[1..] == p[1..] + q;
      match StepInto(j, p[0])
      case Err(e) =>
      case Ok(v) => FollowAppend(v, p[1..], q);
    } else {
      assert p + q == q;
    }
  }
}

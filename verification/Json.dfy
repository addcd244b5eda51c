/** Parsed JSON values, as the strict decoders of the benchmark produce them. */
module Json {
  import opened Common

  /** A field name; the names the translators look at have constructors of their own. */
  datatype Key =
    | Type | Id | Status | Output | Content | Text | Refusal | Role | ToolCalls | Index
    | Choices | Message | Created | Model | FinishReason | Usage | OtherKey(name: string)

  datatype Json =
    | Null | Bool(b: bool) | Int(n: int) | Float(r: real) | Str(s: string)
    | Arr(items: seq<Json>) | Obj(fields: map<Key, Json>)

  function Get(fields: map<Key, Json>, key: Key): Option<Json> {
    if key in fields then Some(fields[key]) else None
  }

  /**
   * What a loop over a value meets, when each element must be an object: an empty object or string is as good as an
   * empty list, any other value raises.
   */
  function Elements(j: Json): Option<seq<Json>> {
    match j {
      case Arr(items) => Some(items)
      case Obj(fields) => if fields == map[] then Some([]) else None
      case Str(s) => if s == "" then Some([]) else None
      case _ => None
    }
  }

  /** A loop that needs objects gets through lists and empty containers, and raises for everything else. */
  lemma ElementsIff(j: Json)
    ensures Elements(j).Some? <==> j.Arr? || (j.Obj? && |j.fields| == 0) || (j.Str? && |j.s| == 0)
    ensures Elements(j).Some? ==> Elements(j).value == if j.Arr? then j.items else []
  {
  }
}

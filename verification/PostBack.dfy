// What a client posts back, as JSON, and how the servers read it.
module PostBack {
  import opened Common

  datatype Json =
    | Null
    | Bool(flag: bool)
    | Number(value: real)
    | Text(text: string)
    | Array(items: seq<Json>)
    | Object(fields: seq<(string, Json)>)

  /** Python's truth value of a decoded JSON value. */
  predicate Falsy(j: Json) {
    match j
    case Null => true
    case Bool(b) => !b
    case Number(v) => v == 0.0
    case Text(s) => s == ""
    case Array(items) => items == []
    case Object(fields) => fields == []
  }

  /** The four fields of a posted object that are read at all; each may be missing. */
  datatype Posted = Posted(correlationId: Option<Json>, ok: Option<Json>, payload: Option<Json>, error: Option<Json>)

  /** The same after normalisation; only a true boolean counts as ok. */
  datatype Body = Body(correlationId: Json, ok: bool, payload: Json, error: Json)

  function OrNull(j: Option<Json>): Json {
    if j.Some? then j.value else Null
  }

  function Normalized(p: Posted): Body {
    Body(OrNull(p.correlationId), p.ok == Some(Bool(true)), OrNull(p.payload), OrNull(p.error))
  }

  // --------------------------------------------------------------- denials

  /** A denial must start with this; a peer's own words are made to. */
  const PREFIX := "permission:"

  function NormalizeDenial(message: string): string {
    if PREFIX <= message then message else PREFIX + " " + message
  }

  /** The hook decision a payload stands for; `encode` is the JSON encoder. */
  function Decision(p: Json, encode: Json -> string): string {
    if p.Text? then p.text else encode(p)
  }
}

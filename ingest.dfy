/**
 * The three-tier decode that both loaders apply to a file's text: a full
 * `json.loads`, then `json.loads` of the text with every `][` turned into
 * `,`, then the lenient extractor wrapped as `{'items': [...]}`.
 */
module Ingest {
  import opened Wrappers
  import opened PyJson
  import opened PyText
  import opened Extractor

  /** The library behaviour the ingestion code relies on but does not
      define, as oracles:
      - `loads`: `json.loads(text)`, `None` when it raises;
      - `rawDecode`: `JSONDecoder().raw_decode(text, pos)`;
      - `parseFloat`: `float(s)` for a string `s`, `None` when it raises;
      - `show`: `str(x)` for a value that is not a string. */
  datatype Runtime = Runtime(
    loads: string -> Option<Json>,
    rawDecode: Decoder,
    parseFloat: string -> Option<PyFloat>,
    show: Json -> string)

  /** Python's `str(x)`: a string is itself, anything else is rendered. */
  function PyStr(rt: Runtime, j: Json): string {
    if j.JStr? then j.s else rt.show(j)
  }

  /** Python's `float(x)` on a decoded value, `None` when it raises: numbers
      and booleans convert, a string is parsed, and None, lists and dicts
      raise `TypeError`. */
  function ToFloat(rt: Runtime, j: Json): (r: Option<PyFloat>)
    ensures r.None? <==> j.JNull? || j.JArr? || j.JObj? || (j.JStr? && rt.parseFloat(j.s).None?)
    ensures j.JInt? ==> r == Some(Finite(j.i as real))
  {
    match j
    case JNull => None
    case JBool(b) => Some(Finite(if b then 1.0 else 0.0))
    case JInt(i) => Some(Finite(i as real))
    case JFloat(x) => Some(Finite(x))
    case JStr(s) => rt.parseFloat(s)
    case JArr(_) => None
    case JObj(_) => None
  }

  /** `float(x or 0)`: a falsy operand becomes 0.0 and cannot raise; a truthy
      one converts as it would on its own, so only a truthy operand that
      `float` rejects raises. */
  lemma OrZeroConverts(rt: Runtime, a: Json)
    ensures !Truthy(a) ==> ToFloat(rt, Or(a, JInt(0))) == Some(Finite(0.0))
    ensures Truthy(a) ==> ToFloat(rt, Or(a, JInt(0))) == ToFloat(rt, a)
    ensures ToFloat(rt, Or(a, JInt(0))).None? <==> Truthy(a) && ToFloat(rt, a).None?
  {
  }

  /** What the decode chain yields for a file's text; it never fails. */
  function BestEffort(rt: Runtime, content: string): Json {
    match rt.loads(content)
    case Some(v) => v
    case None =>
      match rt.loads(ReplaceBracketPairs(content))
      case Some(v) => v
      case None => JObj(map["items" := JArr(Extract(rt.rawDecode, content))])
  }

  /** The chain as the loaders run it, calling the extractor's loop. */
  method DecodeBestEffort(rt: Runtime, content: string) returns (data: Json)
    ensures data == BestEffort(rt, content)
  {
    var parsed := rt.loads(content);
    if parsed.Some? {
      return parsed.value;
    }
    var repaired := rt.loads(ReplaceBracketPairs(content));
    if repaired.Some? {
      return repaired.value;
    }
    var objetos := ExtractObjects(rt.rawDecode, content);
    data := JObj(map["items" := JArr(objetos)]);
  }

  /** The chain stops at the first tier that parses; the `][` repair can only
      change the outcome of a text that contains `][`; and when both parses
      fail the result is an object whose `items` are the extracted values. */
  lemma BestEffortTiers(rt: Runtime, content: string)
    ensures rt.loads(content).Some? ==> BestEffort(rt, content) == rt.loads(content).value
    ensures rt.loads(content).None? && !Contains(content, "][") ==>
      BestEffort(rt, content) == JObj(map["items" := JArr(Extract(rt.rawDecode, content))])
    ensures rt.loads(content).None? && rt.loads(ReplaceBracketPairs(content)).None? ==>
      BestEffort(rt, content) == JObj(map["items" := JArr(Extract(rt.rawDecode, content))])
  {
    if !Contains(content, "][") {
      ReplaceWithoutPairs(content);
    }
  }
}

/** Shared vocabulary: options, typed platform errors, and the JSON-like values
    that step parameters and step evidence are made of. */
module Values {

  datatype Option<+T> = None | Some(value: T)

  datatype Result<+T, +E> = Ok(value: T) | Err(error: E)

  /** The error taxonomy. */
  datatype ErrorCode =
    | REQ_AMBIGUOUS | REQ_MISSING | SEMANTIC_UNGOVERNED | SCHEMA_MISSING | SCHEMA_DRIFT | JOIN_UNSAFE
    | DATA_QUALITY_BLOCK | VALIDATION_FAIL | RECONCILIATION_FAIL | VERIFICATION_FAIL | POLICY_DENIED
    | EXTERNAL_WRITE_UNVERIFIED | MODEL_OUTPUT_INVALID | NO_SAFE_OPERATION | PREDICTION_UNSUPPORTED
    | EVIDENCE_INSUFFICIENT

  /** A typed failure: its code and the ids its evidence names. Message text is not modelled. */
  datatype PlatformError = PlatformError(code: ErrorCode, names: seq<string>)

  /** What a Python dict of plain data may hold. */
  datatype Value =
    | Null
    | Bool(b: bool)
    | Num(r: real)
    | Str(s: string)
    | List(items: seq<Value>)
    | Dict(fields: map<string, Value>)

  type Params = map<string, Value>

  /** `params.get(key)`. */
  function Get(params: Params, key: string): Value {
    if key in params then params[key] else Null
  }

  /** `params.get(key) or []` read as a list of column names; anything that is not text is skipped. */
  function Names(v: Value): seq<string> {
    if v.List? then Texts(v.items) else []
  }

  function Texts(items: seq<Value>): seq<string> {
    if items == [] then []
    else (if items[0].Str? then [items[0].s] else []) + Texts(items[1..])
  }

  function TextList(names: seq<string>): Value {
    List(seq(|names|, i requires 0 <= i < |names| => Str(names[i])))
  }

  /** The names read are exactly the texts of the list. */
  lemma {:induction false} TextsAre(items: seq<Value>, name: string)
    ensures name in Texts(items) <==> Str(name) in items
  {
    if items != [] {
      TextsAre(items[1..], name);
      assert items == [items[0]] + items[1..];
    }
  }

  /** A list of names is read back as it was written. */
  lemma {:induction false} NamesReadBack(names: seq<string>)
    ensures Names(TextList(names)) == names
  {
    if names != [] {
      NamesReadBack(names[1..]);
      assert TextList(names).items[1..] == TextList(names[1..]).items;
      assert names == [names[0]] + names[1..];
    }
  }
}

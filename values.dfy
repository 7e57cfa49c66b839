/**
 * The dynamic values the Python code passes around: JSON-like documents,
 * Pub/Sub attribute dictionaries and keyword-argument dictionaries, together
 * with Python's truthiness, `or`, `dict.get` and f-string formatting of them,
 * the exceptions the core raises, and the report types of `classes.report_type`.
 */
module Values {
  import Text

  datatype Option<+T> = None | Some(value: T)

  /** The exceptions the modelled code raises or lets escape. */
  datatype Error =
    | KeyError(key: string)
    | TypeError
    | ValueError
    | IndexError
    | AttributeError(name: string)
    | NotImplementedError(message: string)

  datatype Result<+T> = Ok(value: T) | Err(error: Error) {
    predicate IsFailure() { Err? }
    function PropagateFailure<U>(): Result<U>
      requires Err?
    {
      Err(error)
    }
    function Extract(): T
      requires Ok?
    {
      value
    }
  }

  /** The report products of `classes.report_type.Type` that the core names. */
  datatype ReportType = DV360 | CM | SA360 | SA360_RPT | ADH | GA360_RPT | ADMIN

  /** A Python value as it appears in a JSON document or a keyword dictionary. */
  datatype Value =
    | Null
    | Bool(b: bool)
    | Int(i: int)
    | Str(s: string)
    | Arr(items: seq<Value>)
    | Obj(fields: map<string, Value>)
    | Product(t: ReportType)

  type Dict = map<string, Value>

  type byte = x: int | 0 <= x < 256

  /** Python truthiness. */
  predicate Truthy(v: Value)
  {
    match v
    case Null => false
    case Bool(b) => b
    case Int(i) => i != 0
    case Str(s) => s != ""
    case Arr(items) => items != []
    case Obj(fields) => fields != map[]
    case Product(_) => true
  }

  /** Python's `a or b`: the first operand when it is truthy, else the second. */
  function Or(a: Value, b: Value): (r: Value)
    ensures Truthy(a) ==> r == a
    ensures !Truthy(a) ==> r == b
    ensures Truthy(r) <==> Truthy(a) || Truthy(b)
  {
    if Truthy(a) then a else b
  }

  /** `d.get(k, default)`. */
  function Get(d: Dict, k: string, default: Value := Null): (r: Value)
    ensures k in d ==> r == d[k]
    ensures k !in d ==> r == default
  {
    if k in d then d[k] else default
  }

  /**
   * Firestore's `update_document(id, new_data)` on a collection of documents
   * by id: the entries of `new_data` are merged into the document `id`,
   * which is created when missing; every other entry and document is kept.
   */
  function UpdateDocument(docs: map<string, Dict>, id: string, newData: Dict): (r: map<string, Dict>)
    ensures r.Keys == docs.Keys + {id}
    ensures forall d :: d in docs && d != id ==> r[d] == docs[d]
    ensures r[id].Keys == newData.Keys + (if id in docs then docs[id].Keys else {})
    ensures forall k :: k in newData ==> r[id][k] == newData[k]
    ensures forall k :: id in docs && k in docs[id] && k !in newData ==> r[id][k] == docs[id][k]
  {
    docs[id := (if id in docs then docs[id] else map[]) + newData]
  }

  /** `d[k]`, raising KeyError when the key is missing. */
  function Index(d: Dict, k: string): (r: Result<Value>)
    ensures r.Ok? <==> k in d
    ensures r.Ok? ==> r.value == d[k]
    ensures r.Err? ==> r.error == KeyError(k)
  {
    if k in d then Ok(d[k]) else Err(KeyError(k))
  }

  /** `v[k]` where `v` must be a dictionary holding `k`. */
  function Field(v: Value, k: string): (r: Result<Value>)
    ensures r.Ok? <==> v.Obj? && k in v.fields
    ensures r.Ok? ==> r.value == v.fields[k]
  {
    match v
    case Obj(fields) => Index(fields, k)
    case _ => Err(TypeError)
  }

  /** A value that must be a dictionary. */
  function AsDict(v: Value): (r: Result<Dict>)
    ensures r.Ok? <==> v.Obj?
    ensures r.Ok? ==> r.value == v.fields
  {
    if v.Obj? then Ok(v.fields) else Err(TypeError)
  }

  /** Python's `str(n)` for an integer. */
  function IntText(n: int): (r: string)
    ensures r != []
    ensures (r[0] == '-') <==> n < 0
  {
    if n < 0 then "-" + NatText(-n) else NatText(n)
  }

  function NatText(n: nat): (r: string)
    ensures r != [] && r[0] != '-'
    ensures forall i :: 0 <= i < |r| ==> '0' <= r[i] <= '9'
  {
    var d := ('0' as int + n % 10) as char;
    if n < 10 then [d] else NatText(n / 10) + [d]
  }

  /**
   * Python's `k in v` for a string `k`: a key test on a dictionary, a
   * substring test on a string, an element test on a list; no other value
   * supports `in`.
   */
  function Contains(v: Value, k: string): (r: Result<bool>)
    ensures v.Obj? ==> r == Ok(k in v.fields)
    ensures v.Str? ==> r == Ok(exists i :: 0 <= i <= |v.s| && Text.MatchAt(v.s, k, i))
    ensures v.Arr? ==> r == Ok(Str(k) in v.items)
    ensures r.Err? <==> !(v.Obj? || v.Str? || v.Arr?)
  {
    match v
    case Obj(f) => Ok(k in f)
    case Str(t) => Ok(Text.RFind(t, k) >= 0)
    case Arr(items) => Ok(Str(k) in items)
    case _ => Err(TypeError)
  }

  /** The text an f-string substitutes for a value (`f'{v}'`). */
  function Format(v: Value): string
  {
    match v
    case Null => "None"
    case Bool(b) => if b then "True" else "False"
    case Int(i) => IntText(i)
    case Str(s) => s
    case Arr(_) => "[...]"
    case Obj(_) => "{...}"
    case Product(_) => "Type"
  }

  /** The value of a decimal digit. */
  function DigitValue(c: char): int
  {
    c as int - '0' as int
  }

  /** The number a non-empty run of decimal digits spells. */
  function DigitsValue(s: string): (n: nat)
    requires forall i :: 0 <= i < |s| ==> '0' <= s[i] <= '9'
  {
    if s == [] then 0
    else DigitsValue(s[..|s| - 1]) * 10 + DigitValue(s[|s| - 1])
  }

  predicate IsDigits(s: string)
  {
    s != [] && forall i :: 0 <= i < |s| ==> '0' <= s[i] <= '9'
  }

  /** Python's `int(v)` on an integer, a boolean (1 or 0) or on decimal text with an optional sign. */
  function IntOf(v: Value): (r: Result<int>)
    ensures v.Int? ==> r == Ok(v.i)
    ensures v.Bool? ==> r == Ok(if v.b then 1 else 0)
    ensures v.Str? && IsDigits(v.s) ==> r == Ok(DigitsValue(v.s))
    ensures !v.Int? && !v.Bool? && !v.Str? ==> r == Err(TypeError)
  {
    match v
    case Int(i) => Ok(i)
    case Bool(b) => Ok(if b then 1 else 0)
    case Str(s) =>
      if IsDigits(s) then Ok(DigitsValue(s))
      else if |s| > 1 && s[0] == '-' && IsDigits(s[1..]) then Ok(0 - DigitsValue(s[1..]) as int)
      else if |s| > 1 && s[0] == '+' && IsDigits(s[1..]) then Ok(DigitsValue(s[1..]))
      else Err(ValueError)
    case _ => Err(TypeError)
  }
}

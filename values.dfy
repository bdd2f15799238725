/** Decoded JSON values, the messages exchanged between the daemon and its
    clients, and the few pieces of Python value semantics the protocol code
    relies on: truthiness, `dict.get`, `str()` and `type().__name__`. */
module Values {

  datatype Option<T> = None | Some(value: T)

  /** A decoded JSON value.  Numbers that carry a fractional part are `Num`. */
  datatype Value =
    | Null
    | Bool(b: bool)
    | Int(i: int)
    | Num(r: real)
    | Str(s: string)
    | Arr(items: seq<Value>)
    | Obj(fields: map<string, Value>)

  /** A message on the socket: one JSON object. */
  type Message = map<string, Value>

  /** Python truthiness of a decoded value (`if not command:`, `if text and ...`). */
  predicate Truthy(v: Value) {
    match v
    case Null => false
    case Bool(b) => b
    case Int(i) => i != 0
    case Num(r) => r != 0.0
    case Str(s) => s != ""
    case Arr(xs) => xs != []
    case Obj(m) => m != map[]
  }

  /** `m.get(key, default)` */
  function Get(m: Message, key: string, default: Value): Value {
    if key in m then m[key] else default
  }

  /** `type(v).__name__` of what `json.loads` returns for each kind of value. */
  function TypeName(v: Value): string {
    match v
    case Null => "NoneType"
    case Bool(_) => "bool"
    case Int(_) => "int"
    case Num(_) => "float"
    case Str(_) => "str"
    case Arr(_) => "list"
    case Obj(_) => "dict"
  }

  /** Whether Python can hash the value (lists and dicts cannot). */
  predicate Hashable(v: Value) {
    !v.Arr? && !v.Obj?
  }

  function DigitChar(d: nat): (c: char)
    requires d < 10
    ensures '0' <= c <= '9'
  {
    ['0', '1', '2', '3', '4', '5', '6', '7', '8', '9'][d]
  }

  /** The decimal digits of `n`, as `str(n)` writes them. */
  function NatToDecimal(n: nat): (s: string)
    ensures |s| > 0
    ensures forall i :: 0 <= i < |s| ==> '0' <= s[i] <= '9'
    ensures n >= 10 ==> s[0] != '0'
    decreases n
  {
    if n < 10 then [DigitChar(n)] else NatToDecimal(n / 10) + [DigitChar(n % 10)]
  }

  /** The value a string of decimal digits denotes. */
  function DecimalValue(s: string): nat
    requires forall i :: 0 <= i < |s| ==> '0' <= s[i] <= '9'
  {
    if s == [] then 0 else DecimalValue(s[..|s| - 1]) * 10 + ((s[|s| - 1] as int) - ('0' as int))
  }

  lemma {:induction false} DecimalRoundTrip(n: nat)
    ensures DecimalValue(NatToDecimal(n)) == n
    decreases n
  {
    if n >= 10 {
      DecimalRoundTrip(n / 10);
      var s := NatToDecimal(n);
      assert s[..|s| - 1] == NatToDecimal(n / 10);
    }
  }

  /** `str(v)` for the values a command name can take.  Floats, lists and
      dicts are rendered by their kind only (see README, Left out). */
  function Display(v: Value): string {
    match v
    case Null => "None"
    case Bool(b) => if b then "True" else "False"
    case Int(i) => if i < 0 then "-" + NatToDecimal(-i) else NatToDecimal(i)
    case Num(_) => "<float>"
    case Str(s) => s
    case Arr(_) => "<list>"
    case Obj(_) => "<dict>"
  }

  /** The `{"status": ..., "message": ...}` reply shape used throughout. */
  function StatusReply(status: string, text: string): Message {
    map["status" := Str(status), "message" := Str(text)]
  }

  function ErrorReply(text: string): Message {
    StatusReply("error", text)
  }

  function SuccessReply(text: string): Message {
    StatusReply("success", text)
  }

  /** A reply whose status is present and is one of the two the protocol knows. */
  predicate HasProtocolStatus(m: Message) {
    "status" in m && (m["status"] == Str("success") || m["status"] == Str("error"))
  }
}

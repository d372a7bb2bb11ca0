/** JSON values as the Python and JavaScript sides hold them after decoding,
    with the few language rules the source relies on when it inspects them:
    truthiness, Python's `dict.get` / `d[k]`, JavaScript property access and
    JavaScript's conversion of a value to text when it is concatenated.
    Encoding and decoding themselves are not modelled: wherever the source
    calls `json.loads` or `JSON.parse`, the model takes the decoded value (or
    its absence, for text that does not parse) as a parameter. */
module Json {
  import opened Wrappers
  import opened Dicts

  /** A decoded JSON value. Objects keep their members in document order.
      Python's `None` and JSON `null` are the same value here. Numbers are
      integers: no code path modelled here inspects a fractional number. */
  datatype Value =
    | Null
    | Bool(b: bool)
    | Num(n: int)
    | Str(s: string)
    | Arr(items: seq<Value>)
    | Obj(members: Dict<string, Value>)

  /** A JSON object / Python dict with string keys. */
  type Object = Dict<string, Value>

  /** The exceptions the modelled code can raise or throw. */
  datatype Fault =
    | KeyError            // Python `d[k]` on a dict without `k`
    | TypeError           // wrong kind of value: unhashable key, indexing a non-dict, calling a missing method
    | AttributeError      // Python attribute lookup on `None` or on a non-dict
    | DecodeError         // text that `json.loads` / `JSON.parse` rejects
    | ConnectError        // the transport refused the handshake
    | TransportError      // the transport failed to transmit
    | HttpError(status: int)       // the streamed reply came back with a non-OK status
    | NetworkError(message: string) // fetch or the body reader failed

  /** Python's truth value of a decoded value (`if x:`). */
  predicate PyTruthy(v: Value)
  {
    match v
    case Null => false
    case Bool(b) => b
    case Num(n) => n != 0
    case Str(s) => s != ""
    case Arr(items) => items != []
    case Obj(members) => members != []
  }

  /** Values Python accepts as dict keys: lists and dicts are unhashable. */
  predicate Hashable(v: Value)
  {
    !v.Arr? && !v.Obj?
  }

  /** Python's `o.get(k)`: `None` when the key is absent. */
  function PyGet(o: Object, k: string): Value
  {
    match Get(o, k)
    case Some(v) => v
    case None => Null
  }

  /** Python's `v[k]` with a string key: `KeyError` on a dict without `k`,
      `TypeError` on anything that is not a dict. */
  function PyIndex(v: Value, k: string): Result<Value, Fault>
  {
    if !v.Obj? then Failure(TypeError)
    else
      match Get(v.members, k)
      case Some(x) => Success(x)
      case None => Failure(KeyError)
  }

  /** JavaScript's truth value; `None` is `undefined`. */
  predicate JsTruthy(v: Option<Value>)
  {
    match v
    case None => false
    case Some(Null) => false
    case Some(Bool(b)) => b
    case Some(Num(n)) => n != 0
    case Some(Str(s)) => s != ""
    case Some(Arr(_)) => true
    case Some(Obj(_)) => true
  }

  /** JavaScript's `v.k` on a value that is neither `undefined` nor `null`:
      the member of an object, and `undefined` on any other value (none of
      the keys the source reads is a built-in property). */
  function JsMember(v: Value, k: string): Option<Value>
  {
    if v.Obj? then Get(v.members, k) else None
  }

  /** JavaScript's `v.k` in general: throws `TypeError` on `undefined` and
      `null`. */
  function JsProp(v: Option<Value>, k: string): Result<Option<Value>, Fault>
  {
    match v
    case None => Failure(TypeError)
    case Some(Null) => Failure(TypeError)
    case Some(x) => Success(JsMember(x, k))
  }

  /** `s.startsWith(p)`. */
  predicate StartsWith(s: string, p: string)
  {
    |p| <= |s| && s[..|p|] == p
  }

  /** `v.startsWith(p)`: only strings have the method; on `undefined` and
      `null` the property access throws, on every other value the call of
      `undefined` does. */
  function JsStartsWith(v: Option<Value>, p: string): Result<bool, Fault>
  {
    match v
    case Some(Str(s)) => Success(StartsWith(s, p))
    case _ => Failure(TypeError)
  }

  /** The decimal digits of a natural number. */
  function NatText(n: nat): string
  {
    if n < 10 then [('0' as int + n) as char]
    else NatText(n / 10) + [('0' as int + n % 10) as char]
  }

  /** The decimal text of an integer, with a leading `-` when negative. */
  function IntText(n: int): string
  {
    if n < 0 then "-" + NatText(-n) else NatText(n)
  }

  /** Whether `String(v)` throws. A parsed object with a member of its own
      named `toString` hides `Object.prototype.toString` behind a value that
      cannot be called, and its `valueOf` (inherited or a member of its own)
      yields no primitive either, so the conversion throws `TypeError`. An
      array converts each of its elements, so it throws when one of them
      does. */
  predicate TextThrows(v: Value)
  {
    match v
    case Obj(members) => Get(members, "toString").Some?
    case Arr(items) => exists i :: 0 <= i < |items| && TextThrows(items[i])
    case _ => false
  }

  /** JavaScript's `String(v)`, the text `+=` appends, where it does not
      throw: strings as they are, integers in decimal, an array as its
      elements joined by commas with `null` elements empty, an object
      without a `toString` member of its own as `[object Object]`. */
  function JsText(v: Value): string
    requires !TextThrows(v)
  {
    match v
    case Null => "null"
    case Bool(b) => if b then "true" else "false"
    case Num(n) => IntText(n)
    case Str(s) => s
    case Obj(_) => "[object Object]"
    case Arr(items) =>
      JoinWithCommas(seq(|items|, i requires 0 <= i < |items| =>
                           if items[i].Null? then "" else JsText(items[i])))
  }

  /** `parts.join(',')`. */
  function JoinWithCommas(parts: seq<string>): string
  {
    if parts == [] then ""
    else if |parts| == 1 then parts[0]
    else parts[0] + "," + JoinWithCommas(parts[1..])
  }

  /** The digits of `n` are decimal digits and read back as `n`. */
  function DecimalValue(s: string): int
  {
    if s == [] then 0 else DecimalValue(s[..|s| - 1]) * 10 + (s[|s| - 1] as int - '0' as int)
  }

  lemma {:induction false} NatTextReadsBack(n: nat)
    ensures forall i :: 0 <= i < |NatText(n)| ==> '0' <= NatText(n)[i] <= '9'
    ensures DecimalValue(NatText(n)) == n
  {
    if n >= 10 {
      NatTextReadsBack(n / 10);
      var s := NatText(n);
      assert s[..|s| - 1] == NatText(n / 10);
    }
  }
}

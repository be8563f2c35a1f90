/** Option and the outcome of an asynchronous call. */
module Wrappers {

  datatype Option<+T> = None | Some(value: T)

  /** Why a promise was rejected: the network collaborator's own error, or a
      TypeError raised by the store's code on an input it cannot handle. */
  datatype Reason = Network(error: string) | TypeError

  /** A settled promise: resolved with a value, or rejected with a reason. */
  datatype Settled<+T> = Resolved(value: T) | Rejected(reason: Reason)
}

/** The JavaScript values that records, ids and queries are made of. */
module Values {
  import opened Wrappers

  /** A JavaScript value. Numbers are integers; `ObjectId` is an object that
      carries its own `toString` and `toJSON` (both give `hex`), such as a
      BSON ObjectID used as a record id. */
  datatype Value =
    | Undefined
    | Null
    | Bool(b: bool)
    | Num(n: int)
    | Str(s: string)
    | Arr(elems: seq<Value>)
    | Obj(fields: map<string, Value>)
    | ObjectId(hex: string)

  /** A record: its own enumerable properties. */
  type Record = map<string, Value>

  /** A query object. */
  type Query = map<string, Value>

  /** `item[key]` on a record: undefined when the key is absent. */
  function Get(r: Record, key: string): Value
  {
    if key in r then r[key] else Undefined
  }

  /** JavaScript truthiness. */
  predicate Truthy(v: Value)
  {
    match v
    case Undefined => false
    case Null => false
    case Bool(b) => b
    case Num(n) => n != 0
    case Str(s) => s != ""
    case _ => true
  }

  /** `v == null` under loose equality. */
  predicate IsNullish(v: Value)
  {
    v.Undefined? || v.Null?
  }

  /** `typeof v === 'object' && v != null`. */
  predicate IsObject(v: Value)
  {
    v.Arr? || v.Obj? || v.ObjectId?
  }

  /** The own properties of a value: those of an object, none for anything else. */
  function OwnFields(v: Value): Record
  {
    if v.Obj? then v.fields else map[]
  }

  function DigitChar(d: nat): char
    requires d < 10
  {
    "0123456789"[d]
  }

  /** Decimal digits of a natural number, most significant first. */
  function NatToString(n: nat): (s: string)
    ensures |s| >= 1
    ensures forall i :: 0 <= i < |s| ==> '0' <= s[i] <= '9'
    decreases n
  {
    if n < 10 then [DigitChar(n)] else NatToString(n / 10) + [DigitChar(n % 10)]
  }

  function IntToString(i: int): string
  {
    if i < 0 then "-" + NatToString(-i) else NatToString(i)
  }

  /** `parts.join(',')`. */
  function JoinWithCommas(parts: seq<string>): string
  {
    if |parts| == 0 then ""
    else if |parts| == 1 then parts[0]
    else JoinWithCommas(parts[..|parts| - 1]) + "," + parts[|parts| - 1]
  }

  /** `String(v)`, which is also the property key `v` becomes when it indexes
      an object (`store.itemsById[id]`). An array joins its elements with
      commas, writing null and undefined elements as empty strings. */
  function ToString(v: Value): string
  {
    match v
    case Undefined => "undefined"
    case Null => "null"
    case Bool(b) => if b then "true" else "false"
    case Num(n) => IntToString(n)
    case Str(s) => s
    case Arr(elems) =>
      JoinWithCommas(seq(|elems|, i requires 0 <= i < |elems| =>
        if IsNullish(elems[i]) then "" else ToString(elems[i])))
    case Obj(_) => "[object Object]"
    case ObjectId(hex) => hex
  }

  /** One record or an array of them: the `T | T[]` that `getArray` takes apart. */
  datatype Batch<T> = Single(item: T) | Multiple(items: seq<T>)
  {
    /** `getArray(data).items` */
    function Items(): seq<T>
    {
      match this
      case Single(x) => [x]
      case Multiple(xs) => xs
    }

    /** `getArray(data).isArray` */
    predicate IsArray()
    {
      Multiple?
    }
  }

  /** `Array.isArray(v)` splits a value into a batch. */
  function GetArray(v: Value): (b: Batch<Value>)
    ensures b.IsArray() <==> v.Arr?
    ensures v.Arr? ==> b.Items() == v.elems
    ensures !v.Arr? ==> b.Items() == [v]
  {
    if v.Arr? then Multiple(v.elems) else Single(v)
  }

  /** `isArray ? results : results[0]`: answers in the shape of the input. */
  function InShape<T, U>(input: Batch<T>, results: seq<U>): (r: Batch<U>)
    requires |results| == |input.Items()|
    ensures r.IsArray() == input.IsArray()
    ensures r.Items() == results
  {
    if input.IsArray() then Multiple(results) else Single(results[0])
  }
}

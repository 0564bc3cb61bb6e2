/**
 * Python values as the collectors see them: parsed JSON from CloudTrail,
 * the values of a snapshot record, and the values of a database row.
 * `Str` is Python's `str()`, the only way the collectors compare values,
 * and the accessors below are `dict.get`, `in` and `[...]` with the cases
 * in which Python raises.
 */
module Values {
  import opened Text

  /** A Python value. `Dict` keeps its entries in insertion order. */
  datatype Value =
    | Null
    | Bool(b: bool)
    | Int(i: int)
    | Text(s: string)
    | List(items: seq<Value>)
    | Dict(entries: seq<(string, Value)>)
    | Timestamp(t: int)   // a `datetime`, in epoch seconds
    | Duration(ms: nat)   // the float `ms / 1000`

  /** The outcome of Python code that may raise. */
  datatype Result<T> = Ok(value: T) | Raised {
    predicate IsFailure() { Raised? }
    function PropagateFailure<U>(): Result<U>
      requires Raised?
    {
      Raised
    }
    function Extract(): T
      requires Ok?
    {
      value
    }
  }

  const Unknown := Text("unknown")
  const NA := Text("N/A")

  /** Python's `str(v)`. */
  function Str(v: Value): string
    decreases v, 0
  {
    match v
    case Null => "None"
    case Bool(b) => if b then "True" else "False"
    case Int(i) => IntToString(i)
    case Text(s) => s
    case List(xs) => "[" + Join(seq(|xs|, k requires 0 <= k < |xs| => Repr(xs[k])), ", ") + "]"
    case Dict(es) =>
      "{" + Join(seq(|es|, k requires 0 <= k < |es| => "'" + es[k].0 + "': " + Repr(es[k].1)), ", ") + "}"
    case Timestamp(t) => IntToString(t)
    case Duration(ms) => DurationString(ms)
  }

  /** Python's `repr(v)` as `str` uses it inside lists and dicts. */
  function Repr(v: Value): string
    decreases v, 1
  {
    if v.Text? then "'" + v.s + "'" else Str(v)
  }

  /** `str(ms / 1000)`: whole seconds, a point, the milliseconds without trailing zeros. */
  function DurationString(ms: nat): string {
    var frac := ms % 1000;
    var digits := [DigitChar(frac / 100), DigitChar(frac / 10 % 10), DigitChar(frac % 10)];
    NatToString(ms / 1000) + "." +
      (if frac % 100 == 0 then digits[..1] else if frac % 10 == 0 then digits[..2] else digits)
  }

  /** Python's `bool(v)`. */
  predicate Truthy(v: Value) {
    match v
    case Null => false
    case Bool(b) => b
    case Int(i) => i != 0
    case Text(s) => s != ""
    case List(xs) => xs != []
    case Dict(es) => es != []
    case Timestamp(_) => true
    case Duration(ms) => ms != 0
  }

  /** Python's `a or b`. */
  function Or(a: Value, b: Value): (r: Value)
    ensures r == a || r == b
    ensures Truthy(r) <==> Truthy(a) || Truthy(b)
  {
    if Truthy(a) then a else b
  }

  /** The value stored under `key`, if any. */
  function Lookup(entries: seq<(string, Value)>, key: string): (r: Option<Value>)
    ensures r.Some? <==> exists k :: 0 <= k < |entries| && entries[k].0 == key
    ensures r.Some? ==> exists k :: 0 <= k < |entries| && entries[k] == (key, r.value)
  {
    if entries == [] then None
    else if entries[0].0 == key then Some(entries[0].1)
    else
      var r := Lookup(entries[1..], key);
      assert forall k :: 0 < k < |entries| ==> entries[k] == entries[1..][k - 1];
      r
  }

  predicate HasKey(entries: seq<(string, Value)>, key: string) {
    Lookup(entries, key).Some?
  }

  /** `d[key] = v`: replaces the entry in place, or appends a new one. */
  function Put(entries: seq<(string, Value)>, key: string, v: Value): (r: seq<(string, Value)>)
    ensures Lookup(r, key) == Some(v)
    ensures forall k :: k != key ==> Lookup(r, k) == Lookup(entries, k)
    ensures HasKey(entries, key) ==> |r| == |entries|
  {
    if entries == [] then [(key, v)]
    else if entries[0].0 == key then [(key, v)] + entries[1..]
    else [entries[0]] + Put(entries[1..], key, v)
  }

  /** `v.get(key, default)`; `.get` on anything but a dict raises AttributeError. */
  function Get(v: Value, key: string, default: Value): (r: Result<Value>)
    ensures r.Ok? <==> v.Dict?
    ensures v.Dict? && HasKey(v.entries, key) ==> r == Ok(Lookup(v.entries, key).value)
    ensures v.Dict? && !HasKey(v.entries, key) ==> r == Ok(default)
  {
    if v.Dict? then
      match Lookup(v.entries, key)
      case Some(x) => Ok(x)
      case None => Ok(default)
    else Raised
  }

  /** `key in v`: a dict's keys, a list's elements, a substring of a string; otherwise TypeError. */
  function In(key: string, v: Value): (r: Result<bool>)
    requires |key| > 0
    ensures v.Dict? ==> r == Ok(HasKey(v.entries, key))
  {
    match v
    case Dict(es) => Ok(HasKey(es, key))
    case List(xs) => Ok(Text(key) in xs)
    case Text(s) => Ok(Contains(s, key))
    case _ => Raised
  }

  /** `v[key]` with a string key: only a dict holding `key` answers. */
  function Index(v: Value, key: string): (r: Result<Value>)
    ensures r.Ok? <==> v.Dict? && HasKey(v.entries, key)
    ensures r.Ok? ==> r.value == Lookup(v.entries, key).value
  {
    if v.Dict? && HasKey(v.entries, key) then Ok(Lookup(v.entries, key).value) else Raised
  }

  /** `len(v)`. */
  function Len(v: Value): Result<nat> {
    match v
    case Text(s) => Ok(|s|)
    case List(xs) => Ok(|xs|)
    case Dict(es) => Ok(|es|)
    case _ => Raised
  }

  /** `v[0]`: a list's first element, a string's first character; dicts raise KeyError, others TypeError. */
  function First(v: Value): (r: Result<Value>)
    ensures v.List? && v.items != [] ==> r == Ok(v.items[0])
  {
    match v
    case List(xs) => if xs == [] then Raised else Ok(xs[0])
    case Text(s) => if s == [] then Raised else Ok(Text(s[..1]))
    case _ => Raised
  }

  /** Reading a key back after `d[key] = v` gives `v`; other keys read as before. */
  /** Setting a key the entries do not have appends it, as a Python dict does. */
  lemma {:induction false} PutNewKeyAppends(entries: seq<(string, Value)>, key: string, v: Value)
    requires !HasKey(entries, key)
    ensures Put(entries, key, v) == entries + [(key, v)]
    decreases |entries|
  {
    if entries != [] {
      assert !HasKey(entries[1..], key);
      PutNewKeyAppends(entries[1..], key, v);
      assert entries == [entries[0]] + entries[1..];
    }
  }

  lemma GetAfterPut(entries: seq<(string, Value)>, key: string, v: Value, other: string, default: Value)
    ensures Get(Dict(Put(entries, key, v)), key, default) == Ok(v)
    ensures Index(Dict(Put(entries, key, v)), key) == Ok(v)
    ensures other != key ==> Get(Dict(Put(entries, key, v)), other, default) == Get(Dict(entries), other, default)
  {
  }

  /**
   * `.get` and `[...]` agree on a present key; `.get` falls back to the
   * default exactly where `[...]` on a dict raises KeyError, and off a dict
   * both raise.
   */
  lemma GetAgreesWithIndex(v: Value, key: string, default: Value)
    ensures Index(v, key).Ok? ==> Get(v, key, default) == Index(v, key)
    ensures v.Dict? && Index(v, key).Raised? ==> Get(v, key, default) == Ok(default)
    ensures !v.Dict? ==> Get(v, key, default).Raised? && Index(v, key).Raised?
    ensures Get(v, key, default).Ok? && Get(v, key, default).value != default ==> Index(v, key) == Get(v, key, default)
  {
  }

  /**
   * On a dict, `key in d` holds exactly when some entry carries the key, and
   * then `d[key]` answers; on a number, boolean, None or timestamp it raises.
   */
  lemma InMeansKeyPresent(key: string, v: Value)
    requires |key| > 0
    ensures v.Dict? ==> (In(key, v) == Ok(true) <==> exists k :: 0 <= k < |v.entries| && v.entries[k].0 == key)
    ensures v.Dict? ==> (In(key, v) == Ok(true) <==> Index(v, key).Ok?)
    ensures v.Null? || v.Bool? || v.Int? || v.Timestamp? || v.Duration? ==> In(key, v).Raised?
    ensures In(key, Dict(Put(if v.Dict? then v.entries else [], key, Null))) == Ok(true)
  {
  }

  /**
   * `v[0]` is the head of a non-empty list, the one-character text of a
   * non-empty string, and raises on an empty one and on anything else.
   */
  lemma FirstIsHead(v: Value, x: Value, rest: seq<Value>)
    ensures First(List([x] + rest)) == Ok(x)
    ensures First(v).Ok? <==> (v.List? && v.items != []) || (v.Text? && v.s != [])
    ensures v.Text? && v.s != [] ==> First(v).value.Text? && |First(v).value.s| == 1 && First(v).value.s[0] == v.s[0]
  {
  }

  /** Stringification coerces: an integer and its decimal text compare equal. */
  lemma StrCoercesIntegers(n: int)
    ensures Str(Int(n)) == Str(Text(IntToString(n)))
  {
  }
}

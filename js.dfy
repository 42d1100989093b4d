/** The small JavaScript world both components live in: result wrappers,
    JSON-like values, component state as a finite map, JavaScript's
    truthiness and `typeof`, object spread, and the `cap` helper. */
module Js {

  datatype Option<+T> = None | Some(value: T)
  {
    function GetOr(default: T): T
    {
      match this
      case Some(v) => v
      case None => default
    }
  }

  /** The outcome of an operation that may throw. */
  datatype Result<+T, +E> = Success(value: T) | Failure(error: E)
  {
    predicate IsFailure() { Failure? }

    function PropagateFailure<U>(): Result<U, E>
      requires Failure?
    {
      Failure(error)
    }

    function Extract(): T
      requires Success?
    {
      value
    }
  }

  /** The outcome of a state-changing call that may throw. */
  datatype Outcome<+E> = Pass | Fail(error: E)

  /** A JSON-like JavaScript value.  `Undefined` is what a missing key reads as. */
  datatype Value =
    | Undefined
    | Null
    | Bool(b: bool)
    | Num(n: int)
    | Str(s: string)
    | Arr(items: seq<Value>)
    | Obj(fields: map<string, Value>)

  /** A component's state object: key names to values. */
  type State = map<string, Value>

  /** `state[k]`: a missing key reads as `undefined`. */
  function Get(s: State, k: string): Value
  {
    if k in s then s[k] else Undefined
  }

  /** `{ ...s, ...patch }`: the patch's keys win. */
  function Overlay<T>(s: map<string, T>, patch: map<string, T>): (r: map<string, T>)
    ensures r.Keys == s.Keys + patch.Keys
    ensures forall k :: k in patch ==> r[k] == patch[k]
    ensures forall k :: k in s && k !in patch ==> r[k] == s[k]
  {
    s + patch
  }

  /** What `render` forwards: the state overlaid by the props not named in
      `config` (the component's own configuration props), props winning. */
  function RenderProps<T>(state: map<string, T>, props: map<string, T>, config: set<string>): (r: map<string, T>)
    ensures r.Keys == state.Keys + (props.Keys - config)
    ensures forall k :: k in props && k !in config ==> r[k] == props[k]
    ensures forall k :: k in state && (k !in props || k in config) ==> r[k] == state[k]
  {
    Overlay(state, props - config)
  }

  /** JavaScript truthiness, restricted to `Value` (numbers are integers, so NaN is absent). */
  predicate Truthy(v: Value)
  {
    match v
    case Undefined => false
    case Null => false
    case Bool(b) => b
    case Num(n) => n != 0
    case Str(s) => s != ""
    case Arr(_) => true
    case Obj(_) => true
  }

  /** The answers `typeof` gives on `Value`. */
  datatype TypeTag = TUndefined | TObject | TBoolean | TNumber | TString

  /** `typeof v`: `null`, arrays and objects all answer "object". */
  function TypeOf(v: Value): TypeTag
  {
    match v
    case Undefined => TUndefined
    case Null => TObject
    case Bool(_) => TBoolean
    case Num(_) => TNumber
    case Str(_) => TString
    case Arr(_) => TObject
    case Obj(_) => TObject
  }

  /** `Array.isArray(v)`. */
  predicate IsArray(v: Value) { v.Arr? }

  /** `isObj(v)`: a non-array, non-null object. */
  predicate IsObj(v: Value) { v.Obj? }

  /** ASCII `toUpperCase` of one character. */
  function Upper(c: char): char
  {
    if 'a' <= c <= 'z' then (c as int - 32) as char else c
  }

  /** `cap(s)`: `s.charAt(0).toUpperCase() + s.slice(1)`. */
  function Cap(s: string): string
  {
    if s == [] then "" else [Upper(s[0])] + s[1..]
  }

  /** `cap` keeps the length, upper-cases the first character, keeps the
      rest, and maps "" to "". */
  lemma CapShape(s: string)
    ensures |Cap(s)| == |s|
    ensures s == [] ==> Cap(s) == []
    ensures s != [] ==> Cap(s)[0] == Upper(s[0]) && Cap(s)[1..] == s[1..]
  {
  }

  lemma UpperIdempotent(c: char)
    ensures Upper(Upper(c)) == Upper(c)
  {
  }

  /** Capitalising twice is capitalising once. */
  lemma CapIdempotent(s: string)
    ensures Cap(Cap(s)) == Cap(s)
  {
    if s != [] {
      UpperIdempotent(s[0]);
    }
  }

  /** Capitalising a concatenation touches only the first non-empty part. */
  lemma CapAppend(s: string, t: string)
    ensures Cap(s + t) == if s == [] then Cap(t) else Cap(s) + t
  {
    if s != [] {
      assert (s + t)[0] == s[0];
      assert (s + t)[1..] == s[1..] + t;
    } else {
      assert s + t == t;
    }
  }

  /** Two names capitalise alike exactly when they have the same length and
      agree everywhere, except that their first letters may differ in case. */
  lemma CapCollision(s: string, t: string)
    ensures Cap(s) == Cap(t) <==>
            |s| == |t| && (s == [] || (Upper(s[0]) == Upper(t[0]) && s[1..] == t[1..]))
  {
    if Cap(s) == Cap(t) && s != [] {
      assert Cap(s)[0] == Cap(t)[0];
      assert Cap(s)[1..] == Cap(t)[1..];
    }
    if |s| == |t| && s != [] && Upper(s[0]) == Upper(t[0]) && s[1..] == t[1..] {
      assert Cap(s) == [Upper(s[0])] + s[1..];
    }
  }
}

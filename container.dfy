/** The `Container` component: a state object seeded from a prop, one setter
    per key, user handlers, and derived state recomputed after every update
    by an ordered list of rules. */
module ContainerComponent {
  import opened Js

  /** What a key of the component's state holds after mount: a value, the
      setter writing key `key`, or the user handler `name`. */
  datatype Slot = Val(v: Value) | Setter(key: string) | UserHandler(name: string)

  /** The component's state object. */
  type CState = map<string, Slot>

  /** `state[k]`: a missing key reads as `undefined`. */
  function Read(s: CState, k: string): Slot
  {
    if k in s then s[k] else Val(Undefined)
  }

  /** The state prop as stored in the component. */
  function Stored(s: State): (r: CState)
    ensures r.Keys == s.Keys
    ensures forall k :: k in s ==> r[k] == Val(s[k])
  {
    map k | k in s :: Val(s[k])
  }

  // ---------------------------------------------------------------- reduceDeriveState

  /** A `deriveState` item: the trigger keys and the derive function. */
  datatype Rule = Rule(on: seq<string>, derive: CState -> CState)

  /** `prevState[k] !== state[k]` (values compared structurally). */
  predicate Changed(prev: CState, cur: CState, k: string)
  {
    Read(prev, k) != Read(cur, k)
  }

  /** The inner reduce over the trigger keys, from `acc`:
      `bool || prevState[next] !== state[next]` for each key in turn. */
  function HasChanged(prev: CState, cur: CState, on: seq<string>, acc: bool): bool
    decreases |on|
  {
    if on == [] then acc else HasChanged(prev, cur, on[1..], acc || Changed(prev, cur, on[0]))
  }

  /** Rule `rule` fires between `prev` and `cur`. */
  predicate Fires(prev: CState, cur: CState, rule: Rule)
  {
    HasChanged(prev, cur, rule.on, false)
  }

  /** The outer reduce's accumulator after the first `n` rules: a rule that
      does not fire passes it on, a rule that fires replaces it by its output
      on `{ ...state, ...acc }`. */
  function AccAfter(prev: CState, cur: CState, rules: seq<Rule>, n: nat): CState
    requires n <= |rules|
  {
    if n == 0 then map[]
    else
      var acc := AccAfter(prev, cur, rules, n - 1);
      if Fires(prev, cur, rules[n - 1]) then rules[n - 1].derive(Overlay(cur, acc)) else acc
  }

  /** `reduceDeriveState(prevState, state, deriveState = [])`. */
  function ReduceDeriveState(prev: CState, cur: CState, deriveState: Option<seq<Rule>>): CState
  {
    var rules := deriveState.GetOr([]);
    AccAfter(prev, cur, rules, |rules|)
  }

  /** The last of the first `n` rules that fires, if any. */
  function LastFired(prev: CState, cur: CState, rules: seq<Rule>, n: nat): (r: Option<nat>)
    requires n <= |rules|
    ensures r.Some? ==> r.value < n && Fires(prev, cur, rules[r.value])
    ensures r.Some? ==> forall j :: r.value < j < n ==> !Fires(prev, cur, rules[j])
    ensures r.None? <==> forall j :: 0 <= j < n ==> !Fires(prev, cur, rules[j])
  {
    if n == 0 then None
    else if Fires(prev, cur, rules[n - 1]) then Some(n - 1)
    else LastFired(prev, cur, rules, n - 1)
  }

  /** The derive calls the first `n` rules make, in order, each as the
      rule's index and the argument it is given. */
  ghost function Calls(prev: CState, cur: CState, rules: seq<Rule>, n: nat): seq<(nat, CState)>
    requires n <= |rules|
  {
    if n == 0 then []
    else
      Calls(prev, cur, rules, n - 1) +
      (if Fires(prev, cur, rules[n - 1]) then [(n - 1, Overlay(cur, AccAfter(prev, cur, rules, n - 1)))] else [])
  }

  /** `componentDidUpdate`'s decision: the patch to apply, or none when the
      derived patch has no keys. */
  function DidUpdatePatch(prev: CState, cur: CState, deriveState: Option<seq<Rule>>): (r: Option<CState>)
    ensures r.None? <==> ReduceDeriveState(prev, cur, deriveState) == map[]
    ensures r.Some? ==> r.value == ReduceDeriveState(prev, cur, deriveState)
  {
    var derived := ReduceDeriveState(prev, cur, deriveState);
    if |derived.Keys| > 0 then Some(derived) else None
  }

  // ---------------------------------------------------------------- createSetters

  /** The name of the setter of key `k`. */
  function SetterName(k: string): string
  {
    "set" + Cap(k)
  }

  /** `setters` holds one setter per key of `s`, named after the key, and
      each setter writes a key of `s` whose setter name it carries. */
  ghost predicate SettersFor(s: CState, setters: CState)
  {
    && setters.Keys == (set k | k in s :: SetterName(k))
    && forall n :: n in setters ==> setters[n].Setter? && setters[n].key in s && SetterName(setters[n].key) == n
  }

  /** `createSetters(comp, state)`: walks the keys of `s`, adding a setter for each. */
  method CreateSetters(s: CState) returns (setters: CState)
    ensures SettersFor(s, setters)
  {
    setters := map[];
    var todo := s.Keys;
    while todo != {}
      invariant todo <= s.Keys
      invariant setters.Keys == (set k | k in s.Keys - todo :: SetterName(k))
      invariant forall n :: n in setters ==> setters[n].Setter? && setters[n].key in s && SetterName(setters[n].key) == n
      decreases |todo|
    {
      var k :| k in todo;
      setters := setters[SetterName(k) := Setter(k)];
      todo := todo - {k};
    }
  }

  // ---------------------------------------------------------------- deriveState validator

  /** An element of a `deriveState` item: a JSON-like value or a function. */
  datatype Elem = Data(v: Value) | Function

  /** The errors the item validator reports. */
  datatype ItemError = TooShort | NotStringArray | NotFunction

  /** The item's first element is an array of strings. */
  predicate StringArray(e: Elem)
  {
    e.Data? && e.v.Arr? && forall j :: 0 <= j < |e.v.items| ==> e.v.items[j].Str?
  }

  /** The custom validator, called with the item and one index `key` of it. */
  function CheckAt(item: seq<Elem>, key: nat): Option<ItemError>
  {
    if |item| < 2 then Some(TooShort)
    else if key == 0 && !StringArray(item[0]) then Some(NotStringArray)
    else if key == 1 && !item[1].Function? then Some(NotFunction)
    else None
  }

  /** `PropTypes.arrayOf(validator)` on one item: the validator is called
      for the indices `from`, `from + 1`, ... of the item, and the first error
      is reported. */
  function ArrayOfCheckFrom(item: seq<Elem>, from: nat): Option<ItemError>
    decreases |item| - from
  {
    if from >= |item| then None
    else
      var e := CheckAt(item, from);
      if e.Some? then e else ArrayOfCheckFrom(item, from + 1)
  }

  /** The item check as written: the validator runs once per index. */
  function ArrayOfCheck(item: seq<Elem>): Option<ItemError>
  {
    ArrayOfCheckFrom(item, 0)
  }

  /** The item check as intended: a pair-or-longer whose first element is
      an array of strings and whose second is a function. */
  function CheckItem(item: seq<Elem>): Option<ItemError>
  {
    if |item| < 2 then Some(TooShort)
    else if !StringArray(item[0]) then Some(NotStringArray)
    else if !item[1].Function? then Some(NotFunction)
    else None
  }

  // ---------------------------------------------------------------- the component

  /** The props `render` strips before forwarding (the keys of `propTypes`). */
  const ContainerConfigProps: set<string> := {"render", "state", "withHandlers", "deriveState"}

  /** The component, with its configuration props and its state object. */
  class Container {
    const initial: State
    const withHandlers: set<string>
    const deriveState: Option<seq<Rule>>
    var state: CState

    /** `state = {}`. */
    constructor (initial: State, withHandlers: set<string>, deriveState: Option<seq<Rule>>)
      ensures this.initial == initial && this.withHandlers == withHandlers && this.deriveState == deriveState
      ensures state == map[]
    {
      this.initial := initial;
      this.withHandlers := withHandlers;
      this.deriveState := deriveState;
      state := map[];
    }

    /** `componentDidMount`: one `setState` of the state prop, its setters
        and the user handlers, later sources winning on a shared key. */
    method Mount()
      modifies this`state
      ensures exists setters :: SettersFor(Stored(initial), setters) &&
                state == Overlay(old(state), Overlay(Overlay(Stored(initial), setters), map h | h in withHandlers :: UserHandler(h)))
    {
      var setters := CreateSetters(Stored(initial));
      var handlers := map h | h in withHandlers :: UserHandler(h);
      state := Overlay(state, Overlay(Overlay(Stored(initial), setters), handlers));
    }

    /** Calling the setter stored under `name` with `v`: `setState({ [key]: v })`. */
    method CallSetter(name: string, v: Value)
      requires name in state && state[name].Setter?
      modifies this`state
      ensures state == old(state)[old(state)[name].key := Val(v)]
    {
      state := state[state[name].key := Val(v)];
    }

    /** `componentDidUpdate(prevProps, prevState)`: apply the derived patch
        when it has at least one key. */
    method DidUpdate(prevState: CState)
      modifies this`state
      ensures DidUpdatePatch(prevState, old(state), deriveState).None? ==> state == old(state)
      ensures DidUpdatePatch(prevState, old(state), deriveState).Some? ==>
                state == Overlay(old(state), DidUpdatePatch(prevState, old(state), deriveState).value)
    {
      var derived := ReduceDeriveState(prevState, state, deriveState);
      if |derived.Keys| > 0 {
        state := Overlay(state, derived);
      }
    }

    /** What `render` hands to the render prop. */
    function Props(userProps: CState): CState
      reads this
    {
      RenderProps(state, userProps, ContainerConfigProps)
    }
  }
}

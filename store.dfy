/** The `Store` component: a list of state descriptors is interpreted into
    an initial state and a table of named actions, each a transition on the
    component's state. */
module StoreComponent {
  import opened Js

  /** One entry of a descriptor's `handlers` object: `fnName: fn`. */
  datatype Handler = Handler(name: string, fn: Value -> Value)

  /** One element of `withState`.  An absent flag is `None`; the defaults are
      applied by the predicates below, as `createStateHandlers` does. */
  datatype Descriptor = Descriptor(
    name: string,
    initialState: Value,
    handlers: seq<Handler>,
    setable: Option<bool>,
    resetable: Option<bool>,
    toggleable: Option<bool>,
    mergeable: Option<bool>,
    loadable: Option<bool>)
  {
    predicate Setable() { setable.GetOr(true) }
    predicate Resetable() { resetable.GetOr(false) }
    predicate Toggleable() { toggleable.GetOr(false) }
    predicate Mergeable() { mergeable.GetOr(false) }
    predicate Loadable() { loadable.GetOr(false) }

    /** The initial state the actions see: an absent one defaults to `null`. */
    function Initial(): Value
    {
      if initialState == Undefined then Null else initialState
    }

    /** The key of the "loaded" flag of a loadable descriptor. */
    function LoadedKey(): string
    {
      name + "Loaded"
    }
  }

  /** What an action does; `Custom(f)` runs the descriptor's handler `f`. */
  datatype Verb = Set | Reset | Toggle | Merge | SetLoaded | Custom(fnName: string)

  /** A generated action: a verb and the index in `withState` of the
      descriptor whose closure it is. */
  datatype Action = Action(verb: Verb, owner: nat)

  /** What the default `_onError` (`throwError`) aborts with, plus the
      TypeError of calling something that is not a function. */
  datatype Error =
    | MergeableAndToggleable(name: string)
    | MergeableNotCollection(name: string, initial: Value)
    | TypeChange(name: string)
    | MismatchedMerge(name: string, expectedObject: bool)
    | NotAFunction(name: string)

  /** The action names of `createStateHandlers`: verb + `cap(name)`. */
  function VerbName(v: Verb, name: string): string
  {
    match v
    case Set => "set" + Cap(name)
    case Reset => "reset" + Cap(name)
    case Toggle => "toggle" + Cap(name)
    case Merge => "merge" + Cap(name)
    case SetLoaded => "set" + Cap(name + "Loaded")
    case Custom(f) => f + Cap(name)
  }

  /** `Object.keys(handlers)`. */
  function HandlerNames(hs: seq<Handler>): seq<string>
  {
    seq(|hs|, i requires 0 <= i < |hs| => hs[i].name)
  }

  /** Whether the flags of `d` ask for an action with verb `v`. */
  predicate Enabled(d: Descriptor, v: Verb)
  {
    match v
    case Set => d.Setable()
    case Reset => d.Resetable()
    case Toggle => d.Toggleable()
    case Merge => d.Mergeable()
    case SetLoaded => d.Loadable()
    case Custom(f) => f in HandlerNames(d.handlers)
  }

  /** The configuration error `createStateHandlers` reports first, if any. */
  function ConfigError(d: Descriptor): Option<Error>
  {
    if !d.Mergeable() then None
    else if d.Toggleable() then Some(MergeableAndToggleable(d.name))
    else if !IsArray(d.Initial()) && !IsObj(d.Initial()) then Some(MergeableNotCollection(d.name, d.Initial()))
    else None
  }

  /** The default actions, assigned in the order the source assigns them. */
  function BuiltinActions(d: Descriptor, owner: nat): map<string, Action>
  {
    var m0: map<string, Action> := map[];
    var m1 := if d.Loadable() then m0[VerbName(SetLoaded, d.name) := Action(SetLoaded, owner)] else m0;
    var m2 := if d.Setable() then m1[VerbName(Set, d.name) := Action(Set, owner)] else m1;
    var m3 := if d.Resetable() then m2[VerbName(Reset, d.name) := Action(Reset, owner)] else m2;
    var m4 := if d.Toggleable() then m3[VerbName(Toggle, d.name) := Action(Toggle, owner)] else m3;
    if d.Mergeable() then m4[VerbName(Merge, d.name) := Action(Merge, owner)] else m4
  }

  /** The `forEach` over the handler names: `actions[fnName + capName] = ...`. */
  function AddCustom(acc: map<string, Action>, names: seq<string>, capName: string, owner: nat): map<string, Action>
    decreases |names|
  {
    if names == [] then acc
    else AddCustom(acc[names[0] + capName := Action(Custom(names[0]), owner)], names[1..], capName, owner)
  }

  /** The custom loop adds one action per handler name, bound to that
      handler, and keeps every other action it started with. */
  lemma {:induction false} AddCustomSpec(acc: map<string, Action>, names: seq<string>, capName: string, owner: nat)
    ensures AddCustom(acc, names, capName, owner).Keys == acc.Keys + set i | 0 <= i < |names| :: names[i] + capName
    ensures forall i :: 0 <= i < |names| ==>
              AddCustom(acc, names, capName, owner)[names[i] + capName] == Action(Custom(names[i]), owner)
    ensures forall k :: k in acc && (forall i :: 0 <= i < |names| ==> k != names[i] + capName) ==>
              AddCustom(acc, names, capName, owner)[k] == acc[k]
    decreases |names|
  {
    if names != [] {
      AddCustomSpec(acc[names[0] + capName := Action(Custom(names[0]), owner)], names[1..], capName, owner);
      forall j | 0 <= j < |names| && names[j] + capName == names[0] + capName
        ensures names[j] == names[0]
      {
        SuffixCancel(names[j], names[0], capName);
      }
      assert forall i :: 0 < i < |names| ==> names[1..][i - 1] == names[i];
    }
  }

  lemma SuffixCancel(a: string, b: string, c: string)
    requires a + c == b + c
    ensures a == b
  {
    assert a == (a + c)[..|a|];
    assert b == (b + c)[..|b|];
  }

  /** What `createStateHandlers` returns for the descriptor at index `owner`. */
  function StateActions(d: Descriptor, owner: nat): (r: Result<map<string, Action>, Error>)
  {
    match ConfigError(d)
    case Some(e) => Failure(e)
    case None => Success(AddCustom(BuiltinActions(d, owner), HandlerNames(d.handlers), Cap(d.name), owner))
  }

  /** The internal `setState(v)` of a descriptor: write the value, then, for a
      loadable descriptor, set its loaded flag (two updates in sequence). */
  function Write(d: Descriptor, s: State, v: Value): State
  {
    var s1 := s[d.name := v];
    if d.Loadable() then s1[d.LoadedKey() := Bool(true)] else s1
  }

  /** `handlers[f]`: the last handler of that name, as in an object literal. */
  function LastHandler(hs: seq<Handler>, f: string): Option<Value -> Value>
  {
    if hs == [] then None
    else if hs[|hs| - 1].name == f then Some(hs[|hs| - 1].fn)
    else LastHandler(hs[..|hs| - 1], f)
  }

  /** Running one action closure of `d` on state `s` with argument `arg`
      (the argument is ignored by the verbs that take none). */
  function Apply(d: Descriptor, s: State, v: Verb, arg: Value): Result<State, Error>
  {
    match v
    case Set =>
      if d.Mergeable() && TypeOf(arg) != TypeOf(d.Initial()) then Failure(TypeChange(d.name))
      else Success(Write(d, s, arg))
    case Reset => Success(Write(d, s, d.Initial()))
    case Toggle => Success(Write(d, s, Bool(!Truthy(Get(s, d.name)))))
    case Merge =>
      var cur := Get(s, d.name);
      if IsArray(cur) && IsArray(arg) then Success(Write(d, s, Arr(cur.items + arg.items)))
      else if IsObj(cur) && IsObj(arg) then Success(Write(d, s, Obj(cur.fields + arg.fields)))
      else Failure(MismatchedMerge(d.name, IsObj(cur)))
    case SetLoaded => Success(if d.Loadable() then s[d.LoadedKey() := Bool(true)] else s)
    case Custom(f) =>
      match LastHandler(d.handlers, f)
      case None => Failure(NotAFunction(f))
      case Some(fn) => Success(Write(d, s, fn(Get(s, d.name))))
  }

  /** Every action of the table belongs to one of the descriptors. */
  predicate OwnersIn(descs: seq<Descriptor>, actions: map<string, Action>)
  {
    forall k :: k in actions ==> actions[k].owner < |descs|
  }

  /** Calling `actions[name](arg)` on state `s`. */
  function Invoke(descs: seq<Descriptor>, actions: map<string, Action>, s: State, name: string, arg: Value): Result<State, Error>
    requires OwnersIn(descs, actions)
  {
    if name !in actions then Failure(NotAFunction(name))
    else Apply(descs[actions[name].owner], s, actions[name].verb, arg)
  }

  /** The state values and the action table `createState` builds. */
  datatype Created = Created(values: State, actions: map<string, Action>)

  /** One step of the reduce in `createState`: descriptor `d` at index `n`
      adds its initial state, its loaded flag and its actions. */
  function CreateStep(acc: Created, d: Descriptor, n: nat): (r: Result<Created, Error>)
    ensures r.Success? <==> ConfigError(d).None?
  {
    var acts :- StateActions(d, n);
    var values := acc.values[d.name := d.initialState];
    Success(Created(if d.Loadable() then values[d.LoadedKey() := Bool(false)] else values,
                    acc.actions + acts))
  }

  /** The reduce of `createState` over the first `n` descriptors. */
  function CreatePrefix(descs: seq<Descriptor>, n: nat): (r: Result<Created, Error>)
    requires n <= |descs|
  {
    if n == 0 then Success(Created(map[], map[]))
    else
      var acc :- CreatePrefix(descs, n - 1);
      CreateStep(acc, descs[n - 1], n - 1)
  }

  /** `createState`: the reduce over `withState`, one descriptor at a time. */
  function CreateState(descs: seq<Descriptor>): Result<Created, Error>
  {
    CreatePrefix(descs, |descs|)
  }

  /** `initState`, with the names in `omitHandlers` removed from the actions. */
  function InitState(descs: seq<Descriptor>, omitHandlers: seq<string>): Result<Created, Error>
  {
    var c :- CreateState(descs);
    Success(Created(c.values, c.actions - (set k | k in omitHandlers)))
  }

  /** Every generated action belongs to the descriptor it was built from. */
  lemma StateActionsOwner(d: Descriptor, owner: nat)
    requires StateActions(d, owner).Success?
    ensures forall k :: k in StateActions(d, owner).value ==> StateActions(d, owner).value[k].owner == owner
  {
    AddCustomSpec(BuiltinActions(d, owner), HandlerNames(d.handlers), Cap(d.name), owner);
  }

  /** One step of the reduce, spelled out. */
  lemma CreatePrefixStep(descs: seq<Descriptor>, n: nat)
    requires 0 < n <= |descs| && CreatePrefix(descs, n).Success?
    ensures CreatePrefix(descs, n - 1).Success?
    ensures CreatePrefix(descs, n) == CreateStep(CreatePrefix(descs, n - 1).value, descs[n - 1], n - 1)
  {
  }

  /** A step keeps the earlier owners and adds actions owned by descriptor `n`. */
  lemma CreateStepOwners(acc: Created, d: Descriptor, n: nat)
    requires CreateStep(acc, d, n).Success?
    requires forall k :: k in acc.actions ==> acc.actions[k].owner < n
    ensures forall k :: k in CreateStep(acc, d, n).value.actions ==> CreateStep(acc, d, n).value.actions[k].owner < n + 1
  {
    StateActionsOwner(d, n);
  }

  lemma {:induction false} CreatePrefixOwners(descs: seq<Descriptor>, n: nat)
    requires n <= |descs| && CreatePrefix(descs, n).Success?
    ensures forall k :: k in CreatePrefix(descs, n).value.actions ==> CreatePrefix(descs, n).value.actions[k].owner < n
  {
    if n > 0 {
      CreatePrefixOwners(descs, n - 1);
      CreateStepOwners(CreatePrefix(descs, n - 1).value, descs[n - 1], n - 1);
    }
  }

  /** The actions `initState` builds all belong to one of the descriptors. */
  lemma InitStateOwners(descs: seq<Descriptor>, omitHandlers: seq<string>)
    requires InitState(descs, omitHandlers).Success?
    ensures OwnersIn(descs, InitState(descs, omitHandlers).value.actions)
  {
    CreatePrefixOwners(descs, |descs|);
  }

  /** A key of the component's state object holds a value, an action or,
      unflattened, the whole `actions` table. */
  datatype Entry = Datum(v: Value) | Method(a: Action) | Table(actions: map<string, Action>)

  /** The state object as the view library holds it after mount. */
  function Namespace(c: Created, flatten: bool): (r: map<string, Entry>)
    ensures flatten ==> forall k :: k in c.actions ==> k in r && r[k] == Method(c.actions[k])
    ensures flatten ==> forall k :: k in c.values && k != "actions" && k !in c.actions ==> k in r && r[k] == Datum(c.values[k])
    ensures !flatten ==> "actions" in r && r["actions"] == Table(c.actions)
    ensures !flatten ==> forall k :: k in c.values && k != "actions" ==> k in r && r[k] == Datum(c.values[k])
    ensures r.Keys == (if flatten then (c.values.Keys - {"actions"}) + c.actions.Keys else c.values.Keys + {"actions"})
  {
    var data := map k | k in c.values && k != "actions" :: Datum(c.values[k]);
    if flatten then data + map k | k in c.actions :: Method(c.actions[k])
    else data["actions" := Table(c.actions)]
  }

  /** The props `render` strips before forwarding. */
  const StoreConfigProps: set<string> := {"withState", "render", "withHandlers", "omitHandlers", "flatten", "_onError"}

  /** The component: its configuration props and its state, kept as the data
      values and the action table (see `Namespace` for the combined object). */
  class Store {
    const withState: seq<Descriptor>
    const omitHandlers: seq<string>
    const flatten: bool
    var state: State
    var actions: map<string, Action>

    ghost predicate Valid()
      reads this
    {
      OwnersIn(withState, actions)
    }

    /** `state = {}` before mount. */
    constructor (withState: seq<Descriptor>, omitHandlers: seq<string>, flatten: bool)
      ensures this.withState == withState && this.omitHandlers == omitHandlers && this.flatten == flatten
      ensures state == map[] && actions == map[]
      ensures Valid()
    {
      this.withState := withState;
      this.omitHandlers := omitHandlers;
      this.flatten := flatten;
      state := map[];
      actions := map[];
    }

    /** `createStateHandlers(withState[owner])`: fills an action table field
        by field, then once per custom handler. */
    method CreateStateHandlers(owner: nat) returns (r: Result<map<string, Action>, Error>)
      requires owner < |withState|
      ensures r == StateActions(withState[owner], owner)
    {
      var d := withState[owner];
      var capName := Cap(d.name);
      var acts: map<string, Action> := map[];
      if d.Loadable() {
        acts := acts["set" + Cap(d.LoadedKey()) := Action(SetLoaded, owner)];
      }
      if d.Setable() {
        acts := acts["set" + capName := Action(Set, owner)];
      }
      if d.Resetable() {
        acts := acts["reset" + capName := Action(Reset, owner)];
      }
      if d.Toggleable() {
        acts := acts["toggle" + capName := Action(Toggle, owner)];
      }
      if d.Mergeable() {
        if d.Toggleable() {
          return Failure(MergeableAndToggleable(d.name));
        }
        if !IsArray(d.Initial()) && !IsObj(d.Initial()) {
          return Failure(MergeableNotCollection(d.name, d.Initial()));
        }
        acts := acts["merge" + capName := Action(Merge, owner)];
      }
      assert acts == BuiltinActions(d, owner);
      ghost var names := HandlerNames(d.handlers);
      var i := 0;
      while i < |d.handlers|
        invariant 0 <= i <= |d.handlers|
        invariant AddCustom(acts, names[i..], capName, owner) == AddCustom(BuiltinActions(d, owner), names, capName, owner)
      {
        var fnName := d.handlers[i].name;
        assert names[i..][0] == fnName && names[i..][1..] == names[i + 1..];
        acts := acts[fnName + capName := Action(Custom(fnName), owner)];
        i := i + 1;
      }
      return Success(acts);
    }

    /** `componentWillMount`: `setState(initState())` merges the initial
        state into the current one; a thrown error leaves the state as it was. */
    method Mount() returns (o: Outcome<Error>)
      requires Valid()
      modifies this
      ensures Valid()
      ensures InitState(withState, omitHandlers).Success? ==>
                o == Pass && state == Overlay(old(state), InitState(withState, omitHandlers).value.values)
                && actions == Overlay(old(actions), InitState(withState, omitHandlers).value.actions)
      ensures InitState(withState, omitHandlers).Failure? ==>
                o == Fail(InitState(withState, omitHandlers).error)
                && state == old(state) && actions == old(actions)
    {
      var r := InitState(withState, omitHandlers);
      if r.Success? {
        InitStateOwners(withState, omitHandlers);
      }
      match r
      case Failure(e) =>
        o := Fail(e);
      case Success(c) =>
        state := Overlay(state, c.values);
        actions := Overlay(actions, c.actions);
        o := Pass;
    }

    /** Calling the action `name` with `arg`: the state changes exactly as
        `Invoke` says, or not at all when the call throws. */
    method Dispatch(name: string, arg: Value) returns (o: Outcome<Error>)
      requires Valid()
      modifies this`state
      ensures Valid()
      ensures Invoke(withState, actions, old(state), name, arg).Success? ==>
                o == Pass && state == Invoke(withState, actions, old(state), name, arg).value
      ensures Invoke(withState, actions, old(state), name, arg).Failure? ==>
                o == Fail(Invoke(withState, actions, old(state), name, arg).error) && state == old(state)
    {
      var r := Invoke(withState, actions, state, name, arg);
      match r
      case Failure(e) =>
        o := Fail(e);
      case Success(s) =>
        state := s;
        o := Pass;
    }

    /** The props `render` hands to the render callback. */
    function Props(userProps: map<string, Entry>): map<string, Entry>
      reads this
    {
      RenderProps(Namespace(Created(state, actions), flatten), userProps, StoreConfigProps)
    }
  }
}

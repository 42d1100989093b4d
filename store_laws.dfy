/** What the Store's actions, its configuration checks and its initial state
    guarantee. */
module StoreLaws {
  import opened Js
  import opened StoreComponent

  /** `r` is `s` after the descriptor's internal `setState(v)`: the value is
      stored under the descriptor's name, a loadable descriptor's flag becomes
      true, and every other key reads as before. */
  ghost predicate WroteOnly(d: Descriptor, s: State, v: Value, r: State)
  {
    && Get(r, d.name) == v
    && (d.Loadable() ==> Get(r, d.LoadedKey()) == Bool(true))
    && r.Keys == s.Keys + {d.name} + (if d.Loadable() then {d.LoadedKey()} else {})
    && forall k :: k != d.name && !(d.Loadable() && k == d.LoadedKey()) ==> Get(r, k) == Get(s, k)
  }

  lemma WriteWritesOnly(d: Descriptor, s: State, v: Value)
    ensures WroteOnly(d, s, v, Write(d, s, v))
  {
    assert |d.LoadedKey()| > |d.name|;
  }

  /** A second write of the same descriptor overrides the first. */
  lemma WriteTwice(d: Descriptor, s: State, v: Value, w: Value)
    ensures Write(d, Write(d, s, v), w) == Write(d, s, w)
  {
    var l, r := Write(d, Write(d, s, v), w), Write(d, s, w);
    assert |d.LoadedKey()| > |d.name|;
    assert l.Keys == r.Keys;
    assert forall k :: k in l ==> l[k] == r[k];
  }

  // ---------------------------------------------------------------- set

  /** `set<Name>(v)` stores `v` (and the loaded flag), and throws only for a
      mergeable descriptor when `typeof v` differs from the initial state's. */
  lemma SetStores(d: Descriptor, s: State, v: Value)
    ensures Apply(d, s, Set, v).Success? <==> !(d.Mergeable() && TypeOf(v) != TypeOf(d.Initial()))
    ensures Apply(d, s, Set, v).Failure? ==> Apply(d, s, Set, v).error == TypeChange(d.name)
    ensures Apply(d, s, Set, v).Success? ==> WroteOnly(d, s, v, Apply(d, s, Set, v).value)
  {
    WriteWritesOnly(d, s, v);
  }

  /** Setting twice is setting the second value. */
  lemma SetTwiceLastWins(d: Descriptor, s: State, v: Value, w: Value)
    requires !d.Mergeable()
    ensures Apply(d, s, Set, v).Success?
    ensures Apply(d, Apply(d, s, Set, v).value, Set, w) == Apply(d, s, Set, w)
  {
    WriteTwice(d, s, v, w);
  }

  /** `typeof null` is "object", so a mergeable array state accepts `null`
      through its setter, after which merging an array throws. */
  lemma SetLetsNullIntoMergeableArray(d: Descriptor, s: State, xs: seq<Value>)
    requires d.Mergeable() && !d.Toggleable() && d.Initial().Arr?
    ensures Apply(d, s, Set, Null).Success?
    ensures Apply(d, Apply(d, s, Set, Null).value, Merge, Arr(xs)) == Failure(MismatchedMerge(d.name, false))
  {
    WriteWritesOnly(d, s, Null);
  }

  // ---------------------------------------------------------------- reset

  /** `reset<Name>()` stores the initial state whatever the state was. */
  lemma ResetRestores(d: Descriptor, s: State, arg: Value)
    ensures Apply(d, s, Reset, arg).Success?
    ensures WroteOnly(d, s, d.Initial(), Apply(d, s, Reset, arg).value)
  {
    WriteWritesOnly(d, s, d.Initial());
  }

  /** Resetting after any action of the descriptor lands where resetting
      straight away lands, and resetting twice is resetting once. */
  lemma ResetForgetsHistory(d: Descriptor, s: State, v: Verb, arg: Value)
    requires Apply(d, s, v, arg).Success?
    ensures Apply(d, Apply(d, s, v, arg).value, Reset, arg) == Apply(d, s, Reset, arg)
    ensures Apply(d, Apply(d, s, Reset, arg).value, Reset, arg) == Apply(d, s, Reset, arg)
  {
    WriteTwice(d, s, d.Initial(), d.Initial());
    var s1 := Apply(d, s, v, arg).value;
    if v == SetLoaded {
      var l, r := Write(d, s1, d.Initial()), Write(d, s, d.Initial());
      assert |d.LoadedKey()| > |d.name|;
      assert l.Keys == r.Keys;
      assert forall k :: k in l ==> l[k] == r[k];
      assert l == r;
      assert Apply(d, s1, Reset, arg) == Success(l);
    } else {
      var x :| s1 == Write(d, s, x);
      WriteTwice(d, s, x, d.Initial());
    }
  }

  /** An absent `initialState` is stored as `undefined` by `createState` but
      restored as `null` by `reset<Name>`. */
  lemma ResetOfAbsentInitialIsNull(d: Descriptor, s: State)
    requires d.initialState == Undefined && !d.Mergeable()
    ensures CreateState([d]).Success? && CreateState([d]).value.values[d.name] == Undefined
    ensures Get(Apply(d, s, Reset, Undefined).value, d.name) == Null
  {
    CreateStateSucceedsIff([d]);
    CreatePrefixStep([d], 1);
    CreateStepValues(CreatePrefix([d], 0).value, d, 0);
    WriteWritesOnly(d, s, Null);
  }

  // ---------------------------------------------------------------- toggle

  /** `toggle<Name>()` stores the boolean negation of the current value's truthiness. */
  lemma ToggleNegates(d: Descriptor, s: State)
    ensures Apply(d, s, Toggle, Undefined).Success?
    ensures WroteOnly(d, s, Bool(!Truthy(Get(s, d.name))), Apply(d, s, Toggle, Undefined).value)
  {
    WriteWritesOnly(d, s, Bool(!Truthy(Get(s, d.name))));
  }

  /** The documented edge case: a counter at 0 toggles to `true`. */
  lemma ToggleZeroIsTrue(s: State)
    requires Get(s, "count") == Num(0)
    ensures Apply(Descriptor("count", Num(0), [], Some(true), None, Some(true), None, None), s, Toggle, Undefined).value["count"] == Bool(true)
  {
  }

  /** Toggling twice gives back the truthiness of the value, so a boolean
      comes back unchanged. */
  lemma ToggleTwice(d: Descriptor, s: State)
    ensures Get(Apply(d, Apply(d, s, Toggle, Undefined).value, Toggle, Undefined).value, d.name) == Bool(Truthy(Get(s, d.name)))
    ensures Get(s, d.name).Bool? ==>
              Get(Apply(d, Apply(d, s, Toggle, Undefined).value, Toggle, Undefined).value, d.name) == Get(s, d.name)
  {
    var s1 := Apply(d, s, Toggle, Undefined).value;
    WriteWritesOnly(d, s, Bool(!Truthy(Get(s, d.name))));
    WriteWritesOnly(d, s1, Bool(!Truthy(Get(s1, d.name))));
  }

  // ---------------------------------------------------------------- merge

  /** Merging arrays appends the update, in order. */
  lemma MergeArrays(d: Descriptor, s: State, xs: seq<Value>, ys: seq<Value>)
    requires Get(s, d.name) == Arr(xs)
    ensures Apply(d, s, Merge, Arr(ys)).Success?
    ensures WroteOnly(d, s, Arr(xs + ys), Apply(d, s, Merge, Arr(ys)).value)
  {
    WriteWritesOnly(d, s, Arr(xs + ys));
  }

  /** Two array merges in a row are one merge of the concatenated updates. */
  lemma MergeArraysCompose(d: Descriptor, s: State, xs: seq<Value>, ys: seq<Value>, zs: seq<Value>)
    requires Get(s, d.name) == Arr(xs)
    ensures Apply(d, s, Merge, Arr(ys)).Success?
    ensures Apply(d, Apply(d, s, Merge, Arr(ys)).value, Merge, Arr(zs)) == Apply(d, s, Merge, Arr(ys + zs))
  {
    var s1 := Apply(d, s, Merge, Arr(ys)).value;
    WriteWritesOnly(d, s, Arr(xs + ys));
    assert (xs + ys) + zs == xs + (ys + zs);
    assert Write(d, s1, Arr(xs + ys + zs)) == Write(d, s, Arr(xs + (ys + zs)));
  }

  /** Merging objects is their shallow union, the update's keys winning. */
  lemma MergeObjects(d: Descriptor, s: State, a: map<string, Value>, b: map<string, Value>)
    requires Get(s, d.name) == Obj(a)
    ensures Apply(d, s, Merge, Obj(b)).Success?
    ensures var r := Apply(d, s, Merge, Obj(b)).value;
            && Get(r, d.name).Obj?
            && Get(r, d.name).fields.Keys == a.Keys + b.Keys
            && (forall k :: k in b ==> Get(r, d.name).fields[k] == b[k])
            && (forall k :: k in a && k !in b ==> Get(r, d.name).fields[k] == a[k])
            && WroteOnly(d, s, Get(r, d.name), r)
  {
    WriteWritesOnly(d, s, Obj(a + b));
  }

  /** Merging the same object twice is merging it once. */
  lemma MergeObjectsIdempotent(d: Descriptor, s: State, a: map<string, Value>, b: map<string, Value>)
    requires Get(s, d.name) == Obj(a)
    ensures Apply(d, s, Merge, Obj(b)).Success?
    ensures Apply(d, Apply(d, s, Merge, Obj(b)).value, Merge, Obj(b)) == Apply(d, s, Merge, Obj(b))
  {
    var s1 := Apply(d, s, Merge, Obj(b)).value;
    WriteWritesOnly(d, s, Obj(a + b));
    assert (a + b) + b == a + b;
    assert Write(d, s1, Obj(a + b)) == s1;
  }

  /** A merge succeeds exactly when the state and the update are both arrays
      or both objects; otherwise it throws, naming the kind it expected. */
  lemma MergeSucceedsIff(d: Descriptor, s: State, u: Value)
    ensures Apply(d, s, Merge, u).Success? <==>
              (IsArray(Get(s, d.name)) && IsArray(u)) || (IsObj(Get(s, d.name)) && IsObj(u))
    ensures Apply(d, s, Merge, u).Failure? ==>
              Apply(d, s, Merge, u).error == MismatchedMerge(d.name, IsObj(Get(s, d.name)))
  {
  }

  /** A successful merge keeps the kind (array or object) of the state. */
  lemma MergeKeepsKind(d: Descriptor, s: State, u: Value)
    requires Apply(d, s, Merge, u).Success?
    ensures IsArray(Get(Apply(d, s, Merge, u).value, d.name)) == IsArray(Get(s, d.name))
    ensures IsObj(Get(Apply(d, s, Merge, u).value, d.name)) == IsObj(Get(s, d.name))
  {
    var cur := Get(s, d.name);
    if IsArray(cur) && IsArray(u) {
      WriteWritesOnly(d, s, Arr(cur.items + u.items));
    } else {
      WriteWritesOnly(d, s, Obj(cur.fields + u.fields));
    }
  }

  // ---------------------------------------------------------------- loaded and custom

  /** `set<Name>Loaded()` raises the loaded flag of a loadable descriptor and changes nothing else. */
  lemma SetLoadedRaisesFlag(d: Descriptor, s: State)
    requires d.Loadable()
    ensures var r := Apply(d, s, SetLoaded, Undefined).value;
            && r.Keys == s.Keys + {d.LoadedKey()}
            && r[d.LoadedKey()] == Bool(true)
            && forall k :: k in s && k != d.LoadedKey() ==> r[k] == s[k]
  {
  }

  /** `handlers[f]` finds the last handler of that name. */
  lemma {:induction false} LastHandlerFinds(hs: seq<Handler>, i: nat)
    requires i < |hs|
    requires forall j :: i < j < |hs| ==> hs[j].name != hs[i].name
    ensures LastHandler(hs, hs[i].name).Some?
    ensures LastHandler(hs, hs[i].name).value == hs[i].fn
  {
    if i < |hs| - 1 {
      var init := hs[..|hs| - 1];
      assert forall j :: i < j < |init| ==> init[j] == hs[j];
      LastHandlerFinds(init, i);
    }
  }

  /** A custom handler `f` writes `f(state[name])`. */
  lemma CustomWrites(d: Descriptor, s: State, i: nat)
    requires i < |d.handlers|
    requires forall j :: i < j < |d.handlers| ==> d.handlers[j].name != d.handlers[i].name
    ensures Apply(d, s, Custom(d.handlers[i].name), Undefined).Success?
    ensures WroteOnly(d, s, d.handlers[i].fn(Get(s, d.name)),
                      Apply(d, s, Custom(d.handlers[i].name), Undefined).value)
  {
    LastHandlerFinds(d.handlers, i);
    WriteWritesOnly(d, s, d.handlers[i].fn(Get(s, d.name)));
  }

  // ---------------------------------------------------------------- building the actions

  /** Building the actions fails exactly for a mergeable descriptor that is
      also toggleable or whose initial state is neither array nor object,
      and the toggleable conflict is the one reported first. */
  lemma ConfigErrors(d: Descriptor, owner: nat)
    ensures StateActions(d, owner).Failure? <==>
              d.Mergeable() && (d.Toggleable() || (!IsArray(d.Initial()) && !IsObj(d.Initial())))
    ensures d.Mergeable() && d.Toggleable() ==> StateActions(d, owner) == Failure(MergeableAndToggleable(d.name))
    ensures d.Mergeable() && !d.Toggleable() && !IsArray(d.Initial()) && !IsObj(d.Initial()) ==>
              StateActions(d, owner) == Failure(MergeableNotCollection(d.name, d.Initial()))
  {
  }

  /** The verbs the source registers without a handler. */
  ghost predicate Builtin(v: Verb) { !v.Custom? }

  /** Some custom handler's action name coincides with that of `v`. */
  ghost predicate Shadowed(d: Descriptor, v: Verb)
  {
    exists i :: 0 <= i < |d.handlers| && d.handlers[i].name + Cap(d.name) == VerbName(v, d.name)
  }

  lemma BuiltinNamesDistinct(name: string, v: Verb, w: Verb)
    requires Builtin(v) && Builtin(w) && v != w
    ensures VerbName(v, name) != VerbName(w, name)
  {
    assert |Cap(name + "Loaded")| == |name| + 6;
    assert ("reset" + Cap(name))[0] == 'r';
    assert ("merge" + Cap(name))[0] == 'm';
  }

  lemma BuiltinActionsExact(d: Descriptor, owner: nat, v: Verb)
    requires Builtin(v)
    ensures VerbName(v, d.name) in BuiltinActions(d, owner) <==> Enabled(d, v)
    ensures Enabled(d, v) ==> BuiltinActions(d, owner)[VerbName(v, d.name)] == Action(v, owner)
  {
    forall w | Builtin(w) && w != v
      ensures VerbName(w, d.name) != VerbName(v, d.name)
    {
      BuiltinNamesDistinct(d.name, w, v);
    }
  }

  lemma BuiltinActionsKeys(d: Descriptor, owner: nat, k: string)
    requires k in BuiltinActions(d, owner)
    ensures exists v :: Builtin(v) && Enabled(d, v) && VerbName(v, d.name) == k
  {
  }

  /** The action table of a well-configured descriptor has exactly the names
      its flags and handlers ask for: verb + `cap(name)`. */
  lemma ActionsPerFlags(d: Descriptor, owner: nat)
    requires ConfigError(d).None?
    ensures StateActions(d, owner).Success?
    ensures forall v :: Enabled(d, v) ==> VerbName(v, d.name) in StateActions(d, owner).value
    ensures forall k :: k in StateActions(d, owner).value ==>
              exists v :: Enabled(d, v) && VerbName(v, d.name) == k
  {
    var names := HandlerNames(d.handlers);
    var capName := Cap(d.name);
    var m := StateActions(d, owner).value;
    AddCustomSpec(BuiltinActions(d, owner), names, capName, owner);
    forall v | Enabled(d, v)
      ensures VerbName(v, d.name) in m
    {
      if v.Custom? {
        var i :| 0 <= i < |names| && names[i] == v.fnName;
        assert VerbName(v, d.name) == names[i] + capName;
      } else {
        BuiltinActionsExact(d, owner, v);
      }
    }
    forall k | k in m
      ensures exists v :: Enabled(d, v) && VerbName(v, d.name) == k
    {
      if k in BuiltinActions(d, owner) {
        BuiltinActionsKeys(d, owner, k);
      } else {
        var i :| 0 <= i < |names| && k == names[i] + capName;
        assert Enabled(d, Custom(names[i])) && VerbName(Custom(names[i]), d.name) == k;
      }
    }
  }

  /** Each action is bound to its own verb: a default action unless a custom
      handler's name shadows it, and every custom handler. */
  lemma ActionsBoundToVerbs(d: Descriptor, owner: nat)
    requires ConfigError(d).None?
    ensures StateActions(d, owner).Success?
    ensures forall v :: Builtin(v) && Enabled(d, v) && !Shadowed(d, v) ==>
              VerbName(v, d.name) in StateActions(d, owner).value &&
              StateActions(d, owner).value[VerbName(v, d.name)] == Action(v, owner)
    ensures forall i :: 0 <= i < |d.handlers| ==>
              d.handlers[i].name + Cap(d.name) in StateActions(d, owner).value &&
              StateActions(d, owner).value[d.handlers[i].name + Cap(d.name)] == Action(Custom(d.handlers[i].name), owner)
  {
    var names := HandlerNames(d.handlers);
    AddCustomSpec(BuiltinActions(d, owner), names, Cap(d.name), owner);
    forall v | Builtin(v) && Enabled(d, v) && !Shadowed(d, v)
      ensures StateActions(d, owner).value[VerbName(v, d.name)] == Action(v, owner)
    {
      BuiltinActionsExact(d, owner, v);
      forall i | 0 <= i < |names|
        ensures VerbName(v, d.name) != names[i] + Cap(d.name)
      {
        assert d.handlers[i].name == names[i];
      }
    }
    forall i | 0 <= i < |d.handlers|
      ensures d.handlers[i].name + Cap(d.name) in StateActions(d, owner).value
      ensures StateActions(d, owner).value[d.handlers[i].name + Cap(d.name)] == Action(Custom(d.handlers[i].name), owner)
    {
      assert names[i] == d.handlers[i].name;
    }
  }

  /** With the default flags a descriptor gets exactly one action, `set<Name>`. */
  lemma DefaultFlags(name: string, init: Value, owner: nat)
    ensures var d := Descriptor(name, init, [], None, None, None, None, None);
            StateActions(d, owner) == Success(map["set" + Cap(name) := Action(Set, owner)])
  {
  }

  // ---------------------------------------------------------------- createState

  /** The keys and values descriptor `d` writes into the initial state: its
      initial state under its name and, when loadable, `false` under its
      loaded flag. */
  ghost function Written(d: Descriptor): State
  {
    var m := map[d.name := d.initialState];
    if d.Loadable() then m[d.LoadedKey() := Bool(false)] else m
  }

  /** Descriptor `d` puts key `k` into the initial state. */
  ghost predicate WritesKey(d: Descriptor, k: string)
  {
    k in Written(d)
  }

  /** `d` is the last descriptor of `descs` writing `k`. */
  ghost predicate LastWriter(descs: seq<Descriptor>, i: int, k: string)
  {
    0 <= i < |descs| && WritesKey(descs[i], k) && forall j :: i < j < |descs| ==> !WritesKey(descs[j], k)
  }

  /** One step of the reduce succeeds when the steps before it did and its
      descriptor is well configured, and otherwise passes the first error on. */
  lemma CreatePrefixStepOutcome(descs: seq<Descriptor>, n: nat)
    requires 0 < n <= |descs|
    ensures CreatePrefix(descs, n).Success? <==> CreatePrefix(descs, n - 1).Success? && ConfigError(descs[n - 1]).None?
    ensures CreatePrefix(descs, n - 1).Failure? ==> CreatePrefix(descs, n) == CreatePrefix(descs, n - 1)
    ensures CreatePrefix(descs, n - 1).Success? && ConfigError(descs[n - 1]).Some? ==>
              CreatePrefix(descs, n) == Failure(ConfigError(descs[n - 1]).value)
  {
  }

  /** Building the initial state succeeds exactly when every descriptor is
      well configured. */
  lemma {:induction false} CreatePrefixSucceedsIff(descs: seq<Descriptor>, n: nat)
    requires n <= |descs|
    ensures CreatePrefix(descs, n).Success? <==> forall i :: 0 <= i < n ==> ConfigError(descs[i]).None?
  {
    if n > 0 {
      CreatePrefixSucceedsIff(descs, n - 1);
      CreatePrefixStepOutcome(descs, n);
      assert (forall i :: 0 <= i < n ==> ConfigError(descs[i]).None?) <==>
             (forall i :: 0 <= i < n - 1 ==> ConfigError(descs[i]).None?) && ConfigError(descs[n - 1]).None?;
    }
  }

  lemma CreateStateSucceedsIff(descs: seq<Descriptor>)
    ensures CreateState(descs).Success? <==> forall i :: 0 <= i < |descs| ==> ConfigError(descs[i]).None?
  {
    CreatePrefixSucceedsIff(descs, |descs|);
  }

  lemma {:induction false} CreatePrefixFirstError(descs: seq<Descriptor>, n: nat, i: nat)
    requires i < n <= |descs| && ConfigError(descs[i]).Some?
    requires forall j :: 0 <= j < i ==> ConfigError(descs[j]).None?
    ensures CreatePrefix(descs, n) == Failure(ConfigError(descs[i]).value)
  {
    CreatePrefixStepOutcome(descs, n);
    if i < n - 1 {
      CreatePrefixFirstError(descs, n - 1, i);
    } else {
      CreatePrefixSucceedsIff(descs, n - 1);
    }
  }

  /** The error reported is that of the first badly configured descriptor. */
  lemma CreateStateFirstError(descs: seq<Descriptor>, i: nat)
    requires i < |descs| && ConfigError(descs[i]).Some?
    requires forall j :: 0 <= j < i ==> ConfigError(descs[j]).None?
    ensures CreateState(descs) == Failure(ConfigError(descs[i]).value)
  {
    CreatePrefixFirstError(descs, |descs|, i);
  }

  /** The successive `Object.assign`s of the reduce: the union of the first
      `n` maps of `ms`, a later map winning on a shared key. */
  ghost function Union<T>(ms: seq<map<string, T>>, n: nat): map<string, T>
    requires n <= |ms|
  {
    if n == 0 then map[] else Union(ms, n - 1) + ms[n - 1]
  }

  lemma {:induction false} UnionKeys<T>(ms: seq<map<string, T>>, n: nat)
    requires n <= |ms|
    ensures forall k :: k in Union(ms, n) <==> exists i :: 0 <= i < n && k in ms[i]
  {
    if n > 0 {
      UnionKeys(ms, n - 1);
    }
  }

  lemma {:induction false} UnionLastWins<T>(ms: seq<map<string, T>>, n: nat, i: nat, k: string)
    requires i < n <= |ms| && k in ms[i]
    requires forall j :: i < j < n ==> k !in ms[j]
    ensures k in Union(ms, n) && Union(ms, n)[k] == ms[i][k]
  {
    if i < n - 1 {
      UnionLastWins(ms, n - 1, i, k);
    }
  }

  /** What one step of the reduce does to the state values. */
  lemma CreateStepValues(acc: Created, d: Descriptor, n: nat)
    requires CreateStep(acc, d, n).Success?
    ensures CreateStep(acc, d, n).value.values == acc.values + Written(d)
  {
  }

  /** What one step of the reduce does to the action table. */
  lemma CreateStepActions(acc: Created, d: Descriptor, n: nat)
    requires CreateStep(acc, d, n).Success?
    ensures StateActions(d, n).Success?
    ensures CreateStep(acc, d, n).value.actions == acc.actions + StateActions(d, n).value
  {
  }

  /** After the first `n` descriptors the values are the union of what they
      write. */
  lemma {:induction false} CreatePrefixValues(descs: seq<Descriptor>, n: nat, ws: seq<State>)
    requires n <= |descs| && n <= |ws| && CreatePrefix(descs, n).Success?
    requires forall i :: 0 <= i < n ==> ws[i] == Written(descs[i])
    ensures CreatePrefix(descs, n).value.values == Union(ws, n)
  {
    if n > 0 {
      CreatePrefixValues(descs, n - 1, ws);
      CreateStepValues(CreatePrefix(descs, n - 1).value, descs[n - 1], n - 1);
    }
  }

  /** After the first `n` descriptors the actions are the union of their
      tables `ts`. */
  lemma {:induction false} CreatePrefixActions(descs: seq<Descriptor>, n: nat, ts: seq<map<string, Action>>)
    requires n <= |descs| && n <= |ts| && CreatePrefix(descs, n).Success?
    requires forall i :: 0 <= i < n ==> StateActions(descs[i], i) == Success(ts[i])
    ensures CreatePrefix(descs, n).value.actions == Union(ts, n)
  {
    if n > 0 {
      CreatePrefixActions(descs, n - 1, ts);
      CreateStepActions(CreatePrefix(descs, n - 1).value, descs[n - 1], n - 1);
    }
  }

  /** Every descriptor of a successful build has its action table. */
  lemma CreateStateTables(descs: seq<Descriptor>) returns (ts: seq<map<string, Action>>)
    requires CreateState(descs).Success?
    ensures |ts| == |descs|
    ensures forall i :: 0 <= i < |descs| ==> StateActions(descs[i], i) == Success(ts[i])
  {
    CreateStateSucceedsIff(descs);
    forall i | 0 <= i < |descs|
      ensures StateActions(descs[i], i).Success?
    {
      assert CreateStep(Created(map[], map[]), descs[i], i).Success?;
      CreateStepActions(Created(map[], map[]), descs[i], i);
    }
    ts := seq(|descs|, i requires 0 <= i < |descs| => StateActions(descs[i], i).value);
  }

  /** What each descriptor writes, as a sequence of maps. */
  lemma WrittenMaps(descs: seq<Descriptor>) returns (ws: seq<State>)
    ensures |ws| == |descs|
    ensures forall i :: 0 <= i < |descs| ==> ws[i] == Written(descs[i])
  {
    ws := seq(|descs|, i requires 0 <= i < |descs| => Written(descs[i]));
  }

  /** The union of what the descriptors write, in terms of `WritesKey`. */
  lemma UnionOfWritten(descs: seq<Descriptor>, ws: seq<State>)
    requires |ws| == |descs| && forall i :: 0 <= i < |descs| ==> ws[i] == Written(descs[i])
    ensures forall k :: k in Union(ws, |ws|) <==> exists i :: 0 <= i < |descs| && WritesKey(descs[i], k)
    ensures forall i, k :: LastWriter(descs, i, k) ==> Union(ws, |ws|)[k] == Written(descs[i])[k]
  {
    UnionKeys(ws, |ws|);
    forall i, k | LastWriter(descs, i, k)
      ensures Union(ws, |ws|)[k] == Written(descs[i])[k]
    {
      UnionLastWins(ws, |ws|, i, k);
    }
  }

  /** The initial state holds exactly the descriptors' names and the loaded
      flags of the loadable ones; under each key is what the last descriptor
      writing it put there (the initial state, or `false` for a flag). */
  lemma CreateStateValues(descs: seq<Descriptor>)
    requires CreateState(descs).Success?
    ensures forall k :: k in CreateState(descs).value.values <==> exists i :: 0 <= i < |descs| && WritesKey(descs[i], k)
    ensures forall i, k :: LastWriter(descs, i, k) ==> CreateState(descs).value.values[k] == Written(descs[i])[k]
  {
    var ws := WrittenMaps(descs);
    CreatePrefixValues(descs, |descs|, ws);
    UnionOfWritten(descs, ws);
  }

  /** The keys of the union of the descriptors' tables. */
  lemma UnionOfTablesKeys(descs: seq<Descriptor>, ts: seq<map<string, Action>>)
    requires |ts| == |descs| && forall i :: 0 <= i < |descs| ==> StateActions(descs[i], i) == Success(ts[i])
    ensures forall k :: k in Union(ts, |ts|) <==> exists i :: 0 <= i < |descs| && k in StateActions(descs[i], i).value
  {
    UnionKeys(ts, |ts|);
  }

  /** Under each key of the union is the last table's action for it. */
  lemma UnionOfTablesLastWins(descs: seq<Descriptor>, ts: seq<map<string, Action>>, i: nat, k: string)
    requires |ts| == |descs| && forall i :: 0 <= i < |descs| ==> StateActions(descs[i], i) == Success(ts[i])
    requires i < |descs| && k in StateActions(descs[i], i).value
    requires forall j :: i < j < |descs| ==> k !in StateActions(descs[j], j).value
    ensures k in Union(ts, |ts|) && Union(ts, |ts|)[k] == StateActions(descs[i], i).value[k]
  {
    forall j | i < j < |ts|
      ensures k !in ts[j]
    {
      assert StateActions(descs[j], j) == Success(ts[j]);
    }
    UnionLastWins(ts, |ts|, i, k);
  }

  /** The action table holds exactly the actions of all descriptors; under
      each name is the action of the last descriptor that has that name. */
  lemma CreateStateActions(descs: seq<Descriptor>)
    requires CreateState(descs).Success?
    ensures forall i :: 0 <= i < |descs| ==> StateActions(descs[i], i).Success?
    ensures forall k :: k in CreateState(descs).value.actions <==>
              exists i :: 0 <= i < |descs| && k in StateActions(descs[i], i).value
    ensures forall i, k :: 0 <= i < |descs| && k in StateActions(descs[i], i).value
                           && (forall j :: i < j < |descs| ==> k !in StateActions(descs[j], j).value) ==>
              CreateState(descs).value.actions[k] == StateActions(descs[i], i).value[k]
  {
    var ts := CreateStateTables(descs);
    CreatePrefixActions(descs, |descs|, ts);
    UnionOfTablesKeys(descs, ts);
    forall i, k | 0 <= i < |descs| && k in StateActions(descs[i], i).value
                  && (forall j :: i < j < |descs| ==> k !in StateActions(descs[j], j).value)
      ensures CreateState(descs).value.actions[k] == StateActions(descs[i], i).value[k]
    {
      UnionOfTablesLastWins(descs, ts, i, k);
    }
  }

  /** Under a duplicate name the later descriptor's initial state wins. */
  lemma DuplicateNameLaterWins(descs: seq<Descriptor>, i: nat, j: nat)
    requires CreateState(descs).Success?
    requires i < j == |descs| - 1 && descs[i].name == descs[j].name
    ensures CreateState(descs).value.values[descs[j].name] == descs[j].initialState
  {
    CreateStateValues(descs);
    assert LastWriter(descs, j, descs[j].name);
  }

  /** `initState` keeps the initial state and drops exactly the omitted actions. */
  lemma InitStateOmits(descs: seq<Descriptor>, omitHandlers: seq<string>)
    requires CreateState(descs).Success?
    ensures InitState(descs, omitHandlers).Success?
    ensures InitState(descs, omitHandlers).value.values == CreateState(descs).value.values
    ensures forall k :: k in InitState(descs, omitHandlers).value.actions <==>
              k in CreateState(descs).value.actions && k !in omitHandlers
  {
  }
}

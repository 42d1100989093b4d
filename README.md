# react-senna: the Store and Container state logic in Dafny

react-senna offers two React wrappers that generate state-changing helpers
and then pass the state to a user-supplied `render` function.

- **Store** (`src/index.js`) reads a list of state descriptors. Each
  descriptor has a `name`, an `initialState`, the flags `setable`,
  `resetable`, `toggleable`, `mergeable` and `loadable`, and optional custom
  `handlers`. From each descriptor it builds named actions: `set<Name>`,
  `reset<Name>`, `toggle<Name>`, `merge<Name>`, `set<Name>Loaded` and
  `<handler><Name>`. It checks the configuration while building them. It
  folds the descriptors into an initial state. `initState` drops the omitted
  actions and either nests the actions under `actions` or flattens them into
  the state.
- **Container** (`src/index.ts`) takes a state object, makes one setter per
  key, and merges in the user handlers. After every update it runs
  `reduceDeriveState`: an ordered list of rules `[triggerKeys, derive]` is
  folded into a patch, and the patch is applied only when it has a key. The
  shape of each `deriveState` item is checked by a custom PropTypes
  validator.

The model has five modules:

- `Js` (`js.dfy`): a small JSON-like `Value`. It includes `Undefined`,
  because a missing key reads as `undefined` and the source relies on that.
  It also has state as a `map<string, Value>`, truthiness, `typeof`, object
  spread (`Overlay`), the prop precedence of `render`, and `cap`.
- `StoreComponent` (`store.dfy`): descriptors, the verbs and actions,
  configuration errors, `Apply` (what each action closure does to the state),
  `createStateHandlers` both as a specification function (`StateActions`)
  and as the imperative method that fills the table (`Store.CreateStateHandlers`),
  `createState` as a fold (`CreatePrefix`/`CreateState`), `initState`, the
  flattened or nested view of the state (`Namespace`), and the class `Store`
  with its mounting and action dispatch.
- `StoreLaws` (`store_laws.dfy`): what each action does and does not
  change, the configuration errors, which actions exist, and what the
  initial state and action table hold.
- `ContainerComponent` (`container.dfy`): the rule fold, the last fired
  rule, the trace of derive calls, `createSetters` as a loop, the
  `componentDidUpdate` decision, the item validator as written and as
  intended, and the class `Container`.
- `ContainerLaws` (`container_laws.dfy`): when rules fire, what the patch
  is, when an update is issued, what the setters are, and what the
  validator accepts.

An action is a pair of a verb and the index of its descriptor. The generated
closure captures its descriptor, and the index plays that part. The default
`_onError` is `throwError`, so every error the source reports through
`onError` becomes a `Failure` that aborts the call before any `setState`.
React's `setState(patch)` is a synchronous map overlay. An action's internal
`setState` followed by `setLoadedState` becomes two writes in sequence.

Where a reader might expect otherwise, the model follows the code:

- A fired derive rule *replaces* the accumulator. Its output is not merged
  into the patch so far (`ReplacedNotMerged`).
- The loaded flag is set on every write through the descriptor's setter,
  not only on the first one.
- `reset<Name>()` writes the defaulted `initialState` (`null` when absent),
  but `createState` stores the raw `initialState` (`undefined` when absent),
  so reset does not restore the initial value in that case
  (`ResetOfAbsentInitialIsNull`).
- `typeof null` is `"object"`, so the type check of a mergeable setter lets
  `null` into an array state. After that, merging an array throws
  (`SetLetsNullIntoMergeableArray`).
- Toggling stores the negated truthiness, so a counter at `0` toggles to
  `true` (`ToggleZeroIsTrue`).

## Model

| member | source | states |
|---|---|---|
| Js.Overlay | src/index.ts:37 | object spread: the keys of both, the patch's value winning on a shared key |
| Js.RenderProps | src/index.js:178-190 | the render props are the state plus every non-configuration prop, a prop overriding the state on a shared key and configuration props never forwarded |
| Js.CapShape | src/index.ts:127-128 | `cap` keeps the length, upper-cases the first character, keeps the rest and maps "" to "" |
| Js.CapIdempotent | src/index.ts:127-128 | capitalising twice is capitalising once |
| Js.CapAppend | src/index.ts:127-128 | capitalising a concatenation touches only the first non-empty part (so `cap(name + "Loaded")` is `cap(name) + "Loaded"` for a non-empty name) |
| Js.CapCollision | src/index.ts:127-128 | two strings capitalise alike exactly when they have the same length, agree after the first character, and their first characters upper-case alike |
| StoreComponent.AddCustomSpec | src/index.js:113-118 | the handler loop adds exactly one action `f + cap(name)` per handler name `f`, bound to that handler, and keeps every other entry of the table |
| StoreComponent.StateActionsOwner | src/index.js:62-119 | every generated action belongs to the descriptor it was generated from |
| StoreComponent.CreateStep | src/index.js:134-152 | one step of the `createState` reduce succeeds exactly when its descriptor is well configured |
| StoreComponent.CreatePrefixOwners | src/index.js:133-153 | every action in the table built from the first `n` descriptors belongs to one of them |
| StoreComponent.InitStateOwners | src/index.js:156-170 | every action `initState` keeps belongs to one of the descriptors |
| StoreComponent.Namespace | src/index.js:161-169 | flattened: the data except `actions` plus the actions, actions winning; nested: the data plus the action table under `actions`; the key set in both cases |
| StoreComponent.Store.constructor | src/index.js:172 | the state starts empty |
| StoreComponent.Store.CreateStateHandlers | src/index.js:31-120 | the table filled field by field and then once per custom handler is exactly `StateActions`, including the early failure on a configuration error |
| StoreComponent.Store.Mount | src/index.js:174-176 | on success the state and the actions are the old ones overlaid with `initState`'s; on a configuration error nothing changes and the error is reported |
| StoreComponent.Store.Dispatch | src/index.js:46-118 | calling an action changes the state exactly as the action's verb says; a thrown error, including calling a missing action, leaves the state unchanged |
| StoreLaws.WriteWritesOnly | src/index.js:46-61 | the internal `setState(v)` stores `v` under the name, sets a loadable descriptor's flag to true, and leaves every other key as it was |
| StoreLaws.WriteTwice | src/index.js:53-61 | a second internal write overrides the first |
| StoreLaws.SetStores | src/index.js:67-76 | `set<Name>(v)` throws exactly when the descriptor is mergeable and `typeof v` differs from the initial state's, and otherwise writes only `v` and the loaded flag |
| StoreLaws.SetTwiceLastWins | src/index.js:67-76 | for a non-mergeable descriptor, setting twice is setting the second value |
| StoreLaws.SetLetsNullIntoMergeableArray | src/index.js:67-111 | a mergeable array state accepts `null` through its setter, and a later array merge then throws |
| StoreLaws.ResetRestores | src/index.js:77-81 | `reset<Name>()` writes the defaulted initial state and only it (and the loaded flag) |
| StoreLaws.ResetForgetsHistory | src/index.js:77-81 | after any successful action of the descriptor, resetting gives exactly the state that resetting straight away gives, and resetting twice is resetting once |
| StoreLaws.ResetOfAbsentInitialIsNull | src/index.js:133-153 | with no `initialState`, `createState` stores `undefined` but `reset<Name>()` writes `null` |
| StoreLaws.ToggleNegates | src/index.js:82-86 | `toggle<Name>()` writes the negated truthiness of the current value and nothing else but the loaded flag |
| StoreLaws.ToggleZeroIsTrue | src/index.js:82-86 | a counter at `0` toggles to `true` |
| StoreLaws.ToggleTwice | src/index.js:82-86 | toggling twice gives the value's truthiness, so a boolean comes back unchanged |
| StoreLaws.MergeArrays | src/index.js:98-102 | merging an array update into an array state writes their concatenation, state first, and nothing else |
| StoreLaws.MergeArraysCompose | src/index.js:98-102 | two array merges in a row equal one merge of the concatenated updates |
| StoreLaws.MergeObjects | src/index.js:103-105 | merging an object update into an object state writes their shallow union, the update winning on shared keys |
| StoreLaws.MergeObjectsIdempotent | src/index.js:103-105 | merging the same object twice is merging it once |
| StoreLaws.MergeSucceedsIff | src/index.js:98-111 | a merge succeeds exactly when state and update are both arrays or both objects; otherwise it throws, naming object when the state is an object and array otherwise |
| StoreLaws.MergeKeepsKind | src/index.js:98-105 | a successful merge keeps the state an array or an object as it was |
| StoreLaws.SetLoadedRaisesFlag | src/index.js:46-52 | `set<Name>Loaded()` sets the flag of a loadable descriptor to true and changes nothing else |
| StoreLaws.LastHandlerFinds | src/index.js:115 | the handler lookup finds the handler of a name given last |
| StoreLaws.CustomWrites | src/index.js:113-118 | a custom handler `f` writes `f(state[name])` and nothing else but the loaded flag |
| StoreLaws.ConfigErrors | src/index.js:87-97 | building the actions fails exactly for a mergeable descriptor that is also toggleable or whose initial state is neither array nor object, and the mergeable-and-toggleable error is the one reported when both apply |
| StoreLaws.BuiltinNamesDistinct | src/index.js:41-43 | the five default action names of a descriptor are pairwise distinct |
| StoreLaws.BuiltinActionsExact | src/index.js:64-112 | a default action is in the table exactly when its flag enables it, bound to its own verb |
| StoreLaws.BuiltinActionsKeys | src/index.js:64-112 | every default entry of the table is the name of an enabled verb |
| StoreLaws.ActionsPerFlags | src/index.js:31-119 | the table of a well-configured descriptor has exactly one name per enabled verb and custom handler, each verb + `cap(name)` |
| StoreLaws.ActionsBoundToVerbs | src/index.js:62-119 | each default action not shadowed by a same-named custom action is bound to its verb, and every custom handler's action to that handler |
| StoreLaws.DefaultFlags | src/index.js:31-40 | with every flag and `handlers` left out, a descriptor gets exactly the action `set<Name>` |
| StoreLaws.CreatePrefixStepOutcome | src/index.js:134-153 | one reduce step succeeds exactly when the earlier ones did and its descriptor is well configured; otherwise it passes the first error on |
| StoreLaws.CreatePrefixSucceedsIff | src/index.js:133-153 | the reduce over the first `n` descriptors succeeds exactly when each of them is well configured |
| StoreLaws.CreateStateSucceedsIff | src/index.js:133-153 | `createState` succeeds exactly when every descriptor is well configured |
| StoreLaws.CreatePrefixFirstError | src/index.js:133-153 | the reduce over a prefix reports the error of its first badly configured descriptor |
| StoreLaws.CreateStateFirstError | src/index.js:133-153 | `createState` reports the error of the first badly configured descriptor |
| StoreLaws.UnionKeys | src/index.js:144-152 | the successive spreads of the reduce hold exactly the keys of the spread maps |
| StoreLaws.UnionLastWins | src/index.js:144-152 | a key held by one of the spread maps and by none after it is in the successive spreads with that map's value |
| StoreLaws.CreatePrefixValues | src/index.js:137-152 | after the first `n` descriptors the state values are the union of what they write, later descriptors winning |
| StoreLaws.CreatePrefixActions | src/index.js:136-152 | after the first `n` descriptors the action table is the union of their tables, later descriptors winning |
| StoreLaws.CreateStateTables | src/index.js:136 | in a successful `createState` every descriptor's action table is built |
| StoreLaws.CreateStateValues | src/index.js:133-153 | the initial state holds exactly each descriptor's name and each loadable descriptor's flag, under each the value of the last descriptor writing it (its initial state, or `false`) |
| StoreLaws.CreateStateActions | src/index.js:133-153 | the action table is the union of the descriptors' tables, the last descriptor winning on a shared action name |
| StoreLaws.DuplicateNameLaterWins | src/index.js:144-147 | when the last descriptor shares its name with an earlier one, the last one's initial state is kept under that name |
| StoreLaws.InitStateOmits | src/index.js:156-160 | `initState` keeps the state values and drops exactly the actions named in `omitHandlers` |
| ContainerComponent.Stored | src/index.ts:104-107 | the state prop is taken over key for key |
| ContainerComponent.LastFired | src/index.ts:31-38 | the last rule that fires among the first `n`, or none when no rule among them fires |
| ContainerComponent.DidUpdatePatch | src/index.ts:109-118 | no update exactly when the derived patch is empty; otherwise the patch is the derived one |
| ContainerComponent.CreateSetters | src/index.ts:40-53 | one setter name `set` + `cap(key)` per key of the state, each setter writing a key whose setter name it carries |
| ContainerComponent.Container.constructor | src/index.ts:101 | the state starts empty |
| ContainerComponent.Container.Mount | src/index.ts:103-108 | one update: the old state overlaid by the state prop, then the setters, then the user handlers |
| ContainerComponent.Container.CallSetter | src/index.ts:43-50 | calling `set<Key>(v)` writes `v` under its key and changes nothing else |
| ContainerComponent.Container.DidUpdate | src/index.ts:109-118 | the derived patch is applied when it has a key, and the state is left as it was otherwise |
| ContainerLaws.HasChangedIff | src/index.ts:32-35 | the inner reduce is its start value or-ed with "some trigger key differs between the previous and the current state" |
| ContainerLaws.FiresIff | src/index.ts:32-36 | a rule fires exactly when one of its trigger keys differs; the accumulator plays no part |
| ContainerLaws.EmptyTriggerNeverFires | src/index.ts:32-36 | a rule with no trigger keys never fires |
| ContainerLaws.SameStateNeverFires | src/index.ts:32-35 | between equal states no rule fires |
| ContainerLaws.ResultIsLastFired | src/index.ts:31-38 | the patch is the output of the last rule that fired, applied to the state overlaid with the patch before it, and empty when no rule fired |
| ContainerLaws.NothingChangedEmptyPatch | src/index.ts:26-38 | if no trigger key of any rule changed, the patch is empty |
| ContainerLaws.NoRulesEmptyPatch | src/index.ts:26-30 | with `deriveState` absent or empty the patch is empty |
| ContainerLaws.SameStateEmptyPatch | src/index.ts:26-38 | between equal states the patch is empty |
| ContainerLaws.CallsIff | src/index.ts:36-37 | a derive function is called exactly for the rules that fire, once each, in rule order, on the current state overlaid with the patch so far |
| ContainerLaws.ReplacedNotMerged | src/index.ts:31-37 | two fired rules `{x: 1}` then `{y: 2}` yield `{y: 2}`: the patch is replaced, not merged |
| ContainerLaws.SeesEarlierOutput | src/index.ts:37 | (an example) a later rule reads an earlier fired rule's output in its argument |
| ContainerLaws.NoTriggerNoUpdate | src/index.ts:109-118 | when no trigger key changed, `componentDidUpdate` issues no update |
| ContainerLaws.UpdateSettles | src/index.ts:109-118 | an update cycle between equal states issues no further update |
| ContainerLaws.SetterNameIff | src/index.ts:43 | two keys get the same setter name exactly when they capitalise alike |
| ContainerLaws.OneSetterPerKey | src/index.ts:40-53 | for a key that no other key capitalises like, the table holds a setter under its setter name and that setter writes the key |
| ContainerLaws.SetterCollision | src/index.ts:42-43 | keys `foo` and `Foo` share the one setter `setFoo`, which writes one of them |
| ContainerLaws.MountedSetter | src/index.ts:103-107 | after mount, the setter of a key that no other key capitalises like is under its name, unless a user handler of that name replaced it |
| ContainerLaws.LaterIndicesPass | src/index.ts:73-94 | for an item of length two or more the validator passes every index past 1 |
| ContainerLaws.ArrayOfCheckAgrees | src/index.ts:64-97 | on a non-empty item the check as written and the intended check agree |
| ContainerLaws.ArrayOfCheckAccepts | src/index.ts:64-97 | the check as written accepts exactly the empty item and the items of length two or more whose first element is an array of strings and whose second is a function |
| ContainerLaws.EmptyItemAccepted | src/index.ts:73-77 | the empty item passes the check as written, and the intended check rejects it as too short |
| ContainerLaws.CheckItemSpec | src/index.ts:73-94 | the intended check rejects short items, then a first element that is not an array of strings, then a second element that is not a function, and accepts everything else |

## Left out

- React rendering, JSX and the lifecycle scheduling around `componentWillMount`, `componentDidMount` and `componentDidUpdate` are framework plumbing. The model keeps the state changes they make.
- React's asynchronous, batched `setState` and its completion callbacks `cb` are left out. Each `setState` is an immediate overlay, in program order.
- The source of `./utils` (`cap`, `isObj`, `omit`, `throwError`) is not part of this model. `cap` there is taken to be the `cap` at src/index.ts:127-128, which the model defines; the others stand for their evident meaning: `isObj` as a non-array, non-null object, `omit` as removing the listed keys, and `throwError` as aborting the call. `omit("actions", state)` is taken to remove the key `actions`.
- A user-supplied `_onError` that returns instead of throwing would let the action go on (for example, a setter would still write after a type change). The model only covers the default, which aborts.
- `createUserHandlers` and `createHandlers` only forward user functions with the current state. In the source, the Store's user handlers are spread into the action table after the generated actions (src/index.js:159-160), so a user handler replaces a generated action of the same name and `omitHandlers` can remove user handlers; the model's action table holds the generated actions only. Container handlers appear only as `UserHandler` entries whose behaviour is not modelled.
- StoreComponent.Store: data and actions are kept as two fields. A data key that shares its name with a flattened action, or a descriptor named `actions`, collides in the real state object; `Namespace` shows that object at mount, and later collisions are not modelled.
- Values are compared structurally. JavaScript's `!==` compares objects by reference, so a recreated but equal object counts as changed there but not in the model.
- Numbers are integers. Floating point, `NaN` and the truthiness of `NaN` are left out. Case mapping is ASCII only.
- The PropTypes runtime is left out except for the `deriveState` item validator. PropTypes only warns, so a bad item changes nothing else. Inside an item's key array, elements are JSON-like values (a function there is not representable).
- React calls `componentDidUpdate` again after a derived patch is applied. That re-entrant cycle is not modelled; `NoTriggerNoUpdate` gives the condition under which a step issues no further update (no trigger key changed, for example because the patch wrote no trigger key).
- ContainerComponent.CreateSetters: when two keys capitalise alike, the contract does not say which one the shared setter writes, because that depends on `Object.keys` order.
- ContainerComponent.Container.Mount: its contract states the setters only through `SettersFor`, so it inherits the same gap on colliding keys.
- A descriptor's `handlers` object is a sequence of named functions; the last of a repeated name wins, as an object literal would keep it.
- Store.Props and Container.Props only compose `Namespace` and `RenderProps`, which carry the contracts.
- Error messages are modelled as tagged error values, not as their text.

## Findings

| source | as written | input that shows it | evidently intended | confidence | as-written member | corrected member |
|---|---|---|---|---|---|---|
| src/index.ts:64-97 | `PropTypes.arrayOf` calls the custom validator once for each index of an item, so for an empty item it never runs and the `length < 2` check never fires | `deriveState = [[]]` | every item must have at least two elements, so `[]` should be rejected as too short | medium, not executed | ContainerLaws.EmptyItemAccepted | ContainerLaws.CheckItemSpec |

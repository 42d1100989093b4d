/** Properties of the `Container` component: when derive rules fire, what
    the derived patch is, when an update is issued, the setters, and the
    `deriveState` item validator. */
module ContainerLaws {
  import opened Js
  import opened ContainerComponent

  // ---------------------------------------------------------------- firing

  /** The inner reduce is `acc` or-ed with "some trigger key changed". */
  lemma {:induction false} HasChangedIff(prev: CState, cur: CState, on: seq<string>, acc: bool)
    ensures HasChanged(prev, cur, on, acc) <==> acc || exists i :: 0 <= i < |on| && Changed(prev, cur, on[i])
    decreases |on|
  {
    if on != [] {
      HasChangedIff(prev, cur, on[1..], acc || Changed(prev, cur, on[0]));
      if exists i :: 0 <= i < |on| && Changed(prev, cur, on[i]) {
        var i :| 0 <= i < |on| && Changed(prev, cur, on[i]);
        if i > 0 {
          assert on[1..][i - 1] == on[i];
        }
      }
    }
  }

  /** A rule fires exactly when one of its trigger keys differs between the
      previous and the current state; the accumulator plays no part. */
  lemma FiresIff(prev: CState, cur: CState, rule: Rule)
    ensures Fires(prev, cur, rule) <==> exists i :: 0 <= i < |rule.on| && Changed(prev, cur, rule.on[i])
  {
    HasChangedIff(prev, cur, rule.on, false);
  }

  /** A rule with no trigger keys never fires. */
  lemma EmptyTriggerNeverFires(prev: CState, cur: CState, derive: CState -> CState)
    ensures !Fires(prev, cur, Rule([], derive))
  {
  }

  /** Between equal states no rule fires. */
  lemma SameStateNeverFires(s: CState, rule: Rule)
    ensures !Fires(s, s, rule)
  {
    FiresIff(s, s, rule);
  }

  // ---------------------------------------------------------------- the derived patch

  /** The patch is the output of the last rule that fired, given the state
      overlaid with the patch as it stood before that rule; with no rule
      fired it is empty. */
  lemma {:induction false} ResultIsLastFired(prev: CState, cur: CState, rules: seq<Rule>, n: nat)
    requires n <= |rules|
    ensures LastFired(prev, cur, rules, n).None? ==> AccAfter(prev, cur, rules, n) == map[]
    ensures LastFired(prev, cur, rules, n).Some? ==>
              var j := LastFired(prev, cur, rules, n).value;
              AccAfter(prev, cur, rules, n) == rules[j].derive(Overlay(cur, AccAfter(prev, cur, rules, j)))
  {
    if n > 0 && !Fires(prev, cur, rules[n - 1]) {
      ResultIsLastFired(prev, cur, rules, n - 1);
    }
  }

  /** If no trigger key of any rule changed, the patch is empty. */
  lemma NothingChangedEmptyPatch(prev: CState, cur: CState, rules: seq<Rule>)
    requires forall i, j :: 0 <= i < |rules| && 0 <= j < |rules[i].on| ==> !Changed(prev, cur, rules[i].on[j])
    ensures ReduceDeriveState(prev, cur, Some(rules)) == map[]
  {
    forall i | 0 <= i < |rules|
      ensures !Fires(prev, cur, rules[i])
    {
      FiresIff(prev, cur, rules[i]);
    }
    ResultIsLastFired(prev, cur, rules, |rules|);
  }

  /** Without rules the patch is empty. */
  lemma NoRulesEmptyPatch(prev: CState, cur: CState)
    ensures ReduceDeriveState(prev, cur, None) == map[]
    ensures ReduceDeriveState(prev, cur, Some([])) == map[]
  {
  }

  /** Between equal states the patch is empty. */
  lemma SameStateEmptyPatch(s: CState, deriveState: Option<seq<Rule>>)
    ensures ReduceDeriveState(s, s, deriveState) == map[]
  {
    var rules := deriveState.GetOr([]);
    forall i, j | 0 <= i < |rules| && 0 <= j < |rules[i].on|
      ensures !Changed(s, s, rules[i].on[j])
    {
    }
    NothingChangedEmptyPatch(s, s, rules);
  }

  /** The calls the first `n` rules make are those of the firing rules,
      each with the current state overlaid with the patch so far. */
  lemma {:induction false} CallsMembers(prev: CState, cur: CState, rules: seq<Rule>, n: nat)
    requires n <= |rules|
    ensures forall i: nat, arg :: (i, arg) in Calls(prev, cur, rules, n) <==>
              i < n && Fires(prev, cur, rules[i]) && arg == Overlay(cur, AccAfter(prev, cur, rules, i))
  {
    if n > 0 {
      CallsMembers(prev, cur, rules, n - 1);
    }
  }

  /** The calls the first `n` rules make come in rule order, below `n`. */
  lemma {:induction false} CallsOrdered(prev: CState, cur: CState, rules: seq<Rule>, n: nat)
    requires n <= |rules|
    ensures forall p, q :: 0 <= p < q < |Calls(prev, cur, rules, n)| ==>
              Calls(prev, cur, rules, n)[p].0 < Calls(prev, cur, rules, n)[q].0
    ensures forall p :: 0 <= p < |Calls(prev, cur, rules, n)| ==> Calls(prev, cur, rules, n)[p].0 < n
  {
    if n > 0 {
      CallsOrdered(prev, cur, rules, n - 1);
    }
  }

  /** A derive function is called exactly for the rules that fire, once each,
      and is given the current state overlaid with the patch so far. */
  lemma CallsIff(prev: CState, cur: CState, rules: seq<Rule>, n: nat)
    requires n <= |rules|
    ensures forall i: nat, arg :: (i, arg) in Calls(prev, cur, rules, n) <==>
              i < n && Fires(prev, cur, rules[i]) && arg == Overlay(cur, AccAfter(prev, cur, rules, i))
    ensures forall p, q :: 0 <= p < q < |Calls(prev, cur, rules, n)| ==>
              Calls(prev, cur, rules, n)[p].0 < Calls(prev, cur, rules, n)[q].0
    ensures forall p :: 0 <= p < |Calls(prev, cur, rules, n)| ==> Calls(prev, cur, rules, n)[p].0 < n
  {
    CallsMembers(prev, cur, rules, n);
    CallsOrdered(prev, cur, rules, n);
  }

  /** Two rules both fire; the second's output replaces the first's rather
      than being merged with it. */
  lemma ReplacedNotMerged()
    ensures var rules := [Rule(["a"], s => map["x" := Val(Num(1))]), Rule(["a"], s => map["y" := Val(Num(2))])];
            ReduceDeriveState(map[], map["a" := Val(Num(0))], Some(rules)) == map["y" := Val(Num(2))]
  {
    var rules := [Rule(["a"], s => map["x" := Val(Num(1))]), Rule(["a"], s => map["y" := Val(Num(2))])];
    var cur := map["a" := Val(Num(0))];
    assert Changed(map[], cur, "a");
    assert AccAfter(map[], cur, rules, 1) == map["x" := Val(Num(1))];
  }

  /** A later rule sees an earlier fired rule's output through its argument. */
  lemma SeesEarlierOutput()
    ensures var rules := [Rule(["a"], s => map["x" := Val(Num(1))]), Rule(["a"], s => map["y" := Read(s, "x")])];
            ReduceDeriveState(map[], map["a" := Val(Num(0))], Some(rules)) == map["y" := Val(Num(1))]
  {
    var rules := [Rule(["a"], s => map["x" := Val(Num(1))]), Rule(["a"], s => map["y" := Read(s, "x")])];
    var cur := map["a" := Val(Num(0))];
    assert Changed(map[], cur, "a");
    assert AccAfter(map[], cur, rules, 1) == map["x" := Val(Num(1))];
    assert Read(Overlay(cur, map["x" := Val(Num(1))]), "x") == Val(Num(1));
  }

  // ---------------------------------------------------------------- componentDidUpdate

  /** When no trigger key changed, `componentDidUpdate` issues no update. */
  lemma NoTriggerNoUpdate(prev: CState, cur: CState, rules: seq<Rule>)
    requires forall i, j :: 0 <= i < |rules| && 0 <= j < |rules[i].on| ==> !Changed(prev, cur, rules[i].on[j])
    ensures DidUpdatePatch(prev, cur, Some(rules)).None?
  {
    NothingChangedEmptyPatch(prev, cur, rules);
  }

  /** An update that changed nothing triggers no further update. */
  lemma UpdateSettles(s: CState, deriveState: Option<seq<Rule>>)
    ensures DidUpdatePatch(s, s, deriveState).None?
  {
    SameStateEmptyPatch(s, deriveState);
  }

  // ---------------------------------------------------------------- createSetters

  /** Two keys get the same setter name exactly when they capitalise alike. */
  lemma SetterNameIff(a: string, b: string)
    ensures SetterName(a) == SetterName(b) <==> Cap(a) == Cap(b)
  {
    if SetterName(a) == SetterName(b) {
      assert Cap(a) == SetterName(a)[3..];
      assert Cap(b) == SetterName(b)[3..];
    }
  }

  /** Every key has its setter, and a key no other key capitalises like owns it. */
  lemma OneSetterPerKey(s: CState, setters: CState, k: string)
    requires SettersFor(s, setters) && k in s
    requires forall k2 :: k2 in s && k2 != k ==> Cap(k2) != Cap(k)
    ensures SetterName(k) in setters && setters[SetterName(k)] == Setter(k)
  {
    var owner := setters[SetterName(k)].key;
    SetterNameIff(owner, k);
  }

  /** Keys `foo` and `Foo` share the setter `setFoo`: one of them has none of its own. */
  lemma SetterCollision(s: CState, setters: CState)
    requires SettersFor(s, setters) && "foo" in s && "Foo" in s
    ensures setters.Keys == (set k | k in s :: SetterName(k))
    ensures SetterName("foo") == SetterName("Foo")
    ensures "setFoo" in setters && (setters["setFoo"] == Setter("foo") || setters["setFoo"] == Setter("Foo"))
  {
    assert SetterName("foo") == "setFoo" && SetterName("Foo") == "setFoo";
    assert "setFoo" in setters;
    var owner := setters["setFoo"].key;
    SetterNameIff(owner, "foo");
    CapCollision(owner, "foo");
  }

  /** After mount, a setter is under its name unless a user handler of the
      same name replaced it. */
  lemma MountedSetter(before: CState, initial: State, setters: CState, handlers: set<string>, k: string)
    requires SettersFor(Stored(initial), setters) && k in initial
    requires forall k2 :: k2 in initial && k2 != k ==> Cap(k2) != Cap(k)
    requires SetterName(k) !in handlers
    ensures var st := Overlay(before, Overlay(Overlay(Stored(initial), setters), map h | h in handlers :: UserHandler(h)));
            SetterName(k) in st && st[SetterName(k)] == Setter(k)
  {
    OneSetterPerKey(Stored(initial), setters, k);
  }

  // ---------------------------------------------------------------- the deriveState validator

  /** An item of length at least two passes at every index past 1. */
  lemma {:induction false} LaterIndicesPass(item: seq<Elem>, from: nat)
    requires |item| >= 2 && from >= 2
    ensures ArrayOfCheckFrom(item, from) == None
    decreases |item| - from
  {
    if from < |item| {
      LaterIndicesPass(item, from + 1);
    }
  }

  /** On a non-empty item the check as written and the check as intended agree. */
  lemma ArrayOfCheckAgrees(item: seq<Elem>)
    requires |item| > 0
    ensures ArrayOfCheck(item) == CheckItem(item)
  {
    if |item| >= 2 {
      LaterIndicesPass(item, 2);
      assert ArrayOfCheckFrom(item, 1) == if CheckAt(item, 1).Some? then CheckAt(item, 1) else ArrayOfCheckFrom(item, 2);
    }
  }

  /** What the check as written accepts: the empty item, or an item of length
      at least two whose first element is an array of strings and whose
      second is a function. */
  lemma ArrayOfCheckAccepts(item: seq<Elem>)
    ensures ArrayOfCheck(item) == None <==>
            |item| == 0 || (|item| >= 2 && StringArray(item[0]) && item[1].Function?)
  {
    if |item| > 0 {
      ArrayOfCheckAgrees(item);
    }
  }

  /** The empty item slips through the check as written, and the check as
      intended rejects it as too short. */
  lemma EmptyItemAccepted()
    ensures ArrayOfCheck([]) == None
    ensures CheckItem([]) == Some(TooShort)
  {
  }

  /** The intended check: short items, a bad first element and a bad second
      element are rejected, in that order, and nothing else is. */
  lemma CheckItemSpec(item: seq<Elem>)
    ensures CheckItem(item) == None <==> |item| >= 2 && StringArray(item[0]) && item[1].Function?
    ensures CheckItem(item) == Some(TooShort) <==> |item| < 2
    ensures CheckItem(item) == Some(NotStringArray) <==> |item| >= 2 && !StringArray(item[0])
    ensures CheckItem(item) == Some(NotFunction) <==> |item| >= 2 && StringArray(item[0]) && !item[1].Function?
  {
  }
}

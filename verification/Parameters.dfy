/** Parameter maps and parameter definitions: differences, triggers, validation, and the rules
    for immutable parameters. Go enumerates maps in an arbitrary order; here every loop over a
    map picks its next key arbitrarily, and every contract is a function of the map alone. */
module Parameters {
  import opened Plans

  type Params = map<string, string>

  /** `funk.Find` by name: the position of the first definition called `name`. */
  function DefIndex(defs: seq<Parameter>, name: string): (i: nat)
    ensures i <= |defs|
    ensures i < |defs| ==> defs[i].name == name
    ensures forall k | 0 <= k < i :: defs[k].name != name
  {
    if defs == [] || defs[0].name == name then 0 else 1 + DefIndex(defs[1..], name)
  }

  predicate Defined(defs: seq<Parameter>, name: string) {
    DefIndex(defs, name) < |defs|
  }

  function Def(defs: seq<Parameter>, name: string): Parameter
    requires Defined(defs, name)
  {
    defs[DefIndex(defs, name)]
  }

  lemma {:induction false} DefinedByMember(defs: seq<Parameter>, p: Parameter)
    requires p in defs
    ensures Defined(defs, p.name)
  {
  }

  // ----- differences -----

  function ChangedKeys(earlier: Params, later: Params): set<string> {
    set k | k in later && (k !in earlier || earlier[k] != later[k])
  }

  function RemovedKeys(earlier: Params, later: Params): set<string> {
    set k | k in earlier && k !in later
  }

  method RichParameterDiff(earlier: Params, later: Params) returns (changed: Params, removed: Params)
    ensures changed.Keys == ChangedKeys(earlier, later) && (forall k | k in changed :: changed[k] == later[k])
    ensures removed.Keys == RemovedKeys(earlier, later) && (forall k | k in removed :: removed[k] == earlier[k])
  {
    changed, removed := map[], map[];
    var todo := earlier.Keys;
    while todo != {}
      invariant todo <= earlier.Keys
      invariant removed.Keys == RemovedKeys(earlier, later) - todo
      invariant forall k | k in removed :: removed[k] == earlier[k]
      decreases todo
    {
      var k :| k in todo;
      if k !in later { removed := removed[k := earlier[k]]; }
      todo := todo - {k};
    }
    todo := later.Keys;
    while todo != {}
      invariant todo <= later.Keys
      invariant changed.Keys == ChangedKeys(earlier, later) - todo
      invariant forall k | k in changed :: changed[k] == later[k]
      decreases todo
    {
      var k :| k in todo;
      if k !in earlier || earlier[k] != later[k] { changed := changed[k := later[k]]; }
      todo := todo - {k};
    }
  }

  ghost predicate AllDefined(defs: seq<Parameter>, keys: set<string>) {
    forall k | k in keys :: Defined(defs, k)
  }

  ghost function DefsOf(defs: seq<Parameter>, keys: set<string>): set<Parameter>
    requires AllDefined(defs, keys)
  {
    set k | k in keys :: Def(defs, k)
  }

  ghost function Elements<T>(s: seq<T>): set<T> {
    set x | x in s
  }

  /** The definitions of all given parameters, in some order; none if any of them is undefined. */
  method GetParamDefinitions(params: Params, defs: seq<Parameter>) returns (r: Option<seq<Parameter>>)
    ensures r.Some? <==> AllDefined(defs, params.Keys)
    ensures r.Some? ==> Elements(r.value) == DefsOf(defs, params.Keys) && |r.value| == |params.Keys|
  {
    var found, todo := [], params.Keys;
    while todo != {}
      invariant todo <= params.Keys && AllDefined(defs, params.Keys - todo)
      invariant Elements(found) == DefsOf(defs, params.Keys - todo) && |found| == |params.Keys| - |todo|
      decreases todo
    {
      var k :| k in todo;
      if !Defined(defs, k) { return None; }
      ghost var seen := params.Keys - todo;
      todo := todo - {k};
      assert params.Keys - todo == seen + {k};
      assert DefsOf(defs, seen + {k}) == DefsOf(defs, seen) + {Def(defs, k)};
      found := found + [Def(defs, k)];
    }
    assert params.Keys - todo == params.Keys;
    r := Some(found);
  }

  /** The changed definitions that count: those the old operator version knows as well. */
  ghost function ChangedDefs(earlier: Params, later: Params, oldDefs: seq<Parameter>,
                             newDefs: seq<Parameter>): set<Parameter>
    requires AllDefined(newDefs, ChangedKeys(earlier, later))
  {
    set p | p in DefsOf(newDefs, ChangedKeys(earlier, later)) && Defined(oldDefs, p.name)
  }

  /** The removed definitions: all of them, or none at all if any one is undefined. */
  ghost function RemovedDefs(earlier: Params, later: Params, newDefs: seq<Parameter>): set<Parameter> {
    if AllDefined(newDefs, RemovedKeys(earlier, later)) then DefsOf(newDefs, RemovedKeys(earlier, later)) else {}
  }

  method ChangedParameters(earlier: Params, later: Params, oldDefs: seq<Parameter>, newDefs: seq<Parameter>)
    returns (ok: bool, changed: seq<Parameter>, removed: seq<Parameter>)
    ensures ok <==> AllDefined(newDefs, ChangedKeys(earlier, later))
    ensures ok ==> Elements(changed) == ChangedDefs(earlier, later, oldDefs, newDefs)
                   && Elements(removed) == RemovedDefs(earlier, later, newDefs)
  {
    ok, changed, removed := false, [], [];
    var changedOrAdded, gone := RichParameterDiff(earlier, later);
    var defs := GetParamDefinitions(changedOrAdded, newDefs);
    if defs.None? { return; }
    for i := 0 to |defs.value|
      invariant forall p :: p in changed <==> p in defs.value[..i] && Defined(oldDefs, p.name)
    {
      assert defs.value[..i + 1] == defs.value[..i] + [defs.value[i]];
      if Defined(oldDefs, defs.value[i].name) { changed := changed + [defs.value[i]]; }
    }
    assert defs.value[..|defs.value|] == defs.value;
    assert forall p :: p in changed <==> p in Elements(defs.value) && Defined(oldDefs, p.name);
    var goneDefs := GetParamDefinitions(gone, newDefs);
    if goneDefs.Some? { removed := goneDefs.value; }
    ok := true;
  }

  // ----- the plan an update triggers -----

  datatype Trigger = NoTrigger | Triggers(plan: string) | Rejected

  /** The first of the given plans that exists, or none. */
  function SelectPlan(candidates: seq<string>, plans: map<string, Plan>): (r: Option<string>)
    ensures r.Some? ==> r.value in candidates && r.value in plans
    ensures r.None? <==> forall c | c in candidates :: c !in plans
  {
    if candidates == [] then None
    else if candidates[0] in plans then Some(candidates[0])
    else SelectPlan(candidates[1..], plans)
  }

  ghost function ExplicitTriggers(defs: set<Parameter>): set<string> {
    set p | p in defs && p.trigger != "" :: p.trigger
  }

  /** What changing the given definitions triggers, as a function of the set of them. */
  ghost function TriggeredBy(defs: set<Parameter>, plans: map<string, Plan>): Trigger {
    var named := ExplicitTriggers(defs);
    if defs == {} then NoTrigger
    else if !(named <= plans.Keys) || |named| > 1 then Rejected
    else if named != {} then (var plan :| plan in named; Triggers(plan))
    else
      var fallback := SelectPlan([UPDATE, DEPLOY], plans);
      if fallback.None? then Rejected else Triggers(fallback.value)
  }

  method TriggeredByParameterUpdate(params: seq<Parameter>, plans: map<string, Plan>) returns (r: Trigger)
    ensures r == TriggeredBy(Elements(params), plans)
  {
    if |params| == 0 { return NoTrigger; }
    assert params[0] in Elements(params);
    var named: set<string> := {};
    for i := 0 to |params|
      invariant named == ExplicitTriggers(Elements(params[..i])) && named <= plans.Keys
    {
      var p := params[i];
      assert params[..i + 1] == params[..i] + [p];
      assert Elements(params[..i + 1]) == Elements(params[..i]) + {p};
      if p.trigger != "" {
        if p.trigger !in plans {
          assert p in Elements(params) && p.trigger in ExplicitTriggers(Elements(params));
          return Rejected;
        }
        named := named + {p.trigger};
      }
    }
    assert params[..|params|] == params;
    if named == {} {
      var fallback := SelectPlan([UPDATE, DEPLOY], plans);
      return if fallback.None? then Rejected else Triggers(fallback.value);
    }
    var plan :| plan in named;
    if |named - {plan}| == 0 {
      assert named == {plan};
      return Triggers(plan);
    }
    return Rejected;
  }

  /** A triggered plan exists, every counted definition with an explicit trigger names it, and
      without any explicit trigger it is `update`, or else `deploy`. */
  lemma {:induction false} TriggeredPlanIsNamed(defs: set<Parameter>, plans: map<string, Plan>)
    requires TriggeredBy(defs, plans).Triggers?
    ensures
      var plan := TriggeredBy(defs, plans).plan;
      && plan in plans
      && (forall p | p in defs && p.trigger != "" :: p.trigger == plan)
      && ((forall p | p in defs :: p.trigger == "") ==> plan == UPDATE || (plan == DEPLOY && UPDATE !in plans))
  {
    var named, plan := ExplicitTriggers(defs), TriggeredBy(defs, plans).plan;
    forall p | p in defs && p.trigger != "" ensures p.trigger == plan {
      assert p.trigger in named && |named - {plan}| == 0;
    }
  }

  // ----- validation -----

  /** `parses(type, value)` is the verdict of the type-specific parsers. */
  predicate ValueOk(p: Parameter, value: string, parses: (string, string) -> bool) {
    if value == "" then !p.required || p.default.Some?
    else parses(p.valueType, value) && (p.enum.Some? ==> value in p.enum.value)
  }

  function ValueOf(params: Params, name: string): string {
    if name in params then params[name] else ""
  }

  ghost predicate ParamsValid(defs: seq<Parameter>, params: Params, parses: (string, string) -> bool) {
    forall p | p in defs :: ValueOk(p, ValueOf(params, p.name), parses)
  }

  method ValidateParameters(defs: seq<Parameter>, params: Params, parses: (string, string) -> bool) returns (ok: bool)
    ensures ok <==> ParamsValid(defs, params, parses)
  {
    for i := 0 to |defs|
      invariant forall k | 0 <= k < i :: ValueOk(defs[k], ValueOf(params, defs[k].name), parses)
    {
      if !ValueOk(defs[i], ValueOf(params, defs[i].name), parses) { return false; }
    }
    return true;
  }

  // ----- immutable parameters -----

  function WithImmutableDefaults(defs: seq<Parameter>, params: Params): Params {
    if defs == [] then params else
    var p := defs[0];
    WithImmutableDefaults(defs[1..],
      if p.immutable && p.default.Some? && p.name !in params then params[p.name := p.default.value] else params)
  }

  method SetImmutableParameterDefaults(defs: seq<Parameter>, params: Params) returns (r: Params)
    ensures r == WithImmutableDefaults(defs, params)
  {
    r := params;
    assert defs[0..] == defs;
    for i := 0 to |defs|
      invariant WithImmutableDefaults(defs[i..], r) == WithImmutableDefaults(defs, params)
    {
      var p := defs[i];
      if p.immutable && p.default.Some? && p.name !in r {
        r := r[p.name := p.default.value];
      }
    }
  }

  /** Creation gives every immutable parameter with a default a stored value, changes nothing
      that was set, and adds nothing but such defaults. */
  lemma {:induction false} ImmutableDefaultsAreStored(defs: seq<Parameter>, params: Params)
    ensures
      var r := WithImmutableDefaults(defs, params);
      && (forall k | k in params :: k in r && r[k] == params[k])
      && (forall p | p in defs && p.immutable && p.default.Some? :: p.name in r)
      && (forall k | k in r && k !in params ::
            exists p | p in defs :: p.immutable && p.name == k && p.default == Some(r[k]))
  {
    if defs != [] {
      var p := defs[0];
      var next := if p.immutable && p.default.Some?
        && p.name !in params then params[p.name := p.default.value] else params;
      ImmutableDefaultsAreStored(defs[1..], next);
      var r := WithImmutableDefaults(defs, params);
      forall k | k in r && k !in params
        ensures exists q | q in defs :: q.immutable && q.name == k && q.default == Some(r[k])
      {
        if k in next {
          assert p in defs && p.name == k && p.default == Some(r[k]);
        } else {
          var q :| q in defs[1..] && q.immutable && q.name == k && q.default == Some(r[k]);
          assert q in defs;
        }
      }
    }
  }

  /** The definitions of `later` whose name `earlier` does not define, in order. */
  method GetAddedParameters(earlier: seq<Parameter>, later: seq<Parameter>) returns (added: seq<Parameter>)
    ensures forall p :: p in added <==> p in later && !Defined(earlier, p.name)
  {
    added := [];
    for i := 0 to |later|
      invariant forall p :: p in added <==> p in later[..i] && !Defined(earlier, p.name)
    {
      assert later[..i + 1] == later[..i] + [later[i]];
      var known, k := false, 0;
      while k < |earlier| && !known
        invariant 0 <= k <= |earlier|
        invariant known ==> Defined(earlier, later[i].name)
        invariant !known ==> forall m | 0 <= m < k :: earlier[m].name != later[i].name
      {
        known := earlier[k].name == later[i].name;
        if known { DefinedByMember(earlier, earlier[k]); }
        k := k + 1;
      }
      if !known { added := added + [later[i]]; }
    }
    assert later[..|later|] == later;
  }

  ghost predicate ImmutabilityChanged(earlier: seq<Parameter>, p: Parameter) {
    exists q | q in earlier :: q.name == p.name && q.immutable != p.immutable
  }

  /** The definitions of `later` whose immutability differs from one of the same name in `earlier`. */
  method GetChangedParamDefs(earlier: seq<Parameter>, later: seq<Parameter>) returns (changed: seq<Parameter>)
    ensures forall p :: p in changed <==> p in later && ImmutabilityChanged(earlier, p)
  {
    changed := [];
    for i := 0 to |earlier|
      invariant forall p :: p in changed <==> p in later && ImmutabilityChanged(earlier[..i], p)
    {
      assert earlier[..i + 1] == earlier[..i] + [earlier[i]];
      ghost var before := changed;
      for k := 0 to |later|
        invariant forall p :: p in changed <==>
            p in before || (p in later[..k] && p.name == earlier[i].name && p.immutable != earlier[i].immutable)
      {
        assert later[..k + 1] == later[..k] + [later[k]];
        if earlier[i].name == later[k].name && earlier[i].immutable != later[k].immutable {
          changed := changed + [later[k]];
        }
      }
      assert later[..|later|] == later;
      forall p
        ensures ImmutabilityChanged(earlier[..i + 1], p) <==>
                  || ImmutabilityChanged(earlier[..i], p)
                  || (p.name == earlier[i].name && p.immutable != earlier[i].immutable)
      {
        if p.name == earlier[i].name && p.immutable != earlier[i].immutable { assert earlier[i] in earlier[..i + 1]; }
      }
    }
    assert earlier[..|earlier|] == earlier;
  }

  /** The stored parameters after an upgrade: those the new operator version dropped are gone. */
  function Pruned(params: Params, oldDefs: seq<Parameter>, newDefs: seq<Parameter>): Params {
    map k | k in params && !(Defined(oldDefs, k) && !Defined(newDefs, k)) :: params[k]
  }

  /** Every parameter that became immutable has a value, and so has, after the pruning, every
      immutable parameter that was added. */
  ghost predicate UpgradeOk(params: Params, oldDefs: seq<Parameter>, newDefs: seq<Parameter>) {
    && (forall p | p in newDefs && p.immutable && ImmutabilityChanged(oldDefs, p) :: p.name in params)
    && (forall p | p in newDefs && p.immutable && !Defined(oldDefs, p.name) ::
      p.name in Pruned(params, oldDefs, newDefs))
  }

  method ValidateOVUpgrade(params: Params, newDefs: seq<Parameter>, oldDefs: seq<Parameter>)
    returns (ok: bool, pruned: Params)
    ensures ok <==> UpgradeOk(params, oldDefs, newDefs)
    ensures ok ==> pruned == Pruned(params, oldDefs, newDefs)
  {
    pruned := params;
    var changed := GetChangedParamDefs(oldDefs, newDefs);
    for i := 0 to |changed|
      invariant forall m | 0 <= m < i && changed[m].immutable :: changed[m].name in params
    {
      if changed[i].immutable && changed[i].name !in params { return false, pruned; }
    }
    var removed := GetAddedParameters(newDefs, oldDefs);
    for i := 0 to |removed|
      invariant forall k :: k in pruned <==> k in params && forall m | 0 <= m < i :: removed[m].name != k
      invariant forall k | k in pruned :: pruned[k] == params[k]
    {
      pruned := pruned - {removed[i].name};
    }
    forall k | k in params ensures k in pruned <==> !(Defined(oldDefs, k) && !Defined(newDefs, k)) {
      if Defined(oldDefs, k) && !Defined(newDefs, k) {
        assert Def(oldDefs, k) in removed;
      } else {
        forall m | 0 <= m < |removed| ensures removed[m].name != k {
          assert removed[m] in removed;
          DefinedByMember(oldDefs, removed[m]);
        }
      }
    }
    assert pruned == Pruned(params, oldDefs, newDefs);
    var added := GetAddedParameters(oldDefs, newDefs);
    for i := 0 to |added|
      invariant forall m | 0 <= m < i && added[m].immutable :: added[m].name in pruned
    {
      if added[i].immutable && added[i].name !in pruned {
        assert added[i] in added;
        return false, pruned;
      }
    }
    ok := true;
  }
}

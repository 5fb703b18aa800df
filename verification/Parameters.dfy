/**
 Parameter definitions and settings: how the runtime resolves them (internal/resources/parameters.go,
 internal/containers/contiditonal.go), how admission validates them
 (internal/validators/parameters.go), and that the two agree.
 */
module Parameters {
  import opened Wrappers

  /** A parameter without default is required. */
  datatype Definition = Definition(name: string, default: Option<string>)

  /** `valueFrom` names a parameter of the referencing resource. */
  datatype Setting = Setting(name: string, value: string, valueFrom: Option<string>)

  type Values = map<string, string>

  // ----- resolution -----

  function NamesOf(defs: seq<Definition>): set<string> { set d | d in defs :: d.name }

  /** The default of the last definition of `name`; empty when there is none. */
  function DefaultOf(defs: seq<Definition>, name: string): string {
    if defs == [] then ""
    else
      var d := defs[|defs| - 1];
      if d.name == name then (match d.default case Some(v) => v case None => "")
      else DefaultOf(defs[..|defs| - 1], name)
  }

  /** The last setting of `name`. */
  function LastSetting(settings: seq<Setting>, name: string): Option<Setting> {
    if settings == [] then None
    else if settings[|settings| - 1].name == name then Some(settings[|settings| - 1])
    else LastSetting(settings[..|settings| - 1], name)
  }

  lemma {:induction false} LastSettingFound(settings: seq<Setting>, name: string)
    ensures LastSetting(settings, name).Some? <==> exists s :: s in settings && s.name == name
    ensures LastSetting(settings, name).Some? ==>
      LastSetting(settings, name).value in settings && LastSetting(settings, name).value.name == name
  {
    if settings != [] {
      var k := |settings| - 1;
      LastSettingFound(settings[..k], name);
      assert settings == settings[..k] + [settings[k]];
      if settings[k].name == name {
        assert settings[k] in settings;
      }
    }
  }

  /** The setting at `i` is the last one of its name. */
  ghost predicate IsLast(settings: seq<Setting>, i: nat) {
    i < |settings| && forall j :: i < j < |settings| ==> settings[j].name != settings[i].name
  }

  ghost predicate IsLastDefinition(defs: seq<Definition>, i: nat) {
    i < |defs| && forall j :: i < j < |defs| ==> defs[j].name != defs[i].name
  }

  lemma {:induction false} LastSettingAt(settings: seq<Setting>, i: nat)
    requires IsLast(settings, i)
    ensures LastSetting(settings, settings[i].name) == Some(settings[i])
  {
    if i < |settings| - 1 { LastSettingAt(settings[..|settings| - 1], i); }
  }

  lemma {:induction false} LastIndex(settings: seq<Setting>, name: string) returns (i: nat)
    requires exists s :: s in settings && s.name == name
    ensures IsLast(settings, i) && settings[i].name == name
  {
    i := |settings| - 1;
    if settings[i].name != name {
      assert settings == settings[..i] + [settings[i]];
      i := LastIndex(settings[..i], name);
    }
  }

  lemma {:induction false} LastDefinitionIndex(defs: seq<Definition>, name: string) returns (i: nat)
    requires name in NamesOf(defs)
    ensures IsLastDefinition(defs, i) && defs[i].name == name
  {
    i := |defs| - 1;
    if defs[i].name != name {
      assert defs == defs[..i] + [defs[i]];
      i := LastDefinitionIndex(defs[..i], name);
    }
  }

  lemma {:induction false} DefaultAt(defs: seq<Definition>, i: nat)
    requires IsLastDefinition(defs, i)
    ensures DefaultOf(defs, defs[i].name) == if defs[i].default.Some? then defs[i].default.value else ""
  {
    if i < |defs| - 1 { DefaultAt(defs[..|defs| - 1], i); }
  }

  /** The values that parameters have. Exactly the defined names have one. That of a name with a setting is
      given by the last of its settings: the parent's value if it asks for one and there is a parent, empty
      if the parent has none, and else its own. That of a name without a setting is the default of its last
      definition, and empty without one. */
  ghost predicate Resolves(defs: seq<Definition>, settings: seq<Setting>, parent: Option<Values>, params: Values) {
    && (forall n :: n in params <==> exists d :: d in defs && d.name == n)
    && (forall i: nat :: IsLast(settings, i) && settings[i].name in params ==>
      params[settings[i].name] ==
        if settings[i].valueFrom.None? || parent.None? then settings[i].value
        else if settings[i].valueFrom.value in parent.value then parent.value[settings[i].valueFrom.value]
        else "")
    && (forall i: nat ::
      IsLastDefinition(defs, i) && (forall s :: s in settings ==> s.name != defs[i].name) && defs[i].name in params ==>
      params[defs[i].name] == if defs[i].default.Some? then defs[i].default.value else "")
  }

  lemma ResolveResolves(defs: seq<Definition>, settings: seq<Setting>, parent: Option<Values>)
    ensures Resolves(defs, settings, parent, Resolve(defs, settings, parent))
  {
    forall i: nat | IsLast(settings, i) ensures LastSetting(settings, settings[i].name) == Some(settings[i]) {
      LastSettingAt(settings, i);
    }
    forall i: nat | IsLastDefinition(defs, i) && (forall s :: s in settings ==> s.name != defs[i].name)
      ensures ValueOf(defs, settings, parent, defs[i].name) ==
        if defs[i].default.Some? then defs[i].default.value else ""
    {
      DefaultAt(defs, i);
      LastSettingFound(settings, defs[i].name);
    }
  }

  /** There are no other values that meet this. */
  lemma ResolvesIff(defs: seq<Definition>, settings: seq<Setting>, parent: Option<Values>, params: Values)
    ensures Resolves(defs, settings, parent, params) <==> params == Resolve(defs, settings, parent)
  {
    var resolved := Resolve(defs, settings, parent);
    ResolveResolves(defs, settings, parent);
    if Resolves(defs, settings, parent, params) {
      assert params.Keys == resolved.Keys;
      forall n | n in params ensures params[n] == resolved[n] {
        if exists s :: s in settings && s.name == n {
          var i := LastIndex(settings, n);
          assert IsLast(settings, i) && settings[i].name == n;
        } else {
          var i := LastDefinitionIndex(defs, n);
          assert IsLastDefinition(defs, i) && defs[i].name == n;
        }
      }
    }
  }

  /** What a setting stands for: the parent's value if it asks for one and there is a parent. */
  function SettingValue(s: Setting, parent: Option<Values>): string {
    if s.valueFrom.Some? && parent.Some? then
      (if s.valueFrom.value in parent.value then parent.value[s.valueFrom.value] else "")
    else s.value
  }

  function ValueOf(defs: seq<Definition>, settings: seq<Setting>, parent: Option<Values>, name: string): string {
    match LastSetting(settings, name)
    case Some(s) => SettingValue(s, parent)
    case None => DefaultOf(defs, name)
  }

  /** A further setting decides the value of its own parameter and leaves every other one alone. */
  lemma SettingApplies(defs: seq<Definition>, settings: seq<Setting>, i: nat, parent: Option<Values>, name: string)
    requires i < |settings|
    ensures settings[i].name == name ==>
      ValueOf(defs, settings[..i + 1], parent, name) == SettingValue(settings[i], parent)
    ensures settings[i].name != name ==>
      ValueOf(defs, settings[..i + 1], parent, name) == ValueOf(defs, settings[..i], parent, name)
  {
    assert settings[..i + 1][..i] == settings[..i];
  }

  /** The resolved parameters: one value for every defined name and for no other. */
  function Resolve(defs: seq<Definition>, settings: seq<Setting>, parent: Option<Values>): Values {
    map n | n in NamesOf(defs) :: ValueOf(defs, settings, parent, n)
  }

  method DefaultValues(defs: seq<Definition>) returns (params: Values)
    ensures params.Keys == NamesOf(defs)
    ensures forall n :: n in params ==> params[n] == DefaultOf(defs, n)
  {
    params := map[];
    for i := 0 to |defs|
      invariant params.Keys == NamesOf(defs[..i])
      invariant forall n :: n in params ==> params[n] == DefaultOf(defs[..i], n)
    {
      var d := defs[i];
      assert defs[..i + 1][..i] == defs[..i] && defs[..i + 1] == defs[..i] + [d];
      match d.default {
        case Some(v) => params := params[d.name := v];
        case None => params := params[d.name := ""];
      }
    }
    assert defs[..|defs|] == defs;
  }

  lemma ResolveSpelledOut(defs: seq<Definition>, settings: seq<Setting>, parent: Option<Values>, params: Values)
    requires params.Keys == NamesOf(defs)
    requires forall n :: n in params ==> params[n] == ValueOf(defs, settings, parent, n)
    ensures params == Resolve(defs, settings, parent) && Resolves(defs, settings, parent, params)
    ensures forall i: nat :: IsLastDefinition(defs, i) ==> defs[i].name in params
  {
    ResolveResolves(defs, settings, parent);
    forall i: nat | IsLastDefinition(defs, i) ensures defs[i].name in params { assert defs[i] in defs; }
  }

  method ParseParameters(defs: seq<Definition>, settings: seq<Setting>, parent: Option<Values>) returns (params: Values)
    ensures params == Resolve(defs, settings, parent)
    ensures forall n :: n in params <==> exists d :: d in defs && d.name == n
    ensures forall i: nat :: IsLast(settings, i) && settings[i].name in params ==>
      params[settings[i].name] ==
        if settings[i].valueFrom.None? || parent.None? then settings[i].value
        else if settings[i].valueFrom.value in parent.value then parent.value[settings[i].valueFrom.value]
        else ""
    ensures forall i: nat ::
      IsLastDefinition(defs, i) && (forall s :: s in settings ==> s.name != defs[i].name) ==>
      params[defs[i].name] == if defs[i].default.Some? then defs[i].default.value else ""
  {
    params := DefaultValues(defs);
    for i := 0 to |settings|
      invariant params.Keys == NamesOf(defs)
      invariant forall n :: n in params ==> params[n] == ValueOf(defs, settings[..i], parent, n)
    {
      var s := settings[i];
      forall n { SettingApplies(defs, settings, i, parent, n); }
      if s.name in params {
        if s.valueFrom.Some? && parent.Some? {
          var p := s.valueFrom.value;
          params := params[s.name := if p in parent.value then parent.value[p] else ""];
        } else {
          params := params[s.name := s.value];
        }
      }
    }
    assert settings[..|settings|] == settings;
    ResolveSpelledOut(defs, settings, parent, params);
  }

  // ----- conditional containers -----

  datatype Conditional<T> = Conditional(container: T, includeIf: Option<string>)

  /** Which containers the runtime includes, in terms of the resolved parameters. */
  predicate Included(includeIf: Option<string>, defs: seq<Definition>, settings: seq<Setting>) {
    includeIf.None? || includeIf.value == ""
    || (includeIf.value in NamesOf(defs) && Resolve(defs, settings, None)[includeIf.value] != "")
  }

  function Selected<T>(cs: seq<Conditional<T>>, defs: seq<Definition>, settings: seq<Setting>): seq<T> {
    if cs == [] then []
    else
      var k := |cs| - 1;
      if Included(cs[k].includeIf, defs, settings) then Selected(cs[..k], defs, settings) + [cs[k].container]
      else Selected(cs[..k], defs, settings)
  }

  lemma {:induction false} SelectedMember<T>(cs: seq<Conditional<T>>, defs: seq<Definition>, settings: seq<Setting>,
    t: T)
    ensures t in Selected(cs, defs, settings) <==>
      exists c :: c in cs && c.container == t && Included(c.includeIf, defs, settings)
  {
    if cs != [] {
      var k := |cs| - 1;
      SelectedMember(cs[..k], defs, settings, t);
      assert cs == cs[..k] + [cs[k]];
      assert cs[k] in cs;
    }
  }

  /** A container is selected if it has no condition or its parameter has a non-empty value; selected
      containers stay in order. */
  lemma SelectedAppend<T>(cs: seq<Conditional<T>>, c: Conditional<T>, defs: seq<Definition>, settings: seq<Setting>,
    params: Values)
    requires Resolves(defs, settings, None, params)
    ensures Selected<T>([], defs, settings) == []
    ensures Selected(cs + [c], defs, settings) == Selected(cs, defs, settings) +
      if c.includeIf.None? || c.includeIf.value == "" then [c.container]
      else if c.includeIf.value in params && params[c.includeIf.value] != "" then [c.container]
      else []
  {
    ResolvesIff(defs, settings, None, params);
    assert (cs + [c])[..|cs|] == cs;
  }

  predicate ShouldInclude(includeIf: Option<string>, setParams: map<string, bool>) {
    match includeIf
    case None => true
    case Some(expected) =>
      if expected != "" then expected in setParams && setParams[expected] else true
  }

  method NonEmptyDefaults(defs: seq<Definition>) returns (setParams: map<string, bool>)
    ensures setParams.Keys == NamesOf(defs)
    ensures forall n :: n in setParams ==> setParams[n] == (DefaultOf(defs, n) != "")
  {
    setParams := map[];
    for i := 0 to |defs|
      invariant setParams.Keys == NamesOf(defs[..i])
      invariant forall n :: n in setParams ==> setParams[n] == (DefaultOf(defs[..i], n) != "")
    {
      var d := defs[i];
      assert defs[..i + 1][..i] == defs[..i] && defs[..i + 1] == defs[..i] + [d];
      setParams := setParams[d.name := d.default.Some? && d.default.value != ""];
    }
    assert defs[..|defs|] == defs;
  }

  /** Which defined parameters have a non-empty value, computed without resolving them. */
  method NonEmptyParameters(defs: seq<Definition>, settings: seq<Setting>) returns (setParams: map<string, bool>)
    ensures setParams.Keys == NamesOf(defs)
    ensures forall n :: n in setParams ==> setParams[n] == (Resolve(defs, settings, None)[n] != "")
  {
    setParams := NonEmptyDefaults(defs);
    for i := 0 to |settings|
      invariant setParams.Keys == NamesOf(defs)
      invariant forall n :: n in setParams ==> setParams[n] == (ValueOf(defs, settings[..i], None, n) != "")
    {
      var s := settings[i];
      forall n { SettingApplies(defs, settings, i, None, n); }
      if s.name in setParams {
        setParams := setParams[s.name := s.value != ""];
      }
    }
    assert settings[..|settings|] == settings;
  }

  /** The filter computes from definitions and settings which parameters are set, on its own; it selects
      exactly the containers whose parameter ParseParameters resolves to a non-empty value. */
  method FilterConditionalContainers<T>(cs: seq<Conditional<T>>, defs: seq<Definition>, settings: seq<Setting>)
    returns (result: seq<T>)
    ensures result == Selected(cs, defs, settings)
  {
    var setParams := NonEmptyParameters(defs, settings);
    result := [];
    for i := 0 to |cs|
      invariant result == Selected(cs[..i], defs, settings)
    {
      assert cs[..i + 1][..i] == cs[..i];
      if ShouldInclude(cs[i].includeIf, setParams) {
        result := result + [cs[i].container];
      }
    }
    assert cs[..|cs|] == cs;
  }

  // ----- validation -----

  predicate Sets(settings: seq<Setting>, name: string) { exists s :: s in settings && s.name == name }

  function SetNames(settings: seq<Setting>): set<string> { set s | s in settings :: s.name }

  /** Every required parameter has a setting. */
  predicate Satisfies(settings: seq<Setting>, defs: seq<Definition>) {
    forall d :: d in defs && d.default.None? ==> Sets(settings, d.name)
  }

  /** The required parameters without a setting, in order. */
  function Missing(settings: seq<Setting>, defs: seq<Definition>): seq<string> {
    if defs == [] then []
    else
      var k := |defs| - 1;
      if defs[k].default.None? && !Sets(settings, defs[k].name) then Missing(settings, defs[..k]) + [defs[k].name]
      else Missing(settings, defs[..k])
  }

  lemma {:induction false} NothingMissing(settings: seq<Setting>, defs: seq<Definition>)
    ensures Missing(settings, defs) == [] <==> Satisfies(settings, defs)
  {
    if defs != [] {
      var k := |defs| - 1;
      NothingMissing(settings, defs[..k]);
      assert defs == defs[..k] + [defs[k]];
      assert defs[k] in defs;
    }
  }

  lemma {:induction false} MissingMember(settings: seq<Setting>, defs: seq<Definition>, n: string)
    ensures n in Missing(settings, defs) <==>
      && (exists d :: d in defs && d.name == n && d.default.None?)
      && (forall s :: s in settings ==> s.name != n)
  {
    if defs != [] {
      var k := |defs| - 1;
      MissingMember(settings, defs[..k], n);
      assert defs == defs[..k] + [defs[k]];
      assert defs[k] in defs;
    }
  }

  method CollectNames(settings: seq<Setting>) returns (names: set<string>)
    ensures names == SetNames(settings)
  {
    names := {};
    for i := 0 to |settings|
      invariant names == SetNames(settings[..i])
    {
      assert settings[..i + 1] == settings[..i] + [settings[i]];
      names := names + {settings[i].name};
    }
    assert settings[..|settings|] == settings;
  }

  /** Reports exactly the required parameters that are not set. */
  method ValidateParameterReference(settings: seq<Setting>, defs: seq<Definition>) returns (errors: seq<string>)
    ensures errors == Missing(settings, defs)
    ensures errors == [] <==> Satisfies(settings, defs)
    ensures forall n :: n in errors <==>
      && (exists d :: d in defs && d.name == n && d.default.None?)
      && (forall s :: s in settings ==> s.name != n)
  {
    var setParams := CollectNames(settings);
    errors := [];
    for i := 0 to |defs|
      invariant errors == Missing(settings, defs[..i])
    {
      assert defs[..i + 1][..i] == defs[..i];
      assert defs[i].name in setParams <==> Sets(settings, defs[i].name);
      if defs[i].name !in setParams && defs[i].default == None {
        errors := errors + [defs[i].name];
      }
    }
    assert defs[..|defs|] == defs;
    NothingMissing(settings, defs);
    forall n { MissingMember(settings, defs, n); }
  }

  /** Reports the indices of the settings that ask for a parent's value. */
  method ValidateNoParentParameters(settings: seq<Setting>) returns (errors: seq<nat>)
    ensures forall i: nat :: i in errors <==> i < |settings| && settings[i].valueFrom.Some?
    ensures errors == [] <==> forall s :: s in settings ==> s.valueFrom.None?
  {
    errors := [];
    for k := 0 to |settings|
      invariant forall i: nat :: i in errors <==> i < k && settings[i].valueFrom.Some?
    {
      if settings[k].valueFrom != None {
        errors := errors + [k];
      }
    }
    if errors != [] {
      assert errors[0] in errors && settings[errors[0]] in settings;
    } else {
      forall s | s in settings ensures s.valueFrom.None? {
        var i :| 0 <= i < |settings| && settings[i] == s;
        assert i !in errors;
      }
    }
  }

  /** A setting with both a value and a source, or whose source is not defined by the parent. */
  predicate BadSource(s: Setting, parentDefs: seq<Definition>) {
    s.valueFrom.Some? && (s.value != "" || s.valueFrom.value !in NamesOf(parentDefs))
  }

  method ValidateParentParameters(settings: seq<Setting>, parentDefs: seq<Definition>) returns (errors: seq<nat>)
    ensures forall i: nat :: i in errors <==> i < |settings| && BadSource(settings[i], parentDefs)
    ensures errors == [] <==> forall s :: s in settings ==> !BadSource(s, parentDefs)
    ensures forall i: nat :: i in errors <==>
      && i < |settings| && settings[i].valueFrom.Some?
      && (settings[i].value != "" || forall d :: d in parentDefs ==> d.name != settings[i].valueFrom.value)
  {
    var parent: set<string> := {};
    for k := 0 to |parentDefs|
      invariant parent == NamesOf(parentDefs[..k])
    {
      assert parentDefs[..k + 1] == parentDefs[..k] + [parentDefs[k]];
      parent := parent + {parentDefs[k].name};
    }
    assert parentDefs[..|parentDefs|] == parentDefs;
    errors := [];
    for k := 0 to |settings|
      invariant forall i: nat :: i in errors <==> i < k && BadSource(settings[i], parentDefs)
    {
      if settings[k].valueFrom != None {
        var parentParam := settings[k].valueFrom.value;
        if settings[k].value != "" {
          errors := errors + [k];
        } else if parentParam !in parent {
          errors := errors + [k];
        }
      }
    }
    if errors != [] {
      assert errors[0] in errors && settings[errors[0]] in settings;
    } else {
      forall s | s in settings ensures !BadSource(s, parentDefs) {
        var i :| 0 <= i < |settings| && settings[i] == s;
        assert i !in errors;
      }
    }
  }

  /** Splits definitions into those that the settings set and the others, in order. */
  method ParseSetParameters(settings: seq<Setting>, defs: seq<Definition>)
    returns (given: seq<Setting>, unset: seq<Definition>)
    ensures forall d :: d in unset <==> d in defs && !Sets(settings, d.name)
    ensures forall s :: s in given <==> s.name in NamesOf(defs) && LastSetting(settings, s.name) == Some(s)
    ensures |given| + |unset| == |defs|
    ensures forall d :: d in unset <==> d in defs && forall s :: s in settings ==> s.name != d.name
    ensures forall s :: s in given <==>
      (exists d :: d in defs && d.name == s.name) && exists i: nat :: IsLast(settings, i) && settings[i] == s
  {
    var params: map<string, Setting> := map[];
    for i := 0 to |settings|
      invariant forall n :: n in params <==> LastSetting(settings[..i], n).Some?
      invariant forall n :: n in params ==> LastSetting(settings[..i], n) == Some(params[n])
    {
      assert settings[..i + 1][..i] == settings[..i];
      params := params[settings[i].name := settings[i]];
    }
    assert settings[..|settings|] == settings;
    forall n ensures n in params <==> Sets(settings, n) { LastSettingFound(settings, n); }
    given, unset := [], [];
    for i := 0 to |defs|
      invariant forall d :: d in unset <==> d in defs[..i] && !Sets(settings, d.name)
      invariant forall s :: s in given <==> s.name in NamesOf(defs[..i]) && LastSetting(settings, s.name) == Some(s)
      invariant |given| + |unset| == i
    {
      assert defs[..i + 1] == defs[..i] + [defs[i]];
      LastSettingFound(settings, defs[i].name);
      if defs[i].name in params {
        given := given + [params[defs[i].name]];
      } else {
        unset := unset + [defs[i]];
      }
    }
    assert defs[..|defs|] == defs;
    forall s: Setting ensures LastSetting(settings, s.name) == Some(s) <==>
      exists i: nat :: IsLast(settings, i) && settings[i] == s
    {
      LastSettingIs(settings, s);
    }
  }

  lemma LastSettingIs(settings: seq<Setting>, s: Setting)
    ensures LastSetting(settings, s.name) == Some(s) <==> exists i: nat :: IsLast(settings, i) && settings[i] == s
  {
    LastSettingFound(settings, s.name);
    if LastSetting(settings, s.name) == Some(s) {
      var i := LastIndex(settings, s.name);
      LastSettingAt(settings, i);
    }
    if i: nat :| IsLast(settings, i) && settings[i] == s {
      LastSettingAt(settings, i);
    }
  }

  // ----- agreement of validation and runtime -----

  /** Each setting of a validated uploader reference that takes its value from a defined parent parameter
      receives exactly the value the profile resolves for it; the fallback for missing keys is never used. */
  lemma ValidatedSourceResolves(profileDefs: seq<Definition>, profileSettings: seq<Setting>,
                                uploaderDefs: seq<Definition>, settings: seq<Setting>, name: string)
    requires forall s :: s in settings ==> !BadSource(s, profileDefs)
    requires name in NamesOf(uploaderDefs)
    requires LastSetting(settings, name).Some? && LastSetting(settings, name).value.valueFrom.Some?
    ensures var parent := Resolve(profileDefs, profileSettings, None);
            var source := LastSetting(settings, name).value.valueFrom.value;
            && source in parent
            && Resolve(uploaderDefs, settings, Some(parent))[name] == parent[source]
  {
    LastSettingFound(settings, name);
    assert !BadSource(LastSetting(settings, name).value, profileDefs);
  }

  /** Every required parameter of a validated reference takes its value from a setting. */
  lemma RequiredComeFromSettings(defs: seq<Definition>, settings: seq<Setting>, parent: Option<Values>, d: Definition)
    requires Satisfies(settings, defs) && d in defs && d.default.None?
    ensures exists s ::
      s in settings && s.name == d.name && Resolve(defs, settings, parent)[d.name] == SettingValue(s, parent)
  {
    LastSettingFound(settings, d.name);
    assert Sets(settings, d.name);
    var s := LastSetting(settings, d.name).value;
    assert s in settings && s.name == d.name && Resolve(defs, settings, parent)[d.name] == SettingValue(s, parent);
  }

  /** Without a parent, a value never comes from anywhere but the settings and defaults themselves. */
  lemma NoParentMeansOwnValue(defs: seq<Definition>, settings: seq<Setting>, name: string)
    requires name in NamesOf(defs)
    requires forall s :: s in settings ==> s.valueFrom.None?
    ensures forall parent :: Resolve(defs, settings, parent)[name] == Resolve(defs, settings, None)[name]
  {
    LastSettingFound(settings, name);
  }

  // ----- definitions that change -----

  predicate Requires(defs: seq<Definition>, name: string) { exists d :: d in defs && d.name == name && d.default.None? }

  function NewlyRequired(before: seq<Definition>, after: seq<Definition>): seq<Definition> {
    if after == [] then []
    else
      var k := |after| - 1;
      if after[k].name !in NamesOf(before) && after[k].default.None? then NewlyRequired(before, after[..k]) + [after[k]]
      else NewlyRequired(before, after[..k])
  }

  lemma {:induction false} NewlyRequiredMember(before: seq<Definition>, after: seq<Definition>, d: Definition)
    ensures d in NewlyRequired(before, after) <==> d in after && d.name !in NamesOf(before) && d.default.None?
  {
    if after != [] {
      var k := |after| - 1;
      NewlyRequiredMember(before, after[..k], d);
      assert after == after[..k] + [after[k]];
    }
  }

  method ParseNewRequiredParameters(before: seq<Definition>, after: seq<Definition>)
    returns (introduced: seq<Definition>)
    ensures introduced == NewlyRequired(before, after)
    ensures forall d :: d in introduced <==>
      d in after && d.default.None? && forall b :: b in before ==> b.name != d.name
  {
    var oldParamSet: set<string> := {};
    for i := 0 to |before|
      invariant oldParamSet == NamesOf(before[..i])
    {
      assert before[..i + 1] == before[..i] + [before[i]];
      oldParamSet := oldParamSet + {before[i].name};
    }
    assert before[..|before|] == before;
    introduced := [];
    for i := 0 to |after|
      invariant introduced == NewlyRequired(before, after[..i])
    {
      assert after[..i + 1][..i] == after[..i];
      if after[i].name !in oldParamSet && after[i].default == None {
        introduced := introduced + [after[i]];
      }
    }
    assert after[..|after|] == after;
    forall d { NewlyRequiredMember(before, after, d); }
  }

  /** A parameter that had a default in every old definition and is required now. */
  predicate LostDefault(before: seq<Definition>, after: seq<Definition>, name: string) {
    name in NamesOf(before) && !Requires(before, name) && Requires(after, name)
  }

  /** When definitions change and a reference sets all newly introduced required parameters, which is
      what admission checks, the reference still satisfies the new definitions if and only if it sets
      every parameter that lost its default. */
  lemma UpdateKeepsReferences(before: seq<Definition>, after: seq<Definition>, settings: seq<Setting>)
    requires Satisfies(settings, before)
    requires forall d :: d in NewlyRequired(before, after) ==> Sets(settings, d.name)
    ensures Satisfies(settings, after) <==> forall n :: LostDefault(before, after, n) ==> Sets(settings, n)
  {
    if forall n :: LostDefault(before, after, n) ==> Sets(settings, n) {
      forall d | d in after && d.default.None? ensures Sets(settings, d.name) {
        NewlyRequiredMember(before, after, d);
        if d.name in NamesOf(before) {
          if Requires(before, d.name) {
          } else {
            assert LostDefault(before, after, d.name);
          }
        }
      }
    }
  }

  /** The condition can fail: admission does not look at parameters that lose their default. */
  lemma LosingADefaultBreaksReferences()
    ensures var before := [Definition("p", Some("x"))]; var after := [Definition("p", None)];
            Satisfies([], before) && NewlyRequired(before, after) == [] && !Satisfies([], after)
  {
    var before, after := [Definition("p", Some("x"))], [Definition("p", None)];
    assert after[..0] == [];
    assert before[0] in before && after[0] in after;
  }
}

/** The settings bookkeeping of the GUI: the parameters a model profile shows in
    the settings dialog, the profile `SettingsDialog.save_settings` writes back,
    and the per-provider dictionaries the dialog edits in place. */
module Settings {
  import opened Wrappers
  import opened Strings
  import opened Json
  import Request

  /** The providers the dialog and the application walk through, in order. */
  const Providers: seq<string> := ["openai", "anthropic", "openrouter", "google"]

  /** The refill of a cleared profile: the model, the stripped prompt, then
      the parsed parameters; when they are unusable the profile keeps what was
      written before them. */
  method FillProfile(form: ProfileForm) returns (config: map<string, Json>, fault: Option<Fault>)
    ensures fault.None? ==> Merged(form) == Some(config)
    ensures fault.Some? ==> Merged(form).None? && config == BaseProfile(form) && fault.value == MergeFault(form)
  {
    config := map[];
    config := config["model" := JString(form.model)];
    config := config["prompt" := JString(Strip(form.promptText))];
    assert config == BaseProfile(form);
    if Strip(form.parametersText) != [] {
      if form.parsed.None? {
        return config, Some(InvalidJson);
      }
      if !form.parsed.value.JObject? {
        return config, Some(ParametersNotADictionary);
      }
      config := config + form.parsed.value.members;
    }
    return config, None;
  }

  /** One provider's settings dictionary ("api_key", "primary", "fallback").
      It is an object: the application and an open settings dialog can hold the
      same one. A profile dictionary nested in it is reachable only through it,
      so it is kept as a value inside `members`. */
  class ProviderSettings {
    var members: map<string, Json>

    constructor (members: map<string, Json>)
      ensures this.members == members
    {
      this.members := members;
    }

    /** The body of the inner loop of `save_settings` for one profile: the
        profile dictionary is cleared and refilled in place, so when its
        parameters fail it is left holding the model and prompt written so far. */
    method WriteProfile(provider: string, modelType: string, form: ProfileForm)
      returns (failure: Option<SaveFailure>)
      modifies this
      ensures members == SaveProfile(old(members), provider, modelType, form).members
      ensures failure == SaveProfile(old(members), provider, modelType, form).failure
    {
      if modelType in members && !members[modelType].JObject? {
        return Some(SaveFailure(provider, modelType, ProfileNotADictionary));
      }
      var config, fault := FillProfile(form);
      members := members[modelType := JObject(config)];
      if fault.Some? {
        return Some(SaveFailure(provider, modelType, fault.value));
      }
      return None;
    }

    /** The API key, then the primary and the fallback profile, stopping at
        the first failure. */
    method WriteProvider(provider: string, form: ProviderForm) returns (failure: Option<SaveFailure>)
      modifies this
      ensures members == SaveProvider(old(members), provider, form).members
      ensures failure == SaveProvider(old(members), provider, form).failure
    {
      members := members["api_key" := JString(form.apiKey)];
      failure := WriteProfile(provider, "primary", form.primary);
      if failure.None? {
        failure := WriteProfile(provider, "fallback", form.fallback);
      }
    }
  }

  /** `create_model_section` shows a profile's parameters as the profile
      without its "model" and "prompt" keys. */
  method ExtractParameters(config: map<string, Json>) returns (parameters: map<string, Json>)
    ensures parameters == Request.Parameters(config)
  {
    parameters := map[];
    var remaining := config.Keys;
    while remaining != {}
      invariant remaining <= config.Keys
      invariant parameters == map k | k in config.Keys - remaining && k != "model" && k != "prompt" :: config[k]
      decreases remaining
    {
      var key :| key in remaining;
      if key != "model" && key != "prompt" {
        parameters := parameters[key := config[key]];
      }
      remaining := remaining - {key};
    }
    assert config.Keys - remaining == config.Keys;
  }

  /** What the dialog's three widgets for one profile hold when "Save" is
      pressed, and what `json.loads` makes of the stripped parameters text
      (None when it raises `JSONDecodeError`). */
  datatype ProfileForm = ProfileForm(model: string, promptText: string, parametersText: string, parsed: Option<Json>)

  /** One provider's tab: the API key entry and the two profiles. */
  datatype ProviderForm = ProviderForm(apiKey: string, primary: ProfileForm, fallback: ProfileForm)

  datatype Fault =
    | ProfileNotADictionary     // `config.clear()` on a stored profile that is not a dict; a dialog
                                // is never built over one, as building it calls `config.get`
    | InvalidJson               // the parameters text is not JSON
    | ParametersNotADictionary  // `config.update()` with JSON that is not an object

  /** Where and why saving stopped. */
  datatype SaveFailure = SaveFailure(provider: string, modelType: string, fault: Fault)

  /** A provider dictionary after a save step, and the failure that stopped it. */
  datatype Saved = Saved(members: map<string, Json>, failure: Option<SaveFailure>)

  /** The profile saved from a form: the model and the stripped prompt,
      updated with the parsed parameters; None when non-blank parameters are
      not a JSON object. */
  function Merged(form: ProfileForm): Option<map<string, Json>>
  {
    if Strip(form.parametersText) == [] then Some(BaseProfile(form))
    else if form.parsed.Some? && form.parsed.value.JObject? then Some(BaseProfile(form) + form.parsed.value.members)
    else None
  }

  /** The parameters are merged last, so they override the model and the
      prompt when they hold those keys. */
  lemma MergedProfile(form: ProfileForm)
    ensures Merged(form).Some? <==> Strip(form.parametersText) == [] || (form.parsed.Some? && form.parsed.value.JObject?)
    ensures Strip(form.parametersText) == [] ==>
      Merged(form) == Some(map["model" := JString(form.model), "prompt" := JString(Strip(form.promptText))])
    ensures Merged(form).Some? && Strip(form.parametersText) != [] ==>
      var saved := Merged(form).value;
      var parameters := form.parsed.value.members;
      && saved.Keys == {"model", "prompt"} + parameters.Keys
      && (forall k :: k in parameters ==> saved[k] == parameters[k])
      && ("model" !in parameters ==> saved["model"] == JString(form.model))
      && ("prompt" !in parameters ==> saved["prompt"] == JString(Strip(form.promptText)))
  {
    if Merged(form).Some? && Strip(form.parametersText) != [] {
      assert Merged(form).value == BaseProfile(form) + form.parsed.value.members;
      MergeOverrides(BaseProfile(form), form.parsed.value.members, JString(form.model), JString(Strip(form.promptText)));
    }
  }

  lemma MergeOverrides(base: map<string, Json>, parameters: map<string, Json>, model: Json, prompt: Json)
    requires base == map["model" := model, "prompt" := prompt]
    ensures var saved := base + parameters;
      && saved.Keys == {"model", "prompt"} + parameters.Keys
      && (forall k :: k in parameters ==> saved[k] == parameters[k])
      && ("model" !in parameters ==> saved["model"] == model)
      && ("prompt" !in parameters ==> saved["prompt"] == prompt)
  {
    assert base.Keys == {"model", "prompt"};
  }

  /** A provider dictionary after saving the profile `modelType`. On a bad
      parameters text the profile is left holding only the model and prompt. */
  function SaveProfile(members: map<string, Json>, provider: string, modelType: string, form: ProfileForm): Saved
  {
    if modelType in members && !members[modelType].JObject? then
      Saved(members, Some(SaveFailure(provider, modelType, ProfileNotADictionary)))
    else if Merged(form).Some? then
      Saved(members[modelType := JObject(Merged(form).value)], None)
    else
      Saved(members[modelType := JObject(BaseProfile(form))], Some(SaveFailure(provider, modelType, MergeFault(form))))
  }

  /** Saving a profile fails exactly when the stored profile is not a
      dictionary or the parameters are unusable; otherwise the profile becomes
      the merged one. No other key of the provider changes either way. */
  lemma SaveProfileEffect(members: map<string, Json>, provider: string, modelType: string, form: ProfileForm)
    ensures var s := SaveProfile(members, provider, modelType, form);
      && (s.failure.None? <==> Savable(members, modelType, form))
      && (s.failure.None? ==> s.members == members[modelType := JObject(Merged(form).value)])
      && (s.failure.Some? ==> s.failure.value.provider == provider && s.failure.value.modelType == modelType)
      && (forall k :: k in members && k != modelType ==> k in s.members && s.members[k] == members[k])
      && s.members.Keys <= members.Keys + {modelType}
  {
  }

  /** What `save_settings` writes into a cleared profile before its
      parameters: the model and the stripped prompt. */
  function BaseProfile(form: ProfileForm): map<string, Json>
  {
    map["model" := JString(form.model), "prompt" := JString(Strip(form.promptText))]
  }

  function MergeFault(form: ProfileForm): Fault
  {
    if form.parsed.None? then InvalidJson else ParametersNotADictionary
  }

  /** A profile `save_settings` can write: the stored one, if any, is a
      dictionary, and the form's parameters are blank or a JSON object. */
  predicate Savable(members: map<string, Json>, modelType: string, form: ProfileForm)
  {
    (modelType !in members || members[modelType].JObject?) && Merged(form).Some?
  }

  /** A provider dictionary after `save_settings` has written its API key and
      then its primary and fallback profiles, stopping at the first failure. */
  function SaveProvider(members: map<string, Json>, provider: string, form: ProviderForm): Saved
  {
    var withKey := members["api_key" := JString(form.apiKey)];
    var primary := SaveProfile(withKey, provider, "primary", form.primary);
    if primary.failure.Some? then primary
    else SaveProfile(primary.members, provider, "fallback", form.fallback)
  }

  /** A provider is saved whole exactly when both its profiles can be: then
      it holds the new API key and both merged profiles. A failure names the
      provider. */
  lemma SaveProviderEffect(members: map<string, Json>, provider: string, form: ProviderForm)
    ensures var s := SaveProvider(members, provider, form);
      && (s.failure.None? <==> Savable(members, "primary", form.primary) && Savable(members, "fallback", form.fallback))
      && (s.failure.None? ==>
            s.members == members["api_key" := JString(form.apiKey)]
                                ["primary" := JObject(Merged(form.primary).value)]
                                ["fallback" := JObject(Merged(form.fallback).value)])
      && (s.failure.Some? ==> s.failure.value.provider == provider)
  {
    var withKey := members["api_key" := JString(form.apiKey)];
    assert "api_key" != "primary" && "api_key" != "fallback" && "primary" != "fallback";
    SavableElsewhere(members, "api_key", JString(form.apiKey), "primary", form.primary);
    SaveProfileEffect(withKey, provider, "primary", form.primary);
    var primary := SaveProfile(withKey, provider, "primary", form.primary);
    if primary.failure.None? {
      SavableElsewhere(members, "api_key", JString(form.apiKey), "fallback", form.fallback);
      SavableElsewhere(withKey, "primary", JObject(Merged(form.primary).value), "fallback", form.fallback);
      SaveProfileEffect(primary.members, provider, "fallback", form.fallback);
    }
  }

  /** Writing another key leaves it as savable as it was. */
  lemma SavableElsewhere(members: map<string, Json>, key: string, value: Json, modelType: string, form: ProfileForm)
    requires key != modelType
    ensures Savable(members[key := value], modelType, form) == Savable(members, modelType, form)
  {
  }

  /** The provider dictionaries as values. */
  function Snapshot(configs: map<string, ProviderSettings>): (state: map<string, map<string, Json>>)
    reads configs.Values
    ensures state.Keys == configs.Keys
  {
    map p | p in configs :: configs[p].members
  }

  function Lookup(state: map<string, map<string, Json>>, provider: string): map<string, Json>
  {
    if provider in state then state[provider] else map[]
  }

  /** The dictionaries after `step` has been run on each provider in order,
      a missing dictionary starting empty, up to the first step that fails. */
  function InOrder(state: map<string, map<string, Json>>, providers: seq<string>,
                   step: (map<string, Json>, string) -> Saved)
    : (r: (map<string, map<string, Json>>, Option<SaveFailure>))
    decreases |providers|
  {
    if providers == [] then (state, None)
    else
      var p := providers[0];
      var saved := step(Lookup(state, p), p);
      var next := state[p := saved.members];
      if saved.failure.Some? then (next, saved.failure)
      else InOrder(next, providers[1..], step)
  }

  /** One provider's save, as a step of the walk above. */
  function SaveStep(forms: map<string, ProviderForm>): (map<string, Json>, string) -> Saved
  {
    (members: map<string, Json>, provider: string) =>
      if provider in forms then SaveProvider(members, provider, forms[provider]) else Saved(members, None)
  }

  /** The provider dictionaries after `save_settings` with the given tabs. */
  function SaveAll(state: map<string, map<string, Json>>, forms: map<string, ProviderForm>)
    : (map<string, map<string, Json>>, Option<SaveFailure>)
  {
    InOrder(state, Providers, SaveStep(forms))
  }

  predicate Distinct<T(==)>(s: seq<T>)
  {
    forall i, j :: 0 <= i < j < |s| ==> s[i] != s[j]
  }

  /** Providers the walk does not visit keep their dictionaries, and no other
      dictionary appears. */
  lemma {:induction false} InOrderUntouched(state: map<string, map<string, Json>>, providers: seq<string>,
                                            step: (map<string, Json>, string) -> Saved)
    ensures var r := InOrder(state, providers, step);
      && (forall p :: p in r.0 ==> p in state || p in providers)
      && (forall p :: p in state && p !in providers ==> p in r.0 && r.0[p] == state[p])
    decreases |providers|
  {
    if providers != [] {
      var p := providers[0];
      var saved := step(Lookup(state, p), p);
      if saved.failure.None? {
        InOrderUntouched(state[p := saved.members], providers[1..], step);
        assert forall q :: q in providers[1..] ==> q in providers;
      }
    }
  }

  /** A walk that completes has run the step on every provider's own
      dictionary, and no step failed. */
  lemma {:induction false} InOrderSucceeds(state: map<string, map<string, Json>>, providers: seq<string>,
                                           step: (map<string, Json>, string) -> Saved)
    requires Distinct(providers)
    ensures var r := InOrder(state, providers, step);
      r.1.None? ==> forall p :: p in providers ==>
        && p in r.0
        && r.0[p] == step(Lookup(state, p), p).members
        && step(Lookup(state, p), p).failure.None?
    decreases |providers|
  {
    if providers != [] {
      var p := providers[0];
      var saved := step(Lookup(state, p), p);
      var next := state[p := saved.members];
      if saved.failure.None? {
        DistinctTail(providers);
        InOrderSucceeds(next, providers[1..], step);
        InOrderUntouched(next, providers[1..], step);
        forall q | q in providers[1..] ensures Lookup(next, q) == Lookup(state, q) {
          assert q != p;
        }
      }
    }
  }

  /** A walk that stops has run the step on the providers up to the one that
      failed, and left those after it untouched. */
  lemma {:induction false} InOrderStops(state: map<string, map<string, Json>>, providers: seq<string>,
                                        step: (map<string, Json>, string) -> Saved)
    requires Distinct(providers)
    ensures var r := InOrder(state, providers, step);
      r.1.Some? ==> exists k :: 0 <= k < |providers| && Stopped(state, providers, step, k, r.0)
    decreases |providers|
  {
    var r := InOrder(state, providers, step);
    if providers != [] && r.1.Some? {
      var p := providers[0];
      var saved := step(Lookup(state, p), p);
      var next := state[p := saved.members];
      DistinctTail(providers);
      if saved.failure.Some? {
        forall j | 0 < j < |providers| ensures Lookup(next, providers[j]) == Lookup(state, providers[j]) {
          assert providers[j] != p;
        }
        assert Stopped(state, providers, step, 0, r.0);
      } else {
        InOrderStops(next, providers[1..], step);
        InOrderUntouched(next, providers[1..], step);
        var k :| 0 <= k < |providers[1..]| && Stopped(next, providers[1..], step, k, r.0);
        StoppedLater(state, providers, step, k, r.0);
      }
    }
  }

  /** The walk failed at `providers[k]`: every provider up to it holds what the
      step made of its own dictionary, and those after it are untouched. */
  predicate Stopped(state: map<string, map<string, Json>>, providers: seq<string>,
                    step: (map<string, Json>, string) -> Saved, k: nat, after: map<string, map<string, Json>>)
    requires k < |providers|
  {
    && step(Lookup(state, providers[k]), providers[k]).failure.Some?
    && (forall j :: 0 <= j <= k ==>
          providers[j] in after && after[providers[j]] == step(Lookup(state, providers[j]), providers[j]).members)
    && (forall j :: 0 <= j < k ==> step(Lookup(state, providers[j]), providers[j]).failure.None?)
    && (forall j :: k < j < |providers| ==> Lookup(after, providers[j]) == Lookup(state, providers[j]))
  }

  /** A stop in the rest of the walk, after a first step that succeeded, is
      a stop of the whole walk one place later. */
  lemma StoppedLater(state: map<string, map<string, Json>>, providers: seq<string>,
                     step: (map<string, Json>, string) -> Saved, k: nat, after: map<string, map<string, Json>>)
    requires Distinct(providers) && k + 1 < |providers|
    requires step(Lookup(state, providers[0]), providers[0]).failure.None?
    requires var next := state[providers[0] := step(Lookup(state, providers[0]), providers[0]).members];
      && Stopped(next, providers[1..], step, k, after)
      && providers[0] in after && after[providers[0]] == next[providers[0]]
    ensures Stopped(state, providers, step, k + 1, after)
  {
    var p := providers[0];
    var next := state[p := step(Lookup(state, p), p).members];
    var rest := providers[1..];
    forall j | 1 <= j < |providers| ensures Lookup(next, providers[j]) == Lookup(state, providers[j]) {
      assert providers[j] != p;
    }
    forall j | 1 <= j <= k + 1
      ensures providers[j] in after && after[providers[j]] == step(Lookup(state, providers[j]), providers[j]).members
    {
      assert rest[j - 1] == providers[j];
    }
    forall j | 1 <= j < k + 1 ensures step(Lookup(state, providers[j]), providers[j]).failure.None? {
      assert rest[j - 1] == providers[j];
    }
    forall j | k + 1 < j < |providers| ensures Lookup(after, providers[j]) == Lookup(state, providers[j]) {
      assert rest[j - 1] == providers[j];
    }
    assert rest[k] == providers[k + 1];
  }

  lemma DistinctTail<T>(s: seq<T>)
    requires s != [] && Distinct(s)
    ensures Distinct(s[1..]) && s[0] !in s[1..]
  {
    forall i, j | 0 <= i < j < |s[1..]| ensures s[1..][i] != s[1..][j] {
      assert s[1..][i] == s[i + 1] && s[1..][j] == s[j + 1];
    }
  }

  /** A save that completes has written every provider's API key and both
      profiles, each as its form gives them. */
  lemma SaveAllSucceeds(state: map<string, map<string, Json>>, forms: map<string, ProviderForm>)
    requires forall p :: p in Providers ==> p in forms
    ensures SaveAll(state, forms).1.None? ==> forall p :: p in Providers ==>
      && p in SaveAll(state, forms).0
      && SaveAll(state, forms).0[p] == SaveProvider(Lookup(state, p), p, forms[p]).members
      && SaveProvider(Lookup(state, p), p, forms[p]).failure.None?
  {
    InOrderSucceeds(state, Providers, SaveStep(forms));
    forall p | p in Providers
      ensures SaveStep(forms)(Lookup(state, p), p) == SaveProvider(Lookup(state, p), p, forms[p])
    {
    }
  }

  /** Showing a stored profile in the dialog and saving it unchanged gives the
      profile back with the model and the stripped prompt as the dialog shows
      them; a profile that stores both as strings comes back as it was, up to
      stripping its prompt. The parameters text is the `json.dumps` of the
      extracted parameters, which is never blank and which `json.loads` reads
      back. */
  lemma ProfileRoundTrip(config: map<string, Json>, model: string, prompt: string, parametersText: string)
    requires Strip(parametersText) != []
    ensures Merged(ProfileForm(model, prompt, parametersText, Some(JObject(Request.Parameters(config)))))
         == Some(config["model" := JString(model)]["prompt" := JString(Strip(prompt))])
    ensures "model" in config && config["model"] == JString(model) ==>
      Merged(ProfileForm(model, prompt, parametersText, Some(JObject(Request.Parameters(config)))))
         == Some(config["prompt" := JString(Strip(prompt))])
  {
    var form := ProfileForm(model, prompt, parametersText, Some(JObject(Request.Parameters(config))));
    assert Merged(form) == Some(BaseProfile(form) + Request.Parameters(config));
    RestoreNamedKeys(config, Request.Parameters(config), JString(model), JString(Strip(prompt)));
    if "model" in config && config["model"] == JString(model) {
      UpdateSame(config, "model", JString(model));
    }
  }

  lemma UpdateSame<K, V>(m: map<K, V>, k: K, v: V)
    requires k in m && m[k] == v
    ensures m[k := v] == m
  {
  }

  /** A map without its "model" and "prompt" keys, put back under a fresh
      model and prompt, is the map with those two keys overwritten. */
  lemma RestoreNamedKeys<V>(config: map<string, V>, parameters: map<string, V>, model: V, prompt: V)
    requires parameters.Keys == config.Keys - {"model", "prompt"}
    requires forall k :: k in parameters ==> parameters[k] == config[k]
    ensures map["model" := model, "prompt" := prompt] + parameters == config["model" := model]["prompt" := prompt]
  {
    var restored := map["model" := model, "prompt" := prompt] + parameters;
    var expected := config["model" := model]["prompt" := prompt];
    assert restored.Keys == expected.Keys;
  }

  /** The dialog's result: the configs and general settings it hands back. */
  datatype DialogResult = DialogResult(providerConfigs: map<string, ProviderSettings>, generalSettings: map<string, Json>)

  /** The default general settings. */
  const DefaultGeneral: map<string, Json> := map["max_workers" := JNumber(1, 0)]

  /** No two providers share a dictionary, as holds for dictionaries read from
      a settings file or built by the application. */
  predicate Unshared(configs: map<string, ProviderSettings>)
  {
    forall p, q :: p in configs && q in configs && p != q ==> configs[p] != configs[q]
  }

  /** `SettingsDialog`, reduced to the configs it edits and its result. */
  class SettingsDialog {
    var providerConfigs: map<string, ProviderSettings>
    var generalSettings: map<string, Json>
    var result: Option<DialogResult>

    /** `provider_configs.copy()` is a shallow copy: the dialog's map is new,
        but it holds the application's own provider dictionaries. */
    constructor (appConfigs: map<string, ProviderSettings>, general: Option<map<string, Json>>)
      ensures providerConfigs == appConfigs
      ensures generalSettings == if general.Some? && general.value != map[] then general.value else DefaultGeneral
      ensures result.None?
    {
      providerConfigs := appConfigs;
      generalSettings := if general.Some? && general.value != map[] then general.value else DefaultGeneral;
      result := None;
    }

    /** A dialog that copies each provider dictionary, as `copy.deepcopy`
        would: it shares nothing with the application. */
    constructor Isolated(appConfigs: map<string, ProviderSettings>, general: Option<map<string, Json>>)
      ensures providerConfigs.Keys == appConfigs.Keys
      ensures forall p :: p in providerConfigs ==> fresh(providerConfigs[p])
      ensures Snapshot(providerConfigs) == old(Snapshot(appConfigs))
      ensures Unshared(providerConfigs)
      ensures generalSettings == if general.Some? && general.value != map[] then general.value else DefaultGeneral
      ensures result.None?
    {
      var copies: map<string, ProviderSettings> := map[];
      var remaining := appConfigs.Keys;
      while remaining != {}
        invariant remaining <= appConfigs.Keys
        invariant copies.Keys == appConfigs.Keys - remaining
        invariant forall p :: p in copies ==> fresh(copies[p]) && copies[p].members == appConfigs[p].members
        invariant Unshared(copies)
        decreases remaining
      {
        var p :| p in remaining;
        var copy := new ProviderSettings(appConfigs[p].members);
        copies := copies[p := copy];
        remaining := remaining - {p};
      }
      providerConfigs := copies;
      generalSettings := if general.Some? && general.value != map[] then general.value else DefaultGeneral;
      result := None;
    }

    /** `save_settings`: for each provider in order, create its dictionary if
        missing, write the API key and both profiles into it in place; stop at
        the first failure (the dialog shows an error and keeps no result), and
        otherwise record `max_workers` and the result. `threads` is what the
        thread-count spinbox's `IntVar.get()` gives: None when its text is not
        a number and the call raises, which the outer `except` catches after
        the provider dictionaries have been written. */
    method SaveSettings(forms: map<string, ProviderForm>, threads: Option<int>) returns (failure: Option<SaveFailure>)
      requires forall p :: p in Providers ==> p in forms
      requires Unshared(providerConfigs)
      modifies this, providerConfigs.Values
      ensures var saved := SaveAll(old(Snapshot(providerConfigs)), forms);
        failure == saved.1 && Snapshot(providerConfigs) == saved.0
      ensures forall p :: p in old(providerConfigs) ==> p in providerConfigs && providerConfigs[p] == old(providerConfigs[p])
      ensures failure.Some? || threads.None? ==> result == old(result) && generalSettings == old(generalSettings)
      ensures failure.None? && threads.Some? ==>
        && generalSettings == old(generalSettings)["max_workers" := JNumber(threads.value, 0)]
        && result == Some(DialogResult(providerConfigs, generalSettings))
    {
      failure := SaveProviders(Providers, forms);
      if failure.None? {
        ghost var saved := Snapshot(providerConfigs);
        var accepted := Accept(threads);
        assert Snapshot(providerConfigs) == saved;
      }
    }

    /** The end of `save_settings`: `max_workers` is recorded and the result
        set; an unreadable thread count raises before either, and the dialog
        only shows the error. The provider dictionaries are left alone. */
    method Accept(threads: Option<int>) returns (accepted: bool)
      modifies this
      ensures providerConfigs == old(providerConfigs)
      ensures accepted <==> threads.Some?
      ensures threads.None? ==> generalSettings == old(generalSettings) && result == old(result)
      ensures threads.Some? ==>
        && generalSettings == old(generalSettings)["max_workers" := JNumber(threads.value, 0)]
        && result == Some(DialogResult(providerConfigs, generalSettings))
    {
      if threads.None? {
        return false;
      }
      generalSettings := generalSettings["max_workers" := JNumber(threads.value, 0)];
      result := Some(DialogResult(providerConfigs, generalSettings));
      return true;
    }

    /** The loop over the providers in `save_settings`. */
    method SaveProviders(providers: seq<string>, forms: map<string, ProviderForm>) returns (failure: Option<SaveFailure>)
      requires forall p :: p in providers ==> p in forms
      requires Unshared(providerConfigs)
      modifies this, providerConfigs.Values
      ensures var saved := InOrder(old(Snapshot(providerConfigs)), providers, SaveStep(forms));
        failure == saved.1 && Snapshot(providerConfigs) == saved.0
      ensures forall p :: p in old(providerConfigs) ==> p in providerConfigs && providerConfigs[p] == old(providerConfigs[p])
      ensures generalSettings == old(generalSettings) && result == old(result)
    {
      ghost var start := Snapshot(providerConfigs);
      var i := 0;
      while i < |providers|
        invariant 0 <= i <= |providers|
        invariant Unshared(providerConfigs)
        invariant forall p :: p in old(providerConfigs) ==> p in providerConfigs && providerConfigs[p] == old(providerConfigs[p])
        invariant InOrder(Snapshot(providerConfigs), providers[i..], SaveStep(forms)) == InOrder(start, providers, SaveStep(forms))
        invariant forall p :: p in providerConfigs ==> providerConfigs[p] in old(providerConfigs).Values || fresh(providerConfigs[p])
        invariant generalSettings == old(generalSettings) && result == old(result)
      {
        var provider := providers[i];
        ghost var before := Snapshot(providerConfigs);
        var failed := SaveProviderInto(provider, forms[provider]);
        assert SaveStep(forms)(Lookup(before, provider), provider) == SaveProvider(Lookup(before, provider), provider, forms[provider]);
        SnapshotStep(before, Snapshot(providerConfigs), providers, i, SaveStep(forms), failed);
        if failed.Some? {
          return failed;
        }
        i := i + 1;
      }
      assert providers[i..] == [];
      return None;
    }

    /** One pass of the outer loop of `save_settings`. */
    method SaveProviderInto(provider: string, form: ProviderForm) returns (failure: Option<SaveFailure>)
      requires Unshared(providerConfigs)
      modifies this, providerConfigs.Values
      ensures Unshared(providerConfigs)
      ensures forall p :: p in old(providerConfigs) ==> p in providerConfigs && providerConfigs[p] == old(providerConfigs[p])
      ensures forall p :: p in providerConfigs ==> providerConfigs[p] in old(providerConfigs).Values || fresh(providerConfigs[p])
      ensures var saved := SaveProvider(Lookup(old(Snapshot(providerConfigs)), provider), provider, form);
        && Snapshot(providerConfigs) == old(Snapshot(providerConfigs))[provider := saved.members]
        && failure == saved.failure
      ensures generalSettings == old(generalSettings) && result == old(result)
    {
      ghost var before := Snapshot(providerConfigs);
      var settings := AddMissing(provider);
      assert Lookup(before, provider) == settings.members;
      assert forall p :: p in providerConfigs && p != provider ==>
        providerConfigs[p] != settings && providerConfigs[p].members == before[p];
      failure := settings.WriteProvider(provider, form);
      SnapshotWritten(before, providerConfigs, provider);
    }

    /** `if provider not in self.provider_configs: self.provider_configs[provider] = {}` */
    method AddMissing(provider: string) returns (settings: ProviderSettings)
      requires Unshared(providerConfigs)
      modifies this
      ensures provider in providerConfigs && settings == providerConfigs[provider]
      ensures providerConfigs.Keys == old(providerConfigs.Keys) + {provider}
      ensures forall p :: p in old(providerConfigs) ==> providerConfigs[p] == old(providerConfigs[p])
      ensures provider !in old(providerConfigs) ==> fresh(settings) && settings.members == map[]
      ensures Unshared(providerConfigs)
      ensures generalSettings == old(generalSettings) && result == old(result)
    {
      if provider !in providerConfigs {
        settings := new ProviderSettings(map[]);
        providerConfigs := providerConfigs[provider := settings];
      } else {
        settings := providerConfigs[provider];
      }
    }
  }

  /** Writing one provider's dictionary, and adding it if it was missing,
      changes the snapshot at that provider only. */
  lemma SnapshotWritten(before: map<string, map<string, Json>>, after: map<string, ProviderSettings>, provider: string)
    requires provider in after
    requires after.Keys == before.Keys + {provider}
    requires forall p :: p in after && p != provider ==> after[p].members == before[p]
    ensures Snapshot(after) == before[provider := after[provider].members]
  {
  }

  /** One step of the walk matches one pass of the loop. */
  lemma SnapshotStep(before: map<string, map<string, Json>>, after: map<string, map<string, Json>>,
                     providers: seq<string>, i: nat, step: (map<string, Json>, string) -> Saved,
                     failed: Option<SaveFailure>)
    requires i < |providers|
    requires var saved := step(Lookup(before, providers[i]), providers[i]);
      after == before[providers[i] := saved.members] && failed == saved.failure
    ensures failed.Some? ==> InOrder(before, providers[i..], step) == (after, failed)
    ensures failed.None? ==> InOrder(before, providers[i..], step) == InOrder(after, providers[i + 1..], step)
  {
    assert providers[i..][0] == providers[i];
    assert providers[i..][1..] == providers[i + 1..];
  }

  /** The profiles in the application that a failed save has already
      rewritten: with the stored OpenAI profile below and unparsable
      parameters typed for it, the save stops with an error, and yet the
      application's own dictionary has lost the profile's parameters. */
  const StoredOpenAi: map<string, Json> :=
    map["api_key" := JString("key"),
        "primary" := JObject(map["model" := JString(""), "prompt" := JString(""), "temperature" := JNumber(0, 0)])]

  const BadForm: ProfileForm := ProfileForm("", "", "{", None)

  /** Saving a bad parameters text over a stored OpenAI profile fails at the
      first provider, and the profile is left holding only the model and the
      prompt: whatever else it held is gone. */
  lemma BadSaveClearsProfile(stored: map<string, Json>, forms: map<string, ProviderForm>)
    requires "primary" in stored && stored["primary"].JObject?
    requires "openai" in forms && forms["openai"] == ProviderForm("key", BadForm, BadForm)
    ensures var saved := SaveAll(map["openai" := stored], forms);
      && saved.1.Some?
      && "openai" in saved.0 && "primary" in saved.0["openai"]
      && saved.0["openai"]["primary"] == JObject(BaseProfile(BadForm))
  {
    var state := map["openai" := stored];
    var withKey := stored["api_key" := JString("key")];
    var primary := BadProfileFails(withKey);
    assert SaveProvider(stored, "openai", forms["openai"]) == primary;
    assert SaveStep(forms)(Lookup(state, "openai"), "openai") == primary;
    FirstStepFails(state, Providers, SaveStep(forms));
  }

  /** A walk whose first step fails stops there. */
  lemma FirstStepFails(state: map<string, map<string, Json>>, providers: seq<string>,
                       step: (map<string, Json>, string) -> Saved)
    requires providers != [] && step(Lookup(state, providers[0]), providers[0]).failure.Some?
    ensures var saved := step(Lookup(state, providers[0]), providers[0]);
      InOrder(state, providers, step) == (state[providers[0] := saved.members], saved.failure)
  {
  }

  /** The bad form's parameters text is not blank and does not parse. */
  lemma BadFormUnmergeable()
    ensures Merged(BadForm).None? && MergeFault(BadForm) == InvalidJson
  {
    UnparsedUnmergeable(BadForm, 0);
  }

  /** Parameters text with a non-space character that does not parse cannot
      be merged. */
  lemma UnparsedUnmergeable(form: ProfileForm, i: nat)
    requires i < |form.parametersText| && !IsSpace(form.parametersText[i]) && form.parsed.None?
    ensures Merged(form).None? && MergeFault(form) == InvalidJson
  {
    assert !AllSpace(form.parametersText);
  }

  /** Saving the bad form as a stored dictionary profile fails, leaving it
      holding the base profile. */
  lemma BadProfileFails(members: map<string, Json>) returns (saved: Saved)
    requires "primary" in members && members["primary"].JObject?
    ensures saved == SaveProfile(members, "openai", "primary", BadForm)
    ensures saved == Saved(members["primary" := JObject(BaseProfile(BadForm))], Some(SaveFailure("openai", "primary", InvalidJson)))
  {
    BadFormUnmergeable();
    saved := SaveProfile(members, "openai", "primary", BadForm);
  }

  /** The shallow copy lets a failed save change the application's settings:
      after it, the application's OpenAI dictionary differs from what it was,
      though the dialog returns no result. */
  method FailedSaveLeaks() returns (before: map<string, Json>, after: map<string, Json>, saved: bool)
    ensures !saved
    ensures before == StoredOpenAi
    ensures after != before
    ensures "primary" in after && after["primary"] == JObject(BaseProfile(BadForm))
  {
    before := StoredOpenAi;
    StoredOpenAiShape();
    after, saved := SaveBadFormOver(before, "temperature");
  }

  lemma StoredOpenAiShape()
    ensures "primary" in StoredOpenAi && StoredOpenAi["primary"].JObject?
    ensures "temperature" in StoredOpenAi["primary"].members
    ensures "temperature" !in BaseProfile(BadForm)
  {
  }

  /** The application holds one OpenAI dictionary, `stored`, and the dialog
      saves the bad form for every provider: the save fails, and the
      application's dictionary ends up with the base profile as its primary. */
  method SaveBadFormOver(stored: map<string, Json>, parameter: string) returns (after: map<string, Json>, saved: bool)
    requires "primary" in stored && stored["primary"].JObject?
    requires parameter in stored["primary"].members && parameter !in BaseProfile(BadForm)
    ensures !saved
    ensures "primary" in after && after["primary"] == JObject(BaseProfile(BadForm))
    ensures after != stored
  {
    var openai := new ProviderSettings(stored);
    var app := map["openai" := openai];
    var form := ProviderForm("key", BadForm, BadForm);
    var forms := map p | p in Providers :: form;
    assert Providers[0] == "openai";
    assert Snapshot(app) == map["openai" := stored];
    BadSaveClearsProfile(stored, forms);
    var failure, result := SharedSave(app, forms, Some(1));
    after := openai.members;
    saved := result.Some?;
    ProfileLost(stored, after, parameter);
  }

  /** Two provider dictionaries differ when a parameter of the first one's
      primary profile is missing from the second one's. */
  lemma ProfileLost(before: map<string, Json>, after: map<string, Json>, parameter: string)
    requires "primary" in before && before["primary"].JObject? && parameter in before["primary"].members
    requires "primary" in after && after["primary"].JObject? && parameter !in after["primary"].members
    ensures after != before
  {
  }

  /** Saving through a dialog opened on the application's configs as
      `SettingsDialog` opens it: the application's own dictionaries take the
      save's writes, whether or not it fails. */
  method SharedSave(app: map<string, ProviderSettings>, forms: map<string, ProviderForm>, threads: Option<int>)
    returns (failure: Option<SaveFailure>, result: Option<DialogResult>)
    requires forall p :: p in Providers ==> p in forms
    requires Unshared(app)
    modifies app.Values
    ensures var saved := SaveAll(old(Snapshot(app)), forms);
      && failure == saved.1
      && forall p :: p in app ==> p in saved.0 && app[p].members == saved.0[p]
    ensures failure.None? && threads.Some? <==> result.Some?
  {
    var dialog := new SettingsDialog(app, None);
    failure := dialog.SaveSettings(forms, threads);
    result := dialog.result;
  }

  /** With a deep-copying dialog the application's dictionaries stay as they
      were whatever the save does; on success the edits are in the result. */
  method IsolatedSave(app: map<string, ProviderSettings>, forms: map<string, ProviderForm>, threads: Option<int>)
    returns (failure: Option<SaveFailure>, result: Option<DialogResult>)
    requires forall p :: p in Providers ==> p in forms
    ensures Snapshot(app) == old(Snapshot(app))
    ensures failure == SaveAll(Snapshot(app), forms).1
    ensures failure.None? && threads.Some? <==> result.Some?
    ensures result.Some? ==> Snapshot(result.value.providerConfigs) == SaveAll(Snapshot(app), forms).0
  {
    var dialog := new SettingsDialog.Isolated(app, None);
    failure := dialog.SaveSettings(forms, threads);
    result := dialog.result;
  }
}

/** The main window's bookkeeping (`OCRApp`): the list of files to process
    and the listbox that shows their base names, the status line, the state
    of the "Process Files" button, and the per-provider settings filled with
    defaults when the settings are loaded. */
module App {
  import opened Wrappers
  import opened Strings
  import opened Json
  import Settings

  /** `file_path.lower().endswith(('.jpg', '.jpeg', '.png', '.pdf'))`. */
  predicate Supported(path: string)
  {
    var lower := LowerAscii(path);
    EndsWith(lower, ".jpg") || EndsWith(lower, ".jpeg") || EndsWith(lower, ".png") || EndsWith(lower, ".pdf")
  }

  /** The warning shown for a dropped or chosen file that is not supported,
      naming the file by its base name. */
  datatype Warning = UnsupportedFile(name: string)

  function WarningText(w: Warning): string
  {
    "Skipping unsupported file: " + w.name + " (only JPEG, PNG, and PDF files are supported)"
  }

  /** What the status bar shows. `Shown` is any text set elsewhere. */
  datatype Status =
    | Shown(text: string)
    | FilesAdded(count: nat, total: nat)
    | FilesRemoved(total: nat)
    | FilesCleared

  function StatusText(s: Status): string
  {
    match s
    case Shown(text) => text
    case FilesAdded(count, total) =>
      "Added " + NatToString(count) + " file(s). Total: " + NatToString(total) + " files"
    case FilesRemoved(total) => "Removed selected files. Total: " + NatToString(total) + " files"
    case FilesCleared => "All files cleared"
  }

  /** The listbox entries for a list of paths. */
  function Names(paths: seq<string>): (names: seq<string>)
    ensures |names| == |paths|
    ensures forall i :: 0 <= i < |paths| ==> names[i] == BaseName(paths[i])
  {
    if paths == [] then [] else [BaseName(paths[0])] + Names(paths[1..])
  }

  /** One step of `add_files`: a supported path not yet in the list is appended. */
  function AddOne(paths: seq<string>, file: string): seq<string>
  {
    if Supported(file) && file !in paths then paths + [file] else paths
  }

  /** The list after `add_files(files)`, the files taken in order. */
  function Added(paths: seq<string>, files: seq<string>): seq<string>
    decreases |files|
  {
    if files == [] then paths
    else AddOne(Added(paths, files[..|files| - 1]), files[|files| - 1])
  }

  /** The warnings `add_files(files)` shows, in order. */
  function Warnings(files: seq<string>): seq<Warning>
    decreases |files|
  {
    if files == [] then []
    else
      var last := files[|files| - 1];
      Warnings(files[..|files| - 1]) + (if Supported(last) then [] else [UnsupportedFile(BaseName(last))])
  }

  /** Adding never changes the entries already listed: it only appends. */
  lemma {:induction false} AddedExtends(paths: seq<string>, files: seq<string>)
    ensures |Added(paths, files)| >= |paths| && Added(paths, files)[..|paths|] == paths
    decreases |files|
  {
    if files != [] {
      AddedExtends(paths, files[..|files| - 1]);
    }
  }

  /** A path is listed after adding exactly when it was listed before or is
      a supported path among those added. */
  lemma {:induction false} AddedMembers(paths: seq<string>, files: seq<string>)
    ensures forall x :: x in Added(paths, files) <==> x in paths || (x in files && Supported(x))
    decreases |files|
  {
    if files != [] {
      var init := files[..|files| - 1];
      AddedMembers(paths, init);
      assert files == init + [files[|files| - 1]];
    }
  }

  /** A list without duplicates keeps none after adding. */
  lemma {:induction false} AddedDistinct(paths: seq<string>, files: seq<string>)
    requires Settings.Distinct(paths)
    ensures Settings.Distinct(Added(paths, files))
    decreases |files|
  {
    if files != [] {
      AddedDistinct(paths, files[..|files| - 1]);
    }
  }

  /** Appending a path not yet listed keeps the list free of duplicates and
      appends its base name to the entries. */
  lemma Appended(paths: seq<string>, file: string)
    requires file !in paths
    ensures Names(paths + [file]) == Names(paths) + [BaseName(file)]
    ensures Settings.Distinct(paths) ==> Settings.Distinct(paths + [file])
  {
  }

  /** Adding two batches one after the other is adding them together. */
  lemma {:induction false} AddedInTwoDrops(paths: seq<string>, first: seq<string>, second: seq<string>)
    ensures Added(Added(paths, first), second) == Added(paths, first + second)
    decreases |second|
  {
    if second == [] {
      assert first + second == first;
    } else {
      var init := second[..|second| - 1];
      AddedInTwoDrops(paths, first, init);
      assert (first + second)[..|first + second| - 1] == first + init;
    }
  }

  /** `s` without the entries at the indices in `removed`, the first entry of
      `s` standing at index `base`; the others keep their order. */
  function WithoutFrom<T>(s: seq<T>, removed: set<nat>, base: nat): seq<T>
    decreases |s|
  {
    if s == [] then []
    else (if base in removed then [] else [s[0]]) + WithoutFrom(s[1..], removed, base + 1)
  }

  /** `s` without the entries at the indices in `removed`. */
  function Without<T>(s: seq<T>, removed: set<nat>): seq<T>
  {
    WithoutFrom(s, removed, 0)
  }

  /** The first `m` entries, none of them removed, stay in front. */
  lemma {:induction false} WithoutKeepsFront<T>(s: seq<T>, removed: set<nat>, base: nat, m: nat)
    requires m <= |s|
    requires forall x :: x in removed ==> x < base || x >= base + m
    ensures WithoutFrom(s, removed, base) == s[..m] + WithoutFrom(s[m..], removed, base + m)
    decreases m
  {
    if m > 0 {
      WithoutKeepsFront(s[1..], removed, base + 1, m - 1);
      assert s[1..][m - 1..] == s[m..];
      assert [s[0]] + s[1..][..m - 1] == s[..m];
    }
  }

  /** Only the removed indices inside the range matter. */
  lemma {:induction false} WithoutAgrees<T>(s: seq<T>, removed: set<nat>, other: set<nat>, base: nat)
    requires forall x :: base <= x < base + |s| ==> (x in removed <==> x in other)
    ensures WithoutFrom(s, removed, base) == WithoutFrom(s, other, base)
    decreases |s|
  {
    if s != [] {
      WithoutAgrees(s[1..], removed, other, base + 1);
    }
  }

  /** Deleting index `j` from the list that already lacks the higher indices
      `removed` gives the list lacking `j` as well. */
  lemma DeleteBelow<T>(s: seq<T>, removed: set<nat>, j: nat)
    requires j < |s|
    requires forall x :: x in removed ==> x > j
    ensures var w := Without(s, removed);
      j < |w| && w[..j] + w[j + 1..] == Without(s, removed + {j})
  {
    var w := Without(s, removed);
    var rest := WithoutFrom(s[j + 1..], removed, j + 1);
    assert w == s[..j + 1] + rest by {
      WithoutKeepsFront(s, removed, 0, j + 1);
    }
    assert Without(s, removed + {j}) == s[..j] + rest by {
      WithoutKeepsFront(s, removed + {j}, 0, j);
      assert s[j..][1..] == s[j + 1..];
      WithoutAgrees(s[j + 1..], removed + {j}, removed, j + 1);
    }
    assert w[..j] + w[j + 1..] == s[..j] + rest;
  }

  /** An entry at an index not removed survives. */
  lemma {:induction false} WithoutKeeps<T>(s: seq<T>, removed: set<nat>, base: nat, i: nat)
    requires i < |s| && base + i !in removed
    ensures s[i] in WithoutFrom(s, removed, base)
    decreases i
  {
    if i > 0 {
      WithoutKeeps(s[1..], removed, base + 1, i - 1);
    }
  }

  /** Every entry that survives stands in `s` at an index not removed. */
  lemma {:induction false} WithoutDrops<T>(s: seq<T>, removed: set<nat>, base: nat, x: T) returns (i: nat)
    requires x in WithoutFrom(s, removed, base)
    ensures i < |s| && base + i !in removed && s[i] == x
    decreases |s|
  {
    if base !in removed && x == s[0] {
      i := 0;
    } else {
      var j := WithoutDrops(s[1..], removed, base + 1, x);
      i := j + 1;
    }
  }

  /** The indices held by an ascending selection from `k` on. */
  function Selected(selection: seq<nat>, k: nat): set<nat>
    requires k <= |selection|
  {
    set x | x in selection[k..]
  }

  predicate Ascending(selection: seq<nat>)
  {
    forall i, j :: 0 <= i < j < |selection| ==> selection[i] < selection[j]
  }

  /** A provider dictionary as the application creates it. */
  const EmptyProvider: map<string, Json> :=
    map["api_key" := JString(""), "primary" := JObject(map[]), "fallback" := JObject(map[])]

  /** The profile used when no transcription defaults can be had. */
  const BlankProfile: Json := JObject(map["model" := JString(""), "prompt" := JString("")])

  /** The application's provider dictionaries before any settings are read. */
  const InitialConfigs: map<string, map<string, Json>> :=
    map["openai" := EmptyProvider, "anthropic" := EmptyProvider,
        "openrouter" := EmptyProvider, "google" := EmptyProvider]

  /** `provider_config.get(profile)` is truthy. */
  predicate HasProfile(config: map<string, Json>, profile: string)
  {
    profile in config && Truthy(config[profile])
  }

  /** The provider's dictionary, or a new one when it is missing. */
  function Stocked(configs: map<string, map<string, Json>>, provider: string): map<string, Json>
  {
    if provider in configs then configs[provider] else EmptyProvider
  }

  function FillProfile(config: map<string, Json>, profile: string): map<string, Json>
  {
    if HasProfile(config, profile) then config else config[profile := BlankProfile]
  }

  /** A provider dictionary with each empty or missing profile replaced by
      the blank one. */
  function Filled(config: map<string, Json>): map<string, Json>
  {
    FillProfile(FillProfile(config, "primary"), "fallback")
  }

  /** The provider dictionaries after the default-filling of `load_settings`
      over `providers`: each of them present, each with both profiles. */
  function WithDefaults(configs: map<string, map<string, Json>>, providers: seq<string>): map<string, map<string, Json>>
  {
    map p | p in configs.Keys + (set q | q in providers) ::
      if p in providers then Filled(Stocked(configs, p)) else configs[p]
  }

  /** After filling, every listed provider has a non-empty primary and
      fallback profile, and no other provider appears. */
  lemma DefaultsComplete(configs: map<string, map<string, Json>>, providers: seq<string>)
    ensures WithDefaults(configs, providers).Keys == configs.Keys + (set q | q in providers)
    ensures forall p :: p in providers ==>
      p in WithDefaults(configs, providers)
      && HasProfile(WithDefaults(configs, providers)[p], "primary")
      && HasProfile(WithDefaults(configs, providers)[p], "fallback")
  {
    assert Truthy(BlankProfile) by { assert "model" in BlankProfile.members; }
    forall p | p in providers
      ensures HasProfile(WithDefaults(configs, providers)[p], "primary")
      ensures HasProfile(WithDefaults(configs, providers)[p], "fallback")
    {
      var once := FillProfile(Stocked(configs, p), "primary");
      assert HasProfile(once, "primary");
    }
  }

  /** Filling only replaces empty or missing profiles of the listed
      providers: everything else, API keys included, is kept. */
  lemma DefaultsKeep(configs: map<string, map<string, Json>>, providers: seq<string>)
    ensures forall p :: p in configs && p !in providers ==> WithDefaults(configs, providers)[p] == configs[p]
    ensures forall p, k :: p in configs && k in configs[p] && (k !in {"primary", "fallback"} || HasProfile(configs[p], k)) ==>
      k in WithDefaults(configs, providers)[p] && WithDefaults(configs, providers)[p][k] == configs[p][k]
  {
  }

  /** Filling twice is filling once. */
  lemma DefaultsIdempotent(configs: map<string, map<string, Json>>, providers: seq<string>)
    ensures WithDefaults(WithDefaults(configs, providers), providers) == WithDefaults(configs, providers)
  {
    var once := WithDefaults(configs, providers);
    DefaultsComplete(configs, providers);
    forall p | p in once
      ensures WithDefaults(once, providers)[p] == once[p]
    {
      if p in providers {
        assert Stocked(once, p) == once[p];
        assert Filled(once[p]) == once[p];
      }
    }
  }

  /** The list and configuration state of `OCRApp`. */
  class OcrApp {
    /** `self.file_paths`. */
    var filePaths: seq<string>
    /** The entries of `self.file_listbox`. */
    var listEntries: seq<string>
    /** `self.status_var`. */
    var status: Status
    /** Whether the "Process Files" button is enabled. */
    var processEnabled: bool
    /** Whether `self.ocr_processor` is set. */
    var hasProcessor: bool
    /** `self.provider_configs`. */
    var providerConfigs: map<string, map<string, Json>>

    /** The listbox shows the base name of each listed path, and no path is
        listed twice. */
    predicate Valid()
      reads this
    {
      listEntries == Names(filePaths) && Settings.Distinct(filePaths)
    }

    /** `__init__` up to the loaded settings: the default provider
        dictionaries are filled, then those of the settings file, if there is
        one, replace them and are filled in turn. No processor exists yet. */
    constructor (stored: Option<map<string, map<string, Json>>>, status: Status)
      ensures Valid() && filePaths == []
      ensures stored.None? ==> providerConfigs == WithDefaults(InitialConfigs, Settings.Providers)
      ensures stored.Some? ==> providerConfigs == WithDefaults(stored.value, Settings.Providers)
      ensures !hasProcessor && !processEnabled && this.status == status
    {
      filePaths := [];
      listEntries := [];
      this.status := status;
      processEnabled := false;
      hasProcessor := false;
      providerConfigs := InitialConfigs;
      new;
      FillDefaults();
      if stored.Some? {
        providerConfigs := stored.value;
        FillDefaults();
      }
    }

    /** `add_files`: appends each supported path not yet listed, in order,
        with its base name in the listbox; warns about each unsupported one;
        reports the count and refreshes the button when something was added. */
    method AddFiles(files: seq<string>) returns (addedCount: nat, warnings: seq<Warning>)
      requires Valid()
      modifies this
      ensures Valid()
      ensures filePaths == Added(old(filePaths), files)
      ensures addedCount == |filePaths| - |old(filePaths)|
      ensures warnings == Warnings(files)
      ensures addedCount > 0 ==>
        && status == FilesAdded(addedCount, |filePaths|)
        && processEnabled == (filePaths != [] && hasProcessor)
      ensures addedCount == 0 ==> status == old(status) && processEnabled == old(processEnabled)
      ensures hasProcessor == old(hasProcessor) && providerConfigs == old(providerConfigs)
    {
      var paths, entries;
      paths, entries, addedCount, warnings := AddEach(filePaths, listEntries, files);
      filePaths, listEntries := paths, entries;
      if addedCount > 0 {
        status := FilesAdded(addedCount, |filePaths|);
        UpdateProcessButton();
      }
    }

    /** `remove_selected`: deletes the selected entries, highest index first,
        from the listbox and the list; the others keep their order. */
    method RemoveSelected(selection: seq<nat>)
      requires Valid()
      requires Ascending(selection)
      requires forall i :: 0 <= i < |selection| ==> selection[i] < |filePaths|
      modifies this
      ensures Valid()
      ensures filePaths == Without(old(filePaths), Selected(selection, 0))
      ensures |filePaths| == |old(filePaths)| - |selection|
      ensures selection != [] ==>
        && status == FilesRemoved(|filePaths|)
        && processEnabled == (filePaths != [] && hasProcessor)
      ensures selection == [] ==> status == old(status) && processEnabled == old(processEnabled)
      ensures hasProcessor == old(hasProcessor) && providerConfigs == old(providerConfigs)
    {
      if selection == [] {
        assert Selected(selection, 0) == {};
        NoneRemoved(filePaths, 0);
        return;
      }
      NamesWithout(filePaths, Selected(selection, 0), 0);
      WithoutDistinct(filePaths, Selected(selection, 0), 0);
      listEntries := DeleteReversed(listEntries, selection);
      filePaths := DeleteReversed(filePaths, selection);
      status := FilesRemoved(|filePaths|);
      UpdateProcessButton();
    }

    /** `clear_files`, once the user has answered the confirmation. */
    method ClearFiles(confirmed: bool)
      requires Valid()
      modifies this
      ensures Valid()
      ensures old(filePaths) != [] && confirmed ==>
        filePaths == [] && status == FilesCleared && !processEnabled
      ensures !(old(filePaths) != [] && confirmed) ==>
        filePaths == old(filePaths) && status == old(status) && processEnabled == old(processEnabled)
      ensures hasProcessor == old(hasProcessor) && providerConfigs == old(providerConfigs)
    {
      if filePaths != [] && confirmed {
        listEntries := [];
        filePaths := [];
        status := FilesCleared;
        UpdateProcessButton();
      }
    }

    /** `update_process_button`: processing is enabled exactly when files are
        listed and a processor exists. */
    method UpdateProcessButton()
      modifies this
      ensures processEnabled <==> filePaths != [] && hasProcessor
      ensures filePaths == old(filePaths) && listEntries == old(listEntries) && status == old(status)
      ensures hasProcessor == old(hasProcessor) && providerConfigs == old(providerConfigs)
    {
      processEnabled := filePaths != [] && hasProcessor;
    }

    /** The default-filling of `load_settings` (and of
        `_initialize_default_configs`, whose providers are all present). */
    method FillDefaults()
      modifies this
      ensures providerConfigs == WithDefaults(old(providerConfigs), Settings.Providers)
      ensures filePaths == old(filePaths) && listEntries == old(listEntries) && status == old(status)
      ensures processEnabled == old(processEnabled) && hasProcessor == old(hasProcessor)
    {
      assert Settings.Distinct(Settings.Providers);
      FillDefaultsFor(Settings.Providers);
    }

    /** A missing provider gets an empty dictionary, then each empty or
        missing profile gets the blank one. */
    method FillDefaultsFor(providers: seq<string>)
      requires Settings.Distinct(providers)
      modifies this
      ensures providerConfigs == WithDefaults(old(providerConfigs), providers)
      ensures filePaths == old(filePaths) && listEntries == old(listEntries) && status == old(status)
      ensures processEnabled == old(processEnabled) && hasProcessor == old(hasProcessor)
    {
      var configs := providerConfigs;
      configs := AddProviders(configs, providers);
      configs := FillProfiles(configs, providers);
      providerConfigs := configs;
    }
  }

  /** The first loop of the default-filling: each missing provider gets a new
      provider dictionary with an empty key and empty profiles. */
  method AddProviders(configs: map<string, map<string, Json>>, providers: seq<string>)
    returns (stocked: map<string, map<string, Json>>)
    ensures stocked.Keys == configs.Keys + (set q | q in providers)
    ensures forall p :: p in stocked ==> stocked[p] == Stocked(configs, p)
  {
    stocked := configs;
    for i := 0 to |providers|
      invariant stocked.Keys == configs.Keys + (set q | q in providers[..i])
      invariant forall p :: p in stocked ==> stocked[p] == Stocked(configs, p)
    {
      var provider := providers[i];
      assert providers[..i + 1] == providers[..i] + [provider];
      if provider !in stocked {
        stocked := stocked[provider := EmptyProvider];
      }
    }
    assert providers[..|providers|] == providers;
  }

  /** The second loop of the default-filling: each empty or missing profile
      of a listed provider gets the blank one. */
  method FillProfiles(stocked: map<string, map<string, Json>>, providers: seq<string>)
    returns (configs: map<string, map<string, Json>>)
    requires Settings.Distinct(providers)
    requires forall p :: p in providers ==> p in stocked
    ensures configs.Keys == stocked.Keys
    ensures forall p :: p in configs ==> configs[p] == if p in providers then Filled(stocked[p]) else stocked[p]
  {
    configs := stocked;
    for i := 0 to |providers|
      invariant configs.Keys == stocked.Keys
      invariant forall p :: p in configs ==>
        configs[p] == if p in providers[..i] then Filled(stocked[p]) else stocked[p]
    {
      var provider := providers[i];
      assert providers[..i + 1] == providers[..i] + [provider];
      assert provider !in providers[..i];
      var config := configs[provider];
      if !HasProfile(config, "primary") || !HasProfile(config, "fallback") {
        if !HasProfile(config, "primary") {
          config := config["primary" := BlankProfile];
        }
        if !HasProfile(config, "fallback") {
          config := config["fallback" := BlankProfile];
        }
        configs := configs[provider := config];
      }
    }
    assert providers[..|providers|] == providers;
  }

  /** The loop of `add_files` over the list and the listbox entries. */
  method AddEach(paths: seq<string>, entries: seq<string>, files: seq<string>)
    returns (added: seq<string>, shown: seq<string>, addedCount: nat, warnings: seq<Warning>)
    requires entries == Names(paths) && Settings.Distinct(paths)
    ensures added == Added(paths, files) && shown == Names(added) && Settings.Distinct(added)
    ensures addedCount == |added| - |paths|
    ensures warnings == Warnings(files)
  {
    added, shown, addedCount, warnings := paths, entries, 0, [];
    for i := 0 to |files|
      invariant added == Added(paths, files[..i])
      invariant addedCount == |added| - |paths|
      invariant warnings == Warnings(files[..i])
      invariant shown == Names(added) && Settings.Distinct(added)
    {
      var file := files[i];
      assert files[..i + 1][..i] == files[..i];
      if Supported(file) {
        if file !in added {
          Appended(added, file);
          added := added + [file];
          shown := shown + [BaseName(file)];
          addedCount := addedCount + 1;
        }
      } else {
        warnings := warnings + [UnsupportedFile(BaseName(file))];
      }
    }
    assert files[..|files|] == files;
  }

  /** `for index in reversed(selection): del s[index]`. */
  method DeleteReversed<T>(s: seq<T>, selection: seq<nat>) returns (r: seq<T>)
    requires Ascending(selection)
    requires forall i :: 0 <= i < |selection| ==> selection[i] < |s|
    ensures r == Without(s, Selected(selection, 0))
    ensures |r| == |s| - |selection|
  {
    var k := |selection|;
    assert Selected(selection, k) == {};
    NoneRemoved(s, 0);
    r := s;
    while k > 0
      invariant 0 <= k <= |selection|
      invariant r == Without(s, Selected(selection, k))
      invariant |r| == |s| - (|selection| - k)
    {
      k := k - 1;
      var j := selection[k];
      assert Selected(selection, k) == Selected(selection, k + 1) + {j};
      DeleteBelow(s, Selected(selection, k + 1), j);
      r := r[..j] + r[j + 1..];
    }
  }

  /** The entries of what remains are what remains of the entries. */
  lemma {:induction false} NamesWithout(paths: seq<string>, removed: set<nat>, base: nat)
    ensures Names(WithoutFrom(paths, removed, base)) == WithoutFrom(Names(paths), removed, base)
    decreases |paths|
  {
    if paths != [] {
      NamesWithout(paths[1..], removed, base + 1);
      assert Names(paths)[1..] == Names(paths[1..]);
      var head: seq<string> := if base in removed then [] else [paths[0]];
      assert Names(head + WithoutFrom(paths[1..], removed, base + 1))
        == Names(head) + Names(WithoutFrom(paths[1..], removed, base + 1)) by {
        NamesAppend(head, WithoutFrom(paths[1..], removed, base + 1));
      }
    }
  }

  lemma NamesAppend(a: seq<string>, b: seq<string>)
    ensures Names(a + b) == Names(a) + Names(b)
  {
  }

  /** Removing entries from a list without duplicates leaves none. */
  lemma {:induction false} WithoutDistinct<T>(s: seq<T>, removed: set<nat>, base: nat)
    requires Settings.Distinct(s)
    ensures Settings.Distinct(WithoutFrom(s, removed, base))
    decreases |s|
  {
    if s != [] {
      var rest := WithoutFrom(s[1..], removed, base + 1);
      WithoutDistinct(s[1..], removed, base + 1);
      if base !in removed {
        forall x | x in rest
          ensures x != s[0]
        {
          var i := WithoutDrops(s[1..], removed, base + 1, x);
          assert s[i + 1] == x;
        }
        assert Settings.Distinct([s[0]] + rest) by {
          forall i, j | 0 <= i < j < |[s[0]] + rest|
            ensures ([s[0]] + rest)[i] != ([s[0]] + rest)[j]
          {
            if i == 0 {
              assert ([s[0]] + rest)[j] == rest[j - 1];
              assert rest[j - 1] in rest;
            } else {
              assert ([s[0]] + rest)[i] == rest[i - 1] && ([s[0]] + rest)[j] == rest[j - 1];
            }
          }
        }
      } else {
        assert WithoutFrom(s, removed, base) == rest;
      }
    }
  }

  /** Nothing removed leaves the list as it is. */
  lemma NoneRemoved<T>(s: seq<T>, base: nat)
    ensures WithoutFrom(s, {}, base) == s
  {
    WithoutKeepsFront(s, {}, base, |s|);
    assert s[|s|..] == [];
  }
}

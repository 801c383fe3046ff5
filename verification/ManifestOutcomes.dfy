/** What a synced manifest says, field by field, for each kind of workspace. */
module ManifestOutcomes {
  import opened ManifestProfile
  import opened ManifestTheorems
  import opened OrderedMaps
  import opened Outcomes
  import opened Sorting

  function Synced(b: Build, m: Manifest, collate: Comparison<string>): Manifest {
    ApplyProfile(m, ProfileOf(b, m), collate)
  }

  /** The text of a script, if the manifest has it. */
  predicate RunsScript(m: Manifest, script: string, command: string) {
    Get(EntriesOf(Get(m, "scripts")), script) == Some(Text(command))
  }

  predicate HasNoScript(m: Manifest, script: string) {
    Get(EntriesOf(Get(m, "scripts")), script).None?
  }

  /** Private packages are not published. */
  predicate Private(m: Manifest) {
    Get(m, "private") == Some(Bool(true))
  }

  /** A package is an ES module with the exports of its build; it lists its files and is checked for packaging exactly if it is published. */
  ghost predicate SyncedPackage(b: Build, m: Manifest, synced: Manifest) {
    && Get(synced, "type") == Some(Text("module"))
    && Get(synced, "exports") == Some(b.exports)
    && Get(synced, "sideEffects") == Some(if b.styles then Many([Text("**/*.css")]) else Bool(false))
    && Get(synced, "files") == (if Private(m) then None else Some(b.files))
    && Get(synced, "private") == Get(m, "private") && Get(synced, "bin") == Get(m, "bin")
    && RunsScript(synced, "typecheck", b.typecheck) && RunsScript(synced, "test", "vitest run --coverage")
    && (if Private(m) then HasNoScript(synced, "check-packaging")
        else RunsScript(synced, "check-packaging", "plainworks-release check-packaging"))
    && RunsScript(synced, "build", if b.generated == [] then "tsdown" else "tsdown && " + JoinCommands(b.generated))
  }

  /** A command line tool that is published: binaries and files, and nothing to import. */
  ghost predicate SyncedCli(b: Build, m: Manifest, synced: Manifest) {
    && Get(synced, "type") == Some(Text("module"))
    && Get(synced, "bin") == Some(b.bin)
    && Get(synced, "exports").None?
    && Get(synced, "files") == Some(b.files)
    && Get(synced, "private") == Get(m, "private") && Get(synced, "sideEffects") == Get(m, "sideEffects")
    && RunsScript(synced, "typecheck", b.typecheck) && RunsScript(synced, "test", "vitest run --coverage")
    && RunsScript(synced, "check-packaging", "plainworks-release check-packaging")
    && Get(EntriesOf(Get(synced, "scripts")), "build") == Get(EntriesOf(Get(m, "scripts")), "build")
  }

  /** What stands behind the last slash of a path. */
  ghost predicate LastSegment(path: string, name: string) {
    '/' !in name && (path == name || exists front :: path == front + "/" + name)
  }

  /** A private tool: a binary named after its directory if it has a command line, an index if it has one. */
  ghost predicate SyncedTool(b: Build, m: Manifest, synced: Manifest) {
    && Get(synced, "type") == Some(Text("module")) && Get(synced, "private") == Some(Bool(true))
    && (if b.hasCli
        then exists name :: LastSegment(b.dir, name) && Get(synced, "bin") == Some(Object([("plainworks-" + name, Text("./src/cli.ts"))]))
        else Get(synced, "bin").None?)
    && (if b.hasIndex then Get(synced, "exports") == Some(Object([(".", Text("./src/index.ts"))])) else Get(synced, "exports").None?)
    && Get(synced, "files") == Get(m, "files") && Get(synced, "sideEffects") == Get(m, "sideEffects")
    && RunsScript(synced, "typecheck", b.typecheck) && RunsScript(synced, "test", "vitest run --coverage")
    && Get(EntriesOf(Get(synced, "scripts")), "check-packaging") == Get(EntriesOf(Get(m, "scripts")), "check-packaging")
  }

  /** A private application: its own build, no coverage. */
  ghost predicate SyncedApp(b: Build, m: Manifest, synced: Manifest) {
    && Get(synced, "type") == Some(Text("module")) && Get(synced, "private") == Some(Bool(true))
    && (forall field :: field in ["exports", "bin", "files", "sideEffects"] ==> Get(synced, field) == Get(m, field))
    && RunsScript(synced, "test", "vitest run")
    && (forall script :: script in ["build", "typecheck", "check-packaging"] ==>
          Get(EntriesOf(Get(synced, "scripts")), script) == Get(EntriesOf(Get(m, "scripts")), script))
  }

  /** The workspace is this preset, or needs it at run time. */
  predicate HasPreset(m: Manifest, preset: string) {
    Get(m, "name") == Some(Text(preset)) || Get(EntriesOf(Get(m, "dependencies")), preset).Some?
  }

  /** Otherwise the workspace depends on the preset at development time. */
  ghost predicate DependsOnPreset(m: Manifest, synced: Manifest, preset: string) {
    Get(EntriesOf(Get(synced, "devDependencies")), preset) ==
      if HasPreset(m, preset) then Get(EntriesOf(Get(m, "devDependencies")), preset) else Some(Text("workspace:*"))
  }

  // ---------------------------------------------------------------- fields

  ghost predicate NoField(b: Build, published: bool, field: string) {
    forall i :: 0 <= i < |Fields(b, published)| ==> Fields(b, published)[i].0 != field
  }

  ghost predicate NoScript(b: Build, published: bool, script: string) {
    forall i :: 0 <= i < |Scripts(b, published)| ==> Scripts(b, published)[i].0 != script
  }

  lemma FieldIsSynced(b: Build, m: Manifest, collate: Comparison<string>, i: nat)
    requires Valid(m) && Collates(collate) && i < |Fields(b, !Private(m))|
    ensures var f := Fields(b, !Private(m))[i];
            Get(Synced(b, m, collate), f.0) == f.1
  {
    ProfileFieldsAre(b, m);
    hide ProfileOf, ApplyProfile, Get, Fields, ApplyScripts, AddDependencies, SortedEntries;
    SyncedObjects(b, m, collate);
  }

  lemma OtherFieldIsKept(b: Build, m: Manifest, collate: Comparison<string>, field: string)
    requires Valid(m) && field != "scripts" && field != "devDependencies"
    requires NoField(b, !Private(m), field)
    ensures Get(Synced(b, m, collate), field) == Get(m, field)
  {
    ProfileFieldsAre(b, m);
    hide ProfileOf, Get, Fields, ApplyScripts, AddDependencies, SortedEntries, ApplyFields;
    Entries(m, "scripts");
    WantedKeys(b, m, m, collate);
    var p := ProfileOf(b, m);
    var wanted := Wanted(m, p, collate);
    ApplyFieldsGets(m, wanted);
    assert wanted[|p.fields|].0 == "scripts" && wanted[|p.fields| + 1].0 == "devDependencies";
    forall i | 0 <= i < |wanted| ensures wanted[i].0 != field {
      if i < |p.fields| { assert wanted[i] == p.fields[i]; }
    }
  }

  // ---------------------------------------------------------------- scripts and dependencies

  lemma ScriptIsSynced(b: Build, m: Manifest, collate: Comparison<string>, i: nat)
    requires Valid(m) && Collates(collate) && i < |Scripts(b, !Private(m))|
    ensures var s := Scripts(b, !Private(m))[i];
            Get(EntriesOf(Get(Synced(b, m, collate), "scripts")), s.0) == AsText(s.1)
  {
    ProfileScriptsAre(b, m);
    hide ProfileOf, ApplyProfile, Get, Scripts, ApplyScripts, AddDependencies, SortedEntries, EntriesOf;
    SyncedObjects(b, m, collate);
    ProfileKeys(b, m);
    Entries(m, "scripts");
    ApplyScriptsGets(EntriesOf(Get(m, "scripts")), ProfileOf(b, m).scripts);
  }

  lemma OtherScriptIsKept(b: Build, m: Manifest, collate: Comparison<string>, script: string)
    requires Valid(m) && Collates(collate)
    requires NoScript(b, !Private(m), script)
    ensures Get(EntriesOf(Get(Synced(b, m, collate), "scripts")), script) == Get(EntriesOf(Get(m, "scripts")), script)
  {
    ProfileScriptsAre(b, m);
    hide ProfileOf, ApplyProfile, Get, Scripts, ApplyScripts, AddDependencies, SortedEntries, EntriesOf;
    SyncedObjects(b, m, collate);
    ProfileKeys(b, m);
    Entries(m, "scripts");
    ApplyScriptsGets(EntriesOf(Get(m, "scripts")), ProfileOf(b, m).scripts);
  }

  lemma ProfileScriptsAre(b: Build, m: Manifest)
    ensures ProfileOf(b, m).scripts == Scripts(b, !Private(m))
  {
    hide Get, Required, Fields, Scripts;
  }

  ghost predicate Lists(wanted: seq<(string, string)>, name: string) {
    exists i :: 0 <= i < |wanted| && wanted[i].0 == name
  }

  lemma ListsMore(first: (string, string), rest: seq<(string, string)>, name: string)
    ensures Lists([first] + rest, name) <==> first.0 == name || Lists(rest, name)
  {
    var all := [first] + rest;
    if i :| 0 <= i < |rest| && rest[i].0 == name { assert all[i + 1].0 == name; }
    if first.0 == name { assert all[0].0 == name; }
  }

  lemma {:induction false} RequiredHas(presets: seq<string>, m: Manifest, preset: string)
    ensures Lists(Required(presets, m), preset) <==> preset in presets && !HasPreset(m, preset)
    ensures forall i :: 0 <= i < |Required(presets, m)| ==> Required(presets, m)[i].1 == "workspace:*"
    decreases |presets|
  {
    hide Get, EntriesOf, Lists, HasPreset;
    if presets == [] {
      ListsNothing(preset);
    } else {
      var rest := Required(presets[1..], m);
      RequiredHas(presets[1..], m, preset);
      HeadOrRest(presets, m);
      ListsMore((presets[0], WORKSPACE_RANGE), rest, preset);
      assert preset in presets <==> preset == presets[0] || preset in presets[1..];
    }
  }

  lemma ListsNothing(name: string)
    ensures !Lists([], name)
  {
  }

  lemma HeadOrRest(presets: seq<string>, m: Manifest)
    requires presets != []
    ensures var rest := Required(presets[1..], m);
            Required(presets, m) == if HasPreset(m, presets[0]) then rest else [(presets[0], WORKSPACE_RANGE)] + rest
  {
    hide Get, EntriesOf;
  }

  /** The presets that a workspace of its kind builds and tests with. */
  lemma PresetIsSynced(b: Build, m: Manifest, collate: Comparison<string>, preset: string)
    requires Valid(m) && Collates(collate)
    requires preset == "@plainworks/vitest-config" || (preset == "@plainworks/tsdown-config" && (b.kind.Package? || b.kind.Cli?))
    ensures DependsOnPreset(m, Synced(b, m, collate), preset)
  {
    PresetsAre(b, m, preset);
    hide ProfileOf, ApplyProfile, Get, ApplyScripts, AddDependencies, SortedEntries, EntriesOf;
    var wanted := ProfileOf(b, m).devDependencies;
    var found := EntriesOf(Get(m, "devDependencies"));
    SyncedObjects(b, m, collate);
    ProfileKeys(b, m);
    Entries(m, "devDependencies");
    AddDependenciesGets(found, wanted);
    SortedGets(AddDependencies(found, wanted), collate);
  }

  lemma PresetsAre(b: Build, m: Manifest, preset: string)
    requires preset == "@plainworks/vitest-config" || (preset == "@plainworks/tsdown-config" && (b.kind.Package? || b.kind.Cli?))
    ensures var wanted := ProfileOf(b, m).devDependencies;
            && (Lists(wanted, preset) <==> !HasPreset(m, preset))
            && forall i :: 0 <= i < |wanted| ==> wanted[i].1 == "workspace:*"
  {
    hide Get, Fields, Scripts, EntriesOf, Required, HasPreset, Lists;
    RequiredHas(if b.kind.Package? || b.kind.Cli? then [TSDOWN_PRESET, VITEST_PRESET] else [VITEST_PRESET], m, preset);
  }

  // ---------------------------------------------------------------- each kind

  lemma PackageIsSynced(b: Build, m: Manifest, collate: Comparison<string>)
    requires Valid(m) && Collates(collate) && b.kind.Package?
    ensures SyncedPackage(b, m, Synced(b, m, collate)) && HasNoScript(Synced(b, m, collate), "lint")
  {
    hide Synced, Get, EntriesOf, JoinCommands;
    BuildCommand(b);
    FieldIsSynced(b, m, collate, 0);
    FieldIsSynced(b, m, collate, 1);
    FieldIsSynced(b, m, collate, 2);
    FieldIsSynced(b, m, collate, 3);
    OtherFieldIsKept(b, m, collate, "private");
    OtherFieldIsKept(b, m, collate, "bin");
    ScriptIsSynced(b, m, collate, 0);
    ScriptIsSynced(b, m, collate, 1);
    ScriptIsSynced(b, m, collate, 2);
    ScriptIsSynced(b, m, collate, 3);
    ScriptIsSynced(b, m, collate, 4);
  }

  lemma BuildCommand(b: Build)
    ensures JoinCommands(["tsdown"] + b.generated) == if b.generated == [] then "tsdown" else "tsdown && " + JoinCommands(b.generated)
  {
    var all := ["tsdown"] + b.generated;
    assert all[1..] == b.generated;
    assert b.generated != [] ==> JoinCommands(all) == "tsdown" + " && " + JoinCommands(b.generated);
  }

  lemma CliIsSynced(b: Build, m: Manifest, collate: Comparison<string>)
    requires Valid(m) && Collates(collate) && b.kind.Cli?
    ensures SyncedCli(b, m, Synced(b, m, collate)) && HasNoScript(Synced(b, m, collate), "lint")
  {
    hide Synced, Get, EntriesOf;
    FieldIsSynced(b, m, collate, 0);
    FieldIsSynced(b, m, collate, 1);
    FieldIsSynced(b, m, collate, 2);
    FieldIsSynced(b, m, collate, 3);
    OtherFieldIsKept(b, m, collate, "private");
    OtherFieldIsKept(b, m, collate, "sideEffects");
    ScriptIsSynced(b, m, collate, 0);
    ScriptIsSynced(b, m, collate, 1);
    ScriptIsSynced(b, m, collate, 2);
    ScriptIsSynced(b, m, collate, 3);
    OtherScriptIsKept(b, m, collate, "build");
  }

  /** Every path has one last segment. */
  lemma {:induction false} LastSegmentIs(path: string)
    ensures LastSegment(path, BaseName(path))
    ensures forall name :: LastSegment(path, name) ==> name == BaseName(path)
    decreases |path|
  {
    if path != [] {
      var front, last := path[..|path| - 1], path[|path| - 1];
      if last == '/' {
        assert path == front + "/" + "";
      } else {
        LastSegmentIs(front);
        SegmentGrows(front, BaseName(front), last);
        assert path == front + [last];
      }
      forall name | LastSegment(path, name) ensures name == BaseName(path) {
        SegmentEnds(path, name);
        if last != '/' { SegmentShrinks(path, name); }
      }
    }
  }

  lemma SegmentEnds(path: string, name: string)
    ensures LastSegment(path, name) && name != "" ==> path != [] && path[|path| - 1] == name[|name| - 1] && name[|name| - 1] != '/'
  {
  }

  lemma SegmentGrows(front: string, name: string, last: char)
    requires LastSegment(front, name) && last != '/'
    ensures LastSegment(front + [last], name + [last])
  {
    if front != name {
      var before :| front == before + "/" + name;
      assert front + [last] == before + "/" + (name + [last]);
    }
  }

  lemma SegmentShrinks(path: string, name: string)
    requires LastSegment(path, name) && path != [] && path[|path| - 1] != '/'
    ensures name != [] && name[|name| - 1] == path[|path| - 1] && LastSegment(path[..|path| - 1], name[..|name| - 1])
  {
    if path != name {
      var front :| path == front + "/" + name;
      assert path[|front|] == '/';
      assert path[..|path| - 1] == front + "/" + name[..|name| - 1];
    }
  }

  lemma ToolIsSynced(b: Build, m: Manifest, collate: Comparison<string>)
    requires Valid(m) && Collates(collate) && b.kind.Tool?
    ensures SyncedTool(b, m, Synced(b, m, collate)) && HasNoScript(Synced(b, m, collate), "lint")
  {
    hide Synced, Get, EntriesOf, BaseName, LastSegment;
    LastSegmentIs(b.dir);
    FieldIsSynced(b, m, collate, 0);
    FieldIsSynced(b, m, collate, 1);
    FieldIsSynced(b, m, collate, 2);
    FieldIsSynced(b, m, collate, 3);
    OtherFieldIsKept(b, m, collate, "files");
    OtherFieldIsKept(b, m, collate, "sideEffects");
    ScriptIsSynced(b, m, collate, 0);
    ScriptIsSynced(b, m, collate, 1);
    ScriptIsSynced(b, m, collate, 2);
    OtherScriptIsKept(b, m, collate, "check-packaging");
  }

  lemma AppIsSynced(b: Build, m: Manifest, collate: Comparison<string>)
    requires Valid(m) && Collates(collate) && b.kind.App?
    ensures SyncedApp(b, m, Synced(b, m, collate)) && HasNoScript(Synced(b, m, collate), "lint")
  {
    hide Synced, Get, EntriesOf;
    FieldIsSynced(b, m, collate, 0);
    FieldIsSynced(b, m, collate, 1);
    forall field | field in ["exports", "bin", "files", "sideEffects"] ensures Get(Synced(b, m, collate), field) == Get(m, field) {
      OtherFieldIsKept(b, m, collate, field);
    }
    ScriptIsSynced(b, m, collate, 0);
    ScriptIsSynced(b, m, collate, 1);
    forall script | script in ["build", "typecheck", "check-packaging"]
      ensures Get(EntriesOf(Get(Synced(b, m, collate), "scripts")), script) == Get(EntriesOf(Get(m, "scripts")), script)
    {
      OtherScriptIsKept(b, m, collate, script);
    }
  }
}

/** Syncing a manifest satisfies the drift check it is paired with, and disturbs nothing else. */
module ManifestTheorems {
  import opened ManifestProfile
  import opened OrderedMaps
  import opened Outcomes
  import opened Sorting

  // ---------------------------------------------------------------- fields

  lemma {:induction false} InsertGets(es: Manifest, at: nat, key: string, value: Json)
    requires UniqueKeys(es) && at <= |es| && Find(es, key) == |es|
    ensures var next := es[..at] + [(key, value)] + es[at..];
            UniqueKeys(next) && forall k :: Get(next, k) == if k == key then Some(value) else Get(es, k)
  {
    var next := es[..at] + [(key, value)] + es[at..];
    assert forall i :: 0 <= i < |next| ==> next[i] == if i < at then es[i] else if i == at then (key, value) else es[i - 1];
    assert UniqueKeys(next);
    forall k ensures Get(next, k) == if k == key then Some(value) else Get(es, k) {
      GetIs(es, k);
      GetIs(next, k);
      if k == key {
        assert next[at].0 == k;
      } else if Get(es, k).Some? {
        var i := Find(es, k);
        assert next[if i < at then i else i + 1].0 == k;
      }
    }
  }

  lemma {:induction false} ApplyFieldGets(es: Manifest, key: string, value: Option<Json>)
    requires UniqueKeys(es)
    ensures var next := ApplyField(es, key, value);
            UniqueKeys(next) && forall k :: Get(next, k) == if k == key then value else Get(es, k)
  {
    hide Earlier, UniqueKeys, Get;
    if value.None? {
      RemoveGets(es, key);
    } else if Find(es, key) < |es| {
      PutGets(es, key, value.value);
    } else {
      InsertGets(es, Behind(es, name => Earlier(name, key)), key, value.value);
    }
  }

  /** After all fields are applied each has its value, and no other field has changed. */
  lemma {:induction false} ApplyFieldsGets(es: Manifest, fields: seq<(string, Option<Json>)>)
    requires UniqueKeys(es) && UniqueKeys(fields)
    ensures UniqueKeys(ApplyFields(es, fields))
    ensures forall i :: 0 <= i < |fields| ==> Get(ApplyFields(es, fields), fields[i].0) == fields[i].1
    ensures forall k :: (forall i :: 0 <= i < |fields| ==> fields[i].0 != k) ==> Get(ApplyFields(es, fields), k) == Get(es, k)
    decreases |fields|
  {
    hide ApplyField, Get;
    if fields != [] {
      var next := ApplyField(es, fields[0].0, fields[0].1);
      ApplyFieldGets(es, fields[0].0, fields[0].1);
      ApplyFieldsGets(next, fields[1..]);
      forall i | 0 <= i < |fields| ensures Get(ApplyFields(es, fields), fields[i].0) == fields[i].1 {
        if i > 0 { assert fields[1..][i - 1] == fields[i]; }
      }
    }
  }

  /** Applying fields that all have their values already changes nothing. */
  lemma {:induction false} ApplyFieldsAgain(es: Manifest, fields: seq<(string, Option<Json>)>)
    requires forall i :: 0 <= i < |fields| ==> Get(es, fields[i].0) == fields[i].1
    ensures ApplyFields(es, fields) == es
    decreases |fields|
  {
    if fields != [] {
      assert ApplyField(es, fields[0].0, fields[0].1) == es by {
        assert Get(es, fields[0].0) == fields[0].1;
        hide Earlier;
        if fields[0].1.Some? { PutAgain(es, fields[0].0, fields[0].1.value); }
      }
      ApplyFieldsAgain(es, fields[1..]);
    }
  }

  // ---------------------------------------------------------------- scripts and dependencies

  function AsText(command: Option<string>): Option<Json> {
    if command.Some? then Some(Text(command.value)) else None
  }

  lemma {:induction false} ApplyScriptsGets(scripts: seq<(string, Json)>, wanted: seq<(string, Option<string>)>)
    requires UniqueKeys(scripts) && UniqueKeys(wanted)
    ensures UniqueKeys(ApplyScripts(scripts, wanted))
    ensures forall i :: 0 <= i < |wanted| ==> Get(ApplyScripts(scripts, wanted), wanted[i].0) == AsText(wanted[i].1)
    ensures forall k :: (forall i :: 0 <= i < |wanted| ==> wanted[i].0 != k) ==> Get(ApplyScripts(scripts, wanted), k) == Get(scripts, k)
    decreases |wanted|
  {
    hide Get;
    if wanted != [] {
      var name, command := wanted[0].0, wanted[0].1;
      var next := if command.None? then Remove(scripts, name) else Put(scripts, name, Text(command.value));
      if command.None? {
        RemoveGets(scripts, name);
      } else {
        PutGets(scripts, name, Text(command.value));
      }
      ApplyScriptsGets(next, wanted[1..]);
      forall i | 0 <= i < |wanted| ensures Get(ApplyScripts(scripts, wanted), wanted[i].0) == AsText(wanted[i].1) {
        if i > 0 { assert wanted[1..][i - 1] == wanted[i]; }
      }
    }
  }

  lemma {:induction false} ApplyScriptsAgain(scripts: seq<(string, Json)>, wanted: seq<(string, Option<string>)>)
    requires forall i :: 0 <= i < |wanted| ==> Get(scripts, wanted[i].0) == AsText(wanted[i].1)
    ensures ApplyScripts(scripts, wanted) == scripts
    decreases |wanted|
  {
    if wanted != [] {
      assert Get(scripts, wanted[0].0) == AsText(wanted[0].1);
      if wanted[0].1.Some? { PutAgain(scripts, wanted[0].0, Text(wanted[0].1.value)); }
      ApplyScriptsAgain(scripts, wanted[1..]);
    }
  }

  lemma {:induction false} AddDependenciesGets(found: seq<(string, Json)>, wanted: seq<(string, string)>)
    requires UniqueKeys(found) && UniqueKeys(wanted)
    ensures UniqueKeys(AddDependencies(found, wanted))
    ensures forall i :: 0 <= i < |wanted| ==> Get(AddDependencies(found, wanted), wanted[i].0) == Some(Text(wanted[i].1))
    ensures forall k :: (forall i :: 0 <= i < |wanted| ==> wanted[i].0 != k) ==> Get(AddDependencies(found, wanted), k) == Get(found, k)
    decreases |wanted|
  {
    hide Get;
    if wanted != [] {
      PutGets(found, wanted[0].0, Text(wanted[0].1));
      AddDependenciesGets(Put(found, wanted[0].0, Text(wanted[0].1)), wanted[1..]);
      forall i | 0 <= i < |wanted| ensures Get(AddDependencies(found, wanted), wanted[i].0) == Some(Text(wanted[i].1)) {
        if i > 0 { assert wanted[1..][i - 1] == wanted[i]; }
      }
    }
  }

  lemma {:induction false} AddDependenciesAgain(found: seq<(string, Json)>, wanted: seq<(string, string)>)
    requires forall i :: 0 <= i < |wanted| ==> Get(found, wanted[i].0) == Some(Text(wanted[i].1))
    ensures AddDependencies(found, wanted) == found
    decreases |wanted|
  {
    if wanted != [] {
      assert Get(found, wanted[0].0) == Some(Text(wanted[0].1));
      PutAgain(found, wanted[0].0, Text(wanted[0].1));
      AddDependenciesAgain(found, wanted[1..]);
    }
  }

  /** Sorting the entries keeps every value. */
  lemma SortedGets(es: seq<(string, Json)>, collate: Comparison<string>)
    requires UniqueKeys(es) && Collates(collate)
    ensures Ascending(SortedEntries(es, collate), By(KeyOf, collate)) && UniqueKeys(SortedEntries(es, collate))
    ensures forall k :: Get(SortedEntries(es, collate), k) == Get(es, k)
  {
    var sorted := SortedEntries(es, collate);
    assert DistinctKeys(es, KeyOf);
    SortAscends(es, KeyOf, collate);
    SortKeeps(es, By(KeyOf, collate));
    forall i, j | 0 <= i < j < |sorted| ensures sorted[i].0 != sorted[j].0 {
      assert By(KeyOf, collate)(sorted[i], sorted[j]);
    }
    forall k ensures Get(sorted, k) == Get(es, k) {
      GetIs(es, k);
      GetIs(sorted, k);
      if Get(es, k).Some? {
        var e := es[Find(es, k)];
        assert e in multiset(es) && e in multiset(sorted);
        var i :| 0 <= i < |sorted| && sorted[i] == e;
      } else {
        forall i | 0 <= i < |sorted| ensures sorted[i].0 != k {
          assert sorted[i] in multiset(sorted) && sorted[i] in multiset(es);
        }
      }
    }
  }

  // ---------------------------------------------------------------- the profile's own shape

  predicate ProfileField(b: Build, key: string) {
    key in ["type", "sideEffects", "exports", "files", "bin"] || (key == "private" && (b.kind.Tool? || b.kind.App?))
  }

  lemma FieldKeys(b: Build, published: bool)
    ensures UniqueKeys(Fields(b, published))
    ensures forall i :: 0 <= i < |Fields(b, published)| ==> ProfileField(b, Fields(b, published)[i].0)
  {
    hide BaseName;
  }

  lemma ScriptKeys(b: Build, published: bool)
    ensures UniqueKeys(Scripts(b, published))
  {
    hide JoinCommands;
  }

  lemma {:induction false} RequiredKeys(presets: seq<string>, m: Manifest)
    requires forall i, j :: 0 <= i < j < |presets| ==> presets[i] != presets[j]
    ensures UniqueKeys(Required(presets, m))
    ensures forall i :: 0 <= i < |Required(presets, m)| ==> Required(presets, m)[i].0 in presets
  {
    hide Get;
    if presets != [] {
      RequiredKeys(presets[1..], m);
      var rest := Required(presets[1..], m);
      forall i | 0 <= i < |rest| ensures rest[i].0 in presets && rest[i].0 != presets[0] {
        assert rest[i].0 in presets[1..];
      }
      var all := Required(presets, m);
      assert all == rest || all == [(presets[0], WORKSPACE_RANGE)] + rest;
    }
  }

  lemma {:induction false} ProfileKeys(b: Build, m: Manifest)
    ensures var p := ProfileOf(b, m);
            && UniqueKeys(p.fields) && UniqueKeys(p.scripts) && UniqueKeys(p.devDependencies)
            && forall i :: 0 <= i < |p.fields| ==> ProfileField(b, p.fields[i].0)
  {
    hide Get, Fields, Scripts, Required;
    var published := Get(m, "private") != Some(Bool(true));
    FieldKeys(b, published);
    ScriptKeys(b, published);
    var presets := if b.kind.Package? || b.kind.Cli? then [TSDOWN_PRESET, VITEST_PRESET] else [VITEST_PRESET];
    assert TSDOWN_PRESET[12] != VITEST_PRESET[12];
    RequiredKeys(presets, m);
  }

  /** What the synchroniser writes: each key once, and none the profile derives from, `private` aside. */
  lemma {:induction false} WantedKeys(b: Build, m: Manifest, n: Manifest, collate: Comparison<string>)
    ensures var wanted := Wanted(n, ProfileOf(b, m), collate);
            && UniqueKeys(wanted)
            && forall i :: 0 <= i < |wanted| ==>
                 ProfileField(b, wanted[i].0) || wanted[i].0 == "scripts" || wanted[i].0 == "devDependencies"
  {
    ProfileKeys(b, m);
    hide ProfileOf, ApplyScripts, SortedEntries, AddDependencies, EntriesOf, Get;
    var p := ProfileOf(b, m);
    var wanted := Wanted(n, p, collate);
    assert forall i :: 0 <= i < |p.fields| ==> wanted[i] == p.fields[i];
    assert wanted[|p.fields|].0 == "scripts" && wanted[|p.fields| + 1].0 == "devDependencies";
    assert forall i :: 0 <= i < |p.fields| ==> p.fields[i].0 != "scripts" && p.fields[i].0 != "devDependencies";
  }

  // ---------------------------------------------------------------- the profile survives

  /** A manifest as JSON has it: an object whose objects have each key once. */
  ghost predicate Valid(m: Manifest) {
    WellFormed(Object(m))
  }

  lemma Entries(m: Manifest, key: string)
    requires Valid(m)
    ensures UniqueKeys(m) && UniqueKeys(EntriesOf(Get(m, key)))
  {
    if Get(m, key).Some? {
      assert WellFormed(m[Find(m, key)].1);
    }
  }

  /** Syncing writes each wanted field and leaves every other one alone. */
  lemma {:induction false} SyncedGets(b: Build, m: Manifest, collate: Comparison<string>)
    requires Valid(m)
    ensures var p := ProfileOf(b, m);
            var wanted := Wanted(m, p, collate);
            var synced := ApplyProfile(m, p, collate);
            && UniqueKeys(synced)
            && (forall i :: 0 <= i < |wanted| ==> Get(synced, wanted[i].0) == wanted[i].1)
            && (forall k :: !ProfileField(b, k) && k != "scripts" && k != "devDependencies" ==> Get(synced, k) == Get(m, k))
  {
    hide Wanted, ProfileOf, ProfileField, ApplyFields, Get;
    Entries(m, "scripts");
    WantedKeys(b, m, m, collate);
    ApplyFieldsGets(m, Wanted(m, ProfileOf(b, m), collate));
  }

  lemma SameRequired(presets: seq<string>, m: Manifest, n: Manifest)
    requires Get(m, "name") == Get(n, "name") && Get(m, "dependencies") == Get(n, "dependencies")
    ensures Required(presets, m) == Required(presets, n)
  {
    hide Get;
  }

  /** The profile derived from the synced manifest is the profile that was applied. */
  lemma {:induction false} ProfileIsUnchanged(b: Build, m: Manifest, collate: Comparison<string>)
    requires Valid(m)
    ensures ProfileOf(b, ApplyProfile(m, ProfileOf(b, m), collate)) == ProfileOf(b, m)
  {
    hide ProfileOf, ApplyProfile, Get, ProfileField, Wanted;
    SyncedGets(b, m, collate);
    NotProfileFields(b);
    SameProfile(b, m, ApplyProfile(m, ProfileOf(b, m), collate));
  }

  lemma NotProfileFields(b: Build)
    ensures !ProfileField(b, "name") && !ProfileField(b, "dependencies")
    ensures b.kind.Package? || b.kind.Cli? ==> !ProfileField(b, "private")
  {
  }

  lemma PrivacyIsFixed(b: Build)
    requires b.kind.Tool? || b.kind.App?
    ensures Fields(b, true) == Fields(b, false) && Scripts(b, true) == Scripts(b, false)
  {
    hide BaseName;
  }

  /** The profile looks at the name, the dependencies and, for what is published, the privacy. */
  lemma SameProfile(b: Build, m: Manifest, n: Manifest)
    requires Get(n, "name") == Get(m, "name") && Get(n, "dependencies") == Get(m, "dependencies")
    requires b.kind.Package? || b.kind.Cli? ==> Get(n, "private") == Get(m, "private")
    ensures ProfileOf(b, n) == ProfileOf(b, m)
  {
    hide Get, Required, Fields, Scripts;
    SameRequired([TSDOWN_PRESET, VITEST_PRESET], m, n);
    SameRequired([VITEST_PRESET], m, n);
    if b.kind.Tool? || b.kind.App? { PrivacyIsFixed(b); }
  }

  // ---------------------------------------------------------------- no drift

  lemma {:induction false} NoFieldDrift(fields: seq<(string, Option<Json>)>, m: Manifest)
    requires forall i :: 0 <= i < |fields| ==> FieldMatches(Get(m, fields[i].0), fields[i].1)
    ensures FieldDrifts(fields, m) == []
  {
    hide Get;
    if fields != [] { NoFieldDrift(fields[1..], m); }
  }

  lemma {:induction false} NoScriptDrift(scripts: seq<(string, Option<string>)>, found: seq<(string, Json)>)
    requires forall i :: 0 <= i < |scripts| ==> Get(found, scripts[i].0) == AsText(scripts[i].1)
    ensures ScriptDrifts(scripts, found) == []
  {
    hide Get;
    if scripts != [] { NoScriptDrift(scripts[1..], found); }
  }

  lemma {:induction false} NoDependencyDrift(wanted: seq<(string, string)>, found: seq<(string, Json)>)
    requires forall i :: 0 <= i < |wanted| ==> Get(found, wanted[i].0) == Some(Text(wanted[i].1))
    ensures DependencyDrifts(wanted, found) == []
  {
    hide Get;
    if wanted != [] { NoDependencyDrift(wanted[1..], found); }
  }

  /** The rendered fields of a build are JSON values. */
  ghost predicate ValidBuild(b: Build) {
    WellFormed(b.exports) && WellFormed(b.files) && WellFormed(b.bin)
  }

  lemma FieldValuesAreJson(b: Build, published: bool)
    requires ValidBuild(b)
    ensures forall i :: 0 <= i < |Fields(b, published)| && Fields(b, published)[i].1.Some? ==> WellFormed(Fields(b, published)[i].1.value)
  {
    hide BaseName;
  }

  /** The scripts and development dependencies the synced manifest has. */
  lemma SyncedObjects(b: Build, m: Manifest, collate: Comparison<string>)
    requires Valid(m) && Collates(collate)
    ensures var p := ProfileOf(b, m);
            var synced := ApplyProfile(m, p, collate);
            && EntriesOf(Get(synced, "scripts")) == ApplyScripts(EntriesOf(Get(m, "scripts")), p.scripts)
            && EntriesOf(Get(synced, "devDependencies"))
               == SortedEntries(AddDependencies(EntriesOf(Get(m, "devDependencies")), p.devDependencies), collate)
            && forall i :: 0 <= i < |p.fields| ==> Get(synced, p.fields[i].0) == p.fields[i].1
  {
    var p := ProfileOf(b, m);
    SyncedGets(b, m, collate);
    hide ProfileOf, ApplyProfile, Get, ApplyScripts, SortedEntries, AddDependencies;
    var wanted := Wanted(m, p, collate);
    assert wanted[|p.fields|].0 == "scripts" && wanted[|p.fields| + 1].0 == "devDependencies";
    assert forall i :: 0 <= i < |p.fields| ==> wanted[i] == p.fields[i];
  }

  /** The synced manifest passes the drift check. */
  lemma {:induction false} SyncLeavesNoDrift(b: Build, m: Manifest, collate: Comparison<string>)
    requires Valid(m) && ValidBuild(b) && Collates(collate)
    ensures ManifestDrift(b, ApplyProfile(m, ProfileOf(b, m), collate)) == []
  {
    var p := ProfileOf(b, m);
    var synced := ApplyProfile(m, p, collate);
    FieldValuesAreJson(b, Get(m, "private") != Some(Bool(true)));
    ProfileFieldsAre(b, m);
    hide ProfileOf, ApplyProfile, Get, ApplyScripts, SortedEntries, AddDependencies, WellFormed, Fields, EntriesOf, FieldDrifts;
    ProfileIsUnchanged(b, m, collate);
    SyncedObjects(b, m, collate);
    ProfileKeys(b, m);
    forall i | 0 <= i < |p.fields| ensures FieldMatches(Get(synced, p.fields[i].0), p.fields[i].1) {
      if p.fields[i].1.Some? { DeepEqualReflexive(p.fields[i].1.value); }
    }
    NoFieldDrift(p.fields, synced);
    Entries(m, "scripts");
    ApplyScriptsGets(EntriesOf(Get(m, "scripts")), p.scripts);
    NoScriptDrift(p.scripts, EntriesOf(Get(synced, "scripts")));
    Entries(m, "devDependencies");
    AddDependenciesGets(EntriesOf(Get(m, "devDependencies")), p.devDependencies);
    SortedGets(AddDependencies(EntriesOf(Get(m, "devDependencies")), p.devDependencies), collate);
    NoDependencyDrift(p.devDependencies, EntriesOf(Get(synced, "devDependencies")));
  }

  lemma ProfileFieldsAre(b: Build, m: Manifest)
    ensures ProfileOf(b, m).fields == Fields(b, Get(m, "private") != Some(Bool(true)))
  {
  }

  // ---------------------------------------------------------------- twice is once

  /** Applying the profile a second time changes nothing, the order of entries included. */
  lemma {:induction false} SyncIsIdempotent(b: Build, m: Manifest, collate: Comparison<string>)
    requires Valid(m) && Collates(collate)
    ensures var synced := ApplyProfile(m, ProfileOf(b, m), collate);
            ApplyProfile(synced, ProfileOf(b, synced), collate) == synced
  {
    hide ProfileOf, Get, ApplyScripts, AddDependencies, EntriesOf, ApplyFields, Ascending, SortedEntries;
    var p := ProfileOf(b, m);
    var synced := ApplyProfile(m, p, collate);
    ProfileIsUnchanged(b, m, collate);
    ProfileKeys(b, m);
    SyncedGets(b, m, collate);
    SyncedObjects(b, m, collate);
    Entries(m, "scripts");
    Entries(m, "devDependencies");
    var scripts := ApplyScripts(EntriesOf(Get(m, "scripts")), p.scripts);
    ApplyScriptsGets(EntriesOf(Get(m, "scripts")), p.scripts);
    ApplyScriptsAgain(scripts, p.scripts);
    var added := AddDependencies(EntriesOf(Get(m, "devDependencies")), p.devDependencies);
    AddDependenciesGets(EntriesOf(Get(m, "devDependencies")), p.devDependencies);
    SortedGets(added, collate);
    var sorted := SortedEntries(added, collate);
    AddDependenciesAgain(sorted, p.devDependencies);
    SortedAgain(added, collate);
    assert Wanted(synced, p, collate) == Wanted(m, p, collate);
    ApplyFieldsAgain(synced, Wanted(m, p, collate));
  }

  lemma SortedAgain(es: seq<(string, Json)>, collate: Comparison<string>)
    requires Collates(collate) && Ascending(SortedEntries(es, collate), By(KeyOf, collate))
    ensures SortedEntries(SortedEntries(es, collate), collate) == SortedEntries(es, collate)
  {
    SortOfAscending(SortedEntries(es, collate), KeyOf, collate);
  }

  // ---------------------------------------------------------------- what sync leaves alone

  /** The entries whose keys are not among `keys`, in order. */
  ghost function Others(es: Manifest, keys: set<string>): Manifest {
    if es == [] then [] else Others(es[..|es| - 1], keys) + if es[|es| - 1].0 in keys then [] else [es[|es| - 1]]
  }

  lemma {:induction false} OthersSplit(a: Manifest, b: Manifest, keys: set<string>)
    ensures Others(a + b, keys) == Others(a, keys) + Others(b, keys)
    decreases |b|
  {
    if b == [] {
      assert a + b == a;
    } else {
      OthersSplit(a, b[..|b| - 1], keys);
      assert (a + b)[..|a + b| - 1] == a + b[..|b| - 1];
    }
  }

  lemma OthersOfOne(e: (string, Json), keys: set<string>)
    ensures Others([e], keys) == if e.0 in keys then [] else [e]
  {
    assert [e][..0] == [];
  }

  /** A stretch of keys written by sync can be replaced by another. */
  lemma {:induction false} OthersAround(front: Manifest, a: Manifest, b: Manifest, back: Manifest, keys: set<string>)
    requires Others(a, keys) == [] && Others(b, keys) == []
    ensures Others(front + a + back, keys) == Others(front + b + back, keys)
  {
    OthersSplit(front + a, back, keys);
    OthersSplit(front + b, back, keys);
    OthersSplit(front, a, keys);
    OthersSplit(front, b, keys);
  }

  lemma ApplyFieldOthers(es: Manifest, key: string, value: Option<Json>, keys: set<string>)
    requires key in keys
    ensures Others(ApplyField(es, key, value), keys) == Others(es, keys)
  {
    hide Earlier, Others;
    var at := Find(es, key);
    NoOthers(keys);
    if at == |es| {
      if value.Some? { InsertOthers(es, Behind(es, name => Earlier(name, key)), (key, value.value), keys); }
    } else if value.None? {
      ReplaceOthers(es, at, [], keys);
      assert es[..at] + [] + es[at + 1..] == es[..at] + es[at + 1..];
    } else {
      OthersOfOne((key, value.value), keys);
      ReplaceOthers(es, at, [(key, value.value)], keys);
      assert es[..at] + [(key, value.value)] + es[at + 1..] == es[at := (key, value.value)];
    }
  }

  lemma {:induction false} ReplaceOthers(es: Manifest, at: nat, b: Manifest, keys: set<string>)
    requires at < |es| && es[at].0 in keys && Others(b, keys) == []
    ensures Others(es[..at] + b + es[at + 1..], keys) == Others(es, keys)
  {
    hide Others;
    OthersOfOne(es[at], keys);
    OthersAround(es[..at], [es[at]], b, es[at + 1..], keys);
    assert es == es[..at] + [es[at]] + es[at + 1..];
  }

  lemma NoOthers(keys: set<string>)
    ensures Others([], keys) == []
  {
  }

  lemma {:induction false} InsertOthers(es: Manifest, at: nat, e: (string, Json), keys: set<string>)
    requires at <= |es| && e.0 in keys
    ensures Others(es[..at] + [e] + es[at..], keys) == Others(es, keys)
  {
    hide Others;
    OthersOfOne(e, keys);
    NoOthers(keys);
    OthersAround(es[..at], [], [e], es[at..], keys);
    assert es == es[..at] + [] + es[at..];
  }

  lemma {:induction false} ApplyFieldsOthers(es: Manifest, fields: seq<(string, Option<Json>)>, keys: set<string>)
    requires forall i :: 0 <= i < |fields| ==> fields[i].0 in keys
    ensures Others(ApplyFields(es, fields), keys) == Others(es, keys)
    decreases |fields|
  {
    hide ApplyField, Others;
    if fields != [] {
      ApplyFieldOthers(es, fields[0].0, fields[0].1, keys);
      ApplyFieldsOthers(ApplyField(es, fields[0].0, fields[0].1), fields[1..], keys);
    }
  }

  /** The fields sync may write for this kind of workspace. */
  ghost function Written(b: Build): set<string> {
    {"type", "sideEffects", "exports", "files", "bin", "scripts", "devDependencies"}
    + if b.kind.Tool? || b.kind.App? then {"private"} else {}
  }

  /** Every other entry keeps its value and its place among the others. */
  lemma {:induction false} OtherEntriesAreKept(b: Build, m: Manifest, collate: Comparison<string>)
    ensures Others(ApplyProfile(m, ProfileOf(b, m), collate), Written(b)) == Others(m, Written(b))
  {
    WantedKeys(b, m, m, collate);
    hide ProfileOf, Wanted, ApplyFields, Others;
    ApplyFieldsOthers(m, Wanted(m, ProfileOf(b, m), collate), Written(b));
  }

  predicate KnownField(name: string) {
    Rank(name) < |FIELD_ORDER|
  }

  /** Known fields stand in the order the repository keeps them in. */
  ghost predicate InOrder(es: Manifest) {
    forall i, j :: 0 <= i < j < |es| && KnownField(es[i].0) && KnownField(es[j].0) ==> Rank(es[i].0) < Rank(es[j].0)
  }

  lemma InsertBetween(es: Manifest, at: nat, e: (string, Json))
    requires InOrder(es) && at <= |es|
    requires forall i :: 0 <= i < at && KnownField(es[i].0) ==> Rank(es[i].0) < Rank(e.0)
    requires forall i :: at <= i < |es| ==> Rank(e.0) < Rank(es[i].0)
    ensures InOrder(es[..at] + [e] + es[at..])
  {
    hide Rank, KnownField;
    var next := es[..at] + [e] + es[at..];
    assert forall i :: 0 <= i < |next| ==> next[i] == if i < at then es[i] else if i == at then e else es[i - 1];
  }

  lemma {:induction false} InsertInOrderKeeps(es: Manifest, key: string, value: Json)
    requires InOrder(es) && Find(es, key) == |es| && KnownField(key)
    ensures InOrder(InsertInOrder(es, key, value))
  {
    hide Rank, KnownField, Earlier, InOrder;
    var at := Behind(es, name => Earlier(name, key));
    forall i | 0 <= i < at && KnownField(es[i].0) ensures Rank(es[i].0) < Rank(key) {
      EarlierRank(es[at - 1].0, key);
      RanksRise(es, i, at - 1);
    }
    forall i | at <= i < |es| ensures Rank(key) < Rank(es[i].0) {
      EarlierRank(es[i].0, key);
    }
    InsertBetween(es, at, (key, value));
  }

  lemma RanksRise(es: Manifest, i: nat, j: nat)
    requires InOrder(es) && i <= j < |es| && KnownField(es[i].0) && KnownField(es[j].0)
    ensures Rank(es[i].0) <= Rank(es[j].0)
  {
    hide Rank, KnownField;
  }

  lemma EarlierRank(name: string, key: string)
    requires KnownField(key)
    ensures Earlier(name, key) ==> KnownField(name) && Rank(name) < Rank(key)
    ensures !Earlier(name, key) && name != key ==> Rank(key) < Rank(name)
  {
    hide RankFrom;
  }

  lemma {:induction false} ApplyFieldInOrder(es: Manifest, key: string, value: Option<Json>)
    requires InOrder(es) && KnownField(key)
    ensures InOrder(ApplyField(es, key, value))
  {
    hide Rank, Earlier, KnownField;
    var at := Find(es, key);
    if at == |es| {
      if value.Some? { InsertInOrderKeeps(es, key, value.value); }
    } else if value.None? {
      RemoveInOrder(es, at);
    } else {
      PutInOrder(es, at, (key, value.value));
    }
  }

  lemma RemoveInOrder(es: Manifest, at: nat)
    requires InOrder(es) && at < |es|
    ensures InOrder(es[..at] + es[at + 1..])
  {
    hide Rank, KnownField;
    var next := es[..at] + es[at + 1..];
    assert forall i :: 0 <= i < |next| ==> next[i] == if i < at then es[i] else es[i + 1];
  }

  lemma PutInOrder(es: Manifest, at: nat, e: (string, Json))
    requires InOrder(es) && at < |es| && es[at].0 == e.0
    ensures InOrder(es[at := e])
  {
    hide Rank, KnownField;
  }

  lemma {:induction false} ApplyFieldsInOrder(es: Manifest, fields: seq<(string, Option<Json>)>)
    requires InOrder(es) && forall i :: 0 <= i < |fields| ==> KnownField(fields[i].0)
    ensures InOrder(ApplyFields(es, fields))
    decreases |fields|
  {
    hide KnownField, InOrder, ApplyField;
    if fields != [] {
      ApplyFieldInOrder(es, fields[0].0, fields[0].1);
      ApplyFieldsInOrder(ApplyField(es, fields[0].0, fields[0].1), fields[1..]);
    }
  }

  lemma RankIs(field: string, at: nat)
    requires at < |FIELD_ORDER| && FIELD_ORDER[at] == field
    ensures Rank(field) < |FIELD_ORDER|
  {
    hide RankFrom;
  }

  lemma WrittenFieldsAreKnown(b: Build, key: string)
    requires ProfileField(b, key) || key == "scripts" || key == "devDependencies"
    ensures KnownField(key)
  {
    hide Rank;
    RankIs("private", 3);
    RankIs("type", 10);
    RankIs("sideEffects", 11);
    RankIs("bin", 12);
    RankIs("exports", 13);
    RankIs("files", 14);
    RankIs("scripts", 15);
    RankIs("devDependencies", 18);
  }

  /** A manifest whose known fields follow the field order still follows it after sync. */
  lemma {:induction false} FieldOrderIsKept(b: Build, m: Manifest, collate: Comparison<string>)
    requires InOrder(m)
    ensures InOrder(ApplyProfile(m, ProfileOf(b, m), collate))
  {
    WantedKeys(b, m, m, collate);
    hide ProfileOf, Wanted, ApplyFields, InOrder, KnownField, ProfileField;
    var wanted := Wanted(m, ProfileOf(b, m), collate);
    forall i | 0 <= i < |wanted| ensures KnownField(wanted[i].0) {
      WrittenFieldsAreKnown(b, wanted[i].0);
    }
    ApplyFieldsInOrder(m, wanted);
  }
}

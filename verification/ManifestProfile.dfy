/** The manifest fields a workspace's profile derives, the drift check and the synchroniser. */
module ManifestProfile {
  import opened OrderedMaps
  import opened Outcomes
  import opened Sorting

  type Manifest = seq<(string, Json)>

  /** A value of `None` means the field or script must be absent. */
  datatype Profile = Profile(
    fields: seq<(string, Option<Json>)>,
    scripts: seq<(string, Option<string>)>,
    devDependencies: seq<(string, string)>)

  datatype Kind = Package | Cli | Tool | App

  /** What the profile of a workspace derives from besides its manifest. */
  datatype Build = Build(
    kind: Kind,
    dir: string,
    exports: Json,
    files: Json,
    bin: Json,
    generated: seq<string>,
    styles: bool,
    typecheck: string,
    hasCli: bool,
    hasIndex: bool)

  const TSDOWN_PRESET := "@plainworks/tsdown-config"
  const VITEST_PRESET := "@plainworks/vitest-config"
  const WORKSPACE_RANGE := "workspace:*"
  const TEST_WITH_COVERAGE := "vitest run --coverage"
  const CHECK_PACKAGING := "plainworks-release check-packaging"

  // ---------------------------------------------------------------- the profile

  function EntriesOf(value: Option<Json>): seq<(string, Json)> {
    if value.Some? && value.value.Object? then value.value.entries else []
  }

  function JoinCommands(commands: seq<string>): string {
    if commands == [] then "" else if |commands| == 1 then commands[0] else commands[0] + " && " + JoinCommands(commands[1..])
  }

  /** The last segment of a path. */
  function BaseName(dir: string): string {
    if dir == [] then "" else if dir[|dir| - 1] == '/' then "" else BaseName(dir[..|dir| - 1]) + [dir[|dir| - 1]]
  }

  function Fields(b: Build, published: bool): seq<(string, Option<Json>)> {
    match b.kind
    case Package =>
      [("type", Some(Text("module"))),
       ("sideEffects", Some(if b.styles then Many([Text("**/*.css")]) else Bool(false))),
       ("exports", Some(b.exports)),
       ("files", if published then Some(b.files) else None)]
    case Cli => [("type", Some(Text("module"))), ("bin", Some(b.bin)), ("exports", None), ("files", Some(b.files))]
    case Tool =>
      [("private", Some(Bool(true))),
       ("type", Some(Text("module"))),
       ("bin", if b.hasCli then Some(Object([("plainworks-" + BaseName(b.dir), Text("./src/cli.ts"))])) else None),
       ("exports", if b.hasIndex then Some(Object([(".", Text("./src/index.ts"))])) else None)]
    case App => [("private", Some(Bool(true))), ("type", Some(Text("module")))]
  }

  function Scripts(b: Build, published: bool): seq<(string, Option<string>)> {
    match b.kind
    case Package =>
      [("build", Some(JoinCommands(["tsdown"] + b.generated))),
       ("typecheck", Some(b.typecheck)),
       ("test", Some(TEST_WITH_COVERAGE)),
       ("check-packaging", if published then Some(CHECK_PACKAGING) else None),
       ("lint", None)]
    case Cli =>
      [("typecheck", Some(b.typecheck)), ("test", Some(TEST_WITH_COVERAGE)),
       ("check-packaging", Some(CHECK_PACKAGING)), ("lint", None)]
    case Tool => [("typecheck", Some(b.typecheck)), ("test", Some(TEST_WITH_COVERAGE)), ("lint", None)]
    case App => [("test", Some("vitest run")), ("lint", None)]
  }

  function Required(presets: seq<string>, m: Manifest): seq<(string, string)> {
    if presets == [] then []
    else
      (if Get(m, "name") == Some(Text(presets[0])) || Get(EntriesOf(Get(m, "dependencies")), presets[0]).Some? then []
       else [(presets[0], WORKSPACE_RANGE)])
      + Required(presets[1..], m)
  }

  function ProfileOf(b: Build, m: Manifest): Profile {
    var published := Get(m, "private") != Some(Bool(true));
    var presets := if b.kind.Package? || b.kind.Cli? then [TSDOWN_PRESET, VITEST_PRESET] else [VITEST_PRESET];
    Profile(Fields(b, published), Scripts(b, published), Required(presets, m))
  }

  /** The kind of drift the check reports, and where. */
  datatype Drift = FieldDrift(field: string) | ScriptDrift(script: string) | DependencyDrift(name: string)

  predicate FieldMatches(found: Option<Json>, wanted: Option<Json>) {
    match (found, wanted)
    case (None, None) => true
    case (Some(x), Some(y)) => DeepEqual(x, y)
    case _ => false
  }

  predicate ScriptMatches(found: Option<Json>, wanted: Option<string>) {
    match (found, wanted)
    case (None, None) => true
    case (Some(x), Some(y)) => x == Text(y)
    case _ => false
  }

  function FieldDrifts(fields: seq<(string, Option<Json>)>, m: Manifest): seq<Drift> {
    if fields == [] then []
    else (if FieldMatches(Get(m, fields[0].0), fields[0].1) then [] else [FieldDrift(fields[0].0)]) + FieldDrifts(fields[1..], m)
  }

  function ScriptDrifts(scripts: seq<(string, Option<string>)>, found: seq<(string, Json)>): seq<Drift> {
    if scripts == [] then []
    else (if ScriptMatches(Get(found, scripts[0].0), scripts[0].1) then [] else [ScriptDrift(scripts[0].0)]) + ScriptDrifts(scripts[1..], found)
  }

  function DependencyDrifts(wanted: seq<(string, string)>, found: seq<(string, Json)>): seq<Drift> {
    if wanted == [] then []
    else (if Get(found, wanted[0].0) == Some(Text(wanted[0].1)) then [] else [DependencyDrift(wanted[0].0)]) + DependencyDrifts(wanted[1..], found)
  }

  /** `manifestDrift`: every field, script and development dependency that differs from the profile. */
  function ManifestDrift(b: Build, m: Manifest): seq<Drift> {
    var profile := ProfileOf(b, m);
    FieldDrifts(profile.fields, m)
    + ScriptDrifts(profile.scripts, EntriesOf(Get(m, "scripts")))
    + DependencyDrifts(profile.devDependencies, EntriesOf(Get(m, "devDependencies")))
  }

  // ---------------------------------------------------------------- applying a profile

  const FIELD_ORDER := ["name", "version", "description", "private", "license", "author", "homepage", "repository", "bugs",
                        "keywords", "type", "sideEffects", "bin", "exports", "files", "scripts", "dependencies",
                        "peerDependencies", "devDependencies"]

  function Rank(field: string): (rank: nat)
    ensures rank <= |FIELD_ORDER| && (rank < |FIELD_ORDER| ==> FIELD_ORDER[rank] == field)
    ensures forall k :: 0 <= k < rank ==> FIELD_ORDER[k] != field
  {
    RankFrom(field, 0)
  }

  function RankFrom(field: string, i: nat): (rank: nat)
    requires i <= |FIELD_ORDER|
    ensures i <= rank <= |FIELD_ORDER| && (rank < |FIELD_ORDER| ==> FIELD_ORDER[rank] == field)
    ensures forall k :: i <= k < rank ==> FIELD_ORDER[k] != field
    decreases |FIELD_ORDER| - i
  {
    if i < |FIELD_ORDER| && FIELD_ORDER[i] != field then RankFrom(field, i + 1) else i
  }

  /** Fields in front of which `key` does not go; for a field outside the order, all but the last. */
  predicate Earlier(name: string, key: string) {
    if Rank(key) < |FIELD_ORDER| then Rank(name) < Rank(key) else Rank(name) < |FIELD_ORDER| - 1
  }

  /** Behind the last entry that satisfies `earlier`. */
  function Behind(es: Manifest, earlier: string -> bool): (at: nat)
    ensures at <= |es| && (at > 0 ==> earlier(es[at - 1].0))
    ensures forall k :: at <= k < |es| ==> !earlier(es[k].0)
  {
    if es == [] then 0 else if earlier(es[|es| - 1].0) then |es| else Behind(es[..|es| - 1], earlier)
  }

  function InsertInOrder(es: Manifest, key: string, value: Json): Manifest {
    var at := Behind(es, name => Earlier(name, key));
    es[..at] + [(key, value)] + es[at..]
  }

  function ApplyField(es: Manifest, key: string, value: Option<Json>): Manifest {
    if value.None? then Remove(es, key)
    else if Find(es, key) < |es| then Put(es, key, value.value)
    else InsertInOrder(es, key, value.value)
  }

  function ApplyFields(es: Manifest, fields: seq<(string, Option<Json>)>): Manifest
    decreases |fields|
  {
    if fields == [] then es else ApplyFields(ApplyField(es, fields[0].0, fields[0].1), fields[1..])
  }

  function ApplyScripts(scripts: seq<(string, Json)>, wanted: seq<(string, Option<string>)>): seq<(string, Json)>
    decreases |wanted|
  {
    if wanted == [] then scripts
    else
      ApplyScripts(if wanted[0].1.None? then Remove(scripts, wanted[0].0) else Put(scripts, wanted[0].0, Text(wanted[0].1.value)),
                   wanted[1..])
  }

  function AddDependencies(found: seq<(string, Json)>, wanted: seq<(string, string)>): seq<(string, Json)>
    decreases |wanted|
  {
    if wanted == [] then found else AddDependencies(Put(found, wanted[0].0, Text(wanted[0].1)), wanted[1..])
  }

  function KeyOf(e: (string, Json)): string {
    e.0
  }

  function SortedEntries(es: seq<(string, Json)>, collate: Comparison<string>): seq<(string, Json)> {
    Sort(es, By(KeyOf, collate))
  }

  /** Everything the synchroniser writes: the profile's fields, then scripts and development dependencies. */
  function Wanted(m: Manifest, profile: Profile, collate: Comparison<string>): seq<(string, Option<Json>)> {
    profile.fields
    + [("scripts", Some(Object(ApplyScripts(EntriesOf(Get(m, "scripts")), profile.scripts)))),
       ("devDependencies", Some(Object(SortedEntries(AddDependencies(EntriesOf(Get(m, "devDependencies")), profile.devDependencies), collate))))]
  }

  function ApplyProfile(m: Manifest, profile: Profile, collate: Comparison<string>): Manifest {
    ApplyFields(m, Wanted(m, profile, collate))
  }
}

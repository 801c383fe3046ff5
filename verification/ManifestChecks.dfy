/** When the drift check complains, and when two JSON values count as the same. */
module ManifestChecks {
  import opened ManifestProfile
  import opened OrderedMaps
  import opened Outcomes

  // ---------------------------------------------------------------- looking into JSON values

  datatype Step = Key(key: string) | Index(index: nat)

  /** What can be seen of a value without looking inside its parts; the order of keys cannot. */
  datatype Sight = Missing | NullSeen | BoolSeen(b: bool) | TextSeen(text: string) | ManySeen(length: nat) | ObjectSeen(keys: set<string>)

  function KeysOf(es: seq<(string, Json)>): set<string> {
    set i | 0 <= i < |es| :: es[i].0
  }

  function Look(a: Json): Sight {
    match a
    case Null => NullSeen
    case Bool(b) => BoolSeen(b)
    case Text(text) => TextSeen(text)
    case Many(items) => ManySeen(|items|)
    case Object(entries) => ObjectSeen(KeysOf(entries))
  }

  function Inside(a: Json, step: Step): Option<Json> {
    match step
    case Key(key) => if a.Object? then Get(a.entries, key) else None
    case Index(index) => if a.Many? && index < |a.items| then Some(a.items[index]) else None
  }

  function LookAt(a: Json, path: seq<Step>): Sight
    decreases |path|
  {
    if path == [] then Look(a)
    else if Inside(a, path[0]).None? then Missing
    else LookAt(Inside(a, path[0]).value, path[1..])
  }

  /** No path tells the values apart. */
  ghost predicate Indistinguishable(a: Json, b: Json) {
    forall path :: LookAt(a, path) == LookAt(b, path)
  }

  lemma InsideIsSmaller(a: Json, step: Step)
    requires WellFormed(a) && Inside(a, step).Some?
    ensures WellFormed(Inside(a, step).value)
    ensures Inside(a, step).value < a
  {
    if step.Key? { assert a.entries[Find(a.entries, step.key)].1 == Inside(a, step).value; }
  }

  lemma KeyIsSeen(es: seq<(string, Json)>, key: string)
    requires UniqueKeys(es)
    ensures key in KeysOf(es) <==> Get(es, key).Some?
  {
    GetIs(es, key);
  }

  lemma {:induction false} KeyCount(es: seq<(string, Json)>)
    requires UniqueKeys(es)
    ensures |KeysOf(es)| == |es|
    decreases |es|
  {
    if es != [] {
      var front, last := es[..|es| - 1], es[|es| - 1];
      KeyCount(front);
      forall key ensures key in KeysOf(es) <==> key in KeysOf(front) + {last.0} {
        if key in KeysOf(front) { var i :| 0 <= i < |front| && front[i].0 == key; assert es[i].0 == key; }
        if key == last.0 { assert es[|es| - 1].0 == key; }
      }
      assert KeysOf(es) == KeysOf(front) + {last.0};
      assert last.0 !in KeysOf(front);
    }
  }

  /** Equal values have the same parts, equal in turn. */
  lemma EqualLook(a: Json, b: Json)
    requires WellFormed(a) && WellFormed(b) && DeepEqual(a, b)
    ensures Look(a) == Look(b)
  {
    if a.Object? {
      KeyCount(a.entries);
      KeyCount(b.entries);
      forall key | key in KeysOf(a.entries) ensures key in KeysOf(b.entries) {
        var i :| 0 <= i < |a.entries| && a.entries[i].0 == key;
        assert b.entries[Find(b.entries, a.entries[i].0)].0 == key;
      }
      SameSize(KeysOf(a.entries), KeysOf(b.entries));
    }
  }

  lemma {:induction false} SameSize(a: set<string>, b: set<string>)
    requires a <= b && |a| == |b|
    ensures a == b
  {
    assert |b - a| == |b| - |a|;
  }

  lemma EqualInside(a: Json, b: Json, step: Step)
    requires WellFormed(a) && WellFormed(b) && DeepEqual(a, b)
    ensures Inside(a, step).None? <==> Inside(b, step).None?
    ensures Inside(a, step).Some? ==> DeepEqual(Inside(a, step).value, Inside(b, step).value)
  {
    if a.Object? && step.Key? {
      EqualLook(a, b);
      KeyIsSeen(a.entries, step.key);
      KeyIsSeen(b.entries, step.key);
      if Get(a.entries, step.key).Some? { assert a.entries[Find(a.entries, step.key)].0 == step.key; }
    }
  }

  lemma {:induction false} EqualLookAt(a: Json, b: Json, path: seq<Step>)
    requires WellFormed(a) && WellFormed(b) && DeepEqual(a, b)
    ensures LookAt(a, path) == LookAt(b, path)
    decreases |path|
  {
    hide DeepEqual, WellFormed, Inside;
    if path == [] {
      EqualLook(a, b);
    } else {
      EqualInside(a, b, path[0]);
      if Inside(a, path[0]).Some? {
        InsideIsSmaller(a, path[0]);
        InsideIsSmaller(b, path[0]);
        EqualLookAt(Inside(a, path[0]).value, Inside(b, path[0]).value, path[1..]);
      }
    }
  }

  lemma OneStep(a: Json, step: Step)
    ensures LookAt(a, [step]) == (if Inside(a, step).None? then Missing else Look(Inside(a, step).value))
    ensures Inside(a, step).Some? ==> !Look(Inside(a, step).value).Missing?
  {
    assert [step][1..] == [];
  }

  lemma SameInside(a: Json, b: Json, step: Step)
    requires Indistinguishable(a, b)
    ensures Inside(a, step).None? <==> Inside(b, step).None?
    ensures Inside(a, step).Some? ==> Indistinguishable(Inside(a, step).value, Inside(b, step).value)
  {
    hide Inside, Look;
    assert LookAt(a, [step]) == LookAt(b, [step]);
    OneStep(a, step);
    OneStep(b, step);
    if Inside(a, step).Some? {
      forall path ensures LookAt(Inside(a, step).value, path) == LookAt(Inside(b, step).value, path) {
        assert LookAt(a, [step] + path) == LookAt(b, [step] + path);
        assert ([step] + path)[1..] == path;
      }
    }
  }

  lemma {:induction false} SameIsEqual(a: Json, b: Json)
    requires WellFormed(a) && WellFormed(b) && Indistinguishable(a, b)
    ensures DeepEqual(a, b)
    decreases a
  {
    assert LookAt(a, []) == LookAt(b, []);
    match a
    case Many(items) =>
      forall i | 0 <= i < |items| ensures DeepEqual(items[i], b.items[i]) {
        SameInside(a, b, Index(i));
        SameIsEqual(items[i], b.items[i]);
      }
    case Object(entries) =>
      KeyCount(entries);
      KeyCount(b.entries);
      forall i | 0 <= i < |entries|
        ensures Find(b.entries, entries[i].0) < |b.entries| && DeepEqual(entries[i].1, b.entries[Find(b.entries, entries[i].0)].1)
      {
        FindUnique(entries, i);
        SameInside(a, b, Key(entries[i].0));
        SameIsEqual(entries[i].1, b.entries[Find(b.entries, entries[i].0)].1);
      }
    case _ =>
  }

  /** Deep equality is what no path into the values can refute. */
  lemma DeepEqualExactly(a: Json, b: Json)
    requires WellFormed(a) && WellFormed(b)
    ensures DeepEqual(a, b) <==> Indistinguishable(a, b)
  {
    if DeepEqual(a, b) {
      forall path ensures LookAt(a, path) == LookAt(b, path) { EqualLookAt(a, b, path); }
    }
    if Indistinguishable(a, b) { SameIsEqual(a, b); }
  }

  // ---------------------------------------------------------------- drift

  /** The field is there exactly if it is wanted, and then it is the same value. */
  ghost predicate FieldHolds(found: Option<Json>, wanted: Option<Json>) {
    (found.Some? <==> wanted.Some?) && (found.Some? ==> DeepEqual(found.value, wanted.value))
  }

  ghost predicate ScriptHolds(found: Option<Json>, wanted: Option<string>) {
    found == if wanted.Some? then Some(Text(wanted.value)) else None
  }

  ghost predicate FieldStrays(fields: seq<(string, Option<Json>)>, m: Manifest, d: Drift) {
    exists i :: 0 <= i < |fields| && d == FieldDrift(fields[i].0) && !FieldHolds(Get(m, fields[i].0), fields[i].1)
  }

  ghost predicate ScriptStrays(scripts: seq<(string, Option<string>)>, found: seq<(string, Json)>, d: Drift) {
    exists i :: 0 <= i < |scripts| && d == ScriptDrift(scripts[i].0) && !ScriptHolds(Get(found, scripts[i].0), scripts[i].1)
  }

  ghost predicate DependencyStrays(wanted: seq<(string, string)>, found: seq<(string, Json)>, d: Drift) {
    exists i :: 0 <= i < |wanted| && d == DependencyDrift(wanted[i].0) && Get(found, wanted[i].0) != Some(Text(wanted[i].1))
  }

  lemma {:induction false} FieldDriftsAre(fields: seq<(string, Option<Json>)>, m: Manifest, d: Drift)
    ensures d in FieldDrifts(fields, m) <==> FieldStrays(fields, m, d)
    decreases |fields|
  {
    hide Get, DeepEqual;
    if fields != [] {
      FieldDriftsAre(fields[1..], m, d);
      if i :| 0 <= i < |fields[1..]| && d == FieldDrift(fields[1..][i].0) && !FieldHolds(Get(m, fields[1..][i].0), fields[1..][i].1) {
        assert fields[i + 1] == fields[1..][i];
      }
      assert FieldMatches(Get(m, fields[0].0), fields[0].1) <==> FieldHolds(Get(m, fields[0].0), fields[0].1);
      assert forall i :: 0 < i < |fields| ==> fields[i] == fields[1..][i - 1];
    }
  }

  lemma {:induction false} ScriptDriftsAre(scripts: seq<(string, Option<string>)>, found: seq<(string, Json)>, d: Drift)
    ensures d in ScriptDrifts(scripts, found) <==> ScriptStrays(scripts, found, d)
    decreases |scripts|
  {
    hide Get;
    if scripts != [] {
      ScriptDriftsAre(scripts[1..], found, d);
      if i :| 0 <= i < |scripts[1..]| && d == ScriptDrift(scripts[1..][i].0) && !ScriptHolds(Get(found, scripts[1..][i].0), scripts[1..][i].1) {
        assert scripts[i + 1] == scripts[1..][i];
      }
      assert forall i :: 0 < i < |scripts| ==> scripts[i] == scripts[1..][i - 1];
    }
  }

  lemma {:induction false} DependencyDriftsAre(wanted: seq<(string, string)>, found: seq<(string, Json)>, d: Drift)
    ensures d in DependencyDrifts(wanted, found) <==> DependencyStrays(wanted, found, d)
    decreases |wanted|
  {
    hide Get;
    if wanted != [] {
      DependencyDriftsAre(wanted[1..], found, d);
      if i :| 0 <= i < |wanted[1..]| && d == DependencyDrift(wanted[1..][i].0) && Get(found, wanted[1..][i].0) != Some(Text(wanted[1..][i].1)) {
        assert wanted[i + 1] == wanted[1..][i];
      }
      assert forall i :: 0 < i < |wanted| ==> wanted[i] == wanted[1..][i - 1];
    }
  }

  /**
   The check reports exactly the fields of the profile that are absent, extra or of another value, the
   scripts that are absent, extra or run another command, and the presets that are missing.
   */
  lemma DriftIsReportedExactly(b: Build, m: Manifest, d: Drift)
    ensures var p := ProfileOf(b, m);
            d in ManifestDrift(b, m) <==>
              || FieldStrays(p.fields, m, d)
              || ScriptStrays(p.scripts, EntriesOf(Get(m, "scripts")), d)
              || DependencyStrays(p.devDependencies, EntriesOf(Get(m, "devDependencies")), d)
  {
    hide ProfileOf, Get, EntriesOf, FieldDrifts, ScriptDrifts, DependencyDrifts, FieldStrays, ScriptStrays, DependencyStrays;
    var p := ProfileOf(b, m);
    FieldDriftsAre(p.fields, m, d);
    ScriptDriftsAre(p.scripts, EntriesOf(Get(m, "scripts")), d);
    DependencyDriftsAre(p.devDependencies, EntriesOf(Get(m, "devDependencies")), d);
  }
}

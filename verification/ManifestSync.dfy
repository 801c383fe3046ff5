/** The synchroniser as a program: entry lists changed one field at a time. */
module ManifestSync {
  import opened ManifestProfile
  import opened OrderedMaps
  import opened Outcomes
  import opened Sorting

  method InsertInFieldOrder(entries: Manifest, key: string, value: Json) returns (longer: Manifest)
    ensures longer == InsertInOrder(entries, key, value)
  {
    hide Earlier;
    var at := 0;
    var index := 0;
    while index < |entries|
      invariant index <= |entries| && at == Behind(entries[..index], name => Earlier(name, key))
    {
      assert entries[..index + 1][..index] == entries[..index];
      if Earlier(entries[index].0, key) { at := index + 1; }
      index := index + 1;
    }
    assert entries[..index] == entries;
    return entries[..at] + [(key, value)] + entries[at..];
  }

  method ApplyManifestProfile(m: Manifest, profile: Profile, collate: Comparison<string>) returns (synced: Manifest)
    ensures synced == ApplyProfile(m, profile, collate)
  {
    hide Earlier, Sort, Get, Put, Remove;
    var scripts := EntriesOf(Get(m, "scripts"));
    var i := 0;
    while i < |profile.scripts|
      invariant i <= |profile.scripts|
      invariant ApplyScripts(scripts, profile.scripts[i..]) == ApplyScripts(EntriesOf(Get(m, "scripts")), profile.scripts)
    {
      var (name, command) := profile.scripts[i];
      assert profile.scripts[i..][1..] == profile.scripts[i + 1..];
      scripts := if command.None? then Remove(scripts, name) else Put(scripts, name, Text(command.value));
      i := i + 1;
    }
    var devDependencies := AddDependencies(EntriesOf(Get(m, "devDependencies")), profile.devDependencies);
    var wanted := profile.fields + [("scripts", Some(Object(scripts))), ("devDependencies", Some(Object(SortedEntries(devDependencies, collate))))];
    assert wanted == Wanted(m, profile, collate);
    synced := m;
    var j := 0;
    while j < |wanted|
      invariant j <= |wanted| && ApplyFields(synced, wanted[j..]) == ApplyFields(m, wanted)
    {
      var (key, value) := wanted[j];
      assert wanted[j..][1..] == wanted[j + 1..];
      var at := Find(synced, key);
      ghost var before := synced;
      if value.None? {
        if at < |synced| { synced := synced[..at] + synced[at + 1..]; }
        assert synced == Remove(before, key) by { RemoveIs(before, key); }
      } else if at < |synced| {
        synced := synced[at := (key, value.value)];
        assert synced == Put(before, key, value.value) by { PutIs(before, key, value.value); }
      } else {
        synced := InsertInFieldOrder(synced, key, value.value);
      }
      assert synced == ApplyField(before, key, value);
      j := j + 1;
    }
  }

  lemma RemoveIs(es: Manifest, key: string)
    ensures Remove(es, key) == if Find(es, key) < |es| then es[..Find(es, key)] + es[Find(es, key) + 1..] else es
  {
  }

  lemma PutIs(es: Manifest, key: string, value: Json)
    ensures Find(es, key) < |es| ==> Put(es, key, value) == es[Find(es, key) := (key, value)]
  {
  }
}

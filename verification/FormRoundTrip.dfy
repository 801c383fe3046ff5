/** Flattening a message with the names its controls carry and decoding the controls gives it back. */
module FormRoundTrip {
  import opened Decimal
  import opened FiniteSets
  import opened FormValues
  import opened Outcomes

  // ---------------------------------------------------------------- schemas and messages that fit

  predicate Simple(name: string) {
    name != "" && '.' !in name && '[' !in name
  }

  ghost predicate FieldsOk(fields: seq<Field>) {
    && (forall i :: 0 <= i < |fields| ==> Simple(fields[i].jsonName))
    && (forall i, j :: 0 <= i < j < |fields| ==> fields[i].jsonName != fields[j].jsonName)
  }

  /** JSON names are simple and distinct within a message. */
  ghost predicate SchemaOk(s: Schema) {
    forall t :: t in s ==> FieldsOk(s[t])
  }

  /** The message has only fields of its type, in schema order; messages inside it are not empty. */
  predicate TreeConforms(s: Schema, typeName: string, t: Tree, depth: nat)
    decreases t, 0
  {
    depth <= MAX_DEPTH && EntriesConform(s, FieldsOf(s, typeName), t.fields, depth)
  }

  predicate EntriesConform(s: Schema, fields: seq<Field>, es: seq<Entry>, depth: nat)
    decreases es, |fields|
  {
    if fields == [] then es == []
    else if es != [] && es[0].name == fields[0].jsonName then
      var e := es[0];
      NodeConforms(s, fields[0].shape, e.node, depth) && EntriesConform(s, fields[1..], es[1..], depth)
    else EntriesConform(s, fields[1..], es, depth)
  }

  predicate NodeConforms(s: Schema, shape: Shape, n: Node, depth: nat)
    decreases n, 0
  {
    match shape
    case Scalar(emptyUnset) => n.One? && !(n.text == "" && emptyUnset)
    case ScalarList => n.Many? && |n.texts| <= MAX_ITEMS
    case SubMessage(typeName) => n.Sub? && n.message.fields != [] && TreeConforms(s, typeName, n.message, depth + 1)
    case MessageList(typeName) =>
      && n.Subs? && 0 < |n.messages| <= MAX_ITEMS
      && forall i :: 0 <= i < |n.messages| ==> n.messages[i].fields != [] && TreeConforms(s, typeName, n.messages[i], depth + 1)
    case MapField => false
  }

  // ---------------------------------------------------------------- keys under a name

  type Controls = seq<(string, Control)>

  ghost function Keys(es: Controls): set<string> {
    set i | 0 <= i < |es| :: es[i].0
  }

  /** The key of a field of this name, or of something inside it. */
  predicate Under(key: string, name: string) {
    name <= key && (|key| == |name| || key[|name|] == '.' || key[|name|] == '[')
  }

  lemma NotLonger(key: string, prefix: string, a: string, b: string)
    requires Simple(b) && Under(key, prefix + a) && Under(key, prefix + b)
    ensures |b| <= |a|
  {
    var q := prefix + b;
    assert forall k :: 0 <= k < |q| ==> key[k] == q[k];
    assert forall k :: 0 <= k < |b| ==> b[k] in b;
  }

  lemma UnderOneName(key: string, prefix: string, a: string, b: string)
    requires Simple(a) && Simple(b) && Under(key, prefix + a) && Under(key, prefix + b)
    ensures a == b
  {
    NotLonger(key, prefix, a, b);
    NotLonger(key, prefix, b, a);
    var p, q := prefix + a, prefix + b;
    assert p == key[..|p|] && q == key[..|q|];
    assert p[|prefix|..] == a && q[|prefix|..] == b;
  }

  lemma ItemIsUnder(key: string, name: string, j: nat)
    requires ItemPrefix(name, j) <= key
    ensures Under(key, name) && name + "[" <= key && |key| > |name| && ParseIndex(key[|name|..]) == Some(j)
  {
    var numeral := Render(j);
    var prefix := ItemPrefix(name, j);
    ValueOfRender(j);
    assert prefix == name + ("[" + numeral + "].");
    assert key[..|prefix|] == prefix;
    assert key[|name|] == prefix[|name|] == '[';
    assert name + "[" == prefix[..|name| + 1] == key[..|name| + 1];
    assert name == prefix[..|name|] == key[..|name|];
    var rest := key[|name|..];
    var head := "[" + numeral + "].";
    assert rest[..|head|] == head;
    ClosingBracket(rest, numeral);
  }

  /** The bracket that closes an index is the first one, as numerals hold none. */
  lemma ClosingBracket(rest: string, numeral: string)
    requires Canonical(numeral) && "[" + numeral + "]." <= rest
    ensures FirstIndexOf(rest, ']') == |numeral| + 1 && rest[1..|numeral| + 1] == numeral
    ensures rest[0] == '[' && |numeral| + 2 < |rest| && rest[|numeral| + 2] == '.'
  {
    var head := "[" + numeral + "].";
    assert forall k :: 0 <= k < |head| ==> rest[k] == head[k];
    assert forall k :: 0 <= k < |numeral| ==> head[k + 1] == numeral[k] && numeral[k] != ']';
    assert head[0] == '[' && head[|numeral| + 1] == ']' && head[|numeral| + 2] == '.';
    forall k | 0 <= k < |numeral| + 1 ensures rest[k] != ']' {
      if k > 0 { assert head[k] == numeral[k - 1]; }
    }
    assert rest[1..|numeral| + 1] == head[1..|numeral| + 1] == numeral;
  }

  // ---------------------------------------------------------------- where flattened keys stand

  lemma {:induction false} FlattenUnder(t: Tree, prefix: string)
    ensures forall i :: 0 <= i < |Flatten(t, prefix)| ==> prefix <= Flatten(t, prefix)[i].0
    decreases t, 0, 0
  {
    FieldsUnder(t.fields, prefix);
  }

  /** The entry a flattened key belongs to. */
  ghost predicate Belongs(es: seq<Entry>, prefix: string, key: string) {
    exists j :: 0 <= j < |es| && Under(key, prefix + es[j].name)
  }

  lemma {:induction false} FieldsUnder(es: seq<Entry>, prefix: string)
    ensures forall i :: 0 <= i < |FlattenFields(es, prefix)| ==>
              prefix <= FlattenFields(es, prefix)[i].0 && Belongs(es, prefix, FlattenFields(es, prefix)[i].0)
    decreases es, 0, 0
  {
    if es != [] {
      var e := es[0];
      var name := prefix + e.name;
      NodeUnder(e.node, name);
      FieldsUnder(es[1..], prefix);
      var head, rest := FlattenNode(e.node, name), FlattenFields(es[1..], prefix);
      var all := head + rest;
      forall i | 0 <= i < |all| ensures prefix <= all[i].0 && Belongs(es, prefix, all[i].0) {
        if i < |head| {
          assert Under(head[i].0, prefix + es[0].name);
          assert prefix <= name;
        } else {
          assert Belongs(es[1..], prefix, rest[i - |head|].0);
          var j :| 0 <= j < |es[1..]| && Under(rest[i - |head|].0, prefix + es[1..][j].name);
          assert Under(all[i].0, prefix + es[j + 1].name);
        }
      }
    }
  }

  lemma {:induction false} NodeUnder(n: Node, name: string)
    ensures forall i :: 0 <= i < |FlattenNode(n, name)| ==> Under(FlattenNode(n, name)[i].0, name)
    ensures n.Sub? || n.Subs? ==> forall i :: 0 <= i < |FlattenNode(n, name)| ==> FlattenNode(n, name)[i].0 != name
    decreases n, 0, 0
  {
    match n
    case One(_) =>
    case Many(_) =>
    case Sub(message) =>
      FlattenUnder(message, name + ".");
      forall i | 0 <= i < |FlattenNode(n, name)| ensures Under(FlattenNode(n, name)[i].0, name) && FlattenNode(n, name)[i].0 != name {
        assert FlattenNode(n, name)[i] == Flatten(message, name + ".")[i];
        DotIsUnder(FlattenNode(n, name)[i].0, name);
      }
    case Subs(messages) =>
      ItemsUnder(messages, name);
      forall i | 0 <= i < |FlattenNode(n, name)| ensures Under(FlattenNode(n, name)[i].0, name) && FlattenNode(n, name)[i].0 != name {
        assert InItem(|messages|, name, FlattenItems(messages, name)[i].0);
        var j: nat :| j < |messages| && ItemPrefix(name, j) <= FlattenItems(messages, name)[i].0;
        ItemIsUnder(FlattenNode(n, name)[i].0, name, j);
      }
  }

  lemma DotIsUnder(key: string, name: string)
    requires name + "." <= key
    ensures Under(key, name) && key != name
  {
    assert key[|name|] == (name + ".")[|name|];
    assert name == (name + ".")[..|name|] == key[..|name|];
  }

  ghost predicate InItem(count: nat, name: string, key: string) {
    exists j: nat :: j < count && ItemPrefix(name, j) <= key
  }

  lemma {:induction false} ItemsUnder(messages: seq<Tree>, name: string)
    ensures forall i :: 0 <= i < |FlattenItems(messages, name)| ==> InItem(|messages|, name, FlattenItems(messages, name)[i].0)
    decreases messages, 0, 0
  {
    if messages != [] {
      var front, last := messages[..|messages| - 1], messages[|messages| - 1];
      ItemsUnder(front, name);
      FlattenUnder(last, ItemPrefix(name, |front|));
      var items := FlattenItems(front, name);
      var tail := Flatten(last, ItemPrefix(name, |front|));
      var all := FlattenItems(messages, name);
      assert all == items + tail;
      forall i | 0 <= i < |all| ensures InItem(|messages|, name, all[i].0) {
        if i < |items| {
          assert all[i] == items[i] && InItem(|front|, name, items[i].0);
          var j: nat :| j < |front| && ItemPrefix(name, j) <= items[i].0;
        } else {
          assert all[i] == tail[i - |items|];
          assert ItemPrefix(name, |front|) <= all[i].0;
        }
      }
    }
  }

  // ---------------------------------------------------------------- controls that serve a message

  /** The values hold these controls, and nothing else in their part of the form. */
  ghost predicate Holds(values: map<string, Control>, es: Controls) {
    forall i :: 0 <= i < |es| ==> es[i].0 in values && values[es[i].0] == es[i].1
  }

  ghost predicate ServesPrefix(values: map<string, Control>, prefix: string, es: Controls) {
    Holds(values, es) && forall key :: key in values && prefix <= key ==> key in Keys(es)
  }

  ghost predicate ServesName(values: map<string, Control>, name: string, es: Controls) {
    Holds(values, es) && forall key :: key in values && Under(key, name) ==> key in Keys(es)
  }

  lemma KeysSplit(a: Controls, b: Controls)
    ensures Keys(a + b) == Keys(a) + Keys(b)
  {
    var all := a + b;
    forall key | key in Keys(a) ensures key in Keys(all) {
      var i :| 0 <= i < |a| && a[i].0 == key;
      assert all[i].0 == key;
    }
    forall key | key in Keys(b) ensures key in Keys(all) {
      var i :| 0 <= i < |b| && b[i].0 == key;
      assert all[|a| + i].0 == key;
    }
  }

  lemma HoldsSplit(values: map<string, Control>, a: Controls, b: Controls)
    requires Holds(values, a + b)
    ensures Holds(values, a) && Holds(values, b)
  {
    forall i | 0 <= i < |a| ensures a[i].0 in values && values[a[i].0] == a[i].1 { assert (a + b)[i] == a[i]; }
    forall i | 0 <= i < |b| ensures b[i].0 in values && values[b[i].0] == b[i].1 { assert (a + b)[|a| + i] == b[i]; }
  }

  /** The controls of the field of this name, if the message has it. */
  ghost function PartOf(es: seq<Entry>, prefix: string, jsonName: string): Controls {
    if es == [] then []
    else if es[0].name == jsonName then FlattenNode(es[0].node, prefix + es[0].name)
    else PartOf(es[1..], prefix, jsonName)
  }

  ghost predicate SimpleNames(es: seq<Entry>) {
    forall i :: 0 <= i < |es| ==> Simple(es[i].name)
  }

  /** A flattened key under a field's name is one of that field's controls. */
  lemma {:induction false} KeyInPart(es: seq<Entry>, prefix: string, jsonName: string, key: string)
    requires SimpleNames(es) && Simple(jsonName) && DistinctNames(es)
    requires key in Keys(FlattenFields(es, prefix)) && Under(key, prefix + jsonName)
    ensures key in Keys(PartOf(es, prefix, jsonName))
    decreases |es|
  {
    hide Under, Simple;
    if es != [] {
      var head, rest := FlattenNode(es[0].node, prefix + es[0].name), FlattenFields(es[1..], prefix);
      KeysSplit(head, rest);
      if key in Keys(head) {
        NodeUnder(es[0].node, prefix + es[0].name);
        UnderOneName(key, prefix, es[0].name, jsonName);
      } else {
        KeyInRest(es, prefix, jsonName, key);
        KeyInPart(es[1..], prefix, jsonName, key);
      }
    }
  }

  ghost predicate DistinctNames(es: seq<Entry>) {
    forall i, j :: 0 <= i < j < |es| ==> es[i].name != es[j].name
  }

  /** A key of a later field is not under the first field's name. */
  lemma KeyInRest(es: seq<Entry>, prefix: string, jsonName: string, key: string)
    requires es != [] && SimpleNames(es) && Simple(jsonName) && DistinctNames(es)
    requires key in Keys(FlattenFields(es[1..], prefix)) && Under(key, prefix + jsonName)
    ensures es[0].name != jsonName
  {
    hide Under, Simple;
    var rest := FlattenFields(es[1..], prefix);
    FieldsUnder(es[1..], prefix);
    var i :| 0 <= i < |rest| && rest[i].0 == key;
    var j :| 0 <= j < |es[1..]| && Under(key, prefix + es[1..][j].name);
    UnderOneName(key, prefix, es[j + 1].name, jsonName);
  }

  lemma {:induction false} PartHolds(values: map<string, Control>, es: seq<Entry>, prefix: string, jsonName: string)
    requires Holds(values, FlattenFields(es, prefix))
    ensures Holds(values, PartOf(es, prefix, jsonName))
    decreases |es|
  {
    if es != [] {
      HoldsSplit(values, FlattenNode(es[0].node, prefix + es[0].name), FlattenFields(es[1..], prefix));
      hide Holds;
      PartHolds(values, es[1..], prefix, jsonName);
    }
  }

  /** Controls that serve a message serve each of its fields. */
  lemma PrefixServesName(values: map<string, Control>, t: Tree, prefix: string, jsonName: string)
    requires ServesPrefix(values, prefix, Flatten(t, prefix)) && SimpleNames(t.fields) && DistinctNames(t.fields) && Simple(jsonName)
    ensures ServesName(values, prefix + jsonName, PartOf(t.fields, prefix, jsonName))
  {
    hide Simple, SimpleNames, DistinctNames;
    PartHolds(values, t.fields, prefix, jsonName);
    forall key | key in values && Under(key, prefix + jsonName) ensures key in Keys(PartOf(t.fields, prefix, jsonName)) {
      assert prefix <= prefix + jsonName <= key;
      KeyInPart(t.fields, prefix, jsonName, key);
    }
  }

  // ---------------------------------------------------------------- names and keys of messages that fit

  ghost predicate NameAmong(name: string, fields: seq<Field>) {
    exists k :: 0 <= k < |fields| && fields[k].jsonName == name
  }

  ghost predicate NamesAmong(es: seq<Entry>, fields: seq<Field>) {
    forall i :: 0 <= i < |es| ==> NameAmong(es[i].name, fields)
  }

  lemma {:induction false} ConformingNames(s: Schema, fields: seq<Field>, es: seq<Entry>, depth: nat)
    requires FieldsOk(fields) && EntriesConform(s, fields, es, depth)
    ensures SimpleNames(es) && DistinctNames(es) && NamesAmong(es, fields)
    decreases |fields|
  {
    hide NodeConforms, Simple, NamesAmong, FieldsOk, SimpleNames, DistinctNames;
    if fields == [] {
      NoNames();
    } else if es != [] && es[0].name == fields[0].jsonName {
      FieldsOkRest(fields);
      ConformingNames(s, fields[1..], es[1..], depth);
      NamesWithFirst(fields, es);
    } else {
      FieldsOkRest(fields);
      ConformingNames(s, fields[1..], es, depth);
      NamesOfRest(fields, es);
    }
  }

  lemma NoNames()
    ensures SimpleNames([]) && DistinctNames([]) && NamesAmong([], [])
  {
  }

  lemma FieldsOkRest(fields: seq<Field>)
    requires FieldsOk(fields) && fields != []
    ensures FieldsOk(fields[1..])
  {
  }

  lemma NamesOfRest(fields: seq<Field>, es: seq<Entry>)
    requires fields != [] && NamesAmong(es, fields[1..])
    ensures NamesAmong(es, fields)
  {
    forall i | 0 <= i < |es| ensures NameAmong(es[i].name, fields) {
      assert NameAmong(es[i].name, fields[1..]);
      var k :| 0 <= k < |fields[1..]| && fields[1..][k].jsonName == es[i].name;
      assert fields[k + 1].jsonName == es[i].name;
    }
  }

  lemma NamesWithFirst(fields: seq<Field>, es: seq<Entry>)
    requires FieldsOk(fields) && fields != [] && es != [] && es[0].name == fields[0].jsonName
    requires SimpleNames(es[1..]) && DistinctNames(es[1..]) && NamesAmong(es[1..], fields[1..])
    ensures SimpleNames(es) && DistinctNames(es) && NamesAmong(es, fields)
  {
    hide Simple;
    var rest := es[1..];
    forall i | 0 <= i < |rest| ensures rest[i].name != fields[0].jsonName {
      assert NameAmong(rest[i].name, fields[1..]);
      var k :| 0 <= k < |fields[1..]| && fields[1..][k].jsonName == rest[i].name;
      assert fields[k + 1].jsonName == rest[i].name;
    }
    NamesOfRest(fields, rest);
    assert es == [es[0]] + rest;
    forall i | 0 <= i < |es| ensures NameAmong(es[i].name, fields) {
      if i > 0 {
        assert es[i] == rest[i - 1] && NameAmong(rest[i - 1].name, fields);
      } else {
        assert fields[0].jsonName == es[0].name;
      }
    }
  }

  lemma {:induction false} AbsentPart(es: seq<Entry>, fields: seq<Field>, prefix: string)
    requires FieldsOk(fields) && fields != [] && NamesAmong(es, fields[1..])
    ensures PartOf(es, prefix, fields[0].jsonName) == []
    decreases |es|
  {
    if es != [] {
      assert NameAmong(es[0].name, fields[1..]);
      var k :| 0 <= k < |fields[1..]| && fields[1..][k].jsonName == es[0].name;
      assert fields[1..][k] == fields[k + 1];
      AbsentPart(es[1..], fields, prefix);
    }
  }

  lemma {:induction false} MessageHasKeys(s: Schema, typeName: string, t: Tree, depth: nat, prefix: string)
    requires TreeConforms(s, typeName, t, depth) && t.fields != []
    ensures Flatten(t, prefix) != []
    decreases t, 1, 0
  {
    EntriesHaveKeys(s, FieldsOf(s, typeName), t.fields, depth, prefix);
  }

  lemma {:induction false} EntriesHaveKeys(s: Schema, fields: seq<Field>, es: seq<Entry>, depth: nat, prefix: string)
    requires EntriesConform(s, fields, es, depth) && es != []
    ensures FlattenFields(es, prefix) != []
    decreases es, |fields|, 0
  {
    if es[0].name == fields[0].jsonName {
      var e := es[0];
      NodeHasKeys(s, fields[0].shape, e.node, depth, prefix + e.name);
    } else {
      EntriesHaveKeys(s, fields[1..], es, depth, prefix);
    }
  }

  lemma {:induction false} NodeHasKeys(s: Schema, shape: Shape, n: Node, depth: nat, name: string)
    requires NodeConforms(s, shape, n, depth)
    ensures FlattenNode(n, name) != []
    decreases n, 1, 0
  {
    match n
    case One(_) =>
    case Many(_) =>
    case Sub(message) => MessageHasKeys(s, shape.typeName, message, depth + 1, name + ".");
    case Subs(messages) =>
      var last := messages[|messages| - 1];
      MessageHasKeys(s, shape.typeName, last, depth + 1, ItemPrefix(name, |messages| - 1));
  }

  // ---------------------------------------------------------------- decoding what serves

  lemma AbsentDecodes(s: Schema, field: Field, values: map<string, Control>, prefix: string, depth: nat, used: set<string>)
    requires depth <= MAX_DEPTH && ServesName(values, prefix + field.jsonName, [])
    ensures DecodeField(s, field, values, prefix, depth, used) == Ok(Decoded([], used))
  {
    var name := prefix + field.jsonName;
    forall key | key in values ensures !Under(key, name) { }
    assert name !in values;
    forall key | key in values ensures !(name + "." <= key) {
      if name + "." <= key { DotIsUnder(key, name); }
    }
    forall key | key in values ensures !(name + "[" <= key) {
      if name + "[" <= key { BracketIsUnder(key, name); }
    }
    assert ItemKeys(values, name) == {};
    assert Indices(values, name) == {};
  }

  lemma BracketIsUnder(key: string, name: string)
    requires name + "[" <= key
    ensures Under(key, name)
  {
    assert key[|name|] == (name + "[")[|name|];
    assert name == (name + "[")[..|name|] == key[..|name|];
  }

  /** The controls of a nested message serve it. */
  lemma SubServes(values: map<string, Control>, name: string, message: Tree)
    requires ServesName(values, name, Flatten(message, name + "."))
    ensures ServesPrefix(values, name + ".", Flatten(message, name + ".")) && name !in values
  {
    forall key | key in values && name + "." <= key ensures key in Keys(Flatten(message, name + ".")) {
      DotIsUnder(key, name);
    }
    if name in values {
      assert Under(name, name);
      assert FlattenNode(Sub(message), name) == Flatten(message, name + ".");
      NodeUnder(Sub(message), name);
    }
  }

  lemma {:induction false} ItemKey(messages: seq<Tree>, name: string, j: nat, key: string)
    requires key in Keys(FlattenItems(messages, name)) && ItemPrefix(name, j) <= key
    ensures j < |messages| && key in Keys(Flatten(messages[j], ItemPrefix(name, j)))
    decreases |messages|
  {
    hide ItemPrefix;
    if messages != [] {
      var front, last := messages[..|messages| - 1], messages[|messages| - 1];
      var tail := Flatten(last, ItemPrefix(name, |front|));
      KeysSplit(FlattenItems(front, name), tail);
      if key in Keys(tail) {
        FlattenUnder(last, ItemPrefix(name, |front|));
        ItemIsUnder(key, name, |front|);
        ItemIsUnder(key, name, j);
      } else {
        ItemKey(front, name, j, key);
      }
    }
  }

  lemma {:induction false} ItemHolds(values: map<string, Control>, messages: seq<Tree>, name: string, j: nat)
    requires Holds(values, FlattenItems(messages, name)) && j < |messages|
    ensures Holds(values, Flatten(messages[j], ItemPrefix(name, j)))
    decreases |messages|
  {
    hide Holds, ItemPrefix;
    var front, last := messages[..|messages| - 1], messages[|messages| - 1];
    HoldsSplit(values, FlattenItems(front, name), Flatten(last, ItemPrefix(name, |front|)));
    if j < |front| { ItemHolds(values, front, name, j); }
  }

  /** The controls of a list serve each message in it. */
  lemma {:induction false} ItemServes(values: map<string, Control>, messages: seq<Tree>, name: string, j: nat)
    requires ServesName(values, name, FlattenItems(messages, name)) && j < |messages|
    ensures ServesPrefix(values, ItemPrefix(name, j), Flatten(messages[j], ItemPrefix(name, j)))
  {
    ItemHolds(values, messages, name, j);
    forall key | key in values && ItemPrefix(name, j) <= key ensures key in Keys(Flatten(messages[j], ItemPrefix(name, j))) {
      ItemIsUnder(key, name, j);
      ItemKey(messages, name, j, key);
    }
  }

  /** The indices found among the keys are exactly those of the list. */
  lemma IndicesServe(s: Schema, typeName: string, values: map<string, Control>, messages: seq<Tree>, name: string, depth: nat)
    requires ServesName(values, name, FlattenItems(messages, name))
    requires forall j :: 0 <= j < |messages| ==> messages[j].fields != [] && TreeConforms(s, typeName, messages[j], depth)
    ensures name !in values && IndicesParse(values, name) && Indices(values, name) == Below(|messages|)
  {
    hide TreeConforms, ItemPrefix;
    ItemsUnder(messages, name);
    var es := FlattenItems(messages, name);
    if name in values {
      assert Under(name, name);
      assert FlattenNode(Subs(messages), name) == es;
      NodeUnder(Subs(messages), name);
    }
    forall key | key in ItemKeys(values, name)
      ensures ParseIndex(key[|name|..]).Some? && ParseIndex(key[|name|..]).value in Below(|messages|)
    {
      BracketIsUnder(key, name);
      var i :| 0 <= i < |es| && es[i].0 == key;
      assert InItem(|messages|, name, es[i].0);
      var j: nat :| j < |messages| && ItemPrefix(name, j) <= key;
      ItemIsUnder(key, name, j);
    }
    forall j: nat | j < |messages| ensures j in Indices(values, name) {
      ItemServes(values, messages, name, j);
      MessageHasKeys(s, typeName, messages[j], depth, ItemPrefix(name, j));
      FlattenUnder(messages[j], ItemPrefix(name, j));
      var key := Flatten(messages[j], ItemPrefix(name, j))[0].0;
      ItemIsUnder(key, name, j);
      assert key in ItemKeys(values, name);
    }
  }

  lemma {:induction false} MessageDecodes(s: Schema, typeName: string, values: map<string, Control>, prefix: string, depth: nat, used: set<string>, t: Tree)
    requires SchemaOk(s) && TreeConforms(s, typeName, t, depth) && ServesPrefix(values, prefix, Flatten(t, prefix))
    ensures DecodeMessage(s, typeName, values, prefix, depth, used) == Ok(Decoded(t.fields, used + Keys(Flatten(t, prefix))))
    decreases t, 0, 0
  {
    var fields := FieldsOf(s, typeName);
    assert FieldsOk(fields);
    ConformingNames(s, fields, t.fields, depth);
    hide EntriesConform, ServesPrefix, ServesName, FieldsOk, SimpleNames, DistinctNames, NamesAmong;
    forall i | 0 <= i < |fields| ensures ServesName(values, prefix + fields[i].jsonName, PartOf(t.fields, prefix, fields[i].jsonName)) {
      SimpleField(fields, i);
      PrefixServesName(values, t, prefix, fields[i].jsonName);
    }
    FieldsDecode(s, fields, values, prefix, depth, used, t.fields);
  }

  lemma SimpleField(fields: seq<Field>, i: nat)
    requires FieldsOk(fields) && i < |fields|
    ensures Simple(fields[i].jsonName)
  {
  }

  lemma {:induction false} FieldsDecode(s: Schema, fields: seq<Field>, values: map<string, Control>, prefix: string, depth: nat, used: set<string>, es: seq<Entry>)
    requires SchemaOk(s) && FieldsOk(fields) && EntriesConform(s, fields, es, depth) && depth <= MAX_DEPTH
    requires forall i :: 0 <= i < |fields| ==> ServesName(values, prefix + fields[i].jsonName, PartOf(es, prefix, fields[i].jsonName))
    ensures DecodeFields(s, fields, values, prefix, depth, used) == Ok(Decoded(es, used + Keys(FlattenFields(es, prefix))))
    decreases es, |fields|, 0
  {
    hide ServesName, NodeConforms, DecodeField, Simple;
    if fields != [] {
      var more := fields[1..];
      assert FieldsOk(more);
      if es != [] && es[0].name == fields[0].jsonName {
        var e := es[0];
        NodeDecodes(s, fields[0], values, prefix, depth, used, e.node);
        forall i | 0 <= i < |more| ensures ServesName(values, prefix + more[i].jsonName, PartOf(es[1..], prefix, more[i].jsonName)) {
          assert more[i] == fields[i + 1];
        }
        var head := FlattenNode(e.node, prefix + e.name);
        FieldsDecode(s, more, values, prefix, depth, used + Keys(head), es[1..]);
        KeysSplit(head, FlattenFields(es[1..], prefix));
        assert es == [Entry(e.name, e.node)] + es[1..];
        assert used + Keys(head) + Keys(FlattenFields(es[1..], prefix)) == used + Keys(FlattenFields(es, prefix));
      } else {
        ConformingNames(s, more, es, depth);
        AbsentPart(es, fields, prefix);
        AbsentDecodes(s, fields[0], values, prefix, depth, used);
        forall i | 0 <= i < |more| ensures ServesName(values, prefix + more[i].jsonName, PartOf(es, prefix, more[i].jsonName)) {
          assert more[i] == fields[i + 1];
        }
        FieldsDecode(s, more, values, prefix, depth, used, es);
        assert [] + es == es;
      }
    } else {
      assert used + Keys([]) == used;
    }
  }

  lemma {:induction false} NodeDecodes(s: Schema, field: Field, values: map<string, Control>, prefix: string, depth: nat, used: set<string>, n: Node)
    requires SchemaOk(s) && NodeConforms(s, field.shape, n, depth) && depth <= MAX_DEPTH
    requires ServesName(values, prefix + field.jsonName, FlattenNode(n, prefix + field.jsonName))
    ensures DecodeField(s, field, values, prefix, depth, used)
         == Ok(Decoded([Entry(field.jsonName, n)], used + Keys(FlattenNode(n, prefix + field.jsonName))))
    decreases n, 0, 0
  {
    hide TreeConforms, SchemaOk, DecodeMessage;
    var name := prefix + field.jsonName;
    match n
    case One(text) =>
      assert FlattenNode(n, name)[0] == (name, Text(text));
      assert Keys(FlattenNode(n, name)) == {name};
    case Many(texts) =>
      assert FlattenNode(n, name)[0] == (name, List(texts));
      assert Keys(FlattenNode(n, name)) == {name};
    case Sub(message) =>
      SubServes(values, name, message);
      MessageHasKeys(s, field.shape.typeName, message, depth + 1, name + ".");
      FlattenUnder(message, name + ".");
      assert Flatten(message, name + ".")[0].0 in values;
      MessageDecodes(s, field.shape.typeName, values, name + ".", depth + 1, used, message);
    case Subs(messages) =>
      IndicesServe(s, field.shape.typeName, values, messages, name, depth + 1);
      ItemsDecode(s, field.shape.typeName, values, name, depth, messages, |messages|, used);
      assert messages[..|messages|] == messages;
  }

  lemma {:induction false} ItemsDecode(s: Schema, typeName: string, values: map<string, Control>, name: string, depth: nat, messages: seq<Tree>, k: nat, used: set<string>)
    requires SchemaOk(s) && depth <= MAX_DEPTH && k <= |messages|
    requires forall j :: 0 <= j < |messages| ==> TreeConforms(s, typeName, messages[j], depth + 1)
    requires ServesName(values, name, FlattenItems(messages, name))
    requires IndicesParse(values, name) && Indices(values, name) == Below(|messages|)
    ensures DecodeItems(s, typeName, values, name, depth, k, used)
         == Ok((messages[..k], used + Keys(FlattenItems(messages[..k], name))))
    decreases messages, k, 0
  {
    hide TreeConforms, SchemaOk, DecodeMessage, ServesName, ServesPrefix, ItemPrefix, Indices, Flatten, FlattenItems, Keys;
    if k == 0 {
      NoItemKeys(name);
      assert used + Keys(FlattenItems(messages[..0], name)) == used;
    } else {
      var prefix := ItemPrefix(name, k - 1);
      var last := messages[k - 1];
      ItemsDecode(s, typeName, values, name, depth, messages, k - 1, used);
      ItemServes(values, messages, name, k - 1);
      var after := used + Keys(FlattenItems(messages[..k - 1], name));
      MessageDecodes(s, typeName, values, prefix, depth + 1, after, last);
      FlattenItemsStep(messages, k, name);
      KeysSplit(FlattenItems(messages[..k - 1], name), Flatten(last, prefix));
      assert messages[..k] == messages[..k - 1] + [last];
      assert after + Keys(Flatten(last, prefix)) == used + Keys(FlattenItems(messages[..k], name));
    }
  }

  lemma NoItemKeys(name: string)
    ensures Keys(FlattenItems([], name)) == {}
  {
  }

  lemma FlattenItemsStep(messages: seq<Tree>, k: nat, name: string)
    requires 0 < k <= |messages|
    ensures FlattenItems(messages[..k], name) == FlattenItems(messages[..k - 1], name) + Flatten(messages[k - 1], ItemPrefix(name, k - 1))
  {
    assert messages[..k][..k - 1] == messages[..k - 1];
  }

  // ---------------------------------------------------------------- the whole form

  ghost predicate DistinctKeys(es: Controls) {
    forall i, j :: 0 <= i < j < |es| ==> es[i].0 != es[j].0
  }

  lemma DistinctJoin(a: Controls, b: Controls)
    requires DistinctKeys(a) && DistinctKeys(b) && Keys(a) !! Keys(b)
    ensures DistinctKeys(a + b)
  {
    forall i, j | 0 <= i < |a| && 0 <= j < |b| ensures a[i].0 != b[j].0 {
      assert a[i].0 in Keys(a) && b[j].0 in Keys(b);
    }
  }

  lemma {:induction false} MessageKeysDistinct(s: Schema, typeName: string, t: Tree, depth: nat, prefix: string)
    requires SchemaOk(s) && TreeConforms(s, typeName, t, depth)
    ensures DistinctKeys(Flatten(t, prefix))
    decreases t, 1, 0
  {
    assert FieldsOk(FieldsOf(s, typeName));
    EntryKeysDistinct(s, FieldsOf(s, typeName), t.fields, depth, prefix);
  }

  lemma {:induction false} EntryKeysDistinct(s: Schema, fields: seq<Field>, es: seq<Entry>, depth: nat, prefix: string)
    requires SchemaOk(s) && FieldsOk(fields) && EntriesConform(s, fields, es, depth)
    ensures DistinctKeys(FlattenFields(es, prefix))
    decreases es, |fields|, 0
  {
    hide SchemaOk, NodeConforms, DistinctKeys;
    if fields == [] {
      assert FlattenFields(es, prefix) == [];
      NoKeys();
    } else if es != [] && es[0].name == fields[0].jsonName {
      var e := es[0];
      FieldsOkRest(fields);
      NodeKeysDistinct(s, fields[0].shape, e.node, depth, prefix + e.name);
      EntryKeysDistinct(s, fields[1..], es[1..], depth, prefix);
      ConformingNames(s, fields, es, depth);
      var head, rest := FlattenNode(e.node, prefix + e.name), FlattenFields(es[1..], prefix);
      forall key | key in Keys(head) && key in Keys(rest) ensures false {
        NodeUnder(e.node, prefix + e.name);
        KeyInRest(es, prefix, e.name, key);
      }
      DistinctJoin(head, rest);
    } else {
      FieldsOkRest(fields);
      EntryKeysDistinct(s, fields[1..], es, depth, prefix);
    }
  }

  lemma NoKeys()
    ensures DistinctKeys([])
  {
  }

  lemma {:induction false} NodeKeysDistinct(s: Schema, shape: Shape, n: Node, depth: nat, name: string)
    requires SchemaOk(s) && NodeConforms(s, shape, n, depth)
    ensures DistinctKeys(FlattenNode(n, name))
    decreases n, 1, 0
  {
    match n
    case One(_) =>
    case Many(_) =>
    case Sub(message) => MessageKeysDistinct(s, shape.typeName, message, depth + 1, name + ".");
    case Subs(messages) => ItemKeysDistinct(s, shape.typeName, messages, depth + 1, name);
  }

  lemma {:induction false} ItemKeysDistinct(s: Schema, typeName: string, messages: seq<Tree>, depth: nat, name: string)
    requires SchemaOk(s) && forall j :: 0 <= j < |messages| ==> TreeConforms(s, typeName, messages[j], depth)
    ensures DistinctKeys(FlattenItems(messages, name))
    decreases messages, 1, 0
  {
    hide SchemaOk, TreeConforms, DistinctKeys, ItemPrefix;
    if messages == [] {
      NoKeys();
    } else {
      var front, last := messages[..|messages| - 1], messages[|messages| - 1];
      ItemKeysDistinct(s, typeName, front, depth, name);
      MessageKeysDistinct(s, typeName, last, depth, ItemPrefix(name, |front|));
      var items, tail := FlattenItems(front, name), Flatten(last, ItemPrefix(name, |front|));
      forall key | key in Keys(items) && key in Keys(tail) ensures false {
        FlattenUnder(last, ItemPrefix(name, |front|));
        ItemKey(front, name, |front|, key);
      }
      DistinctJoin(items, tail);
    }
  }

  /** The controls of a form as its raw input. */
  ghost function AsInput(es: Controls): seq<(string, Input)> {
    seq(|es|, i requires 0 <= i < |es| => (es[i].0, Input.Control(es[i].1)))
  }

  lemma {:induction false} InputHolds(es: Controls)
    requires DistinctKeys(es)
    ensures Holds(ValuesOf(AsInput(es)), es) && ValuesOf(AsInput(es)).Keys == Keys(es)
  {
    if es != [] {
      var front, last := es[..|es| - 1], es[|es| - 1];
      assert AsInput(es)[..|es| - 1] == AsInput(front);
      InputHolds(front);
      KeysSplit(front, [last]);
      assert es == front + [last];
      assert Keys([last]) == {last.0} by { assert [last][0].0 == last.0; }
      forall i | 0 <= i < |front| ensures front[i].0 != last.0 { assert es[i].0 != es[|es| - 1].0; }
    }
  }

  lemma {:induction false} NothingMalformed(es: Controls)
    ensures FirstMalformed(AsInput(es)).None?
    decreases |es|
  {
    if es != [] {
      assert AsInput(es)[1..] == AsInput(es[1..]);
      NothingMalformed(es[1..]);
    }
  }

  lemma {:induction false} NothingUnused(es: Controls, used: set<string>)
    requires forall i :: 0 <= i < |es| ==> es[i].0 in used
    ensures FirstUnused(AsInput(es), used).None?
    decreases |es|
  {
    if es != [] {
      assert AsInput(es)[1..] == AsInput(es[1..]);
      NothingUnused(es[1..], used);
    }
  }

  /**
   A message that fits its type, nested at most 32 deep and with at most 1000 items to a list, survives
   the form: decoding the controls it is flattened to, at most 1000, gives it back.
   */
  lemma RoundTrip(s: Schema, typeName: string, t: Tree)
    requires SchemaOk(s) && TreeConforms(s, typeName, t, 0) && |Flatten(t, "")| <= MAX_ITEMS
    ensures DecodeForm(s, typeName, AsInput(Flatten(t, ""))) == Ok(t)
  {
    hide SchemaOk, TreeConforms, DecodeMessage, Holds, DistinctKeys;
    var es := Flatten(t, "");
    MessageKeysDistinct(s, typeName, t, 0, "");
    InputHolds(es);
    NothingMalformed(es);
    var values := ValuesOf(AsInput(es));
    assert ServesPrefix(values, "", es);
    MessageDecodes(s, typeName, values, "", 0, {}, t);
    assert {} + Keys(es) == Keys(es);
    NothingUnused(es, Keys(es));
  }

  // ---------------------------------------------------------------- list indices

  /** A message list is accepted only when its indices are exactly `0..n`, and at most 1000 of them. */
  lemma ListIndicesAreExact(s: Schema, field: Field, values: map<string, Control>, prefix: string, depth: nat, used: set<string>)
    requires depth <= MAX_DEPTH && field.shape.MessageList?
    requires DecodeField(s, field, values, prefix, depth, used).Ok?
    ensures var name := prefix + field.jsonName;
            && IndicesParse(values, name)
            && Indices(values, name) == Below(|Indices(values, name)|)
            && |Indices(values, name)| <= MAX_ITEMS
            && var fields := DecodeField(s, field, values, prefix, depth, used).value.fields;
               if Indices(values, name) == {} then fields == []
               else |fields| == 1 && fields[0].node.Subs? && |fields[0].node.messages| == |Indices(values, name)|
  {
    var name := prefix + field.jsonName;
    var count := |Indices(values, name)|;
    var marked := if name in values then used + {name} else used;
    if count > 0 {
      ItemsNeedIndices(s, field.shape.typeName, values, name, depth, count, marked);
      assert Below(count) <= Indices(values, name);
      if Below(count) < Indices(values, name) { ProperSubsetSize(Below(count), Indices(values, name)); }
    }
  }

  lemma {:induction false} ItemsNeedIndices(s: Schema, typeName: string, values: map<string, Control>, name: string, depth: nat, count: nat, used: set<string>)
    requires depth <= MAX_DEPTH && IndicesParse(values, name)
    requires DecodeItems(s, typeName, values, name, depth, count, used).Ok?
    ensures forall i: nat :: i < count ==> i in Indices(values, name)
    ensures |DecodeItems(s, typeName, values, name, depth, count, used).value.0| == count
    decreases count
  {
    hide Indices, DecodeMessage;
    if count > 0 { ItemsNeedIndices(s, typeName, values, name, depth, count - 1, used); }
  }

  // ---------------------------------------------------------------- control names

  /** The paths of a message's controls, in the order of the controls. */
  ghost function Paths(t: Tree, path: seq<Part>): seq<seq<Part>>
    decreases t, 0, 0
  {
    FieldPaths(t.fields, path)
  }

  ghost function FieldPaths(es: seq<Entry>, path: seq<Part>): seq<seq<Part>>
    decreases es, 0, 0
  {
    if es == [] then []
    else
      var e := es[0];
      NodePaths(e.node, path + [FieldPart(e.name)]) + FieldPaths(es[1..], path)
  }

  ghost function NodePaths(n: Node, path: seq<Part>): seq<seq<Part>>
    decreases n, 0, 0
  {
    match n
    case One(_) => [path]
    case Many(_) => [path]
    case Sub(message) => Paths(message, path)
    case Subs(messages) => ItemPaths(messages, path)
  }

  ghost function ItemPaths(messages: seq<Tree>, path: seq<Part>): seq<seq<Part>>
    decreases messages, 0, 0
  {
    if messages == [] then []
    else ItemPaths(messages[..|messages| - 1], path) + Paths(messages[|messages| - 1], path + [ListPart(|messages| - 1)])
  }

  /** What stands in front of a field's name inside the message at `path`. */
  ghost function PrefixAt(path: seq<Part>): string {
    if ControlName(path) == "" then "" else ControlName(path) + "."
  }

  ghost predicate Named(es: Controls, paths: seq<seq<Part>>) {
    |es| == |paths| && forall i :: 0 <= i < |es| ==> es[i].0 == ControlName(paths[i])
  }

  lemma NamedJoin(a: Controls, b: Controls, p: seq<seq<Part>>, q: seq<seq<Part>>)
    requires Named(a, p) && Named(b, q)
    ensures Named(a + b, p + q)
  {
  }

  lemma NameOfField(path: seq<Part>, name: string)
    ensures ControlName(path + [FieldPart(name)]) == PrefixAt(path) + name
  {
    assert (path + [FieldPart(name)])[..|path|] == path;
  }

  lemma NameOfItem(path: seq<Part>, index: nat)
    ensures ControlName(path + [ListPart(index)]) == ControlName(path) + "[" + Render(index) + "]"
    ensures PrefixAt(path + [ListPart(index)]) == ItemPrefix(ControlName(path), index)
  {
    assert (path + [ListPart(index)])[..|path|] == path;
  }

  /** Names of every field at any depth are nonempty. */
  predicate NamesNonEmpty(t: Tree)
    decreases t, 0
  {
    forall i :: 0 <= i < |t.fields| ==>
      var e := t.fields[i];
      e.name != "" && NodeNamesNonEmpty(e.node)
  }

  predicate NodeNamesNonEmpty(n: Node)
    decreases n, 0
  {
    match n
    case Sub(message) => NamesNonEmpty(message)
    case Subs(messages) => forall i :: 0 <= i < |messages| ==> NamesNonEmpty(messages[i])
    case _ => true
  }

  /** The flattened keys are the names controls carry: each is `controlName` of its path. */
  lemma {:induction false} FlattenUsesControlNames(t: Tree, path: seq<Part>)
    requires NamesNonEmpty(t)
    ensures Named(Flatten(t, PrefixAt(path)), Paths(t, path))
    decreases t, 0, 0
  {
    FieldsNamed(t.fields, path);
  }

  lemma {:induction false} FieldsNamed(es: seq<Entry>, path: seq<Part>)
    requires forall i :: 0 <= i < |es| ==> es[i].name != "" && NodeNamesNonEmpty(es[i].node)
    ensures Named(FlattenFields(es, PrefixAt(path)), FieldPaths(es, path))
    decreases es, 0, 0
  {
    hide ControlName, PrefixAt, Named, NodeNamesNonEmpty;
    if es == [] {
      assert Named([], []) by { NothingNamed(); }
    } else {
      var e := es[0];
      NameOfField(path, e.name);
      NodeNamed(e.node, path + [FieldPart(e.name)]);
      FieldsNamed(es[1..], path);
      NamedJoin(FlattenNode(e.node, PrefixAt(path) + e.name), FlattenFields(es[1..], PrefixAt(path)),
                NodePaths(e.node, path + [FieldPart(e.name)]), FieldPaths(es[1..], path));
    }
  }

  lemma NothingNamed()
    ensures Named([], [])
  {
  }

  lemma {:induction false} NodeNamed(n: Node, path: seq<Part>)
    requires NodeNamesNonEmpty(n) && ControlName(path) != ""
    ensures Named(FlattenNode(n, ControlName(path)), NodePaths(n, path))
    decreases n, 0, 0
  {
    match n
    case One(_) =>
    case Many(_) =>
    case Sub(message) => FlattenUsesControlNames(message, path);
    case Subs(messages) => ItemsNamed(messages, path);
  }

  lemma {:induction false} ItemsNamed(messages: seq<Tree>, path: seq<Part>)
    requires forall i :: 0 <= i < |messages| ==> NamesNonEmpty(messages[i])
    ensures Named(FlattenItems(messages, ControlName(path)), ItemPaths(messages, path))
    decreases messages, 0, 0
  {
    hide ControlName, PrefixAt, Named, NamesNonEmpty, ItemPrefix;
    if messages == [] {
      NothingNamed();
    } else {
      var front, last := messages[..|messages| - 1], messages[|messages| - 1];
      ItemsNamed(front, path);
      NameOfItem(path, |front|);
      FlattenUsesControlNames(last, path + [ListPart(|front|)]);
      NamedJoin(FlattenItems(front, ControlName(path)), Flatten(last, ItemPrefix(ControlName(path), |front|)),
                ItemPaths(front, path), Paths(last, path + [ListPart(|front|)]));
    }
  }
}

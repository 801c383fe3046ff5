/**
 Where the message of an accepted form comes from: every leaf of it is a control of the form under the
 leaf's own name, and every control of the form is such a leaf or one of the two kinds that are ignored.
 `FormRoundTrip` is the other direction.
 */
module FormOrigins {
  import opened FormValues

  // ---------------------------------------------------------------- leaves and controls

  /** The form holds this leaf: under the same name, a single text standing for a list of one. */
  predicate Carries(values: map<string, Control>, leaf: (string, Control)) {
    && leaf.0 in values
    && (values[leaf.0] == leaf.1 || (values[leaf.0].Text? && leaf.1 == List([values[leaf.0].text])))
  }

  ghost predicate FromControls(values: map<string, Control>, leaves: seq<(string, Control)>) {
    forall i :: 0 <= i < |leaves| ==> Carries(values, leaves[i])
  }

  ghost predicate Named(leaves: seq<(string, Control)>, key: string) {
    exists i :: 0 <= i < |leaves| && leaves[i].0 == key
  }

  /** An empty text may leave its field unset, and a control named like a nested message says nothing. */
  ghost predicate Ignored(values: map<string, Control>, key: string) {
    key in values && (values[key] == Text("") || HasKeysUnder(values, key + "."))
  }

  /** Every key marked since `before` is the name of a leaf, or ignored. */
  ghost predicate Accounted(values: map<string, Control>, before: set<string>, after: set<string>, leaves: seq<(string, Control)>) {
    forall key :: key in after ==> key in before || Named(leaves, key) || Ignored(values, key)
  }

  /** What decoding promises of the leaves it found and the keys it marked. */
  ghost predicate Sourced(values: map<string, Control>, before: set<string>, after: set<string>, leaves: seq<(string, Control)>) {
    FromControls(values, leaves) && Accounted(values, before, after, leaves)
  }

  lemma SourcedNothing(values: map<string, Control>, used: set<string>)
    ensures Sourced(values, used, used, [])
  {
  }

  lemma SourcedThen(values: map<string, Control>, a: set<string>, b: set<string>, c: set<string>,
                    first: seq<(string, Control)>, rest: seq<(string, Control)>)
    requires Sourced(values, a, b, first) && Sourced(values, b, c, rest)
    ensures Sourced(values, a, c, first + rest)
  {
    hide Ignored, Carries;
    var all := first + rest;
    forall key | Named(first, key) || Named(rest, key) ensures Named(all, key) {
      if Named(first, key) {
        var i :| 0 <= i < |first| && first[i].0 == key;
        assert all[i].0 == key;
      } else {
        var i :| 0 <= i < |rest| && rest[i].0 == key;
        assert all[|first| + i].0 == key;
      }
    }
  }

  lemma SourcedLeaf(values: map<string, Control>, used: set<string>, leaf: (string, Control))
    requires Carries(values, leaf)
    ensures Sourced(values, used, used + {leaf.0}, [leaf])
  {
    hide Ignored;
    assert [leaf][0].0 == leaf.0;
  }

  lemma SourcedIgnored(values: map<string, Control>, used: set<string>, key: string)
    requires Ignored(values, key)
    ensures Sourced(values, used, used + {key}, [])
  {
  }

  lemma FlattenMore(entry: Entry, rest: seq<Entry>, prefix: string)
    ensures FlattenFields([entry] + rest, prefix) == FlattenNode(entry.node, prefix + entry.name) + FlattenFields(rest, prefix)
  {
    assert ([entry] + rest)[1..] == rest;
  }

  lemma FlattenOne(entry: Entry, prefix: string)
    ensures FlattenFields([entry], prefix) == FlattenNode(entry.node, prefix + entry.name)
  {
    assert [entry][1..] == [];
    assert FlattenFields([], prefix) == [];
  }

  lemma FlattenJoins(a: seq<Entry>, b: seq<Entry>, prefix: string)
    requires |a| <= 1
    ensures FlattenFields(a + b, prefix) == FlattenFields(a, prefix) + FlattenFields(b, prefix)
  {
    hide FlattenNode;
    if a == [] {
      assert a + b == b && FlattenFields([], prefix) == [];
    } else {
      assert a == [a[0]];
      FlattenMore(a[0], b, prefix);
      FlattenOne(a[0], prefix);
    }
  }

  // ---------------------------------------------------------------- decoding

  lemma {:induction false} MessageIsSourced(s: Schema, typeName: string, values: map<string, Control>, prefix: string, depth: nat, used: set<string>)
    requires DecodeMessage(s, typeName, values, prefix, depth, used).Ok?
    ensures var d := DecodeMessage(s, typeName, values, prefix, depth, used).value;
            Sourced(values, used, d.used, Flatten(Tree(d.fields), prefix))
    decreases Budget(depth), 2, 0
  {
    hide Sourced;
    FieldsAreSourced(s, FieldsOf(s, typeName), values, prefix, depth, used);
  }

  lemma {:induction false} FieldsAreSourced(s: Schema, fields: seq<Field>, values: map<string, Control>, prefix: string, depth: nat, used: set<string>)
    requires depth <= MAX_DEPTH && DecodeFields(s, fields, values, prefix, depth, used).Ok?
    ensures var d := DecodeFields(s, fields, values, prefix, depth, used).value;
            Sourced(values, used, d.used, FlattenFields(d.fields, prefix))
    decreases Budget(depth), 1, |fields|
  {
    hide Sourced, DecodeField, FlattenNode;
    if fields == [] {
      SourcedNothing(values, used);
    } else {
      var first := DecodeField(s, fields[0], values, prefix, depth, used).value;
      var rest := DecodeFields(s, fields[1..], values, prefix, depth, first.used).value;
      FieldIsSourced(s, fields[0], values, prefix, depth, used);
      FieldsAreSourced(s, fields[1..], values, prefix, depth, first.used);
      SourcedThen(values, used, first.used, rest.used, FlattenFields(first.fields, prefix), FlattenFields(rest.fields, prefix));
      FlattenJoins(first.fields, rest.fields, prefix);
    }
  }

  lemma {:induction false} FieldIsSourced(s: Schema, field: Field, values: map<string, Control>, prefix: string, depth: nat, used: set<string>)
    requires depth <= MAX_DEPTH && DecodeField(s, field, values, prefix, depth, used).Ok?
    ensures var d := DecodeField(s, field, values, prefix, depth, used).value;
            |d.fields| <= 1 && Sourced(values, used, d.used, FlattenFields(d.fields, prefix))
    decreases Budget(depth), 1, 0
  {
    hide Sourced, DecodeMessage, DecodeItems, Ignored, HasKeysUnder, Indices, IndicesParse, FlattenNode;
    var name := prefix + field.jsonName;
    var marked := if name in values then used + {name} else used;
    var d := DecodeField(s, field, values, prefix, depth, used).value;
    SourcedNothing(values, used);
    match field.shape
    case SubMessage(typeName) =>
      if HasKeysUnder(values, name + ".") {
        NestedIsSourced(s, typeName, field.jsonName, values, prefix, depth, used);
      }
    case MessageList(typeName) =>
      if d.fields != [] {
        var count := |Indices(values, name)|;
        var messages := DecodeItems(s, typeName, values, name, depth, count, used).value.0;
        ItemsAreSourced(s, typeName, values, name, depth, count, used);
        FlattenOne(Entry(field.jsonName, Subs(messages)), prefix);
        FlattenSubs(messages, name);
      }
    case MapField =>
    case ScalarList =>
      if name in values {
        var list := if values[name].Text? then [values[name].text] else values[name].texts;
        SourcedLeaf(values, used, (name, List(list)));
        FlattenOne(Entry(field.jsonName, Many(list)), prefix);
        FlattenLeaf(name, Many(list));
      }
    case Scalar(emptyUnset) =>
      if name in values {
        ScalarIsSourced(values, used, name, values[name].text);
        FlattenOne(Entry(field.jsonName, One(values[name].text)), prefix);
        FlattenLeaf(name, One(values[name].text));
      }
  }

  lemma FlattenLeaf(name: string, n: Node)
    requires n.One? || n.Many?
    ensures FlattenNode(n, name) == [(name, if n.One? then Text(n.text) else List(n.texts))]
  {
  }

  lemma FlattenSubs(messages: seq<Tree>, name: string)
    ensures FlattenNode(Subs(messages), name) == FlattenItems(messages, name)
  {
  }

  /** A scalar's control is its leaf, or empty and left unset. */
  lemma ScalarIsSourced(values: map<string, Control>, used: set<string>, name: string, text: string)
    requires name in values && values[name] == Text(text)
    ensures Sourced(values, used, used + {name}, [(name, Text(text))])
    ensures text == "" ==> Sourced(values, used, used + {name}, [])
  {
    hide Sourced;
    SourcedLeaf(values, used, (name, Text(text)));
    if text == "" { SourcedIgnored(values, used, name); }
  }

  /** A nested message, whose own name may be marked as well. */
  lemma {:induction false} NestedIsSourced(s: Schema, typeName: string, jsonName: string, values: map<string, Control>, prefix: string, depth: nat, used: set<string>)
    requires var name := prefix + jsonName;
             var marked := if name in values then used + {name} else used;
             && depth <= MAX_DEPTH && HasKeysUnder(values, name + ".")
             && DecodeMessage(s, typeName, values, name + ".", depth + 1, marked).Ok?
    ensures var name := prefix + jsonName;
            var marked := if name in values then used + {name} else used;
            var m := DecodeMessage(s, typeName, values, name + ".", depth + 1, marked).value;
            Sourced(values, used, m.used, FlattenFields([Entry(jsonName, Sub(Tree(m.fields)))], prefix))
    decreases Budget(depth), 0, 0
  {
    hide Sourced, DecodeMessage, HasKeysUnder;
    var name := prefix + jsonName;
    var marked := if name in values then used + {name} else used;
    var m := DecodeMessage(s, typeName, values, name + ".", depth + 1, marked).value;
    var leaves := Flatten(Tree(m.fields), name + ".");
    MessageIsSourced(s, typeName, values, name + ".", depth + 1, marked);
    if name in values { SourcedIgnored(values, used, name); } else { SourcedNothing(values, used); }
    SourcedThen(values, used, marked, m.used, [], leaves);
    assert [] + leaves == leaves;
    FlattenOne(Entry(jsonName, Sub(Tree(m.fields))), prefix);
  }

  lemma {:induction false} ItemsAreSourced(s: Schema, typeName: string, values: map<string, Control>, name: string, depth: nat, count: nat, used: set<string>)
    requires depth <= MAX_DEPTH && IndicesParse(values, name) && DecodeItems(s, typeName, values, name, depth, count, used).Ok?
    ensures var (messages, after) := DecodeItems(s, typeName, values, name, depth, count, used).value;
            |messages| == count && Sourced(values, used, after, FlattenItems(messages, name))
    decreases Budget(depth), 0, count
  {
    hide Sourced, DecodeMessage, IndicesParse, Indices;
    if count == 0 {
      SourcedNothing(values, used);
    } else {
      var (messages, after) := DecodeItems(s, typeName, values, name, depth, count - 1, used).value;
      var m := DecodeMessage(s, typeName, values, ItemPrefix(name, count - 1), depth + 1, after).value;
      ItemsAreSourced(s, typeName, values, name, depth, count - 1, used);
      MessageIsSourced(s, typeName, values, ItemPrefix(name, count - 1), depth + 1, after);
      SourcedThen(values, used, after, m.used, FlattenItems(messages, name), Flatten(Tree(m.fields), ItemPrefix(name, count - 1)));
      assert (messages + [Tree(m.fields)])[..|messages|] == messages;
    }
  }

  // ---------------------------------------------------------------- accepted forms

  lemma {:induction false} NothingUnused(input: seq<(string, Input)>, used: set<string>)
    requires FirstUnused(input, used).None?
    ensures forall i :: 0 <= i < |input| ==> input[i].0 in used
  {
    if input != [] {
      NothingUnused(input[1..], used);
      assert forall i :: 0 < i < |input| ==> input[i] == input[1..][i - 1];
    }
  }

  /**
   A form that is accepted decodes to a message whose leaves are controls of the form, each under the name
   that the leaf has in the message; and every control of the form is such a leaf, or an empty text, or
   named like a nested message that other controls fill.
   */
  lemma AcceptedFormIsItsMessage(s: Schema, typeName: string, input: seq<(string, Input)>)
    requires DecodeForm(s, typeName, input).Ok?
    ensures var leaves := Flatten(DecodeForm(s, typeName, input).value, "");
            var values := ValuesOf(input);
            && (forall i :: 0 <= i < |leaves| ==> Carries(values, leaves[i]))
            && (forall i :: 0 <= i < |input| ==> Named(leaves, input[i].0) || Ignored(values, input[i].0))
  {
    hide Ignored, Carries, Named, DecodeMessage, ValuesOf;
    var values := ValuesOf(input);
    MessageIsSourced(s, typeName, values, "", 0, {});
    NothingUnused(input, DecodeMessage(s, typeName, values, "", 0, {}).value.used);
  }
}

/**
 Which forms are accepted and what they decode to, told from the controls alone: `FormIsAcceptedExactly`
 holds of every form, and the theorems about single controls follow from it.
 */
module FormAcceptance {
  import opened Decimal
  import opened FiniteSets
  import opened FormRoundTrip
  import opened FormValues
  import opened Outcomes

  // ---------------------------------------------------------------- forms that fit a message type

  predicate HasItem(values: map<string, Control>, name: string, i: nat) {
    HasKeysUnder(values, ItemPrefix(name, i))
  }

  /** Every control behind `name[` stands inside an item, and the items present are the first `count`. */
  ghost predicate ItemsAre(values: map<string, Control>, name: string, count: nat) {
    && (forall key :: key in values && name + "[" <= key ==> InSomeItem(name, key))
    && (forall i: nat :: HasItem(values, name, i) <==> i < count)
  }

  ghost predicate InSomeItem(name: string, key: string) {
    exists i: nat :: ItemPrefix(name, i) <= key
  }

  ghost predicate FewItems(values: map<string, Control>, name: string) {
    exists count: nat :: count <= MAX_ITEMS && ItemsAre(values, name, count)
  }

  /** No control stands where the message type has no room for it, and nothing is nested too deep. */
  ghost predicate Fits(s: Schema, typeName: string, values: map<string, Control>, prefix: string, depth: nat)
    decreases Budget(depth), 1
  {
    var fields := FieldsOf(s, typeName);
    depth <= MAX_DEPTH && forall i :: 0 <= i < |fields| ==> FieldFits(s, fields[i], values, prefix, depth)
  }

  ghost predicate FieldFits(s: Schema, field: Field, values: map<string, Control>, prefix: string, depth: nat)
    requires depth <= MAX_DEPTH
    decreases Budget(depth), 0
  {
    var name := prefix + field.jsonName;
    match field.shape
    case Scalar(_) => name in values ==> values[name].Text?
    case ScalarList => name in values && values[name].List? ==> |values[name].texts| <= MAX_ITEMS
    case MapField => name !in values
    case SubMessage(typeName) =>
      if HasKeysUnder(values, name + ".") then Fits(s, typeName, values, name + ".", depth + 1) else name !in values
    case MessageList(typeName) =>
      && name !in values && FewItems(values, name)
      && forall i: nat :: HasItem(values, name, i) ==> Fits(s, typeName, values, ItemPrefix(name, i), depth + 1)
  }

  /** The control `key` is named by this field of a message that the form fills. */
  ghost predicate Names(s: Schema, typeName: string, values: map<string, Control>, prefix: string, depth: nat, key: string, field: Field)
    decreases Budget(depth), 1
  {
    var fields := FieldsOf(s, typeName);
    depth <= MAX_DEPTH && exists i :: 0 <= i < |fields| && FieldNames(s, fields[i], values, prefix, depth, key, field)
  }

  ghost predicate FieldNames(s: Schema, outer: Field, values: map<string, Control>, prefix: string, depth: nat, key: string, field: Field)
    requires depth <= MAX_DEPTH
    decreases Budget(depth), 0
  {
    var name := prefix + outer.jsonName;
    || (field == outer && key == name)
    || match outer.shape
       case SubMessage(typeName) =>
         HasKeysUnder(values, name + ".") && Names(s, typeName, values, name + ".", depth + 1, key, field)
       case MessageList(typeName) =>
         exists i: nat :: HasItem(values, name, i) && Names(s, typeName, values, ItemPrefix(name, i), depth + 1, key, field)
       case _ => false
  }

  ghost predicate Claimed(s: Schema, typeName: string, values: map<string, Control>, key: string) {
    exists field :: Names(s, typeName, values, "", 0, key, field)
  }

  // ---------------------------------------------------------------- the message a form spells

  /** The form has a value for the field of this name. */
  ghost predicate Present(shape: Shape, values: map<string, Control>, name: string) {
    match shape
    case Scalar(emptyUnset) => name in values && !(emptyUnset && values[name] == Text(""))
    case ScalarList => name in values
    case MapField => false
    case SubMessage(_) => HasKeysUnder(values, name + ".")
    case MessageList(_) => HasItem(values, name, 0)
  }

  /** The message has an entry for each field with a value, in schema order. */
  ghost predicate Spells(s: Schema, typeName: string, values: map<string, Control>, prefix: string, t: Tree)
    decreases t, 0
  {
    FieldsSpell(s, FieldsOf(s, typeName), values, prefix, t.fields)
  }

  ghost predicate FieldsSpell(s: Schema, fields: seq<Field>, values: map<string, Control>, prefix: string, es: seq<Entry>)
    decreases es, |fields|
  {
    if fields == [] then es == []
    else if Present(fields[0].shape, values, prefix + fields[0].jsonName) then
      && es != [] && es[0].name == fields[0].jsonName
      && NodeSpells(s, fields[0].shape, values, prefix + fields[0].jsonName, es[0].node)
      && FieldsSpell(s, fields[1..], values, prefix, es[1..])
    else FieldsSpell(s, fields[1..], values, prefix, es)
  }

  ghost predicate NodeSpells(s: Schema, shape: Shape, values: map<string, Control>, name: string, n: Node)
    decreases n, 0
  {
    match shape
    case Scalar(_) => name in values && n.One? && values[name] == Text(n.text)
    case ScalarList => name in values && n.Many? && (values[name] == List(n.texts) || (values[name].Text? && n.texts == [values[name].text]))
    case MapField => false
    case SubMessage(typeName) => n.Sub? && Spells(s, typeName, values, name + ".", n.message)
    case MessageList(typeName) =>
      && n.Subs? && (forall i: nat :: HasItem(values, name, i) <==> i < |n.messages|)
      && forall i :: 0 <= i < |n.messages| ==> Spells(s, typeName, values, ItemPrefix(name, i), n.messages[i])
  }

  // ---------------------------------------------------------------- list items

  /** An index that is read stands there as it is written. */
  lemma IndexStands(rest: string)
    requires ParseIndex(rest).Some?
    ensures "[" + Render(ParseIndex(rest).value) + "]." <= rest
  {
    var close := FirstIndexOf(rest, ']');
    var numeral := rest[1..close];
    RenderOfValue(numeral);
    hide Canonical, Value, Render;
    assert rest == "[" + numeral + "]." + rest[close + 2..];
  }

  /** A key in a list is read as an item exactly if it stands behind that item's prefix. */
  lemma ItemKeyReads(name: string, key: string)
    requires name + "[" <= key
    ensures ParseIndex(key[|name|..]).Some? <==> InSomeItem(name, key)
    ensures forall i: nat :: ItemPrefix(name, i) <= key <==> ParseIndex(key[|name|..]) == Some(i)
  {
    hide ParseIndex, Render;
    var rest := key[|name|..];
    forall i: nat | ItemPrefix(name, i) <= key ensures ParseIndex(rest) == Some(i) {
      ItemIsUnder(key, name, i);
    }
    if ParseIndex(rest).Some? {
      IndexStands(rest);
      var i := ParseIndex(rest).value;
      Behind(name, key, "[" + Render(i) + "].");
      assert ItemPrefix(name, i) == name + ("[" + Render(i) + "].");
    }
  }

  lemma Behind(name: string, key: string, head: string)
    requires name + "[" <= key && head <= key[|name|..]
    ensures name + head <= key
  {
    assert name == (name + "[")[..|name|] == key[..|name|];
  }

  /** The indices found among the controls are those of the items present. */
  lemma IndicesAreItems(values: map<string, Control>, name: string)
    ensures IndicesParse(values, name) <==> forall key :: key in values && name + "[" <= key ==> InSomeItem(name, key)
    ensures IndicesParse(values, name) ==> forall i: nat :: i in Indices(values, name) <==> HasItem(values, name, i)
  {
    hide ParseIndex, ItemPrefix, InSomeItem;
    forall key | key in values && name + "[" <= key
      ensures ParseIndex(key[|name|..]).Some? <==> InSomeItem(name, key)
    {
      ItemKeyReads(name, key);
    }
    if IndicesParse(values, name) {
      forall i: nat ensures i in Indices(values, name) <==> HasItem(values, name, i) {
        if i in Indices(values, name) {
          var key :| key in ItemKeys(values, name) && ParseIndex(key[|name|..]).value == i;
          ItemKeyReads(name, key);
        }
        if HasItem(values, name, i) {
          var key :| key in values && ItemPrefix(name, i) <= key;
          ItemIsUnder(key, name, i);
          ItemKeyReads(name, key);
        }
      }
    }
  }

  /** The form has few enough items without a gap exactly if the indices are as many as the source counts. */
  lemma FewItemsExactly(values: map<string, Control>, name: string)
    ensures FewItems(values, name) <==>
              IndicesParse(values, name) && |Indices(values, name)| <= MAX_ITEMS
              && forall i: nat :: i < |Indices(values, name)| ==> i in Indices(values, name)
    ensures FewItems(values, name) ==> ItemsAre(values, name, |Indices(values, name)|)
  {
    hide Indices, IndicesParse, HasItem, InSomeItem;
    IndicesAreItems(values, name);
    if FewItems(values, name) {
      var count: nat :| count <= MAX_ITEMS && ItemsAre(values, name, count);
      assert Indices(values, name) == Below(count);
    }
    if IndicesParse(values, name) {
      var found := Indices(values, name);
      if forall i: nat :: i < |found| ==> i in found {
        if Below(|found|) < found { ProperSubsetSize(Below(|found|), found); }
        assert found == Below(|found|);
        assert ItemsAre(values, name, |found|);
      }
    }
  }

  // ---------------------------------------------------------------- decoding decides it

  ghost predicate NamesAny(s: Schema, typeName: string, values: map<string, Control>, prefix: string, depth: nat, key: string) {
    exists field :: Names(s, typeName, values, prefix, depth, key, field)
  }

  ghost predicate FieldNamesAny(s: Schema, outer: Field, values: map<string, Control>, prefix: string, depth: nat, key: string)
    requires depth <= MAX_DEPTH
  {
    exists field :: FieldNames(s, outer, values, prefix, depth, key, field)
  }

  /** The message decodes if it fits, to what the form spells, and marks what it names. */
  ghost predicate Decides(s: Schema, typeName: string, values: map<string, Control>, prefix: string, depth: nat, used: set<string>) {
    var d := DecodeMessage(s, typeName, values, prefix, depth, used);
    && (d.Ok? <==> Fits(s, typeName, values, prefix, depth))
    && (d.Ok? ==>
          && Spells(s, typeName, values, prefix, Tree(d.value.fields))
          && forall key :: key in d.value.used <==> key in used || (key in values && NamesAny(s, typeName, values, prefix, depth, key)))
  }

  ghost predicate FieldsDecide(s: Schema, fields: seq<Field>, values: map<string, Control>, prefix: string, depth: nat, used: set<string>)
    requires depth <= MAX_DEPTH
  {
    var d := DecodeFields(s, fields, values, prefix, depth, used);
    && (d.Ok? <==> forall i :: 0 <= i < |fields| ==> FieldFits(s, fields[i], values, prefix, depth))
    && (d.Ok? ==>
          && FieldsSpell(s, fields, values, prefix, d.value.fields)
          && forall key :: key in d.value.used <==>
               key in used || (key in values && exists i :: 0 <= i < |fields| && FieldNamesAny(s, fields[i], values, prefix, depth, key)))
  }

  ghost predicate FieldDecides(s: Schema, field: Field, values: map<string, Control>, prefix: string, depth: nat, used: set<string>)
    requires depth <= MAX_DEPTH
  {
    var d := DecodeField(s, field, values, prefix, depth, used);
    && (d.Ok? <==> FieldFits(s, field, values, prefix, depth))
    && (d.Ok? ==>
          && (if Present(field.shape, values, prefix + field.jsonName)
              then |d.value.fields| == 1 && d.value.fields[0].name == field.jsonName
                   && NodeSpells(s, field.shape, values, prefix + field.jsonName, d.value.fields[0].node)
              else d.value.fields == [])
          && forall key :: key in d.value.used <==> key in used || (key in values && FieldNamesAny(s, field, values, prefix, depth, key)))
  }

  ghost predicate ItemNamesAny(s: Schema, typeName: string, values: map<string, Control>, name: string, depth: nat, i: nat, key: string) {
    NamesAny(s, typeName, values, ItemPrefix(name, i), depth + 1, key)
  }

  ghost predicate ItemFits(s: Schema, typeName: string, values: map<string, Control>, name: string, depth: nat, i: nat) {
    Fits(s, typeName, values, ItemPrefix(name, i), depth + 1)
  }

  ghost predicate ItemsDecide(s: Schema, typeName: string, values: map<string, Control>, name: string, depth: nat, count: nat, used: set<string>)
    requires depth <= MAX_DEPTH && IndicesParse(values, name)
  {
    var d := DecodeItems(s, typeName, values, name, depth, count, used);
    && (d.Ok? <==> forall i: nat :: i < count ==> i in Indices(values, name) && ItemFits(s, typeName, values, name, depth, i))
    && (d.Ok? ==>
          && |d.value.0| == count
          && (forall i :: 0 <= i < count ==> Spells(s, typeName, values, ItemPrefix(name, i), d.value.0[i]))
          && forall key :: key in d.value.1 <==>
               key in used || (key in values && exists i: nat :: i < count && ItemNamesAny(s, typeName, values, name, depth, i, key)))
  }

  lemma {:induction false} MessageDecides(s: Schema, typeName: string, values: map<string, Control>, prefix: string, depth: nat, used: set<string>)
    ensures Decides(s, typeName, values, prefix, depth, used)
    decreases Budget(depth), 2, 0
  {
    if depth <= MAX_DEPTH {
      hide FieldFits, FieldNames, FieldsSpell, DecodeFields;
      FieldsAllDecide(s, FieldsOf(s, typeName), values, prefix, depth, used);
      NamesByField(s, typeName, values, prefix, depth);
    }
  }

  lemma NamesByField(s: Schema, typeName: string, values: map<string, Control>, prefix: string, depth: nat)
    requires depth <= MAX_DEPTH
    ensures var fields := FieldsOf(s, typeName);
            forall key :: NamesAny(s, typeName, values, prefix, depth, key) <==>
              exists i :: 0 <= i < |fields| && FieldNamesAny(s, fields[i], values, prefix, depth, key)
  {
    hide FieldNames;
    var fields := FieldsOf(s, typeName);
    forall key
      ensures NamesAny(s, typeName, values, prefix, depth, key) <==>
                exists i :: 0 <= i < |fields| && FieldNamesAny(s, fields[i], values, prefix, depth, key)
    {
      if i :| 0 <= i < |fields| && FieldNamesAny(s, fields[i], values, prefix, depth, key) {
        var field :| FieldNames(s, fields[i], values, prefix, depth, key, field);
        assert Names(s, typeName, values, prefix, depth, key, field);
      }
      if field :| Names(s, typeName, values, prefix, depth, key, field) {
        var i :| 0 <= i < |fields| && FieldNames(s, fields[i], values, prefix, depth, key, field);
        assert FieldNamesAny(s, fields[i], values, prefix, depth, key);
      }
    }
  }

  lemma {:induction false} FieldsAllDecide(s: Schema, fields: seq<Field>, values: map<string, Control>, prefix: string, depth: nat, used: set<string>)
    requires depth <= MAX_DEPTH
    ensures FieldsDecide(s, fields, values, prefix, depth, used)
    decreases Budget(depth), 1, |fields|
  {
    hide FieldFits, FieldNamesAny, DecodeField, NodeSpells, Present;
    if fields != [] {
      FieldAloneDecides(s, fields[0], values, prefix, depth, used);
      var first := DecodeField(s, fields[0], values, prefix, depth, used);
      if first.Ok? {
        FieldsAllDecide(s, fields[1..], values, prefix, depth, first.value.used);
        FieldJoins(s, fields, values, prefix, depth, used);
      } else {
        assert !FieldFits(s, fields[0], values, prefix, depth);
      }
    }
  }

  lemma FieldJoins(s: Schema, fields: seq<Field>, values: map<string, Control>, prefix: string, depth: nat, used: set<string>)
    requires depth <= MAX_DEPTH && fields != [] && FieldDecides(s, fields[0], values, prefix, depth, used)
    requires DecodeField(s, fields[0], values, prefix, depth, used).Ok?
    requires FieldsDecide(s, fields[1..], values, prefix, depth, DecodeField(s, fields[0], values, prefix, depth, used).value.used)
    ensures FieldsDecide(s, fields, values, prefix, depth, used)
  {
    hide FieldFits, FieldNamesAny, DecodeField, NodeSpells, Present;
    var rest := fields[1..];
    var first := DecodeField(s, fields[0], values, prefix, depth, used).value;
    var d := DecodeFields(s, rest, values, prefix, depth, first.used);
    assert forall i :: 0 < i < |fields| ==> fields[i] == rest[i - 1];
    assert (forall i :: 0 <= i < |fields| ==> FieldFits(s, fields[i], values, prefix, depth)) <==>
           (FieldFits(s, fields[0], values, prefix, depth) && forall i :: 0 <= i < |rest| ==> FieldFits(s, rest[i], values, prefix, depth));
    if d.Ok? {
      var es := first.fields + d.value.fields;
      if first.fields != [] { assert es[0] == first.fields[0] && es[1..] == d.value.fields; } else { assert es == d.value.fields; }
      forall key
        ensures (exists i :: 0 <= i < |fields| && FieldNamesAny(s, fields[i], values, prefix, depth, key)) <==>
                (FieldNamesAny(s, fields[0], values, prefix, depth, key)
                 || exists i :: 0 <= i < |rest| && FieldNamesAny(s, rest[i], values, prefix, depth, key))
      {
        if i :| 0 <= i < |rest| && FieldNamesAny(s, rest[i], values, prefix, depth, key) {
          assert FieldNamesAny(s, fields[i + 1], values, prefix, depth, key);
        }
      }
    }
  }

  lemma {:induction false} FieldAloneDecides(s: Schema, field: Field, values: map<string, Control>, prefix: string, depth: nat, used: set<string>)
    requires depth <= MAX_DEPTH
    ensures FieldDecides(s, field, values, prefix, depth, used)
    decreases Budget(depth), 1, 0
  {
    hide DecodeMessage, DecodeItems, Fits, Names, HasKeysUnder, Indices, IndicesParse, ItemPrefix, Spells;
    match field.shape
    case SubMessage(typeName) => SubDecides(s, field, typeName, values, prefix, depth, used);
    case MessageList(typeName) => ListDecides(s, field, typeName, values, prefix, depth, used);
    case _ => LeafDecides(s, field, values, prefix, depth, used);
  }

  lemma LeafDecides(s: Schema, field: Field, values: map<string, Control>, prefix: string, depth: nat, used: set<string>)
    requires depth <= MAX_DEPTH && !field.shape.SubMessage? && !field.shape.MessageList?
    ensures FieldDecides(s, field, values, prefix, depth, used)
  {
    forall key ensures FieldNamesAny(s, field, values, prefix, depth, key) <==> key == prefix + field.jsonName {
      assert FieldNames(s, field, values, prefix, depth, prefix + field.jsonName, field);
    }
  }

  lemma {:induction false} SubDecides(s: Schema, field: Field, typeName: string, values: map<string, Control>, prefix: string, depth: nat, used: set<string>)
    requires depth <= MAX_DEPTH && field.shape == SubMessage(typeName)
    ensures FieldDecides(s, field, values, prefix, depth, used)
    decreases Budget(depth), 0, 0
  {
    hide DecodeMessage, Fits, Names, HasKeysUnder, Spells, NamesAny, FieldNamesAny;
    var name := prefix + field.jsonName;
    var marked := if name in values then used + {name} else used;
    if HasKeysUnder(values, name + ".") { MessageDecides(s, typeName, values, name + ".", depth + 1, marked); }
    NamesInSub(s, field, typeName, values, prefix, depth);
  }

  lemma NamesInSub(s: Schema, field: Field, typeName: string, values: map<string, Control>, prefix: string, depth: nat)
    requires depth <= MAX_DEPTH && field.shape == SubMessage(typeName)
    ensures var name := prefix + field.jsonName;
            forall key :: FieldNamesAny(s, field, values, prefix, depth, key) <==>
              key == name || (HasKeysUnder(values, name + ".") && NamesAny(s, typeName, values, name + ".", depth + 1, key))
  {
    hide Names, HasKeysUnder;
    var name := prefix + field.jsonName;
    forall key
      ensures FieldNamesAny(s, field, values, prefix, depth, key) <==>
                key == name || (HasKeysUnder(values, name + ".") && NamesAny(s, typeName, values, name + ".", depth + 1, key))
    {
      if key == name { assert FieldNames(s, field, values, prefix, depth, key, field); }
      var inside := name + ".";
      if HasKeysUnder(values, inside) && NamesAny(s, typeName, values, inside, depth + 1, key) {
        var inner :| Names(s, typeName, values, inside, depth + 1, key, inner);
        assert FieldNames(s, field, values, prefix, depth, key, inner);
      }
      if key != name && FieldNamesAny(s, field, values, prefix, depth, key) {
        var inner :| FieldNames(s, field, values, prefix, depth, key, inner);
        assert Names(s, typeName, values, inside, depth + 1, key, inner);
      }
    }
  }

  lemma NamesInList(s: Schema, field: Field, typeName: string, values: map<string, Control>, prefix: string, depth: nat)
    requires depth <= MAX_DEPTH && field.shape == MessageList(typeName)
    ensures var name := prefix + field.jsonName;
            forall key :: FieldNamesAny(s, field, values, prefix, depth, key) <==>
              key == name || exists i: nat :: HasItem(values, name, i) && ItemNamesAny(s, typeName, values, name, depth, i, key)
  {
    hide Names, HasItem, ItemPrefix;
    var name := prefix + field.jsonName;
    forall key
      ensures FieldNamesAny(s, field, values, prefix, depth, key) <==>
                key == name || exists i: nat :: HasItem(values, name, i) && ItemNamesAny(s, typeName, values, name, depth, i, key)
    {
      if key == name { assert FieldNames(s, field, values, prefix, depth, key, field); }
      if i: nat :| HasItem(values, name, i) && ItemNamesAny(s, typeName, values, name, depth, i, key) {
        var inner :| Names(s, typeName, values, ItemPrefix(name, i), depth + 1, key, inner);
        assert FieldNames(s, field, values, prefix, depth, key, inner);
      }
      if inner :| FieldNames(s, field, values, prefix, depth, key, inner) {
        if key != name {
          var i: nat :| HasItem(values, name, i) && Names(s, typeName, values, ItemPrefix(name, i), depth + 1, key, inner);
          assert ItemNamesAny(s, typeName, values, name, depth, i, key);
        }
      }
    }
  }

  lemma {:induction false} ListDecides(s: Schema, field: Field, typeName: string, values: map<string, Control>, prefix: string, depth: nat, used: set<string>)
    requires depth <= MAX_DEPTH && field.shape == MessageList(typeName)
    ensures FieldDecides(s, field, values, prefix, depth, used)
    decreases Budget(depth), 0, MAX_ITEMS + 1
  {
    hide DecodeItems, Fits, Names, HasItem, ItemPrefix, Indices, IndicesParse, Spells, ItemNamesAny, FieldNamesAny, FewItems, ItemsAre;
    var name := prefix + field.jsonName;
    FewItemsExactly(values, name);
    NamesInList(s, field, typeName, values, prefix, depth);
    if name !in values && IndicesParse(values, name) && |Indices(values, name)| <= MAX_ITEMS {
      var count := |Indices(values, name)|;
      ItemsAllDecide(s, typeName, values, name, depth, count, used);
      ListJoins(s, field, typeName, values, prefix, depth, used);
    }
  }

  lemma ListJoins(s: Schema, field: Field, typeName: string, values: map<string, Control>, prefix: string, depth: nat, used: set<string>)
    requires depth <= MAX_DEPTH && field.shape == MessageList(typeName)
    requires var name := prefix + field.jsonName;
             && name !in values && IndicesParse(values, name) && |Indices(values, name)| <= MAX_ITEMS
             && ItemsDecide(s, typeName, values, name, depth, |Indices(values, name)|, used)
             && (FewItems(values, name) <==> forall i: nat :: i < |Indices(values, name)| ==> i in Indices(values, name))
             && (FewItems(values, name) ==> ItemsAre(values, name, |Indices(values, name)|))
             && (forall key :: FieldNamesAny(s, field, values, prefix, depth, key) <==>
                   key == name || exists i: nat :: HasItem(values, name, i) && ItemNamesAny(s, typeName, values, name, depth, i, key))
    ensures FieldDecides(s, field, values, prefix, depth, used)
  {
    hide DecodeItems, Fits, Names, HasItem, ItemPrefix, Indices, IndicesParse, Spells, ItemNamesAny, FieldNamesAny, FewItems, InSomeItem;
    var name := prefix + field.jsonName;
    var count := |Indices(values, name)|;
    if FewItems(values, name) {
      assert forall i: nat :: ItemFits(s, typeName, values, name, depth, i) == Fits(s, typeName, values, ItemPrefix(name, i), depth + 1);
      assert forall i: nat :: HasItem(values, name, i) <==> i < count;
    }
  }

  lemma {:induction false} ItemsAllDecide(s: Schema, typeName: string, values: map<string, Control>, name: string, depth: nat, count: nat, used: set<string>)
    requires depth <= MAX_DEPTH && IndicesParse(values, name)
    ensures ItemsDecide(s, typeName, values, name, depth, count, used)
    decreases Budget(depth), 0, count
  {
    hide DecodeMessage, Fits, NamesAny, ItemPrefix, Indices, IndicesParse, Spells;
    if count > 0 {
      ItemsAllDecide(s, typeName, values, name, depth, count - 1, used);
      var front := DecodeItems(s, typeName, values, name, depth, count - 1, used);
      if front.Ok? {
        MessageDecides(s, typeName, values, ItemPrefix(name, count - 1), depth + 1, front.value.1);
        ItemJoins(s, typeName, values, name, depth, count, used);
      }
    }
  }

  lemma ItemJoins(s: Schema, typeName: string, values: map<string, Control>, name: string, depth: nat, count: nat, used: set<string>)
    requires depth <= MAX_DEPTH && IndicesParse(values, name) && count > 0
    requires ItemsDecide(s, typeName, values, name, depth, count - 1, used)
    requires var front := DecodeItems(s, typeName, values, name, depth, count - 1, used);
             front.Ok? && Decides(s, typeName, values, ItemPrefix(name, count - 1), depth + 1, front.value.1)
    ensures ItemsDecide(s, typeName, values, name, depth, count, used)
  {
    hide DecodeMessage, Fits, NamesAny, ItemPrefix, Indices, IndicesParse, Spells;
    var last := count - 1;
    var (messages, after) := DecodeItems(s, typeName, values, name, depth, last, used).value;
    var d := DecodeMessage(s, typeName, values, ItemPrefix(name, last), depth + 1, after);
    assert ItemFits(s, typeName, values, name, depth, last) == Fits(s, typeName, values, ItemPrefix(name, last), depth + 1);
    if last in Indices(values, name) && d.Ok? {
      var all := messages + [Tree(d.value.fields)];
      assert forall i :: 0 <= i < last ==> all[i] == messages[i];
      forall key
        ensures key in d.value.used <==>
                  key in used || (key in values && exists i: nat :: i < count && ItemNamesAny(s, typeName, values, name, depth, i, key))
      {
        assert ItemNamesAny(s, typeName, values, name, depth, last, key) == NamesAny(s, typeName, values, ItemPrefix(name, last), depth + 1, key);
      }
    }
  }

  // ---------------------------------------------------------------- whole forms

  lemma {:induction false} SpellsOnce(s: Schema, typeName: string, values: map<string, Control>, prefix: string, t: Tree, u: Tree)
    requires Spells(s, typeName, values, prefix, t) && Spells(s, typeName, values, prefix, u)
    ensures t == u
    decreases t, 0
  {
    FieldsSpellOnce(s, FieldsOf(s, typeName), values, prefix, t.fields, u.fields);
  }

  lemma {:induction false} FieldsSpellOnce(s: Schema, fields: seq<Field>, values: map<string, Control>, prefix: string, es: seq<Entry>, fs: seq<Entry>)
    requires FieldsSpell(s, fields, values, prefix, es) && FieldsSpell(s, fields, values, prefix, fs)
    ensures es == fs
    decreases es, |fields|
  {
    hide NodeSpells, Present;
    if fields != [] {
      if Present(fields[0].shape, values, prefix + fields[0].jsonName) {
        NodeSpellsOnce(s, fields[0].shape, values, prefix + fields[0].jsonName, es[0].node, fs[0].node);
        FieldsSpellOnce(s, fields[1..], values, prefix, es[1..], fs[1..]);
        assert es == [es[0]] + es[1..] && fs == [fs[0]] + fs[1..];
      } else {
        FieldsSpellOnce(s, fields[1..], values, prefix, es, fs);
      }
    }
  }

  lemma {:induction false} NodeSpellsOnce(s: Schema, shape: Shape, values: map<string, Control>, name: string, n: Node, m: Node)
    requires NodeSpells(s, shape, values, name, n) && NodeSpells(s, shape, values, name, m)
    ensures n == m
    decreases n, 0
  {
    hide HasItem, Spells, ItemPrefix;
    match shape
    case SubMessage(typeName) => SpellsOnce(s, typeName, values, name + ".", n.message, m.message);
    case MessageList(typeName) =>
      assert HasItem(values, name, |n.messages|) <==> |n.messages| < |n.messages|;
      assert HasItem(values, name, |m.messages|) <==> |m.messages| < |m.messages|;
      forall i | 0 <= i < |n.messages| ensures n.messages[i] == m.messages[i] {
        SpellsOnce(s, typeName, values, ItemPrefix(name, i), n.messages[i], m.messages[i]);
      }
    case _ =>
  }

  lemma {:induction false} AllWellFormed(input: seq<(string, Input)>)
    ensures FirstMalformed(input).None? <==> forall i :: 0 <= i < |input| ==> input[i].1.Control?
    decreases |input|
  {
    if input != [] {
      AllWellFormed(input[1..]);
      assert forall i :: 0 < i < |input| ==> input[i] == input[1..][i - 1];
      assert (forall i :: 0 <= i < |input| ==> input[i].1.Control?) <==>
             (input[0].1.Control? && forall i :: 0 <= i < |input[1..]| ==> input[1..][i].1.Control?);
    }
  }

  lemma {:induction false} AllUsed(input: seq<(string, Input)>, used: set<string>)
    ensures FirstUnused(input, used).None? <==> forall i :: 0 <= i < |input| ==> input[i].0 in used
    decreases |input|
  {
    if input != [] {
      AllUsed(input[1..], used);
      assert forall i :: 0 < i < |input| ==> input[i] == input[1..][i - 1];
      assert (forall i :: 0 <= i < |input| ==> input[i].0 in used) <==>
             (input[0].0 in used && forall i :: 0 <= i < |input[1..]| ==> input[1..][i].0 in used);
    }
  }

  lemma {:induction false} ControlsAreValues(input: seq<(string, Input)>)
    requires forall i :: 0 <= i < |input| ==> input[i].1.Control?
    ensures forall i :: 0 <= i < |input| ==> input[i].0 in ValuesOf(input)
    ensures forall key :: key in ValuesOf(input) ==> exists i :: 0 <= i < |input| && input[i].0 == key
    decreases |input|
  {
    if input != [] {
      var front, last := input[..|input| - 1], input[|input| - 1];
      ControlsAreValues(front);
      forall key | key in ValuesOf(input) ensures exists i :: 0 <= i < |input| && input[i].0 == key {
        if key in ValuesOf(front) {
          var i :| 0 <= i < |front| && front[i].0 == key;
          assert input[i].0 == key;
        } else {
          assert input[|input| - 1].0 == key;
        }
      }
    }
  }

  /** At most a thousand controls, each text or a list of texts, each fitting and named by some field. */
  ghost predicate Acceptable(s: Schema, typeName: string, input: seq<(string, Input)>) {
    && |input| <= MAX_ITEMS
    && (forall i :: 0 <= i < |input| ==> input[i].1.Control?)
    && Fits(s, typeName, ValuesOf(input), "", 0)
    && (forall i :: 0 <= i < |input| ==> Claimed(s, typeName, ValuesOf(input), input[i].0))
  }

  /** A form is accepted exactly if its controls are acceptable, and decodes to the one message they spell. */
  lemma FormIsAcceptedExactly(s: Schema, typeName: string, input: seq<(string, Input)>, t: Tree)
    ensures DecodeForm(s, typeName, input).Ok? <==> Acceptable(s, typeName, input)
    ensures DecodeForm(s, typeName, input) == Ok(t) <==> Acceptable(s, typeName, input) && Spells(s, typeName, ValuesOf(input), "", t)
  {
    hide DecodeMessage, Fits, Spells, FirstMalformed, FirstUnused, Names, ValuesOf;
    var values := ValuesOf(input);
    AllWellFormed(input);
    MessageDecides(s, typeName, values, "", 0, {});
    var d := DecodeMessage(s, typeName, values, "", 0, {});
    if FirstMalformed(input).None? {
      ControlsAreValues(input);
      assert forall key :: NamesAny(s, typeName, values, "", 0, key) <==> Claimed(s, typeName, values, key);
      if d.Ok? {
        AllUsed(input, d.value.used);
        if Spells(s, typeName, values, "", t) { SpellsOnce(s, typeName, values, "", t, Tree(d.value.fields)); }
      }
    }
  }
}

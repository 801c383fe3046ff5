/** What a blank control adds to an accepted form: `BlankControlChangesNothing` says exactly when nothing. */
module FormBlanks {
  import opened FormAcceptance
  import opened FormRoundTrip
  import opened FormValues

  // ---------------------------------------------------------------- each control is named once

  lemma NamedUnder(s: Schema, typeName: string, values: map<string, Control>, prefix: string, depth: nat, key: string, field: Field)
    requires Names(s, typeName, values, prefix, depth, key, field)
    ensures prefix <= key
    decreases Budget(depth), 1
  {
    hide FieldNames;
    var fields := FieldsOf(s, typeName);
    var i :| 0 <= i < |fields| && FieldNames(s, fields[i], values, prefix, depth, key, field);
    FieldNamedUnder(s, fields[i], values, prefix, depth, key, field);
    assert prefix <= prefix + fields[i].jsonName;
  }

  /** A named control stands under the name of the outer field: it is that name, or inside the nested message. */
  lemma {:induction false} FieldNamedUnder(s: Schema, outer: Field, values: map<string, Control>, prefix: string, depth: nat, key: string, field: Field)
    requires depth <= MAX_DEPTH && FieldNames(s, outer, values, prefix, depth, key, field)
    ensures Under(key, prefix + outer.jsonName)
    ensures key == prefix + outer.jsonName ==> field == outer
    decreases Budget(depth), 0
  {
    hide Names, HasKeysUnder, HasItem, Under, ItemPrefix;
    var name := prefix + outer.jsonName;
    if field == outer && key == name {
      SelfUnder(name);
    } else {
      match outer.shape
      case SubMessage(typeName) =>
        NamedUnder(s, typeName, values, name + ".", depth + 1, key, field);
        DotIsUnder(key, name);
      case MessageList(typeName) =>
        var i: nat :| HasItem(values, name, i) && Names(s, typeName, values, ItemPrefix(name, i), depth + 1, key, field);
        NamedUnder(s, typeName, values, ItemPrefix(name, i), depth + 1, key, field);
        ItemIsUnder(key, name, i);
    }
  }

  lemma SelfUnder(name: string)
    ensures Under(name, name)
  {
  }

  /** If a control is named at all, and stands under this field's name, then this field names it. */
  lemma NamedByField(s: Schema, typeName: string, values: map<string, Control>, prefix: string, depth: nat, key: string, field: Field, i: nat)
    requires SchemaOk(s) && depth <= MAX_DEPTH && i < |FieldsOf(s, typeName)|
    requires Names(s, typeName, values, prefix, depth, key, field) && Under(key, prefix + FieldsOf(s, typeName)[i].jsonName)
    ensures FieldNames(s, FieldsOf(s, typeName)[i], values, prefix, depth, key, field)
  {
    hide FieldNames, Under, Simple;
    var fields := FieldsOf(s, typeName);
    assert FieldsOk(fields);
    var j :| 0 <= j < |fields| && FieldNames(s, fields[j], values, prefix, depth, key, field);
    FieldNamedUnder(s, fields[j], values, prefix, depth, key, field);
    UnderOneName(key, prefix, fields[i].jsonName, fields[j].jsonName);
  }

  // ---------------------------------------------------------------- a control that says nothing

  /** A blank control under this field's name leaves the field as it was. */
  predicate Mute(values: map<string, Control>, key: string, field: Field) {
    field.shape == Scalar(true) || (field.shape.SubMessage? && HasKeysUnder(values, key + "."))
  }

  function WithBlank(values: map<string, Control>, key: string): map<string, Control> {
    values[key := Text("")]
  }

  /** The blank control lies outside this message, or is named there by `field`. */
  ghost predicate NamedHere(s: Schema, typeName: string, values: map<string, Control>, prefix: string, depth: nat, key: string, field: Field) {
    && SchemaOk(s) && key !in values && Mute(values, key, field)
    && (prefix <= key ==> Names(s, typeName, values, prefix, depth, key, field))
  }

  lemma MoreKeysUnder(values: map<string, Control>, key: string, prefix: string)
    ensures HasKeysUnder(WithBlank(values, key), prefix) <==> HasKeysUnder(values, prefix) || prefix <= key
  {
    var more := WithBlank(values, key);
    if prefix <= key { assert key in more; }
    if other :| other in values && prefix <= other { assert other in more; }
  }

  /** What a nested message sees of the blank control. */
  lemma SubSees(s: Schema, typeName: string, values: map<string, Control>, prefix: string, depth: nat, key: string, field: Field, i: nat)
    requires depth <= MAX_DEPTH && i < |FieldsOf(s, typeName)| && FieldsOf(s, typeName)[i].shape.SubMessage?
    requires NamedHere(s, typeName, values, prefix, depth, key, field)
    ensures var outer := FieldsOf(s, typeName)[i];
            var name := prefix + outer.jsonName;
            && (HasKeysUnder(WithBlank(values, key), name + ".") <==> HasKeysUnder(values, name + "."))
            && NamedHere(s, outer.shape.typeName, values, name + ".", depth + 1, key, field)
            && (key == name ==> HasKeysUnder(values, name + "."))
  {
    hide HasKeysUnder, Names, Under, SchemaOk;
    var outer := FieldsOf(s, typeName)[i];
    var name := prefix + outer.jsonName;
    MoreKeysUnder(values, key, name + ".");
    if name + "." <= key || key == name {
      if key == name { SelfUnder(name); } else { DotIsUnder(key, name); }
      StartsWith(prefix, name, key);
      NamedByField(s, typeName, values, prefix, depth, key, field, i);
      if key == name { FieldNamedUnder(s, outer, values, prefix, depth, key, field); }
    }
  }

  lemma StartsWith(prefix: string, name: string, key: string)
    requires prefix <= name && Under(key, name)
    ensures prefix <= key
  {
  }

  /** What a list of messages sees of the blank control. */
  lemma ListSees(s: Schema, typeName: string, values: map<string, Control>, prefix: string, depth: nat, key: string, field: Field, i: nat)
    requires depth <= MAX_DEPTH && i < |FieldsOf(s, typeName)| && FieldsOf(s, typeName)[i].shape.MessageList?
    requires NamedHere(s, typeName, values, prefix, depth, key, field)
    ensures var outer := FieldsOf(s, typeName)[i];
            var name := prefix + outer.jsonName;
            && key != name
            && (forall k: nat :: HasItem(WithBlank(values, key), name, k) <==> HasItem(values, name, k))
            && (forall k: nat :: NamedHere(s, outer.shape.typeName, values, ItemPrefix(name, k), depth + 1, key, field))
            && (name + "[" <= key ==> InSomeItem(name, key))
  {
    hide HasKeysUnder, Names, Under, SchemaOk, ItemPrefix;
    var outer := FieldsOf(s, typeName)[i];
    var name := prefix + outer.jsonName;
    if Under(key, name) {
      StartsWith(prefix, name, key);
      NamedByField(s, typeName, values, prefix, depth, key, field, i);
      FieldNamedUnder(s, outer, values, prefix, depth, key, field);
      var j: nat :| HasItem(values, name, j) && Names(s, outer.shape.typeName, values, ItemPrefix(name, j), depth + 1, key, field);
      NamedUnder(s, outer.shape.typeName, values, ItemPrefix(name, j), depth + 1, key, field);
      forall k: nat | ItemPrefix(name, k) <= key ensures k == j {
        ItemIsUnder(key, name, k);
        ItemIsUnder(key, name, j);
      }
    } else {
      SelfUnder(name);
      if name + "[" <= key { BracketIsUnder(key, name); }
      forall k: nat ensures !(ItemPrefix(name, k) <= key) {
        if ItemPrefix(name, k) <= key { ItemIsUnder(key, name, k); }
      }
    }
    forall k: nat ensures HasItem(WithBlank(values, key), name, k) <==> HasItem(values, name, k) {
      MoreKeysUnder(values, key, ItemPrefix(name, k));
    }
  }

  /** A field that holds values itself sees the blank control only if it is mute. */
  lemma LeafSees(s: Schema, typeName: string, values: map<string, Control>, prefix: string, depth: nat, key: string, field: Field, i: nat)
    requires depth <= MAX_DEPTH && i < |FieldsOf(s, typeName)|
    requires NamedHere(s, typeName, values, prefix, depth, key, field)
    ensures key == prefix + FieldsOf(s, typeName)[i].jsonName ==> field == FieldsOf(s, typeName)[i] && Mute(values, key, field)
  {
    hide HasKeysUnder, Names, Under, SchemaOk, Mute;
    var outer := FieldsOf(s, typeName)[i];
    var name := prefix + outer.jsonName;
    if key == name {
      SelfUnder(name);
      StartsWith(prefix, name, key);
      NamedByField(s, typeName, values, prefix, depth, key, field, i);
      FieldNamedUnder(s, outer, values, prefix, depth, key, field);
    }
  }

  // ---------------------------------------------------------------- it changes nothing

  lemma {:induction false} FitsStill(s: Schema, typeName: string, values: map<string, Control>, prefix: string, depth: nat, key: string, field: Field)
    requires NamedHere(s, typeName, values, prefix, depth, key, field) && Fits(s, typeName, values, prefix, depth)
    ensures Fits(s, typeName, WithBlank(values, key), prefix, depth)
    decreases Budget(depth), 1
  {
    hide FieldFits, NamedHere, WithBlank;
    var fields := FieldsOf(s, typeName);
    forall i | 0 <= i < |fields| ensures FieldFits(s, fields[i], WithBlank(values, key), prefix, depth) {
      FieldFitsStill(s, typeName, values, prefix, depth, key, field, i);
    }
  }

  lemma {:induction false} FieldFitsStill(s: Schema, typeName: string, values: map<string, Control>, prefix: string, depth: nat, key: string, field: Field, i: nat)
    requires NamedHere(s, typeName, values, prefix, depth, key, field) && depth <= MAX_DEPTH && i < |FieldsOf(s, typeName)|
    requires FieldFits(s, FieldsOf(s, typeName)[i], values, prefix, depth)
    ensures FieldFits(s, FieldsOf(s, typeName)[i], WithBlank(values, key), prefix, depth)
    decreases Budget(depth), 0
  {
    hide NamedHere, HasKeysUnder, HasItem, Fits, ItemPrefix, FewItems;
    var outer := FieldsOf(s, typeName)[i];
    var name := prefix + outer.jsonName;
    match outer.shape
    case SubMessage(inner) =>
      SubSees(s, typeName, values, prefix, depth, key, field, i);
      if HasKeysUnder(values, name + ".") { FitsStill(s, inner, values, name + ".", depth + 1, key, field); }
    case MessageList(inner) =>
      ListSees(s, typeName, values, prefix, depth, key, field, i);
      FewStill(values, name, key);
      forall k: nat | HasItem(WithBlank(values, key), name, k) ensures Fits(s, inner, WithBlank(values, key), ItemPrefix(name, k), depth + 1) {
        FitsStill(s, inner, values, ItemPrefix(name, k), depth + 1, key, field);
      }
    case _ => LeafSees(s, typeName, values, prefix, depth, key, field, i);
  }

  lemma FewStill(values: map<string, Control>, name: string, key: string)
    requires FewItems(values, name) && (name + "[" <= key ==> InSomeItem(name, key))
    requires forall k: nat :: HasItem(WithBlank(values, key), name, k) <==> HasItem(values, name, k)
    ensures FewItems(WithBlank(values, key), name)
  {
    hide HasItem, InSomeItem;
    var count: nat :| count <= MAX_ITEMS && ItemsAre(values, name, count);
    assert ItemsAre(WithBlank(values, key), name, count);
  }

  /** More controls name no fewer. */
  lemma {:induction false} NamesStill(s: Schema, typeName: string, values: map<string, Control>, prefix: string, depth: nat, key: string, other: string, field: Field)
    requires Names(s, typeName, values, prefix, depth, other, field)
    ensures Names(s, typeName, WithBlank(values, key), prefix, depth, other, field)
    decreases Budget(depth), 1
  {
    hide FieldNames, WithBlank;
    var fields := FieldsOf(s, typeName);
    var i :| 0 <= i < |fields| && FieldNames(s, fields[i], values, prefix, depth, other, field);
    FieldNamesStill(s, fields[i], values, prefix, depth, key, other, field);
  }

  lemma {:induction false} FieldNamesStill(s: Schema, outer: Field, values: map<string, Control>, prefix: string, depth: nat, key: string, other: string, field: Field)
    requires depth <= MAX_DEPTH && FieldNames(s, outer, values, prefix, depth, other, field)
    ensures FieldNames(s, outer, WithBlank(values, key), prefix, depth, other, field)
    decreases Budget(depth), 0
  {
    hide HasKeysUnder, Names, ItemPrefix, WithBlank;
    var name := prefix + outer.jsonName;
    if !(field == outer && other == name) {
      match outer.shape
      case SubMessage(typeName) =>
        MoreKeysUnder(values, key, name + ".");
        NamesStill(s, typeName, values, name + ".", depth + 1, key, other, field);
      case MessageList(typeName) =>
        var i: nat :| HasItem(values, name, i) && Names(s, typeName, values, ItemPrefix(name, i), depth + 1, other, field);
        MoreKeysUnder(values, key, ItemPrefix(name, i));
        NamesStill(s, typeName, values, ItemPrefix(name, i), depth + 1, key, other, field);
        assert HasItem(WithBlank(values, key), name, i);
    }
  }

  lemma {:induction false} SpellsStill(s: Schema, typeName: string, values: map<string, Control>, prefix: string, depth: nat, key: string, field: Field, t: Tree)
    requires NamedHere(s, typeName, values, prefix, depth, key, field) && Spells(s, typeName, values, prefix, t) && depth <= MAX_DEPTH
    requires Fits(s, typeName, values, prefix, depth)
    ensures Spells(s, typeName, WithBlank(values, key), prefix, t)
    decreases t, 1
  {
    hide NamedHere, FieldsSpell;
    var fields := FieldsOf(s, typeName);
    assert fields[0..] == fields;
    FieldsSpellStill(s, typeName, values, prefix, depth, key, field, 0, t.fields);
  }

  lemma {:induction false} FieldsSpellStill(s: Schema, typeName: string, values: map<string, Control>, prefix: string, depth: nat, key: string, field: Field, i: nat, es: seq<Entry>)
    requires NamedHere(s, typeName, values, prefix, depth, key, field) && depth <= MAX_DEPTH && i <= |FieldsOf(s, typeName)|
    requires Fits(s, typeName, values, prefix, depth)
    requires FieldsSpell(s, FieldsOf(s, typeName)[i..], values, prefix, es)
    ensures FieldsSpell(s, FieldsOf(s, typeName)[i..], WithBlank(values, key), prefix, es)
    decreases es, |FieldsOf(s, typeName)| - i
  {
    hide NamedHere, NodeSpells, Present, Fits, WithBlank;
    var fields := FieldsOf(s, typeName);
    if i < |fields| {
      var name := prefix + fields[i].jsonName;
      assert fields[i..][1..] == fields[i + 1..];
      PresentStill(s, typeName, values, prefix, depth, key, field, i);
      if Present(fields[i].shape, values, name) {
        NodeSpellsStill(s, typeName, values, prefix, depth, key, field, i, es[0].node);
        FieldsSpellStill(s, typeName, values, prefix, depth, key, field, i + 1, es[1..]);
      } else {
        FieldsSpellStill(s, typeName, values, prefix, depth, key, field, i + 1, es);
      }
    }
  }

  lemma PresentStill(s: Schema, typeName: string, values: map<string, Control>, prefix: string, depth: nat, key: string, field: Field, i: nat)
    requires NamedHere(s, typeName, values, prefix, depth, key, field) && depth <= MAX_DEPTH && i < |FieldsOf(s, typeName)|
    ensures var outer := FieldsOf(s, typeName)[i];
            var name := prefix + outer.jsonName;
            Present(outer.shape, WithBlank(values, key), name) <==> Present(outer.shape, values, name)
  {
    hide HasKeysUnder, HasItem, Names, SchemaOk;
    match FieldsOf(s, typeName)[i].shape
    case SubMessage(_) => SubSees(s, typeName, values, prefix, depth, key, field, i);
    case MessageList(_) => ListSees(s, typeName, values, prefix, depth, key, field, i);
    case _ => LeafSees(s, typeName, values, prefix, depth, key, field, i);
  }

  lemma {:induction false} NodeSpellsStill(s: Schema, typeName: string, values: map<string, Control>, prefix: string, depth: nat, key: string, field: Field, i: nat, n: Node)
    requires NamedHere(s, typeName, values, prefix, depth, key, field) && depth <= MAX_DEPTH && i < |FieldsOf(s, typeName)|
    requires Fits(s, typeName, values, prefix, depth)
    requires var outer := FieldsOf(s, typeName)[i];
             Present(outer.shape, values, prefix + outer.jsonName) && NodeSpells(s, outer.shape, values, prefix + outer.jsonName, n)
    ensures var outer := FieldsOf(s, typeName)[i];
            NodeSpells(s, outer.shape, WithBlank(values, key), prefix + outer.jsonName, n)
    decreases n, 1
  {
    hide NamedHere, HasKeysUnder, HasItem, Spells, ItemPrefix, Fits;
    var outer := FieldsOf(s, typeName)[i];
    var name := prefix + outer.jsonName;
    FieldFitsHere(s, typeName, values, prefix, depth, i);
    match outer.shape
    case SubMessage(inner) =>
      SubSees(s, typeName, values, prefix, depth, key, field, i);
      FitsDepth(s, inner, values, name + ".", depth + 1);
      SpellsStill(s, inner, values, name + ".", depth + 1, key, field, n.message);
    case MessageList(inner) =>
      ListSees(s, typeName, values, prefix, depth, key, field, i);
      forall k | 0 <= k < |n.messages| ensures Spells(s, inner, WithBlank(values, key), ItemPrefix(name, k), n.messages[k]) {
        FitsDepth(s, inner, values, ItemPrefix(name, k), depth + 1);
        SpellsStill(s, inner, values, ItemPrefix(name, k), depth + 1, key, field, n.messages[k]);
      }
    case _ => IsFresh(s, typeName, values, prefix, depth, key, field);
  }

  lemma IsFresh(s: Schema, typeName: string, values: map<string, Control>, prefix: string, depth: nat, key: string, field: Field)
    requires NamedHere(s, typeName, values, prefix, depth, key, field)
    ensures key !in values
  {
  }

  lemma FieldFitsHere(s: Schema, typeName: string, values: map<string, Control>, prefix: string, depth: nat, i: nat)
    requires Fits(s, typeName, values, prefix, depth) && i < |FieldsOf(s, typeName)|
    ensures depth <= MAX_DEPTH && FieldFits(s, FieldsOf(s, typeName)[i], values, prefix, depth)
  {
    hide FieldFits;
  }

  lemma FitsDepth(s: Schema, typeName: string, values: map<string, Control>, prefix: string, depth: nat)
    requires Fits(s, typeName, values, prefix, depth)
    ensures depth <= MAX_DEPTH
  {
  }

  // ---------------------------------------------------------------- forms that spell the same message

  /** Both forms have a value for the field at `i`, or neither has; and they spell the same node for it. */
  ghost predicate SameAt(s: Schema, shape: Shape, a: map<string, Control>, b: map<string, Control>, name: string) {
    && (Present(shape, a, name) <==> Present(shape, b, name))
    && (Present(shape, a, name) ==> exists n :: NodeSpells(s, shape, a, name, n) && NodeSpells(s, shape, b, name, n))
  }

  lemma {:induction false} SameFields(s: Schema, fields: seq<Field>, a: map<string, Control>, b: map<string, Control>, prefix: string, es: seq<Entry>)
    requires FieldsOk(fields) && FieldsSpell(s, fields, a, prefix, es) && FieldsSpell(s, fields, b, prefix, es)
    ensures forall i :: 0 <= i < |fields| ==> SameAt(s, fields[i].shape, a, b, prefix + fields[i].jsonName)
    decreases |fields|
  {
    hide Present, NodeSpells, Simple;
    if fields != [] {
      var rest := fields[1..];
      var name := prefix + fields[0].jsonName;
      FirstIsNamed(s, rest, a, prefix, es);
      FirstIsNamed(s, rest, b, prefix, es);
      assert forall j :: 0 <= j < |rest| ==> rest[j] == fields[j + 1] && rest[j].jsonName != fields[0].jsonName;
      if Present(fields[0].shape, a, name) {
        assert NodeSpells(s, fields[0].shape, a, name, es[0].node) && NodeSpells(s, fields[0].shape, b, name, es[0].node);
        SameFields(s, rest, a, b, prefix, es[1..]);
      } else {
        SameFields(s, rest, a, b, prefix, es);
      }
      assert forall i :: 0 < i < |fields| ==> fields[i] == rest[i - 1];
    }
  }

  /** The first entry is named like one of the fields. */
  lemma {:induction false} FirstIsNamed(s: Schema, fields: seq<Field>, values: map<string, Control>, prefix: string, es: seq<Entry>)
    ensures FieldsSpell(s, fields, values, prefix, es) && es != [] ==>
              exists j :: 0 <= j < |fields| && fields[j].jsonName == es[0].name
    decreases |fields|
  {
    hide Present, NodeSpells;
    if fields != [] {
      FirstIsNamed(s, fields[1..], values, prefix, es);
      if Present(fields[0].shape, values, prefix + fields[0].jsonName) {
        assert FieldsSpell(s, fields, values, prefix, es) && es != [] ==> fields[0].jsonName == es[0].name;
      } else if FieldsSpell(s, fields, values, prefix, es) && es != [] {
        var j :| 0 <= j < |fields[1..]| && fields[1..][j].jsonName == es[0].name;
        assert fields[j + 1].jsonName == es[0].name;
      }
    }
  }

  /** A control with this name stands where the shape has room for one. */
  predicate Seated(shape: Shape, values: map<string, Control>, name: string) {
    name in values ==> !shape.MapField? && !shape.MessageList? && (shape.SubMessage? ==> HasKeysUnder(values, name + "."))
  }

  /** Forms that spell the same message fill the same messages inside it. */
  lemma {:induction false} SamePlaces(s: Schema, typeName: string, a: map<string, Control>, b: map<string, Control>, prefix: string, depth: nat, t: Tree, key: string, field: Field)
    requires SchemaOk(s) && Spells(s, typeName, a, prefix, t) && Spells(s, typeName, b, prefix, t)
    requires Fits(s, typeName, b, prefix, depth) && Names(s, typeName, b, prefix, depth, key, field)
    ensures Names(s, typeName, a, prefix, depth, key, field) && Seated(field.shape, b, key)
    ensures Present(field.shape, a, key) <==> Present(field.shape, b, key)
    decreases Budget(depth), 1
  {
    hide FieldNames, FieldFits, Present, FieldsSpell, SameAt, FieldsOk, Seated;
    var fields := FieldsOf(s, typeName);
    assert FieldsOk(fields) by { NoFields(); }
    SameFields(s, fields, a, b, prefix, t.fields);
    var i :| 0 <= i < |fields| && FieldNames(s, fields[i], b, prefix, depth, key, field);
    FieldFitsHere(s, typeName, b, prefix, depth, i);
    SameFieldPlaces(s, fields[i], a, b, prefix, depth, key, field);
  }

  lemma NoFields()
    ensures FieldsOk([])
  {
  }

  lemma {:induction false} SameFieldPlaces(s: Schema, outer: Field, a: map<string, Control>, b: map<string, Control>, prefix: string, depth: nat, key: string, field: Field)
    requires SchemaOk(s) && depth <= MAX_DEPTH && SameAt(s, outer.shape, a, b, prefix + outer.jsonName)
    requires FieldFits(s, outer, b, prefix, depth) && FieldNames(s, outer, b, prefix, depth, key, field)
    ensures FieldNames(s, outer, a, prefix, depth, key, field) && Seated(field.shape, b, key)
    ensures Present(field.shape, a, key) <==> Present(field.shape, b, key)
    decreases Budget(depth), 0
  {
    hide HasKeysUnder, Names, HasItem, ItemPrefix, Spells, SchemaOk, Fits, FewItems;
    var name := prefix + outer.jsonName;
    if !(field == outer && key == name) {
      match outer.shape
      case SubMessage(inner) =>
        var n :| NodeSpells(s, outer.shape, a, name, n) && NodeSpells(s, outer.shape, b, name, n);
        SamePlaces(s, inner, a, b, name + ".", depth + 1, n.message, key, field);
      case MessageList(inner) =>
        var i: nat :| HasItem(b, name, i) && Names(s, inner, b, ItemPrefix(name, i), depth + 1, key, field);
        FirstItem(b, name, i);
        var n :| NodeSpells(s, outer.shape, a, name, n) && NodeSpells(s, outer.shape, b, name, n);
        SamePlaces(s, inner, a, b, ItemPrefix(name, i), depth + 1, n.messages[i], key, field);
        assert HasItem(a, name, i);
    }
  }

  lemma FirstItem(values: map<string, Control>, name: string, i: nat)
    requires FewItems(values, name) && HasItem(values, name, i)
    ensures HasItem(values, name, 0)
  {
    hide HasItem, InSomeItem;
  }

  // ---------------------------------------------------------------- adding a blank control

  lemma {:induction false} ValuesWith(a: seq<(string, Input)>, key: string, b: seq<(string, Input)>)
    requires forall i :: 0 <= i < |b| ==> b[i].0 != key
    ensures ValuesOf(a + [(key, Input.Control(Text("")))] + b) == WithBlank(ValuesOf(a + b), key)
    decreases |b|
  {
    var blank := (key, Input.Control(Text("")));
    if b == [] {
      assert (a + [blank] + b)[..|a|] == a && a + b == a;
    } else {
      var front := b[..|b| - 1];
      ValuesWith(a, key, front);
      assert (a + [blank] + b)[..|a| + |b|] == a + [blank] + front;
      assert (a + b)[..|a| + |b| - 1] == a + front;
    }
  }

  /**
   An accepted form with room for one more control, and a blank control of a new name: the form is accepted
   with it and decodes to the same message if and only if the name is that of a field whose empty text means
   unset, in a message that other controls fill, or that of such a nested message itself.
   */
  lemma BlankControlChangesNothing(s: Schema, typeName: string, a: seq<(string, Input)>, key: string, b: seq<(string, Input)>)
    requires SchemaOk(s) && DecodeForm(s, typeName, a + b).Ok? && |a + b| < MAX_ITEMS
    requires forall i :: 0 <= i < |a + b| ==> (a + b)[i].0 != key
    ensures DecodeForm(s, typeName, a + [(key, Input.Control(Text("")))] + b) == DecodeForm(s, typeName, a + b) <==>
              exists field :: Names(s, typeName, ValuesOf(a + b), "", 0, key, field) && Mute(ValuesOf(a + b), key, field)
  {
    hide DecodeForm, Fits, Names, Spells, Mute, SchemaOk, WithBlank;
    var values := ValuesOf(a + b);
    var with := a + [(key, Input.Control(Text("")))] + b;
    var t := DecodeForm(s, typeName, a + b).value;
    FormIsAcceptedExactly(s, typeName, a + b, t);
    FormIsAcceptedExactly(s, typeName, with, t);
    ControlsAreValues(a + b);
    forall i | 0 <= i < |b| ensures b[i].0 != key { assert (a + b)[|a| + i] == b[i]; }
    ValuesWith(a, key, b);
    if field :| Names(s, typeName, values, "", 0, key, field) && Mute(values, key, field) {
      BlankIsAccepted(s, typeName, a, key, b, t, field);
    }
    if Acceptable(s, typeName, with) && Spells(s, typeName, WithBlank(values, key), "", t) {
      assert with[|a|].0 == key;
      var field :| Names(s, typeName, WithBlank(values, key), "", 0, key, field);
      SamePlaces(s, typeName, values, WithBlank(values, key), "", 0, t, key, field);
      SeatedIsMute(values, key, field);
    }
  }

  /** A field that has no more of a value with the blank control is mute. */
  lemma SeatedIsMute(values: map<string, Control>, key: string, field: Field)
    requires key !in values && Seated(field.shape, WithBlank(values, key), key)
    requires Present(field.shape, values, key) <==> Present(field.shape, WithBlank(values, key), key)
    ensures Mute(values, key, field)
  {
    MoreKeysUnder(values, key, key + ".");
  }

  lemma BlankIsAccepted(s: Schema, typeName: string, a: seq<(string, Input)>, key: string, b: seq<(string, Input)>, t: Tree, field: Field)
    requires SchemaOk(s) && Acceptable(s, typeName, a + b) && |a + b| < MAX_ITEMS && key !in ValuesOf(a + b)
    requires forall i :: 0 <= i < |b| ==> b[i].0 != key
    requires Spells(s, typeName, ValuesOf(a + b), "", t)
    requires Names(s, typeName, ValuesOf(a + b), "", 0, key, field) && Mute(ValuesOf(a + b), key, field)
    ensures var with := a + [(key, Input.Control(Text("")))] + b;
            Acceptable(s, typeName, with) && Spells(s, typeName, ValuesOf(with), "", t)
  {
    hide Fits, Names, Spells, Mute, SchemaOk, WithBlank;
    var values := ValuesOf(a + b);
    var with := a + [(key, Input.Control(Text("")))] + b;
    ValuesWith(a, key, b);
    assert NamedHere(s, typeName, values, "", 0, key, field);
    FitsStill(s, typeName, values, "", 0, key, field);
    SpellsStill(s, typeName, values, "", 0, key, field, t);
    forall i | 0 <= i < |with| ensures with[i].1.Control? && Claimed(s, typeName, WithBlank(values, key), with[i].0) {
      if i != |a| {
        var j := if i < |a| then i else i - 1;
        assert with[i] == (a + b)[j] && Claimed(s, typeName, values, (a + b)[j].0);
        var other :| Names(s, typeName, values, "", 0, with[i].0, other);
        NamesStill(s, typeName, values, "", 0, key, with[i].0, other);
      } else {
        NamesStill(s, typeName, values, "", 0, key, key, field);
      }
    }
  }
}

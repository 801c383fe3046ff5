/** `decodeMessage` as the program runs it: loops that push entries and mark controls as used. */
module FormDecoder {
  import opened FormValues
  import opened Outcomes

  class FormDecoder {
    const schema: Schema
    const values: map<string, Control>
    var used: set<string>

    constructor (s: Schema, v: map<string, Control>)
      ensures schema == s && values == v && used == {}
    {
      schema, values, used := s, v, {};
    }

    /** The entries of a message, in schema order. */
    method DecodeMessage(typeName: string, prefix: string, depth: nat) returns (result: Result<seq<Entry>, Failure>)
      modifies this
      ensures result == Entries(FormValues.DecodeMessage(schema, typeName, values, prefix, depth, old(used)))
      ensures result.Ok? ==> used == FormValues.DecodeMessage(schema, typeName, values, prefix, depth, old(used)).value.used
      decreases Budget(depth), 2, 0
    {
      if depth > MAX_DEPTH { return Err(Failure(prefix)); }
      hide DecodeField;
      var fields := FieldsOf(schema, typeName);
      var entries: seq<Entry> := [];
      ghost var before := used;
      var i := 0;
      assert fields[i..] == fields;
      BehindNothing(DecodeFields(schema, fields, values, prefix, depth, before));
      while i < |fields|
        invariant i <= |fields|
        invariant DecodeFields(schema, fields, values, prefix, depth, before)
               == Behind(entries, DecodeFields(schema, fields[i..], values, prefix, depth, used))
      {
        assert fields[i..][1..] == fields[i + 1..];
        var field := ReadField(fields[i], prefix, depth);
        if field.Err? { return Err(field.error); }
        BehindMore(entries, field.value, DecodeFields(schema, fields[i + 1..], values, prefix, depth, used));
        entries := entries + field.value;
        i := i + 1;
      }
      assert entries + [] == entries;
      return Ok(entries);
    }

    /** One field of a message. */
    method ReadField(field: Field, prefix: string, depth: nat) returns (result: Result<seq<Entry>, Failure>)
      requires depth <= MAX_DEPTH
      modifies this
      ensures result == Entries(DecodeField(schema, field, values, prefix, depth, old(used)))
      ensures result.Ok? ==> used == DecodeField(schema, field, values, prefix, depth, old(used)).value.used
      decreases Budget(depth), 1, 0
    {
      var name := prefix + field.jsonName;
      var raw := if name in values then Some(values[name]) else None;
      if name in values { used := used + {name}; }
      match field.shape {
        case SubMessage(typeName) =>
          if HasKeysUnder(values, name + ".") {
            var message := DecodeMessage(typeName, name + ".", depth + 1);
            if message.Err? { return Err(message.error); }
            return Ok([Entry(field.jsonName, Sub(Tree(message.value)))]);
          }
          if raw.Some? { return Err(Failure(name)); }
        case MessageList(typeName) =>
          if raw.Some? || !IndicesParse(values, name) { return Err(Failure(name)); }
          var count := |Indices(values, name)|;
          if count > MAX_ITEMS { return Err(Failure(name)); }
          if count > 0 {
            var messages := ReadItems(typeName, name, depth, count);
            if messages.Err? { return Err(messages.error); }
            return Ok([Entry(field.jsonName, Subs(messages.value))]);
          }
        case MapField =>
          if raw.Some? { return Err(Failure(name)); }
        case ScalarList =>
          if raw.Some? {
            var list := if raw.value.Text? then [raw.value.text] else raw.value.texts;
            if |list| > MAX_ITEMS { return Err(Failure(name)); }
            return Ok([Entry(field.jsonName, Many(list))]);
          }
        case Scalar(emptyUnset) =>
          if raw.Some? {
            if raw.value.List? { return Err(Failure(name)); }
            if !(raw.value.text == "" && emptyUnset) { return Ok([Entry(field.jsonName, One(raw.value.text))]); }
          }
      }
      return Ok([]);
    }

    /** The messages of a list, from index zero on; a missing index rejects the form. */
    method ReadItems(typeName: string, name: string, depth: nat, count: nat) returns (result: Result<seq<Tree>, Failure>)
      requires depth <= MAX_DEPTH && IndicesParse(values, name)
      modifies this
      ensures result.Ok? <==> DecodeItems(schema, typeName, values, name, depth, count, old(used)).Ok?
      ensures result.Ok? ==> (result.value, used) == DecodeItems(schema, typeName, values, name, depth, count, old(used)).value
      ensures result.Err? ==> result.error == DecodeItems(schema, typeName, values, name, depth, count, old(used)).error
      decreases Budget(depth), 0, 0
    {
      hide Indices, IndicesParse, ItemPrefix, FormValues.DecodeMessage;
      var messages: seq<Tree> := [];
      ghost var before := used;
      var index := 0;
      while index < count
        invariant index <= count
        invariant DecodeItems(schema, typeName, values, name, depth, index, before) == Ok((messages, used))
      {
        if index !in Indices(values, name) {
          StopsAt(schema, typeName, values, name, depth, index + 1, count, before);
          return Err(Failure(name));
        }
        var message := DecodeMessage(typeName, ItemPrefix(name, index), depth + 1);
        if message.Err? {
          StopsAt(schema, typeName, values, name, depth, index + 1, count, before);
          return Err(message.error);
        }
        messages := messages + [Tree(message.value)];
        index := index + 1;
      }
      return Ok(messages);
    }
  }

  function Entries(r: Result<Decoded, Failure>): Result<seq<Entry>, Failure> {
    match r
    case Ok(m) => Ok(m.fields)
    case Err(failure) => Err(failure)
  }

  /** Entries that were decoded before the rest. */
  ghost function Behind(entries: seq<Entry>, rest: Result<Decoded, Failure>): Result<Decoded, Failure> {
    match rest
    case Ok(m) => Ok(Decoded(entries + m.fields, m.used))
    case Err(failure) => Err(failure)
  }

  lemma BehindNothing(r: Result<Decoded, Failure>)
    ensures Behind([], r) == r
  {
    if r.Ok? { assert [] + r.value.fields == r.value.fields; }
  }

  lemma BehindMore(entries: seq<Entry>, more: seq<Entry>, rest: Result<Decoded, Failure>)
    ensures Behind(entries, Behind(more, rest)) == Behind(entries + more, rest)
  {
    if rest.Ok? { assert entries + (more + rest.value.fields) == (entries + more) + rest.value.fields; }
  }

  /** A list that fails at some index fails the same way with more indices to come. */
  lemma {:induction false} StopsAt(s: Schema, typeName: string, values: map<string, Control>, name: string, depth: nat, k: nat, count: nat, used: set<string>)
    requires depth <= MAX_DEPTH && IndicesParse(values, name) && k <= count
    requires DecodeItems(s, typeName, values, name, depth, k, used).Err?
    ensures DecodeItems(s, typeName, values, name, depth, count, used) == DecodeItems(s, typeName, values, name, depth, k, used)
    decreases count - k
  {
    if k < count { StopsAt(s, typeName, values, name, depth, k, count - 1, used); }
  }

  /** `decodeFormValues`: a form with too many controls, a malformed one or an unused one is rejected. */
  method DecodeFormValues(s: Schema, typeName: string, input: seq<(string, Input)>) returns (result: Result<Tree, Failure>)
    ensures result == DecodeForm(s, typeName, input)
  {
    if |input| > MAX_ITEMS { return Err(Failure("")); }
    var values: map<string, Control> := map[];
    var i := 0;
    assert input[0..] == input;
    while i < |input|
      invariant i <= |input| && values == ValuesOf(input[..i])
      invariant FirstMalformed(input[i..]) == FirstMalformed(input)
    {
      assert input[i..][1..] == input[i + 1..] && input[..i + 1][..i] == input[..i];
      if input[i].1.Malformed? { return Err(Failure(input[i].0)); }
      values := values[input[i].0 := input[i].1.control];
      i := i + 1;
    }
    assert input[..i] == input;
    var decoder := new FormDecoder(s, values);
    var entries := decoder.DecodeMessage(typeName, "", 0);
    if entries.Err? { return Err(entries.error); }
    var j := 0;
    while j < |input|
      invariant j <= |input| && FirstUnused(input[j..], decoder.used) == FirstUnused(input, decoder.used)
    {
      assert input[j..][1..] == input[j + 1..];
      if input[j].0 !in decoder.used { return Err(Failure(input[j].0)); }
      j := j + 1;
    }
    return Ok(Tree(entries.value));
  }
}

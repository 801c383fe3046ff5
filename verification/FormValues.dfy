/**
 `connect/forms`: flat control names decoded back into a nested message. Scalars are opaque strings, and
 a message type's fields are looked up by type name, so types may refer to themselves.
 */
module FormValues {
  import opened Decimal
  import opened Outcomes

  const MAX_DEPTH: nat := 32
  const MAX_ITEMS: nat := 1000

  // ---------------------------------------------------------------- schemas, values, controls

  /**
   `emptyUnset` says that an empty control leaves the field unset: it has explicit presence and is neither
   a string nor bytes, or it is a timestamp.
   */
  datatype Shape = Scalar(emptyUnset: bool) | ScalarList | SubMessage(typeName: string) | MessageList(typeName: string) | MapField

  datatype Field = Field(jsonName: string, shape: Shape)

  type Schema = map<string, seq<Field>>

  datatype Node = One(text: string) | Many(texts: seq<string>) | Sub(message: Tree) | Subs(messages: seq<Tree>)

  datatype Entry = Entry(name: string, node: Node)

  datatype Tree = Tree(fields: seq<Entry>)

  datatype Control = Text(text: string) | List(texts: seq<string>)

  datatype Failure = Failure(field: string)

  datatype Decoded = Decoded(fields: seq<Entry>, used: set<string>)

  function FieldsOf(s: Schema, typeName: string): seq<Field> {
    if typeName in s then s[typeName] else []
  }

  // ---------------------------------------------------------------- names

  datatype Part = FieldPart(jsonName: string) | ListPart(index: nat)

  /** `controlName`: a field behind a dot, an index in brackets. */
  function ControlName(path: seq<Part>): string {
    if path == [] then ""
    else
      var name := ControlName(path[..|path| - 1]);
      match path[|path| - 1]
      case FieldPart(jsonName) => name + (if name == "" then "" else ".") + jsonName
      case ListPart(index) => name + "[" + Render(index) + "]"
  }

  method BuildControlName(path: seq<Part>) returns (name: string)
    ensures name == ControlName(path)
  {
    name := "";
    var i := 0;
    while i < |path|
      invariant i <= |path| && name == ControlName(path[..i])
    {
      assert path[..i + 1][..i] == path[..i];
      match path[i] {
        case FieldPart(jsonName) => name := name + (if name == "" then "" else ".") + jsonName;
        case ListPart(index) => name := name + "[" + Render(index) + "]";
      }
      i := i + 1;
    }
    assert path[..i] == path;
  }

  function FirstIndexOf(s: string, c: char): (at: nat)
    ensures at <= |s| && (at < |s| ==> s[at] == c) && forall k :: 0 <= k < at ==> s[k] != c
  {
    if s == [] || s[0] == c then 0 else 1 + FirstIndexOf(s[1..], c)
  }

  /** The index at the start of what follows a list's name: brackets around a canonical numeral, then a dot. */
  function ParseIndex(rest: string): Option<nat> {
    var close := FirstIndexOf(rest, ']');
    if rest == "" || rest[0] != '[' || close + 1 >= |rest| || rest[close + 1] != '.' || !Canonical(rest[1..close]) then None
    else Some(Value(rest[1..close]))
  }

  function ItemKeys(values: map<string, Control>, name: string): set<string> {
    set key | key in values && name + "[" <= key
  }

  predicate IndicesParse(values: map<string, Control>, name: string) {
    forall key :: key in ItemKeys(values, name) ==> ParseIndex(key[|name|..]).Some?
  }

  function Indices(values: map<string, Control>, name: string): set<nat>
    requires IndicesParse(values, name)
  {
    set key | key in ItemKeys(values, name) :: ParseIndex(key[|name|..]).value
  }

  predicate HasKeysUnder(values: map<string, Control>, prefix: string) {
    exists key :: key in values && prefix <= key
  }

  function ItemPrefix(name: string, index: nat): string {
    name + "[" + Render(index) + "]."
  }

  // ---------------------------------------------------------------- decoding

  function Budget(depth: nat): nat {
    if depth <= MAX_DEPTH then MAX_DEPTH + 1 - depth else 0
  }

  function DecodeMessage(s: Schema, typeName: string, values: map<string, Control>, prefix: string, depth: nat, used: set<string>):
    Result<Decoded, Failure>
    decreases Budget(depth), 2, 0
  {
    if depth > MAX_DEPTH then Err(Failure(prefix))
    else DecodeFields(s, FieldsOf(s, typeName), values, prefix, depth, used)
  }

  /** The fields of a message, in schema order. */
  function DecodeFields(s: Schema, fields: seq<Field>, values: map<string, Control>, prefix: string, depth: nat, used: set<string>):
    Result<Decoded, Failure>
    requires depth <= MAX_DEPTH
    decreases Budget(depth), 1, |fields|
  {
    if fields == [] then Ok(Decoded([], used))
    else
      match DecodeField(s, fields[0], values, prefix, depth, used)
      case Err(failure) => Err(failure)
      case Ok(first) =>
        match DecodeFields(s, fields[1..], values, prefix, depth, first.used)
        case Err(failure) => Err(failure)
        case Ok(rest) => Ok(Decoded(first.fields + rest.fields, rest.used))
  }

  /** One field: no entry when no control names it. */
  function DecodeField(s: Schema, field: Field, values: map<string, Control>, prefix: string, depth: nat, used: set<string>):
    Result<Decoded, Failure>
    requires depth <= MAX_DEPTH
    decreases Budget(depth), 1, 0
  {
    var name := prefix + field.jsonName;
    var marked := if name in values then used + {name} else used;
    match field.shape
    case SubMessage(typeName) =>
      if HasKeysUnder(values, name + ".") then
        (match DecodeMessage(s, typeName, values, name + ".", depth + 1, marked)
         case Err(failure) => Err(failure)
         case Ok(m) => Ok(Decoded([Entry(field.jsonName, Sub(Tree(m.fields)))], m.used)))
      else if name in values then Err(Failure(name))
      else Ok(Decoded([], marked))
    case MessageList(typeName) =>
      if name in values || !IndicesParse(values, name) then Err(Failure(name))
      else
        var count := |Indices(values, name)|;
        if count > MAX_ITEMS then Err(Failure(name))
        else if count == 0 then Ok(Decoded([], marked))
        else
          (match DecodeItems(s, typeName, values, name, depth, count, marked)
           case Err(failure) => Err(failure)
           case Ok((messages, after)) => Ok(Decoded([Entry(field.jsonName, Subs(messages))], after)))
    case MapField => if name in values then Err(Failure(name)) else Ok(Decoded([], marked))
    case ScalarList =>
      if name !in values then Ok(Decoded([], marked))
      else
        var list := if values[name].Text? then [values[name].text] else values[name].texts;
        if |list| > MAX_ITEMS then Err(Failure(name)) else Ok(Decoded([Entry(field.jsonName, Many(list))], marked))
    case Scalar(emptyUnset) =>
      if name !in values then Ok(Decoded([], marked))
      else if values[name].List? then Err(Failure(name))
      else if values[name].text == "" && emptyUnset then Ok(Decoded([], marked))
      else Ok(Decoded([Entry(field.jsonName, One(values[name].text))], marked))
  }

  /** The messages `0..count` of a list, each of which must be there. */
  function DecodeItems(s: Schema, typeName: string, values: map<string, Control>, name: string, depth: nat, count: nat, used: set<string>):
    Result<(seq<Tree>, set<string>), Failure>
    requires depth <= MAX_DEPTH && IndicesParse(values, name)
    decreases Budget(depth), 0, count
  {
    if count == 0 then Ok(([], used))
    else
      match DecodeItems(s, typeName, values, name, depth, count - 1, used)
      case Err(failure) => Err(failure)
      case Ok((messages, after)) =>
        if count - 1 !in Indices(values, name) then Err(Failure(name))
        else
          match DecodeMessage(s, typeName, values, ItemPrefix(name, count - 1), depth + 1, after)
          case Err(failure) => Err(failure)
          case Ok(m) => Ok((messages + [Tree(m.fields)], m.used))
  }

  /** A form's raw input: an entry that is neither text nor a list of texts is rejected. */
  datatype Input = Control(control: Control) | Malformed

  function FirstMalformed(input: seq<(string, Input)>): Option<string> {
    if input == [] then None else if input[0].1.Malformed? then Some(input[0].0) else FirstMalformed(input[1..])
  }

  function ValuesOf(input: seq<(string, Input)>): map<string, Control> {
    if input == [] then map[]
    else
      var last := input[|input| - 1];
      var front := ValuesOf(input[..|input| - 1]);
      if last.1.Control? then front[last.0 := last.1.control] else front
  }

  function FirstUnused(input: seq<(string, Input)>, used: set<string>): Option<string> {
    if input == [] then None else if input[0].0 !in used then Some(input[0].0) else FirstUnused(input[1..], used)
  }

  /** `decodeFormValues` up to the conversion of scalars. */
  function DecodeForm(s: Schema, typeName: string, input: seq<(string, Input)>): Result<Tree, Failure> {
    if |input| > MAX_ITEMS then Err(Failure(""))
    else if FirstMalformed(input).Some? then Err(Failure(FirstMalformed(input).value))
    else
      match DecodeMessage(s, typeName, ValuesOf(input), "", 0, {})
      case Err(failure) => Err(failure)
      case Ok(m) =>
        if FirstUnused(input, m.used).Some? then Err(Failure(FirstUnused(input, m.used).value)) else Ok(Tree(m.fields))
  }

  // ---------------------------------------------------------------- flattening

  /** The controls of a message whose fields are named behind `prefix`. */
  function Flatten(t: Tree, prefix: string): seq<(string, Control)>
    decreases t, 0, 0
  {
    FlattenFields(t.fields, prefix)
  }

  function FlattenFields(fields: seq<Entry>, prefix: string): seq<(string, Control)>
    decreases fields, 0, 0
  {
    if fields == [] then []
    else
      var entry := fields[0];
      FlattenNode(entry.node, prefix + entry.name) + FlattenFields(fields[1..], prefix)
  }

  function FlattenNode(n: Node, name: string): seq<(string, Control)>
    decreases n, 0, 0
  {
    match n
    case One(text) => [(name, Text(text))]
    case Many(texts) => [(name, List(texts))]
    case Sub(message) => Flatten(message, name + ".")
    case Subs(messages) => FlattenItems(messages, name)
  }

  function FlattenItems(messages: seq<Tree>, name: string): seq<(string, Control)>
    decreases messages, 0, 0
  {
    if messages == [] then []
    else FlattenItems(messages[..|messages| - 1], name) + Flatten(messages[|messages| - 1], ItemPrefix(name, |messages| - 1))
  }
}

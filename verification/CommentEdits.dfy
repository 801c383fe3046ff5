/** `reflowSource`: the scan for comment groups and the splice of their edits into the file. */
module CommentEdits {
  import opened CommentFill
  import CommentFixedPoint
  import opened CommentGroups
  import opened CommentReflow
  import opened CommentText
  import opened Outcomes
  import opened SentenceWrap

  /** A comment's range in the file, and whether it is a line comment. */
  datatype Comment = Comment(pos: nat, end: nat, line: bool)

  datatype Edit = Edit(pos: nat, end: nat, replacement: string)

  /** Sorted, disjoint ranges inside the text. */
  ghost predicate Ranges(text: string, cs: seq<Comment>) {
    && (forall i :: 0 <= i < |cs| ==> cs[i].pos + 2 <= cs[i].end <= |text|)
    && (forall i, j :: 0 <= i < j < |cs| ==> cs[i].end <= cs[j].pos)
  }

  // ---------------------------------------------------------------- lines of the file

  function LineStart(text: string, pos: nat): (start: nat)
    requires pos <= |text|
    ensures start <= pos && (start > 0 ==> text[start - 1] == '\n')
    ensures forall k :: start <= k < pos ==> text[k] != '\n'
  {
    if pos > 0 && text[pos - 1] != '\n' then LineStart(text, pos - 1) else pos
  }

  method LineStartOf(text: string, pos: nat) returns (i: nat)
    requires pos <= |text|
    ensures i == LineStart(text, pos)
  {
    i := pos;
    while i > 0 && text[i - 1] != '\n'
      invariant i <= pos && LineStart(text, i) == LineStart(text, pos)
    {
      i := i - 1;
    }
  }

  function Before(text: string, c: Comment): string
    requires c.pos <= |text|
  {
    text[LineStart(text, c.pos)..c.pos]
  }

  function IndentOf(text: string, c: Comment): string
    requires c.pos <= |text|
  {
    Before(text, c)[..Lead(Before(text, c))]
  }

  function Text(text: string, c: Comment): string
    requires c.pos <= c.end <= |text|
  {
    text[c.pos..c.end]
  }

  /** Comments that machines read, and markers, are never touched. */
  predicate Directive(body: string) {
    || "biome-ignore" <= body || "eslint-" <= body || "prettier-ignore" <= body || "@ts-" <= body || "c8 " <= body
    || "v8 ignore" <= body || "dprint-" <= body || "#region" <= body || "#endregion" <= body
    || WordStart("region", body) || WordStart("endregion", body) || "/" <= body || "!" <= body
  }

  predicate WordStart(word: string, body: string) {
    word <= body && (|body| == |word| || !WordChar(body[|word|]))
  }

  predicate WordChar(c: char) {
    'a' <= c <= 'z' || 'A' <= c <= 'Z' || '0' <= c <= '9' || c == '_'
  }

  /** A line comment alone on its line that may be reflowed. */
  predicate Standalone(text: string, c: Comment)
    requires c.pos + 2 <= c.end <= |text|
  {
    c.line && Trim(Before(text, c)) == ""
    && !Directive(var body := text[c.pos + 2..c.end]; if body != [] && White(body[0]) then body[1..] else body)
  }

  /** One line break, and spaces or tabs behind it. */
  predicate OneBreak(gap: string) {
    var rest := if "\r\n" <= gap then gap[2..] else if "\n" <= gap then gap[1..] else "x";
    forall k :: 0 <= k < |rest| ==> rest[k] == ' ' || rest[k] == '\t'
  }

  predicate Contiguous(text: string, prev: Comment, next: Comment)
    requires prev.end <= next.pos <= |text|
  {
    OneBreak(text[prev.end..next.pos])
  }

  // ---------------------------------------------------------------- edits

  predicate Joins(text: string, cs: seq<Comment>, i: nat, j: nat)
    requires Ranges(text, cs) && i < j < |cs|
  {
    Standalone(text, cs[j]) && Contiguous(text, cs[j - 1], cs[j]) && IndentOf(text, cs[j]) == IndentOf(text, cs[i])
  }

  /** Where the group that starts at `i` ends, given that it reaches `j`. */
  ghost function GroupEnd(text: string, cs: seq<Comment>, i: nat, j: nat): (end: nat)
    requires Ranges(text, cs) && i < j <= |cs|
    ensures j <= end <= |cs|
    decreases |cs| - j
  {
    if j < |cs| && Joins(text, cs, i, j) then GroupEnd(text, cs, i, j + 1) else j
  }

  function JoinLines(lines: seq<string>): string {
    if lines == [] then "" else if |lines| == 1 then lines[0] else lines[0] + "\n" + JoinLines(lines[1..])
  }

  function SplitLines(text: string): (lines: seq<string>)
    ensures lines != []
  {
    if text == [] then [""]
    else if text[0] == '\n' then [""] + SplitLines(text[1..])
    else var rest := SplitLines(text[1..]); [[text[0]] + rest[0]] + rest[1..]
  }

  ghost function Texts(text: string, cs: seq<Comment>): seq<string>
    requires Ranges(text, cs)
  {
    seq(|cs|, k requires 0 <= k < |cs| => Text(text, cs[k]))
  }

  ghost predicate AtMostOne(edits: seq<Edit>, pos: nat, end: nat) {
    |edits| <= 1 && forall k :: 0 <= k < |edits| ==> edits[k].pos == pos && edits[k].end == end
  }

  function One(pos: nat, end: nat, original: string, replacement: Option<string>): (edits: seq<Edit>)
    ensures AtMostOne(edits, pos, end)
  {
    if replacement.Some? && replacement.value != original then [Edit(pos, end, replacement.value)] else []
  }

  /** The indent already precedes the first line of a replacement. */
  function GroupText(indent: string, lines: Option<seq<string>>): Option<string> {
    if lines.None? then None
    else Some(if lines.value == [] then "" else JoinLines([Unindent(indent, lines.value[0])] + lines.value[1..]))
  }

  /** The edit of the group `cs[i..j]`, if it changes anything. */
  ghost function GroupEdit(text: string, cs: seq<Comment>, i: nat, j: nat): (edits: seq<Edit>)
    requires Ranges(text, cs) && i < j <= |cs|
    ensures AtMostOne(edits, cs[i].pos, cs[j - 1].end)
  {
    var indent := IndentOf(text, cs[i]);
    assert Ranges(text, cs[i..j]);
    One(cs[i].pos, cs[j - 1].end, text[cs[i].pos..cs[j - 1].end], GroupText(indent, ReflowLineGroup(indent, Texts(text, cs[i..j]))))
  }

  ghost function BlockEdit(text: string, c: Comment): (edits: seq<Edit>)
    requires c.pos + 2 <= c.end <= |text|
    ensures AtMostOne(edits, c.pos, c.end)
  {
    if c.line then []
    else
      var lines := ReflowBlock(IndentOf(text, c), SplitLines(Text(text, c)), Trim(Before(text, c)) != "");
      One(c.pos, c.end, Text(text, c), if lines.None? then None else Some(JoinLines(lines.value)))
  }

  /** The comments from `i` on that are looked at together: a group, or a single other comment. */
  ghost function StretchEnd(text: string, cs: seq<Comment>, i: nat): (j: nat)
    requires Ranges(text, cs) && i < |cs|
    ensures i < j <= |cs|
  {
    if Standalone(text, cs[i]) then GroupEnd(text, cs, i, i + 1) else i + 1
  }

  /** Their edit, if it changes anything. */
  ghost function StretchEdit(text: string, cs: seq<Comment>, i: nat): seq<Edit>
    requires Ranges(text, cs) && i < |cs|
  {
    if Standalone(text, cs[i]) then GroupEdit(text, cs, i, StretchEnd(text, cs, i)) else BlockEdit(text, cs[i])
  }

  lemma {:induction false} StretchIsOne(text: string, cs: seq<Comment>, i: nat)
    requires Ranges(text, cs) && i < |cs|
    ensures AtMostOne(StretchEdit(text, cs, i), cs[i].pos, cs[StretchEnd(text, cs, i) - 1].end)
  {
    hide GroupEdit, BlockEdit, Standalone, AtMostOne, GroupEnd;
  }

  /** The edits for the comments from `i` on. */
  ghost function EditsFrom(text: string, cs: seq<Comment>, i: nat): seq<Edit>
    requires Ranges(text, cs) && i <= |cs|
    decreases |cs| - i
  {
    if i == |cs| then [] else StretchEdit(text, cs, i) + EditsFrom(text, cs, StretchEnd(text, cs, i))
  }

  /** Edits in file order that touch disjoint ranges. */
  ghost predicate Disjoint(text: string, edits: seq<Edit>) {
    && (forall i :: 0 <= i < |edits| ==> edits[i].pos <= edits[i].end <= |text|)
    && (forall i, j :: 0 <= i < j < |edits| ==> edits[i].end <= edits[j].pos)
  }

  /** The edit starts where a comment from `i` on starts and ends where one ends. */
  ghost predicate Covers(cs: seq<Comment>, i: nat, e: Edit) {
    exists a, b :: i <= a <= b < |cs| && e.pos == cs[a].pos && e.end == cs[b].end
  }

  /** The scan yields disjoint edits in file order, each over a run of whole comments. */
  lemma {:induction false} EditsAreDisjoint(text: string, cs: seq<Comment>, i: nat)
    requires Ranges(text, cs) && i <= |cs|
    ensures Disjoint(text, EditsFrom(text, cs, i))
    ensures forall k :: 0 <= k < |EditsFrom(text, cs, i)| ==> Covers(cs, i, EditsFrom(text, cs, i)[k])
    decreases |cs| - i
  {
    hide StretchEnd, StretchEdit;
    if i < |cs| {
      var j := StretchEnd(text, cs, i);
      var head := StretchEdit(text, cs, i);
      StretchIsOne(text, cs, i);
      EditsAreDisjoint(text, cs, j);
      var rest := EditsFrom(text, cs, j);
      forall k | 0 <= k < |rest| ensures cs[j - 1].end <= rest[k].pos && Covers(cs, i, rest[k]) {
        assert Covers(cs, j, rest[k]);
      }
      assert forall k :: 0 <= k < |head| ==> Covers(cs, i, head[k]);
      hide EditsFrom;
      DisjointJoin(text, head, rest, cs[j - 1].end);
    }
  }

  lemma DisjointJoin(text: string, head: seq<Edit>, rest: seq<Edit>, end: nat)
    requires Disjoint(text, head) && Disjoint(text, rest)
    requires (forall k :: 0 <= k < |head| ==> head[k].end <= end) && forall k :: 0 <= k < |rest| ==> end <= rest[k].pos
    ensures Disjoint(text, head + rest)
  {
  }

  // ---------------------------------------------------------------- the splice

  /** Left to right: the untouched gaps and the replacements between them. */
  ghost function Merge(text: string, from: nat, edits: seq<Edit>): string
    requires Disjoint(text, edits) && from <= |text| && (edits != [] ==> from <= edits[0].pos)
    decreases |edits|
  {
    if edits == [] then text[from..]
    else
      assert Disjoint(text, edits[1..]);
      text[from..edits[0].pos] + edits[0].replacement + Merge(text, edits[0].end, edits[1..])
  }

  /** What splicing the edits from the `k`-th on has made of the text: its front is still untouched. */
  lemma {:induction false} SpliceIsMerge(text: string, edits: seq<Edit>, from: nat)
    requires Disjoint(text, edits) && from <= |text| && (edits != [] ==> from <= edits[0].pos)
    ensures Merge(text, 0, edits) == text[..from] + Merge(text, from, edits)
  {
    if edits != [] {
      assert text[0..edits[0].pos] == text[..from] + text[from..edits[0].pos];
    }
  }

  /** The edits are applied from the last to the first, so none moves what is still to be edited. */
  method Splice(text: string, edits: seq<Edit>) returns (out: string)
    requires Disjoint(text, edits)
    ensures out == Merge(text, 0, edits)
  {
    out := text;
    var k: nat := |edits|;
    assert edits[k..] == [] && text[0..] == text;
    while k > 0
      invariant 0 <= k <= |edits| && Disjoint(text, edits[k..])
      invariant out == Merge(text, 0, edits[k..])
    {
      k := k - 1;
      var e := edits[k];
      ghost var rest := edits[k + 1..];
      assert edits[k..] == [e] + rest;
      SpliceIsMerge(text, rest, e.end);
      SpliceIsMerge(text, rest, e.pos);
      assert out[..e.pos] == text[..e.pos] by { assert text[..e.pos] == text[0..e.pos]; }
      assert out == text[..e.end] + Merge(text, e.end, rest);
      assert out[e.end..] == Merge(text, e.end, rest);
      out := out[..e.pos] + e.replacement + out[e.end..];
      assert edits[k..][1..] == rest;
    }
    assert edits[0..] == edits;
  }

  // ---------------------------------------------------------------- the program

  method AnyWide(indent: string, texts: seq<string>) returns (wide: bool)
    ensures wide <==> Wide(indent, texts)
  {
    var widest := 0;
    var k := 0;
    while k < |texts|
      invariant k <= |texts| && (widest > MAX_WIDTH <==> Wide(indent, texts[..k]))
    {
      WideGrows(indent, texts[..k], texts[k]);
      assert texts[..k + 1] == texts[..k] + [texts[k]];
      if |indent| + |texts[k]| > widest { widest := |indent| + |texts[k]|; }
      k := k + 1;
    }
    assert texts[..k] == texts;
    return widest > MAX_WIDTH;
  }

  method ReflowGroup(indent: string, texts: seq<string>) returns (lines: Option<seq<string>>)
    ensures lines == ReflowLineGroup(indent, texts)
  {
    var wide := AnyWide(indent, texts);
    if !wide { return None; }
    var contents: seq<string> := [];
    var k := 0;
    while k < |texts|
      invariant k <= |texts| && contents == Contents(texts[..k])
    {
      assert texts[..k + 1] == texts[..k] + [texts[k]];
      contents := contents + [Uncomment(texts[k])];
      k := k + 1;
    }
    assert texts[..k] == texts;
    var filled := FillContentLines(contents, indent + "// ", indent + "//");
    return Some(filled);
  }

  lemma WideGrows(indent: string, texts: seq<string>, text: string)
    ensures Wide(indent, texts + [text]) <==> Wide(indent, texts) || |indent| + |text| > MAX_WIDTH
  {
    var longer := texts + [text];
    if Wide(indent, texts) {
      var k :| 0 <= k < |texts| && |indent| + |texts[k]| > MAX_WIDTH;
      assert |indent| + |longer[k]| > MAX_WIDTH;
    }
    if |indent| + |text| > MAX_WIDTH { assert |indent| + |longer[|texts|]| > MAX_WIDTH; }
  }

  /** The contents of the lines of a block, unless one is not star-aligned. */
  method StarContents(inner: seq<string>) returns (contents: Option<seq<string>>)
    ensures contents.Some? <==> forall k :: 0 <= k < |inner| ==> StarLine(inner[k]).Some?
    ensures contents.Some? ==> contents.value == CommentFixedPoint.Map(StarContent, inner)
  {
    var found: seq<string> := [];
    var k := 0;
    while k < |inner|
      invariant k <= |inner| && forall i :: 0 <= i < k ==> StarLine(inner[i]).Some?
      invariant |found| == k && forall i :: 0 <= i < k ==> found[i] == StarContent(inner[i])
    {
      var content := StarLine(inner[k]);
      if content.None? { return None; }
      found := found + [content.value];
      k := k + 1;
    }
    return Some(found);
  }

  method ReflowBlockComment(indent: string, raw: seq<string>, isTrailing: bool) returns (lines: Option<seq<string>>)
    requires raw != []
    ensures lines == ReflowBlock(indent, raw, isTrailing)
  {
    hide Wide, StarLine, StarContent, FillLines, ClosingLine;
    if isTrailing || !("/**" <= raw[0]) || |raw| < 2 || !ClosingLine(raw[|raw| - 1]) { return None; }
    var inner := raw[1..|raw| - 1];
    assert forall i :: 0 <= i < |inner| ==> inner[i] == raw[i + 1];
    var contents := StarContents(inner);
    if contents.None? {
      var i :| 0 <= i < |inner| && StarLine(inner[i]).None?;
      assert StarLine(raw[i + 1]).None?;
      return None;
    }
    forall k | 0 < k < |raw| - 1 ensures StarLine(raw[k]).Some? { assert raw[k] == inner[k - 1]; }
    var wide := AnyWide(indent, raw);
    if !wide { return None; }
    var filled := FillContentLines(contents.value, indent + " * ", indent + " *");
    return Some(["/**"] + filled + [indent + " */"]);
  }

  lemma TextsGrow(text: string, cs: seq<Comment>, i: nat, j: nat)
    requires Ranges(text, cs) && i <= j < |cs|
    ensures Ranges(text, cs[i..j]) && Ranges(text, cs[i..j + 1])
    ensures cs[j].pos <= cs[j].end <= |text| && Texts(text, cs[i..j + 1]) == Texts(text, cs[i..j]) + [Text(text, cs[j])]
  {
    assert cs[i..j + 1] == cs[i..j] + [cs[j]];
  }

  /** Where the group that starts at `i` ends, and the texts of its comments. */
  method CollectGroup(text: string, cs: seq<Comment>, i: nat) returns (j: nat, texts: seq<string>)
    requires Ranges(text, cs) && i < |cs|
    ensures j == GroupEnd(text, cs, i, i + 1) && Ranges(text, cs[i..j]) && texts == Texts(text, cs[i..j])
  {
    hide Joins, Text, Texts;
    TextsGrow(text, cs, i, i);
    NoTexts(text, cs, i);
    texts := [Text(text, cs[i])];
    j := i + 1;
    while j < |cs| && Joins(text, cs, i, j)
      invariant i < j <= |cs| && GroupEnd(text, cs, i, j) == GroupEnd(text, cs, i, i + 1)
      invariant Ranges(text, cs[i..j]) && texts == Texts(text, cs[i..j])
    {
      TextsGrow(text, cs, i, j);
      texts := texts + [Text(text, cs[j])];
      j := j + 1;
    }
  }

  lemma NoTexts(text: string, cs: seq<Comment>, i: nat)
    requires Ranges(text, cs) && i <= |cs|
    ensures Ranges(text, cs[i..i]) && Texts(text, cs[i..i]) == []
  {
  }

  /** One turn of the scan: a group, or a comment that is not part of one. */
  method ReflowStretch(text: string, cs: seq<Comment>, i: nat) returns (edit: seq<Edit>, next: nat)
    requires Ranges(text, cs) && i < |cs|
    ensures edit == StretchEdit(text, cs, i) && next == StretchEnd(text, cs, i)
  {
    hide Directive, Lead, Trim, GroupEnd, ReflowLineGroup, ReflowBlock, GroupText, Texts;
    var c := cs[i];
    edit, next := [], i + 1;
    var start := LineStartOf(text, c.pos);
    var before := text[start..c.pos];
    var indent := before[..Lead(before)];
    if Standalone(text, c) {
      var texts;
      next, texts := CollectGroup(text, cs, i);
      var lines := ReflowGroup(indent, texts);
      edit := One(c.pos, cs[next - 1].end, text[c.pos..cs[next - 1].end], GroupText(indent, lines));
    } else if !c.line {
      var lines := ReflowBlockComment(indent, SplitLines(Text(text, c)), Trim(before) != "");
      edit := One(c.pos, c.end, Text(text, c), if lines.None? then None else Some(JoinLines(lines.value)));
    }
  }

  /**
   Every over-wide comment is replaced and every character outside an edited range is kept: the result is
   the left-to-right merge of the untouched gaps with the replacements of disjoint comment ranges.
   */
  method ReflowSource(text: string, cs: seq<Comment>) returns (out: string)
    requires Ranges(text, cs)
    ensures Disjoint(text, EditsFrom(text, cs, 0))
    ensures out == Merge(text, 0, EditsFrom(text, cs, 0))
  {
    hide StretchEdit, StretchEnd;
    EditsAreDisjoint(text, cs, 0);
    var edits: seq<Edit> := [];
    var i := 0;
    while i < |cs|
      invariant i <= |cs| && edits + EditsFrom(text, cs, i) == EditsFrom(text, cs, 0)
    {
      var edit, next := ReflowStretch(text, cs, i);
      edits := edits + edit;
      i := next;
    }
    assert edits == EditsFrom(text, cs, 0);
    out := Splice(text, edits);
  }
}

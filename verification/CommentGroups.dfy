/** Line comment groups and block comments: undecorated, filled when too wide, decorated again. */
module CommentGroups {
  import opened CommentFill
  import opened CommentFixedPoint
  import CommentReading
  import opened CommentText
  import opened Outcomes
  import opened SentenceWrap

  // ---------------------------------------------------------------- line comments

  /** A line comment without its slashes, one white space behind them, and trailing white space. */
  function Uncomment(text: string): string {
    var body := if |text| >= 2 then text[2..] else "";
    TrimEnd(if body != [] && White(body[0]) then body[1..] else body)
  }

  /** The comment on a line of the file, whose indent precedes it. */
  function Unindent(indent: string, line: string): string {
    if |line| >= |indent| then line[|indent|..] else ""
  }

  ghost predicate Wide(indent: string, texts: seq<string>) {
    exists k :: 0 <= k < |texts| && |indent| + |texts[k]| > MAX_WIDTH
  }

  ghost function Contents(texts: seq<string>): seq<string> {
    Map(Uncomment, texts)
  }

  /** The lines that replace a group of own-line comments, if one of them is over-wide. */
  ghost function ReflowLineGroup(indent: string, texts: seq<string>): Option<seq<string>> {
    if Wide(indent, texts) then Some(FillLines(Contents(texts), indent + "// ", indent + "//")) else None
  }

  /** The comments of lines as the next run finds them. */
  ghost function Rescanned(indent: string, lines: seq<string>): seq<string> {
    Map(line => Unindent(indent, line), lines)
  }

  lemma LineReads(indent: string, t: string)
    requires NoTrailingWhite(t)
    ensures Uncomment(Unindent(indent, indent + "// " + t)) == t
  {
    hide Lead, TrimEnd;
    var text := "// " + t;
    assert indent + "// " + t == indent + text && (indent + text)[|indent|..] == text;
    assert text[2..] == " " + t && (" " + t)[1..] == t;
    TrimEndIs(t);
  }

  lemma LineCommentsStrip(indent: string)
    ensures Strips(line => Uncomment(Unindent(indent, line)), indent + "// ", indent + "//")
  {
    hide Uncomment, Unindent, NoTrailingWhite;
    var read := line => Uncomment(Unindent(indent, line));
    BlankReads(indent);
    forall t | NoTrailingWhite(t) ensures read(indent + "// " + t) == t {
      LineReads(indent, t);
    }
  }

  lemma BlankReads(indent: string)
    ensures Uncomment(Unindent(indent, indent + "//")) == ""
  {
    assert (indent + "//")[|indent|..] == "//" && "//"[2..] == "";
  }

  lemma ContentsHaveNoTrailingWhite(texts: seq<string>)
    ensures forall k :: 0 <= k < |Contents(texts)| ==> NoTrailingWhite(Contents(texts)[k])
  {
    forall k | 0 <= k < |texts| ensures NoTrailingWhite(Uncomment(texts[k])) {
      var body := if |texts[k]| >= 2 then texts[k][2..] else "";
      TrimEndIs(if body != [] && White(body[0]) then body[1..] else body);
    }
  }

  /** A reflowed group is left alone by the next run: its comments fit, or fill to the same lines. */
  lemma LineGroupIsStable(indent: string, texts: seq<string>)
    requires forall j :: 0 <= j < |Blocks(Contents(texts))| ==> Stable(Blocks(Contents(texts))[j], |indent| + 3)
    ensures var lines := ReflowLineGroup(indent, texts);
            lines.Some? ==>
              var again := ReflowLineGroup(indent, Rescanned(indent, lines.value));
              again.None? || again == lines
  {
    hide Stable, Strips, FillLines, NoTrailingWhite;
    var read := line => Uncomment(Unindent(indent, line));
    var lines := FillLines(Contents(texts), indent + "// ", indent + "//");
    LineCommentsStrip(indent);
    ContentsHaveNoTrailingWhite(texts);
    FillIsFixedPoint(Contents(texts), indent + "// ", indent + "//", read);
    assert Contents(Rescanned(indent, lines)) == Map(read, lines);
  }

  // ---------------------------------------------------------------- block comments

  /** The content of a star-aligned line; `None` for any other line. */
  function StarLine(line: string): Option<string> {
    var k := Lead(line);
    if k == |line| || line[k] != '*' then None
    else
      var body := line[k + 1..];
      Some(TrimEnd(if body != [] && body[0] == ' ' then body[1..] else body))
  }

  predicate ClosingLine(line: string) {
    line[Lead(line)..] == "*/"
  }

  function StarContent(line: string): string {
    if StarLine(line).Some? then StarLine(line).value else ""
  }

  ghost predicate StarAligned(raw: seq<string>) {
    && |raw| >= 2 && "/**" <= raw[0] && ClosingLine(raw[|raw| - 1])
    && forall k :: 0 < k < |raw| - 1 ==> StarLine(raw[k]).Some?
  }

  ghost function Inner(raw: seq<string>): seq<string> {
    if |raw| >= 2 then raw[1..|raw| - 1] else []
  }

  /** The lines that replace a block comment given by its lines. */
  ghost function ReflowBlock(indent: string, raw: seq<string>, isTrailing: bool): Option<seq<string>> {
    if isTrailing || !StarAligned(raw) || !Wide(indent, raw) then None
    else Some(["/**"] + FillLines(Map(StarContent, Inner(raw)), indent + " * ", indent + " *") + [indent + " */"])
  }

  predicate AllWhite(indent: string) {
    forall i :: 0 <= i < |indent| ==> White(indent[i])
  }

  lemma StarReads(indent: string, t: string)
    requires AllWhite(indent) && NoTrailingWhite(t)
    ensures StarLine(indent + " * " + t) == Some(t) && StarLine(indent + " *") == Some("")
    ensures ClosingLine(indent + " */")
  {
    var lead := indent + " ";
    assert forall i :: 0 <= i < |lead| ==> White(lead[i]);
    TrimStartDrops(lead, "* " + t);
    TrimStartDrops(lead, "*");
    TrimStartDrops(lead, "*/");
    var line := lead + ("* " + t);
    assert indent + " * " + t == line && indent + " *" == lead + "*" && indent + " */" == lead + "*/";
    assert line[|lead| + 1..] == " " + t && (" " + t)[1..] == t;
    assert (lead + "*")[|lead| + 1..] == "";
    TrimEndIs(t);
  }

  lemma BlockLinesStrip(indent: string)
    requires AllWhite(indent)
    ensures Strips(StarContent, indent + " * ", indent + " *")
  {
    StarReads(indent, "");
    forall t | NoTrailingWhite(t) ensures StarContent(indent + " * " + t) == t {
      StarReads(indent, t);
    }
  }

  /** Every line a fill puts out is decorated, so it is star-aligned. */
  ghost predicate Decorated(lines: seq<string>, linePrefix: string, blankLine: string) {
    forall k :: 0 <= k < |lines| ==> lines[k] == blankLine || (linePrefix <= lines[k] && NoTrailingWhite(lines[k][|linePrefix|..]))
  }

  lemma {:induction false} LinesDecorated(segments: seq<seq<string>>, linePrefix: string, blankLine: string, first: string, cont: string)
    requires forall i :: 0 <= i < |segments| ==> segments[i] != [] && Sound(segments[i])
    ensures Decorated(Lines(segments, linePrefix + first, linePrefix + cont), linePrefix, blankLine)
    decreases |segments|
  {
    hide Sound, Join;
    if segments != [] {
      LinesDecorated(segments[1..], linePrefix, blankLine, cont, cont);
      JoinIsSolid(segments[0]);
      var line := linePrefix + first + Join(segments[0]);
      assert line[|linePrefix|..] == first + Join(segments[0]);
    }
  }

  lemma BlockDecorated(before: seq<Block>, b: Block, linePrefix: string, blankLine: string)
    requires BlockOk(before, b) && Stable(b, |linePrefix|)
    ensures Decorated(Show(b, linePrefix, blankLine), linePrefix, blankLine)
  {
    hide Segments, Sound, Lines, NoTrailingWhite;
    if b.Para? {
      SoundSegments(b, |linePrefix|);
      LinesDecorated(SegmentsOf(b, |linePrefix|), linePrefix, blankLine, b.marker, Hang(b));
    } else if b.Verbatim? {
      assert (linePrefix + b.text)[|linePrefix|..] == b.text;
    }
  }

  lemma {:induction false} BlocksDecorated(blocks: seq<Block>, linePrefix: string, blankLine: string)
    requires Readable(blocks) && forall j :: 0 <= j < |blocks| ==> Stable(blocks[j], |linePrefix|)
    ensures Decorated(ShowAll(blocks, linePrefix, blankLine), linePrefix, blankLine)
    decreases |blocks|
  {
    hide Readable, BlockOk, Stable, Show, NoTrailingWhite;
    if blocks != [] {
      ReadableFront(blocks);
      BlocksDecorated(blocks[..|blocks| - 1], linePrefix, blankLine);
      BlockDecorated(blocks[..|blocks| - 1], blocks[|blocks| - 1], linePrefix, blankLine);
    }
  }

  lemma DecoratedIsStarAligned(indent: string, lines: seq<string>)
    requires AllWhite(indent) && Decorated(lines, indent + " * ", indent + " *")
    ensures StarAligned(["/**"] + lines + [indent + " */"])
  {
    var raw := ["/**"] + lines + [indent + " */"];
    StarReads(indent, "");
    forall k | 0 < k < |raw| - 1 ensures StarLine(raw[k]).Some? {
      var line := lines[k - 1];
      assert raw[k] == line;
      if line != indent + " *" {
        var prefix := indent + " * ";
        StarReads(indent, line[|prefix|..]);
        assert line == prefix + line[|prefix|..];
      }
    }
  }

  lemma StarContentsHaveNoTrailingWhite(raw: seq<string>)
    ensures forall k :: 0 <= k < |raw| ==> NoTrailingWhite(StarContent(raw[k]))
  {
    forall k | 0 <= k < |raw| ensures NoTrailingWhite(StarContent(raw[k])) {
      var line := raw[k];
      if Lead(line) < |line| {
        var body := line[Lead(line) + 1..];
        TrimEndIs(if body != [] && body[0] == ' ' then body[1..] else body);
      }
    }
  }

  /** A reflowed block comment is left alone by the next run. */
  lemma {:induction false} BlockIsStable(indent: string, raw: seq<string>)
    requires AllWhite(indent) && StarAligned(raw)
    requires var blocks := Blocks(Map(StarContent, Inner(raw)));
             forall j :: 0 <= j < |blocks| ==> Stable(blocks[j], |indent| + 3)
    ensures var lines := ReflowBlock(indent, raw, false);
            lines.Some? ==>
              && StarAligned(lines.value)
              && var again := ReflowBlock(indent, lines.value, false);
                 again.None? || again == lines
  {
    hide Stable, Strips, Decorated, NoTrailingWhite, StarAligned, StarContent, Readable, Blocks, FillLines, AllWhite;
    var inner := Inner(raw);
    var contents := Map(StarContent, inner);
    var filled := FillLines(contents, indent + " * ", indent + " *");
    StarContentsHaveNoTrailingWhite(inner);
    BlockLinesStrip(indent);
    FillIsFixedPoint(contents, indent + " * ", indent + " *", StarContent);
    FilledIsDecorated(contents, indent + " * ", indent + " *");
    DecoratedIsStarAligned(indent, filled);
    var lines := ["/**"] + filled + [indent + " */"];
    assert Inner(lines) == filled;
  }

  /**
   Conservation stops at the opening line of a block: text that stands there does not survive the reflow,
   for the result is the same whatever that line goes on with.
   */
  lemma OpeningTextIsDropped(indent: string, raw: seq<string>, opening: string)
    requires ReflowBlock(indent, raw, false).Some?
    requires "/**" <= opening && Wide(indent, raw[0 := opening])
    ensures ReflowBlock(indent, raw[0 := opening], false) == ReflowBlock(indent, raw, false)
  {
    hide FillLines, Wide;
    var other := raw[0 := opening];
    assert Inner(other) == Inner(raw);
    assert forall k :: 0 < k < |raw| - 1 ==> other[k] == raw[k];
  }

  lemma FilledIsDecorated(contents: seq<string>, linePrefix: string, blankLine: string)
    requires forall k :: 0 <= k < |contents| ==> NoTrailingWhite(contents[k])
    requires forall j :: 0 <= j < |Blocks(contents)| ==> Stable(Blocks(contents)[j], |linePrefix|)
    ensures Decorated(FillLines(contents, linePrefix, blankLine), linePrefix, blankLine)
  {
    hide Stable, Decorated, NoTrailingWhite, Readable;
    CommentReading.LinesRead(contents);
    BlocksDecorated(Blocks(contents), linePrefix, blankLine);
  }
}

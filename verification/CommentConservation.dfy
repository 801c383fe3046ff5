/**
 What reflow keeps of a comment: everything but white space and decoration, in order, with one exception.
 Text on the opening line of a block comment is lost.
 */
module CommentConservation {
  import opened CommentFill
  import opened CommentFixedPoint
  import opened CommentGroups
  import CommentReading
  import opened CommentText
  import opened Outcomes
  import opened SentenceWrap
  import opened WordTokens

  // ---------------------------------------------------------------- ink

  /** The characters of a text that are not white space, in order. */
  function Ink(s: string): string {
    if s == [] then [] else (if White(s[0]) then [] else [s[0]]) + Ink(s[1..])
  }

  /** The ink of all lines, or of all words. */
  function InkOf(lines: seq<string>): string {
    if lines == [] then [] else Ink(lines[0]) + InkOf(lines[1..])
  }

  lemma {:induction false} InkJoins(a: string, b: string)
    ensures Ink(a + b) == Ink(a) + Ink(b)
  {
    hide White;
    if a == [] {
      assert a + b == b;
    } else {
      InkJoins(a[1..], b);
      assert (a + b)[1..] == a[1..] + b;
    }
  }

  lemma {:induction false} InkOfJoins(a: seq<string>, b: seq<string>)
    ensures InkOf(a + b) == InkOf(a) + InkOf(b)
  {
    hide Ink;
    if a == [] {
      assert a + b == b;
    } else {
      InkOfJoins(a[1..], b);
      assert (a + b)[1..] == a[1..] + b && (a + b)[0] == a[0];
    }
  }

  /** White space leaves no ink, and only white space does. */
  lemma {:induction false} WhiteHasNoInk(s: string)
    ensures Ink(s) == [] <==> AllWhite(s)
  {
    hide White;
    if s != [] {
      WhiteHasNoInk(s[1..]);
      if AllWhite(s[1..]) && White(s[0]) {
        forall i | 0 <= i < |s| ensures White(s[i]) {
          if i > 0 { assert s[i] == s[1..][i - 1]; }
        }
      }
      if AllWhite(s) {
        assert forall i :: 0 <= i < |s| - 1 ==> s[1..][i] == s[i + 1];
      }
    }
  }

  lemma InkBehindWhite(s: string, n: nat)
    requires n <= |s| && AllWhite(s[..n])
    ensures Ink(s[n..]) == Ink(s)
  {
    WhiteHasNoInk(s[..n]);
    InkJoins(s[..n], s[n..]);
    assert s == s[..n] + s[n..];
  }

  lemma {:induction false} TrimEndKeepsInk(s: string)
    ensures Ink(TrimEnd(s)) == Ink(s)
  {
    hide White;
    if s != [] && White(s[|s| - 1]) {
      TrimEndKeepsInk(s[..|s| - 1]);
      InkJoins(s[..|s| - 1], [s[|s| - 1]]);
      assert s == s[..|s| - 1] + [s[|s| - 1]];
      assert Ink([s[|s| - 1]]) == [] + Ink([]);
    }
  }

  lemma TrimKeepsInk(s: string)
    ensures Ink(Trim(s)) == Ink(s)
  {
    InkBehindWhite(s, Lead(s));
    TrimEndKeepsInk(TrimStart(s));
  }

  // ---------------------------------------------------------------- words

  lemma SkippedIsWhite(s: string, i: nat)
    requires i <= |s|
    ensures Ink(s[SkipBlanks(s, i)..]) == Ink(s[i..])
  {
    var start := SkipBlanks(s, i);
    var t := s[i..];
    assert forall k :: 0 <= k < start - i ==> t[k] == s[i + k];
    InkBehindWhite(t, start - i);
    assert t[start - i..] == s[start..];
  }

  lemma {:induction false} TokensKeepInk(s: string, i: nat)
    requires i <= |s|
    ensures InkOf(TokensFrom(s, i)) == Ink(s[i..])
    decreases |s| - i
  {
    hide UnitEnd, SkipBlanks, Ink;
    var start := SkipBlanks(s, i);
    SkippedIsWhite(s, i);
    if start == |s| {
      assert s[start..] == [];
      NoInk();
    } else {
      var end := UnitEnd(s, start);
      TokensKeepInk(s, end);
      InkJoins(s[start..end], s[end..]);
      assert s[start..] == s[start..end] + s[end..];
    }
  }

  lemma NoInk()
    ensures Ink([]) == []
  {
  }

  /** Cutting prose into words loses nothing. */
  lemma TokenizeKeepsInk(s: string)
    ensures InkOf(Tokenize(s)) == Ink(s)
  {
    TokensKeepInk(s, 0);
    assert s[0..] == s;
  }

  lemma {:induction false} JoinKeepsInk(words: seq<string>)
    ensures Ink(Join(words)) == InkOf(words)
  {
    hide Ink;
    NoInk();
    if |words| == 1 {
      assert words[1..] == [];
    } else if words != [] {
      JoinKeepsInk(words[1..]);
      InkJoins(words[0] + " ", Join(words[1..]));
      InkJoins(words[0], " ");
      WhiteHasNoInk(" ");
    }
  }

  // ---------------------------------------------------------------- reading

  function BlockInk(b: Block): string {
    match b
    case Empty => []
    case Verbatim(text) => Ink(text)
    case Para(_, marker, words) => Ink(marker) + InkOf(words)
  }

  function BlocksInk(blocks: seq<Block>): string {
    if blocks == [] then [] else BlocksInk(blocks[..|blocks| - 1]) + BlockInk(blocks[|blocks| - 1])
  }

  function ReadInk(s: Reading): string {
    BlocksInk(s.done) + if s.para.Some? then BlockInk(s.para.value) else []
  }

  /** Inside a fence no paragraph is open. */
  predicate Proper(s: Reading) {
    s.fenced ==> s.para.None?
  }

  lemma OneMoreInk(blocks: seq<Block>, b: Block)
    ensures BlocksInk(blocks + [b]) == BlocksInk(blocks) + BlockInk(b)
  {
    assert (blocks + [b])[..|blocks|] == blocks;
  }

  lemma FlushKeepsInk(s: Reading)
    ensures BlocksInk(Flush(s).done) == ReadInk(s)
  {
    hide BlockInk;
    if s.para.Some? { OneMoreInk(s.done, s.para.value); }
  }

  lemma KeepAddsInk(s: Reading, b: Block)
    ensures ReadInk(Keep(s, b)) == ReadInk(s) + BlockInk(b) && Keep(s, b).para.None?
  {
    hide BlockInk, BlocksInk;
    FlushKeepsInk(s);
    OneMoreInk(Flush(s).done, b);
  }

  lemma OpenAddsInk(s: Reading, b: Block)
    ensures ReadInk(Open(s, b)) == ReadInk(s) + BlockInk(b) && (!s.fenced ==> Proper(Open(s, b)))
  {
    hide BlockInk, BlocksInk;
    FlushKeepsInk(s);
  }

  /** One line adds its ink, whichever way it is read. */
  lemma LineAddsInk(s: Reading, content: string)
    requires Proper(s)
    ensures ReadInk(Read(s, content)) == ReadInk(s) + Ink(content) && Proper(Read(s, content))
  {
    hide Ink, BlocksInk, Trim, MarkerEnd, Tokenize, Fence, TableRow, TagLine, InkOf, BlockInk, Flush;
    var t := Trim(content);
    TrimKeepsInk(content);
    TokenizeKeepsInk(t);
    NoInk();
    if s.fenced {
      OneMoreInk(s.done, Verbatim(content));
      LineInk(content);
    } else if Fence(t) || t == [] || TableRow(t) {
      LineInk(content);
      KeepAddsInk(s, if Fence(t) || t != [] then Verbatim(content) else Empty);
    } else if TagLine(t) {
      WordsInk(Tag, Tokenize(t));
      OpenAddsInk(s, Para(Tag, "", Tokenize(t)));
    } else if MarkerEnd(content) > 0 {
      ItemInk(content, MarkerEnd(content));
      OpenAddsInk(s, Para(Item, content[..MarkerEnd(content)], Tokenize(content[MarkerEnd(content)..])));
    } else if s.para.Some? && s.para.value.Para? {
      ContinuingAddsInk(s, Tokenize(t));
    } else {
      WordsInk(Plain, Tokenize(t));
      OpenAddsInk(s, Para(Plain, "", Tokenize(t)));
    }
  }

  lemma LineInk(content: string)
    ensures BlockInk(Verbatim(content)) == Ink(content) && BlockInk(Empty) == []
  {
  }

  lemma WordsInk(kind: Kind, words: seq<string>)
    ensures BlockInk(Para(kind, "", words)) == InkOf(words)
  {
  }

  lemma ContinuingAddsInk(s: Reading, more: seq<string>)
    requires s.para.Some? && s.para.value.Para?
    ensures ReadInk(s.(para := Some(s.para.value.(words := s.para.value.words + more)))) == ReadInk(s) + InkOf(more)
  {
    hide InkOf, Ink, BlocksInk;
    InkOfJoins(s.para.value.words, more);
  }

  lemma ItemInk(content: string, end: nat)
    requires end <= |content|
    ensures BlockInk(Para(Item, content[..end], Tokenize(content[end..]))) == Ink(content)
  {
    hide Ink, InkOf, Tokenize;
    TokenizeKeepsInk(content[end..]);
    InkJoins(content[..end], content[end..]);
    assert content == content[..end] + content[end..];
  }

  lemma {:induction false} ReadAllKeepsInk(contents: seq<string>)
    ensures var s := ReadAll(Reading([], None, false), contents);
            ReadInk(s) == InkOf(contents) && Proper(s)
    decreases |contents|
  {
    hide Read, Ink;
    if contents != [] {
      var front, last := contents[..|contents| - 1], contents[|contents| - 1];
      ReadAllKeepsInk(front);
      LineAddsInk(ReadAll(Reading([], None, false), front), last);
      InkOfJoins(front, [last]);
      assert contents == front + [last] && [last][1..] == [];
    }
  }

  /** Reading lines into blocks keeps their ink: words, markers, fences, tables and tags alike. */
  lemma BlocksConserve(contents: seq<string>)
    ensures BlocksInk(Blocks(contents)) == InkOf(contents)
  {
    ReadAllKeepsInk(contents);
    FlushKeepsInk(ReadAll(Reading([], None, false), contents));
  }

  // ---------------------------------------------------------------- writing

  /** `read` takes the decoration off a line and loses no ink behind it. */
  ghost predicate KeepsInk(read: string -> string, linePrefix: string, blankLine: string) {
    Ink(read(blankLine)) == [] && forall t :: Ink(read(linePrefix + t)) == Ink(t)
  }

  lemma {:induction false} LinesKeepInk(read: string -> string, linePrefix: string, blankLine: string,
                                        segments: seq<seq<string>>, first: string, cont: string)
    requires KeepsInk(read, linePrefix, blankLine) && Ink(cont) == []
    ensures InkOf(Map(read, Lines(segments, linePrefix + first, linePrefix + cont))) ==
              (if segments == [] then [] else Ink(first)) + InkOf(Concat(segments))
    decreases |segments|
  {
    hide Join, Ink;
    if segments != [] {
      var rest := Lines(segments[1..], linePrefix + cont, linePrefix + cont);
      var line := linePrefix + first + Join(segments[0]);
      LinesKeepInk(read, linePrefix, blankLine, segments[1..], cont, cont);
      assert line == linePrefix + (first + Join(segments[0]));
      assert Ink(read(line)) == Ink(first) + InkOf(segments[0]) by {
        InkJoins(first, Join(segments[0]));
        JoinKeepsInk(segments[0]);
      }
      MapSplits(read, [line], rest);
      InkOfJoins(Map(read, [line]), Map(read, rest));
      assert Map(read, [line]) == [read(line)] && [read(line)][1..] == [];
      InkOfJoins(segments[0], Concat(segments[1..]));
    }
  }

  lemma HangHasNoInk(b: Block)
    requires b.Para?
    ensures Ink(Hang(b)) == []
  {
    WhiteHasNoInk(Hang(b));
  }

  lemma BlockShowsInk(read: string -> string, linePrefix: string, blankLine: string, b: Block)
    requires KeepsInk(read, linePrefix, blankLine) && (b.Para? ==> b.words != [])
    ensures InkOf(Map(read, Show(b, linePrefix, blankLine))) == BlockInk(b)
  {
    hide Ink, Segments;
    match b
    case Empty => OneLine(read, blankLine);
    case Verbatim(text) => OneLine(read, linePrefix + text);
    case Para(_, marker, words) =>
      var segments := Segments(words, |linePrefix + marker|, |linePrefix + Hang(b)|);
      WrapConserves(words, |linePrefix + marker|, |linePrefix + Hang(b)|);
      HangHasNoInk(b);
      LinesKeepInk(read, linePrefix, blankLine, segments, marker, Hang(b));
  }

  lemma OneLine(read: string -> string, line: string)
    ensures InkOf(Map(read, [line])) == Ink(read(line))
  {
    assert Map(read, [line]) == [read(line)] && [read(line)][1..] == [];
  }

  lemma {:induction false} AllShowInk(read: string -> string, linePrefix: string, blankLine: string, blocks: seq<Block>)
    requires KeepsInk(read, linePrefix, blankLine)
    requires forall j :: 0 <= j < |blocks| && blocks[j].Para? ==> blocks[j].words != []
    ensures InkOf(Map(read, ShowAll(blocks, linePrefix, blankLine))) == BlocksInk(blocks)
    decreases |blocks|
  {
    hide KeepsInk, Show, BlockInk, Ink, InkOf;
    if blocks == [] {
      assert Map(read, ShowAll(blocks, linePrefix, blankLine)) == [];
      NoLinesNoInk();
    } else {
      var front, last := blocks[..|blocks| - 1], blocks[|blocks| - 1];
      AllShowInk(read, linePrefix, blankLine, front);
      BlockShowsInk(read, linePrefix, blankLine, last);
      MapSplits(read, ShowAll(front, linePrefix, blankLine), Show(last, linePrefix, blankLine));
      InkOfJoins(Map(read, ShowAll(front, linePrefix, blankLine)), Map(read, Show(last, linePrefix, blankLine)));
    }
  }

  lemma NoLinesNoInk()
    ensures InkOf([]) == []
  {
  }

  /** Comment lines have no trailing white space, so a paragraph read from them has words. */
  lemma ParagraphsHaveWords(contents: seq<string>)
    requires forall k :: 0 <= k < |contents| ==> NoTrailingWhite(contents[k])
    ensures forall j :: 0 <= j < |Blocks(contents)| && Blocks(contents)[j].Para? ==> Blocks(contents)[j].words != []
  {
    hide Blocks, NoTrailingWhite, Fenced;
    CommentReading.LinesRead(contents);
    var blocks := Blocks(contents);
    forall j | 0 <= j < |blocks| && blocks[j].Para? ensures blocks[j].words != [] {
      assert BlockOk(blocks[..j], blocks[j]);
    }
  }

  /**
   Filling keeps the text: behind the decoration, the written lines hold the characters of the lines that
   were read, in order, and differ from them in white space only.
   */
  lemma FillConserves(contents: seq<string>, linePrefix: string, blankLine: string, read: string -> string)
    requires forall k :: 0 <= k < |contents| ==> NoTrailingWhite(contents[k])
    requires KeepsInk(read, linePrefix, blankLine)
    ensures InkOf(Map(read, FillLines(contents, linePrefix, blankLine))) == InkOf(contents)
  {
    hide Blocks, NoTrailingWhite, KeepsInk, InkOf, BlocksInk;
    ParagraphsHaveWords(contents);
    AllShowInk(read, linePrefix, blankLine, Blocks(contents));
    BlocksConserve(contents);
  }

  // ---------------------------------------------------------------- line comments

  lemma UncommentKeepsInk(indent: string, t: string)
    ensures Ink(Uncomment(Unindent(indent, indent + "// " + t))) == Ink(t)
  {
    hide TrimEnd, Ink;
    var text := "// " + t;
    assert indent + "// " + t == indent + text && (indent + text)[|indent|..] == text;
    assert text[2..] == " " + t && (" " + t)[1..] == t;
    TrimEndKeepsInk(t);
  }

  lemma UncommentLosesNothing(indent: string)
    ensures KeepsInk(line => Uncomment(Unindent(indent, line)), indent + "// ", indent + "//")
  {
    hide Uncomment, Unindent;
    var read := line => Uncomment(Unindent(indent, line));
    BlankReads(indent);
    forall t ensures Ink(read(indent + "// " + t)) == Ink(t) {
      UncommentKeepsInk(indent, t);
    }
  }

  /** Reflowing line comments keeps their text, in every case. */
  lemma LineGroupConserves(indent: string, texts: seq<string>)
    ensures var lines := ReflowLineGroup(indent, texts);
            lines.Some? ==> InkOf(Contents(Rescanned(indent, lines.value))) == InkOf(Contents(texts))
  {
    hide KeepsInk, FillLines, NoTrailingWhite, InkOf;
    var read := line => Uncomment(Unindent(indent, line));
    var lines := FillLines(Contents(texts), indent + "// ", indent + "//");
    UncommentLosesNothing(indent);
    ContentsHaveNoTrailingWhite(texts);
    FillConserves(Contents(texts), indent + "// ", indent + "//", read);
    assert Contents(Rescanned(indent, lines)) == Map(read, lines);
  }

  // ---------------------------------------------------------------- block comments

  lemma StarKeepsInk(indent: string, t: string)
    requires AllWhite(indent)
    ensures Ink(StarContent(indent + " * " + t)) == Ink(t)
  {
    hide TrimEnd, Ink;
    var lead := indent + " ";
    assert forall i :: 0 <= i < |lead| ==> White(lead[i]);
    TrimStartDrops(lead, "* " + t);
    var line := lead + ("* " + t);
    assert indent + " * " + t == line;
    assert line[|lead| + 1..] == " " + t && (" " + t)[1..] == t;
    TrimEndKeepsInk(t);
  }

  lemma StarLosesNothing(indent: string)
    requires AllWhite(indent)
    ensures KeepsInk(StarContent, indent + " * ", indent + " *")
  {
    hide StarContent, Ink;
    StarReads(indent, "");
    assert StarContent(indent + " *") == "" by { BlankStar(indent); }
    NoInk();
    forall t ensures Ink(StarContent(indent + " * " + t)) == Ink(t) {
      StarKeepsInk(indent, t);
    }
  }

  lemma BlankStar(indent: string)
    requires StarLine(indent + " *") == Some("")
    ensures StarContent(indent + " *") == ""
  {
  }

  /** What stands behind the opening of a block comment, on its line. */
  function OpeningText(raw: seq<string>): string {
    if raw != [] && |raw[0]| >= 3 then raw[0][3..] else ""
  }

  /** The ink of a block comment: its opening line, then the contents of its star-aligned lines. */
  ghost function BlockText(raw: seq<string>): string {
    Ink(OpeningText(raw)) + InkOf(Map(StarContent, Inner(raw)))
  }

  /**
   A reflowed block comment has kept its text if and only if nothing but white space stood behind the `/`
   and the two stars that open it. Its other lines keep theirs in any case.
   */
  lemma BlockConservesExactly(indent: string, raw: seq<string>)
    requires AllWhite(indent)
    ensures var lines := ReflowBlock(indent, raw, false);
            lines.Some? ==>
              && InkOf(Map(StarContent, Inner(lines.value))) == InkOf(Map(StarContent, Inner(raw)))
              && (BlockText(lines.value) == BlockText(raw) <==> AllWhite(OpeningText(raw)))
  {
    hide KeepsInk, FillLines, NoTrailingWhite, InkOf, StarContent, Ink, AllWhite, Wide, StarAligned;
    var inner := Inner(raw);
    var contents := Map(StarContent, inner);
    var filled := FillLines(contents, indent + " * ", indent + " *");
    StarContentsHaveNoTrailingWhite(inner);
    StarLosesNothing(indent);
    FillConserves(contents, indent + " * ", indent + " *", StarContent);
    var lines := ["/**"] + filled + [indent + " */"];
    assert Inner(lines) == filled;
    NoInk();
    assert OpeningText(lines) == "";
    WhiteHasNoInk(OpeningText(raw));
    assert |BlockText(raw)| == |Ink(OpeningText(raw))| + |InkOf(contents)|;
  }
}

/** The lines a fill writes: each holds no line break, and none reads as a directive if no word does. */
module CommentLines {
  import opened CommentEdits
  import opened CommentFill
  import opened CommentFixedPoint
  import CommentReading
  import opened CommentText
  import opened Outcomes
  import opened SentenceWrap
  import opened WordTokens

  // ---------------------------------------------------------------- what blocks are made of

  predicate NoBreak(s: string) {
    '\n' !in s
  }

  ghost predicate NoBreaks(lines: seq<string>) {
    forall k :: 0 <= k < |lines| ==> NoBreak(lines[k])
  }

  /** A block read from these lines: one of them as it is, or a marker and words without a line break. */
  ghost predicate MadeOf(b: Block, contents: seq<string>) {
    match b
    case Empty => true
    case Verbatim(text) => text in contents
    case Para(_, marker, words) => NoBreak(marker) && NoBreaks(words)
  }

  ghost predicate AllMadeOf(s: Reading, contents: seq<string>) {
    && (forall j :: 0 <= j < |s.done| ==> MadeOf(s.done[j], contents))
    && (s.para.Some? ==> MadeOf(s.para.value, contents))
  }

  lemma {:induction false} TokensHaveNoBreaks(s: string, i: nat)
    requires NoBreak(s) && i <= |s|
    ensures NoBreaks(TokensFrom(s, i))
    decreases |s| - i
  {
    hide UnitEnd, SkipBlanks;
    var start := SkipBlanks(s, i);
    if start < |s| {
      var end := UnitEnd(s, start);
      TokensHaveNoBreaks(s, end);
      var first := s[start..end];
      assert forall k :: 0 <= k < |first| ==> first[k] == s[start + k];
    }
  }

  lemma PartHasNoBreak(s: string, a: nat, b: nat)
    requires a <= b <= |s| && NoBreak(s)
    ensures NoBreak(s[a..b])
  {
    assert forall k :: 0 <= k < b - a ==> s[a..b][k] == s[a + k];
  }

  lemma TrimHasNoBreak(s: string)
    requires NoBreak(s)
    ensures NoBreak(Trim(s))
  {
    PartHasNoBreak(s, Lead(s), |s|);
    assert s[Lead(s)..|s|] == TrimStart(s);
    TrimEndIs(TrimStart(s));
    assert Trim(s) == TrimStart(s)[0..|Trim(s)|];
    PartHasNoBreak(TrimStart(s), 0, |Trim(s)|);
  }

  lemma FlushMadeOf(s: Reading, contents: seq<string>)
    requires AllMadeOf(s, contents)
    ensures AllMadeOf(Flush(s), contents)
  {
    hide MadeOf;
  }

  lemma LineMadeOf(s: Reading, content: string, contents: seq<string>)
    requires AllMadeOf(s, contents) && NoBreak(content) && content in contents
    ensures AllMadeOf(Read(s, content), contents)
  {
    hide Trim, MarkerEnd, Tokenize, Fence, TableRow, TagLine, Flush, NoBreak;
    var t := Trim(content);
    var end := MarkerEnd(content);
    FlushMadeOf(s, contents);
    TrimHasNoBreak(content);
    WordsHaveNoBreaks(t);
    PartHasNoBreak(content, 0, end);
    PartHasNoBreak(content, end, |content|);
    assert content[0..end] == content[..end] && content[end..|content|] == content[end..];
    WordsHaveNoBreaks(content[end..]);
    NothingHasNoBreak();
  }

  lemma WordsHaveNoBreaks(s: string)
    requires NoBreak(s)
    ensures NoBreaks(Tokenize(s))
  {
    TokensHaveNoBreaks(s, 0);
  }

  lemma NothingHasNoBreak()
    ensures NoBreak("")
  {
  }

  lemma {:induction false} BlocksMadeOf(contents: seq<string>)
    requires NoBreaks(contents)
    ensures AllMadeOf(ReadAll(Reading([], None, false), contents), contents)
    ensures forall j :: 0 <= j < |Blocks(contents)| ==> MadeOf(Blocks(contents)[j], contents)
  {
    ReadAllMadeOf(contents, |contents|);
    assert contents[..|contents|] == contents;
    FlushMadeOf(ReadAll(Reading([], None, false), contents), contents);
  }

  lemma {:induction false} ReadAllMadeOf(contents: seq<string>, n: nat)
    requires NoBreaks(contents) && n <= |contents|
    ensures AllMadeOf(ReadAll(Reading([], None, false), contents[..n]), contents)
  {
    hide Read, NoBreak, MadeOf;
    if n > 0 {
      ReadAllMadeOf(contents, n - 1);
      assert contents[..n][..n - 1] == contents[..n - 1];
      LineMadeOf(ReadAll(Reading([], None, false), contents[..n - 1]), contents[n - 1], contents);
    }
  }

  // ---------------------------------------------------------------- directives

  /** A word that starts no directive, with whatever follows it. */
  predicate Unmarked(w: string) {
    !Directive(w) && w != "c8" && w != "v8"
  }

  lemma StartsWith(p: string, s: string)
    requires p != []
    ensures p <= s ==> s != [] && s[0] == p[0]
  {
  }

  /** Every directive starts with one of these characters. */
  lemma OnlyThoseStart(s: string)
    requires s == [] || s[0] !in "bep@cvd#r/!"
    ensures !Directive(s)
  {
    StartsWith("biome-ignore", s);
    StartsWith("eslint-", s);
    StartsWith("prettier-ignore", s);
    StartsWith("@ts-", s);
    StartsWith("c8 ", s);
    StartsWith("v8 ignore", s);
    StartsWith("dprint-", s);
    StartsWith("#region", s);
    StartsWith("#endregion", s);
    StartsWith("region", s);
    StartsWith("endregion", s);
    StartsWith("/", s);
    StartsWith("!", s);
  }

  /** `w` is the first word of the line `j`. */
  predicate Heads(w: string, j: string) {
    w <= j && (|j| == |w| || j[|w|] == ' ')
  }

  /** A prefix without a space that a line starts with is one its first word starts with. */
  lemma PrefixOfWord(p: string, j: string, w: string)
    requires Heads(w, j) && ' ' !in p
    ensures p <= j ==> p <= w
    ensures WordStart(p, j) ==> WordStart(p, w)
  {
    if p <= j {
      assert forall k :: 0 <= k < |p| ==> j[k] == p[k];
      assert w == j[..|w|] && p == j[..|p|];
      assert |p| < |w| ==> w[|p|] == j[|p|];
    }
  }

  /** A directive of two words starts with the first of them, which the line is cut behind. */
  lemma FirstOfTwo(front: string, j: string, w: string)
    requires front in {"c8", "v8"} && Heads(w, j) && Closed(w)
    ensures front + " " <= j ==> w == front
  {
    if front + " " <= j {
      assert j[..3] == front + " ";
      assert j[0] == front[0] && j[1] == '8' && j[2] == ' ';
      CutBehindTwo(w);
      assert w == j[..|w|] && front == j[..2];
    }
  }

  lemma CutBehindTwo(w: string)
    requires Closed(w)
    ensures |w| >= 3 && w[0] in "cv" && w[1] == '8' ==> !Blank(w[2])
  {
    if |w| >= 3 && w[0] in "cv" && w[1] == '8' {
      assert ClosedFrom(w, 1);
      assert ClosedFrom(w, 2);
    }
  }

  /** A line made of unmarked words is not a directive. */
  lemma WordsAreNoDirective(seg: seq<string>)
    requires seg != [] && Sound(seg) && Unmarked(seg[0])
    ensures !Directive(Join(seg))
  {
    hide Closed, White, Join;
    JoinIsSolid(seg);
    LineIsNoDirective(Join(seg), seg[0]);
  }

  lemma LineIsNoDirective(j: string, w: string)
    requires Heads(w, j) && Closed(w) && Unmarked(w)
    ensures !Directive(j)
  {
    hide WordStart, Closed, Heads;
    PrefixOfWord("biome-ignore", j, w);
    PrefixOfWord("eslint-", j, w);
    PrefixOfWord("prettier-ignore", j, w);
    PrefixOfWord("@ts-", j, w);
    PrefixOfWord("dprint-", j, w);
    PrefixOfWord("#region", j, w);
    PrefixOfWord("#endregion", j, w);
    PrefixOfWord("/", j, w);
    PrefixOfWord("!", j, w);
    PrefixOfWord("region", j, w);
    PrefixOfWord("endregion", j, w);
    FirstOfTwo("c8", j, w);
    FirstOfTwo("v8", j, w);
    assert "v8 ignore"[..3] == "v8 ";
  }

  // ---------------------------------------------------------------- the lines of a fill

  /** A stable block; in a line comment no word of it may start a directive either. */
  ghost predicate Calm(b: Block, p: nat, inLines: bool) {
    && Stable(b, p)
    && (inLines && b.Para? ==> forall k :: 0 <= k < |b.words| ==> Unmarked(b.words[k]))
  }

  ghost predicate AllCalm(blocks: seq<Block>, p: nat, inLines: bool) {
    forall j :: 0 <= j < |blocks| ==> Calm(blocks[j], p, inLines)
  }

  /** What stands behind the decoration of a line. */
  ghost predicate Fine(t: string, inLines: bool) {
    NoBreak(t) && (inLines ==> !Directive(t))
  }

  ghost predicate AllFine(lines: seq<string>, linePrefix: string, blankLine: string, inLines: bool) {
    forall k :: 0 <= k < |lines| ==> lines[k] == blankLine || (linePrefix <= lines[k] && Fine(lines[k][|linePrefix|..], inLines))
  }

  lemma JoinsHaveNoBreak(a: string, b: string)
    requires NoBreak(a) && NoBreak(b)
    ensures NoBreak(a + b)
  {
  }

  lemma {:induction false} JoinHasNoBreak(words: seq<string>)
    requires NoBreaks(words)
    ensures NoBreak(Join(words))
  {
    hide NoBreak;
    NothingHasNoBreak();
    if |words| > 1 {
      JoinHasNoBreak(words[1..]);
      SpaceHasNoBreak();
      JoinsHaveNoBreak(words[0], " ");
      JoinsHaveNoBreak(words[0] + " ", Join(words[1..]));
    }
  }

  lemma SpaceHasNoBreak()
    ensures NoBreak(" ")
  {
  }

  /** What a paragraph puts in front of its words: nothing, or something that starts no directive. */
  predicate StartsNone(lead: string) {
    lead == "" || lead[0] !in "bep@cvd#r/!"
  }

  lemma LineIsFine(lead: string, seg: seq<string>, inLines: bool)
    requires NoBreak(lead) && StartsNone(lead) && seg != [] && NoBreaks(seg) && Sound(seg)
    requires inLines ==> Unmarked(seg[0])
    ensures Fine(lead + Join(seg), inLines)
  {
    hide NoBreak, Sound, Unmarked, Directive;
    JoinHasNoBreak(seg);
    JoinsHaveNoBreak(lead, Join(seg));
    if inLines {
      if lead == "" {
        WordsAreNoDirective(seg);
        assert lead + Join(seg) == Join(seg);
      } else {
        OnlyThoseStart(lead + Join(seg));
      }
    }
  }

  lemma {:induction false} LinesAreFine(segments: seq<seq<string>>, linePrefix: string, blankLine: string, first: string, cont: string, inLines: bool)
    requires NoBreak(first) && StartsNone(first) && NoBreak(cont) && StartsNone(cont)
    requires forall i :: 0 <= i < |segments| ==> segments[i] != [] && NoBreaks(segments[i]) && Sound(segments[i])
    requires inLines ==> forall i :: 0 <= i < |segments| ==> segments[i] != [] && Unmarked(segments[i][0])
    ensures AllFine(Lines(segments, linePrefix + first, linePrefix + cont), linePrefix, blankLine, inLines)
    decreases |segments|
  {
    hide Fine, Join, NoBreak, NoBreaks, Sound, Unmarked, StartsNone;
    if segments != [] {
      LinesAreFine(segments[1..], linePrefix, blankLine, cont, cont, inLines);
      LineIsFine(first, segments[0], inLines);
      var line := linePrefix + first + Join(segments[0]);
      assert line[|linePrefix|..] == first + Join(segments[0]);
    }
  }

  /** A marker starts with white space or a bullet. */
  lemma MarkerStartsNone(marker: string)
    requires MarkerOk(marker)
    ensures StartsNone(marker)
  {
  }

  lemma HangIsPlain(b: Block)
    requires b.Para?
    ensures NoBreak(Hang(b)) && StartsNone(Hang(b))
  {
  }

  /** The words of the segments of a paragraph are words of it. */
  lemma SegmentsAreFine(b: Block, p: nat, inLines: bool)
    requires b.Para? && Calm(b, p, inLines) && NoBreaks(b.words)
    ensures var segments := SegmentsOf(b, p);
            && (forall i :: 0 <= i < |segments| ==> segments[i] != [] && NoBreaks(segments[i]) && Sound(segments[i]))
            && (inLines ==> forall i :: 0 <= i < |segments| ==> segments[i] != [] && Unmarked(segments[i][0]))
  {
    hide Segments, NoBreak, Unmarked, Closed, Solid, WellWrapped;
    var segments := SegmentsOf(b, p);
    WrapConserves(b.words, p + |b.marker|, p + |Hang(b)|);
    SegmentsNotEmpty(segments, p + |b.marker|, p + |Hang(b)|);
    forall i | 0 <= i < |segments|
      ensures segments[i] != [] && NoBreaks(segments[i]) && Sound(segments[i]) && (inLines ==> Unmarked(segments[i][0]))
    {
      forall k | 0 <= k < |segments[i]| ensures segments[i][k] in b.words { WordOfSegment(segments, i, k); }
    }
  }

  lemma SegmentsNotEmpty(segments: seq<seq<string>>, first: nat, cont: nat)
    requires WellWrapped(segments, first, cont)
    ensures forall i :: 0 <= i < |segments| ==> segments[i] != []
  {
    forall i | 0 <= i < |segments| ensures segments[i] != [] { assert Fits(PrefixOf(first, cont, i), segments[i]); }
  }

  lemma {:induction false} WordOfSegment(segments: seq<seq<string>>, i: nat, k: nat)
    requires i < |segments| && k < |segments[i]|
    ensures segments[i][k] in Concat(segments)
  {
    if i > 0 { WordOfSegment(segments[1..], i - 1, k); }
  }

  lemma BlockIsFine(before: seq<Block>, b: Block, contents: seq<string>, linePrefix: string, blankLine: string, inLines: bool)
    requires BlockOk(before, b) && Calm(b, |linePrefix|, inLines) && MadeOf(b, contents)
    requires forall k :: 0 <= k < |contents| ==> Fine(contents[k], inLines)
    ensures AllFine(Show(b, linePrefix, blankLine), linePrefix, blankLine, inLines)
  {
    hide Segments, Lines, Calm, Directive, NoBreak, Sound, Unmarked, StartsNone, Fenced, Fence, TableRow, TagLine, BulletInside, MarkerOk;
    match b
    case Empty =>
    case Verbatim(text) => assert (linePrefix + text)[|linePrefix|..] == text;
    case Para(_, marker, words) =>
      EmptyIsPlain();
      if b.kind.Item? { MarkerStartsNone(marker); }
      HangIsPlain(b);
      SegmentsAreFine(b, |linePrefix|, inLines);
      LinesAreFine(SegmentsOf(b, |linePrefix|), linePrefix, blankLine, marker, Hang(b), inLines);
  }

  lemma EmptyIsPlain()
    ensures NoBreak("") && StartsNone("")
  {
  }

  lemma {:induction false} BlocksAreFine(blocks: seq<Block>, contents: seq<string>, linePrefix: string, blankLine: string, inLines: bool)
    requires Readable(blocks) && AllCalm(blocks, |linePrefix|, inLines)
    requires forall j :: 0 <= j < |blocks| ==> MadeOf(blocks[j], contents)
    requires forall k :: 0 <= k < |contents| ==> Fine(contents[k], inLines)
    ensures AllFine(ShowAll(blocks, linePrefix, blankLine), linePrefix, blankLine, inLines)
    decreases |blocks|
  {
    hide Readable, BlockOk, Calm, Show, Fine, MadeOf;
    if blocks != [] {
      ReadableFront(blocks);
      BlocksAreFine(blocks[..|blocks| - 1], contents, linePrefix, blankLine, inLines);
      BlockIsFine(blocks[..|blocks| - 1], blocks[|blocks| - 1], contents, linePrefix, blankLine, inLines);
    }
  }

  /** The lines a fill writes hold no line break, and no directive if no word of it starts one. */
  lemma FillIsFine(contents: seq<string>, linePrefix: string, blankLine: string, inLines: bool)
    requires forall k :: 0 <= k < |contents| ==> NoTrailingWhite(contents[k]) && Fine(contents[k], inLines)
    requires AllCalm(Blocks(contents), |linePrefix|, inLines)
    ensures AllFine(FillLines(contents, linePrefix, blankLine), linePrefix, blankLine, inLines)
  {
    hide AllCalm, AllFine, NoTrailingWhite, Readable, MadeOf, Directive, NoBreak, Blocks;
    CommentReading.LinesRead(contents);
    BlocksMadeOf(contents);
    BlocksAreFine(Blocks(contents), contents, linePrefix, blankLine, inLines);
  }

  /** A fill of something writes something. */
  lemma FillsSomething(contents: seq<string>, linePrefix: string, blankLine: string)
    requires contents != [] && forall k :: 0 <= k < |contents| ==> NoTrailingWhite(contents[k])
    ensures FillLines(contents, linePrefix, blankLine) != []
  {
    hide NoTrailingWhite, Readable, Show, Read;
    CommentReading.LinesRead(contents);
    var blocks := Blocks(contents);
    SomethingRead(contents);
    ReadableLast(blocks);
    ShowsSomething(blocks[..|blocks| - 1], blocks[|blocks| - 1], linePrefix, blankLine);
  }

  lemma ReadableLast(blocks: seq<Block>)
    requires Readable(blocks) && blocks != []
    ensures BlockOk(blocks[..|blocks| - 1], blocks[|blocks| - 1])
  {
  }

  lemma SomethingRead(contents: seq<string>)
    requires contents != []
    ensures Blocks(contents) != []
  {
    hide Trim, MarkerEnd, Tokenize, Fence, TableRow, TagLine;
    var s := ReadAll(Reading([], None, false), contents[..|contents| - 1]);
    assert ReadAll(Reading([], None, false), contents) == Read(s, contents[|contents| - 1]);
  }

  lemma ShowsSomething(before: seq<Block>, b: Block, linePrefix: string, blankLine: string)
    requires BlockOk(before, b)
    ensures Show(b, linePrefix, blankLine) != []
  {
    if b.Para? { FirstSegment(b.words, |linePrefix + b.marker|, |linePrefix + Hang(b)|); }
    hide Segments, Fenced, MarkerOk, LineEnd;
  }
}

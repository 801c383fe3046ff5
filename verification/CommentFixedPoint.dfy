/** Filling comment prose is a fixed point, as long as no word reads differently where it lands. */
module CommentFixedPoint {
  import opened CommentFill
  import opened CommentReading
  import opened CommentText
  import opened Outcomes
  import opened SentenceWrap
  import opened WordTokens

  // ---------------------------------------------------------------- the condition

  /** A word that would end its paragraph if it started a line. */
  predicate BreaksParagraph(w: string) {
    Fence(w) || TableRow(w) || TagLine(w) || BareBullet(w) || BulletInside(w)
  }

  ghost predicate Sound(words: seq<string>) {
    forall k :: 0 <= k < |words| ==> Closed(words[k]) && Solid(words[k])
  }

  ghost function SegmentsOf(b: Block, p: nat): seq<seq<string>>
    requires b.Para?
  {
    Segments(b.words, p + |b.marker|, p + |Hang(b)|)
  }

  /**
   No word of the paragraph holds an unclosed code span or tag, none that the wrap puts at the start of a
   further line would break the paragraph there, and plain prose does not begin with a list bullet left
   alone on its line.
   */
  ghost predicate Stable(b: Block, p: nat) {
    b.Para? ==>
      && Sound(b.words)
      && (forall i :: 1 <= i < |SegmentsOf(b, p)| ==> SegmentsOf(b, p)[i] != [] ==> !BreaksParagraph(SegmentsOf(b, p)[i][0]))
      && (b.kind.Plain? && b.words != [] && BareBullet(b.words[0]) ==> |b.words| == 1)
  }

  // ---------------------------------------------------------------- a line made of words

  lemma {:induction false} JoinIsSolid(seg: seq<string>)
    requires seg != [] && Sound(seg)
    ensures seg[0] <= Join(seg) && (|Join(seg)| == |seg[0]| || Join(seg)[|seg[0]|] == ' ')
    ensures |seg| == 1 ==> Join(seg) == seg[0]
    ensures Solid(Join(seg))
  {
    hide Closed, White;
    if |seg| > 1 {
      JoinIsSolid(seg[1..]);
    }
  }

  lemma LineOfWords(lead: string, seg: seq<string>)
    requires (forall i :: 0 <= i < |lead| ==> White(lead[i])) && seg != [] && Sound(seg)
    ensures Trim(lead + Join(seg)) == Join(seg) && Lead(lead + Join(seg)) == |lead| && Tokenize(Join(seg)) == seg
  {
    hide Closed, White, Tokenize;
    JoinIsSolid(seg);
    TrimSolid(lead, Join(seg));
    TrimStartDrops(lead, Join(seg));
    TokenizeJoin(seg);
  }

  /** A line starts like its first word. */
  lemma StartsLikeWord(seg: seq<string>)
    requires seg != [] && Sound(seg)
    ensures Join(seg) != []
    ensures Fence(Join(seg)) ==> Fence(seg[0])
    ensures TableRow(Join(seg)) <==> TableRow(seg[0])
    ensures TagLine(Join(seg)) <==> TagLine(seg[0])
  {
    JoinIsSolid(seg);
    var j, w := Join(seg), seg[0];
    assert forall i :: 0 <= i < |w| ==> j[i] == w[i];
    hide Join, Closed, White;
    if "```" <= j {
      assert j[..3] == "```" && j[0] == '`' && j[1] == '`' && j[2] == '`';
    }
    if "~~~" <= j {
      assert j[..3] == "~~~" && j[0] == '~' && j[1] == '~' && j[2] == '~';
    }
    if |w| >= 3 { assert w[..3] == j[..3]; }
  }

  lemma NoMarkerAt(content: string, at: nat, w: string)
    requires w != [] && Lead(content) == at && at + |w| <= |content| && content[at..at + |w|] == w
    requires at + |w| < |content| ==> content[at + |w|] == ' '
    requires !BulletInside(w) && (BareBullet(w) ==> at + |w| == |content|)
    ensures MarkerEnd(content) == 0
  {
    BulletAt(content, at, w);
    var n := BulletLength(w, 0);
    if 0 < n < |w| {
      assert content[at..at + |w|][n] == content[at + n];
    }
  }

  /** Whether a line is a list line depends on its first word alone. */
  lemma {:induction false} MarkerLikeWord(lead: string, seg: seq<string>)
    requires (forall i :: 0 <= i < |lead| ==> White(lead[i])) && seg != [] && Sound(seg)
    requires !BulletInside(seg[0]) && (BareBullet(seg[0]) ==> |seg| == 1)
    ensures MarkerEnd(lead + Join(seg)) == 0
  {
    hide Closed, Join, Sound, Lead, MarkerEnd, BulletInside, BareBullet, Tokenize, White, Solid, Trim;
    LineOfWords(lead, seg);
    JoinIsSolid(seg);
    SolidWord(seg);
    var j, w := Join(seg), seg[0];
    WordInLine(lead, j, w);
    NoMarkerAt(lead + j, |lead|, w);
  }

  lemma SolidWord(seg: seq<string>)
    requires seg != [] && Sound(seg)
    ensures seg[0] != [] && !White(seg[0][0])
  {
  }

  lemma WordInLine(lead: string, j: string, w: string)
    requires w <= j && (|j| == |w| || j[|w|] == ' ')
    ensures var content := lead + j;
            && |lead| + |w| <= |content| && content[|lead|..|lead| + |w|] == w
            && (|lead| + |w| < |content| ==> content[|lead| + |w|] == ' ')
            && (|j| == |w| ==> |lead| + |w| == |content|)
  {
    assert j[..|w|] == w;
  }

  // ---------------------------------------------------------------- paragraphs read back

  lemma {:induction false} PlainLineReads(before: seq<Block>, b: Block, seg: seq<string>)
    requires b.Para? && b.kind.Plain? && ParaOk(b) && !Fenced(before) && (before == [] || !before[|before| - 1].Para?)
    requires seg != [] && Sound(seg) && seg[0] == b.words[0] && (BareBullet(seg[0]) ==> |seg| == 1)
    ensures Read(Canon(before), Join(seg)) == Canon(before + [b.(words := seg)])
  {
    StartsLikeWord(seg);
    LineOfWords("", seg);
    MarkerLikeWord("", seg);
    assert "" + Join(seg) == Join(seg);
    CanonState(before);
    KeepCanon(before, b.(words := seg));
    hide Canon, Trim, MarkerEnd, Join, Tokenize, Lead, Fence, TagLine, Sound, BulletInside, BareBullet, Fenced;
  }

  lemma TagLineReads(before: seq<Block>, b: Block, seg: seq<string>)
    requires b.Para? && b.kind.Tag? && ParaOk(b) && !Fenced(before)
    requires seg != [] && Sound(seg) && seg[0] == b.words[0]
    ensures Read(Canon(before), Join(seg)) == Canon(before + [b.(words := seg)])
  {
    StartsLikeWord(seg);
    LineOfWords("", seg);
    assert "" + Join(seg) == Join(seg);
    CanonState(before);
    KeepCanon(before, b.(words := seg));
    assert !Fence(Join(seg)) && !TableRow(Join(seg)) by { JoinIsSolid(seg); }
    hide Canon, Trim, MarkerEnd, Join, Tokenize, Lead, Fence, TagLine, Sound, Fenced;
  }

  /** A list marker in front of words reads as the same marker. */
  lemma MarkerReads(marker: string, seg: seq<string>)
    requires MarkerOk(marker) && seg != [] && Sound(seg)
    ensures MarkerEnd(marker + Join(seg)) == |marker|
    ensures var t := Trim(marker + Join(seg)); t != [] && !Fence(t) && !TableRow(t) && !TagLine(t)
  {
    JoinIsSolid(seg);
    hide Join, Closed, Sound;
    MarkerBefore(marker, Join(seg));
    BulletStartsLine(marker + Join(seg));
  }

  lemma MarkerBefore(marker: string, t: string)
    requires MarkerOk(marker) && Solid(t)
    ensures MarkerEnd(marker + t) == |marker| && NoTrailingWhite(marker + t)
  {
    var content := marker + t;
    var lead := Lead(marker);
    var n := BulletLength(marker, lead);
    assert forall k :: 0 <= k < |marker| ==> content[k] == marker[k];
    assert content[|marker|] == t[0] && content[|content| - 1] == t[|t| - 1];
    LeadIs(content, 0, lead);
    assert content[..|marker|] == marker;
    BulletAtFront(content, lead, |marker|);
    LeadIs(content, lead + n, |marker|);
  }

  lemma {:induction false} LeadIs(s: string, i: nat, end: nat)
    requires i <= end < |s| && !White(s[end]) && forall k :: i <= k < end ==> White(s[k])
    ensures LeadFrom(s, i) == end
    decreases end - i
  {
    if i < end { LeadIs(s, i + 1, end); }
  }

  /** A line with a list marker is none of the other special lines. */
  lemma BulletStartsLine(content: string)
    requires MarkerEnd(content) > 0 && NoTrailingWhite(content)
    ensures var t := Trim(content); t != [] && !Fence(t) && !TableRow(t) && !TagLine(t)
  {
    TrimOfContent(content);
    var t := Trim(content);
    var c := content[Lead(content)];
    assert c in "-*+" || '0' <= c <= '9';
    assert t != [] && t[0] == c;
  }

  lemma BulletAtFront(content: string, lead: nat, end: nat)
    requires lead <= end <= |content| && 0 < BulletLength(content[..end], lead) && lead + BulletLength(content[..end], lead) < end
    ensures BulletLength(content, lead) == BulletLength(content[..end], lead)
  {
    var marker := content[..end];
    assert forall k :: 0 <= k < end ==> marker[k] == content[k];
    if content[lead] !in "-*+" {
      DigitsFront(content, end, lead);
    }
  }

  lemma {:induction false} DigitsFront(s: string, end: nat, i: nat)
    requires i <= end <= |s| && DigitsFrom(s[..end], i) < end
    ensures DigitsFrom(s[..end], i) == DigitsFrom(s, i)
    decreases end - i
  {
    assert i < end ==> s[..end][i] == s[i];
    if '0' <= s[i] <= '9' {
      DigitsFront(s, end, i + 1);
    }
  }

  lemma ItemLineReads(before: seq<Block>, b: Block, seg: seq<string>)
    requires b.Para? && b.kind.Item? && ParaOk(b) && !Fenced(before)
    requires seg != [] && Sound(seg)
    ensures Read(Canon(before), b.marker + Join(seg)) == Canon(before + [b.(words := seg)])
  {
    var content := b.marker + Join(seg);
    MarkerReads(b.marker, seg);
    TokenizeJoin(seg);
    assert content[..|b.marker|] == b.marker && content[|b.marker|..] == Join(seg);
    CanonState(before);
    KeepCanon(before, b.(words := seg));
    hide Canon, Trim, MarkerEnd, Join, Tokenize, Lead, Fence, TagLine, Sound, Fenced;
  }

  /** A further line of a paragraph is appended to it. */
  lemma {:induction false} NextLineReads(before: seq<Block>, b: Block, seg: seq<string>)
    requires b.Para? && !Fenced(before) && seg != [] && Sound(seg) && !BreaksParagraph(seg[0])
    ensures Read(Canon(before + [b]), Hang(b) + Join(seg)) == Canon(before + [b.(words := b.words + seg)])
  {
    var content := Hang(b) + Join(seg);
    assert forall i :: 0 <= i < |Hang(b)| ==> White(Hang(b)[i]);
    StartsLikeWord(seg);
    LineOfWords(Hang(b), seg);
    MarkerLikeWord(Hang(b), seg);
    CanonOfParagraph(before, b);
    CanonOfParagraph(before, b.(words := b.words + seg));
    hide Canon, Trim, MarkerEnd, Join, Tokenize, Lead, Fence, TagLine, Sound, Hang, Fenced;
  }

  lemma CanonOfParagraph(before: seq<Block>, b: Block)
    requires b.Para? && !Fenced(before)
    ensures Canon(before + [b]) == Reading(before, Some(b), false)
  {
    assert (before + [b])[..|before|] == before;
  }

  /** The lines of a paragraph without the decoration in front. */
  ghost function ParaTexts(b: Block, p: nat): seq<string>
    requires b.Para?
  {
    Lines(SegmentsOf(b, p), b.marker, Hang(b))
  }

  lemma {:induction false} MoreLinesRead(before: seq<Block>, b: Block, segments: seq<seq<string>>)
    requires b.Para? && !Fenced(before)
    requires forall i :: 0 <= i < |segments| ==> segments[i] != [] && Sound(segments[i]) && !BreaksParagraph(segments[i][0])
    ensures ReadAll(Canon(before + [b]), Lines(segments, Hang(b), Hang(b)))
         == Canon(before + [b.(words := b.words + Concat(segments))])
    decreases |segments|
  {
    hide Canon, Read, Sound, BreaksParagraph, Hang, Join, Fenced;
    if segments == [] {
      assert b.words + Concat(segments) == b.words;
    } else {
      var next := b.(words := b.words + segments[0]);
      HangSame(b, next);
      NextLineReads(before, b, segments[0]);
      MoreLinesRead(before, next, segments[1..]);
      var line := Hang(b) + Join(segments[0]);
      ReadAllSplits(Canon(before + [b]), [line], Lines(segments[1..], Hang(b), Hang(b)));
      ReadOne(Canon(before + [b]), line);
      assert next.words + Concat(segments[1..]) == b.words + Concat(segments);
    }
  }

  lemma HangSame(b: Block, c: Block)
    requires b.Para? && c.Para? && b.kind == c.kind && b.marker == c.marker
    ensures Hang(b) == Hang(c)
  {
  }

  lemma ReadOne(s: Reading, line: string)
    ensures ReadAll(s, [line]) == Read(s, line)
  {
    assert [line][..0] == [];
  }

  lemma {:induction false} FirstLineReads(before: seq<Block>, b: Block, seg: seq<string>)
    requires b.Para? && BlockOk(before, b)
    requires seg != [] && Sound(seg) && seg[0] == b.words[0]
    requires b.kind.Plain? && BareBullet(seg[0]) ==> |seg| == 1
    ensures Read(Canon(before), b.marker + Join(seg)) == Canon(before + [b.(words := seg)])
  {
    assert b.marker == "" ==> b.marker + Join(seg) == Join(seg);
    match b.kind
    case Plain => PlainLineReads(before, b, seg);
    case Tag => TagLineReads(before, b, seg);
    case Item => ItemLineReads(before, b, seg);
  }

  lemma {:induction false} ConcatPart(segments: seq<seq<string>>, i: nat)
    requires i < |segments|
    ensures forall k :: 0 <= k < |segments[i]| ==> segments[i][k] in Concat(segments)
  {
    if i > 0 { ConcatPart(segments[1..], i - 1); }
  }

  /** The segments of a sound paragraph: nonempty, sound, and together its words. */
  lemma SoundSegments(b: Block, p: nat)
    requires b.Para? && b.words != [] && Sound(b.words)
    ensures var segments := SegmentsOf(b, p);
            && segments != [] && Concat(segments) == b.words && segments[0][0] == b.words[0]
            && |segments[0]| <= |b.words|
            && forall i :: 0 <= i < |segments| ==> segments[i] != [] && Sound(segments[i])
  {
    hide Sound, Segments, LineEnd, WellWrapped, Concat;
    var segments := SegmentsOf(b, p);
    WrapConserves(b.words, p + |b.marker|, p + |Hang(b)|);
    FirstSegment(b.words, p + |b.marker|, p + |Hang(b)|);
    forall i | 0 <= i < |segments| ensures segments[i] != [] && Sound(segments[i]) {
      NotEmpty(segments, p + |b.marker|, p + |Hang(b)|, i);
      SoundPart(segments, b.words, i);
    }
  }

  lemma NotEmpty(segments: seq<seq<string>>, first: nat, cont: nat, i: nat)
    requires WellWrapped(segments, first, cont) && i < |segments|
    ensures segments[i] != []
  {
    assert Fits(PrefixOf(first, cont, i), segments[i]);
  }

  lemma SoundPart(segments: seq<seq<string>>, words: seq<string>, i: nat)
    requires Concat(segments) == words && Sound(words) && i < |segments|
    ensures Sound(segments[i])
  {
    hide Closed, Solid, Concat;
    ConcatPart(segments, i);
  }

  lemma ParagraphReads(before: seq<Block>, b: Block, p: nat)
    requires b.Para? && BlockOk(before, b) && Stable(b, p)
    ensures ReadAll(Canon(before), ParaTexts(b, p)) == Canon(before + [b])
  {
    hide Canon, Read, Sound, BreaksParagraph, Hang, Join, Fenced, Segments, Concat;
    SoundSegments(b, p);
    var segments := SegmentsOf(b, p);
    var first := b.(words := segments[0]);
    HangSame(b, first);
    FirstLineReads(before, b, segments[0]);
    NotFenced(before, b);
    MoreLinesRead(before, first, segments[1..]);
    var line := b.marker + Join(segments[0]);
    ReadAllSplits(Canon(before), [line], Lines(segments[1..], Hang(b), Hang(b)));
    ReadOne(Canon(before), line);
    ConcatFirst(segments);
    assert first.(words := first.words + Concat(segments[1..])) == b;
  }

  lemma NotFenced(before: seq<Block>, b: Block)
    requires b.Para? && BlockOk(before, b)
    ensures !Fenced(before)
  {
  }

  lemma ConcatFirst(segments: seq<seq<string>>)
    requires segments != []
    ensures Concat(segments) == segments[0] + Concat(segments[1..])
  {
  }

  // ---------------------------------------------------------------- all blocks read back

  /** The lines of a block without the decoration in front. */
  ghost function Texts(b: Block, p: nat): seq<string> {
    match b
    case Empty => [""]
    case Verbatim(text) => [text]
    case Para(_, _, _) => ParaTexts(b, p)
  }

  ghost function AllTexts(blocks: seq<Block>, p: nat): seq<string> {
    if blocks == [] then [] else AllTexts(blocks[..|blocks| - 1], p) + Texts(blocks[|blocks| - 1], p)
  }

  lemma {:induction false} LineBlockReads(before: seq<Block>, b: Block)
    requires Readable(before) && BlockOk(before, b) && !b.Para?
    ensures Read(Canon(before), if b.Empty? then "" else b.text) == Canon(before + [b])
  {
    hide Canon, Fenced, Readable, ParaOk, Tokenize, Fence, TableRow, TagLine, MarkerEnd;
    CanonState(before);
    if Fenced(before) { FenceHasNoParagraph(before); }
    FencedNext(before, b);
    KeepReads(before, if b.Empty? then "" else b.text, b);
    RowIsNotEmpty(if b.Empty? then "" else Trim(b.text));
  }

  lemma RowIsNotEmpty(t: string)
    ensures TableRow(t) ==> t != []
    ensures Fence(t) ==> t != []
    ensures !Fence("") && !TableRow("")
  {
  }

  lemma {:induction false} ReadableFront(blocks: seq<Block>)
    requires Readable(blocks) && blocks != []
    ensures Readable(blocks[..|blocks| - 1]) && BlockOk(blocks[..|blocks| - 1], blocks[|blocks| - 1])
  {
    hide BlockOk;
    var front := blocks[..|blocks| - 1];
    forall j | 0 <= j < |front| ensures BlockOk(front[..j], front[j]) {
      assert front[..j] == blocks[..j];
    }
  }

  lemma {:induction false} BlockReads(before: seq<Block>, b: Block, p: nat)
    requires Readable(before) && BlockOk(before, b) && Stable(b, p)
    ensures ReadAll(Canon(before), Texts(b, p)) == Canon(before + [b])
  {
    hide Read, ParaTexts, Stable, BlockOk, Readable, Canon;
    if b.Para? {
      ParagraphReads(before, b, p);
    } else {
      LineBlockReads(before, b);
      ReadOne(Canon(before), if b.Empty? then "" else b.text);
    }
  }

  /** Blocks written as lines read back as the same blocks. */
  lemma {:induction false} BlocksReadBack(blocks: seq<Block>, p: nat)
    requires Readable(blocks) && forall j :: 0 <= j < |blocks| ==> Stable(blocks[j], p)
    ensures ReadAll(Reading([], None, false), AllTexts(blocks, p)) == Canon(blocks)
    decreases |blocks|
  {
    hide Read, Texts, Stable, BlockOk, Readable;
    if blocks != [] {
      var front, last := blocks[..|blocks| - 1], blocks[|blocks| - 1];
      ReadableFront(blocks);
      BlocksReadBack(front, p);
      hide Canon, ReadAll;
      ReadAllSplits(Reading([], None, false), AllTexts(front, p), Texts(last, p));
      BlockReads(front, last, p);
      assert blocks == front + [last];
    }
  }

  // ---------------------------------------------------------------- the promise

  ghost function Map(read: string -> string, lines: seq<string>): seq<string> {
    seq(|lines|, i requires 0 <= i < |lines| => read(lines[i]))
  }

  /** `read` strips the decoration that filling puts in front of a line. */
  ghost predicate Strips(read: string -> string, linePrefix: string, blankLine: string) {
    read(blankLine) == "" && forall t :: NoTrailingWhite(t) ==> read(linePrefix + t) == t
  }

  lemma MapSplits(read: string -> string, a: seq<string>, b: seq<string>)
    ensures Map(read, a + b) == Map(read, a) + Map(read, b)
  {
  }

  lemma {:induction false} LinesStrip(read: string -> string, linePrefix: string, blankLine: string,
                                      segments: seq<seq<string>>, first: string, cont: string)
    requires Strips(read, linePrefix, blankLine)
    requires forall i :: 0 <= i < |segments| ==> segments[i] != [] && Sound(segments[i])
    ensures Map(read, Lines(segments, linePrefix + first, linePrefix + cont)) == Lines(segments, first, cont)
    decreases |segments|
  {
    hide Join, Sound, Strips;
    if segments != [] {
      LinesStrip(read, linePrefix, blankLine, segments[1..], cont, cont);
      WordsStrip(read, linePrefix, blankLine, first, segments[0]);
      var line := linePrefix + first + Join(segments[0]);
      MapSplits(read, [line], Lines(segments[1..], linePrefix + cont, linePrefix + cont));
    }
  }

  lemma WordsStrip(read: string -> string, linePrefix: string, blankLine: string, first: string, seg: seq<string>)
    requires Strips(read, linePrefix, blankLine) && seg != [] && Sound(seg)
    ensures read(linePrefix + first + Join(seg)) == first + Join(seg)
  {
    JoinIsSolid(seg);
    hide Join, Sound, White;
    var t := first + Join(seg);
    assert t[|t| - 1] == Join(seg)[|Join(seg)| - 1];
    assert NoTrailingWhite(t);
    assert linePrefix + first + Join(seg) == linePrefix + t;
  }

  lemma {:induction false} BlockStrips(read: string -> string, linePrefix: string, blankLine: string, before: seq<Block>, b: Block)
    requires Strips(read, linePrefix, blankLine) && BlockOk(before, b) && Stable(b, |linePrefix|)
    ensures Map(read, Show(b, linePrefix, blankLine)) == Texts(b, |linePrefix|)
  {
    hide Join, Segments, Sound;
    if b.Para? {
      SoundSegments(b, |linePrefix|);
      LinesStrip(read, linePrefix, blankLine, SegmentsOf(b, |linePrefix|), b.marker, Hang(b));
    }
  }

  lemma {:induction false} AllStrip(read: string -> string, linePrefix: string, blankLine: string, blocks: seq<Block>)
    requires Strips(read, linePrefix, blankLine) && Readable(blocks)
    requires forall j :: 0 <= j < |blocks| ==> Stable(blocks[j], |linePrefix|)
    ensures Map(read, ShowAll(blocks, linePrefix, blankLine)) == AllTexts(blocks, |linePrefix|)
    decreases |blocks|
  {
    hide Strips, BlockOk, Stable, Readable, Show, Texts;
    if blocks != [] {
      var front, last := blocks[..|blocks| - 1], blocks[|blocks| - 1];
      ReadableFront(blocks);
      AllStrip(read, linePrefix, blankLine, front);
      BlockStrips(read, linePrefix, blankLine, front, last);
      MapSplits(read, ShowAll(front, linePrefix, blankLine), Show(last, linePrefix, blankLine));
    }
  }

  /**
   Filling is a fixed point: reading the filled lines back and filling again gives the same lines, for
   prose, list items, tags, blank lines, tables and fences alike, provided every paragraph is stable.
   */
  lemma {:induction false} FillIsFixedPoint(contents: seq<string>, linePrefix: string, blankLine: string, read: string -> string)
    requires forall k :: 0 <= k < |contents| ==> NoTrailingWhite(contents[k])
    requires Strips(read, linePrefix, blankLine)
    requires forall j :: 0 <= j < |Blocks(contents)| ==> Stable(Blocks(contents)[j], |linePrefix|)
    ensures var lines := FillLines(contents, linePrefix, blankLine);
            FillLines(Map(read, lines), linePrefix, blankLine) == lines
  {
    hide NoTrailingWhite, Strips, Stable, Readable, Canon, ReadAll;
    var blocks := Blocks(contents);
    LinesRead(contents);
    AllStrip(read, linePrefix, blankLine, blocks);
    BlocksReadBack(blocks, |linePrefix|);
    FlushCanon(blocks);
  }
}

/**
 How a filled comment is laid out, told from its lines and columns alone: which lines form a paragraph,
 where its words go, and in which column each written line starts. `FillIsLaidOut` and `LayoutIsUnique`
 say that the fill writes exactly that.
 */
module CommentLayout {
  import opened CommentFill
  import opened CommentText
  import opened Outcomes
  import opened SentenceWrap
  import opened WordTokens

  // ---------------------------------------------------------------- lines that are read

  ghost predicate AllWhite(s: string) {
    forall i :: 0 <= i < |s| ==> White(s[i])
  }

  predicate Bullet(s: string) {
    s == "-" || s == "*" || s == "+" || (|s| >= 2 && Digits(s[..|s| - 1]) && s[|s| - 1] in ".)")
  }

  /** White space, a bullet and more white space, all of it. */
  ghost predicate ListMarker(marker: string, rest: string) {
    && (rest == [] || !White(rest[0]))
    && exists b, e :: 0 <= b < e < |marker| && MarkerParts(marker, b, e)
  }

  ghost predicate MarkerParts(marker: string, b: nat, e: nat)
    requires b <= e <= |marker|
  {
    AllWhite(marker[..b]) && Bullet(marker[b..e]) && AllWhite(marker[e..])
  }

  ghost predicate Listed(content: string) {
    exists end :: 0 <= end <= |content| && ListMarker(content[..end], content[end..])
  }

  /** A line of prose, be it the first of a paragraph or a further one. */
  predicate Flows(content: string) {
    var t := Trim(content);
    t != [] && !Fence(t) && !TableRow(t)
  }

  /** A line of prose that starts no list item and no tag. */
  ghost predicate Continues(content: string) {
    Flows(content) && !TagLine(Trim(content)) && !Listed(content)
  }

  /** An odd number of fence lines. */
  predicate FenceOpen(lines: seq<string>) {
    lines != [] && Fence(Trim(lines[|lines| - 1])) != FenceOpen(lines[..|lines| - 1])
  }

  function WordsOf(lines: seq<string>): seq<string> {
    if lines == [] then [] else WordsOf(lines[..|lines| - 1]) + Tokenize(Trim(lines[|lines| - 1]))
  }

  // ---------------------------------------------------------------- lines that are written

  /** Lines that are read, and the lines they are written as; `segments` are the words of those. */
  datatype Stretch = Stretch(from: seq<string>, segments: seq<seq<string>>, lines: seq<string>)

  /** Each line ends where `EndsLine` says. */
  ghost predicate WrappedAs(words: seq<string>, segments: seq<seq<string>>, first: nat, cont: nat)
    decreases |segments|
  {
    if words == [] then segments == []
    else
      && segments != [] && segments[0] <= words
      && EndsLine(words, first, |segments[0]|)
      && WrappedAs(words[|segments[0]|..], segments[1..], cont, cont)
  }

  /** Behind the prefix nothing but `indent` spaces, then the text. */
  predicate Indented(line: string, prefix: string, indent: nat, text: string) {
    && |line| == |prefix| + indent + |text|
    && line[..|prefix|] == prefix
    && (forall k :: |prefix| <= k < |prefix| + indent ==> line[k] == ' ')
    && line[|prefix| + indent..] == text
  }

  /** The first line stands behind the marker, every further one behind `indent` spaces. */
  predicate InColumns(lines: seq<string>, segments: seq<seq<string>>, prefix: string, marker: string, indent: nat) {
    && |lines| == |segments|
    && (lines != [] ==> lines[0] == prefix + marker + Join(segments[0]))
    && (forall i :: 1 <= i < |lines| ==> Indented(lines[i], prefix, indent, Join(segments[i])))
  }

  ghost predicate Paragraph(st: Stretch, prefix: string, marker: string, rest: string, indent: nat)
    requires st.from != []
  {
    && (forall i :: 1 <= i < |st.from| ==> Continues(st.from[i]))
    && WrappedAs(Tokenize(rest) + WordsOf(st.from[1..]), st.segments, |prefix| + |marker|, |prefix| + indent)
    && InColumns(st.lines, st.segments, prefix, marker, indent)
  }

  /** A list item: the first word of every line stands in the column behind the marker. */
  ghost predicate ItemStretch(st: Stretch, prefix: string)
    requires st.from != []
  {
    var content := st.from[0];
    exists end :: 0 <= end <= |content| && ListMarker(content[..end], content[end..])
                  && Paragraph(st, prefix, content[..end], content[end..], end)
  }

  /** A tag: further lines stand two columns in. */
  ghost predicate TagStretch(st: Stretch, prefix: string)
    requires st.from != []
  {
    TagLine(Trim(st.from[0])) && Paragraph(st, prefix, "", Trim(st.from[0]), 2)
  }

  /** Plain prose: every line stands at the prefix. */
  ghost predicate PlainStretch(st: Stretch, prefix: string)
    requires st.from != []
  {
    Continues(st.from[0]) && Paragraph(st, prefix, "", Trim(st.from[0]), 0)
  }

  ghost predicate ProseStretch(before: seq<Stretch>, st: Stretch, prefix: string) {
    && st.from != [] && Flows(st.from[0])
    && (|| TagStretch(st, prefix)
        || (!TagLine(Trim(st.from[0])) && ItemStretch(st, prefix))
        || (PlainStretch(st, prefix) && (before == [] || !EndsInProse(before[|before| - 1]))))
  }

  ghost predicate EndsInProse(st: Stretch) {
    st.from != [] && Flows(st.from[|st.from| - 1])
  }

  /** One line that is written as it is. */
  predicate KeptStretch(st: Stretch, prefix: string) {
    |st.from| == 1 && st.lines == [prefix + st.from[0]] && st.segments == []
  }

  ghost predicate StretchOk(before: seq<Stretch>, st: Stretch, prefix: string, blankLine: string) {
    if FenceOpen(From(before)) then KeptStretch(st, prefix)
    else
      || ProseStretch(before, st, prefix)
      || (KeptStretch(st, prefix) && (Fence(Trim(st.from[0])) || TableRow(Trim(st.from[0]))))
      || (|st.from| == 1 && Trim(st.from[0]) == [] && st.lines == [blankLine] && st.segments == [])
  }

  ghost function From(layout: seq<Stretch>): seq<string> {
    if layout == [] then [] else From(layout[..|layout| - 1]) + layout[|layout| - 1].from
  }

  ghost function LinesOf(layout: seq<Stretch>): seq<string> {
    if layout == [] then [] else LinesOf(layout[..|layout| - 1]) + layout[|layout| - 1].lines
  }

  ghost predicate AllOk(layout: seq<Stretch>, prefix: string, blankLine: string) {
    forall i :: 0 <= i < |layout| ==> StretchOk(layout[..i], layout[i], prefix, blankLine)
  }

  ghost predicate Lays(layout: seq<Stretch>, contents: seq<string>, lines: seq<string>, prefix: string, blankLine: string) {
    From(layout) == contents && LinesOf(layout) == lines && AllOk(layout, prefix, blankLine)
  }

  ghost predicate LaidOut(contents: seq<string>, lines: seq<string>, prefix: string, blankLine: string) {
    exists layout :: Lays(layout, contents, lines, prefix, blankLine)
  }

  // ---------------------------------------------------------------- list markers

  /** `MarkerEnd` finds the list marker of a line if it has one, and there is no other. */
  lemma MarkerExactly(content: string)
    ensures var end := MarkerEnd(content);
            end > 0 ==> ListMarker(content[..end], content[end..])
    ensures forall end :: 0 <= end <= |content| && ListMarker(content[..end], content[end..]) ==> end == MarkerEnd(content) > 0
    ensures Listed(content) <==> MarkerEnd(content) > 0
  {
    var end := MarkerEnd(content);
    if end > 0 { MarkerFound(content); }
    forall other | 0 <= other <= |content| && ListMarker(content[..other], content[other..])
      ensures other == end > 0
    {
      var marker := content[..other];
      var b, e :| 0 <= b < e < |marker| && MarkerParts(marker, b, e);
      MarkerIs(content, other, b, e);
    }
  }

  lemma MarkerFound(content: string)
    requires MarkerEnd(content) > 0
    ensures var end := MarkerEnd(content);
            ListMarker(content[..end], content[end..])
  {
    hide LeadFrom, BulletLength, Bullet;
    var end := MarkerEnd(content);
    var b := Lead(content);
    var n := BulletLength(content, b);
    var marker := content[..end];
    BulletFound(content, b);
    assert marker[..b] == content[..b] && marker[b..b + n] == content[b..b + n] && marker[b + n..] == content[b + n..end];
    assert MarkerParts(marker, b, b + n);
  }

  lemma BulletFound(s: string, i: nat)
    requires i <= |s| && BulletLength(s, i) > 0
    ensures Bullet(s[i..i + BulletLength(s, i)])
  {
    var bullet := s[i..i + BulletLength(s, i)];
    assert forall k :: 0 <= k < |bullet| ==> bullet[k] == s[i + k];
  }

  lemma MarkerIs(content: string, end: nat, b: nat, e: nat)
    requires b < e < end <= |content| && MarkerParts(content[..end], b, e)
    requires end == |content| || !White(content[end])
    ensures MarkerEnd(content) == end
  {
    hide White, Bullet, BulletLength, LeadFrom;
    var marker := content[..end];
    assert forall k :: 0 <= k < b ==> content[k] == marker[..b][k];
    assert forall k :: e <= k < end ==> content[k] == marker[e..][k - e];
    assert content[b..e] == marker[b..e];
    BulletIsSolid(content[b..e]);
    WhiteReach(content, 0, b);
    BulletIs(content, b, e);
    WhiteReach(content, e, end);
  }

  lemma BulletIs(s: string, b: nat, e: nat)
    requires b < e < |s| && Bullet(s[b..e])
    ensures BulletLength(s, b) == e - b
  {
    hide DigitsFrom;
    var bullet := s[b..e];
    BulletIsSolid(bullet);
    assert forall k :: 0 <= k < |bullet| ==> s[b + k] == bullet[k];
    if |bullet| > 1 {
      var digits := bullet[..|bullet| - 1];
      assert forall k :: b <= k < e - 1 ==> s[k] == digits[k - b];
      DigitsReach(s, b, e - 1);
    }
  }

  lemma BulletIsSolid(s: string)
    requires Bullet(s)
    ensures s != [] && !White(s[0]) && (s[0] in "-*+" ==> |s| == 1)
  {
    if |s| >= 2 { assert s[0] == s[..|s| - 1][0]; }
  }

  lemma {:induction false} DigitsReach(s: string, i: nat, end: nat)
    requires i <= end < |s| && !('0' <= s[end] <= '9') && forall k :: i <= k < end ==> '0' <= s[k] <= '9'
    ensures DigitsFrom(s, i) == end
    decreases end - i
  {
    if i < end { DigitsReach(s, i + 1, end); }
  }

  lemma {:induction false} WhiteReach(s: string, i: nat, end: nat)
    requires i <= end <= |s| && (end == |s| || !White(s[end])) && forall k :: i <= k < end ==> White(s[k])
    ensures LeadFrom(s, i) == end
    decreases end - i
  {
    if i < end { WhiteReach(s, i + 1, end); }
  }

  // ---------------------------------------------------------------- paragraphs

  lemma {:induction false} SegmentsWrap(words: seq<string>, first: nat, cont: nat)
    ensures WrappedAs(words, Segments(words, first, cont), first, cont)
    decreases |words|
  {
    hide EndsLine;
    if words != [] {
      var end := LineEnd(words, first);
      SegmentsWrap(words[end..], cont, cont);
      var segments := Segments(words, first, cont);
      assert segments[1..] == Segments(words[end..], cont, cont);
    }
  }

  lemma {:induction false} LinesStand(segments: seq<seq<string>>, prefix: string, marker: string, cont: string, indent: nat)
    requires |cont| == indent && forall k :: 0 <= k < indent ==> cont[k] == ' '
    ensures InColumns(Lines(segments, prefix + marker, prefix + cont), segments, prefix, marker, indent)
    decreases |segments|
  {
    hide Join;
    if segments != [] {
      var rest := Lines(segments[1..], prefix + cont, prefix + cont);
      LinesStand(segments[1..], prefix, cont, cont, indent);
      forall i | 1 <= i < |segments| ensures Indented(([prefix + marker + Join(segments[0])] + rest)[i], prefix, indent, Join(segments[i])) {
        if i == 1 { SpacesIndent(prefix, cont, Join(segments[1])); }
      }
    }
  }

  lemma SpacesIndent(prefix: string, cont: string, text: string)
    requires forall k :: 0 <= k < |cont| ==> cont[k] == ' '
    ensures Indented(prefix + cont + text, prefix, |cont|, text)
  {
  }

  /** A paragraph as it is read, from these lines. */
  ghost predicate ReadFrom(b: Block, from: seq<string>) {
    && b.Para? && from != [] && Flows(from[0])
    && (forall i :: 1 <= i < |from| ==> Continues(from[i]))
    && var content := from[0];
       if TagLine(Trim(content)) then b.kind.Tag? && b.marker == "" && b.words == Tokenize(Trim(content)) + WordsOf(from[1..])
       else if Listed(content) then
         var end := MarkerEnd(content);
         b.kind.Item? && b.marker == content[..end] && b.words == Tokenize(content[end..]) + WordsOf(from[1..])
       else b.kind.Plain? && b.marker == "" && b.words == Tokenize(Trim(content)) + WordsOf(from[1..])
  }

  function StretchOf(b: Block, from: seq<string>, prefix: string): Stretch
    requires b.Para?
  {
    Stretch(from, Segments(b.words, |prefix + b.marker|, |prefix + Hang(b)|), Show(b, prefix, ""))
  }

  lemma ReadIsProse(b: Block, from: seq<string>, before: seq<Stretch>, prefix: string)
    requires ReadFrom(b, from)
    requires b.kind.Plain? ==> before == [] || !EndsInProse(before[|before| - 1])
    ensures ProseStretch(before, StretchOf(b, from, prefix), prefix)
  {
    hide Trim, Tokenize, MarkerEnd, TagLine, Flows, Listed, WordsOf, ListMarker, WrappedAs, InColumns, Segments, Lines, EndsInProse;
    MarkerExactly(from[0]);
    SegmentsWrap(b.words, |prefix + b.marker|, |prefix + Hang(b)|);
    ShownInColumns(b, prefix);
  }

  lemma ShownInColumns(b: Block, prefix: string)
    requires b.Para?
    ensures var indent := match b.kind case Plain => 0 case Tag => 2 case Item => |b.marker|;
            && |Hang(b)| == indent
            && InColumns(Show(b, prefix, ""), Segments(b.words, |prefix + b.marker|, |prefix + Hang(b)|), prefix, b.marker, indent)
  {
    hide Segments, Lines;
    LinesStand(Segments(b.words, |prefix + b.marker|, |prefix + Hang(b)|), prefix, b.marker, Hang(b), |Hang(b)|);
  }

  /** One more line of prose. */
  lemma ProseGrows(b: Block, from: seq<string>, content: string)
    requires ReadFrom(b, from) && Continues(content)
    ensures ReadFrom(b.(words := b.words + Tokenize(Trim(content))), from + [content])
  {
    hide Trim, Tokenize, MarkerEnd, TagLine, Flows, Listed;
    var longer := from + [content];
    assert longer[0] == from[0] && longer[1..] == from[1..] + [content];
    assert (from[1..] + [content])[..|from[1..]|] == from[1..];
    assert WordsOf(longer[1..]) == WordsOf(from[1..]) + Tokenize(Trim(content));
  }

  lemma ProseStarts(b: Block, content: string)
    requires Flows(content)
    requires if TagLine(Trim(content)) then b == Para(Tag, "", Tokenize(Trim(content)))
             else if MarkerEnd(content) > 0 then b == Para(Item, content[..MarkerEnd(content)], Tokenize(content[MarkerEnd(content)..]))
             else b == Para(Plain, "", Tokenize(Trim(content)))
    ensures ReadFrom(b, [content])
  {
    hide Trim, Tokenize, MarkerEnd, TagLine, Flows, Listed, ListMarker;
    MarkerExactly(content);
    assert [content][1..] == [];
  }

  // ---------------------------------------------------------------- the layout of a reading

  lemma FromGrows(layout: seq<Stretch>, st: Stretch)
    ensures From(layout + [st]) == From(layout) + st.from && LinesOf(layout + [st]) == LinesOf(layout) + st.lines
  {
    assert (layout + [st])[..|layout|] == layout;
  }

  lemma OkGrows(layout: seq<Stretch>, st: Stretch, prefix: string, blankLine: string)
    requires AllOk(layout, prefix, blankLine) && StretchOk(layout, st, prefix, blankLine)
    ensures AllOk(layout + [st], prefix, blankLine)
  {
    hide StretchOk;
    var longer := layout + [st];
    forall i | 0 <= i < |longer| ensures StretchOk(longer[..i], longer[i], prefix, blankLine) {
      assert longer[..i] == layout[..i];
      assert layout[..|layout|] == layout;
    }
  }

  /** What has been read so far is laid out by `layout`, and the open paragraph, if any, by its lines `open`. */
  ghost predicate Follows(layout: seq<Stretch>, open: seq<string>, s: Reading, contents: seq<string>, prefix: string, blankLine: string) {
    && From(layout) + open == contents
    && LinesOf(layout) == ShowAll(s.done, prefix, blankLine)
    && AllOk(layout, prefix, blankLine)
    && s.fenced == FenceOpen(contents) && FenceOpen(From(layout)) == s.fenced
    && (s.para.None? ==> open == [] && (layout == [] || s.fenced || !EndsInProse(layout[|layout| - 1])))
    && (s.para.Some? ==>
          && !s.fenced && ReadFrom(s.para.value, open)
          && (s.para.value.kind.Plain? ==> layout == [] || !EndsInProse(layout[|layout| - 1])))
  }

  ghost function Closed(layout: seq<Stretch>, open: seq<string>, s: Reading, prefix: string): seq<Stretch>
    requires s.para.Some? ==> s.para.value.Para?
  {
    if s.para.Some? then layout + [StretchOf(s.para.value, open, prefix)] else layout
  }

  lemma FlushFollows(layout: seq<Stretch>, open: seq<string>, s: Reading, contents: seq<string>, prefix: string, blankLine: string)
    requires Follows(layout, open, s, contents, prefix, blankLine)
    ensures s.para.Some? ==> s.para.value.Para?
    ensures var closed := Closed(layout, open, s, prefix);
            && From(closed) == contents && LinesOf(closed) == ShowAll(Flush(s).done, prefix, blankLine)
            && AllOk(closed, prefix, blankLine)
  {
    hide ReadFrom, AllOk, EndsInProse, ProseStretch, KeptStretch, Segments, From, LinesOf, Lines, FenceOpen, Wrap;
    if s.para.Some? {
      var b := s.para.value;
      IsPara(b, open);
      var st := StretchOf(b, open, prefix);
      ReadIsProse(b, open, layout, prefix);
      FromGrows(layout, st);
      OkGrows(layout, st, prefix, blankLine);
      ShowGrows(s.done, b, prefix, blankLine);
    }
  }

  lemma IsPara(b: Block, from: seq<string>)
    requires ReadFrom(b, from)
    ensures b.Para? && from != []
  {
  }

  lemma ShowGrows(blocks: seq<Block>, b: Block, prefix: string, blankLine: string)
    ensures ShowAll(blocks + [b], prefix, blankLine) == ShowAll(blocks, prefix, blankLine) + Show(b, prefix, blankLine)
  {
    assert (blocks + [b])[..|blocks|] == blocks;
  }

  lemma FenceGrows(lines: seq<string>, content: string)
    ensures FenceOpen(lines + [content]) == (Fence(Trim(content)) != FenceOpen(lines))
  {
    assert (lines + [content])[..|lines|] == lines;
  }

  /** A line that is written by itself: it stays as it is, or it is empty. */
  lemma SingleFollows(layout: seq<Stretch>, done: seq<Block>, fenced: bool, contents: seq<string>, content: string, b: Block, prefix: string, blankLine: string)
    requires From(layout) == contents && LinesOf(layout) == ShowAll(done, prefix, blankLine) && AllOk(layout, prefix, blankLine)
    requires FenceOpen(contents) == fenced
    requires || (b == Verbatim(content) && (fenced || Fence(Trim(content)) || TableRow(Trim(content))))
             || (b == Empty && !fenced && Trim(content) == [])
    ensures var fenced' := Fence(Trim(content)) != fenced;
            Follows(layout + [Stretch([content], [], Show(b, prefix, blankLine))], [], Reading(done + [b], None, fenced'),
                    contents + [content], prefix, blankLine)
  {
    hide FenceOpen, Trim, Fence, TableRow, ProseStretch, AllOk, From, LinesOf;
    var st := Stretch([content], [], Show(b, prefix, blankLine));
    FromGrows(layout, st);
    OkGrows(layout, st, prefix, blankLine);
    ShowGrows(done, b, prefix, blankLine);
    FenceGrows(contents, content);
    NoFence();
    assert (layout + [st])[|layout + [st]| - 1] == st;
    assert From(layout + [st]) + [] == contents + [content];
  }

  lemma NoFence()
    ensures !Fence("") && !TableRow("")
  {
  }

  lemma OpenFollows(layout: seq<Stretch>, done: seq<Block>, contents: seq<string>, content: string, b: Block, prefix: string, blankLine: string)
    requires From(layout) == contents && LinesOf(layout) == ShowAll(done, prefix, blankLine) && AllOk(layout, prefix, blankLine)
    requires !FenceOpen(contents) && ReadFrom(b, [content]) && !Fence(Trim(content))
    requires b.kind.Plain? ==> layout == [] || !EndsInProse(layout[|layout| - 1])
    ensures Follows(layout, [content], Reading(done, Some(b), false), contents + [content], prefix, blankLine)
  {
    hide FenceOpen, Trim, Fence, AllOk, From, LinesOf, ReadFrom, EndsInProse, ShowAll;
    FenceGrows(contents, content);
  }

  /** One more line of the open paragraph. */
  lemma ContinueFollows(layout: seq<Stretch>, open: seq<string>, s: Reading, contents: seq<string>, content: string, prefix: string, blankLine: string)
    requires Follows(layout, open, s, contents, prefix, blankLine) && s.para.Some? && s.para.value.Para?
    requires Continues(content) && !Fence(Trim(content))
    ensures var b := s.para.value.(words := s.para.value.words + Tokenize(Trim(content)));
            Follows(layout, open + [content], s.(para := Some(b)), contents + [content], prefix, blankLine)
  {
    hide FenceOpen, Trim, Fence, AllOk, From, LinesOf, ReadFrom, EndsInProse, ShowAll, Continues;
    FenceGrows(contents, content);
    ProseGrows(s.para.value, open, content);
    assert From(layout) + (open + [content]) == contents + [content];
  }

  lemma ReadFollows(layout: seq<Stretch>, open: seq<string>, s: Reading, contents: seq<string>, content: string, prefix: string, blankLine: string)
      returns (layout': seq<Stretch>, open': seq<string>)
    requires Follows(layout, open, s, contents, prefix, blankLine)
    ensures Follows(layout', open', Read(s, content), contents + [content], prefix, blankLine)
  {
    hide Trim, Fence, TableRow, TagLine, MarkerEnd, Tokenize, Listed, AllOk, From, LinesOf, ShowAll, ReadFrom, EndsInProse, FenceOpen, Show, Follows;
    var t := Trim(content);
    FlushFollows(layout, open, s, contents, prefix, blankLine);
    MarkerExactly(content);
    FollowsFence(layout, open, s, contents, prefix, blankLine);
    var closed := Closed(layout, open, s, prefix);
    var done := Flush(s).done;
    if s.fenced || Fence(t) || t == [] || TableRow(t) {
      var b := if !s.fenced && t == [] && !Fence(t) then Empty else Verbatim(content);
      NoFence();
      TableIsNoFence(t);
      SingleFollows(closed, done, s.fenced, contents, content, b, prefix, blankLine);
      return closed + [Stretch([content], [], Show(b, prefix, blankLine))], [];
    } else if TagLine(t) {
      ProseStarts(Para(Tag, "", Tokenize(t)), content);
      OpenFollows(closed, done, contents, content, Para(Tag, "", Tokenize(t)), prefix, blankLine);
      return closed, [content];
    } else if MarkerEnd(content) > 0 {
      var b := Para(Item, content[..MarkerEnd(content)], Tokenize(content[MarkerEnd(content)..]));
      ProseStarts(b, content);
      OpenFollows(closed, done, contents, content, b, prefix, blankLine);
      return closed, [content];
    } else if s.para.Some? && s.para.value.Para? {
      ContinueFollows(layout, open, s, contents, content, prefix, blankLine);
      return layout, open + [content];
    } else {
      ProseStarts(Para(Plain, "", Tokenize(t)), content);
      OpenFollows(closed, done, contents, content, Para(Plain, "", Tokenize(t)), prefix, blankLine);
      return closed, [content];
    }
  }

  lemma TableIsNoFence(t: string)
    ensures TableRow(t) ==> !Fence(t)
  {
  }

  lemma FollowsFence(layout: seq<Stretch>, open: seq<string>, s: Reading, contents: seq<string>, prefix: string, blankLine: string)
    requires Follows(layout, open, s, contents, prefix, blankLine)
    ensures s.fenced == FenceOpen(contents) && (s.fenced ==> s.para.None?)
    ensures s.para.None? && !s.fenced ==> layout == [] || !EndsInProse(layout[|layout| - 1])
    ensures s.para.Some? ==> s.para.value.Para?
  {
  }

  lemma NothingFollows(prefix: string, blankLine: string)
    ensures Follows([], [], Reading([], None, false), [], prefix, blankLine)
  {
  }

  lemma {:induction false} ReadAllFollows(contents: seq<string>, prefix: string, blankLine: string)
      returns (layout: seq<Stretch>, open: seq<string>)
    ensures Follows(layout, open, ReadAll(Reading([], None, false), contents), contents, prefix, blankLine)
    decreases |contents|
  {
    hide Follows, Read;
    if contents == [] {
      NothingFollows(prefix, blankLine);
      return [], [];
    } else {
      var front, content := contents[..|contents| - 1], contents[|contents| - 1];
      layout, open := ReadAllFollows(front, prefix, blankLine);
      layout, open := ReadFollows(layout, open, ReadAll(Reading([], None, false), front), front, content, prefix, blankLine);
      assert front + [content] == contents;
    }
  }

  /**
   The lines of a fill, for any contents: fences and tables as they are, empty lines as the blank line, and
   every paragraph wrapped in its columns. The first word of every line of a list item stands in the same
   column, with only spaces between the line prefix and it on further lines; further lines of a tag stand
   two columns in, those of plain prose at the prefix.
   */
  lemma FillIsLaidOut(contents: seq<string>, prefix: string, blankLine: string)
    ensures LaidOut(contents, FillLines(contents, prefix, blankLine), prefix, blankLine)
  {
    hide Follows, ReadAll, ShowAll, AllOk;
    var layout, open := ReadAllFollows(contents, prefix, blankLine);
    var s := ReadAll(Reading([], None, false), contents);
    FlushFollows(layout, open, s, contents, prefix, blankLine);
    assert Lays(Closed(layout, open, s, prefix), contents, FillLines(contents, prefix, blankLine), prefix, blankLine);
  }

  // ---------------------------------------------------------------- there is no other layout

  lemma {:induction false} WrapIsUnique(words: seq<string>, a: seq<seq<string>>, b: seq<seq<string>>, first: nat, cont: nat)
    requires WrappedAs(words, a, first, cont) && WrappedAs(words, b, first, cont)
    ensures a == b
    decreases |a|
  {
    hide EndsLine;
    if words != [] {
      LineEndIsUnique(words, first, |a[0]|, |b[0]|);
      assert a[0] == words[..|a[0]|] == b[0];
      if words[|a[0]|..] == [] {
        assert a[1..] == b[1..] == [];
      } else {
        WrapIsUnique(words[|a[0]|..], a[1..], b[1..], cont, cont);
      }
      assert a == [a[0]] + a[1..] && b == [b[0]] + b[1..];
    }
  }

  lemma ColumnsAreUnique(a: seq<string>, b: seq<string>, segments: seq<seq<string>>, prefix: string, marker: string, indent: nat)
    requires InColumns(a, segments, prefix, marker, indent) && InColumns(b, segments, prefix, marker, indent)
    ensures a == b
  {
    hide Join;
    forall i | 0 <= i < |a| ensures a[i] == b[i] {
      if i > 0 { IndentedIsUnique(a[i], b[i], prefix, indent, Join(segments[i])); }
    }
  }

  lemma IndentedIsUnique(a: string, b: string, prefix: string, indent: nat, text: string)
    requires Indented(a, prefix, indent, text) && Indented(b, prefix, indent, text)
    ensures a == b
  {
    forall k | 0 <= k < |a| ensures a[k] == b[k] {
      if k < |prefix| {
        assert a[k] == a[..|prefix|][k] && b[k] == b[..|prefix|][k];
      } else if k >= |prefix| + indent {
        var at := |prefix| + indent;
        assert a[k] == a[at..][k - at] && b[k] == b[at..][k - at];
      }
    }
  }

  lemma ParagraphIsUnique(a: Stretch, b: Stretch, prefix: string, marker: string, rest: string, indent: nat)
    requires a.from == b.from != []
    requires Paragraph(a, prefix, marker, rest, indent) && Paragraph(b, prefix, marker, rest, indent)
    ensures a == b
  {
    hide WrappedAs, InColumns, Tokenize, WordsOf, Continues;
    WrapIsUnique(Tokenize(rest) + WordsOf(a.from[1..]), a.segments, b.segments, |prefix| + |marker|, |prefix| + indent);
    ColumnsAreUnique(a.lines, b.lines, a.segments, prefix, marker, indent);
  }

  /** Which kind of paragraph it is, and so its lines, is read off its first line. */
  lemma ProseIsUnique(before: seq<Stretch>, after: seq<Stretch>, a: Stretch, b: Stretch, prefix: string)
    requires a.from == b.from && ProseStretch(before, a, prefix) && ProseStretch(after, b, prefix)
    ensures a == b
  {
    hide Paragraph, Trim, TagLine, ListMarker, MarkerEnd, Flows, EndsInProse;
    var content := a.from[0];
    MarkerExactly(content);
    if TagLine(Trim(content)) {
      ParagraphIsUnique(a, b, prefix, "", Trim(content), 2);
    } else if Listed(content) {
      var end := MarkerEnd(content);
      ParagraphIsUnique(a, b, prefix, content[..end], content[end..], end);
    } else {
      ParagraphIsUnique(a, b, prefix, "", Trim(content), 0);
    }
  }

  lemma StretchIsUnique(before: seq<Stretch>, after: seq<Stretch>, a: Stretch, b: Stretch, prefix: string, blankLine: string)
    requires a.from == b.from && From(before) == From(after)
    requires StretchOk(before, a, prefix, blankLine) && StretchOk(after, b, prefix, blankLine)
    ensures a == b
  {
    hide ProseStretch, FenceOpen, Trim, Fence, TableRow, From;
    NoFence();
    ProseFlows(before, a, prefix);
    ProseFlows(after, b, prefix);
    if ProseStretch(before, a, prefix) && ProseStretch(after, b, prefix) {
      ProseIsUnique(before, after, a, b, prefix);
    }
  }

  lemma ProseFlows(before: seq<Stretch>, st: Stretch, prefix: string)
    ensures ProseStretch(before, st, prefix) ==>
              && st.from != [] && Trim(st.from[0]) != [] && !Fence(Trim(st.from[0])) && !TableRow(Trim(st.from[0]))
              && (forall i :: 0 <= i < |st.from| ==> Flows(st.from[i]))
              && (forall i :: 1 <= i < |st.from| ==> Continues(st.from[i]))
  {
    hide Trim, Fence, TableRow, Listed, ListMarker, WrappedAs, InColumns;
  }

  /** A further line of prose starts a stretch only if it does not follow prose. */
  lemma ContinuingStarts(before: seq<Stretch>, st: Stretch, prefix: string, blankLine: string)
    requires StretchOk(before, st, prefix, blankLine) && !FenceOpen(From(before))
    requires st.from != [] && Continues(st.from[0])
    ensures before == [] || !EndsInProse(before[|before| - 1])
  {
    hide Trim, Fence, TableRow, EndsInProse, From, FenceOpen, Paragraph, ListMarker;
  }

  lemma NeverEmpty(before: seq<Stretch>, st: Stretch, prefix: string, blankLine: string)
    requires StretchOk(before, st, prefix, blankLine)
    ensures st.from != []
    ensures |st.from| > 1 ==> !FenceOpen(From(before)) && ProseStretch(before, st, prefix)
  {
    hide FenceOpen, From, Trim, Fence, TableRow;
    ProseFlows(before, st, prefix);
    hide ProseStretch;
  }

  lemma {:induction false} ProseKeepsFence(lines: seq<string>, prose: seq<string>)
    requires forall i :: 0 <= i < |prose| ==> Flows(prose[i])
    ensures FenceOpen(lines + prose) == FenceOpen(lines)
    decreases |prose|
  {
    hide FenceOpen, Fence, Trim, TableRow;
    if prose == [] {
      assert lines + prose == lines;
    } else {
      var front := prose[..|prose| - 1];
      ProseKeepsFence(lines, front);
      FenceGrows(lines + front, prose[|prose| - 1]);
      assert lines + front + [prose[|prose| - 1]] == lines + prose;
    }
  }

  lemma BehindProse(layout: seq<Stretch>, prefix: string, blankLine: string)
    requires AllOk(layout, prefix, blankLine) && From(layout) != [] && Flows(From(layout)[|From(layout)| - 1])
    ensures layout != [] && EndsInProse(layout[|layout| - 1])
  {
    hide StretchOk, Flows;
    NeverEmpty(layout[..|layout| - 1], layout[|layout| - 1], prefix, blankLine);
  }

  /** Two layouts of the same lines end with stretches of the same length. */
  lemma SameCut(a: seq<Stretch>, st: Stretch, b: seq<Stretch>, other: Stretch, prefix: string, blankLine: string)
    requires AllOk(a, prefix, blankLine) && StretchOk(a, st, prefix, blankLine)
    requires AllOk(b, prefix, blankLine) && StretchOk(b, other, prefix, blankLine)
    requires From(a) + st.from == From(b) + other.from
    ensures |st.from| >= |other.from|
  {
    hide StretchOk, ProseStretch, AllOk, FenceOpen, Flows, Continues, From;
    NeverEmpty(a, st, prefix, blankLine);
    NeverEmpty(b, other, prefix, blankLine);
    if |st.from| < |other.from| {
      var k := |other.from| - |st.from|;
      CutInside(From(a), st.from, From(b), other.from, k);
      ProseFlows(b, other, prefix);
      ProseKeepsFence(From(b), other.from[..k]);
      BehindProse(a, prefix, blankLine);
      ContinuingStarts(a, st, prefix, blankLine);
      assert false;
    }
  }

  lemma CutInside(a: seq<string>, x: seq<string>, b: seq<string>, y: seq<string>, k: nat)
    requires a + x == b + y && |y| == |x| + k && x != [] && k > 0
    ensures a == b + y[..k] && x[0] == y[k] && a != [] && a[|a| - 1] == y[k - 1]
  {
    assert |a| == |b| + k;
    assert a == (a + x)[..|a|] && (b + y)[..|a|] == b + y[..k];
    assert x[0] == (a + x)[|a|] && y[k] == (b + y)[|a|];
  }

  lemma {:induction false} LayoutsAgree(a: seq<Stretch>, b: seq<Stretch>, prefix: string, blankLine: string)
    requires AllOk(a, prefix, blankLine) && AllOk(b, prefix, blankLine) && From(a) == From(b)
    ensures a == b
    decreases |a|
  {
    hide StretchOk;
    if a == [] {
      if b != [] {
        NeverEmpty(b[..|b| - 1], b[|b| - 1], prefix, blankLine);
        assert false;
      }
    } else if b == [] {
      NeverEmpty(a[..|a| - 1], a[|a| - 1], prefix, blankLine);
      assert false;
    } else {
      var c, st := a[..|a| - 1], a[|a| - 1];
      var d, other := b[..|b| - 1], b[|b| - 1];
      AllOkFront(a, prefix, blankLine);
      AllOkFront(b, prefix, blankLine);
      SameCut(c, st, d, other, prefix, blankLine);
      SameCut(d, other, c, st, prefix, blankLine);
      SplitAtSameLength(From(c), st.from, From(d), other.from);
      StretchIsUnique(c, d, st, other, prefix, blankLine);
      LayoutsAgree(c, d, prefix, blankLine);
      assert a == c + [st] && b == d + [other];
    }
  }

  lemma SplitAtSameLength(a: seq<string>, x: seq<string>, b: seq<string>, y: seq<string>)
    requires a + x == b + y && |x| == |y|
    ensures a == b && x == y
  {
    assert a == (a + x)[..|a|] && b == (b + y)[..|a|];
    assert x == (a + x)[|a|..] && y == (b + y)[|a|..];
  }

  lemma AllOkFront(layout: seq<Stretch>, prefix: string, blankLine: string)
    requires AllOk(layout, prefix, blankLine) && layout != []
    ensures AllOk(layout[..|layout| - 1], prefix, blankLine)
    ensures StretchOk(layout[..|layout| - 1], layout[|layout| - 1], prefix, blankLine)
  {
    hide StretchOk;
    var front := layout[..|layout| - 1];
    assert forall i :: 0 <= i < |front| ==> front[..i] == layout[..i] && front[i] == layout[i];
  }

  /** So the layout says exactly what the fill writes. */
  lemma LayoutIsUnique(contents: seq<string>, lines: seq<string>, prefix: string, blankLine: string)
    ensures LaidOut(contents, lines, prefix, blankLine) <==> lines == FillLines(contents, prefix, blankLine)
  {
    hide AllOk, FillLines;
    FillIsLaidOut(contents, prefix, blankLine);
    var a :| Lays(a, contents, FillLines(contents, prefix, blankLine), prefix, blankLine);
    forall b | Lays(b, contents, lines, prefix, blankLine) ensures lines == FillLines(contents, prefix, blankLine) {
      LayoutsAgree(a, b, prefix, blankLine);
    }
  }
}

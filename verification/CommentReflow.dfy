/** `reflow.ts` as a program: the loops of the wrap, the tokenizer and the paragraph machine. */
module CommentReflow {
  import opened CommentFill
  import opened CommentText
  import opened Outcomes
  import opened SentenceWrap
  import opened WordTokens

  // ---------------------------------------------------------------- wrap

  lemma NextWord(words: seq<string>, prefix: nat, k: nat)
    requires 1 <= k < |words|
    ensures Width(prefix, words[..k + 1]) == Width(prefix, words[..k]) + 1 + |words[k]|
  {
    assert words[..k + 1] == words[..k] + [words[k]];
    WidthGrows(prefix, words[..k], words[k]);
  }

  /** The two inner loops of `wrap`: fill the line greedily, then look for a sentence boundary near the margin. */
  method FindLineEnd(words: seq<string>, prefix: nat) returns (end: nat)
    requires words != []
    ensures end == LineEnd(words, prefix)
  {
    var k := 1;
    var width := prefix + |words[0]|;
    assert words[..1] == [words[0]];
    while k < |words|
      invariant 1 <= k <= |words| && width == Width(prefix, words[..k])
      invariant forall j :: 1 < j <= k ==> Width(prefix, words[..j]) <= MAX_WIDTH
      invariant Fill(words, prefix, k) == Fill(words, prefix, 1)
    {
      NextWord(words, prefix, k);
      if width + 1 + |words[k]| > MAX_WIDTH { break; }
      width := width + 1 + |words[k]|;
      k := k + 1;
    }
    assert k == Fill(words, prefix, 1);
    end := k;
    var m, scanWidth := k, width;
    while m > 1
      invariant 1 <= m <= k && scanWidth == Width(prefix, words[..m]) && end == k
      invariant NonePreferred(words, prefix, m, k)
      invariant Scan(words, prefix, k, m) == Scan(words, prefix, k, k)
    {
      if scanWidth < MAX_WIDTH - SENTENCE_WINDOW { break; }
      if m < |words| && EndsSentence(words[m - 1]) && StartsSentence(words[m]) {
        end := m;
        break;
      }
      NextWord(words, prefix, m - 1);
      scanWidth := scanWidth - (1 + |words[m - 1]|);
      m := m - 1;
    }
  }

  method WrapWords(words: seq<string>, firstPrefix: string, contPrefix: string) returns (lines: seq<string>)
    ensures lines == Wrap(words, firstPrefix, contPrefix)
  {
    hide Segments, Lines, LineEnd;
    lines := [];
    var i := 0;
    var prefix := firstPrefix;
    assert words[0..] == words;
    while i < |words|
      invariant i <= |words|
      invariant lines + Wrapped(words[i..], prefix, contPrefix) == Wrap(words, firstPrefix, contPrefix)
    {
      var rest := words[i..];
      var end := FindLineEnd(rest, |prefix|);
      WrappedStep(rest, prefix, contPrefix);
      assert rest[end..] == words[i + end..];
      lines := lines + [prefix + Join(rest[..end])];
      i := i + end;
      prefix := contPrefix;
    }
    assert words[i..] == [];
    WrappedNothing(prefix, contPrefix);
  }

  /** The lines of the words that are left. */
  ghost function Wrapped(words: seq<string>, prefix: string, contPrefix: string): seq<string> {
    Lines(Segments(words, |prefix|, |contPrefix|), prefix, contPrefix)
  }

  lemma WrappedStep(words: seq<string>, prefix: string, contPrefix: string)
    requires words != []
    ensures var end := LineEnd(words, |prefix|);
            Wrapped(words, prefix, contPrefix) == [prefix + Join(words[..end])] + Wrapped(words[end..], contPrefix, contPrefix)
  {
    FirstSegment(words, |prefix|, |contPrefix|);
    hide Segments, LineEnd;
  }

  lemma WrappedNothing(prefix: string, contPrefix: string)
    ensures Wrapped([], prefix, contPrefix) == []
  {
  }

  // ---------------------------------------------------------------- tokenize

  /** The scan over one unit, jumping over closed code spans and tags. */
  method FindUnitEnd(prose: string, start: nat) returns (i: nat)
    requires start <= |prose|
    ensures i == UnitEnd(prose, start)
  {
    hide UnitEnd;
    i := start;
    while i < |prose| && !Blank(prose[i])
      invariant start <= i <= |prose| && UnitEnd(prose, i) == UnitEnd(prose, start)
      decreases |prose| - i
    {
      UnitStep(prose, i);
      if prose[i] == '`' {
        var close := IndexOf(prose, '`', i + 1);
        if close.Some? {
          i := close.value + 1;
          continue;
        }
      }
      if prose[i] == '{' && i + 1 < |prose| && prose[i + 1] == '@' {
        var close := IndexOf(prose, '}', i + 1);
        if close.Some? {
          i := close.value + 1;
          continue;
        }
      }
      i := i + 1;
    }
    UnitStep(prose, i);
  }

  lemma UnitStep(prose: string, i: nat)
    requires i <= |prose|
    ensures UnitEnd(prose, i) ==
              if i == |prose| || Blank(prose[i]) then i
              else UnitEnd(prose, if Closing(prose, i).Some? then Closing(prose, i).value + 1 else i + 1)
  {
  }

  method TokenizeProse(prose: string) returns (units: seq<string>)
    ensures units == Tokenize(prose)
  {
    hide UnitEnd;
    units := [];
    var i := 0;
    while i < |prose|
      invariant i <= |prose| && units + TokensFrom(prose, i) == Tokenize(prose)
    {
      ghost var from := i;
      while i < |prose| && Blank(prose[i])
        invariant from <= i <= |prose| && SkipBlanks(prose, i) == SkipBlanks(prose, from)
      {
        i := i + 1;
      }
      assert i == SkipBlanks(prose, from);
      if i >= |prose| { break; }
      var start := i;
      i := FindUnitEnd(prose, start);
      assert TokensFrom(prose, from) == [prose[start..i]] + TokensFrom(prose, i);
      units := units + [prose[start..i]];
    }
  }

  // ---------------------------------------------------------------- fillContentLines

  method FlushParagraph(out: seq<string>, para: Option<Block>, linePrefix: string, ghost blankLine: string) returns (longer: seq<string>)
    requires para.Some? ==> para.value.Para?
    ensures longer == if para.Some? then out + Show(para.value, linePrefix, blankLine) else out
  {
    longer := out;
    if para.Some? {
      var lines := WrapWords(para.value.words, linePrefix + para.value.marker, linePrefix + Hang(para.value));
      longer := out + lines;
    }
  }

  lemma ShowMore(done: seq<Block>, b: Block, linePrefix: string, blankLine: string)
    ensures ShowAll(done + [b], linePrefix, blankLine) == ShowAll(done, linePrefix, blankLine) + Show(b, linePrefix, blankLine)
  {
    assert (done + [b])[..|done|] == done;
  }

  /** What has been put out, and the open paragraph, are what the reader has read. */
  ghost predicate Matches(s: Reading, out: seq<string>, para: Option<Block>, inFence: bool, linePrefix: string, blankLine: string) {
    && out == ShowAll(s.done, linePrefix, blankLine) && para == s.para && inFence == s.fenced
    && (para.Some? ==> para.value.Para?) && (inFence ==> para.None?)
  }

  lemma FlushMatches(s: Reading, linePrefix: string, blankLine: string)
    ensures ShowAll(Flush(s).done, linePrefix, blankLine) ==
              ShowAll(s.done, linePrefix, blankLine) + if s.para.Some? then Show(s.para.value, linePrefix, blankLine) else []
    ensures Flush(s).para.None? && Flush(s).fenced == s.fenced
  {
    if s.para.Some? { ShowMore(s.done, s.para.value, linePrefix, blankLine); }
  }

  lemma KeepMatches(s: Reading, b: Block, linePrefix: string, blankLine: string)
    ensures ShowAll(Keep(s, b).done, linePrefix, blankLine) ==
              ShowAll(Flush(s).done, linePrefix, blankLine) + Show(b, linePrefix, blankLine)
    ensures Keep(s, b).para.None? && Keep(s, b).fenced == s.fenced
  {
    ShowMore(Flush(s).done, b, linePrefix, blankLine);
  }

  /** One line of `fillContentLines`. */
  method FillLine(content: string, before: seq<string>, open: Option<Block>, fenced: bool, linePrefix: string, blankLine: string, ghost s: Reading)
    returns (out: seq<string>, para: Option<Block>, inFence: bool)
    requires Matches(s, before, open, fenced, linePrefix, blankLine)
    ensures Matches(Read(s, content), out, para, inFence, linePrefix, blankLine)
  {
    hide ShowAll, Show;
    out, para, inFence := before, open, fenced;
    var trimmed := Trim(content);
    var verbatim := linePrefix + content;
    FlushMatches(s, linePrefix, blankLine);
    if inFence {
      ShowMore(s.done, Verbatim(content), linePrefix, blankLine);
      ShowLine(content, linePrefix, blankLine);
      out := out + [verbatim];
      if Fence(trimmed) { inFence := false; }
      return;
    }
    if Fence(trimmed) || trimmed == "" || TableRow(trimmed) {
      var b := if Fence(trimmed) || trimmed != "" then Verbatim(content) else Empty;
      KeepMatches(s, b, linePrefix, blankLine);
      ShowLine(content, linePrefix, blankLine);
      out := FlushParagraph(out, para, linePrefix, blankLine);
      para := None;
      out := out + [if b.Empty? then blankLine else verbatim];
      if Fence(trimmed) { inFence := true; }
      return;
    }
    if TagLine(trimmed) {
      out := FlushParagraph(out, para, linePrefix, blankLine);
      var words := TokenizeProse(trimmed);
      para := Some(Para(Tag, "", words));
    } else if MarkerEnd(content) > 0 {
      out := FlushParagraph(out, para, linePrefix, blankLine);
      var words := TokenizeProse(content[MarkerEnd(content)..]);
      para := Some(Para(Item, content[..MarkerEnd(content)], words));
    } else {
      var words := TokenizeProse(trimmed);
      if para.Some? {
        para := Some(para.value.(words := para.value.words + words));
      } else {
        para := Some(Para(Plain, "", words));
      }
    }
  }

  lemma ShowLine(content: string, linePrefix: string, blankLine: string)
    ensures Show(Verbatim(content), linePrefix, blankLine) == [linePrefix + content]
    ensures Show(Empty, linePrefix, blankLine) == [blankLine]
  {
  }

  method FillContentLines(contents: seq<string>, linePrefix: string, blankLine: string) returns (out: seq<string>)
    ensures out == FillLines(contents, linePrefix, blankLine)
  {
    hide Read, ShowAll, Show;
    ghost var s := Reading([], None, false);
    var para: Option<Block>, inFence := None, false;
    out := [];
    ShowNothing(linePrefix, blankLine);
    var i := 0;
    while i < |contents|
      invariant i <= |contents| && s == ReadAll(Reading([], None, false), contents[..i])
      invariant Matches(s, out, para, inFence, linePrefix, blankLine)
    {
      assert contents[..i + 1][..i] == contents[..i];
      out, para, inFence := FillLine(contents[i], out, para, inFence, linePrefix, blankLine, s);
      s := Read(s, contents[i]);
      i := i + 1;
    }
    assert contents[..i] == contents;
    FlushMatches(s, linePrefix, blankLine);
    out := FlushParagraph(out, para, linePrefix, blankLine);
  }

  lemma ShowNothing(linePrefix: string, blankLine: string)
    ensures ShowAll([], linePrefix, blankLine) == []
  {
  }
}

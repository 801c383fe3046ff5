/** Which comments of a file the formatter leaves alone. */
module CommentScope {
  import opened CommentEdits
  import opened CommentFill
  import CommentFixedPoint
  import opened CommentGroups
  import opened CommentText
  import opened Outcomes

  // ---------------------------------------------------------------- files that fit

  /** No line of the comment is over-wide, its indent counted. */
  ghost predicate Narrow(text: string, c: Comment)
    requires c.pos + 2 <= c.end <= |text|
  {
    if c.line then |IndentOf(text, c)| + |Text(text, c)| <= 100
    else forall k :: 0 <= k < |SplitLines(Text(text, c))| ==> |IndentOf(text, c)| + |SplitLines(Text(text, c))[k]| <= 100
  }

  ghost predicate AllNarrow(text: string, cs: seq<Comment>)
    requires Ranges(text, cs)
  {
    forall i :: 0 <= i < |cs| ==> Narrow(text, cs[i])
  }

  /** All comments of a group have the indent of its first. */
  lemma {:induction false} GroupShares(text: string, cs: seq<Comment>, i: nat, j: nat)
    requires Ranges(text, cs) && i < j <= |cs|
    requires forall k :: i <= k < j ==> Standalone(text, cs[k]) && IndentOf(text, cs[k]) == IndentOf(text, cs[i])
    ensures forall k :: i <= k < GroupEnd(text, cs, i, j) ==> Standalone(text, cs[k]) && IndentOf(text, cs[k]) == IndentOf(text, cs[i])
    decreases |cs| - j
  {
    hide Standalone, IndentOf, Contiguous;
    if j < |cs| && Joins(text, cs, i, j) { GroupShares(text, cs, i, j + 1); }
  }

  lemma NarrowGroup(text: string, cs: seq<Comment>, i: nat, j: nat)
    requires Ranges(text, cs) && i < j <= |cs| && AllNarrow(text, cs)
    requires forall k :: i <= k < j ==> Standalone(text, cs[k]) && IndentOf(text, cs[k]) == IndentOf(text, cs[i])
    ensures GroupEdit(text, cs, i, j) == []
  {
    hide IndentOf, Directive, Trim, Before, Ranges;
    var group := cs[i..j];
    SubRanges(text, cs, i, j);
    forall k | 0 <= k < |group| ensures |IndentOf(text, cs[i])| + |Texts(text, group)[k]| <= 100 {
      assert group[k] == cs[i + k] && Narrow(text, cs[i + k]);
    }
  }

  lemma SubRanges(text: string, cs: seq<Comment>, i: nat, j: nat)
    requires Ranges(text, cs) && i <= j <= |cs|
    ensures Ranges(text, cs[i..j]) && forall k :: 0 <= k < j - i ==> cs[i..j][k] == cs[i + k]
    ensures forall k :: 0 <= k < |cs| ==> cs[k].pos + 2 <= cs[k].end <= |text|
  {
  }

  lemma NarrowBlock(text: string, c: Comment)
    requires c.pos + 2 <= c.end <= |text| && Narrow(text, c)
    ensures BlockEdit(text, c) == []
  {
    hide IndentOf, Trim, Before, SplitLines;
  }

  lemma {:induction false} NarrowEdits(text: string, cs: seq<Comment>, i: nat)
    requires Ranges(text, cs) && i <= |cs| && AllNarrow(text, cs)
    ensures EditsFrom(text, cs, i) == []
    decreases |cs| - i
  {
    hide Standalone, IndentOf, GroupEdit, BlockEdit, Narrow, GroupEnd, Ranges, AllNarrow;
    if i < |cs| {
      var j := StretchEnd(text, cs, i);
      NarrowEdits(text, cs, j);
      NarrowAt(text, cs, i);
      if Standalone(text, cs[i]) {
        GroupShares(text, cs, i, i + 1);
        NarrowGroup(text, cs, i, j);
      } else {
        NarrowBlock(text, cs[i]);
      }
    }
  }

  lemma NarrowAt(text: string, cs: seq<Comment>, i: nat)
    requires Ranges(text, cs) && AllNarrow(text, cs) && i < |cs|
    ensures cs[i].pos + 2 <= cs[i].end <= |text| && Narrow(text, cs[i])
  {
  }

  /** A file none of whose comments has an over-wide line is left as it is, whatever its comments say. */
  lemma FittingFileIsUnchanged(text: string, cs: seq<Comment>)
    requires Ranges(text, cs) && AllNarrow(text, cs)
    ensures EditsFrom(text, cs, 0) == [] && Merge(text, 0, []) == text
  {
    NarrowEdits(text, cs, 0);
  }

  // ---------------------------------------------------------------- comments that are never touched

  /** A directive, a comment behind code, or a block comment that is not a doc comment of several lines. */
  ghost predicate OutOfScope(text: string, c: Comment)
    requires c.pos + 2 <= c.end <= |text|
  {
    if c.line then !Standalone(text, c)
    else Trim(Before(text, c)) != "" || !("/**" <= Text(text, c)) || '\n' !in Text(text, c)
  }

  lemma {:induction false} OneLine(text: string)
    requires '\n' !in text
    ensures SplitLines(text) == [text]
  {
    if text != [] {
      OneLine(text[1..]);
      assert text == [text[0]] + text[1..];
    }
  }

  lemma {:induction false} FirstLineStarts(text: string)
    ensures SplitLines(text)[0] <= text
    decreases |text|
  {
    if text != [] && text[0] != '\n' {
      FirstLineStarts(text[1..]);
      assert text == [text[0]] + text[1..];
    }
  }

  lemma ScopeOfBlocks(text: string, c: Comment)
    requires c.pos + 2 <= c.end <= |text| && OutOfScope(text, c) && !Standalone(text, c)
    ensures BlockEdit(text, c) == []
  {
    hide Trim, Before, IndentOf, Directive;
    if !c.line {
      var raw := SplitLines(Text(text, c));
      FirstLineStarts(Text(text, c));
      if '\n' !in Text(text, c) { OneLine(Text(text, c)); }
      if "/**" <= raw[0] { assert Text(text, c)[..3] == raw[0][..3]; }
    }
  }

  /** An edit of these comments lies on this one. */
  predicate Touches(e: Edit, c: Comment) {
    e.pos < c.end && c.pos < e.end
  }

  /** The edit of one stretch touches no comment that is out of scope. */
  lemma StretchSpares(text: string, cs: seq<Comment>, i: nat, k: nat)
    requires Ranges(text, cs) && i < |cs| && k < |cs| && OutOfScope(text, cs[k])
    ensures forall n :: 0 <= n < |StretchEdit(text, cs, i)| ==> !Touches(StretchEdit(text, cs, i)[n], cs[k])
  {
    hide IndentOf, Trim, Before, Directive, GroupEdit, BlockEdit, GroupEnd, OutOfScope, Contiguous;
    var j := StretchEnd(text, cs, i);
    StretchIsOne(text, cs, i);
    OrderedRanges(text, cs);
    if Standalone(text, cs[i]) {
      GroupShares(text, cs, i, i + 1);
      InScope(text, cs[k]);
    } else if k == i {
      ScopeOfBlocks(text, cs[i]);
    }
  }

  lemma InScope(text: string, c: Comment)
    requires c.pos + 2 <= c.end <= |text| && OutOfScope(text, c)
    ensures !Standalone(text, c)
  {
  }

  lemma OrderedRanges(text: string, cs: seq<Comment>)
    requires Ranges(text, cs)
    ensures forall a, b :: 0 <= a < b < |cs| ==> cs[a].end <= cs[b].pos
    ensures forall a :: 0 <= a < |cs| ==> cs[a].pos < cs[a].end
  {
  }

  /**
   Comments that machines read, comments behind code, and block comments other than doc comments of several
   lines are never touched, whatever their width: no edit of the file lies on one.
   */
  lemma {:induction false} OthersAreNeverTouched(text: string, cs: seq<Comment>, i: nat, k: nat)
    requires Ranges(text, cs) && i <= |cs| && k < |cs| && OutOfScope(text, cs[k])
    ensures forall n :: 0 <= n < |EditsFrom(text, cs, i)| ==> !Touches(EditsFrom(text, cs, i)[n], cs[k])
    decreases |cs| - i
  {
    hide StretchEdit, StretchEnd, OutOfScope, Touches;
    if i < |cs| {
      StretchSpares(text, cs, i, k);
      OthersAreNeverTouched(text, cs, StretchEnd(text, cs, i), k);
    }
  }

  // ---------------------------------------------------------------- comments that are refilled

  /** What stands in the place of a range once its edit, if there is one, has been applied. */
  ghost function Rewritten(text: string, edits: seq<Edit>, pos: nat, end: nat): string
    requires pos <= end <= |text| && AtMostOne(edits, pos, end)
  {
    if edits == [] then text[pos..end] else edits[0].replacement
  }

  lemma OneRewrites(text: string, pos: nat, end: nat, replacement: string)
    requires pos <= end <= |text|
    ensures Rewritten(text, One(pos, end, text[pos..end], Some(replacement)), pos, end) == replacement
  {
  }

  /** The lines of a refill behind the indent that precedes the comment. */
  function Refilled(indent: string, lines: seq<string>): string {
    if lines == [] then "" else JoinLines([Unindent(indent, lines[0])] + lines[1..])
  }

  /**
   A group of own-line comments with an over-wide line is replaced by its refill: the contents of its lines,
   laid out anew behind the indent and `// `.
   */
  lemma WideGroupIsRefilled(text: string, cs: seq<Comment>, i: nat, k: nat)
    requires Ranges(text, cs) && i < |cs| && Standalone(text, cs[i])
    requires i <= k < StretchEnd(text, cs, i) && |IndentOf(text, cs[k])| + |Text(text, cs[k])| > 100
    ensures var j := StretchEnd(text, cs, i);
            var indent := IndentOf(text, cs[i]);
            && Ranges(text, cs[i..j]) && cs[i].pos <= cs[j - 1].end <= |text|
            && AtMostOne(StretchEdit(text, cs, i), cs[i].pos, cs[j - 1].end)
            && Rewritten(text, StretchEdit(text, cs, i), cs[i].pos, cs[j - 1].end)
               == Refilled(indent, FillLines(Contents(Texts(text, cs[i..j])), indent + "// ", indent + "//"))
  {
    hide Standalone, IndentOf, Contiguous, GroupEnd, FillLines, Contents, Rewritten, One, AtMostOne;
    var j := StretchEnd(text, cs, i);
    GroupShares(text, cs, i, i + 1);
    SubRanges(text, cs, i, j);
    StretchIsOne(text, cs, i);
    var texts := Texts(text, cs[i..j]);
    assert texts[k - i] == Text(text, cs[k]);
    var lines := FillLines(Contents(texts), IndentOf(text, cs[i]) + "// ", IndentOf(text, cs[i]) + "//");
    assert ReflowLineGroup(IndentOf(text, cs[i]), texts) == Some(lines);
    OneRewrites(text, cs[i].pos, cs[j - 1].end, Refilled(IndentOf(text, cs[i]), lines));
  }

  /**
   A doc comment on its own lines, aligned at its stars, with an over-wide line is replaced by its refill
   between the opening line and the closing one.
   */
  lemma WideBlockIsRefilled(text: string, c: Comment, k: nat)
    requires c.pos + 2 <= c.end <= |text| && !c.line && Trim(Before(text, c)) == ""
    requires var raw := SplitLines(Text(text, c));
             StarAligned(raw) && k < |raw| && |IndentOf(text, c)| + |raw[k]| > 100
    ensures var raw := SplitLines(Text(text, c));
            var indent := IndentOf(text, c);
            && AtMostOne(BlockEdit(text, c), c.pos, c.end)
            && Rewritten(text, BlockEdit(text, c), c.pos, c.end)
               == JoinLines(["/**"] + FillLines(CommentFixedPoint.Map(StarContent, raw[1..|raw| - 1]), indent + " * ", indent + " *") + [indent + " */"])
  {
    hide Trim, Before, IndentOf, SplitLines, FillLines, StarAligned, JoinLines, Rewritten, One, AtMostOne;
    var raw := SplitLines(Text(text, c));
    AlignedIsLong(raw);
    var lines := ReflowBlock(IndentOf(text, c), raw, false);
    OneRewrites(text, c.pos, c.end, JoinLines(lines.value));
  }

  lemma AlignedIsLong(raw: seq<string>)
    requires StarAligned(raw)
    ensures |raw| >= 2
  {
  }

  // ---------------------------------------------------------------- groups

  predicate SpacesOrTabs(s: string) {
    forall i :: 0 <= i < |s| ==> s[i] == ' ' || s[i] == '\t'
  }

  /** A single line break, and what indents the next line. */
  ghost predicate LineBreak(gap: string) {
    exists rest :: (gap == "\n" + rest || gap == "\r\n" + rest) && SpacesOrTabs(rest)
  }

  /** What stands behind the first line break; something else if there is none. */
  function BehindBreak(gap: string): string {
    if "\r\n" <= gap then gap[2..] else if "\n" <= gap then gap[1..] else "x"
  }

  lemma BreakLeaves(gap: string)
    requires OneBreak(gap)
    ensures SpacesOrTabs(BehindBreak(gap))
  {
    var rest := BehindBreak(gap);
    forall k | 0 <= k < |rest| ensures rest[k] == ' ' || rest[k] == '\t' {
      assert (if "\r\n" <= gap then gap[2..] else if "\n" <= gap then gap[1..] else "x")[k] == rest[k];
    }
  }

  lemma LeavesBreak(gap: string)
    requires SpacesOrTabs(BehindBreak(gap))
    ensures OneBreak(gap)
  {
    var rest := BehindBreak(gap);
    assert forall k :: 0 <= k < |rest| ==> rest[k] == ' ' || rest[k] == '\t';
  }

  lemma BreakExactly(gap: string)
    ensures OneBreak(gap) <==> LineBreak(gap)
  {
    hide OneBreak;
    if OneBreak(gap) { BreakLeaves(gap); }
    if SpacesOrTabs(BehindBreak(gap)) { LeavesBreak(gap); }
    BehindIs(gap);
  }

  lemma BehindIs(gap: string)
    ensures SpacesOrTabs(BehindBreak(gap)) <==> LineBreak(gap)
  {
    hide SpacesOrTabs;
    if "\r\n" <= gap {
      assert gap == "\r\n" + gap[2..];
    } else if "\n" <= gap {
      assert gap == "\n" + gap[1..];
    } else {
      NotSpaces();
    }
    forall rest ensures gap == "\n" + rest || gap == "\r\n" + rest ==> BehindBreak(gap) == rest {
      if gap == "\n" + rest {
        assert gap[0] == '\n' && gap[1..] == rest;
      } else if gap == "\r\n" + rest {
        assert gap[..2] == "\r\n" && gap[2..] == rest;
      }
    }
  }

  lemma NotSpaces()
    ensures !SpacesOrTabs("x")
  {
    var s := "x";
    assert s[0] == 'x';
  }

  /** The next comment goes on with the group. */
  ghost predicate GoesOn(text: string, cs: seq<Comment>, i: nat, k: nat)
    requires Ranges(text, cs) && i < k < |cs|
  {
    Standalone(text, cs[k]) && IndentOf(text, cs[k]) == IndentOf(text, cs[i]) && LineBreak(text[cs[k - 1].end..cs[k].pos])
  }

  lemma JoinsGoOn(text: string, cs: seq<Comment>, i: nat, k: nat)
    requires Ranges(text, cs) && i < k < |cs|
    ensures Joins(text, cs, i, k) <==> GoesOn(text, cs, i, k)
  {
    hide Standalone, IndentOf, OneBreak, LineBreak;
    BreakExactly(text[cs[k - 1].end..cs[k].pos]);
  }

  lemma {:induction false} GroupGoesOn(text: string, cs: seq<Comment>, i: nat, j: nat)
    requires Ranges(text, cs) && i < j <= |cs|
    ensures var end := GroupEnd(text, cs, i, j);
            && (forall k :: j <= k < end ==> GoesOn(text, cs, i, k))
            && (end < |cs| ==> !GoesOn(text, cs, i, end))
    decreases |cs| - j
  {
    hide Ranges, Joins, GoesOn;
    if j < |cs| {
      JoinsGoOn(text, cs, i, j);
      if Joins(text, cs, i, j) { GroupGoesOn(text, cs, i, j + 1); }
    }
  }

  /** A group takes every next own-line comment of the same indent that is one line break away, and no other. */
  lemma GroupIsMaximal(text: string, cs: seq<Comment>, i: nat)
    requires Ranges(text, cs) && i < |cs| && Standalone(text, cs[i])
    ensures var j := StretchEnd(text, cs, i);
            && (forall k :: i < k < j ==> GoesOn(text, cs, i, k))
            && (j < |cs| ==> !GoesOn(text, cs, i, j))
  {
    GroupGoesOn(text, cs, i, i + 1);
  }
}

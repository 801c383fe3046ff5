/** What is written for a reflowed comment reads as a comment again, and a second reflow leaves it alone. */
module CommentSettles {
  import opened CommentEdits
  import opened CommentFill
  import CommentFixedPoint
  import opened CommentGroups
  import opened CommentLines
  import opened CommentRescan
  import opened CommentText
  import opened Outcomes

  // ---------------------------------------------------------------- what a reflowed group writes

  lemma {:induction false} TrimEndNext(s: string)
    ensures |TrimEnd(s)| <= |s| && (|TrimEnd(s)| < |s| ==> White(s[|TrimEnd(s)|]))
  {
    if s != [] && White(s[|s| - 1]) { TrimEndNext(s[..|s| - 1]); }
  }

  lemma WordStartTrimmed(word: string, s: string)
    requires WordStart(word, TrimEnd(s))
    ensures WordStart(word, s)
  {
    TrimEndIs(s);
    TrimEndNext(s);
  }

  /** White space behind it does not make a line a directive, nor keep it from being one. */
  lemma TrimmedIsNoDirective(s: string)
    requires !Directive(s)
    ensures !Directive(TrimEnd(s))
  {
    hide TrimEnd, WordStart;
    var t := TrimEnd(s);
    TrimEndIs(s);
    if WordStart("region", t) { WordStartTrimmed("region", s); }
    if WordStart("endregion", t) { WordStartTrimmed("endregion", s); }
  }

  lemma TrimEndHasNoBreak(s: string)
    requires NoBreak(s)
    ensures NoBreak(TrimEnd(s))
  {
    TrimEndIs(s);
    assert TrimEnd(s) == s[0..|TrimEnd(s)|];
    PartHasNoBreak(s, 0, |TrimEnd(s)|);
  }

  /** The content of a comment that may be reflowed. */
  lemma UncommentIsFine(t: string)
    requires |t| >= 2 && NoBreak(t) && !Directive(Body(t))
    ensures Fine(Uncomment(t), true)
  {
    hide Directive, NoBreak, TrimEnd, White;
    var body := Body(t);
    EndHasNoBreak(t, 2);
    if t[2..] != [] { EndHasNoBreak(t[2..], 1); }
    TrimEndHasNoBreak(body);
    TrimmedIsNoDirective(body);
  }

  lemma LineIsOrdinary(indent: string, t: string)
    requires NoBreak(indent) && Fine(t, true)
    ensures var line := indent + "// " + t;
            && indent + "//" <= line && NoBreak(line)
            && |Unindent(indent, line)| >= 2 && Body(Unindent(indent, line)) == t
  {
    hide Directive;
    var line := indent + "// " + t;
    assert Unindent(indent, line) == "// " + t;
    assert ("// " + t)[2..] == " " + t && (" " + t)[1..] == t;
    assert line[..|indent| + 2] == indent + "//";
  }

  lemma BlankIsOrdinary(indent: string)
    requires NoBreak(indent)
    ensures var line := indent + "//";
            NoBreak(line) && |Unindent(indent, line)| >= 2 && Body(Unindent(indent, line)) == "" && !Directive("")
  {
    assert Unindent(indent, indent + "//") == "//" && "//"[2..] == "";
    OnlyThoseStart("");
  }

  lemma FineIsOrdinary(indent: string, lines: seq<string>)
    requires NoBreak(indent) && AllFine(lines, indent + "// ", indent + "//", true)
    ensures Ordinary(indent, lines)
  {
    hide Directive, Unindent, Body;
    BlankIsOrdinary(indent);
    forall k | 0 <= k < |lines|
      ensures indent + "//" <= lines[k] && '\n' !in lines[k]
      ensures |Unindent(indent, lines[k])| >= 2 && !Directive(Body(Unindent(indent, lines[k])))
    {
      if lines[k] != indent + "//" {
        var t := lines[k][|indent + "// "|..];
        LineIsOrdinary(indent, t);
        assert lines[k] == indent + "// " + t;
      }
    }
  }

  /** Line comments that may be reflowed, and may be reflowed again. */
  ghost predicate CalmGroup(indent: string, texts: seq<string>) {
    && BlankIndent(indent)
    && AllCalm(Blocks(Contents(texts)), |indent| + 3, true)
  }

  ghost predicate Reflowable(texts: seq<string>) {
    texts != [] && forall k :: 0 <= k < |texts| ==> |texts[k]| >= 2 && NoBreak(texts[k]) && !Directive(Body(texts[k]))
  }

  lemma BlankHasNoBreak(indent: string)
    requires BlankIndent(indent)
    ensures NoBreak(indent)
  {
  }

  /** A reflowed group can be found again, and is left alone then. */
  lemma ReflowedGroupSettles(indent: string, texts: seq<string>)
    requires CalmGroup(indent, texts) && Reflowable(texts) && ReflowLineGroup(indent, texts).Some?
    ensures var lines := ReflowLineGroup(indent, texts).value;
            lines != [] && Ordinary(indent, lines) && Settled(indent, lines)
  {
    hide Blocks, NoTrailingWhite, FillLines, Directive, Body, BlankIndent, Ordinary, Rescanned, Fine, AllFine, NoBreak, Uncomment;
    var contents := Contents(texts);
    BlankHasNoBreak(indent);
    ContentsHaveNoTrailingWhite(texts);
    forall k | 0 <= k < |contents| ensures Fine(contents[k], true) { UncommentIsFine(texts[k]); }
    assert |indent + "// "| == |indent| + 3;
    FillIsFine(contents, indent + "// ", indent + "//", true);
    FillsSomething(contents, indent + "// ", indent + "//");
    FineIsOrdinary(indent, FillLines(contents, indent + "// ", indent + "//"));
    CalmIsStable(Blocks(contents), |indent| + 3, true);
    LineGroupIsStable(indent, texts);
  }

  lemma CalmIsStable(blocks: seq<Block>, p: nat, inLines: bool)
    requires AllCalm(blocks, p, inLines)
    ensures forall j :: 0 <= j < |blocks| ==> CommentFixedPoint.Stable(blocks[j], p)
  {
    hide CommentFixedPoint.Stable, Unmarked;
    forall j | 0 <= j < |blocks| ensures CommentFixedPoint.Stable(blocks[j], p) { assert Calm(blocks[j], p, inLines); }
  }

  // ---------------------------------------------------------------- what a reflowed block writes

  lemma {:induction false} SplitHasNoBreaks(text: string)
    ensures NoBreaks(SplitLines(text))
  {
    if text != [] {
      SplitHasNoBreaks(text[1..]);
      var rest := SplitLines(text[1..]);
      assert NoBreak(rest[0]);
    }
  }

  lemma {:induction false} SplitFirst(line: string, rest: string)
    requires NoBreak(line)
    ensures SplitLines(line + "\n" + rest) == [line] + SplitLines(rest) && SplitLines(line) == [line]
  {
    var text := line + "\n" + rest;
    if line == [] {
      assert text[1..] == rest;
    } else {
      var less := line[1..];
      assert line[0] in line && forall c :: c in less ==> c in line;
      SplitFirst(less, rest);
      assert text[1..] == less + "\n" + rest;
      assert [line[0]] + less == line;
    }
  }

  lemma {:induction false} JoinSplits(lines: seq<string>)
    requires lines != [] && NoBreaks(lines)
    ensures SplitLines(JoinLines(lines)) == lines
  {
    hide SplitLines, NoBreak;
    if |lines| == 1 {
      SplitFirst(lines[0], "");
    } else {
      JoinSplits(lines[1..]);
      SplitFirst(lines[0], JoinLines(lines[1..]));
    }
  }

  lemma StarContentHasNoBreak(line: string)
    requires NoBreak(line)
    ensures NoBreak(StarContent(line))
  {
    hide NoBreak, TrimEnd, Lead, White;
    var k := Lead(line);
    NothingHasNoBreak();
    if k < |line| {
      var body := line[k + 1..];
      EndHasNoBreak(line, k + 1);
      if body != [] { EndHasNoBreak(body, 1); }
      TrimEndHasNoBreak(if body != [] && body[0] == ' ' then body[1..] else body);
    }
  }

  lemma EndHasNoBreak(s: string, n: nat)
    requires n <= |s| && NoBreak(s)
    ensures NoBreak(s[n..])
  {
    assert forall k :: 0 <= k < |s| - n ==> s[n..][k] == s[n + k];
  }

  lemma InnerIsFine(raw: seq<string>)
    requires NoBreaks(raw)
    ensures var contents := CommentFixedPoint.Map(StarContent, Inner(raw));
            forall k :: 0 <= k < |contents| ==> NoTrailingWhite(contents[k]) && Fine(contents[k], false)
  {
    hide NoBreak, StarContent, NoTrailingWhite;
    var inner := Inner(raw);
    StarContentsHaveNoTrailingWhite(inner);
    forall k | 0 <= k < |inner| ensures Fine(StarContent(inner[k]), false) {
      assert inner[k] == raw[k + 1];
      StarContentHasNoBreak(inner[k]);
    }
  }

  lemma FineHasNoBreaks(lines: seq<string>, linePrefix: string, blankLine: string)
    requires AllFine(lines, linePrefix, blankLine, false) && NoBreak(linePrefix) && NoBreak(blankLine)
    ensures NoBreaks(lines)
  {
    hide NoBreak;
    forall k | 0 <= k < |lines| ensures NoBreak(lines[k]) {
      if lines[k] != blankLine {
        JoinsHaveNoBreak(linePrefix, lines[k][|linePrefix|..]);
        assert lines[k] == linePrefix + lines[k][|linePrefix|..];
      }
    }
  }

  /** A block comment that may be reflowed again. */
  ghost predicate CalmBlock(indent: string, raw: seq<string>) {
    AllCalm(Blocks(CommentFixedPoint.Map(StarContent, Inner(raw))), |indent| + 3, false)
  }

  /** A reflowed block is split into the same lines again, and left alone then. */
  lemma ReflowedBlockSettles(indent: string, raw: seq<string>)
    requires AllWhite(indent) && NoBreak(indent) && NoBreaks(raw) && CalmBlock(indent, raw)
    requires ReflowBlock(indent, raw, false).Some?
    ensures var lines := ReflowBlock(indent, raw, false).value;
            && lines != [] && NoBreaks(lines) && lines[|lines| - 1] == indent + " */"
            && SplitLines(JoinLines(lines)) == lines
            && (ReflowBlock(indent, lines, false).None? || ReflowBlock(indent, lines, false) == Some(lines))
  {
    hide Blocks, NoTrailingWhite, FillLines, Fine, AllFine, StarContent, StarAligned, NoBreak, SplitLines, JoinLines, AllWhite, Wide;
    var contents := CommentFixedPoint.Map(StarContent, Inner(raw));
    InnerIsFine(raw);
    assert |indent + " * "| == |indent| + 3;
    FillIsFine(contents, indent + " * ", indent + " *", false);
    var filled := FillLines(contents, indent + " * ", indent + " *");
    BlockPrefixes(indent);
    FineHasNoBreaks(filled, indent + " * ", indent + " *");
    JoinSplits(["/**"] + filled + [indent + " */"]);
    CalmIsStable(Blocks(contents), |indent| + 3, false);
    BlockIsStable(indent, raw);
  }

  lemma BlockPrefixes(indent: string)
    requires NoBreak(indent)
    ensures NoBreak(indent + " * ") && NoBreak(indent + " *") && NoBreak(indent + " */") && NoBreak("/**")
  {
  }
}

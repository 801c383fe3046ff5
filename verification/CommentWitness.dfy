/** A comment that the program changes on its first run and again on its second: why closed words are needed. */
module CommentWitness {
  import opened CommentFill
  import opened CommentFixedPoint
  import opened CommentGroups
  import opened CommentText
  import opened Outcomes
  import opened SentenceWrap
  import opened WordTokens

  function Letters(n: nat): (s: string)
    ensures |s| == n && forall i :: 0 <= i < n ==> s[i] == 'x'
  {
    seq(n, _ => 'x')
  }

  lemma {:induction false} LettersClosed(n: nat, i: nat)
    requires i <= n
    ensures ClosedFrom(Letters(n), i)
    decreases n - i
  {
    if i < n { LettersClosed(n, i + 1); }
  }

  const LONG: string := Letters(82)

  /** A word too wide for any line: it keeps the group above the width at which it is filled. */
  const WIDE: string := Letters(98)

  const HEAD: seq<Block> := [Para(Plain, "", [WIDE]), Empty]

  /** The words as first read, one line after the other, and as read from the line they are put on. */
  const APART: seq<string> := [LONG, "`a", "etc.`", "Foo"]
  const GLUED: seq<string> := [LONG, "`a etc.`", "Foo"]

  lemma GluedIsSound()
    ensures Sound(GLUED)
  {
    LettersClosed(82, 0);
    assert IndexOf("`a etc.`", '`', 1) == Some(7) by {
      assert IndexOf("`a etc.`", '`', 5) == Some(7);
      assert IndexOf("`a etc.`", '`', 3) == Some(7);
    }
    assert ClosedFrom("`a etc.`", 8);
    assert ClosedFrom("Foo", 1);
  }

  lemma SameLine()
    ensures Join(APART) == Join(GLUED)
  {
    assert APART[1..] == ["`a", "etc.`", "Foo"] && APART[1..][1..] == ["etc.`", "Foo"] && APART[1..][1..][1..] == ["Foo"];
    assert GLUED[1..] == ["`a etc.`", "Foo"] && GLUED[1..][1..] == ["Foo"];
    assert Join(["etc.`", "Foo"]) == "etc.` Foo";
    assert Join(["`a", "etc.`", "Foo"]) == "`a etc.` Foo";
    assert Join(["`a etc.`", "Foo"]) == "`a etc.` Foo";
  }

  lemma ApartWidths()
    ensures Width(3, APART[..2]) == 88 && Width(3, APART[..3]) == 94 && Width(3, APART[..4]) == 98
  {
    assert APART[..1] == [LONG];
    WidthGrows(3, APART[..1], "`a");
    assert APART[..2] == APART[..1] + ["`a"];
    WidthGrows(3, APART[..2], "etc.`");
    assert APART[..3] == APART[..2] + ["etc.`"];
    WidthGrows(3, APART[..3], "Foo");
    assert APART[..4] == APART[..3] + ["Foo"];
  }

  lemma GluedWidths()
    ensures Width(3, GLUED[..2]) == 94 && Width(3, GLUED[..3]) == 98
  {
    assert GLUED[..1] == [LONG];
    WidthGrows(3, GLUED[..1], "`a etc.`");
    assert GLUED[..2] == GLUED[..1] + ["`a etc.`"];
    WidthGrows(3, GLUED[..2], "Foo");
    assert GLUED[..3] == GLUED[..2] + ["Foo"];
  }

  lemma Sentences()
    ensures !EndsSentence("`a") && !EndsSentence("etc.`") && EndsSentence("`a etc.`") && StartsSentence("Foo")
  {
    assert DropLast("`a", ")]\"'`\U{BB}") == "`a";
    assert "etc.`"[..4] == "etc." && DropLast("etc.`", ")]\"'`\U{BB}") == "etc.";
    assert Lower("etc.") == "etc.";
    var core := "`a etc.";
    assert "`a etc.`"[..7] == core && DropLast("`a etc.`", ")]\"'`\U{BB}") == core;
    assert Lower(core)[0] == '`';
    assert core[..6][0] == '`';
  }

  /** Read apart, the prose stays on one line. */
  lemma ApartFills()
    ensures Segments(APART, 3, 3) == [APART]
  {
    ApartWidths();
    Sentences();
    assert Fullest(APART, 3, 4);
    assert EndsFullest(APART, 3, 4, 4);
    LineEndIsUnique(APART, 3, 4, LineEnd(APART, 3));
    FirstSegment(APART, 3, 3);
    assert APART[..4] == APART && APART[4..] == [];
    NoSegments(3, 3);
  }

  /** Read glued, it breaks behind the abbreviation. */
  lemma GluedFills()
    ensures |Segments(GLUED, 3, 3)| > 1
  {
    GluedWidths();
    Sentences();
    assert Fullest(GLUED, 3, 3);
    assert Preferred(GLUED, 3, 2) && EndsFullest(GLUED, 3, 3, 2);
    LineEndIsUnique(GLUED, 3, 2, LineEnd(GLUED, 3));
    FirstSegment(GLUED, 3, 3);
    FirstSegment(GLUED[2..], 3, 3);
  }

  lemma {:induction false} LineCount(segments: seq<seq<string>>, first: string, cont: string)
    ensures |Lines(segments, first, cont)| == |segments|
    decreases |segments|
  {
    if segments != [] { LineCount(segments[1..], cont, cont); }
  }

  lemma ContinuationReads(before: seq<Block>, b: Block, content: string, words: seq<string>)
    requires b.Para? && Solid(content) && !Fence(content) && content[0] !in "|@-*+" && !('0' <= content[0] <= '9')
    requires Tokenize(content) == words
    ensures Read(Reading(before, Some(b), false), content) == Reading(before, Some(b.(words := b.words + words)), false)
  {
    TrimSolid("", content);
    assert "" + content == content;
    assert Lead(content) == 0;
    assert BulletLength(content, 0) == 0;
  }

  lemma ReadThree(s: Reading, a: string, b: string, c: string)
    ensures ReadAll(s, [a, b, c]) == Read(Read(Read(s, a), b), c)
  {
    hide Read;
    ReadAllSplits(s, [a, b], [c]);
    ReadAllSplits(s, [a], [b]);
    assert [a] + [b] == [a, b] && [a, b] + [c] == [a, b, c];
    ReadOne(s, a);
    ReadOne(Read(s, a), b);
    ReadOne(Read(Read(s, a), b), c);
  }

  lemma WideWrites()
    ensures Wrap([WIDE], "// ", "// ") == ["// " + WIDE]
  {
    FirstSegment([WIDE], 3, 3);
    NoSegments(3, 3);
    assert [WIDE][..1] == [WIDE] && [WIDE][1..] == [] && Join([WIDE]) == WIDE;
    assert Segments([WIDE], 3, 3) == [[WIDE]];
    assert Lines([[WIDE]], "// ", "// ") == ["// " + WIDE] + Lines([], "// ", "// ");
  }

  lemma LettersOk(n: nat, more: seq<string>)
    requires n > 0
    ensures ParaOk(Para(Plain, "", [Letters(n)] + more)) && Solid(Letters(n)) && !BareBullet(Letters(n))
  {
    var w := Letters(n);
    assert w[0] == 'x' && w[n - 1] == 'x' && BulletLength(w, 0) == 0;
    assert !Fence(w) && !TableRow(w) && !TagLine(w);
  }

  lemma WordReads(before: seq<Block>, n: nat)
    requires n > 0 && !Fenced(before) && (before == [] || !before[|before| - 1].Para?)
    ensures Read(Canon(before), Letters(n)) == Canon(before + [Para(Plain, "", [Letters(n)])])
  {
    hide Letters, Join, Solid, ParaOk, Read, Canon, BareBullet, Fenced, ClosedFrom;
    LettersClosed(n, 0);
    LettersOk(n, []);
    var w := Letters(n);
    assert [w] + [] == [w];
    JoinOne(w);
    PlainLineReads(before, Para(Plain, "", [w]), [w]);
  }

  lemma JoinOne(w: string)
    ensures Join([w]) == w
  {
  }

  lemma HeadIs()
    ensures !Fenced(HEAD) && Readable(HEAD[..1]) && HEAD[..1] == [HEAD[0]] && HEAD == HEAD[..1] + [Empty]
    ensures BlockOk(HEAD[..1], Empty)
  {
    LettersOk(98, []);
    assert [WIDE] + [] == [WIDE];
    hide Letters, ParaOk;
    assert HEAD[..1] == [HEAD[0]] && HEAD[..1][..0] == [];
    assert HEAD == HEAD[..1] + [Empty];
    assert BlockOk([], HEAD[0]);
    assert !Fenced([]);
    assert !Fenced(HEAD[..1]);
  }

  lemma HeadReads()
    ensures ReadAll(Reading([], None, false), [WIDE, ""]) == Canon(HEAD)
  {
    HeadIs();
    WordReads([], 98);
    LineBlockReads(HEAD[..1], Empty);
    hide Read, Fenced, Readable;
    ReadAllSplits(Canon([]), [WIDE], [""]);
    assert [WIDE] + [""] == [WIDE, ""] && [] + [HEAD[0]] == HEAD[..1];
    ReadOne(Canon([]), WIDE);
    ReadOne(Canon(HEAD[..1]), "");
  }

  lemma ShortLines()
    ensures Solid("`a") && !Fence("`a") && Solid("etc.` Foo") && !Fence("etc.` Foo")
  {
  }

  /** As first written, the back quote opens on one line and closes on the next. */
  lemma ApartReads()
    ensures Blocks([WIDE, "", LONG, "`a", "etc.` Foo"]) == HEAD + [Para(Plain, "", APART)]
  {
    hide Read, Tokenize, Join, ReadAll, Solid, Fence, Fenced;
    HeadReads();
    HeadIs();
    WordReads(HEAD, 82);
    CanonOfParagraph(HEAD, Para(Plain, "", [LONG]));
    UnclosedQuotesGlue();
    ShortLines();
    ContinuationReads(HEAD, Para(Plain, "", [LONG]), "`a", ["`a"]);
    ApartTokens();
    ContinuationReads(HEAD, Para(Plain, "", [LONG, "`a"]), "etc.` Foo", ["etc.`", "Foo"]);
    assert [LONG] + ["`a"] == [LONG, "`a"];
    assert [LONG, "`a"] + ["etc.`", "Foo"] == APART;
    ReadThree(Canon(HEAD), LONG, "`a", "etc.` Foo");
    ReadAllSplits(Reading([], None, false), [WIDE, ""], [LONG, "`a", "etc.` Foo"]);
    assert [WIDE, ""] + [LONG, "`a", "etc.` Foo"] == [WIDE, "", LONG, "`a", "etc.` Foo"];
  }

  lemma ApartTokens()
    ensures Tokenize("etc.` Foo") == ["etc.`", "Foo"]
  {
    var s := "etc.` Foo";
    assert IndexOf(s, '`', 5).None? by { assert IndexOf(s, '`', 7).None?; }
    assert UnitEnd(s, 5) == 5 && UnitEnd(s, 3) == 5 && UnitEnd(s, 1) == 5 && UnitEnd(s, 0) == 5;
    assert UnitEnd(s, 9) == 9 && UnitEnd(s, 7) == 9 && UnitEnd(s, 6) == 9;
    assert SkipBlanks(s, 5) == 6 && TokensFrom(s, 9) == [];
    assert s[0..5] == "etc.`" && s[6..9] == "Foo";
  }

  /** Filled, both quotes stand on one line and the words between them are glued. */
  lemma GluedReads()
    ensures Blocks([WIDE, "", Join(APART)]) == HEAD + [Para(Plain, "", GLUED)]
  {
    SameLine();
    GluedIsSound();
    HeadIs();
    HeadReads();
    var b := Para(Plain, "", GLUED);
    LettersOk(82, ["`a etc.`", "Foo"]);
    assert [LONG] + ["`a etc.`", "Foo"] == GLUED;
    hide Read, ReadAll, Join, Fenced, Canon, ParaOk, Sound, Letters, BareBullet;
    PlainLineReads(HEAD, b, GLUED);
    FlushCanon(HEAD + [b]);
    ReadAllSplits(Reading([], None, false), [WIDE, ""], [Join(APART)]);
    assert [WIDE, ""] + [Join(APART)] == [WIDE, "", Join(APART)];
    ReadOne(Canon(HEAD), Join(GLUED));
  }

  /** The lines in front of the last paragraph are the same in both runs. */
  lemma FillThree(contents: seq<string>, words: seq<string>)
    requires Blocks(contents) == HEAD + [Para(Plain, "", words)]
    ensures FillLines(contents, "// ", "//") == ["// " + WIDE, "//"] + Lines(Segments(words, 3, 3), "// ", "// ")
  {
    WideWrites();
    hide Blocks, Segments, Lines, Wrap;
    var b := Para(Plain, "", words);
    var all := HEAD + [b];
    assert all[..2] == HEAD && all[..2][..1] == [HEAD[0]] && [HEAD[0]][..0] == [];
    assert "// " + "" == "// ";
    assert ShowAll([HEAD[0]], "// ", "//") == ShowAll([], "// ", "//") + Show(HEAD[0], "// ", "//");
    assert ShowAll(all[..2], "// ", "//") == ShowAll(all[..2][..1], "// ", "//") + Show(Empty, "// ", "//");
    assert Show(b, "// ", "//") == Lines(Segments(words, 3, 3), "// ", "// ") by { assert Show(b, "// ", "//") == Wrap(words, "// ", "// "); WrapIs(words); }
  }

  lemma WrapIs(words: seq<string>)
    ensures Wrap(words, "// ", "// ") == Lines(Segments(words, 3, 3), "// ", "// ")
  {
  }

  /** The comment as it is written. */
  const WRITTEN: seq<string> := ["// " + WIDE, "//", "// " + LONG, "// `a", "// etc.` Foo"]

  lemma Undecorated(t: string)
    requires NoTrailingWhite(t)
    ensures Uncomment("// " + t) == t && Unindent("", "// " + t) == "// " + t
  {
    LineReads("", t);
    assert "" + "// " + t == "// " + t;
  }

  lemma UndecoratedBlank()
    ensures Uncomment("//") == "" && Unindent("", "//") == "//"
  {
    BlankReads("");
    assert "" + "//" == "//";
  }

  lemma WrittenContents()
    ensures Contents(WRITTEN) == [WIDE, "", LONG, "`a", "etc.` Foo"]
  {
    hide Uncomment, Unindent, Letters;
    Undecorated(WIDE);
    UndecoratedBlank();
    Undecorated(LONG);
    Undecorated("`a");
    Undecorated("etc.` Foo");
    assert "// " + "`a" == "// `a" && "// " + "etc.` Foo" == "// etc.` Foo";
    assert |Contents(WRITTEN)| == 5;
  }

  lemma FilledContents()
    ensures Contents(Rescanned("", ["// " + WIDE, "//", "// " + Join(APART)])) == [WIDE, "", Join(APART)]
    ensures Wide("", Rescanned("", ["// " + WIDE, "//", "// " + Join(APART)]))
  {
    Undecorated(WIDE);
    UndecoratedBlank();
    SameLine();
    GluedIsSound();
    JoinIsSolid(GLUED);
    Undecorated(Join(APART));
    hide Uncomment, Unindent, Join;
    var texts := Rescanned("", ["// " + WIDE, "//", "// " + Join(APART)]);
    assert |Contents(texts)| == 3 && |texts| == 3;
    assert |""| + |texts[0]| == 101;
  }

  /**
   Reflow is no fixed point: this comment is over-wide, its first run puts the two halves of a code span
   on one line, and the second run, with the comment still over-wide, reads them as one word and breaks
   the line behind it.
   */
  lemma ReflowingTwiceCanDiffer()
    ensures var once := ReflowLineGroup("", WRITTEN);
            && once.Some? && |once.value| == 3
            && var twice := ReflowLineGroup("", Rescanned("", once.value));
               twice.Some? && |twice.value| >= 4 && twice != once
  {
    hide Blocks, FillLines, Segments, Join, Contents, Rescanned;
    assert |WRITTEN[0]| == 101;
    ApartReads();
    WrittenContents();
    ApartFills();
    FillThree(Contents(WRITTEN), APART);
    assert "" + "// " == "// " && "" + "//" == "//";
    var lines := ["// " + WIDE, "//", "// " + Join(APART)];
    assert FillLines(Contents(WRITTEN), "// ", "//") == lines;
    FilledContents();
    GluedReads();
    GluedFills();
    FillThree(Contents(Rescanned("", lines)), GLUED);
    LineCount(Segments(GLUED, 3, 3), "// ", "// ");
  }

  /** A doc comment with text on its opening line. */
  const OPENED: seq<string> := ["/** Sorts.", " * " + WIDE, " */"]

  /** Reflowed, it has lost that text: what is written is what an empty opening line would give. */
  lemma OpeningTextIsLost()
    ensures var lines := ReflowBlock("", OPENED, false);
            lines.Some? && lines == ReflowBlock("", OPENED[0 := "/**"], false)
            && lines.value == ["/**", " * " + WIDE, " */"]
  {
    hide Blocks, FillLines, StarLine, ClosingLine, Wide;
    OpenedIsAligned();
    OpeningTextIsDropped("", OPENED, "/**");
    OpenedFills();
    assert "" + " * " == " * " && "" + " *" == " *" && "" + " */" == " */";
    assert ["/**"] + [" * " + WIDE] + [" */"] == ["/**", " * " + WIDE, " */"];
  }

  lemma OpenedLines()
    ensures StarLine(" * " + WIDE) == Some(WIDE) && StarContent(" * " + WIDE) == WIDE && ClosingLine(" */")
  {
    LettersOk(98, []);
    hide StarLine, ClosingLine, Letters;
    StarReads("", WIDE);
    assert "" + " * " + WIDE == " * " + WIDE && "" + " */" == " */";
  }

  lemma OpenedIsAligned()
    ensures StarAligned(OPENED) && Wide("", OPENED) && Wide("", OPENED[0 := "/**"])
    ensures Map(StarContent, Inner(OPENED)) == [WIDE]
  {
    hide StarLine, ClosingLine, Letters, StarContent;
    OpenedLines();
    assert |""| + |OPENED[1]| == 101 && OPENED[0 := "/**"][1] == OPENED[1];
    assert Inner(OPENED) == [" * " + WIDE];
    assert |Map(StarContent, Inner(OPENED))| == 1;
  }

  lemma OpenedFills()
    ensures FillLines([WIDE], " * ", " *") == [" * " + WIDE]
  {
    WordReads([], 98);
    ReadOne(Canon([]), WIDE);
    var b := Para(Plain, "", [WIDE]);
    FlushCanon([b]);
    assert [] + [b] == [b] && [b][..0] == [];
    hide Read, ReadAll;
    assert Blocks([WIDE]) == [b];
    assert " * " + "" == " * ";
    assert ShowAll([b], " * ", " *") == ShowAll([], " * ", " *") + Show(b, " * ", " *");
    FirstSegment([WIDE], 3, 3);
    NoSegments(3, 3);
    assert [WIDE][..1] == [WIDE] && [WIDE][1..] == [] && Join([WIDE]) == WIDE;
    assert Segments([WIDE], 3, 3) == [[WIDE]];
    assert Lines([[WIDE]], " * ", " * ") == [" * " + WIDE] + Lines([], " * ", " * ");
  }
}

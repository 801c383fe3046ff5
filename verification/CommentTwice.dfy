/**
 Reflowing a whole file twice: whatever line groups and block comments it holds, one after the other or on
 one line, the second run leaves every character as it is.
 */
module CommentTwice {
  import opened CommentEdits
  import opened CommentFill
  import opened CommentGroups
  import opened CommentLines
  import opened CommentMoves
  import opened CommentRescan
  import opened CommentSettles
  import opened CommentText
  import opened Outcomes

  // ---------------------------------------------------------------- one stretch, written and found again

  lemma EndsBehind(text: string, cs: seq<Comment>, i: nat, j: nat)
    requires Ranges(text, cs) && i < j <= |cs|
    ensures cs[i].pos + 2 <= cs[i].end <= cs[j - 1].end <= |text| && cs[i].pos <= cs[j - 1].pos
    ensures j < |cs| ==> cs[j - 1].end <= cs[j].pos
  {
  }

  /** What stands in the output where the comments of the stretch from `i` on stood. */
  ghost function Written(text: string, cs: seq<Comment>, i: nat): string
    requires Ranges(text, cs) && i < |cs|
  {
    var j := StretchEnd(text, cs, i);
    EndsBehind(text, cs, i, j);
    if StretchEdit(text, cs, i) == [] then text[cs[i].pos..cs[j - 1].end] else StretchEdit(text, cs, i)[0].replacement
  }

  ghost function StretchTexts(text: string, cs: seq<Comment>, i: nat): seq<string>
    requires Ranges(text, cs) && i < |cs|
  {
    PartRanges(text, cs, i, StretchEnd(text, cs, i));
    Texts(text, cs[i..StretchEnd(text, cs, i)])
  }

  /** The lines a group is reflowed to. */
  ghost function GroupLines(text: string, cs: seq<Comment>, i: nat): seq<string>
    requires Ranges(text, cs) && i < |cs|
  {
    var lines := ReflowLineGroup(IndentOf(text, cs[i]), StretchTexts(text, cs, i));
    if lines.Some? then lines.value else []
  }

  /** The comments of the output there, the first of them at `at`. */
  ghost function Here(text: string, cs: seq<Comment>, i: nat, at: nat): seq<Comment>
    requires Ranges(text, cs) && i < |cs|
  {
    if StretchEdit(text, cs, i) == [] then Moved(cs[i..StretchEnd(text, cs, i)], cs[i].pos, at)
    else if Standalone(text, cs[i]) then Placed(at, IndentOf(text, cs[i]), GroupLines(text, cs, i))
    else [Comment(at, at + |Written(text, cs, i)|, false)]
  }

  /** If the comments are reflowed, they may be reflowed again. */
  ghost predicate CalmStretch(text: string, cs: seq<Comment>, i: nat)
    requires Ranges(text, cs) && i < |cs|
  {
    StretchEdit(text, cs, i) != [] ==>
      var indent := IndentOf(text, cs[i]);
      if Standalone(text, cs[i]) then CalmGroup(indent, StretchTexts(text, cs, i))
      else CalmBlock(indent, SplitLines(Text(text, cs[i])))
  }

  /** The output from `at` on is what was written for the stretch and something behind it. */
  ghost predicate Placing(text: string, cs: seq<Comment>, i: nat, out: string, at: nat, back: string) {
    && Scanned(text, cs) && i < |cs| && CalmStretch(text, cs, i)
    && at <= |out| && out[at..] == Written(text, cs, i) + back
    && SameLine(text[..cs[i].pos], out[..at])
  }

  /** The comments stand there, and start a group only if those of the input did, of the same indent then. */
  ghost predicate Sits(text: string, cs: seq<Comment>, i: nat, out: string, at: nat, here: seq<Comment>)
    requires Ranges(text, cs) && i < |cs|
  {
    && here != [] && Scanned(out, here)
    && here[0].pos == at && here[|here| - 1].end == at + |Written(text, cs, i)|
    && (Standalone(out, here[0]) ==> Standalone(text, cs[i]))
    && (Standalone(text, cs[i]) ==> IndentOf(out, here[0]) == IndentOf(text, cs[i]))
  }

  // a stretch that is left as it is

  /** The comments of the stretch stand at `at` as they stood in the input. */
  ghost predicate Kept(text: string, cs: seq<Comment>, i: nat, out: string, at: nat, here: seq<Comment>)
    requires Ranges(text, cs) && i < |cs|
  {
    var j := StretchEnd(text, cs, i);
    KeptText(text, cs, i, j, out, at, here) && |here| == j - i && here[|here| - 1].end == at + |Written(text, cs, i)|
  }

  ghost predicate KeptText(text: string, cs: seq<Comment>, i: nat, j: nat, out: string, at: nat, here: seq<Comment>) {
    && i < j <= |cs| && AllAlike(text, cs[i..j], out, here)
    && here != [] && here[0].pos == at <= here[|here| - 1].end <= |out|
    && cs[i].pos <= cs[j - 1].end <= |text|
    && text[cs[i].pos..cs[j - 1].end] == out[at..here[|here| - 1].end]
  }

  lemma MovedIsKept(text: string, cs: seq<Comment>, i: nat, j: nat, out: string, at: nat)
    requires Ranges(text, cs) && i < j <= |cs| && cs[i].pos <= cs[j - 1].end <= |text|
    requires at + (cs[j - 1].end - cs[i].pos) <= |out| && SameLine(text[..cs[i].pos], out[..at])
    requires out[at..at + (cs[j - 1].end - cs[i].pos)] == text[cs[i].pos..cs[j - 1].end]
    ensures var here := Moved(cs[i..j], cs[i].pos, at);
            KeptText(text, cs, i, j, out, at, here) && |here| == j - i && here[|here| - 1].end == at + (cs[j - 1].end - cs[i].pos)
  {
    hide SameLine, AllAlike, Ranges;
    var part := cs[i..j];
    assert part[0] == cs[i] && part[|part| - 1] == cs[j - 1];
    PartRanges(text, cs, i, j);
    MovedAlike(text, part, out, at);
  }

  lemma MovedIs(text: string, cs: seq<Comment>, i: nat, out: string, at: nat, back: string)
    requires Placing(text, cs, i, out, at, back) && StretchEdit(text, cs, i) == []
    ensures Kept(text, cs, i, out, at, Here(text, cs, i, at))
  {
    hide SameLine, StretchEnd, StretchEdit, CalmStretch, KeptText, Moved, Ranges;
    var j := StretchEnd(text, cs, i);
    EndsBehind(text, cs, i, j);
    var written := text[cs[i].pos..cs[j - 1].end];
    LengthOfSlice(text, cs[i].pos, cs[j - 1].end);
    FrontOf(out, at, written, back);
    MovedIsKept(text, cs, i, j, out, at);
  }

  lemma PartRanges(text: string, cs: seq<Comment>, i: nat, j: nat)
    requires Ranges(text, cs) && i <= j <= |cs|
    ensures Ranges(text, cs[i..j])
  {
  }

  lemma MovedSits(text: string, cs: seq<Comment>, i: nat, out: string, at: nat, back: string)
    requires Placing(text, cs, i, out, at, back) && StretchEdit(text, cs, i) == []
    ensures Sits(text, cs, i, out, at, Here(text, cs, i, at))
  {
    hide Standalone, IndentOf, StretchEnd, StretchEdit, Here, Alike, SameLine, Written, CalmStretch;
    MovedIs(text, cs, i, out, at, back);
    var part := cs[i..StretchEnd(text, cs, i)];
    assert part[0] == cs[i];
    FirstAlike(text, part, out, Here(text, cs, i, at));
    PartScanned(text, cs, i, StretchEnd(text, cs, i));
    AlikeScanned(text, part, out, Here(text, cs, i, at));
  }

  lemma PartScanned(text: string, cs: seq<Comment>, i: nat, j: nat)
    requires Scanned(text, cs) && i <= j <= |cs|
    ensures Scanned(text, cs[i..j])
  {
    hide NoBreak, White;
    PartRanges(text, cs, i, j);
    hide Ranges;
    assert forall k :: 0 <= k < j - i ==> cs[i..j][k] == cs[i + k];
  }

  lemma AlikeScanned(text: string, cs: seq<Comment>, out: string, ds: seq<Comment>)
    requires Scanned(text, cs) && AllAlike(text, cs, out, ds)
    ensures Scanned(out, ds)
  {
    hide NoBreak, White, SameGap, SameLine;
    forall k | 0 <= k < |ds|
      ensures if ds[k].line then "//" <= Text(out, ds[k]) && NoBreak(Text(out, ds[k])) else !White(out[ds[k].end - 1])
    {
      assert Alike(text, cs[k], out, ds[k]);
      var t := Text(text, cs[k]);
      assert t[|t| - 1] == text[cs[k].end - 1];
      assert Text(out, ds[k])[|t| - 1] == out[ds[k].end - 1];
    }
  }

  lemma MovedRests(text: string, cs: seq<Comment>, i: nat, out: string, at: nat, back: string, all: seq<Comment>, k: nat)
    requires Placing(text, cs, i, out, at, back) && StretchEdit(text, cs, i) == []
    requires var here := Here(text, cs, i, at);
             Ranges(out, all) && k + |here| <= |all| && all[k..k + |here|] == here && here != []
             && (Standalone(text, cs[i]) ==> k + |here| == |all| || !Joins(out, all, k, k + |here|))
    ensures Rests(out, all, k, |Here(text, cs, i, at)|)
  {
    hide Standalone, IndentOf, Alike, SameLine, Written, CalmStretch, Joins, Here, StretchEnd, StretchEdit, AllAlike, Rests;
    MovedIs(text, cs, i, out, at, back);
    var here := Here(text, cs, i, at);
    var n := |here|;
    assert all[k] == here[0] && all[k + n - 1] == here[n - 1];
    if Standalone(text, cs[i]) {
      MovedGroupRests(text, cs, i, n, out, all, k);
    } else {
      SingleRests(text, cs, i, out, all, k, here);
    }
  }

  lemma SingleRests(text: string, cs: seq<Comment>, i: nat, out: string, all: seq<Comment>, k: nat, here: seq<Comment>)
    requires Ranges(text, cs) && i < |cs| && !Standalone(text, cs[i]) && StretchEdit(text, cs, i) == []
    requires Ranges(out, all) && k < |all| && here != [] && all[k] == here[0] && AllAlike(text, cs[i..StretchEnd(text, cs, i)], out, here)
    ensures Rests(out, all, k, |here|)
  {
    hide Standalone, Alike, AllAlike, GroupEnd, GroupEdit, BlockEdit, Ranges;
    OneAlike(text, cs, i, out, here);
    FirstAlike(text, cs[i..i + 1], out, here);
    AlikeLeftAlone(text, cs[i], out, all[k]);
  }

  lemma OneAlike(text: string, cs: seq<Comment>, i: nat, out: string, here: seq<Comment>)
    requires i < |cs| && AllAlike(text, cs[i..i + 1], out, here)
    ensures |here| == 1 && cs[i..i + 1][0] == cs[i] && Alike(text, cs[i], out, here[0])
  {
    assert Alike(text, cs[i..i + 1][0], out, here[0]);
  }

  // a reflowed group

  lemma GroupIsReflowable(text: string, cs: seq<Comment>, i: nat)
    requires Scanned(text, cs) && i < |cs| && Standalone(text, cs[i])
    ensures Reflowable(StretchTexts(text, cs, i))
  {
    hide Directive, Contiguous, IndentOf, Body, GroupEnd;
    var j := StretchEnd(text, cs, i);
    PartRanges(text, cs, i, j);
    GroupEndIs(text, cs, i, i + 1, j);
    forall k | 0 <= k < j - i
      ensures var t := Text(text, cs[i..j][k]); |t| >= 2 && NoBreak(t) && !Directive(Body(t))
    {
      var c := cs[i + k];
      assert cs[i..j][k] == c;
      if k > 0 { assert Joins(text, cs, i, i + k); }
      StandaloneText(text, cs, i + k);
    }
  }

  lemma StandaloneText(text: string, cs: seq<Comment>, k: nat)
    requires Scanned(text, cs) && k < |cs| && Standalone(text, cs[k])
    ensures var t := Text(text, cs[k]); |t| >= 2 && NoBreak(t) && !Directive(Body(t))
  {
    hide Directive, NoBreak;
    var t := Text(text, cs[k]);
    assert t[2..] == text[cs[k].pos + 2..cs[k].end];
  }

  /** What a reflowed group has become. */
  lemma GroupReflowed(text: string, cs: seq<Comment>, i: nat)
    requires Scanned(text, cs) && i < |cs| && CalmStretch(text, cs, i) && Standalone(text, cs[i]) && StretchEdit(text, cs, i) != []
    ensures var indent := IndentOf(text, cs[i]);
            var lines := GroupLines(text, cs, i);
            && lines != [] && BlankIndent(indent) && Ordinary(indent, lines) && Settled(indent, lines)
            && Written(text, cs, i) == GroupBody(indent, lines)
  {
    hide Standalone, IndentOf, GroupEnd, ReflowLineGroup, Settled, Ordinary, BlankIndent, AllCalm, Reflowable, Texts, Unindent, JoinLines;
    GroupIsReflowable(text, cs, i);
    var indent := IndentOf(text, cs[i]);
    EndsBehind(text, cs, i, StretchEnd(text, cs, i));
    if ReflowLineGroup(indent, StretchTexts(text, cs, i)).Some? {
      ReflowedGroupSettles(indent, StretchTexts(text, cs, i));
    }
  }

  lemma WhiteLine(text: string, c: Comment, out: string, at: nat)
    requires c.pos + 2 <= c.end <= |text| && at <= |out| && Standalone(text, c) && SameLine(text[..c.pos], out[..at])
    ensures Tail(out[..at]) == IndentOf(text, c)
  {
    hide Directive, Tail, Trim, White, LineStart, Lead;
    BeforeIsTail(text, c.pos);
    TrimNothing(Before(text, c));
  }

  lemma TailInFront(out: string, at: nat)
    requires at <= |out|
    ensures var t := Tail(out[..at]);
            && |t| <= at && out[at - |t|..at] == t && (at > |t| ==> out[at - |t| - 1] == '\n')
            && LineStart(out, at) == at - |t|
  {
    hide Tail, LineStart;
    var t := Tail(out[..at]);
    var front := TailStands(out[..at]);
    BeforeIsTail(out, at);
    LengthOfSlice(out, LineStart(out, at), at);
    BehindFront(out, at, front, t);
  }

  lemma LengthOfSlice(s: string, a: nat, b: nat)
    requires a <= b <= |s|
    ensures |s[a..b]| == b - a
  {
  }

  lemma BehindFront(out: string, at: nat, front: string, t: string)
    requires at <= |out| && out[..at] == front + t
    ensures |t| <= at && out[at - |t|..at] == t && (front != [] ==> out[at - |t| - 1] == front[|front| - 1])
  {
    var s := out[..at];
    assert s[|front|..] == t;
    assert out[at - |t|..at] == s[|front|..];
    assert front != [] ==> s[|front| - 1] == front[|front| - 1];
  }

  /** In front of the group stands its indent, at the start of a line. */
  lemma IndentStands(text: string, c: Comment, out: string, at: nat)
    requires c.pos + 2 <= c.end <= |text| && at <= |out| && Standalone(text, c) && SameLine(text[..c.pos], out[..at])
    ensures var indent := IndentOf(text, c);
            && |indent| <= at && out[at - |indent|..at] == indent && (at > |indent| ==> out[at - |indent| - 1] == '\n')
            && LineStart(out, at) == at - |indent|
  {
    hide Tail, IndentOf, Standalone, LineStart, SameLine;
    WhiteLine(text, c, out, at);
    TailInFront(out, at);
  }

  lemma PlacedIsHere(text: string, cs: seq<Comment>, i: nat, out: string, at: nat, back: string)
    requires Placing(text, cs, i, out, at, back) && Standalone(text, cs[i]) && StretchEdit(text, cs, i) != []
    ensures var here := Here(text, cs, i, at);
            var indent := IndentOf(text, cs[i]);
            && here != [] && |here| == |GroupLines(text, cs, i)| && Scanned(out, here) && here[0].pos == at
            && here[|here| - 1].end == at + |Written(text, cs, i)|
            && Stand(out, here, indent, GroupLines(text, cs, i))
            && Standalone(out, here[0]) && IndentOf(out, here[0]) == indent
  {
    hide Standalone, IndentOf, StretchEdit, SameLine, CalmStretch, Written, GroupLines, Stand, GroupBody, Ordinary, BlankIndent, Settled, LineStart, Unindent;
    var indent := IndentOf(text, cs[i]);
    var lines := GroupLines(text, cs, i);
    GroupReflowed(text, cs, i);
    IndentStands(text, cs[i], out, at);
    PlacedStand(out, at, indent, lines, back);
    var here := Placed(at, indent, lines);
    StartsWithIndent(indent, lines);
    StandingText(out, here, indent, lines);
    FirstStandsAlone(out, here, indent, lines);
    EndOfSlice(out, here[0].pos, here[|here| - 1].end, GroupBody(indent, lines));
    StandingScanned(out, here, indent, lines);
  }

  lemma StandingScanned(out: string, here: seq<Comment>, indent: string, lines: seq<string>)
    requires Ranges(out, here) && Stand(out, here, indent, lines) && Ordinary(indent, lines)
    ensures Scanned(out, here)
  {
    hide Directive, Body, Unindent, Before, OneApart;
    forall k | 0 <= k < |here| ensures here[k].line && "//" <= Text(out, here[k]) && NoBreak(Text(out, here[k])) {
      assert StandsAt(out, here[k], indent, lines[k]);
      UnindentIsComment(indent, lines[k]);
    }
  }

  lemma UnindentIsComment(indent: string, line: string)
    requires indent + "//" <= line && NoBreak(line)
    ensures "//" <= Unindent(indent, line) && NoBreak(Unindent(indent, line))
  {
    assert line[|indent|] == (indent + "//")[|indent|] == '/' && line[|indent| + 1] == (indent + "//")[|indent| + 1] == '/';
    EndHasNoBreak(line, |indent|);
  }

  lemma EndOfSlice(out: string, a: nat, b: nat, s: string)
    requires a <= b <= |out| && out[a..b] == s
    ensures b == a + |s|
  {
  }

  lemma PlacedRests(text: string, cs: seq<Comment>, i: nat, out: string, at: nat, back: string, all: seq<Comment>, k: nat)
    requires Placing(text, cs, i, out, at, back) && Standalone(text, cs[i]) && StretchEdit(text, cs, i) != []
    requires var here := Here(text, cs, i, at);
             Ranges(out, all) && here != [] && k + |here| <= |all| && all[k..k + |here|] == here
             && (k + |here| == |all| || !Joins(out, all, k, k + |here|))
    ensures Rests(out, all, k, |Here(text, cs, i, at)|)
  {
    hide Standalone, IndentOf, StretchEdit, StretchEnd, SameLine, CalmStretch, Written, GroupLines, Stand, Ordinary, BlankIndent, Settled, Joins, Here, Ranges;
    PlacedIsHere(text, cs, i, out, at, back);
    ScannedRanges(text, cs);
    GroupReflowed(text, cs, i);
    StandingGroupIsLeftAlone(out, all, k, IndentOf(text, cs[i]), GroupLines(text, cs, i));
  }

  lemma ScannedRanges(text: string, cs: seq<Comment>)
    requires Scanned(text, cs)
    ensures Ranges(text, cs)
  {
  }

  // a reflowed block

  lemma IndentHasNoBreak(text: string, c: Comment)
    requires c.pos <= |text|
    ensures NoBreak(IndentOf(text, c))
  {
    hide Lead;
    var indent := IndentOf(text, c);
    assert forall k :: 0 <= k < |indent| ==> indent[k] == text[LineStart(text, c.pos) + k];
  }

  /** What a reflowed block has become. */
  lemma BlockReflowed(text: string, cs: seq<Comment>, i: nat) returns (lines: seq<string>)
    requires Scanned(text, cs) && i < |cs| && CalmStretch(text, cs, i) && !Standalone(text, cs[i]) && StretchEdit(text, cs, i) != []
    ensures var indent := IndentOf(text, cs[i]);
            && lines != [] && NoBreaks(lines) && lines[|lines| - 1] == indent + " */" && NoBreak(indent)
            && Written(text, cs, i) == JoinLines(lines) && SplitLines(Written(text, cs, i)) == lines
            && (ReflowBlock(indent, lines, false).None? || ReflowBlock(indent, lines, false) == Some(lines))
    ensures !cs[i].line && Trim(Before(text, cs[i])) == ""
  {
    hide Standalone, GroupEnd, SplitLines, JoinLines, CalmBlock, NoBreak, Trim, Lead, LineStart, FillLines, StarAligned, Wide, Before;
    var c := cs[i];
    var indent := IndentOf(text, c);
    var raw := SplitLines(Text(text, c));
    SplitHasNoBreaks(Text(text, c));
    IndentHasNoBreak(text, c);
    TrimNothing(Before(text, c));
    ReflowedBlockSettles(indent, raw);
    lines := ReflowBlock(indent, raw, false).value;
  }

  lemma BlockSits(text: string, cs: seq<Comment>, i: nat, out: string, at: nat, back: string)
    requires Placing(text, cs, i, out, at, back) && !Standalone(text, cs[i]) && StretchEdit(text, cs, i) != []
    ensures Sits(text, cs, i, out, at, Here(text, cs, i, at))
  {
    hide StretchEdit, SameLine, CalmStretch, Directive, IndentOf, Trim, JoinLines, SplitLines, ReflowBlock, NoBreaks, NoBreak, Before;
    var lines := BlockReflowed(text, cs, i);
    FrontOf(out, at, Written(text, cs, i), back);
    var written := Written(text, cs, i);
    EndsWithSlash(lines, IndentOf(text, cs[i]));
    assert out[at + |written| - 1] == written[|written| - 1];
    hide Written;
  }

  lemma EndsWithSlash(lines: seq<string>, indent: string)
    requires lines != [] && lines[|lines| - 1] == indent + " */"
    ensures |JoinLines(lines)| >= 2 && JoinLines(lines)[|JoinLines(lines)| - 1] == '/'
  {
    var front := JoinEnds(lines);
    assert (indent + " */")[|indent| + 2] == '/';
  }

  /** Joined lines end with the last of them. */
  lemma {:induction false} JoinEnds(lines: seq<string>) returns (front: string)
    requires lines != []
    ensures JoinLines(lines) == front + lines[|lines| - 1]
    decreases |lines|
  {
    if |lines| == 1 {
      front := "";
    } else {
      var rest := JoinEnds(lines[1..]);
      front := lines[0] + "\n" + rest;
      assert lines[1..][|lines| - 2] == lines[|lines| - 1];
      Regroup(lines[0] + "\n", rest, lines[|lines| - 1]);
    }
  }

  lemma BlockRests(text: string, cs: seq<Comment>, i: nat, out: string, at: nat, back: string, all: seq<Comment>, k: nat)
    requires Placing(text, cs, i, out, at, back) && !Standalone(text, cs[i]) && StretchEdit(text, cs, i) != []
    requires Ranges(out, all) && k < |all| && all[k..k + 1] == Here(text, cs, i, at)
    ensures Rests(out, all, k, 1)
  {
    hide StretchEdit, CalmStretch, Directive, Trim, JoinLines, SplitLines, NoBreaks, NoBreak, Lead, LineStart, Tail, SameLine, StarAligned, Wide, FillLines;
    var lines := BlockReflowed(text, cs, i);
    FrontOf(out, at, Written(text, cs, i), back);
    var d := all[k..k + 1][0];
    assert d == all[k];
    SameFront(text, cs[i], out, d);
    BlockStays(out, d, IndentOf(text, cs[i]), lines);
    BlockIsNoGroup(out, all, k);
  }

  lemma BlockIsNoGroup(out: string, all: seq<Comment>, k: nat)
    requires Ranges(out, all) && k < |all| && !all[k].line && BlockEdit(out, all[k]) == []
    ensures Rests(out, all, k, 1)
  {
    hide BlockEdit, GroupEdit, GroupEnd;
  }

  /** Two comments in front of which nothing stands on their line. */
  lemma SameFront(text: string, c: Comment, out: string, d: Comment)
    requires c.pos <= |text| && d.pos <= |out| && SameLine(text[..c.pos], out[..d.pos]) && Trim(Before(text, c)) == ""
    ensures Before(out, d) == Before(text, c) && IndentOf(out, d) == IndentOf(text, c)
  {
    hide Tail, Trim, White, LineStart, Lead;
    BeforeIsTail(text, c.pos);
    BeforeIsTail(out, d.pos);
    TrimNothing(Before(text, c));
  }

  lemma BlockStays(out: string, d: Comment, indent: string, lines: seq<string>)
    requires d.pos + 2 <= d.end <= |out| && !d.line && IndentOf(out, d) == indent && Trim(Before(out, d)) == ""
    requires Text(out, d) == JoinLines(lines) && SplitLines(JoinLines(lines)) == lines
    requires ReflowBlock(indent, lines, false).None? || ReflowBlock(indent, lines, false) == Some(lines)
    ensures BlockEdit(out, d) == []
  {
    hide ReflowBlock, IndentOf, Trim, Before, SplitLines, JoinLines, Text;
  }

  // ---------------------------------------------------------------- the whole file

  lemma HereSits(text: string, cs: seq<Comment>, i: nat, out: string, at: nat, back: string)
    requires Placing(text, cs, i, out, at, back)
    ensures Sits(text, cs, i, out, at, Here(text, cs, i, at))
  {
    hide StretchEdit, Standalone, Placing, Here, Stand;
    PlacingScanned(text, cs, i, out, at, back);
    if StretchEdit(text, cs, i) == [] {
      MovedSits(text, cs, i, out, at, back);
    } else if Standalone(text, cs[i]) {
      PlacedIsHere(text, cs, i, out, at, back);
    } else {
      BlockSits(text, cs, i, out, at, back);
    }
  }

  lemma PlacingScanned(text: string, cs: seq<Comment>, i: nat, out: string, at: nat, back: string)
    requires Placing(text, cs, i, out, at, back)
    ensures Scanned(text, cs) && Ranges(text, cs) && i < |cs| && at + |Written(text, cs, i)| <= |out|
  {
    hide StretchEdit, SameLine, CalmStretch, Written;
    FrontOf(out, at, Written(text, cs, i), back);
  }

  lemma HereRests(text: string, cs: seq<Comment>, i: nat, out: string, at: nat, back: string, all: seq<Comment>, k: nat)
    requires Placing(text, cs, i, out, at, back)
    requires var here := Here(text, cs, i, at);
             Ranges(out, all) && k + |here| <= |all| && all[k..k + |here|] == here && here != []
             && (Standalone(text, cs[i]) ==> k + |here| == |all| || !Joins(out, all, k, k + |here|))
    ensures Rests(out, all, k, |Here(text, cs, i, at)|)
  {
    hide StretchEdit, Standalone, Placing, Here, Joins, Rests;
    PlacingScanned(text, cs, i, out, at, back);
    if StretchEdit(text, cs, i) == [] {
      MovedRests(text, cs, i, out, at, back, all, k);
    } else if Standalone(text, cs[i]) {
      PlacedRests(text, cs, i, out, at, back, all, k);
    } else {
      BlockIsOne(text, cs, i, at);
      BlockRests(text, cs, i, out, at, back, all, k);
    }
  }

  lemma BlockIsOne(text: string, cs: seq<Comment>, i: nat, at: nat)
    requires Ranges(text, cs) && i < |cs| && StretchEdit(text, cs, i) != [] && !Standalone(text, cs[i])
    ensures |Here(text, cs, i, at)| == 1
  {
  }

  /** The line behind a comment of the input is not blank in front of its end. */
  lemma InkAtEnd(text: string, cs: seq<Comment>, k: nat)
    requires Scanned(text, cs) && k < |cs|
    ensures !AllWhite(Tail(text[..cs[k].end]))
  {
    hide Tail;
    var c := cs[k];
    if c.line {
      assert Text(text, c)[0] == '/';
      InkInFront(text[..c.pos], Text(text, c));
      assert text[..c.pos] + Text(text, c) == text[..c.end];
    } else {
      var last := [text[c.end - 1]];
      assert last[0] == text[c.end - 1];
      InkInFront(text[..c.end - 1], last);
      assert text[..c.end - 1] + last == text[..c.end];
    }
  }

  /** What is written for a reflowed stretch ends in a line that is not blank. */
  lemma WrittenEnds(text: string, cs: seq<Comment>, i: nat) returns (front: string, last: string)
    requires Scanned(text, cs) && i < |cs| && CalmStretch(text, cs, i) && StretchEdit(text, cs, i) != []
    ensures Written(text, cs, i) == front + last && NoBreak(last) && !AllWhite(last)
  {
    hide StretchEdit, CalmStretch, Standalone, Written, GroupLines, Ordinary, BlankIndent, Settled, JoinLines, NoBreaks, IndentOf, White, SplitLines, ReflowBlock, GroupBody;
    var indent := IndentOf(text, cs[i]);
    if Standalone(text, cs[i]) {
      GroupReflowed(text, cs, i);
      front, last := GroupBodyEnds(indent, GroupLines(text, cs, i));
    } else {
      var lines := BlockReflowed(text, cs, i);
      front := JoinEnds(lines);
      last := lines[|lines| - 1];
      StarHasInk(indent);
    }
  }

  lemma StarHasInk(indent: string)
    requires NoBreak(indent)
    ensures NoBreak(indent + " */") && !AllWhite(indent + " */")
  {
    assert (indent + " */")[|indent| + 1] == '*';
  }

  lemma GroupBodyEnds(indent: string, lines: seq<string>) returns (front: string, last: string)
    requires lines != [] && Ordinary(indent, lines)
    ensures GroupBody(indent, lines) == front + last && NoBreak(last) && !AllWhite(last)
  {
    hide JoinLines, Directive, Body, AllWhite;
    var body := [Unindent(indent, lines[0])] + lines[1..];
    front := JoinEnds(body);
    last := body[|body| - 1];
    if |lines| == 1 {
      UnindentHasInk(indent, lines[0]);
    } else {
      LineHasInk(indent, last);
    }
  }

  lemma LineHasInk(indent: string, line: string)
    requires indent + "//" <= line
    ensures !AllWhite(line)
  {
    assert line[|indent|] == (indent + "//")[|indent|] == '/';
  }

  lemma UnindentHasInk(indent: string, line: string)
    requires indent + "//" <= line && NoBreak(line)
    ensures !AllWhite(Unindent(indent, line)) && NoBreak(Unindent(indent, line))
  {
    assert line[|indent|] == (indent + "//")[|indent|] == '/';
    assert Unindent(indent, line)[0] == '/';
    EndHasNoBreak(line, |indent|);
  }

  /** Behind the stretch both files are on the same line again, or both behind text. */
  lemma LineBehind(text: string, cs: seq<Comment>, i: nat, out: string, at: nat, back: string)
    requires Placing(text, cs, i, out, at, back)
    ensures var j := StretchEnd(text, cs, i);
            cs[j - 1].end <= |text| && at + |Written(text, cs, i)| <= |out|
            && SameLine(text[..cs[j - 1].end], out[..at + |Written(text, cs, i)|])
  {
    hide StretchEdit, StretchEnd, CalmStretch, SameLine, Written, Ranges;
    var j := StretchEnd(text, cs, i);
    var written := Written(text, cs, i);
    PlacingScanned(text, cs, i, out, at, back);
    EndsBehind(text, cs, i, j);
    FrontOf(out, at, written, back);
    OutBehind(out, at, written);
    if StretchEdit(text, cs, i) == [] {
      KeptIs(text, cs, i);
      SameLineMore(text[..cs[i].pos], out[..at], written);
    } else {
      InkAtEnd(text, cs, j - 1);
      InkBehind(text, cs, i, out[..at]);
      BothBehindText(text[..cs[j - 1].end], out[..at] + written);
    }
  }

  lemma OutBehind(out: string, at: nat, written: string)
    requires at + |written| <= |out| && out[at..at + |written|] == written
    ensures out[..at + |written|] == out[..at] + written
  {
  }

  lemma KeptIs(text: string, cs: seq<Comment>, i: nat)
    requires Ranges(text, cs) && i < |cs| && StretchEdit(text, cs, i) == []
    ensures var j := StretchEnd(text, cs, i);
            cs[j - 1].end <= |text| && text[..cs[i].pos] + Written(text, cs, i) == text[..cs[j - 1].end]
  {
    hide StretchEdit, StretchEnd, Ranges;
    EndsBehind(text, cs, i, StretchEnd(text, cs, i));
  }

  lemma InkBehind(text: string, cs: seq<Comment>, i: nat, front: string)
    requires Scanned(text, cs) && i < |cs| && CalmStretch(text, cs, i) && StretchEdit(text, cs, i) != []
    ensures !AllWhite(Tail(front + Written(text, cs, i)))
  {
    hide StretchEdit, CalmStretch, Written, AllWhite, Tail;
    var first, last := WrittenEnds(text, cs, i);
    InkInFront(front + first, last);
    assert front + first + last == front + (first + last);
  }

  lemma BothBehindText(a: string, b: string)
    requires !AllWhite(Tail(a)) && !AllWhite(Tail(b))
    ensures SameLine(a, b)
  {
  }

  // the scan over both files

  /** Every reflowed stretch from `i` on may be reflowed again. */
  ghost predicate CalmFrom(text: string, cs: seq<Comment>, i: nat)
    requires Ranges(text, cs) && i <= |cs|
    decreases |cs| - i
  {
    i == |cs| || (CalmStretch(text, cs, i) && CalmFrom(text, cs, StretchEnd(text, cs, i)))
  }

  /** The comments of the output, from that of the `i`-th comment on, when what stood at `from` stands at `at`. */
  ghost function Found(text: string, cs: seq<Comment>, i: nat, from: nat, at: nat): seq<Comment>
    requires Ranges(text, cs) && i <= |cs| && (i < |cs| ==> from <= cs[i].pos)
    decreases |cs| - i
  {
    if i == |cs| then []
    else
      var j := StretchEnd(text, cs, i);
      var start := at + (cs[i].pos - from);
      EndsBehind(text, cs, i, j);
      Here(text, cs, i, start) + Found(text, cs, j, cs[j - 1].end, start + |Written(text, cs, i)|)
  }

  lemma MergeAhead(text: string, from: nat, mid: nat, edits: seq<Edit>)
    requires Disjoint(text, edits) && from <= mid <= |text| && (edits != [] ==> mid <= edits[0].pos)
    ensures Merge(text, from, edits) == text[from..mid] + Merge(text, mid, edits)
  {
    hide Disjoint;
    if edits == [] {
      assert text[from..] == text[from..mid] + text[mid..];
    } else {
      DisjointRest(text, edits);
      var behind := Merge(text, edits[0].end, edits[1..]);
      MergeFirst(text, from, edits);
      MergeFirst(text, mid, edits);
      SlicesJoin(text, from, mid, edits[0].pos, edits[0].replacement + behind);
    }
  }

  lemma MergeFirst(text: string, from: nat, edits: seq<Edit>)
    requires Disjoint(text, edits) && edits != [] && from <= edits[0].pos
    ensures edits[0].pos <= edits[0].end <= |text| && Disjoint(text, edits[1..])
    ensures edits[1..] != [] ==> edits[0].end <= edits[1..][0].pos
    ensures Merge(text, from, edits) == text[from..edits[0].pos] + (edits[0].replacement + Merge(text, edits[0].end, edits[1..]))
  {
    DisjointRest(text, edits);
    var a, b, c := text[from..edits[0].pos], edits[0].replacement, Merge(text, edits[0].end, edits[1..]);
    assert a + b + c == a + (b + c);
  }

  lemma DisjointRest(text: string, edits: seq<Edit>)
    requires Disjoint(text, edits) && edits != []
    ensures Disjoint(text, edits[1..]) && edits[0].pos <= edits[0].end <= |text|
    ensures edits[1..] != [] ==> edits[0].end <= edits[1..][0].pos
  {
  }

  lemma SlicesJoin(text: string, a: nat, b: nat, c: nat, rest: string)
    requires a <= b <= c <= |text|
    ensures text[a..c] + rest == text[a..b] + (text[b..c] + rest)
  {
  }

  lemma EditsAhead(text: string, cs: seq<Comment>, i: nat)
    requires Ranges(text, cs) && i <= |cs|
    ensures Disjoint(text, EditsFrom(text, cs, i))
    ensures EditsFrom(text, cs, i) != [] ==> i < |cs| && cs[i].pos <= EditsFrom(text, cs, i)[0].pos
    ensures i > 0 && EditsFrom(text, cs, i) != [] ==> cs[i - 1].end <= EditsFrom(text, cs, i)[0].pos
  {
    hide EditsFrom, Disjoint, Covers, Ranges;
    EditsAreDisjoint(text, cs, i);
    if EditsFrom(text, cs, i) != [] {
      CoversBehind(text, cs, i, EditsFrom(text, cs, i)[0]);
    }
  }

  lemma CoversBehind(text: string, cs: seq<Comment>, i: nat, e: Edit)
    requires Ranges(text, cs) && Covers(cs, i, e)
    ensures i < |cs| && cs[i].pos <= e.pos && (i > 0 ==> cs[i - 1].end <= e.pos)
  {
    var a, b :| i <= a <= b < |cs| && e.pos == cs[a].pos && e.end == cs[b].end;
    assert a > i ==> cs[i].end <= cs[a].pos;
  }

  /** What the first run makes of the input from `from` on. */
  ghost function After(text: string, cs: seq<Comment>, i: nat, from: nat): string
    requires Ranges(text, cs) && i <= |cs| && from <= |text| && (i < |cs| ==> from <= cs[i].pos)
  {
    EditsAhead(text, cs, i);
    Merge(text, from, EditsFrom(text, cs, i))
  }

  /** It writes a gap, the stretch, and the rest. */
  lemma AfterStretch(text: string, cs: seq<Comment>, i: nat, j: nat, from: nat)
    requires Ranges(text, cs) && i < |cs| && from <= cs[i].pos && j == StretchEnd(text, cs, i)
    requires cs[j - 1].end <= |text| && (j < |cs| ==> cs[j - 1].end <= cs[j].pos)
    ensures After(text, cs, i, from) == text[from..cs[i].pos] + Written(text, cs, i) + After(text, cs, j, cs[j - 1].end)
  {
    hide StretchEdit, StretchEnd, Disjoint, Ranges, Merge;
    var rest := EditsFrom(text, cs, j);
    EndsBehind(text, cs, i, j);
    EditsAhead(text, cs, i);
    EditsAhead(text, cs, j);
    StretchIsOne(text, cs, i);
    var head := StretchEdit(text, cs, i);
    assert EditsFrom(text, cs, i) == head + rest;
    var end := cs[j - 1].end;
    if head == [] {
      assert head + rest == rest;
      MergeAhead(text, from, cs[i].pos, rest);
      MergeAhead(text, cs[i].pos, end, rest);
      Regroup(text[from..cs[i].pos], text[cs[i].pos..end], Merge(text, end, rest));
    } else {
      assert (head + rest)[1..] == rest && (head + rest)[0] == head[0];
      MergeFirst(text, from, head + rest);
      Regroup(text[from..cs[i].pos], head[0].replacement, Merge(text, end, rest));
    }
  }

  lemma Regroup(a: string, b: string, c: string)
    ensures a + (b + c) == a + b + c
  {
  }

  /** Both files in front of the `i`-th comment: the output goes on with what the first run makes of the input. */
  ghost predicate Walk(text: string, cs: seq<Comment>, i: nat, from: nat, out: string, at: nat) {
    && Scanned(text, cs) && i <= |cs| && CalmFrom(text, cs, i)
    && from <= |text| && (i < |cs| ==> from <= cs[i].pos) && at <= |out|
    && out[at..] == After(text, cs, i, from)
    && SameLine(text[..from], out[..at])
  }

  /** The gap in front of the stretch, the stretch, and both files behind it. */
  ghost predicate Steps(text: string, cs: seq<Comment>, i: nat, from: nat, out: string, at: nat, back: string)
    requires Ranges(text, cs) && i < |cs| && from <= cs[i].pos
  {
    var j := StretchEnd(text, cs, i);
    var start := at + (cs[i].pos - from);
    && start <= |out| && out[at..start] == text[from..cs[i].pos]
    && Placing(text, cs, i, out, start, back)
    && Walk(text, cs, j, cs[j - 1].end, out, start + |Written(text, cs, i)|)
  }

  lemma WalkOn(text: string, cs: seq<Comment>, i: nat, from: nat, out: string, at: nat) returns (back: string)
    requires Walk(text, cs, i, from, out, at) && i < |cs|
    ensures Ranges(text, cs) && from <= cs[i].pos && Steps(text, cs, i, from, out, at, back)
  {
    hide StretchEdit, StretchEnd, SameLine, Written, CalmStretch, After;
    var j := StretchEnd(text, cs, i);
    var start := at + (cs[i].pos - from);
    EndsBehind(text, cs, i, j);
    AfterStretch(text, cs, i, j, from);
    back := After(text, cs, j, cs[j - 1].end);
    var gap := text[from..cs[i].pos];
    assert gap + Written(text, cs, i) + back == gap + (Written(text, cs, i) + back);
    FrontOf(out, at, gap, Written(text, cs, i) + back);
    FrontOf(out, start, Written(text, cs, i), back);
    assert text[..from] + gap == text[..cs[i].pos] && out[..at] + gap == out[..start];
    SameLineMore(text[..from], out[..at], gap);
    LineBehind(text, cs, i, out, start, back);
  }

  /** The comments found in the output are such as a scanner finds. */
  lemma {:induction false} FoundScanned(text: string, cs: seq<Comment>, i: nat, from: nat, out: string, at: nat)
    requires Walk(text, cs, i, from, out, at)
    ensures Scanned(out, Found(text, cs, i, from, at))
    ensures forall k :: 0 <= k < |Found(text, cs, i, from, at)| ==> at <= Found(text, cs, i, from, at)[k].pos
    decreases |cs| - i
  {
    hide Walk, StretchEnd, Written, Here, Sits, Placing, Ranges, Scanned;
    WalkScanned(text, cs, i, from, out, at);
    if i < |cs| {
      var j := StretchEnd(text, cs, i);
      var start := at + (cs[i].pos - from);
      var back := WalkOn(text, cs, i, from, out, at);
      var end := start + |Written(text, cs, i)|;
      HereSits(text, cs, i, out, start, back);
      FoundScanned(text, cs, j, cs[j - 1].end, out, end);
      var rest := Found(text, cs, j, cs[j - 1].end, end);
      SitsThen(text, cs, i, out, start, Here(text, cs, i, start), rest);
    } else {
      NoneScanned(out);
    }
  }

  lemma NoneScanned(out: string)
    ensures Scanned(out, [])
  {
  }

  lemma WalkScanned(text: string, cs: seq<Comment>, i: nat, from: nat, out: string, at: nat)
    requires Walk(text, cs, i, from, out, at)
    ensures Scanned(text, cs) && Ranges(text, cs) && i <= |cs| && (i < |cs| ==> from <= cs[i].pos)
  {
  }

  lemma SitsThen(text: string, cs: seq<Comment>, i: nat, out: string, at: nat, here: seq<Comment>, rest: seq<Comment>)
    requires Ranges(text, cs) && i < |cs| && Sits(text, cs, i, out, at, here) && Scanned(out, rest)
    requires forall k :: 0 <= k < |rest| ==> at + |Written(text, cs, i)| <= rest[k].pos
    ensures Scanned(out, here + rest)
    ensures forall k :: 0 <= k < |here + rest| ==> at <= (here + rest)[k].pos
  {
    hide Written, Standalone, IndentOf, NoBreak, White;
    forall k | 0 <= k < |here| ensures at <= here[k].pos && here[k].end <= here[|here| - 1].end { Between(out, here, k); }
  }

  /** A group does not go on in the output where it ended in the input. */
  lemma NextDoesNotJoin(text: string, cs: seq<Comment>, i: nat, out: string, at: nat, next: nat, all: seq<Comment>, k: nat, n: nat, m: nat)
    requires Ranges(text, cs) && i < |cs| && StretchEnd(text, cs, i) < |cs| && Standalone(text, cs[i])
    requires Ranges(out, all) && 0 < n && 0 < m && k + n + m <= |all|
    requires Sits(text, cs, i, out, at, all[k..k + n]) && Sits(text, cs, StretchEnd(text, cs, i), out, next, all[k + n..k + n + m])
    requires var j := StretchEnd(text, cs, i);
             && at + |Written(text, cs, i)| <= next <= |out| && cs[j - 1].end <= cs[j].pos
             && out[at + |Written(text, cs, i)|..next] == text[cs[j - 1].end..cs[j].pos]
    ensures !Joins(out, all, k, k + n)
  {
    hide Standalone, IndentOf, Written, GroupEnd, OneBreak, Ranges;
    var j := StretchEnd(text, cs, i);
    GroupEndIs(text, cs, i, i + 1, j);
    assert all[k..k + n][0] == all[k] && all[k..k + n][n - 1] == all[k + n - 1] && all[k + n..k + n + m][0] == all[k + n];
    assert !Joins(text, cs, i, j);
  }

  /** So the second run leaves every stretch alone. */
  lemma {:induction false} RestsFrom(text: string, cs: seq<Comment>, i: nat, from: nat, out: string, at: nat, all: seq<Comment>, k: nat)
    requires Walk(text, cs, i, from, out, at) && Ranges(out, all) && k <= |all|
    requires Ranges(text, cs) && i <= |cs| && (i < |cs| ==> from <= cs[i].pos)
    requires all[k..] == Found(text, cs, i, from, at)
    ensures EditsFrom(out, all, k) == []
    decreases |cs| - i
  {
    hide Walk, StretchEnd, StretchEdit, Written, Here, Sits, Placing, Ranges, Joins, Standalone;
    if i < |cs| {
      var j := StretchEnd(text, cs, i);
      var start := at + (cs[i].pos - from);
      var back := WalkOn(text, cs, i, from, out, at);
      var end := start + |Written(text, cs, i)|;
      var here := Here(text, cs, i, start);
      var n := |here|;
      HereSits(text, cs, i, out, start, back);
      SitsSomething(text, cs, i, out, start, here);
      WalkScanned(text, cs, j, cs[j - 1].end, out, end);
      SplitsAt(all, k, here, Found(text, cs, j, cs[j - 1].end, end));
      if Standalone(text, cs[i]) && k + n < |all| {
        BoundaryHolds(text, cs, i, out, start, back, all, k);
      }
      HereRests(text, cs, i, out, start, back, all, k);
      RestsFrom(text, cs, j, cs[j - 1].end, out, end, all, k + n);
      RestsStep(out, all, k, n);
    } else {
      assert k == |all|;
    }
  }

  lemma SitsSomething(text: string, cs: seq<Comment>, i: nat, out: string, at: nat, here: seq<Comment>)
    requires Ranges(text, cs) && i < |cs| && Sits(text, cs, i, out, at, here)
    ensures here != []
  {
  }

  lemma SplitsAt(all: seq<Comment>, k: nat, here: seq<Comment>, rest: seq<Comment>)
    requires k <= |all| && all[k..] == here + rest
    ensures k + |here| <= |all| && all[k..k + |here|] == here && all[k + |here|..] == rest
  {
    assert all[k..][..|here|] == here && all[k..][|here|..] == rest;
  }

  lemma RestsStep(out: string, all: seq<Comment>, k: nat, n: nat)
    requires Rests(out, all, k, n) && 0 < n && k + n <= |all| && EditsFrom(out, all, k + n) == []
    ensures EditsFrom(out, all, k) == []
  {
    hide StretchEnd, StretchEdit, Ranges;
  }

  lemma BoundaryHolds(text: string, cs: seq<Comment>, i: nat, out: string, at: nat, back: string, all: seq<Comment>, k: nat)
    requires Placing(text, cs, i, out, at, back) && Standalone(text, cs[i]) && Ranges(out, all)
    requires var j := StretchEnd(text, cs, i);
             var here := Here(text, cs, i, at);
             var end := at + |Written(text, cs, i)|;
             && Walk(text, cs, j, cs[j - 1].end, out, end) && here != [] && k + |here| < |all|
             && (j < |cs| ==> cs[j - 1].end <= cs[j].pos)
             && all[k..k + |here|] == here && all[k + |here|..] == Found(text, cs, j, cs[j - 1].end, end)
    ensures !Joins(out, all, k, k + |Here(text, cs, i, at)|)
  {
    hide Walk, StretchEnd, StretchEdit, Written, Here, Sits, Placing, Ranges, Joins, Standalone;
    PlacingScanned(text, cs, i, out, at, back);
    var j := StretchEnd(text, cs, i);
    var here := Here(text, cs, i, at);
    var end := at + |Written(text, cs, i)|;
    HereSits(text, cs, i, out, at, back);
    if j < |cs| {
      EndsBehind(text, cs, j, StretchEnd(text, cs, j));
      var more := WalkOn(text, cs, j, cs[j - 1].end, out, end);
      var next := end + (cs[j].pos - cs[j - 1].end);
      var there := Here(text, cs, j, next);
      HereSits(text, cs, j, out, next, more);
      SitsSomething(text, cs, j, out, next, there);
      PlacingScanned(text, cs, j, out, next, more);
      SplitsAt(all, k + |here|, there, Found(text, cs, StretchEnd(text, cs, j), cs[StretchEnd(text, cs, j) - 1].end, next + |Written(text, cs, j)|));
      NextDoesNotJoin(text, cs, i, out, at, next, all, k, |here|, |there|);
    }
  }

  /**
   Reflowing a file twice. If every line group and block comment that the first run reflows is calm, the
   second run, which finds the written comments where the first has put them, makes no edit: the program's
   output is a fixed point. Calm means, of each paragraph: no word holds an unclosed code span or tag, and
   none that starts a further line would break the paragraph there; in line comments also: no word starts a
   directive, and the indent is of spaces and tabs.
   */
  lemma SecondRunChangesNothing(text: string, cs: seq<Comment>)
    requires Scanned(text, cs) && CalmFrom(text, cs, 0)
    ensures Disjoint(text, EditsFrom(text, cs, 0))
    ensures var out := Merge(text, 0, EditsFrom(text, cs, 0));
            var found := Found(text, cs, 0, 0, 0);
            Scanned(out, found) && EditsFrom(out, found, 0) == [] && Disjoint(out, []) && Merge(out, 0, []) == out
  {
    hide CalmFrom, EditsFrom, Disjoint, Found;
    EditsAhead(text, cs, 0);
    var out := Merge(text, 0, EditsFrom(text, cs, 0));
    StartsWalk(text, cs, out);
    FoundScanned(text, cs, 0, 0, out, 0);
    var found := Found(text, cs, 0, 0, 0);
    assert found[0..] == found;
    RestsFrom(text, cs, 0, 0, out, 0, found, 0);
    NothingToMerge(out);
  }

  lemma StartsWalk(text: string, cs: seq<Comment>, out: string)
    requires Scanned(text, cs) && CalmFrom(text, cs, 0) && out == After(text, cs, 0, 0)
    ensures Walk(text, cs, 0, 0, out, 0)
  {
    hide CalmFrom, After;
    assert text[..0] == out[..0] == [] && out[0..] == out;
  }

  lemma NothingToMerge(out: string)
    ensures Disjoint(out, []) && Merge(out, 0, []) == out
  {
  }
}

/** What the next run finds where a group was reflowed: the same group again, unless a line reads as a directive. */
module CommentRescan {
  import opened CommentEdits
  import opened CommentGroups
  import opened CommentText
  import opened Outcomes

  // ---------------------------------------------------------------- lines of a group in a file

  /** Only spaces and tabs may stand between the lines of a group. */
  predicate BlankIndent(indent: string) {
    forall k :: 0 <= k < |indent| ==> indent[k] == ' ' || indent[k] == '\t'
  }

  /** What the test for directives looks at. */
  function Body(comment: string): string
    requires |comment| >= 2
  {
    var body := comment[2..];
    if body != [] && White(body[0]) then body[1..] else body
  }

  /** Each line is the indent and a line comment that may be reflowed. */
  ghost predicate Ordinary(indent: string, lines: seq<string>) {
    forall k :: 0 <= k < |lines| ==>
      && indent + "//" <= lines[k] && '\n' !in lines[k]
      && |Unindent(indent, lines[k])| >= 2 && !Directive(Body(Unindent(indent, lines[k])))
  }

  /** The line stands in the file as this comment, behind the indent. */
  ghost predicate StandsAt(text: string, c: Comment, indent: string, line: string) {
    c.pos + 2 <= c.end <= |text| && c.line && Text(text, c) == Unindent(indent, line) && Before(text, c) == indent
  }

  /** One line break and the indent lie between two comments. */
  ghost predicate OneApart(text: string, a: Comment, b: Comment, indent: string) {
    a.end <= b.pos <= |text| && text[a.end..b.pos] == "\n" + indent
  }

  /** The lines stand in the file as these comments, one line break apart. */
  ghost predicate Stand(text: string, part: seq<Comment>, indent: string, lines: seq<string>) {
    && |part| == |lines|
    && (forall k :: 0 <= k < |part| ==> StandsAt(text, part[k], indent, lines[k]))
    && (forall k :: 0 < k < |part| ==> OneApart(text, part[k - 1], part[k], indent))
  }

  lemma StandsAlone(text: string, c: Comment, indent: string, line: string)
    requires StandsAt(text, c, indent, line) && BlankIndent(indent)
    requires |Unindent(indent, line)| >= 2 && !Directive(Body(Unindent(indent, line)))
    ensures Standalone(text, c) && IndentOf(text, c) == indent
  {
    hide Directive, LineStart, Trim, Unindent, BlankIndent;
    BlankIsWhite(indent);
    assert text[c.pos + 2..c.end] == Text(text, c)[2..];
  }

  lemma BlankIsWhite(indent: string)
    requires BlankIndent(indent)
    ensures Trim(indent) == "" && indent[..Lead(indent)] == indent
  {
    TrimStartDrops(indent, "");
    assert indent + "" == indent;
  }

  lemma BreakJoins(text: string, a: Comment, b: Comment, indent: string)
    requires OneApart(text, a, b, indent) && BlankIndent(indent)
    ensures Contiguous(text, a, b)
  {
    var gap := text[a.end..b.pos];
    assert gap[0] == '\n' && gap[1..] == indent;
  }

  /** Each line joins the group of the first. */
  lemma LineJoins(text: string, cs: seq<Comment>, i: nat, j: nat, indent: string, first: string, line: string)
    requires Ranges(text, cs) && i < j < |cs| && BlankIndent(indent)
    requires StandsAt(text, cs[i], indent, first) && StandsAt(text, cs[j], indent, line) && OneApart(text, cs[j - 1], cs[j], indent)
    requires |Unindent(indent, first)| >= 2 && !Directive(Body(Unindent(indent, first)))
    requires |Unindent(indent, line)| >= 2 && !Directive(Body(Unindent(indent, line)))
    ensures Joins(text, cs, i, j)
  {
    hide Standalone, Contiguous, IndentOf, StandsAt, OneApart, Directive, Body, Unindent, BlankIndent;
    StandsAlone(text, cs[i], indent, first);
    StandsAlone(text, cs[j], indent, line);
    BreakJoins(text, cs[j - 1], cs[j], indent);
  }

  lemma {:induction false} GroupIsWhole(text: string, cs: seq<Comment>, i: nat, n: nat, k: nat, indent: string, lines: seq<string>)
    requires Ranges(text, cs) && 0 < k <= n && i + n <= |cs| && BlankIndent(indent) && Ordinary(indent, lines)
    requires Stand(text, cs[i..i + n], indent, lines)
    ensures GroupEnd(text, cs, i, i + k) == GroupEnd(text, cs, i, i + n)
    decreases n - k
  {
    hide Joins, BlankIndent, StandsAt, OneApart, Directive, Body, Unindent, Ranges;
    if k < n {
      var part := cs[i..i + n];
      assert part[0] == cs[i] && part[k] == cs[i + k] && part[k - 1] == cs[i + k - 1];
      LineJoins(text, cs, i, i + k, indent, lines[0], lines[k]);
      hide Stand, Ordinary;
      GroupIsWhole(text, cs, i, n, k + 1, indent, lines);
    }
  }

  lemma StandingTexts(text: string, part: seq<Comment>, indent: string, lines: seq<string>)
    requires Ranges(text, part) && Stand(text, part, indent, lines)
    ensures Texts(text, part) == Rescanned(indent, lines)
  {
    hide OneApart, Unindent;
    assert forall k :: 0 <= k < |part| ==> StandsAt(text, part[k], indent, lines[k]);
  }

  /** The text of a group: its first line without the indent, which precedes it in the file. */
  function GroupBody(indent: string, lines: seq<string>): string
    requires lines != []
  {
    JoinLines([Unindent(indent, lines[0])] + lines[1..])
  }

  lemma OneLineBody(indent: string, line: string)
    ensures GroupBody(indent, [line]) == Unindent(indent, line)
  {
    assert [Unindent(indent, line)] + [line][1..] == [Unindent(indent, line)];
  }

  lemma BodyOfRest(indent: string, rest: seq<string>)
    requires rest != [] && indent <= rest[0]
    ensures JoinLines(rest) == indent + GroupBody(indent, rest)
  {
    assert rest[0] == indent + Unindent(indent, rest[0]);
    if |rest| > 1 {
      assert ([Unindent(indent, rest[0])] + rest[1..])[1..] == rest[1..];
    } else {
      assert [Unindent(indent, rest[0])] + rest[1..] == [Unindent(indent, rest[0])];
    }
  }

  /** A group is its first line, a line break and the indent, and the group of the other lines. */
  lemma BodySplits(indent: string, lines: seq<string>)
    requires |lines| > 1 && indent <= lines[1]
    ensures GroupBody(indent, lines) == Unindent(indent, lines[0]) + "\n" + indent + GroupBody(indent, lines[1..])
  {
    BodyOfRest(indent, lines[1..]);
    assert ([Unindent(indent, lines[0])] + lines[1..])[1..] == lines[1..];
    hide Unindent;
  }

  /** What the file holds from the first comment of the group to its last is the group's text. */
  lemma {:induction false} StandingText(text: string, part: seq<Comment>, indent: string, lines: seq<string>)
    requires Stand(text, part, indent, lines) && lines != [] && forall k :: 0 <= k < |lines| ==> indent <= lines[k]
    ensures part[0].pos <= part[|part| - 1].end <= |text|
    ensures text[part[0].pos..part[|part| - 1].end] == GroupBody(indent, lines)
    decreases |lines|
  {
    hide Unindent, GroupBody, Before;
    var n := |lines|;
    assert StandsAt(text, part[0], indent, lines[0]);
    if n == 1 {
      assert lines == [lines[0]];
      OneLineBody(indent, lines[0]);
    } else {
      assert OneApart(text, part[1 - 1], part[1], indent);
      StandMore(text, part, indent, lines);
      StandingText(text, part[1..], indent, lines[1..]);
      BodySplits(indent, lines);
      hide Stand, StandsAt;
      Spans(text, part[0].pos, part[0].end, part[1].pos, part[n - 1].end);
    }
  }

  lemma Spans(text: string, a: nat, b: nat, c: nat, d: nat)
    requires a <= b <= c <= d <= |text|
    ensures text[a..d] == text[a..b] + text[b..c] + text[c..d]
  {
  }

  lemma StandMore(text: string, part: seq<Comment>, indent: string, lines: seq<string>)
    requires Stand(text, part, indent, lines) && lines != []
    ensures Stand(text, part[1..], indent, lines[1..])
  {
    hide StandsAt, OneApart;
    var more := part[1..];
    forall k | 0 < k < |more| ensures OneApart(text, more[k - 1], more[k], indent) {
      assert more[k] == part[k + 1] && more[k - 1] == part[k + 1 - 1];
    }
  }

  // ---------------------------------------------------------------- the next run

  /** What a second reflow of the group would write is what is there, if it writes anything. */
  ghost predicate Settled(indent: string, lines: seq<string>) {
    var again := ReflowLineGroup(indent, Rescanned(indent, lines));
    again.None? || again == Some(lines)
  }

  /**
   Wherever the lines of a settled group stand, the next run takes them for one group and leaves it alone:
   provided none reads as a directive, the indent is of spaces and tabs, and no further comment joins.
   */
  lemma StandingGroupIsLeftAlone(text: string, cs: seq<Comment>, i: nat, indent: string, lines: seq<string>)
    requires Ranges(text, cs) && lines != [] && i + |lines| <= |cs| && Stand(text, cs[i..i + |lines|], indent, lines)
    requires BlankIndent(indent) && Ordinary(indent, lines) && Settled(indent, lines)
    requires i + |lines| == |cs| || !Joins(text, cs, i, i + |lines|)
    ensures StretchEnd(text, cs, i) == i + |lines| && StretchEdit(text, cs, i) == []
  {
    hide Ordinary, Stand, Standalone, Joins, BlankIndent, Settled, GroupBody, GroupEdit, IndentOf, Ranges, BlockEdit;
    var n := |lines|;
    var part := cs[i..i + n];
    assert part[0] == cs[i] && part[n - 1] == cs[i + n - 1];
    FirstStandsAlone(text, part, indent, lines);
    GroupIsWhole(text, cs, i, n, 1, indent, lines);
    assert GroupEnd(text, cs, i, i + n) == i + n;
    StartsWithIndent(indent, lines);
    StandingText(text, part, indent, lines);
    LeavesGroupAlone(text, cs, i, n, indent, lines);
  }

  lemma FirstStandsAlone(text: string, part: seq<Comment>, indent: string, lines: seq<string>)
    requires Stand(text, part, indent, lines) && lines != [] && BlankIndent(indent) && Ordinary(indent, lines)
    ensures |part| == |lines| && part[0].pos + 2 <= part[0].end <= |text|
    ensures Standalone(text, part[0]) && IndentOf(text, part[0]) == indent
  {
    hide Standalone, IndentOf, BlankIndent, Directive, Body, Unindent, Text, Before;
    StandsAlone(text, part[0], indent, lines[0]);
  }

  lemma StartsWithIndent(indent: string, lines: seq<string>)
    requires Ordinary(indent, lines)
    ensures forall k :: 0 <= k < |lines| ==> indent <= lines[k]
  {
    forall k | 0 <= k < |lines| ensures indent <= lines[k] {
      assert indent <= indent + "//" <= lines[k];
    }
  }

  lemma LeavesGroupAlone(text: string, cs: seq<Comment>, i: nat, n: nat, indent: string, lines: seq<string>)
    requires Ranges(text, cs) && n > 0 && i + n <= |cs| && Stand(text, cs[i..i + n], indent, lines) && Settled(indent, lines)
    requires IndentOf(text, cs[i]) == indent && text[cs[i].pos..cs[i + n - 1].end] == GroupBody(indent, lines)
    ensures GroupEdit(text, cs, i, i + n) == []
  {
    var part := cs[i..i + n];
    assert forall k :: 0 <= k < n ==> part[k] == cs[i + k];
    assert Ranges(text, part);
    StandingTexts(text, part, indent, lines);
    hide Stand, ReflowLineGroup, Texts, Rescanned, JoinLines, IndentOf, Ranges;
  }

  /** Where the comments of the lines are, the first of them at `at`. */
  function Placed(at: nat, indent: string, lines: seq<string>): (cs: seq<Comment>)
    ensures |cs| == |lines|
    decreases |lines|
  {
    if lines == [] then []
    else
      var end := at + |Unindent(indent, lines[0])|;
      [Comment(at, end, true)] + Placed(end + 1 + |indent|, indent, lines[1..])
  }

  lemma {:induction false} StartsAfter(text: string, pos: nat, indent: string)
    requires pos + |indent| <= |text| && text[pos..pos + |indent|] == indent && BlankIndent(indent)
    requires pos > 0 ==> text[pos - 1] == '\n'
    ensures LineStart(text, pos + |indent|) == pos
    decreases |indent|
  {
    if indent != [] {
      var shorter := indent[..|indent| - 1];
      assert text[pos..pos + |shorter|] == shorter;
      assert text[pos + |indent| - 1] == text[pos..pos + |indent|][|indent| - 1];
      StartsAfter(text, pos, shorter);
    }
  }

  /** Spliced in behind the indent, the lines stand where they were placed. */
  lemma {:induction false} PlacedStand(text: string, at: nat, indent: string, lines: seq<string>, back: string)
    requires BlankIndent(indent) && Ordinary(indent, lines) && lines != []
    requires |indent| <= at <= |text| && text[at - |indent|..at] == indent
    requires at > |indent| ==> text[at - |indent| - 1] == '\n'
    requires text[at..] == GroupBody(indent, lines) + back
    ensures var cs := Placed(at, indent, lines);
            Ranges(text, cs) && cs[0].pos == at && Stand(text, cs, indent, lines)
    decreases |lines|
  {
    hide Unindent, LineStart, BlankIndent, GroupBody, Ordinary, Placed, Stand, Ranges, StandsAt, OneApart;
    var first := Unindent(indent, lines[0]);
    var end := at + |first|;
    StartsWithIndent(indent, lines);
    OrdinaryRest(indent, lines);
    StartsAfter(text, at - |indent|, indent);
    PlacedIs(at, indent, lines);
    var c := Comment(at, end, true);
    if |lines| == 1 {
      assert lines == [lines[0]];
      OneLineBody(indent, lines[0]);
      FrontOf(text, at, first, back);
      PlacedFirst(text, c, indent, lines[0]);
      PlacedOne(text, c, indent, lines[0]);
      NothingPlaced(end + 1 + |indent|, indent);
      assert lines[1..] == [] && [c] + [] == [c];
    } else {
      var rest := lines[1..];
      BodySplits(indent, lines);
      NextPlace(text, at, indent, first, GroupBody(indent, rest), back);
      PlacedFirst(text, c, indent, lines[0]);
      PlacedStand(text, end + 1 + |indent|, indent, rest, back);
      ApartBy(text, c, Placed(end + 1 + |indent|, indent, rest)[0], indent);
      PlacedMore(text, c, Placed(end + 1 + |indent|, indent, rest), indent, lines);
    }
  }

  /** Where the next line of a group starts. */
  lemma NextPlace(text: string, at: nat, indent: string, first: string, rest: string, back: string)
    requires at <= |text| && text[at..] == first + "\n" + indent + rest + back
    ensures var end := at + |first|; var next := end + 1 + |indent|;
            && next <= |text| && text[at..end] == first && text[end..next] == "\n" + indent
            && text[next..] == rest + back && text[next - |indent|..next] == indent && text[next - |indent| - 1] == '\n'
  {
    var end := at + |first|;
    var tail := rest + back;
    assert first + "\n" + indent + rest + back == first + ("\n" + indent + tail);
    FrontOf(text, at, first, "\n" + indent + tail);
    FrontOf(text, end, "\n" + indent, tail);
    BreakEnds(text, end, indent);
  }

  lemma ApartBy(text: string, a: Comment, b: Comment, indent: string)
    requires a.end <= b.pos <= |text| && text[a.end..b.pos] == "\n" + indent
    ensures OneApart(text, a, b, indent)
  {
  }

  lemma BreakEnds(text: string, end: nat, indent: string)
    requires end + 1 + |indent| <= |text| && text[end..end + 1 + |indent|] == "\n" + indent
    ensures var next := end + 1 + |indent|; text[next - |indent|..next] == indent && text[next - |indent| - 1] == '\n'
  {
    var next := end + 1 + |indent|;
    assert text[end..next][1..] == indent && text[next - |indent|..next] == text[end..next][1..] && text[end] == text[end..next][0];
  }

  lemma PlacedFirst(text: string, c: Comment, indent: string, line: string)
    requires |indent| <= c.pos && c.pos + 2 <= c.end <= |text| && c.line
    requires LineStart(text, c.pos) == c.pos - |indent| && text[c.pos - |indent|..c.pos] == indent
    requires text[c.pos..c.end] == Unindent(indent, line)
    ensures StandsAt(text, c, indent, line)
  {
    hide Unindent, LineStart;
  }

  lemma PlacedOne(text: string, c: Comment, indent: string, line: string)
    requires StandsAt(text, c, indent, line)
    ensures Ranges(text, [c]) && Stand(text, [c], indent, [line])
  {
    assert StandsAt(text, [c][0], indent, [line][0]);
    hide StandsAt;
    assert c.pos + 2 <= c.end <= |text| by { RangeOf(text, c, indent, line); }
  }

  lemma RangeOf(text: string, c: Comment, indent: string, line: string)
    requires StandsAt(text, c, indent, line)
    ensures c.pos + 2 <= c.end <= |text|
  {
  }

  lemma NothingPlaced(at: nat, indent: string)
    ensures Placed(at, indent, []) == []
  {
  }

  lemma OrdinaryRest(indent: string, lines: seq<string>)
    requires Ordinary(indent, lines) && lines != []
    ensures Ordinary(indent, lines[1..]) && |Unindent(indent, lines[0])| >= 2
  {
    hide Directive, Body, Unindent;
  }

  lemma FrontOf(text: string, at: nat, front: string, back: string)
    requires at <= |text| && text[at..] == front + back
    ensures at + |front| <= |text| && text[at..at + |front|] == front && text[at + |front|..] == back
  {
    assert text[at..][..|front|] == front && text[at..][|front|..] == back;
  }

  lemma PlacedMore(text: string, c: Comment, more: seq<Comment>, indent: string, lines: seq<string>)
    requires |lines| > 1 && StandsAt(text, c, indent, lines[0])
    requires Ranges(text, more) && Stand(text, more, indent, lines[1..]) && OneApart(text, c, more[0], indent)
    ensures Ranges(text, [c] + more) && Stand(text, [c] + more, indent, lines)
  {
    hide StandsAt;
    RangeOf(text, c, indent, lines[0]);
    MoreRanges(text, c, more, indent);
    hide OneApart, Ranges;
    var cs := [c] + more;
    forall k | 0 <= k < |cs| ensures StandsAt(text, cs[k], indent, lines[k]) {
      if k > 0 { assert cs[k] == more[k - 1] && lines[k] == lines[1..][k - 1]; }
    }
    forall k | 0 < k < |cs| ensures OneApart(text, cs[k - 1], cs[k], indent) {
      if k > 1 { assert more[k - 1] == cs[k] && more[k - 1 - 1] == cs[k - 1]; }
    }
  }

  lemma MoreRanges(text: string, c: Comment, more: seq<Comment>, indent: string)
    requires c.pos + 2 <= c.end <= |text| && Ranges(text, more) && more != [] && OneApart(text, c, more[0], indent)
    ensures Ranges(text, [c] + more)
  {
    var cs := [c] + more;
    forall i, j | 0 <= i < j < |cs| ensures cs[i].end <= cs[j].pos {
      if i == 0 && j > 1 { assert more[0].end <= more[j - 1].pos; }
    }
  }

  lemma PlacedIs(at: nat, indent: string, lines: seq<string>)
    requires lines != []
    ensures var end := at + |Unindent(indent, lines[0])|;
            Placed(at, indent, lines) == [Comment(at, end, true)] + Placed(end + 1 + |indent|, indent, lines[1..])
  {
  }
}

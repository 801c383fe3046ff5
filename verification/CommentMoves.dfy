/** Comments that a run leaves as they are, found by the next run where they have moved to. */
module CommentMoves {
  import opened CommentEdits
  import opened CommentFill
  import opened CommentGroups
  import opened CommentLines
  import opened CommentText

  // ---------------------------------------------------------------- the line up to a position

  /** What stands behind the last line break. */
  function Tail(s: string): string {
    if s == [] || s[|s| - 1] == '\n' then [] else Tail(s[..|s| - 1]) + [s[|s| - 1]]
  }

  lemma {:induction false} BeforeIsTail(text: string, pos: nat)
    requires pos <= |text|
    ensures text[LineStart(text, pos)..pos] == Tail(text[..pos])
  {
    if pos > 0 && text[pos - 1] != '\n' {
      BeforeIsTail(text, pos - 1);
      assert text[..pos][..pos - 1] == text[..pos - 1];
      assert text[LineStart(text, pos)..pos] == text[LineStart(text, pos)..pos - 1] + [text[pos - 1]];
    }
  }

  lemma {:induction false} TailOfMore(a: string, s: string)
    ensures Tail(a + s) == if NoBreak(s) then Tail(a) + s else Tail(s)
  {
    if s == [] {
      assert a + s == a;
    } else {
      var front, last := s[..|s| - 1], s[|s| - 1];
      assert (a + s)[..|a + s| - 1] == a + front;
      assert s == front + [last];
      if last == '\n' {
        assert last in s;
      } else {
        TailOfMore(a, front);
        assert NoBreak(s) <==> NoBreak(front);
      }
    }
  }

  /** In front of the tail there is nothing or a line break. */
  lemma {:induction false} TailStands(s: string) returns (front: string)
    ensures s == front + Tail(s) && (front != [] ==> front[|front| - 1] == '\n')
    decreases |s|
  {
    front := s;
    if s != [] && s[|s| - 1] != '\n' {
      front := TailStands(s[..|s| - 1]);
      assert front + (Tail(s[..|s| - 1]) + [s[|s| - 1]]) == s;
    } else {
      assert Tail(s) == [];
    }
  }

  /** Two positions see the same line in front of them, or both see text in front of them on their line. */
  ghost predicate SameLine(a: string, b: string) {
    Tail(a) == Tail(b) || (!AllWhite(Tail(a)) && !AllWhite(Tail(b)))
  }

  lemma WhitePrefix(a: string, s: string)
    requires AllWhite(a + s)
    ensures AllWhite(a)
  {
    assert forall i :: 0 <= i < |a| ==> (a + s)[i] == a[i];
  }

  lemma SameLineMore(a: string, b: string, s: string)
    requires SameLine(a, b)
    ensures SameLine(a + s, b + s)
  {
    hide Tail, White;
    TailOfMore(a, s);
    TailOfMore(b, s);
    if NoBreak(s) && Tail(a) != Tail(b) {
      if AllWhite(Tail(a) + s) { WhitePrefix(Tail(a), s); }
      if AllWhite(Tail(b) + s) { WhitePrefix(Tail(b), s); }
    }
  }

  /** Something that is not white stands in front on the line. */
  lemma InkInFront(a: string, s: string)
    requires NoBreak(s) && !AllWhite(s)
    ensures !AllWhite(Tail(a + s))
  {
    hide Tail, White;
    TailOfMore(a, s);
    var i :| 0 <= i < |s| && !White(s[i]);
    assert (Tail(a) + s)[|Tail(a)| + i] == s[i];
  }

  lemma {:induction false} TrimNothing(s: string)
    ensures Trim(s) == "" <==> AllWhite(s)
    ensures AllWhite(s) ==> s[..Lead(s)] == s
  {
    TrimEndIs(TrimStart(s));
    if Trim(s) == "" {
      assert Lead(s) == |s|;
    }
    if AllWhite(s) {
      assert Lead(s) == |s|;
    }
  }

  // ---------------------------------------------------------------- comments as a scanner finds them

  /** A line comment starts with its slashes and ends before the line does; a block ends in something visible. */
  ghost predicate Scanned(text: string, cs: seq<Comment>) {
    && Ranges(text, cs)
    && forall k :: 0 <= k < |cs| ==>
         if cs[k].line then "//" <= Text(text, cs[k]) && NoBreak(Text(text, cs[k])) else !White(text[cs[k].end - 1])
  }

  /** Two comments that read the same where they stand. */
  ghost predicate Alike(text: string, c: Comment, out: string, d: Comment) {
    && c.pos + 2 <= c.end <= |text| && d.pos + 2 <= d.end <= |out|
    && c.line == d.line && Text(text, c) == Text(out, d)
    && SameLine(text[..c.pos], out[..d.pos])
  }

  lemma AlikeStandalone(text: string, c: Comment, out: string, d: Comment)
    requires Alike(text, c, out, d)
    ensures Standalone(text, c) <==> Standalone(out, d)
    ensures Trim(Before(text, c)) == "" <==> Trim(Before(out, d)) == ""
    ensures Trim(Before(text, c)) == "" ==> Before(text, c) == Before(out, d) && IndentOf(text, c) == IndentOf(out, d)
    ensures Before(text, c) == Before(out, d) || (Trim(Before(text, c)) != "" && Trim(Before(out, d)) != "")
  {
    hide Tail, Trim, Directive, White, LineStart, Lead;
    BeforeIsTail(text, c.pos);
    BeforeIsTail(out, d.pos);
    TrimNothing(Before(text, c));
    TrimNothing(Before(out, d));
    assert text[c.pos + 2..c.end] == Text(text, c)[2..];
    assert out[d.pos + 2..d.end] == Text(out, d)[2..];
  }

  /** A single comment that is not the start of a group, and is left as it is, is left again. */
  lemma AlikeLeftAlone(text: string, c: Comment, out: string, d: Comment)
    requires Alike(text, c, out, d) && !Standalone(text, c) && BlockEdit(text, c) == []
    ensures BlockEdit(out, d) == []
  {
    AlikeStandalone(text, c, out, d);
    hide Standalone, Trim, SplitLines, StarAligned, Wide, FillLines, JoinLines, LineStart, Lead;
    if !c.line && Before(text, c) == Before(out, d) {
      assert IndentOf(text, c) == IndentOf(out, d);
    }
  }

  // ---------------------------------------------------------------- comments that are left where they are

  ghost predicate SameGap(text: string, a: Comment, b: Comment, out: string, c: Comment, d: Comment) {
    a.end <= b.pos <= |text| && c.end <= d.pos <= |out| && text[a.end..b.pos] == out[c.end..d.pos]
  }

  /** The comments, with what lies between them, read the same in both places. */
  ghost predicate AllAlike(text: string, cs: seq<Comment>, out: string, ds: seq<Comment>) {
    && Ranges(text, cs) && Ranges(out, ds) && |cs| == |ds|
    && (forall k :: 0 <= k < |cs| ==> Alike(text, cs[k], out, ds[k]))
    && (forall k :: 0 < k < |cs| ==> SameGap(text, cs[k - 1], cs[k], out, ds[k - 1], ds[k]))
  }

  function Shifted(pos: nat, from: nat, at: nat): nat {
    if pos >= from then at + (pos - from) else at
  }

  /** The comments, when what stood at `from` stands at `at`. */
  function Moved(cs: seq<Comment>, from: nat, at: nat): seq<Comment> {
    seq(|cs|, k requires 0 <= k < |cs| => Comment(Shifted(cs[k].pos, from, at), Shifted(cs[k].end, from, at), cs[k].line))
  }

  /** The text between two positions is moved along. */
  lemma SliceMoves(text: string, from: nat, end: nat, out: string, at: nat, a: nat, b: nat)
    requires from <= a <= b <= end <= |text| && at + (end - from) <= |out|
    requires out[at..at + (end - from)] == text[from..end]
    ensures Shifted(a, from, at) <= Shifted(b, from, at) <= at + (end - from)
    ensures out[Shifted(a, from, at)..Shifted(b, from, at)] == text[a..b]
  {
    var moved := out[at..at + (end - from)];
    forall k | a <= k < b ensures out[Shifted(a, from, at) + (k - a)] == text[k] {
      assert moved[k - from] == out[at + (k - from)] && text[from..end][k - from] == text[k];
    }
  }

  lemma FrontMoves(text: string, from: nat, out: string, at: nat, a: nat)
    requires from <= a <= |text| && at <= Shifted(a, from, at) <= |out|
    requires out[at..Shifted(a, from, at)] == text[from..a] && SameLine(text[..from], out[..at])
    ensures SameLine(text[..a], out[..Shifted(a, from, at)])
  {
    hide SameLine;
    SameLineMore(text[..from], out[..at], text[from..a]);
    assert text[..from] + text[from..a] == text[..a];
    assert out[..at] + out[at..Shifted(a, from, at)] == out[..Shifted(a, from, at)];
  }

  lemma CommentMoves(text: string, c: Comment, from: nat, end: nat, out: string, at: nat)
    requires from <= c.pos && c.pos + 2 <= c.end <= end <= |text| && at + (end - from) <= |out|
    requires out[at..at + (end - from)] == text[from..end] && SameLine(text[..from], out[..at])
    ensures Alike(text, c, out, Comment(Shifted(c.pos, from, at), Shifted(c.end, from, at), c.line))
  {
    hide SameLine;
    SliceMoves(text, from, end, out, at, c.pos, c.end);
    SliceMoves(text, from, end, out, at, from, c.pos);
    FrontMoves(text, from, out, at, c.pos);
  }

  /** Each comment lies between the first and the last. */
  lemma Between(text: string, cs: seq<Comment>, k: nat)
    requires Ranges(text, cs) && k < |cs|
    ensures cs[0].pos <= cs[k].pos && cs[k].pos + 2 <= cs[k].end <= cs[|cs| - 1].end <= |text|
    ensures k > 0 ==> cs[0].pos <= cs[k - 1].pos && cs[k - 1].end <= cs[k].pos
  {
    assert k > 0 ==> cs[0].end <= cs[k].pos;
    assert k < |cs| - 1 ==> cs[k].end <= cs[|cs| - 1].pos;
    assert k > 1 ==> cs[0].end <= cs[k - 1].pos;
  }

  lemma MovedAlike(text: string, cs: seq<Comment>, out: string, at: nat)
    requires Ranges(text, cs) && cs != []
    requires var from, end := cs[0].pos, cs[|cs| - 1].end;
             && from <= end && at + (end - from) <= |out|
             && out[at..at + (end - from)] == text[from..end] && SameLine(text[..from], out[..at])
    ensures AllAlike(text, cs, out, Moved(cs, cs[0].pos, at))
  {
    hide SameLine, Alike, Ranges;
    var from, end := cs[0].pos, cs[|cs| - 1].end;
    var ds := Moved(cs, from, at);
    MovedRanges(text, cs, |out|, at);
    MovedAreRanges(out, ds);
    forall k | 0 <= k < |cs| ensures Alike(text, cs[k], out, ds[k]) {
      Between(text, cs, k);
      CommentMoves(text, cs[k], from, end, out, at);
    }
    forall k | 0 < k < |cs| ensures SameGap(text, cs[k - 1], cs[k], out, ds[k - 1], ds[k]) {
      Between(text, cs, k);
      Between(text, cs, k - 1);
      SliceMoves(text, from, end, out, at, cs[k - 1].end, cs[k].pos);
    }
  }

  ghost predicate InOrder(n: nat, ds: seq<Comment>) {
    && (forall k :: 0 <= k < |ds| ==> ds[k].pos + 2 <= ds[k].end <= n)
    && (forall i, j :: 0 <= i < j < |ds| ==> ds[i].end <= ds[j].pos)
  }

  lemma MovedAreRanges(out: string, ds: seq<Comment>)
    requires InOrder(|out|, ds)
    ensures Ranges(out, ds)
  {
  }

  lemma MovedRanges(text: string, cs: seq<Comment>, n: nat, at: nat)
    requires Ranges(text, cs) && cs != [] && cs[0].pos <= cs[|cs| - 1].end
    requires at + (cs[|cs| - 1].end - cs[0].pos) <= n
    ensures InOrder(n, Moved(cs, cs[0].pos, at))
  {
    var ds := Moved(cs, cs[0].pos, at);
    forall k | 0 <= k < |ds| ensures ds[k].pos + 2 <= ds[k].end <= n { Between(text, cs, k); }
    forall i, j | 0 <= i < j < |ds| ensures ds[i].end <= ds[j].pos {
      Between(text, cs, i);
      Between(text, cs, j);
    }
  }

  lemma AlikeIndent(text: string, c: Comment, out: string, d: Comment)
    requires Alike(text, c, out, d) && Standalone(text, c)
    ensures Standalone(out, d) && IndentOf(out, d) == IndentOf(text, c)
  {
    AlikeStandalone(text, c, out, d);
    hide Directive, Trim, Lead, LineStart, Alike;
  }

  lemma ContiguousAlike(text: string, a: Comment, b: Comment, out: string, c: Comment, d: Comment)
    requires SameGap(text, a, b, out, c, d)
    ensures Contiguous(text, a, b) <==> Contiguous(out, c, d)
  {
    hide OneBreak;
  }

  lemma JoinsAlike(text: string, cs: seq<Comment>, out: string, ds: seq<Comment>, k: nat)
    requires AllAlike(text, cs, out, ds) && 0 < k < |cs| && Standalone(text, cs[0])
    requires Standalone(text, cs[k]) && Contiguous(text, cs[k - 1], cs[k]) && IndentOf(text, cs[k]) == IndentOf(text, cs[0])
    ensures Standalone(out, ds[k]) && Contiguous(out, ds[k - 1], ds[k]) && IndentOf(out, ds[k]) == IndentOf(out, ds[0])
  {
    hide Standalone, Contiguous, IndentOf, Alike;
    AlikeIndent(text, cs[0], out, ds[0]);
    AlikeIndent(text, cs[k], out, ds[k]);
    ContiguousAlike(text, cs[k - 1], cs[k], out, ds[k - 1], ds[k]);
  }

  /** A group ends behind the comments that join it. */
  lemma {:induction false} GroupEndIs(text: string, cs: seq<Comment>, i: nat, j: nat, end: nat)
    requires Ranges(text, cs) && i < j <= end <= |cs|
    ensures GroupEnd(text, cs, i, j) == end <==>
              (forall x :: j <= x < end ==> Joins(text, cs, i, x)) && (end == |cs| || !Joins(text, cs, i, end))
    decreases end - j
  {
    hide Joins, Ranges;
    if j < end {
      GroupEndIs(text, cs, i, j + 1, end);
    }
  }

  /** The edit of a group depends on its texts, its indent and what it replaces. */
  lemma GroupLeftAlone(text: string, cs: seq<Comment>, i: nat, out: string, all: seq<Comment>, k: nat, n: nat)
    requires Ranges(text, cs) && Ranges(out, all) && 0 < n && i + n <= |cs| && k + n <= |all|
    requires AllAlike(text, cs[i..i + n], out, all[k..k + n]) && IndentOf(text, cs[i]) == IndentOf(out, all[k])
    requires cs[i].pos <= cs[i + n - 1].end && all[k].pos <= all[k + n - 1].end
    requires text[cs[i].pos..cs[i + n - 1].end] == out[all[k].pos..all[k + n - 1].end]
    requires GroupEdit(text, cs, i, i + n) == []
    ensures GroupEdit(out, all, k, k + n) == []
  {
    SameTexts(text, cs[i..i + n], out, all[k..k + n]);
    hide ReflowLineGroup, GroupText, Texts, IndentOf, AllAlike, Ranges;
  }

  lemma SameTexts(text: string, cs: seq<Comment>, out: string, ds: seq<Comment>)
    requires AllAlike(text, cs, out, ds)
    ensures Texts(text, cs) == Texts(out, ds)
  {
    assert forall k :: 0 <= k < |cs| ==> Alike(text, cs[k], out, ds[k]);
  }

  /** The comments from `k` on that are looked at together are these `n`, and they are left alone. */
  ghost predicate Rests(out: string, all: seq<Comment>, k: nat, n: nat) {
    Ranges(out, all) && k < |all| && StretchEnd(out, all, k) == k + n && StretchEdit(out, all, k) == []
  }

  lemma GroupStays(text: string, cs: seq<Comment>, i: nat, n: nat, out: string, all: seq<Comment>, k: nat)
    requires Ranges(text, cs) && i + n <= |cs| && 0 < n && Standalone(text, cs[i]) && GroupEnd(text, cs, i, i + 1) == i + n
    requires Ranges(out, all) && k + n <= |all| && AllAlike(text, cs[i..i + n], out, all[k..k + n])
    requires k + n == |all| || !Joins(out, all, k, k + n)
    ensures GroupEnd(out, all, k, k + 1) == k + n
  {
    hide Standalone, Contiguous, IndentOf, GroupEnd, Ranges, AllAlike;
    var part, here := cs[i..i + n], all[k..k + n];
    assert part[0] == cs[i] && here[0] == all[k];
    GroupEndIs(text, cs, i, i + 1, i + n);
    forall x | k + 1 <= x < k + n ensures Joins(out, all, k, x) {
      var m := x - k;
      assert part[m] == cs[i + m] && part[m - 1] == cs[i + m - 1] && here[m] == all[x] && here[m - 1] == all[x - 1];
      assert Joins(text, cs, i, i + m);
      JoinsAlike(text, part, out, here, m);
    }
    GroupEndIs(out, all, k, k + 1, k + n);
  }

  lemma MovedGroupRests(text: string, cs: seq<Comment>, i: nat, n: nat, out: string, all: seq<Comment>, k: nat)
    requires Ranges(text, cs) && i + n <= |cs| && 0 < n && Standalone(text, cs[i]) && StretchEnd(text, cs, i) == i + n
    requires StretchEdit(text, cs, i) == []
    requires Ranges(out, all) && k + n <= |all| && AllAlike(text, cs[i..i + n], out, all[k..k + n])
    requires cs[i].pos <= cs[i + n - 1].end && all[k].pos <= all[k + n - 1].end
    requires text[cs[i].pos..cs[i + n - 1].end] == out[all[k].pos..all[k + n - 1].end]
    requires k + n == |all| || !Joins(out, all, k, k + n)
    ensures Rests(out, all, k, n)
  {
    hide Standalone, IndentOf, GroupEdit, GroupEnd, BlockEdit, Ranges, AllAlike, Joins;
    assert cs[i..i + n][0] == cs[i] && all[k..k + n][0] == all[k];
    GroupStays(text, cs, i, n, out, all, k);
    FirstAlike(text, cs[i..i + n], out, all[k..k + n]);
    GroupLeftAlone(text, cs, i, out, all, k, n);
  }

  lemma FirstAlike(text: string, cs: seq<Comment>, out: string, ds: seq<Comment>)
    requires AllAlike(text, cs, out, ds) && cs != []
    ensures Standalone(text, cs[0]) <==> Standalone(out, ds[0])
    ensures Standalone(text, cs[0]) ==> IndentOf(text, cs[0]) == IndentOf(out, ds[0])
  {
    hide Standalone, IndentOf, Alike;
    AlikeStandalone(text, cs[0], out, ds[0]);
    if Standalone(text, cs[0]) { AlikeIndent(text, cs[0], out, ds[0]); }
  }
}

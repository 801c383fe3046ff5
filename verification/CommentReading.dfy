/** What reading comment lines yields: blocks that start the way their lines did. */
module CommentReading {
  import opened CommentFill
  import opened CommentText
  import opened Outcomes
  import opened WordTokens

  // ---------------------------------------------------------------- bullets where a word stands

  lemma {:induction false} DigitsAt(s: string, at: nat, w: string, i: nat)
    requires i <= |w| && at + |w| <= |s| && s[at..at + |w|] == w
    requires DigitsFrom(w, i) < |w| || at + |w| == |s| || !('0' <= s[at + |w|] <= '9')
    ensures DigitsFrom(s, at + i) == at + DigitsFrom(w, i)
    decreases |w| - i
  {
    if i < |w| {
      assert s[at + i] == s[at..at + |w|][i];
      if '0' <= w[i] <= '9' { DigitsAt(s, at, w, i + 1); }
    }
  }

  /** A word's bullet is the line's bullet, if it ends inside the word or a blank or nothing follows. */
  lemma BulletAt(s: string, at: nat, w: string)
    requires w != [] && at + |w| <= |s| && s[at..at + |w|] == w
    requires (0 < BulletLength(w, 0) < |w|) || at + |w| == |s| || s[at + |w|] == ' '
    ensures BulletLength(s, at) == BulletLength(w, 0)
  {
    assert s[at] == s[at..at + |w|][0];
    if w[0] !in "-*+" {
      DigitsAt(s, at, w, 0);
      var end := DigitsFrom(w, 0);
      if end < |w| {
        assert s[at + end] == s[at..at + |w|][end];
      }
    }
  }

  // ---------------------------------------------------------------- the first word of a line

  lemma FirstWord(t: string)
    requires t != [] && !White(t[0])
    ensures Tokenize(t) != [] && Tokenize(t)[0] != [] && Tokenize(t)[0] <= t
    ensures Tokenize(t)[0] == t[..UnitEnd(t, 0)]
  {
    assert SkipBlanks(t, 0) == 0;
    assert t[0..UnitEnd(t, 0)] == t[..UnitEnd(t, 0)];
  }

  lemma TagWord(t: string)
    requires t != [] && !White(t[0]) && TagLine(t)
    ensures Tokenize(t) != [] && TagLine(Tokenize(t)[0])
  {
    FirstWord(t);
    assert UnitEnd(t, 0) == UnitEnd(t, 1);
  }

  /** Leading white space aside, a trimmed line is the rest of its content. */
  lemma TrimOfContent(content: string)
    requires NoTrailingWhite(content)
    ensures Trim(content) == content[Lead(content)..]
    ensures Trim(content) != [] ==> !White(Trim(content)[0])
  {
    TrimEndIs(content[Lead(content)..]);
  }

  /** The first word of a line without a marker does not hide one. */
  lemma PlainWord(content: string)
    requires NoTrailingWhite(content) && Trim(content) != [] && MarkerEnd(content) == 0
    requires !Fence(Trim(content)) && !TableRow(Trim(content)) && !TagLine(Trim(content))
    ensures ParaOk(Para(Plain, "", Tokenize(Trim(content))))
  {
    hide Trim, Tokenize, White, Lead, BulletInside, MarkerEnd;
    TrimOfContent(content);
    var t := Trim(content);
    FirstWord(t);
    var w := Tokenize(t)[0];
    assert w == t[..|w|];
    NoBulletInside(content, t, w);
  }

  /** A bullet inside the first word would be the marker of the line. */
  lemma NoBulletInside(content: string, t: string, w: string)
    requires t == content[Lead(content)..] && w <= t && w != [] && MarkerEnd(content) == 0
    ensures !BulletInside(w)
  {
    var lead := Lead(content);
    assert content[lead..lead + |w|] == w by { assert t[..|w|] == w; }
    hide Lead;
    if BulletInside(w) {
      BulletAt(content, lead, w);
    }
  }

  /** The marker of a list line reads as a marker again, and something follows it. */
  lemma ItemMarker(content: string)
    requires NoTrailingWhite(content) && MarkerEnd(content) > 0
    ensures var end := MarkerEnd(content);
            && end < |content| && !White(content[end]) && MarkerOk(content[..end])
            && ParaOk(Para(Item, content[..end], Tokenize(content[end..])))
  {
    var end := MarkerEnd(content);
    var lead := Lead(content);
    var n := BulletLength(content, lead);
    var marker := content[..end];
    assert White(content[end - 1]);
    assert end < |content|;
    FirstWord(content[end..]);
    assert forall k :: 0 <= k < end ==> marker[k] == content[k];
    assert Lead(marker) == lead;
    MarkerBullet(content, lead, end);
    assert LeadFrom(marker, lead + n) == end;
  }

  lemma MarkerBullet(content: string, lead: nat, end: nat)
    requires lead <= |content| && lead + BulletLength(content, lead) < end <= |content| && BulletLength(content, lead) > 0
    ensures BulletLength(content[..end], lead) == BulletLength(content, lead)
  {
    var n := BulletLength(content, lead);
    var marker := content[..end];
    assert forall k :: 0 <= k < end ==> marker[k] == content[k];
    if content[lead] !in "-*+" {
      DigitsPrefix(content, end, lead);
    }
  }

  lemma {:induction false} DigitsPrefix(s: string, end: nat, i: nat)
    requires i <= end <= |s| && DigitsFrom(s, i) < end
    ensures DigitsFrom(s[..end], i) == DigitsFrom(s, i)
    decreases end - i
  {
    if '0' <= s[i] <= '9' {
      DigitsPrefix(s, end, i + 1);
    }
  }

  // ---------------------------------------------------------------- one line, all lines

  lemma KeepReads(blocks: seq<Block>, content: string, b: Block)
    requires Readable(blocks) && BlockOk(blocks, b) && !b.Para?
    ensures Keep(Canon(blocks), b).(fenced := Fenced(blocks + [b])) == Canon(blocks + [b]) && Readable(blocks + [b])
  {
    KeepCanon(blocks, b);
    AppendReadable(blocks, b);
  }

  lemma OpenReads(blocks: seq<Block>, b: Block)
    requires Readable(blocks) && BlockOk(blocks, b) && b.Para?
    ensures Open(Canon(blocks), b) == Canon(blocks + [b]) && Readable(blocks + [b])
  {
    KeepCanon(blocks, b);
    AppendReadable(blocks, b);
  }

  /** A line that continues the paragraph at the end of `blocks`. */
  lemma ContinueReads(blocks: seq<Block>, more: seq<string>) returns (next: seq<Block>)
    requires Readable(blocks) && blocks != [] && blocks[|blocks| - 1].Para?
    ensures Readable(next)
    ensures var s := Canon(blocks);
            s.(para := Some(s.para.value.(words := s.para.value.words + more))) == Canon(next)
  {
    var front, last := blocks[..|blocks| - 1], blocks[|blocks| - 1];
    var longer := last.(words := last.words + more);
    next := front + [longer];
    assert BlockOk(blocks[..|blocks| - 1], blocks[|blocks| - 1]);
    forall j | 0 <= j < |next| ensures BlockOk(next[..j], next[j]) {
      assert next[..j] == blocks[..j];
      if j < |front| { assert BlockOk(blocks[..j], blocks[j]); }
    }
    assert next[..|next| - 1] == front;
  }

  lemma FencedNext(blocks: seq<Block>, b: Block)
    ensures Fenced(blocks + [b]) ==
              if b.Verbatim? then (if Fenced(blocks) then !Fence(Trim(b.text)) else Fence(Trim(b.text))) else Fenced(blocks)
  {
    assert (blocks + [b])[..|blocks|] == blocks;
  }

  lemma CanonState(blocks: seq<Block>)
    ensures Canon(blocks).fenced == Fenced(blocks)
    ensures Canon(blocks).para.Some? <==> blocks != [] && blocks[|blocks| - 1].Para?
    ensures Canon(blocks).para.Some? ==> Canon(blocks).para.value.Para?
  {
  }

  lemma FenceHasNoParagraph(blocks: seq<Block>)
    requires Readable(blocks) && Fenced(blocks)
    ensures Canon(blocks).para.None?
  {
    if blocks != [] { assert BlockOk(blocks[..|blocks| - 1], blocks[|blocks| - 1]); }
  }

  lemma LineReads(blocks: seq<Block>, content: string) returns (next: seq<Block>)
    requires Readable(blocks) && NoTrailingWhite(content)
    ensures Readable(next) && Read(Canon(blocks), content) == Canon(next)
  {
    hide Canon, Fenced, Readable, ParaOk, Tokenize, Fence, TableRow, TagLine, Trim, MarkerEnd;
    CanonState(blocks);
    if Fenced(blocks) { FenceHasNoParagraph(blocks); }
    TrimOfContent(content);
    var t := Trim(content);
    var s := Canon(blocks);
    if s.fenced || Fence(t) || t == [] || TableRow(t) {
      var b := if s.fenced || Fence(t) || t != [] then Verbatim(content) else Empty;
      next := blocks + [b];
      FencedNext(blocks, b);
      KeepReads(blocks, content, b);
    } else if TagLine(t) {
      TagWord(t);
      var b := Para(Tag, "", Tokenize(t));
      assert ParaOk(b) by { TagParaOk(b); }
      next := blocks + [b];
      OpenReads(blocks, b);
    } else if MarkerEnd(content) > 0 {
      ItemMarker(content);
      var b := Para(Item, content[..MarkerEnd(content)], Tokenize(content[MarkerEnd(content)..]));
      next := blocks + [b];
      OpenReads(blocks, b);
    } else if s.para.Some? {
      next := ContinueReads(blocks, Tokenize(t));
    } else {
      PlainWord(content);
      var b := Para(Plain, "", Tokenize(t));
      next := blocks + [b];
      OpenReads(blocks, b);
    }
  }

  lemma TagParaOk(b: Block)
    requires b.Para? && b.kind.Tag? && b.marker == "" && b.words != [] && TagLine(b.words[0])
    ensures ParaOk(b)
  {
  }

  /** Reading lines without trailing white space leaves the reader in the state its blocks stand for. */
  lemma {:induction false} LinesRead(contents: seq<string>)
    requires forall k :: 0 <= k < |contents| ==> NoTrailingWhite(contents[k])
    ensures Readable(Blocks(contents)) && ReadAll(Reading([], None, false), contents) == Canon(Blocks(contents))
    decreases |contents|
  {
    if contents == [] {
      assert Blocks([]) == [];
    } else {
      var front := contents[..|contents| - 1];
      LinesRead(front);
      var next := LineReads(Blocks(front), contents[|contents| - 1]);
      FlushCanon(next);
    }
  }
}

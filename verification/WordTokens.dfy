/** Prose cut into wrap units: words, with back-quoted code and `{@tag ...}` kept whole. */
module WordTokens {
  import opened CommentText
  import opened Outcomes
  import opened SentenceWrap

  /** The first position of `c` at or after `from`. */
  function IndexOf(s: string, c: char, from: nat): (at: Option<nat>)
    ensures at.Some? ==> from <= at.value < |s| && s[at.value] == c && forall i :: from <= i < at.value ==> s[i] != c
    ensures at.None? ==> forall i :: from <= i < |s| ==> s[i] != c
    decreases if from < |s| then |s| - from else 0
  {
    if from >= |s| then None else if s[from] == c then Some(from) else IndexOf(s, c, from + 1)
  }

  /** The delimiter that closes what opens at `i`, if anything does and it is closed. */
  function Closing(s: string, i: nat): (at: Option<nat>)
    requires i < |s|
    ensures at.Some? ==> i < at.value < |s|
  {
    if s[i] == '`' then IndexOf(s, '`', i + 1)
    else if s[i] == '{' && i + 1 < |s| && s[i + 1] == '@' then IndexOf(s, '}', i + 1)
    else None
  }

  /** Where the unit that contains position `i` ends. */
  function UnitEnd(s: string, i: nat): (end: nat)
    requires i <= |s|
    ensures i <= end <= |s| && (end < |s| ==> Blank(s[end]))
    ensures i < |s| && !Blank(s[i]) ==> i < end
    decreases |s| - i
  {
    if i == |s| || Blank(s[i]) then i
    else if Closing(s, i).Some? then UnitEnd(s, Closing(s, i).value + 1)
    else UnitEnd(s, i + 1)
  }

  function SkipBlanks(s: string, i: nat): (start: nat)
    requires i <= |s|
    ensures i <= start <= |s| && (start < |s| ==> !Blank(s[start]))
    ensures forall k :: i <= k < start ==> Blank(s[k])
    decreases |s| - i
  {
    if i < |s| && Blank(s[i]) then SkipBlanks(s, i + 1) else i
  }

  /** The units from position `i` on. */
  function TokensFrom(s: string, i: nat): (words: seq<string>)
    requires i <= |s|
    decreases |s| - i
  {
    var start := SkipBlanks(s, i);
    if start == |s| then [] else [s[start..UnitEnd(s, start)]] + TokensFrom(s, UnitEnd(s, start))
  }

  function Tokenize(s: string): seq<string> {
    TokensFrom(s, 0)
  }

  // ---------------------------------------------------------------- words that read back as themselves

  /** From `i` on, everything that opens is closed inside the word and no blank stands outside. */
  predicate ClosedFrom(w: string, i: nat)
    requires i <= |w|
    decreases |w| - i
  {
    i == |w|
    || (!Blank(w[i])
        && (if w[i] == '`' || (w[i] == '{' && i + 1 < |w| && w[i + 1] == '@')
            then Closing(w, i).Some? && ClosedFrom(w, Closing(w, i).value + 1)
            else ClosedFrom(w, i + 1)))
  }

  /** A word whose code spans and tags are closed: it is a unit wherever blanks surround it. */
  predicate Closed(w: string) {
    w != [] && ClosedFrom(w, 0)
  }

  /** `w` stands in `s` at `at`, followed by the end or by a blank. */
  ghost predicate StandsAt(s: string, at: nat, w: string) {
    at + |w| <= |s| && s[at..at + |w|] == w && (at + |w| < |s| ==> s[at + |w|] == ' ')
  }

  lemma StandsChar(s: string, at: nat, w: string, i: nat)
    requires StandsAt(s, at, w) && i < |w|
    ensures s[at + i] == w[i]
  {
    assert s[at..at + |w|][i] == w[i];
  }

  lemma {:induction false} IndexStands(s: string, at: nat, w: string, c: char, from: nat)
    requires StandsAt(s, at, w) && from <= |w| && IndexOf(w, c, from).Some?
    ensures IndexOf(s, c, at + from) == Some(at + IndexOf(w, c, from).value)
    decreases |w| - from
  {
    StandsChar(s, at, w, from);
    if w[from] != c {
      IndexStands(s, at, w, c, from + 1);
    }
  }

  predicate Opens(w: string, i: nat)
    requires i < |w|
  {
    w[i] == '`' || (w[i] == '{' && i + 1 < |w| && w[i + 1] == '@')
  }

  lemma ClosingStands(s: string, at: nat, w: string, i: nat)
    requires StandsAt(s, at, w) && i < |w| && (Opens(w, i) ==> Closing(w, i).Some?)
    ensures at + i < |s| && s[at + i] == w[i]
    ensures Closing(s, at + i) == if Opens(w, i) then Some(at + Closing(w, i).value) else None
  {
    StandsChar(s, at, w, i);
    if i + 1 < |w| { StandsChar(s, at, w, i + 1); }
    if w[i] == '`' {
      IndexStands(s, at, w, '`', i + 1);
    } else if Opens(w, i) {
      IndexStands(s, at, w, '}', i + 1);
    }
  }

  lemma {:induction false} UnitStands(s: string, at: nat, w: string, i: nat)
    requires StandsAt(s, at, w) && i <= |w| && ClosedFrom(w, i)
    ensures at + i <= |s| && UnitEnd(s, at + i) == at + |w|
    decreases |w| - i
  {
    hide Closing, StandsAt, Blank;
    InBounds(s, at, w);
    if i < |w| {
      ClosingStands(s, at, w, i);
      UnitStands(s, at, w, if Opens(w, i) then Closing(w, i).value + 1 else i + 1);
    }
  }

  lemma InBounds(s: string, at: nat, w: string)
    requires StandsAt(s, at, w)
    ensures at + |w| <= |s| && (at + |w| < |s| ==> Blank(s[at + |w|]))
  {
  }

  /** One word at the front of `s` from `pad` on, behind blanks. */
  lemma FirstToken(s: string, pad: nat, at: nat, w: string)
    requires StandsAt(s, at, w) && Closed(w) && pad <= at && forall k :: pad <= k < at ==> Blank(s[k])
    ensures at + |w| <= |s| && TokensFrom(s, pad) == [w] + TokensFrom(s, at + |w|)
  {
    hide ClosedFrom, UnitEnd, SkipBlanks, Blank, Closing;
    ClosedStarts(w);
    StandsChar(s, at, w, 0);
    SkipTo(s, pad, at);
    UnitStands(s, at, w, 0);
  }

  lemma ClosedStarts(w: string)
    requires Closed(w)
    ensures w != [] && !Blank(w[0])
  {
  }

  lemma JoinStands(s: string, at: nat, words: seq<string>)
    requires words != [] && at <= |s| && s[at..] == Join(words)
    ensures StandsAt(s, at, words[0])
    ensures |words| > 1 ==> var next := at + |words[0]| + 1; next <= |s| && s[next..] == Join(words[1..]) && s[next - 1] == ' '
    ensures |words| == 1 ==> |s| == at + |words[0]|
  {
    var w := words[0];
    var tail := s[at..];
    if |words| > 1 {
      assert tail == w + " " + Join(words[1..]);
      assert tail[..|w|] == w && tail[|w|] == ' ' && tail[|w| + 1..] == Join(words[1..]);
      assert s[at..at + |w|] == tail[..|w|] && s[at + |w|] == tail[|w|] && s[at + |w| + 1..] == tail[|w| + 1..];
    } else {
      assert s[at..at + |w|] == tail;
    }
  }

  /** Cutting joined closed words gives the words again, blanks in front or not. */
  lemma {:induction false} TokensOfJoin(s: string, pad: nat, at: nat, words: seq<string>)
    requires pad <= at <= |s| && s[at..] == Join(words)
    requires forall k :: 0 <= k < |words| ==> Closed(words[k])
    requires forall k :: pad <= k < at ==> Blank(s[k])
    ensures TokensFrom(s, pad) == words
    decreases |words|
  {
    hide StandsAt, Closed, UnitEnd, TokensFrom, Join;
    if words == [] {
      JoinNothing();
      assert at == |s|;
      NoTokens(s, pad);
    } else {
      var w := words[0];
      JoinStands(s, at, words);
      FirstToken(s, pad, at, w);
      if |words| == 1 {
        NoTokens(s, |s|);
      } else {
        TokensOfJoin(s, at + |w|, at + |w| + 1, words[1..]);
      }
    }
  }

  lemma JoinNothing()
    ensures Join([]) == ""
  {
  }

  lemma {:induction false} NoTokens(s: string, i: nat)
    requires i <= |s| && forall k :: i <= k < |s| ==> Blank(s[k])
    ensures TokensFrom(s, i) == []
    decreases |s| - i
  {
    assert SkipBlanks(s, i) == |s|;
  }

  lemma {:induction false} SkipTo(s: string, i: nat, at: nat)
    requires i <= at < |s| && !Blank(s[at]) && forall k :: i <= k < at ==> Blank(s[k])
    ensures SkipBlanks(s, i) == at
    decreases at - i
  {
    if i < at {
      SkipTo(s, i + 1, at);
    }
  }

  lemma TokenizeJoin(words: seq<string>)
    requires forall k :: 0 <= k < |words| ==> Closed(words[k])
    ensures Tokenize(Join(words)) == words
  {
    assert Join(words)[0..] == Join(words);
    TokensOfJoin(Join(words), 0, 0, words);
  }

  /**
   The condition matters: two words with one unclosed back quote each are glued when they meet on one
   line, so filling such prose twice need not give what filling it once gives.
   */
  lemma UnclosedQuotesGlue()
    ensures Tokenize("`a") == ["`a"] && Tokenize("b`") == ["b`"]
    ensures Tokenize(Join(["`a", "b`"])) == ["`a b`"]
  {
    assert Join(["`a", "b`"]) == "`a b`" by { assert ["`a", "b`"][1..] == ["b`"]; }
    assert IndexOf("`a", '`', 1).None?;
    assert UnitEnd("`a", 0) == 2;
    assert UnitEnd("b`", 0) == 2;
    var s := "`a b`";
    assert IndexOf(s, '`', 1) == Some(4);
    assert UnitEnd(s, 5) == 5 && UnitEnd(s, 0) == 5;
    assert TokensFrom(s, 5) == [] && s[0..5] == s;
    assert TokensFrom("`a", 2) == [] && TokensFrom("b`", 2) == [];
    assert "`a"[0..2] == "`a" && "b`"[0..2] == "b`";
  }
}

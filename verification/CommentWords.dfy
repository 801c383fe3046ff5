/** What words are: spans of code and inline tags stay whole, everything else is cut at its blanks; and which words end and start sentences. */
module CommentWords {
  import opened CommentFill
  import opened CommentText
  import opened Outcomes
  import opened SentenceWrap
  import opened WordTokens

  // ---------------------------------------------------------------- spans stay whole

  /** One of the words holds all of this. */
  ghost predicate HoldsWhole(words: seq<string>, span: string) {
    exists k, front, back :: 0 <= k < |words| && Holds(words[k], front, span, back)
  }

  ghost predicate Holds(word: string, front: string, middle: string, back: string) {
    word == front + middle + back
  }

  predicate OpensNothing(s: string, i: nat, p: nat)
    requires i <= p <= |s|
  {
    forall k :: i <= k < p ==> s[k] != '`' && s[k] != '{'
  }

  lemma {:induction false} UnitReaches(s: string, i: nat, p: nat, q: nat)
    requires i <= p < q <= |s| && OpensNothing(s, i, p) && Closing(s, p) == Some(q - 1)
    requires !Blank(s[p]) && forall k :: i <= k < p ==> !Blank(s[k])
    ensures UnitEnd(s, i) >= q
    decreases p - i
  {
    if i < p { UnitReaches(s, i + 1, p, q); }
  }

  /** Without a blank in front of it the span is in this word, else in a later one. */
  lemma {:induction false} TokensHold(s: string, i: nat, p: nat, q: nat)
    requires i <= p < q <= |s| && OpensNothing(s, i, p) && Closing(s, p) == Some(q - 1) && !Blank(s[p])
    ensures HoldsWhole(TokensFrom(s, i), s[p..q])
    decreases |s| - i
  {
    hide UnitEnd, SkipBlanks, Holds;
    var start := SkipBlanks(s, i);
    StopsBefore(s, i, p);
    var end := UnitEnd(s, start);
    var words := TokensFrom(s, i);
    if end <= p {
      TokensHold(s, end, p, q);
      var rest := TokensFrom(s, end);
      var k, front, back :| 0 <= k < |rest| && Holds(rest[k], front, s[p..q], back);
      assert words[k + 1] == rest[k];
    } else {
      NoBlankBefore(s, start, p);
      UnitReaches(s, start, p, q);
      StretchInside(s, start, end, p, q);
      assert Holds(words[0], s[start..p], s[p..q], s[q..end]);
    }
  }

  lemma StretchInside(s: string, start: nat, end: nat, p: nat, q: nat)
    requires start <= p <= q <= end <= |s|
    ensures Holds(s[start..end], s[start..p], s[p..q], s[q..end])
  {
  }

  lemma {:induction false} StopsBefore(s: string, i: nat, p: nat)
    requires i <= p < |s| && !Blank(s[p])
    ensures SkipBlanks(s, i) <= p
    decreases p - i
  {
    if i < p && Blank(s[i]) { StopsBefore(s, i + 1, p); }
  }

  /** A unit that runs over `p` met no blank before it, as nothing opened there. */
  lemma {:induction false} NoBlankBefore(s: string, i: nat, p: nat)
    requires i <= p < |s| && OpensNothing(s, i, p) && UnitEnd(s, i) > p
    ensures forall k :: i <= k < p ==> !Blank(s[k])
    decreases p - i
  {
    if i < p { NoBlankBefore(s, i + 1, p); }
  }

  /** A code span is one word, or part of one, with every blank in it. */
  lemma CodeSpanStaysWhole(a: string, b: string, c: string)
    requires '`' !in a && '{' !in a && '`' !in b
    ensures var span := "`" + b + "`";
            HoldsWhole(Tokenize(a + span + c), span)
  {
    var span := "`" + b + "`";
    var s := a + span + c;
    var p, q := |a|, |a| + |span|;
    assert forall k :: 0 <= k < p ==> s[k] == a[k];
    assert forall k :: p < k < q - 1 ==> s[k] == b[k - p - 1];
    assert s[p] == '`' && s[q - 1] == '`';
    FirstFrom(s, '`', p + 1, q - 1);
    TokensHold(s, 0, p, q);
    assert s[p..q] == span;
  }

  lemma {:induction false} FirstFrom(s: string, c: char, from: nat, at: nat)
    requires from <= at < |s| && s[at] == c && forall k :: from <= k < at ==> s[k] != c
    ensures IndexOf(s, c, from) == Some(at)
    decreases at - from
  {
    if from < at { FirstFrom(s, c, from + 1, at); }
  }

  /** So is an inline tag. */
  lemma InlineTagStaysWhole(a: string, b: string, c: string)
    requires '`' !in a && '{' !in a && '}' !in b
    ensures var span := "{@" + b + "}";
            HoldsWhole(Tokenize(a + span + c), span)
  {
    var span := "{@" + b + "}";
    var s := a + span + c;
    var p, q := |a|, |a| + |span|;
    assert forall k :: 0 <= k < p ==> s[k] == a[k];
    assert forall k :: p + 1 < k < q - 1 ==> s[k] == b[k - p - 2];
    assert s[p] == '{' && s[p + 1] == '@' && s[q - 1] == '}';
    FirstFrom(s, '}', p + 1, q - 1);
    TokensHold(s, 0, p, q);
    assert s[p..q] == span;
  }

  lemma {:induction false} UnitIsPlain(s: string, i: nat)
    requires i <= |s| && OpensNothing(s, 0, |s|)
    ensures forall k :: i <= k < UnitEnd(s, i) ==> !Blank(s[k])
    decreases |s| - i
  {
    if i < |s| && !Blank(s[i]) { UnitIsPlain(s, i + 1); }
  }

  lemma {:induction false} TokensArePlain(s: string, i: nat)
    requires i <= |s| && OpensNothing(s, 0, |s|)
    ensures forall w :: w in TokensFrom(s, i) ==> w != [] && forall k :: 0 <= k < |w| ==> !Blank(w[k])
    decreases |s| - i
  {
    var start := SkipBlanks(s, i);
    if start < |s| {
      UnitIsPlain(s, start);
      TokensArePlain(s, UnitEnd(s, start));
    }
  }

  /** Where nothing opens, no word holds a blank. */
  lemma PlainWordsHoldNoBlank(s: string)
    requires '`' !in s && '{' !in s
    ensures forall w :: w in Tokenize(s) ==> w != [] && forall k :: 0 <= k < |w| ==> !Blank(w[k])
  {
    TokensArePlain(s, 0);
  }

  // ---------------------------------------------------------------- sentences

  predicate AllIn(s: string, chars: string) {
    forall i :: 0 <= i < |s| ==> s[i] in chars
  }

  const CLOSERS := ")]\"'`\U{BB}"
  const OPENERS := "(\"'`\U{AB}"

  /** A mark that ends a sentence, unless it belongs to an abbreviation or to a number. */
  ghost predicate EndMark(core: string) {
    && core != [] && (core[|core| - 1] == '.' || core[|core| - 1] == '!' || core[|core| - 1] == '?')
    && (forall a :: a in ABBREVIATIONS ==> !SameLetters(core, a))
    && !(|core| >= 2 && core[|core| - 1] == '.' && forall i :: 0 <= i < |core| - 1 ==> '0' <= core[i] <= '9')
  }

  /** The same word, but for its case. */
  predicate SameLetters(a: string, b: string) {
    |a| == |b| && forall i :: 0 <= i < |a| ==> a[i] == b[i] || ('A' <= a[i] <= 'Z' && a[i] - 'A' + 'a' == b[i])
  }

  lemma {:induction false} DropLastIs(word: string, core: string, tail: string, closers: string)
    requires word == core + tail && AllIn(tail, closers) && (core == [] || core[|core| - 1] !in closers)
    ensures DropLast(word, closers) == core
    decreases |tail|
  {
    if tail != [] {
      assert word[..|word| - 1] == core + tail[..|tail| - 1];
      DropLastIs(word[..|word| - 1], core, tail[..|tail| - 1], closers);
    } else {
      assert word == core;
    }
  }

  lemma {:induction false} DropLastSplits(word: string, closers: string)
    ensures DropLast(word, closers) <= word && AllIn(word[|DropLast(word, closers)|..], closers)
    ensures DropLast(word, closers) == [] || DropLast(word, closers)[|DropLast(word, closers)| - 1] !in closers
    decreases |word|
  {
    if word != [] && word[|word| - 1] in closers {
      var front := word[..|word| - 1];
      DropLastSplits(front, closers);
      var core := DropLast(word, closers);
      assert word[|core|..] == front[|core|..] + [word[|word| - 1]];
    }
  }

  lemma {:induction false} DropFirstIs(word: string, head: string, core: string, openers: string)
    requires word == head + core && AllIn(head, openers) && (core == [] || core[0] !in openers)
    ensures DropFirst(word, openers) == core
    decreases |head|
  {
    if head != [] {
      assert word[1..] == head[1..] + core;
      DropFirstIs(word[1..], head[1..], core, openers);
    } else {
      assert word == core;
    }
  }

  lemma {:induction false} DropFirstSplits(word: string, openers: string)
    ensures var core := DropFirst(word, openers);
            |core| <= |word| && word[|word| - |core|..] == core && AllIn(word[..|word| - |core|], openers)
    decreases |word|
  {
    if word != [] && word[0] in openers {
      DropFirstSplits(word[1..], openers);
      var core := DropFirst(word, openers);
      assert word[..|word| - |core|] == [word[0]] + word[1..][..|word| - 1 - |core|];
    }
  }

  lemma LettersLower(a: string, b: string)
    requires b in ABBREVIATIONS
    ensures SameLetters(a, b) <==> Lower(a) == b
  {
    AbbreviationsAreLower(b);
    if Lower(a) == b {
      forall i | 0 <= i < |a| ensures a[i] == b[i] || ('A' <= a[i] <= 'Z' && a[i] - 'A' + 'a' == b[i]) {
        assert Lower(a)[i] == b[i];
      }
    }
    if SameLetters(a, b) {
      forall i | 0 <= i < |a| ensures Lower(a)[i] == b[i] {
        assert !('A' <= b[i] <= 'Z');
      }
    }
  }

  lemma AbbreviationsAreLower(b: string)
    requires b in ABBREVIATIONS
    ensures forall i :: 0 <= i < |b| ==> !('A' <= b[i] <= 'Z')
  {
  }

  /** A word ends a sentence exactly if, its closing quotes and brackets aside, it ends with a mark that does. */
  lemma EndsSentenceExactly(word: string)
    ensures EndsSentence(word) <==> exists core, tail :: word == core + tail && AllIn(tail, CLOSERS) && EndMark(core)
  {
    hide Lower, SameLetters, DropLast;
    var found := DropLast(word, CLOSERS);
    DropLastSplits(word, CLOSERS);
    MarkIsEnd(found);
    if EndsSentence(word) { assert word == found + word[|found|..]; }
    forall core, tail | word == core + tail && AllIn(tail, CLOSERS) && EndMark(core) ensures EndsSentence(word) {
      DropLastIs(word, core, tail, CLOSERS);
    }
  }

  lemma MarkIsEnd(core: string)
    ensures EndMark(core) <==>
              && core != [] && core[|core| - 1] in ".!?" && Lower(core) !in ABBREVIATIONS
              && !(core[|core| - 1] == '.' && Digits(core[..|core| - 1]))
  {
    hide Lower, SameLetters;
    forall a | a in ABBREVIATIONS ensures SameLetters(core, a) <==> Lower(core) == a { LettersLower(core, a); }
    if core != [] {
      var front := core[..|core| - 1];
      assert forall i :: 0 <= i < |front| ==> front[i] == core[i];
    }
  }

  /** A word starts a sentence exactly if it is a tag, or its first letter behind opening quotes and brackets is a capital or a digit. */
  lemma StartsSentenceExactly(word: string)
    ensures StartsSentence(word) <==>
              exists head, core :: word == head + core && AllIn(head, OPENERS) && core != [] && core[0] !in OPENERS
                                   && ('A' <= core[0] <= 'Z' || '0' <= core[0] <= '9' || "{@" <= word)
  {
    hide DropFirst;
    var found := DropFirst(word, OPENERS);
    DropFirstSplits(word, OPENERS);
    DropsOpeners(word, OPENERS);
    if StartsSentence(word) { assert word == word[..|word| - |found|] + found; }
    forall head, core | word == head + core && AllIn(head, OPENERS) && core != [] && core[0] !in OPENERS
      ensures DropFirst(word, OPENERS) == core
    {
      DropFirstIs(word, head, core, OPENERS);
    }
  }

  lemma {:induction false} DropsOpeners(word: string, openers: string)
    ensures DropFirst(word, openers) == [] || DropFirst(word, openers)[0] !in openers
    decreases |word|
  {
    if word != [] && word[0] in openers { DropsOpeners(word[1..], openers); }
  }

  // ---------------------------------------------------------------- lines that are not prose

  /** Fences, table rows and tags, by their first characters. */
  lemma LineMarks(t: string)
    ensures Fence(t) <==> |t| >= 3 && (t[..3] == "```" || t[..3] == "~~~")
    ensures TableRow(t) <==> |t| >= 1 && t[..1] == "|"
    ensures TagLine(t) <==> |t| >= 2 && t[..1] == "@" && ('a' <= t[1] <= 'z' || 'A' <= t[1] <= 'Z')
  {
  }
}

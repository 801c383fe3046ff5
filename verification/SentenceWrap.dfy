/** Greedy word wrap that prefers to break at a sentence boundary close to the margin. */
module SentenceWrap {
  const MAX_WIDTH: nat := 100
  const SENTENCE_WINDOW: nat := 10

  const ABBREVIATIONS: set<string> := {"e.g.", "i.e.", "etc.", "vs.", "cf.", "al.", "approx.", "ca.", "no."}

  // ---------------------------------------------------------------- sentences

  function DropLast(word: string, closers: string): string {
    if word != [] && word[|word| - 1] in closers then DropLast(word[..|word| - 1], closers) else word
  }

  function DropFirst(word: string, openers: string): string {
    if word != [] && word[0] in openers then DropFirst(word[1..], openers) else word
  }

  function Lower(word: string): string {
    seq(|word|, i requires 0 <= i < |word| => if 'A' <= word[i] <= 'Z' then word[i] - 'A' + 'a' else word[i])
  }

  predicate Digits(s: string) {
    s != [] && forall i :: 0 <= i < |s| ==> '0' <= s[i] <= '9'
  }

  predicate EndsSentence(word: string) {
    var core := DropLast(word, ")]\"'`\U{BB}");
    && core != [] && core[|core| - 1] in ".!?"
    && Lower(core) !in ABBREVIATIONS
    && !(core[|core| - 1] == '.' && Digits(core[..|core| - 1]))
  }

  predicate StartsSentence(word: string) {
    var core := DropFirst(word, "(\"'`\U{AB}");
    core != [] && ('A' <= core[0] <= 'Z' || '0' <= core[0] <= '9' || "{@" <= word)
  }

  predicate Boundary(words: seq<string>, m: nat) {
    0 < m < |words| && EndsSentence(words[m - 1]) && StartsSentence(words[m])
  }

  // ---------------------------------------------------------------- lines

  function Join(words: seq<string>): string {
    if words == [] then "" else if |words| == 1 then words[0] else words[0] + " " + Join(words[1..])
  }

  /** The width of a line of these words behind a prefix of width `prefix`. */
  function Width(prefix: nat, words: seq<string>): nat {
    prefix + |Join(words)|
  }

  lemma {:induction false} WidthGrows(prefix: nat, words: seq<string>, word: string)
    requires words != []
    ensures Width(prefix, words + [word]) == Width(prefix, words) + 1 + |word|
  {
    if |words| == 1 {
      assert (words + [word])[1..] == [word] && Join([word]) == word;
    } else {
      assert (words + [word])[1..] == words[1..] + [word];
      WidthGrows(prefix, words[1..], word);
    }
  }

  /** The words that fit: one at least, and no more than the margin allows. */
  ghost predicate Fullest(words: seq<string>, prefix: nat, k: nat) {
    && 1 <= k <= |words|
    && (forall j :: 1 < j <= k ==> Width(prefix, words[..j]) <= MAX_WIDTH)
    && (k < |words| ==> Width(prefix, words[..k + 1]) > MAX_WIDTH)
  }

  /** A break that reads better: behind two words at least, at a sentence boundary inside the window. */
  ghost predicate Preferred(words: seq<string>, prefix: nat, m: nat) {
    1 < m && Boundary(words, m) && Width(prefix, words[..m]) >= MAX_WIDTH - SENTENCE_WINDOW
  }

  ghost predicate NonePreferred(words: seq<string>, prefix: nat, lo: nat, hi: nat) {
    forall m :: lo < m <= hi ==> !Preferred(words, prefix, m)
  }

  /** Where a line ends: at the last preferred break of the fullest line, or where it is full. */
  ghost predicate EndsLine(words: seq<string>, prefix: nat, end: nat) {
    exists k: nat :: Fullest(words, prefix, k) && EndsFullest(words, prefix, k, end)
  }

  ghost predicate EndsFullest(words: seq<string>, prefix: nat, k: nat, end: nat) {
    || (end <= k && Preferred(words, prefix, end) && NonePreferred(words, prefix, end, k))
    || (end == k && NonePreferred(words, prefix, 0, k))
  }

  lemma {:induction false} WidthMonotone(words: seq<string>, prefix: nat, i: nat, j: nat)
    requires 1 <= i <= j <= |words|
    ensures Width(prefix, words[..i]) <= Width(prefix, words[..j])
    ensures i < j ==> Width(prefix, words[..i]) < Width(prefix, words[..j])
    decreases j
  {
    if i < j {
      WidthMonotone(words, prefix, i, j - 1);
      assert words[..j] == words[..j - 1] + [words[j - 1]];
      WidthGrows(prefix, words[..j - 1], words[j - 1]);
    }
  }

  /** The description leaves no choice. */
  lemma LineEndIsUnique(words: seq<string>, prefix: nat, a: nat, b: nat)
    requires EndsLine(words, prefix, a) && EndsLine(words, prefix, b)
    ensures a == b
  {
    var k: nat :| Fullest(words, prefix, k) && EndsFullest(words, prefix, k, a);
    var l: nat :| Fullest(words, prefix, l) && EndsFullest(words, prefix, l, b);
    assert k == l;
  }

  // ---------------------------------------------------------------- wrap, as it computes

  function Fill(words: seq<string>, prefix: nat, k: nat): (end: nat)
    requires 1 <= k <= |words|
    requires forall j :: 1 < j <= k ==> Width(prefix, words[..j]) <= MAX_WIDTH
    ensures Fullest(words, prefix, end)
    decreases |words| - k
  {
    if k == |words| || Width(prefix, words[..k + 1]) > MAX_WIDTH then k else Fill(words, prefix, k + 1)
  }

  function Scan(words: seq<string>, prefix: nat, k: nat, m: nat): (end: nat)
    requires 1 <= m <= k <= |words| && Fullest(words, prefix, k)
    requires NonePreferred(words, prefix, m, k)
    ensures 1 <= end <= k && EndsFullest(words, prefix, k, end)
    decreases m
  {
    if m <= 1 || Width(prefix, words[..m]) < MAX_WIDTH - SENTENCE_WINDOW then
      NarrowerIsNotPreferred(words, prefix, m);
      k
    else if Boundary(words, m) then m
    else Scan(words, prefix, k, m - 1)
  }

  lemma NarrowerIsNotPreferred(words: seq<string>, prefix: nat, m: nat)
    requires 1 <= m <= |words| && (m <= 1 || Width(prefix, words[..m]) < MAX_WIDTH - SENTENCE_WINDOW)
    ensures forall j :: 0 <= j <= m ==> !Preferred(words, prefix, j)
  {
    forall j | 0 <= j <= m ensures !Preferred(words, prefix, j) {
      if 1 <= j { WidthMonotone(words, prefix, j, m); }
    }
  }

  function LineEnd(words: seq<string>, prefix: nat): (end: nat)
    requires words != []
    ensures 1 <= end <= |words| && EndsLine(words, prefix, end)
  {
    var k := Fill(words, prefix, 1);
    Scan(words, prefix, k, k)
  }

  /** The words of each line. */
  function Segments(words: seq<string>, first: nat, cont: nat): (segments: seq<seq<string>>)
    decreases |words|
  {
    if words == [] then []
    else [words[..LineEnd(words, first)]] + Segments(words[LineEnd(words, first)..], cont, cont)
  }

  function Lines(segments: seq<seq<string>>, first: string, cont: string): seq<string> {
    if segments == [] then [] else [first + Join(segments[0])] + Lines(segments[1..], cont, cont)
  }

  function Wrap(words: seq<string>, first: string, cont: string): seq<string> {
    Lines(Segments(words, |first|, |cont|), first, cont)
  }

  function Concat(segments: seq<seq<string>>): seq<string> {
    if segments == [] then [] else segments[0] + Concat(segments[1..])
  }

  // ---------------------------------------------------------------- what wrapping keeps

  /** The prefix width of line `i`. */
  function PrefixOf(first: nat, cont: nat, i: nat): nat {
    if i == 0 then first else cont
  }

  /** A line fits, or holds a single word. */
  ghost predicate Fits(prefix: nat, line: seq<string>) {
    line != [] && (|line| == 1 || Width(prefix, line) <= MAX_WIDTH)
  }

  /** A line stops before `next` because that is too wide, or at a sentence boundary near the margin. */
  ghost predicate StopsWell(prefix: nat, line: seq<string>, next: string) {
    || Width(prefix, line) + 1 + |next| > MAX_WIDTH
    || (Width(prefix, line) >= MAX_WIDTH - SENTENCE_WINDOW
        && line != [] && EndsSentence(line[|line| - 1]) && StartsSentence(next))
  }

  ghost predicate WellWrapped(lines: seq<seq<string>>, first: nat, cont: nat) {
    && (forall i :: 0 <= i < |lines| ==> Fits(PrefixOf(first, cont, i), lines[i]))
    && (forall i, j :: 0 <= i && j == i + 1 < |lines| && lines[j] != [] ==> StopsWell(PrefixOf(first, cont, i), lines[i], lines[j][0]))
  }

  /**
   Wrapping conserves the words in order and leaves no line without one. Every line fits or holds a
   single word, and a line that stops although the next word would fit ends a sentence within ten
   columns of the margin.
   */
  lemma {:induction false} WrapConserves(words: seq<string>, first: nat, cont: nat)
    ensures Concat(Segments(words, first, cont)) == words
    ensures WellWrapped(Segments(words, first, cont), first, cont)
    decreases |words|
  {
    hide Segments, EndsLine, WellWrapped, LineEnd;
    if words == [] {
      NoSegments(first, cont);
    } else {
      var end := LineEnd(words, first);
      var rest := words[end..];
      WrapConserves(rest, cont, cont);
      FirstSegment(words, first, cont);
      FirstLine(words, first, end);
      assert words == words[..end] + rest;
      var more := Segments(rest, cont, cont);
      if rest == [] {
        NoSegments(cont, cont);
      } else {
        FirstSegment(rest, cont, cont);
        assert more[0][0] == words[end];
      }
      OneMore(words[..end], more, first, cont);
    }
  }

  lemma NoSegments(first: nat, cont: nat)
    ensures Segments([], first, cont) == [] && WellWrapped([], first, cont)
  {
  }

  lemma FirstSegment(words: seq<string>, first: nat, cont: nat)
    requires words != []
    ensures var end := LineEnd(words, first);
            && Segments(words, first, cont) == [words[..end]] + Segments(words[end..], cont, cont)
            && Segments(words, first, cont)[0][0] == words[0]
  {
  }

  lemma OneMore(line: seq<string>, more: seq<seq<string>>, first: nat, cont: nat)
    requires WellWrapped(more, cont, cont) && Fits(first, line)
    requires more != [] && more[0] != [] ==> StopsWell(first, line, more[0][0])
    ensures WellWrapped([line] + more, first, cont)
  {
    hide Fits, StopsWell;
    var lines := [line] + more;
    forall i | 0 <= i < |lines| ensures Fits(PrefixOf(first, cont, i), lines[i]) {
      if i > 0 { assert lines[i] == more[i - 1] && Fits(PrefixOf(cont, cont, i - 1), more[i - 1]); }
    }
    forall i, j | 0 <= i && j == i + 1 < |lines| && lines[j] != []
      ensures StopsWell(PrefixOf(first, cont, i), lines[i], lines[j][0])
    {
      if i > 0 {
        assert lines[i] == more[i - 1] && lines[j] == more[j - 1];
        assert StopsWell(PrefixOf(cont, cont, i - 1), more[i - 1], more[j - 1][0]);
      }
    }
  }

  lemma FirstLine(words: seq<string>, prefix: nat, end: nat)
    requires words != [] && EndsLine(words, prefix, end)
    ensures 1 <= end <= |words| && (end == 1 || Width(prefix, words[..end]) <= MAX_WIDTH)
    ensures end < |words| ==>
              || Width(prefix, words[..end]) + 1 + |words[end]| > MAX_WIDTH
              || (Width(prefix, words[..end]) >= MAX_WIDTH - SENTENCE_WINDOW && Boundary(words, end))
  {
    var k: nat :| Fullest(words, prefix, k) && EndsFullest(words, prefix, k, end);
    if end < |words| {
      assert words[..end + 1] == words[..end] + [words[end]];
      WidthGrows(prefix, words[..end], words[end]);
    }
  }
}

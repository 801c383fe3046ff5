/** Comment lines read into blocks, and blocks written back as lines of bounded width. */
module CommentFill {
  import opened CommentText
  import opened Outcomes
  import opened SentenceWrap
  import opened WordTokens

  // ---------------------------------------------------------------- what a line looks like

  predicate Fence(t: string) {
    "```" <= t || "~~~" <= t
  }

  predicate TableRow(t: string) {
    t != [] && t[0] == '|'
  }

  predicate TagLine(t: string) {
    |t| >= 2 && t[0] == '@' && ('a' <= t[1] <= 'z' || 'A' <= t[1] <= 'Z')
  }

  function DigitsFrom(s: string, i: nat): (end: nat)
    requires i <= |s|
    ensures i <= end <= |s| && (end < |s| ==> !('0' <= s[end] <= '9'))
    ensures forall k :: i <= k < end ==> '0' <= s[k] <= '9'
    decreases |s| - i
  {
    if i < |s| && '0' <= s[i] <= '9' then DigitsFrom(s, i + 1) else i
  }

  /** The length of the list bullet at `i`: a dash, star or plus, or a number with a point or bracket. */
  function BulletLength(s: string, i: nat): (n: nat)
    requires i <= |s|
    ensures i + n <= |s| && (n > 0 ==> !White(s[i]))
  {
    if i == |s| then 0
    else if s[i] in "-*+" then 1
    else
      var end := DigitsFrom(s, i);
      if i < end < |s| && s[end] in ".)" then end + 1 - i else 0
  }

  /** Where a list marker ends: leading white space, a bullet and the white space behind it; 0 if there is none. */
  function MarkerEnd(content: string): (end: nat)
    ensures end <= |content|
  {
    var bullet := Lead(content);
    var n := BulletLength(content, bullet);
    var end := LeadFrom(content, bullet + n);
    if n == 0 || end == bullet + n then 0 else end
  }

  // ---------------------------------------------------------------- blocks

  datatype Kind = Plain | Tag | Item

  /** An empty line, a line kept as it is, or a paragraph; only list items have a marker. */
  datatype Block = Empty | Verbatim(text: string) | Para(kind: Kind, marker: string, words: seq<string>)

  function Spaces(n: nat): (s: string)
    ensures |s| == n && forall k :: 0 <= k < n ==> s[k] == ' '
  {
    seq(n, _ => ' ')
  }

  function Hang(b: Block): string
    requires b.Para?
  {
    match b.kind
    case Plain => ""
    case Tag => "  "
    case Item => Spaces(|b.marker|)
  }

  datatype Reading = Reading(done: seq<Block>, para: Option<Block>, fenced: bool)

  function Flush(s: Reading): Reading {
    if s.para.Some? then s.(done := s.done + [s.para.value], para := None) else s
  }

  function Keep(s: Reading, b: Block): Reading {
    var t := Flush(s);
    t.(done := t.done + [b])
  }

  function Open(s: Reading, b: Block): Reading {
    Flush(s).(para := Some(b))
  }

  /** One line: it breaks the open paragraph, continues it or starts one. */
  function Read(s: Reading, content: string): Reading {
    var t := Trim(content);
    if s.fenced then s.(done := s.done + [Verbatim(content)], fenced := !Fence(t))
    else if Fence(t) then Keep(s, Verbatim(content)).(fenced := true)
    else if t == [] then Keep(s, Empty)
    else if TableRow(t) then Keep(s, Verbatim(content))
    else if TagLine(t) then Open(s, Para(Tag, "", Tokenize(t)))
    else if MarkerEnd(content) > 0 then
      Open(s, Para(Item, content[..MarkerEnd(content)], Tokenize(content[MarkerEnd(content)..])))
    else if s.para.Some? && s.para.value.Para? then
      s.(para := Some(s.para.value.(words := s.para.value.words + Tokenize(t))))
    else Open(s, Para(Plain, "", Tokenize(t)))
  }

  function ReadAll(s: Reading, contents: seq<string>): Reading
    decreases |contents|
  {
    if contents == [] then s else Read(ReadAll(s, contents[..|contents| - 1]), contents[|contents| - 1])
  }

  function Blocks(contents: seq<string>): seq<Block> {
    Flush(ReadAll(Reading([], None, false), contents)).done
  }

  function Show(b: Block, linePrefix: string, blankLine: string): seq<string> {
    match b
    case Empty => [blankLine]
    case Verbatim(text) => [linePrefix + text]
    case Para(_, marker, words) => Wrap(words, linePrefix + marker, linePrefix + Hang(b))
  }

  function ShowAll(blocks: seq<Block>, linePrefix: string, blankLine: string): seq<string> {
    if blocks == [] then []
    else ShowAll(blocks[..|blocks| - 1], linePrefix, blankLine) + Show(blocks[|blocks| - 1], linePrefix, blankLine)
  }

  /** `fillContentLines` as a function. */
  function FillLines(contents: seq<string>, linePrefix: string, blankLine: string): seq<string> {
    ShowAll(Blocks(contents), linePrefix, blankLine)
  }

  lemma {:induction false} ReadAllSplits(s: Reading, a: seq<string>, b: seq<string>)
    ensures ReadAll(s, a + b) == ReadAll(ReadAll(s, a), b)
    decreases |b|
  {
    if b == [] {
      assert a + b == a;
    } else {
      var front := b[..|b| - 1];
      ReadAllSplits(s, a, front);
      assert (a + b)[..|a + b| - 1] == a + front;
    }
  }

  // ---------------------------------------------------------------- what reading produces

  ghost predicate MarkerOk(marker: string) {
    marker != [] && MarkerEnd(marker) == |marker|
  }

  /** A bullet with white space behind it: the word starts a list wherever it starts a line. */
  predicate BulletInside(w: string) {
    var n := BulletLength(w, 0);
    n > 0 && n < |w| && White(w[n])
  }

  predicate BareBullet(w: string) {
    w != [] && BulletLength(w, 0) == |w|
  }

  ghost predicate ParaOk(b: Block)
    requires b.Para?
  {
    && b.words != [] && b.words[0] != []
    && match b.kind
       case Plain => b.marker == "" && !Fence(b.words[0]) && !TableRow(b.words[0]) && !TagLine(b.words[0]) && !BulletInside(b.words[0])
       case Tag => b.marker == "" && TagLine(b.words[0])
       case Item => MarkerOk(b.marker)
  }

  /** Whether a fence is open behind these blocks. */
  ghost function Fenced(blocks: seq<Block>): bool {
    if blocks == [] then false
    else
      var before := Fenced(blocks[..|blocks| - 1]);
      match blocks[|blocks| - 1]
      case Verbatim(text) => if before then !Fence(Trim(text)) else Fence(Trim(text))
      case _ => before
  }

  ghost predicate BlockOk(before: seq<Block>, b: Block) {
    match b
    case Empty => !Fenced(before)
    case Verbatim(text) => NoTrailingWhite(text) && (Fenced(before) || Fence(Trim(text)) || TableRow(Trim(text)))
    case Para(kind, _, _) =>
      !Fenced(before) && ParaOk(b) && (kind.Plain? ==> before == [] || !before[|before| - 1].Para?)
  }

  /** Blocks that some sequence of lines can be read into. */
  ghost predicate Readable(blocks: seq<Block>) {
    forall j :: 0 <= j < |blocks| ==> BlockOk(blocks[..j], blocks[j])
  }

  /** The state of a reader that has read exactly these blocks. */
  ghost function Canon(blocks: seq<Block>): Reading {
    if blocks != [] && blocks[|blocks| - 1].Para?
    then Reading(blocks[..|blocks| - 1], Some(blocks[|blocks| - 1]), Fenced(blocks))
    else Reading(blocks, None, Fenced(blocks))
  }

  lemma FlushCanon(blocks: seq<Block>)
    ensures Flush(Canon(blocks)).done == blocks && Flush(Canon(blocks)).para.None? && Flush(Canon(blocks)).fenced == Fenced(blocks)
  {
  }

  lemma KeepCanon(blocks: seq<Block>, b: Block)
    ensures !b.Para? ==> Keep(Canon(blocks), b).(fenced := Fenced(blocks + [b])) == Canon(blocks + [b])
    ensures b.Para? && !Fenced(blocks) ==> Open(Canon(blocks), b) == Canon(blocks + [b])
  {
    assert (blocks + [b])[..|blocks|] == blocks;
  }

  lemma {:induction false} AppendReadable(blocks: seq<Block>, b: Block)
    requires Readable(blocks) && BlockOk(blocks, b)
    ensures Readable(blocks + [b])
  {
    var longer := blocks + [b];
    forall j | 0 <= j < |longer| ensures BlockOk(longer[..j], longer[j]) {
      assert longer[..j] == blocks[..j];
      if j == |blocks| { assert blocks[..j] == blocks; }
    }
  }
}

/** Characters and lines as the comment formatter looks at them. */
module CommentText {
  /** White space and line terminators of ECMAScript: what `trim` removes and `\s` matches. */
  predicate White(c: char) {
    || c == ' ' || '\t' <= c <= '\r' || c == '\U{A0}' || c == '\U{1680}' || '\U{2000}' <= c <= '\U{200A}'
    || c == '\U{2028}' || c == '\U{2029}' || c == '\U{202F}' || c == '\U{205F}' || c == '\U{3000}' || c == '\U{FEFF}'
  }

  /** The only characters that separate words. */
  predicate Blank(c: char) {
    c == ' ' || c == '\t'
  }

  /** How much white space a line starts with. */
  function Lead(s: string): (k: nat)
    ensures k <= |s| && (k < |s| ==> !White(s[k]))
    ensures forall i :: 0 <= i < k ==> White(s[i])
  {
    LeadFrom(s, 0)
  }

  function LeadFrom(s: string, i: nat): (k: nat)
    requires i <= |s|
    ensures i <= k <= |s| && (k < |s| ==> !White(s[k]))
    ensures forall j :: i <= j < k ==> White(s[j])
    decreases |s| - i
  {
    if i < |s| && White(s[i]) then LeadFrom(s, i + 1) else i
  }

  function TrimStart(s: string): string {
    s[Lead(s)..]
  }

  function TrimEnd(s: string): string {
    if s != [] && White(s[|s| - 1]) then TrimEnd(s[..|s| - 1]) else s
  }

  function Trim(s: string): string {
    TrimEnd(TrimStart(s))
  }

  predicate NoTrailingWhite(s: string) {
    s == [] || !White(s[|s| - 1])
  }

  /** Not empty, and neither end is white space. */
  predicate Solid(s: string) {
    s != [] && !White(s[0]) && !White(s[|s| - 1])
  }

  lemma {:induction false} TrimEndIs(s: string)
    ensures NoTrailingWhite(TrimEnd(s)) && TrimEnd(s) <= s
    ensures NoTrailingWhite(s) ==> TrimEnd(s) == s
    ensures s != [] && !White(s[0]) ==> TrimEnd(s) != []
  {
    if s != [] && White(s[|s| - 1]) {
      TrimEndIs(s[..|s| - 1]);
    }
  }

  lemma TrimStartDrops(lead: string, s: string)
    requires forall i :: 0 <= i < |lead| ==> White(lead[i])
    requires s == [] || !White(s[0])
    ensures Lead(lead + s) == |lead| && TrimStart(lead + s) == s
  {
    var line := lead + s;
    assert forall i :: 0 <= i < |lead| ==> line[i] == lead[i];
    assert s != [] ==> line[|lead|] == s[0];
  }

  lemma TrimSolid(lead: string, s: string)
    requires (forall i :: 0 <= i < |lead| ==> White(lead[i])) && Solid(s)
    ensures Trim(lead + s) == s
  {
    TrimStartDrops(lead, s);
    TrimEndIs(s);
  }
}

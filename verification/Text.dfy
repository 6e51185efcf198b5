/** String operations with Python's meaning. */
module Text {

  /** `str.isspace` for one character. */
  predicate IsSpace(c: char) {
    || '\t' <= c <= '\r' || '\U{1c}' <= c <= ' ' || c == '\U{85}' || c == '\U{a0}'
    || c == '\U{1680}' || '\U{2000}' <= c <= '\U{200a}' || c == '\U{2028}' || c == '\U{2029}'
    || c == '\U{202f}' || c == '\U{205f}' || c == '\U{3000}'
  }

  function LStrip(s: string): string {
    if s != [] && IsSpace(s[0]) then LStrip(s[1..]) else s
  }

  function RStrip(s: string): string {
    if s != [] && IsSpace(s[|s| - 1]) then RStrip(s[..|s| - 1]) else s
  }

  function Strip(s: string): string { RStrip(LStrip(s)) }

  /** Nothing to strip: no space at either end. */
  predicate Trimmed(s: string) { s != [] ==> !IsSpace(s[0]) && !IsSpace(s[|s| - 1]) }

  predicate StartsWith(s: string, prefix: string) { prefix <= s }

  lemma {:induction false} LStripSuffix(s: string)
    ensures LStrip(s) != [] ==> !IsSpace(LStrip(s)[0]) && LStrip(s)[|LStrip(s)| - 1] == s[|s| - 1]
    ensures |LStrip(s)| <= |s|
  {
    if s != [] && IsSpace(s[0]) {
      LStripSuffix(s[1..]);
    }
  }

  lemma {:induction false} RStripPrefix(s: string)
    ensures RStrip(s) <= s
    ensures RStrip(s) != [] ==> !IsSpace(RStrip(s)[|RStrip(s)| - 1])
  {
    if s != [] && IsSpace(s[|s| - 1]) {
      RStripPrefix(s[..|s| - 1]);
    }
  }

  lemma {:induction false} LStripIs(s: string) returns (before: string)
    ensures s == before + LStrip(s) && forall c :: c in before ==> IsSpace(c)
  {
    if s != [] && IsSpace(s[0]) {
      var more := LStripIs(s[1..]);
      before := [s[0]] + more;
    } else {
      before := "";
    }
  }

  lemma {:induction false} RStripIs(s: string) returns (after: string)
    ensures s == RStrip(s) + after && forall c :: c in after ==> IsSpace(c)
  {
    if s != [] && IsSpace(s[|s| - 1]) {
      var more := RStripIs(s[..|s| - 1]);
      after := more + [s[|s| - 1]];
    } else {
      after := "";
    }
  }

  /** Only space is stripped. */
  lemma StripIs(s: string) returns (before: string, after: string)
    ensures s == before + Strip(s) + after && forall c :: c in before || c in after ==> IsSpace(c)
  {
    before := LStripIs(s);
    after := RStripIs(LStrip(s));
  }

  lemma StripTrims(s: string)
    ensures Trimmed(Strip(s))
    ensures Trimmed(s) ==> Strip(s) == s
  {
    LStripSuffix(s);
    RStripPrefix(LStrip(s));
  }
}

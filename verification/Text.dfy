/** Trimming, for the texts this system reads: ASCII white space only. */
module Text {

  predicate IsSpace(c: char) {
    c == ' ' || '\t' <= c <= '\r'
  }

  function TrimStart(s: string): string {
    if |s| > 0 && IsSpace(s[0]) then TrimStart(s[1..]) else s
  }

  function TrimEnd(s: string): string {
    if |s| > 0 && IsSpace(s[|s| - 1]) then TrimEnd(s[..|s| - 1]) else s
  }

  function Trim(s: string): string {
    TrimEnd(TrimStart(s))
  }

  predicate Unpadded(s: string) {
    |s| > 0 ==> !IsSpace(s[0]) && !IsSpace(s[|s| - 1])
  }

  /** White space in front and behind goes, and nothing else does. */
  lemma TrimStrips(front: string, s: string, behind: string)
    requires Unpadded(s) && |s| > 0
    requires forall c :: c in front || c in behind ==> c in {' ', '\t', '\n', '\r', 11 as char, 12 as char}
    ensures Trim(front + s + behind) == s
  {
    assert (s + behind)[0] == s[0];
    StartStrips(front, s + behind);
    assert front + s + behind == front + (s + behind);
    EndStrips(s, behind);
  }

  lemma {:induction false} StartStrips(front: string, s: string)
    requires |s| > 0 && !IsSpace(s[0]) && forall c :: c in front ==> IsSpace(c)
    ensures TrimStart(front + s) == s
  {
    if |front| == 0 {
      assert front + s == s;
    } else {
      assert (front + s)[1..] == front[1..] + s && front[0] in front;
      assert forall c :: c in front[1..] ==> c in front;
      StartStrips(front[1..], s);
    }
  }

  lemma {:induction false} EndStrips(s: string, behind: string)
    requires |s| > 0 && !IsSpace(s[|s| - 1]) && forall c :: c in behind ==> IsSpace(c)
    ensures TrimEnd(s + behind) == s
  {
    if |behind| == 0 {
      assert s + behind == s;
    } else {
      assert (s + behind)[..|s + behind| - 1] == s + behind[..|behind| - 1] && behind[|behind| - 1] in behind;
      assert forall c :: c in behind[..|behind| - 1] ==> c in behind;
      EndStrips(s, behind[..|behind| - 1]);
    }
  }

  lemma TrimUnpadded(s: string)
    requires Unpadded(s)
    ensures Trim(s) == s
  {
  }
}

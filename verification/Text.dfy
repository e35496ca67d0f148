/** `str.strip`. */
module Text {

  /** The characters for which Python's `str.isspace` holds. */
  predicate IsSpace(c: char) {
    '\t' <= c <= '\r' || '\U{1c}' <= c <= '\U{20}' || c == '\U{85}' || c == '\U{a0}' || c == '\U{1680}' ||
    '\U{2000}' <= c <= '\U{200a}' || c == '\U{2028}' || c == '\U{2029}' || c == '\U{202f}' || c == '\U{205f}' ||
    c == '\U{3000}'
  }

  ghost predicate Blank(s: string, from: nat, to: nat) {
    forall i :: from <= i < to && i < |s| ==> IsSpace(s[i])
  }

  /** The position of the first character at or after `i` that is no space. */
  function Start(s: string, i: nat): (r: nat)
    requires i <= |s|
    ensures i <= r <= |s| && Blank(s, i, r) && (r < |s| ==> !IsSpace(s[r]))
    decreases |s| - i
  {
    if i < |s| && IsSpace(s[i]) then Start(s, i + 1) else i
  }

  /** The position after the last character before `j` that is no space, not before `from`. */
  function End(s: string, from: nat, j: nat): (r: nat)
    requires from <= j <= |s|
    ensures from <= r <= j && Blank(s, r, j) && (from < r ==> !IsSpace(s[r - 1]))
    decreases j
  {
    if from < j && IsSpace(s[j - 1]) then End(s, from, j - 1) else j
  }

  function Strip(s: string): string {
    var i := Start(s, 0);
    s[i..End(s, i, |s|)]
  }

  /** Stripping leaves nothing more to strip, and leaves nothing at all exactly of a string
      of spaces. */
  lemma StripIdempotent(s: string)
    ensures Strip(Strip(s)) == Strip(s)
    ensures Strip(s) == "" <==> Blank(s, 0, |s|)
  {
    var i := Start(s, 0);
    var j := End(s, i, |s|);
    var t := Strip(s);
    if i < j {
      assert t[0] == s[i] && t[|t| - 1] == s[j - 1];
      assert Start(t, 0) == 0 && End(t, 0, |t|) == |t|;
    }
  }

  /** What stripping takes away is spaces at both ends and nothing else, and it takes them all. */
  lemma StripExactly(s: string) returns (front: string, back: string)
    ensures s == front + Strip(s) + back
    ensures (forall i :: 0 <= i < |front| ==> IsSpace(front[i])) && (forall i :: 0 <= i < |back| ==> IsSpace(back[i]))
    ensures Strip(s) != "" ==> !IsSpace(Strip(s)[0]) && !IsSpace(Strip(s)[|Strip(s)| - 1])
  {
    var i := Start(s, 0);
    var j := End(s, i, |s|);
    front, back := s[..i], s[j..];
  }
}

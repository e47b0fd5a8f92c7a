/** The one QString operation the dialogs rely on: `trimmed()`. */
module QtString {

  /** QChar::isSpace for the ASCII range (other Unicode spaces are not modelled). */
  predicate IsSpace(ch: char) {
    ch == ' ' || ch == '\t' || ch == '\n' || ch == '\r' || ch == '\U{0B}' || ch == '\U{0C}'
  }

  function LeadingSpaces(s: string): (n: nat)
    ensures n <= |s|
    ensures forall i :: 0 <= i < n ==> IsSpace(s[i])
    ensures n < |s| ==> !IsSpace(s[n])
  {
    if |s| == 0 || !IsSpace(s[0]) then 0 else 1 + LeadingSpaces(s[1..])
  }

  function TrailingSpaces(s: string): (n: nat)
    ensures n <= |s|
    ensures forall i :: |s| - n <= i < |s| ==> IsSpace(s[i])
    ensures n < |s| ==> !IsSpace(s[|s| - n - 1])
  {
    if |s| == 0 || !IsSpace(s[|s| - 1]) then 0 else 1 + TrailingSpaces(s[..|s| - 1])
  }

  /** QString::trimmed: the string without its leading and trailing whitespace. */
  function Trimmed(s: string): (t: string)
    ensures |t| <= |s|
    ensures t == [] || (!IsSpace(t[0]) && !IsSpace(t[|t| - 1]))
    ensures t == [] <==> forall i :: 0 <= i < |s| ==> IsSpace(s[i])
    ensures LeadingSpaces(s) + |t| <= |s| && t == s[LeadingSpaces(s)..LeadingSpaces(s) + |t|]
    ensures forall i :: LeadingSpaces(s) + |t| <= i < |s| ==> IsSpace(s[i])
  {
    var lead := LeadingSpaces(s);
    if lead == |s| then [] else
      var rest := s[lead..];
      var trail := TrailingSpaces(rest);
      assert !IsSpace(rest[0]);
      var t := rest[..|rest| - trail];
      assert t == s[lead..lead + |t|];
      t
  }

  lemma TrimmedIdempotent(s: string)
    ensures Trimmed(Trimmed(s)) == Trimmed(s)
  {
    var t := Trimmed(s);
    if t != [] {
      assert LeadingSpaces(t) == 0;
      assert TrailingSpaces(t) == 0;
    }
  }

  /** Whitespace typed around an already trimmed name is dropped again. */
  lemma TrimmedPadded(s: string)
    requires s != "" && Trimmed(s) == s
    ensures Trimmed(" " + s + " ") == s
  {
    var p := " " + s + " ";
    assert p[1..] == s + " ";
    assert LeadingSpaces(s + " ") == 0;
    assert LeadingSpaces(p) == 1;
    var rest := p[1..];
    assert rest[..|rest| - 1] == s;
    assert TrailingSpaces(s) == 0;
    assert TrailingSpaces(rest) == 1;
  }
}

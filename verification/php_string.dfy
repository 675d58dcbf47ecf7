/** The two PHP string primitives the wrapper relies on. */
module PhpString {

  /** `strtoupper` on one character: ASCII lower-case letters only. */
  function UpperChar(c: char): (u: char)
    ensures 'a' <= c <= 'z' ==> 'A' <= u <= 'Z' && u as int == c as int - 32
    ensures !('a' <= c <= 'z') ==> u == c
  {
    if 'a' <= c <= 'z' then (c as int - 32) as char else c
  }

  /** `strtoupper`: upper-cases every character, keeping the length. */
  function Upper(s: string): (r: string)
    ensures |r| == |s|
    ensures forall i :: 0 <= i < |s| ==> r[i] == UpperChar(s[i])
  {
    seq(|s|, i requires 0 <= i < |s| => UpperChar(s[i]))
  }

  /** `empty()` applied to a string: true for "" and for "0". */
  predicate IsEmpty(s: string)
  {
    s == "" || s == "0"
  }

  /** Only "" and "0" are `empty()`: a blank, a doubled zero or the word
      "false" are not. */
  lemma EmptyStrings()
    ensures IsEmpty("") && IsEmpty("0")
    ensures !IsEmpty(" ") && !IsEmpty("00") && !IsEmpty("0.0") && !IsEmpty("false")
  {
  }
}

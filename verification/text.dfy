/** ASCII stand-ins for the Python string methods the two scripts call:
    `str.strip()`, `str.lower()`, `str.upper()` and `str.isalpha()`. */
module Text {

  /** The characters `str.isspace()` accepts among the first 128 code points:
      tab through carriage return, the four separators 28..31, and space. */
  predicate IsSpace(c: char)
  {
    9 <= c as int <= 13 || 28 <= c as int <= 32
  }

  predicate IsUpperLetter(c: char) { 'A' <= c <= 'Z' }

  predicate IsLowerLetter(c: char) { 'a' <= c <= 'z' }

  /** `c.isalpha()` restricted to ASCII. */
  predicate IsLetter(c: char) { IsUpperLetter(c) || IsLowerLetter(c) }

  function LowerChar(c: char): (r: char)
    ensures IsLetter(c) <==> IsLowerLetter(r)
    ensures !IsUpperLetter(c) ==> r == c
  {
    if IsUpperLetter(c) then (c as int - 'A' as int + 'a' as int) as char else c
  }

  function UpperChar(c: char): (r: char)
    ensures IsLetter(c) <==> IsUpperLetter(r)
    ensures !IsLowerLetter(c) ==> r == c
  {
    if IsLowerLetter(c) then (c as int - 'a' as int + 'A' as int) as char else c
  }

  /** `s.lower()`: same length, every letter in its own lower-case form,
      nothing else touched. */
  function Lower(s: string): (r: string)
    ensures |r| == |s|
    ensures forall i :: 0 <= i < |r| ==> !IsUpperLetter(r[i])
    ensures forall i :: 0 <= i < |s| ==> (IsLetter(s[i]) <==> IsLetter(r[i]))
    ensures forall i :: 0 <= i < |s| && !IsUpperLetter(s[i]) ==> r[i] == s[i]
    ensures forall i :: 0 <= i < |s| ==> UpperChar(r[i]) == UpperChar(s[i])
  {
    seq(|s|, i requires 0 <= i < |s| => LowerChar(s[i]))
  }

  /** `s.upper()`: same length, every letter in its own upper-case form,
      nothing else touched. */
  function Upper(s: string): (r: string)
    ensures |r| == |s|
    ensures forall i :: 0 <= i < |r| ==> !IsLowerLetter(r[i])
    ensures forall i :: 0 <= i < |s| ==> (IsLetter(s[i]) <==> IsLetter(r[i]))
    ensures forall i :: 0 <= i < |s| && !IsLowerLetter(s[i]) ==> r[i] == s[i]
    ensures forall i :: 0 <= i < |s| ==> LowerChar(r[i]) == LowerChar(s[i])
  {
    seq(|s|, i requires 0 <= i < |s| => UpperChar(s[i]))
  }

  /** `s.lstrip()`: drops the leading white space. */
  function StripStart(s: string): (r: string)
    ensures r == [] || !IsSpace(r[0])
    ensures |r| <= |s|
  {
    if s != [] && IsSpace(s[0]) then StripStart(s[1..]) else s
  }

  /** `s.rstrip()`: drops the trailing white space. */
  function StripEnd(s: string): (r: string)
    ensures r == [] || !IsSpace(r[|r| - 1])
    ensures |r| <= |s|
    ensures r != [] ==> r[0] == s[0]
  {
    if s != [] && IsSpace(s[|s| - 1]) then StripEnd(s[..|s| - 1]) else s
  }

  /** `s.strip()`. */
  function Strip(s: string): (r: string)
    ensures r == [] || (!IsSpace(r[0]) && !IsSpace(r[|r| - 1]))
  {
    StripEnd(StripStart(s))
  }

  /** `s.lstrip()` keeps a suffix of `s` and drops only white space. */
  lemma {:induction false} StripStartIsSuffix(s: string) returns (k: nat)
    ensures k <= |s| && StripStart(s) == s[k..]
    ensures forall j :: 0 <= j < k ==> IsSpace(s[j])
  {
    if s != [] && IsSpace(s[0]) {
      var k' := StripStartIsSuffix(s[1..]);
      k := k' + 1;
      assert s[1..][k'..] == s[k..];
    } else {
      k := 0;
    }
  }

  /** `s.rstrip()` keeps a prefix of `s` and drops only white space. */
  lemma {:induction false} StripEndIsPrefix(s: string) returns (k: nat)
    ensures k <= |s| && StripEnd(s) == s[..k]
    ensures forall j :: k <= j < |s| ==> IsSpace(s[j])
  {
    if s != [] && IsSpace(s[|s| - 1]) {
      k := StripEndIsPrefix(s[..|s| - 1]);
      assert s[..|s| - 1][..k] == s[..k];
    } else {
      k := |s|;
    }
  }

  /** A string strips to nothing exactly when it is all white space. */
  lemma StripIsEmpty(s: string)
    ensures Strip(s) == [] <==> forall j :: 0 <= j < |s| ==> IsSpace(s[j])
  {
    var a := StripStartIsSuffix(s);
    var b := StripEndIsPrefix(s[a..]);
    if Strip(s) == [] {
      forall j | 0 <= j < |s|
        ensures IsSpace(s[j])
      {
        if j >= a {
          assert s[a..][j - a] == s[j];
        }
      }
    }
  }
}

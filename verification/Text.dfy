// Letter case and outer blanks of ASCII text.
module Text {

  function UpperChar(c: char): char {
    if 'a' <= c <= 'z' then 'A' + (c - 'a') else c
  }

  function LowerChar(c: char): char {
    if 'A' <= c <= 'Z' then 'a' + (c - 'A') else c
  }

  function Each(s: string, f: char -> char): string {
    seq(|s|, i requires 0 <= i < |s| => f(s[i]))
  }

  function Upper(s: string): string {
    Each(s, UpperChar)
  }

  predicate IsLower(c: char) {
    97 <= c as int <= 122
  }

  predicate IsUpper(c: char) {
    65 <= c as int <= 90
  }

  // The same character, or the two cases of one letter: they are 32 apart.
  predicate SameLetter(c: char, d: char) {
    c == d || (IsLower(c) && c as int - 32 == d as int) || (IsLower(d) && d as int - 32 == c as int)
  }

  predicate SameLetters(s: string, t: string) {
    |s| == |t| && forall i :: 0 <= i < |s| ==> SameLetter(s[i], t[i])
  }

  lemma UpperCharIs(c: char, d: char)
    ensures SameLetter(UpperChar(c), c) && !IsLower(UpperChar(c))
    ensures UpperChar(c) == UpperChar(d) <==> SameLetter(c, d)
  {
  }

  lemma LowerCharIs(c: char)
    ensures SameLetter(LowerChar(c), c) && !IsUpper(LowerChar(c))
  {
  }

  // The upper-case text has the same letters and no lower-case one, and is the same for exactly the texts
  // that have the same letters.
  lemma UpperIs(s: string, t: string)
    ensures SameLetters(Upper(s), s) && forall c :: c in Upper(s) ==> !IsLower(c)
    ensures Upper(s) == Upper(t) <==> SameLetters(s, t)
  {
    forall i | 0 <= i < |s|
      ensures SameLetter(Upper(s)[i], s[i]) && !IsLower(Upper(s)[i])
      ensures i < |t| ==> (Upper(s)[i] == Upper(t)[i] <==> SameLetter(s[i], t[i]))
    {
      UpperCharIs(s[i], if i < |t| then t[i] else s[i]);
    }
  }

  lemma LowerIs(s: string)
    ensures SameLetters(Each(s, LowerChar), s) && forall c :: c in Each(s, LowerChar) ==> !IsUpper(c)
  {
    forall i | 0 <= i < |s|
      ensures SameLetter(Each(s, LowerChar)[i], s[i]) && !IsUpper(Each(s, LowerChar)[i])
    {
      LowerCharIs(s[i]);
    }
  }

  predicate IsSpace(c: char) {
    c == ' ' || '\t' <= c <= '\r' || 28 as char <= c <= 31 as char
  }

  function Strip(s: string): string {
    if s == "" then ""
    else if IsSpace(s[0]) then Strip(s[1..])
    else if IsSpace(s[|s| - 1]) then Strip(s[..|s| - 1])
    else s
  }

  // Stripping takes off exactly the blanks around the text.
  lemma {:induction false} StripTrims(s: string) returns (before: string, after: string)
    ensures s == before + Strip(s) + after
    ensures forall c :: c in before + after ==> IsSpace(c)
    ensures Strip(s) != "" ==> !IsSpace(Strip(s)[0]) && !IsSpace(Strip(s)[|Strip(s)| - 1])
  {
    before, after := "", "";
    if s == "" {
    } else if IsSpace(s[0]) {
      before, after := StripTrims(s[1..]);
      before := [s[0]] + before;
    } else if IsSpace(s[|s| - 1]) {
      before, after := StripTrims(s[..|s| - 1]);
      after := after + [s[|s| - 1]];
    }
  }
}

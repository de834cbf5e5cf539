/** The string functions of the standard library the model needs. */
module Text {

  /** unicode.ToUpper, as far as comparing with ASCII text can tell: the ASCII letters and the two
      others whose upper case is ASCII, dotless i and long s. */
  function UpperChar(c: char): char
  {
    if 'a' <= c <= 'z' then c - 'a' + 'A'
    else if c == '\U{131}' then 'I'
    else if c == '\U{17F}' then 'S'
    else c
  }

  /** strings.ToUpper. */
  function Upper(s: string): string
  {
    if s == "" then "" else [UpperChar(s[0])] + Upper(s[1..])
  }

  /** Character by character: lower-case letters move up by 32, dotless i and long s become I and S,
      everything else stays. */
  lemma {:induction false} UpperByChar(s: string, i: nat)
    requires i < |s|
    ensures |Upper(s)| == |s|
    ensures Upper(s)[i] as int ==
              if 97 <= s[i] as int <= 122 then s[i] as int - 32 else if s[i] as int == 305 then 73
              else if s[i] as int == 383 then 83 else s[i] as int
  {
    if |s| > 1 { UpperByChar(s[1..], if i > 0 then i - 1 else 0); }
  }

  lemma {:induction false} UpperLength(s: string)
    ensures |Upper(s)| == |s|
  {
    if s != "" { UpperLength(s[1..]); }
  }

  /** Text without lower-case letters is its own upper case. */
  lemma {:induction false} UpperFixed(s: string)
    requires forall i :: 0 <= i < |s| ==> UpperChar(s[i]) == s[i]
    ensures Upper(s) == s
  {
    if s != "" { UpperFixed(s[1..]); }
  }
}

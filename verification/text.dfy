/** The pieces of Python's `str` methods the program relies on: `strip`, `upper`, `lower`. */
module Text {

  /** `c.isspace()`: the characters `str.strip()` removes, by code point. */
  predicate IsSpace(c: char)
  {
    var n := c as int;
    || 0x09 <= n <= 0x0D || 0x1C <= n <= 0x20 || n == 0x85 || n == 0xA0 || n == 0x1680
    || 0x2000 <= n <= 0x200A || n == 0x2028 || n == 0x2029 || n == 0x202F || n == 0x205F
    || n == 0x3000
  }

  predicate AllSpace(s: string)
  {
    forall i :: 0 <= i < |s| ==> IsSpace(s[i])
  }

  function DropLeading(s: string): (r: string)
    ensures |r| <= |s| && s[|s| - |r|..] == r
    ensures AllSpace(s[..|s| - |r|])
    ensures r == [] || !IsSpace(r[0])
  {
    if |s| > 0 && IsSpace(s[0]) then DropLeading(s[1..]) else s
  }

  function DropTrailing(s: string): (r: string)
    ensures |r| <= |s| && s[..|r|] == r
    ensures AllSpace(s[|r|..])
    ensures r == [] || !IsSpace(r[|r| - 1])
  {
    if |s| > 0 && IsSpace(s[|s| - 1]) then
      var r := DropTrailing(s[..|s| - 1]);
      assert s[|r|..] == s[..|s| - 1][|r|..] + [s[|s| - 1]];
      r
    else s
  }

  /** How many white-space characters `s` starts with. */
  function LeadingSpace(s: string): (n: nat)
    ensures n <= |s| && AllSpace(s[..n])
    ensures n == |s| || !IsSpace(s[n])
  {
    var t := DropLeading(s);
    assert t != [] ==> s[|s| - |t|] == t[0];
    |s| - |t|
  }

  /** `s.strip()`: `s` without its leading and trailing white space. */
  function Strip(s: string): (r: string)
    ensures r == [] || (!IsSpace(r[0]) && !IsSpace(r[|r| - 1]))
    ensures r == [] <==> AllSpace(s)
  {
    var t := DropLeading(s);
    assert AllSpace(s) ==> t == [];
    assert t == [] ==> s == s[..|s|];
    DropTrailing(t)
  }

  /** The stripped text is the slice of `s` that starts right after its leading white space. */
  lemma StripSlice(s: string)
    ensures LeadingSpace(s) + |Strip(s)| <= |s|
    ensures Strip(s) == s[LeadingSpace(s)..LeadingSpace(s) + |Strip(s)|]
  {
    AfterLeading(s);
    StripOfRest(s);
    SliceAfter(s, LeadingSpace(s), DropLeading(s), Strip(s));
  }

  /** Only white space follows the stripped text in `s`. */
  lemma StripTail(s: string)
    ensures LeadingSpace(s) + |Strip(s)| <= |s|
    ensures AllSpace(s[LeadingSpace(s) + |Strip(s)|..])
  {
    var t, r := DropLeading(s), Strip(s);
    var k := LeadingSpace(s);
    assert s[k..] == t && t[..|r|] == r;
    SpaceAfter(s, k, t, r);
  }

  /** Past the leading white space, `s` is what dropping it leaves. */
  lemma AfterLeading(s: string)
    ensures s[LeadingSpace(s)..] == DropLeading(s)
  {
    assert LeadingSpace(s) == |s| - |DropLeading(s)|;
  }

  /** The stripped text is a prefix of what dropping the leading white space leaves. */
  lemma StripOfRest(s: string)
    ensures |Strip(s)| <= |DropLeading(s)| && DropLeading(s)[..|Strip(s)|] == Strip(s)
  {
    assert Strip(s) == DropTrailing(DropLeading(s));
  }

  /** A prefix `r` of the suffix `t == s[k..]` is the slice `s[k..k + |r|]`. */
  lemma SliceAfter(s: string, k: nat, t: string, r: string)
    requires k <= |s| && s[k..] == t && |r| <= |t| && t[..|r|] == r
    ensures k + |r| <= |s| && r == s[k..k + |r|]
  {
  }

  /** White space only after the prefix `r` of `t == s[k..]` is white space only after `s[k..k + |r|]`. */
  lemma SpaceAfter(s: string, k: nat, t: string, r: string)
    requires k <= |s| && s[k..] == t && |r| <= |t| && AllSpace(t[|r|..])
    ensures k + |r| <= |s| && AllSpace(s[k + |r|..])
  {
    assert t[|r|..] == s[k + |r|..];
  }

  /** Stripping twice changes nothing: a stripped text has no white space left to remove. */
  lemma StripIdempotent(s: string)
    ensures Strip(Strip(s)) == Strip(s)
  {
  }

  /** `c.upper()` for ASCII, Latin-1 and the long s; every other character is left as it is. */
  function UpperOf(c: char): (r: string)
    ensures |r| >= 1
  {
    var n := c as int;
    if 'a' <= c <= 'z' then [(n - 32) as char]
    else if n == 0xDF then "SS"                          // sharp s
    else if 0xE0 <= n <= 0xFE && n != 0xF7 then [(n - 32) as char]
    else if n == 0xFF then [0x178 as char]               // y with diaeresis
    else if n == 0xB5 then [0x39C as char]               // micro sign becomes capital mu
    else if n == 0x17F then "S"                          // long s
    else [c]
  }

  /** `s.upper()`. */
  function UpperText(s: string): (r: string)
    ensures |r| >= |s|
  {
    if |s| == 0 then [] else UpperOf(s[0]) + UpperText(s[1..])
  }

  /**
   * `c.lower()` for the capitals of ASCII, Latin-1 and Latin Extended-A, except U+0130, whose
   * lower case is two characters; every other character is left as it is.
   */
  function LowerOf(c: char): char
  {
    var n := c as int;
    if 'A' <= c <= 'Z' then (n + 32) as char
    else if 0xC0 <= n <= 0xDE && n != 0xD7 then (n + 32) as char
    else if (0x100 <= n <= 0x12F || 0x132 <= n <= 0x137 || 0x14A <= n <= 0x177) && n % 2 == 0 then
      (n + 1) as char                                    // capital before its small letter
    else if (0x139 <= n <= 0x148 || 0x179 <= n <= 0x17E) && n % 2 == 1 then (n + 1) as char
    else if n == 0x178 then 0xFF as char                 // Y with diaeresis
    else c
  }

  /** `s.lower()`. */
  function LowerText(s: string): (r: string)
    ensures |r| == |s|
    ensures forall i :: 0 <= i < |s| ==> r[i] == LowerOf(s[i])
  {
    if |s| == 0 then [] else [LowerOf(s[0])] + LowerText(s[1..])
  }

  /** The only texts whose upper case is a single letter `L` are one character long. */
  lemma {:induction false} UpperSingle(s: string, L: char)
    requires UpperText(s) == [L]
    ensures |s| == 1 && UpperOf(s[0]) == [L]
  {
    assert |s| >= 1;
    assert UpperText(s) == UpperOf(s[0]) + UpperText(s[1..]);
  }
}

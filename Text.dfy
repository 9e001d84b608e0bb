/**
 * The few pieces of java.lang.String the services rely on: upper-casing
 * (status normalisation, equalsIgnoreCase), isBlank and trim.
 */
module Text {

  /**
   * Character.toUpperCase (root locale) on Latin-1 and Latin Extended-A,
   * U+0000 to U+017F: ASCII and Latin-1 small letters, the micro sign, y with
   * diaeresis, the case pairs of Latin Extended-A, dotless i and long s.
   * Characters above U+017F are left as they are.
   */
  function UpperChar(c: char): (u: char)
    ensures 'A' <= u <= 'Z' <==> UpperIsAsciiLetter(c)
    ensures c as int > 0x17F ==> u == c
  {
    var n := c as int;
    if 'a' <= c <= 'z' then (n - 32) as char
    else if n == 0xB5 then 0x39C as char
    else if 0xE0 <= n <= 0xFE && n != 0xF7 then (n - 32) as char
    else if n == 0xFF then 0x178 as char
    else if n == 0x131 then 'I'
    else if n == 0x17F then 'S'
    else if (0x100 <= n <= 0x137 || 0x14A <= n <= 0x177) && n % 2 == 1 then (n - 1) as char
    else if (0x139 <= n <= 0x148 || 0x179 <= n <= 0x17E) && n % 2 == 0 then (n - 1) as char
    else c
  }

  /** The characters Character.toUpperCase maps to an ASCII capital letter. */
  predicate UpperIsAsciiLetter(c: char) {
    'A' <= c <= 'Z' || 'a' <= c <= 'z' || c as int == 0x131 || c as int == 0x17F
  }

  /** String.toUpperCase, one character at a time. */
  function ToUpper(s: string): (r: string)
    ensures |r| == |s|
  {
    seq(|s|, i requires 0 <= i < |s| => UpperChar(s[i]))
  }

  /**
   * An upper-cased string is a word of ASCII capitals exactly when every
   * character of the input is one of UpperIsAsciiLetter, which is what a
   * status whitelist decides on.
   */
  lemma ToUpperAsciiWord(s: string)
    ensures (forall i :: 0 <= i < |s| ==> 'A' <= ToUpper(s)[i] <= 'Z') <==> (forall i :: 0 <= i < |s| ==> UpperIsAsciiLetter(s[i]))
  {
    forall i | 0 <= i < |s|
      ensures ('A' <= ToUpper(s)[i] <= 'Z') == UpperIsAsciiLetter(s[i])
    {
      assert ToUpper(s)[i] == UpperChar(s[i]);
    }
  }

  /**
   * String.equalsIgnoreCase as far as its comparison of upper cases goes:
   * equal lengths and equal upper case at every position.
   */
  predicate EqualsIgnoreCase(a: string, b: string)
    ensures a == b ==> EqualsIgnoreCase(a, b)
    ensures EqualsIgnoreCase(a, b) ==> |a| == |b|
  {
    ToUpper(a) == ToUpper(b)
  }

  /**
   * Compared with a word of ASCII capitals, such as "ARCHIVED",
   * equalsIgnoreCase asks whether the other string upper-cases to that word.
   */
  lemma EqualsUpperWord(a: string, b: string)
    requires forall i :: 0 <= i < |a| ==> 'A' <= a[i] <= 'Z'
    ensures EqualsIgnoreCase(a, b) <==> ToUpper(b) == a
  {
    ToUpperOfUpper(a);
  }

  /** Accented Latin letters fold like ASCII ones: "école" equals "École" ignoring case. */
  lemma AccentedLettersFold()
    ensures EqualsIgnoreCase("\U{E9}cole", "\U{C9}cole")
    ensures !EqualsIgnoreCase("\U{E9}cole", "ecole")
  {
    assert ToUpper("\U{E9}cole") == "\U{C9}COLE";
    assert ToUpper("ecole")[0] == 'E';
  }

  lemma ToUpperIdempotent(s: string)
    ensures ToUpper(ToUpper(s)) == ToUpper(s)
  {
    forall i | 0 <= i < |s|
      ensures ToUpper(ToUpper(s))[i] == ToUpper(s)[i]
    {
      var c := s[i];
      assert UpperChar(UpperChar(c)) == UpperChar(c);
    }
  }

  /** A word of ASCII capital letters upper-cases to itself. */
  lemma ToUpperOfUpper(s: string)
    requires forall i :: 0 <= i < |s| ==> 'A' <= s[i] <= 'Z'
    ensures ToUpper(s) == s
  {
  }

  /** Character.isWhitespace (Java 17): the separators and the ASCII control blanks. */
  predicate IsJavaWhitespace(c: char) {
    var n := c as int;
    (0x09 <= n <= 0x0D) || (0x1C <= n <= 0x20) || n == 0x1680
    || (0x2000 <= n <= 0x2006) || (0x2008 <= n <= 0x200A)
    || n == 0x2028 || n == 0x2029 || n == 0x205F || n == 0x3000
  }

  /** String.isBlank: empty or only whitespace. Spaces alone are blank; a blank string holds no letter or digit. */
  predicate IsBlank(s: string)
    ensures (forall i :: 0 <= i < |s| ==> s[i] == ' ') ==> IsBlank(s)
    ensures IsBlank(s) ==> forall i :: 0 <= i < |s| ==> !UpperIsAsciiLetter(s[i]) && !('0' <= s[i] <= '9')
  {
    forall i :: 0 <= i < |s| ==> IsJavaWhitespace(s[i])
  }

  /** The characters String.trim strips: code points up to U+0020. */
  predicate IsTrimmedAway(c: char) {
    c <= ' '
  }

  function TrimLeft(s: string): (r: string)
    ensures |r| <= |s| && r == s[|s| - |r|..]
    ensures r == [] || !IsTrimmedAway(r[0])
    ensures forall k :: 0 <= k < |s| - |r| ==> IsTrimmedAway(s[k])
  {
    if s != [] && IsTrimmedAway(s[0]) then TrimLeft(s[1..]) else s
  }

  function TrimRight(s: string): (r: string)
    ensures |r| <= |s| && r == s[..|r|]
    ensures r == [] || !IsTrimmedAway(r[|r| - 1])
    ensures forall k :: |r| <= k < |s| ==> IsTrimmedAway(s[k])
  {
    if s != [] && IsTrimmedAway(s[|s| - 1]) then TrimRight(s[..|s| - 1]) else s
  }

  /** String.trim: the longest middle part that neither starts nor ends with a trimmed character. */
  function Trim(s: string): (r: string)
    ensures r == [] || (!IsTrimmedAway(r[0]) && !IsTrimmedAway(r[|r| - 1]))
    ensures var i := |s| - |TrimLeft(s)|; i + |r| <= |s| && r == s[i..i + |r|]
    ensures forall k :: 0 <= k < |s| - |TrimLeft(s)| ==> IsTrimmedAway(s[k])
    ensures forall k :: |s| - |TrimLeft(s)| + |r| <= k < |s| ==> IsTrimmedAway(s[k])
    ensures r == [] ==> forall k :: 0 <= k < |s| ==> IsTrimmedAway(s[k])
  {
    var l := TrimLeft(s);
    var r := TrimRight(l);
    TrimmedSuffix(s, |s| - |l|, r);
    r
  }

  /** The characters TrimRight drops from a suffix of `s` are the last ones of `s`. */
  lemma TrimmedSuffix(s: string, i: int, r: string)
    requires 0 <= i <= |s| && r == TrimRight(s[i..])
    ensures i + |r| <= |s| && r == s[i..i + |r|]
    ensures forall k :: i + |r| <= k < |s| ==> IsTrimmedAway(s[k])
  {
    var l := s[i..];
    forall k | i + |r| <= k < |s|
      ensures IsTrimmedAway(s[k])
    {
      assert s[k] == l[k - i];
    }
  }

  /**
   * isBlank and trim disagree on control characters: a name made only of
   * U+0001 is not blank, yet trims to the empty string.
   */
  lemma ControlCharacterIsNotBlankButTrimsAway()
    ensures !IsBlank("\U{1}")
    ensures Trim("\U{1}") == ""
  {
    assert !IsJavaWhitespace("\U{1}"[0]);
    assert TrimLeft("\U{1}") == TrimLeft("");
  }
}

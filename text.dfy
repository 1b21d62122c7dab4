/** The string operations the recommender applies to column names, locations
    and queries: Python's `str.lower`, `str.strip`, `in`, `str.startswith`
    and `str.title`, restricted to ASCII letters and ASCII whitespace. */
module Text {

  predicate IsUpper(c: char) { 'A' <= c <= 'Z' }

  predicate IsLower(c: char) { 'a' <= c <= 'z' }

  /** A cased character: for ASCII, a letter. */
  predicate IsCased(c: char) { IsUpper(c) || IsLower(c) }

  /** The characters `str.strip()` removes: space, \t \n \v \f \r and the
      separators 0x1C-0x1F. */
  predicate IsSpace(c: char) {
    c == ' ' || ('\t' <= c <= '\r') || ('\U{1C}' <= c <= '\U{1F}')
  }

  function ToLowerChar(c: char): char {
    if IsUpper(c) then (c as int + 32) as char else c
  }

  function ToUpperChar(c: char): char {
    if IsLower(c) then (c as int - 32) as char else c
  }

  /** `str.lower()` */
  function Lower(s: string): (r: string)
    ensures |r| == |s|
    ensures forall i :: 0 <= i < |s| ==> r[i] == ToLowerChar(s[i])
  {
    if s == [] then [] else [ToLowerChar(s[0])] + Lower(s[1..])
  }

  /** Leading whitespace removed. */
  function LStrip(s: string): (r: string)
    ensures |r| <= |s| && r == s[|s| - |r|..]
    ensures r != [] ==> !IsSpace(r[0])
  {
    if s != [] && IsSpace(s[0]) then LStrip(s[1..]) else s
  }

  /** Trailing whitespace removed. */
  function RStrip(s: string): (r: string)
    ensures |r| <= |s| && r == s[..|r|]
    ensures r != [] ==> !IsSpace(r[|r| - 1])
  {
    if s != [] && IsSpace(s[|s| - 1]) then RStrip(s[..|s| - 1]) else s
  }

  /** `str.strip()` */
  function Strip(s: string): string {
    RStrip(LStrip(s))
  }

  /** pandas' `.str.lower().str.strip()`, applied to column names, to the
      `Location` column and to the search string. */
  function LowerStrip(s: string): string {
    Strip(Lower(s))
  }

  /** A string without surrounding whitespace only needs lowering. */
  lemma LowerStripOfTrimmed(s: string)
    requires s != [] && !IsSpace(s[0]) && !IsSpace(s[|s| - 1])
    ensures LowerStrip(s) == Lower(s)
  {
    var l := Lower(s);
    assert !IsSpace(l[0]) && !IsSpace(l[|l| - 1]);
  }

  /** `s.startswith(p)` */
  predicate StartsWith(s: string, p: string) {
    p <= s
  }

  /** `p in s` (substring test, case-sensitive). */
  predicate Contains(s: string, p: string) {
    p <= s || (s != [] && Contains(s[1..], p))
  }

  /** `str.title()`: a cased character following a cased character is
      lowered, every other one is upper-cased. */
  function Title(s: string): string {
    TitleFrom(s, false)
  }

  function TitleFrom(s: string, previousCased: bool): (r: string)
    ensures |r| == |s|
  {
    if s == [] then []
    else
      [if previousCased then ToLowerChar(s[0]) else ToUpperChar(s[0])]
      + TitleFrom(s[1..], IsCased(s[0]))
  }

  // ---------------------------------------------------------------------
  // Lowering and stripping

  lemma LowerIdempotent(s: string)
    ensures Lower(Lower(s)) == Lower(s)
  {
  }

  lemma {:induction false} LowerLStrip(s: string)
    ensures Lower(LStrip(s)) == LStrip(Lower(s))
  {
    var t := Lower(s);
    if s == [] {
    } else if IsSpace(s[0]) {
      assert IsSpace(t[0]) && t[1..] == Lower(s[1..]);
      calc {
        LStrip(t);
        LStrip(t[1..]);
        { LowerLStrip(s[1..]); }
        Lower(LStrip(s[1..]));
      }
    } else {
      assert !IsSpace(t[0]);
    }
  }

  lemma {:induction false} LowerRStrip(s: string)
    ensures Lower(RStrip(s)) == RStrip(Lower(s))
  {
    var t := Lower(s);
    if s == [] {
    } else if IsSpace(s[|s| - 1]) {
      assert IsSpace(t[|t| - 1]) && t[..|t| - 1] == Lower(s[..|s| - 1]);
      calc {
        RStrip(t);
        RStrip(t[..|t| - 1]);
        { LowerRStrip(s[..|s| - 1]); }
        Lower(RStrip(s[..|s| - 1]));
      }
    } else {
      assert !IsSpace(t[|t| - 1]);
    }
  }

  /** Stripping twice is stripping once. */
  lemma StripOfStripped(s: string)
    ensures Strip(Strip(s)) == Strip(s)
  {
    var l := LStrip(s);
    var r := RStrip(l);
    if r != [] {
      assert r[0] == l[0];
    }
  }

  /** Normalising a location or a query a second time changes nothing. */
  lemma LowerStripIdempotent(s: string)
    ensures LowerStrip(LowerStrip(s)) == LowerStrip(s)
  {
    var t := Lower(s);
    LowerLStrip(t);
    LowerRStrip(LStrip(t));
    LowerIdempotent(s);
    StripOfStripped(t);
  }

  /** A lowered-and-stripped string holds no upper-case letter. */
  lemma LowerStripHasNoUpper(s: string)
    ensures forall i :: 0 <= i < |LowerStrip(s)| ==> !IsUpper(LowerStrip(s)[i])
  {
    var t := Lower(s);
    var l := LStrip(t);
    var r := RStrip(l);
    forall i | 0 <= i < |r| ensures !IsUpper(r[i]) {
      var j := |t| - |l| + i;
      assert r[i] == l[i] == t[j];
      LowerCharNotUpper(s[j]);
    }
  }

  lemma LowerCharNotUpper(c: char)
    ensures !IsUpper(ToLowerChar(c))
  {
  }

  // ---------------------------------------------------------------------
  // Substrings

  /** A string containing `p` contains every character of `p`. */
  lemma {:induction false} ContainsChars(s: string, p: string, c: char)
    requires Contains(s, p) && c in p
    ensures c in s
  {
    if p <= s {
      var k :| 0 <= k < |p| && p[k] == c;
      assert s[k] == c;
    } else {
      ContainsChars(s[1..], p, c);
      assert s[1..] <= s[1..];
    }
  }

  // ---------------------------------------------------------------------
  // Title case

  /** Title-casing only changes letter case: lowering the displayed location
      gives back the lowered original. */
  lemma {:induction false} LowerOfTitle(s: string, previousCased: bool)
    ensures Lower(TitleFrom(s, previousCased)) == Lower(s)
  {
    if s != [] {
      LowerOfTitle(s[1..], IsCased(s[0]));
      assert Lower(TitleFrom(s, previousCased))[1..] == Lower(TitleFrom(s[1..], IsCased(s[0])));
    }
  }

  /** Title-casing a title-cased string changes nothing. */
  lemma {:induction false} TitleIdempotent(s: string, previousCased: bool)
    ensures TitleFrom(TitleFrom(s, previousCased), previousCased) == TitleFrom(s, previousCased)
  {
    if s != [] {
      var t := TitleFrom(s, previousCased);
      assert t[1..] == TitleFrom(s[1..], IsCased(s[0]));
      assert IsCased(t[0]) == IsCased(s[0]);
      TitleIdempotent(s[1..], IsCased(s[0]));
    }
  }
}

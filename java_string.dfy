/**
  The two operations of java.lang.String that the filter endpoint relies on:
  trim(), which strips every leading and trailing character whose code is at
  most U+0020, and toUpperCase(), modelled on the ASCII letters only.
 */
module JavaString {

  /** trim() removes exactly the characters for which this holds. */
  predicate Blank(c: char) {
    c <= ' '
  }

  /** The leading part of trim(): a suffix of `s` that does not start with a blank. */
  function TrimStart(s: string): (r: string)
    ensures |r| <= |s| && r == s[|s| - |r|..]
    ensures r != [] ==> !Blank(r[0])
    ensures forall k :: 0 <= k < |s| - |r| ==> Blank(s[k])
  {
    if s != [] && Blank(s[0]) then TrimStart(s[1..]) else s
  }

  /** The trailing part of trim(): a prefix of `s` that does not end with a blank. */
  function TrimEnd(s: string): (r: string)
    ensures |r| <= |s| && r == s[..|r|]
    ensures r != [] ==> !Blank(r[|r| - 1])
    ensures forall k :: |r| <= k < |s| ==> Blank(s[k])
  {
    if s != [] && Blank(s[|s| - 1]) then TrimEnd(s[..|s| - 1]) else s
  }

  /**
    `r` is `s` with the blank prefix `s[..i]` and a blank tail removed: the
    slice of `s` that starts at `i` and is as long as `r`.
   */
  predicate Aparado(s: string, i: int, r: string) {
    && 0 <= i <= |s| - |r|
    && r <= s[i..]
    && (forall k :: 0 <= k < i ==> Blank(s[k]))
    && (forall k :: i + |r| <= k < |s| ==> Blank(s[k]))
  }

  /**
    String.trim(): the slice of `s` left once the blank prefix and the blank
    suffix are removed; it neither starts nor ends with a blank.
   */
  function Trim(s: string): (r: string)
    ensures |r| <= |s|
    ensures exists i :: Aparado(s, i, r)
    ensures r != [] ==> !Blank(r[0]) && !Blank(r[|r| - 1])
  {
    var u := TrimStart(s);
    var r := TrimEnd(u);
    var i := |s| - |u|;
    SufixoBranco(s, i, r);
    assert Aparado(s, i, r);
    r
  }

  /** A blank tail of the suffix `s[i..]` is a blank tail of `s`. */
  lemma SufixoBranco(s: string, i: nat, r: string)
    requires i <= |s| && r <= s[i..]
    requires forall k :: |r| <= k < |s[i..]| ==> Blank(s[i..][k])
    ensures forall k :: i + |r| <= k < |s| ==> Blank(s[k])
  {
    forall k | i + |r| <= k < |s|
      ensures Blank(s[k])
    {
      assert s[k] == s[i..][k - i];
    }
  }

  /** trim() yields the empty string exactly when every character is blank. */
  lemma TrimEmptyIffBlank(s: string)
    ensures Trim(s) == [] <==> forall k :: 0 <= k < |s| ==> Blank(s[k])
  {
    var r := Trim(s);
    var i :| Aparado(s, i, r);
    if r != [] {
      assert s[i] == r[0];
    }
  }

  /** trim() changes a string only by making it strictly shorter. */
  lemma TrimShortens(s: string)
    ensures Trim(s) == s || |Trim(s)| < |s|
  {
    var r := Trim(s);
    var i :| Aparado(s, i, r);
    if |r| == |s| {
      assert i == 0;
      assert s[0..] == s;
    }
  }

  /** Character.toUpperCase on the ASCII letters; every other character is left alone. */
  function UpperChar(c: char): char {
    if 'a' <= c <= 'z' then (c as int - ('a' as int - 'A' as int)) as char else c
  }

  /**
    String.toUpperCase(), character by character: the length is kept, each ASCII
    lower-case letter becomes its upper-case letter, and every other character
    is unchanged.
   */
  function ToUpperCase(s: string): (r: string)
    ensures |r| == |s|
    ensures forall k :: 0 <= k < |s| ==> !('a' <= r[k] <= 'z')
    ensures forall k :: 0 <= k < |s| && !('a' <= s[k] <= 'z') ==> r[k] == s[k]
    ensures forall k :: 0 <= k < |s| && 'a' <= s[k] <= 'z' ==> r[k] as int == s[k] as int - ('a' as int - 'A' as int)
  {
    seq(|s|, k requires 0 <= k < |s| => UpperChar(s[k]))
  }

  /** Upper-casing twice is upper-casing once. */
  lemma ToUpperCaseIdempotent(s: string)
    ensures ToUpperCase(ToUpperCase(s)) == ToUpperCase(s)
  {
    var u := ToUpperCase(s);
    assert forall k :: 0 <= k < |s| ==> UpperChar(u[k]) == u[k];
  }

}

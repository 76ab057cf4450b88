/** The two string methods the handler applies to an upload's file name,
    `str.lower()` and `str.endswith(suffix)`, on strings of Unicode scalar
    values. Lowering is modelled for the ASCII letters only. */
module PyStr {

  predicate IsAsciiUpper(c: char)
  {
    'A' <= c <= 'Z'
  }

  /** The lower-case form of one character (ASCII letters only). */
  function LowerChar(c: char): char
  {
    if IsAsciiUpper(c) then (c as int + 32) as char else c
  }

  /** `s.lower()`: every character lowered, in place, length unchanged. */
  function Lower(s: string): (r: string)
    ensures |r| == |s|
    ensures forall i :: 0 <= i < |s| ==> r[i] == LowerChar(s[i])
  {
    if s == [] then [] else [LowerChar(s[0])] + Lower(s[1..])
  }

  /** `s.endswith(suffix)`. */
  predicate EndsWith(s: string, suffix: string)
  {
    |suffix| <= |s| && s[|s| - |suffix|..] == suffix
  }

  /** Reference relation: two characters that are equal or are the upper- and
      lower-case forms of the same ASCII letter. */
  predicate CaseVariant(a: char, b: char)
  {
    || a == b
    || (IsAsciiUpper(a) && b as int == a as int + 32)
    || (IsAsciiUpper(b) && a as int == b as int + 32)
  }

  /** Two strings that are the same up to ASCII letter case. */
  predicate SameIgnoringCase(s: string, t: string)
  {
    |s| == |t| && forall i :: 0 <= i < |s| ==> CaseVariant(s[i], t[i])
  }

  lemma LowerCharAgrees(a: char, b: char)
    ensures LowerChar(a) == LowerChar(b) <==> CaseVariant(a, b)
  {
  }

  /** Lowering identifies exactly the strings that differ only in the case
      of ASCII letters. */
  lemma LowerAgrees(s: string, t: string)
    ensures Lower(s) == Lower(t) <==> SameIgnoringCase(s, t)
  {
    if Lower(s) == Lower(t) {
      forall i | 0 <= i < |s| ensures CaseVariant(s[i], t[i]) {
        assert Lower(s)[i] == Lower(t)[i];
        LowerCharAgrees(s[i], t[i]);
      }
    }
    if SameIgnoringCase(s, t) {
      forall i | 0 <= i < |s| ensures Lower(s)[i] == Lower(t)[i] {
        LowerCharAgrees(s[i], t[i]);
      }
    }
  }

  /** Lowering commutes with taking a suffix. */
  lemma LowerSuffix(s: string, k: nat)
    requires k <= |s|
    ensures Lower(s)[k..] == Lower(s[k..])
  {
  }

  /** A lower-case `suffix` ends the lowered string exactly when the string's
      last |suffix| characters match it up to ASCII letter case. */
  lemma EndsWithLowerIgnoresCase(s: string, suffix: string)
    requires Lower(suffix) == suffix
    ensures EndsWith(Lower(s), suffix)
        <==> |suffix| <= |s| && SameIgnoringCase(s[|s| - |suffix|..], suffix)
  {
    if |suffix| <= |s| {
      var k := |s| - |suffix|;
      LowerSuffix(s, k);
      LowerAgrees(s[k..], suffix);
      assert SameIgnoringCase(suffix, suffix);
      assert SameIgnoringCase(s[k..], suffix) <==> Lower(s[k..]) == Lower(suffix);
    }
  }
}

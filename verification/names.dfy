/**
 * Name normalisation used by both filters: ASCII lower-casing, removal of
 * every occurrence of a character, and removal of one trailing suffix.
 * These are the string operations the filters perform with `toLowerCase`,
 * `replaceAll("_", "")`, `replaceAll("__c$", "")` and `replaceAll("id$", "")`.
 */
module Names {

  predicate IsUpper(c: char) {
    'A' <= c <= 'Z'
  }

  /** True when no character of `s` is an upper-case ASCII letter. */
  predicate IsLowerCase(s: string) {
    forall i :: 0 <= i < |s| ==> !IsUpper(s[i])
  }

  /** ASCII lower-casing of a single character. */
  function LowerChar(c: char): (d: char)
    ensures !IsUpper(d)
    ensures !IsUpper(c) ==> d == c
    ensures IsUpper(c) ==> d as int - c as int == 32
  {
    if IsUpper(c) then (c as int + 32) as char else c
  }

  /** The lower-cased form of a name, character by character. */
  function Lower(s: string): (r: string)
    ensures |r| == |s|
    ensures forall i :: 0 <= i < |s| ==> r[i] == LowerChar(s[i])
    ensures IsLowerCase(r)
  {
    if s == [] then [] else [LowerChar(s[0])] + Lower(s[1..])
  }

  /** Two names that differ only in the case of their letters. */
  predicate SameUpToCase(a: string, b: string) {
    |a| == |b| && forall i :: 0 <= i < |a| ==> LowerChar(a[i]) == LowerChar(b[i])
  }

  /** Names that differ only in letter case have the same lower-cased form. */
  lemma LowerUpToCase(a: string, b: string)
    requires SameUpToCase(a, b)
    ensures Lower(a) == Lower(b)
  {
    assert forall i :: 0 <= i < |a| ==> Lower(a)[i] == Lower(b)[i];
  }

  /** `s` with every occurrence of `c` removed, the rest in order. */
  function RemoveAll(s: string, c: char): (r: string)
    ensures c !in r
    ensures c !in s ==> r == s
  {
    if s == [] then []
    else (if s[0] == c then [] else [s[0]]) + RemoveAll(s[1..], c)
  }

  /** Only the occurrences of `c` are removed: every other character keeps its count. */
  lemma {:induction false} RemoveAllCounts(s: string, c: char)
    ensures multiset(RemoveAll(s, c)) == multiset(s)[c := 0]
  {
    if s != [] {
      assert s == [s[0]] + s[1..];
      RemoveAllCounts(s[1..], c);
    }
  }

  /** Removing a character from a concatenation removes it from each part. */
  lemma {:induction false} RemoveAllAppend(a: string, b: string, c: char)
    ensures RemoveAll(a + b, c) == RemoveAll(a, c) + RemoveAll(b, c)
  {
    if a == [] {
      assert a + b == b;
    } else {
      var head := if a[0] == c then [] else [a[0]];
      assert (a + b)[0] == a[0] && (a + b)[1..] == a[1..] + b;
      assert RemoveAll(a + b, c) == head + RemoveAll(a[1..] + b, c);
      RemoveAllAppend(a[1..], b, c);
      assert RemoveAll(a, c) == head + RemoveAll(a[1..], c);
      assert head + (RemoveAll(a[1..], c) + RemoveAll(b, c)) == (head + RemoveAll(a[1..], c)) + RemoveAll(b, c);
    }
  }

  /** Removing a character leaves a lower-case name lower-case. */
  lemma RemoveAllKeepsLowerCase(s: string, c: char)
    requires IsLowerCase(s)
    ensures IsLowerCase(RemoveAll(s, c))
  {
    var r := RemoveAll(s, c);
    RemoveAllCounts(s, c);
    forall i | 0 <= i < |r|
      ensures !IsUpper(r[i])
    {
      assert r[i] in multiset(r);
      assert r[i] in s;
    }
  }

  predicate EndsWith(s: string, suffix: string) {
    |suffix| <= |s| && s[|s| - |suffix|..] == suffix
  }

  /**
   * Removes one trailing occurrence of `suffix`, when there is one; the
   * result put back in front of the suffix gives the original name.
   */
  function StripSuffix(s: string, suffix: string): (r: string)
    ensures EndsWith(s, suffix) ==> r + suffix == s
    ensures !EndsWith(s, suffix) ==> r == s
  {
    if EndsWith(s, suffix) then s[..|s| - |suffix|] else s
  }

  /**
   * Stripping a suffix gives `x` exactly when the name is `x` followed by the
   * suffix, or is `x` itself and does not end with the suffix.
   */
  lemma StripSuffixIs(s: string, suffix: string, x: string)
    ensures StripSuffix(s, suffix) == x <==> s == x + suffix || (s == x && !EndsWith(s, suffix))
  {
    if s == x + suffix {
      assert s[|s| - |suffix|..] == suffix;
      assert s[..|s| - |suffix|] == x;
    }
    if EndsWith(s, suffix) && StripSuffix(s, suffix) == x {
      assert s == x + suffix;
    }
  }

  /**
   * A name with a trailing `__c` (the custom-object suffix) removed and then
   * every `_` removed. The object filter applies it to the lower-cased name,
   * the field filter's fallback lookup to the name as it is.
   */
  function SansCustomSuffix(name: string): (k: string)
    ensures '_' !in k
  {
    RemoveAll(StripSuffix(name, "__c"), '_')
  }
}

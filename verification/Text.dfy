/** Facts about text that the name encodings and the host tests rest on. */
module Text {

  /** `strings.Contains`. */
  predicate Contains(s: string, sub: string) {
    exists i :: 0 <= i <= |s| && sub <= s[i..]
  }

  predicate StartsWith(s: string, prefix: string) {
    prefix <= s
  }

  predicate EndsWith(s: string, suffix: string) {
    |suffix| <= |s| && s[|s| - |suffix|..] == suffix
  }

  lemma ContainsInfix(before: string, sub: string, after: string)
    ensures Contains(before + sub + after, sub)
  {
    assert (before + sub + after)[|before|..] == sub + after;
  }

  lemma PrefixAgrees(s: string, prefix: string, i: nat)
    requires i < |prefix|
    ensures StartsWith(s, prefix) ==> i < |s| && s[i] == prefix[i]
  {
  }

  lemma SuffixAgrees(s: string, suffix: string, i: nat)
    requires i < |suffix|
    ensures EndsWith(s, suffix) ==> s[|s| - |suffix| + i] == suffix[i]
  {
    if EndsWith(s, suffix) {
      assert s[|s| - |suffix|..][i] == suffix[i];
    }
  }

  /** A suffix that ends in a character the text lacks is none. */
  lemma NotASuffix(s: string, suffix: string)
    requires suffix != "" && suffix[|suffix| - 1] !in s
    ensures !EndsWith(s, suffix)
  {
  }

  /** A prefix that has a character the text lacks is none. */
  lemma NotAPrefix(s: string, prefix: string, c: char)
    requires c in prefix && c !in s
    ensures !StartsWith(s, prefix)
  {
  }

  /** Text around the first occurrence of a separator is unique. */
  lemma SplitAtFirst(a: string, b: string, a': string, b': string, c: char)
    requires c !in a && c !in a'
    requires a + [c] + b == a' + [c] + b'
    ensures a == a' && b == b'
  {
    var t := a + [c] + b;
    assert t[|a|] == c && t[|a'|] == c;
    assert forall i :: 0 <= i < |a| ==> t[i] == a[i] && a[i] != c;
    assert forall i :: 0 <= i < |a'| ==> t[i] == a'[i] && a'[i] != c;
    assert a == t[..|a|] && a' == t[..|a'|];
    assert b == t[|a| + 1..] && b' == t[|a'| + 1..];
  }
}

/** String facts shared by the other modules. */
module Strings {

  predicate HasSuffix(s: string, suffix: string) {
    |suffix| <= |s| && s[|s| - |suffix|..] == suffix
  }

  /** Unicode white space, as unicode.IsSpace and strings.TrimSpace have it. */
  predicate IsSpace(c: char) {
    || '\t' <= c <= '\r' || c == ' '
    || c as int in {0x85, 0xA0, 0x1680, 0x2028, 0x2029, 0x202F, 0x205F, 0x3000}
    || 0x2000 <= c as int <= 0x200A
  }

  /** A separator that occurs in neither first part makes the two parts recoverable. */
  lemma CutAt(a: string, b: string, a': string, b': string, c: char)
    requires c !in a && c !in a' && a + [c] + b == a' + [c] + b'
    ensures a == a' && b == b'
  {
    var s, s' := a + [c] + b, a' + [c] + b';
    forall i | 0 <= i < |a| ensures s[i] != c {
      assert s[i] == a[i] && a[i] in a;
    }
    forall i | 0 <= i < |a'| ensures s'[i] != c {
      assert s'[i] == a'[i] && a'[i] in a';
    }
    assert s[|a|] == c && s'[|a'|] == c;
    assert s[..|a|] == a && s'[..|a'|] == a';
    assert s[|a| + 1..] == b && s'[|a'| + 1..] == b';
  }
}

/** File names with a meaning: `.lock` files are being written, `last` files were removed. */
module Names {
  const LOCK: string := ".lock"
  const LAST: string := "last"

  predicate HasPrefix(s: string, prefix: string) {
    prefix <= s
  }

  predicate HasSuffix(s: string, suffix: string) {
    |suffix| <= |s| && s[|s| - |suffix|..] == suffix
  }

  predicate IsLast(name: string) {
    HasPrefix(name, LAST)
  }

  function LastOf(name: string): string {
    LAST + name
  }

  /** Prefixes and suffixes are what is in front and behind. */
  lemma InFrontAndBehind(a: string, b: string, s: string)
    ensures HasPrefix(a + b, a) && HasSuffix(a + b, b)
    ensures HasPrefix(s, a) ==> s == a + s[|a|..]
    ensures HasSuffix(s, b) ==> s == s[..|s| - |b|] + b
  {
  }
}

/** Text operations that several components use. */
module Text {
  function LowerChar(c: char): char { if 'A' <= c <= 'Z' then c + ('a' - 'A') else c }

  /** s.lower(), for ASCII text. */
  function Lower(s: string): string { seq(|s|, (k: nat) requires k < |s| => LowerChar(s[k])) }

  predicate StartsWith(s: string, prefix: string) { prefix <= s }

  /** The codes from 65 to 90, of the capital letters, go up by 32, and no others change. */
  lemma {:induction false} LowerExactly(s: string, k: nat)
    requires k < |s|
    ensures |Lower(s)| == |s| && Lower(s)[k] as int == s[k] as int + if 65 <= s[k] as int <= 90 then 32 else 0
  {
  }
}

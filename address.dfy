/**
 * The ledger-address format check `^r[1-9A-HJ-NP-Za-km-z]{25,34}$` that the
 * account lookup, the issuer scan and the command fallback all apply before
 * anything is sent over the network.
 */
module Address {

  /** The character class `[1-9A-HJ-NP-Za-km-z]`, range by range. */
  predicate InAlphabet(c: char) {
    || ('1' <= c <= '9')
    || ('A' <= c <= 'H')
    || ('J' <= c <= 'N')
    || ('P' <= c <= 'Z')
    || ('a' <= c <= 'k')
    || ('m' <= c <= 'z')
  }

  /** What the pattern accepts, stated without the regular expression. */
  ghost predicate WellFormed(s: string) {
    && 26 <= |s| <= 35
    && s[0] == 'r'
    && forall i :: 1 <= i < |s| ==> InAlphabet(s[i])
  }

  /**
   * The bounded repetition `[...]{25,34}$`: having already consumed `n`
   * alphabet characters, accept the rest `t` when it is all alphabet
   * characters and the total stays within 25..34.
   */
  function MatchRun(t: string, n: nat): (ok: bool)
    requires n <= 34
    ensures ok <==> 25 <= n + |t| <= 34 && forall i :: 0 <= i < |t| ==> InAlphabet(t[i])
    decreases |t|
  {
    if t == [] then 25 <= n
    else if n == 34 || !InAlphabet(t[0]) then false
    else MatchRun(t[1..], n + 1)
  }

  /** `s.match(/^r[1-9A-HJ-NP-Za-km-z]{25,34}$/)` succeeds. */
  function Matches(s: string): (ok: bool)
    ensures ok <==> WellFormed(s)
  {
    |s| >= 1 && s[0] == 'r' && MatchRun(s[1..], 0)
  }

  /**
   * The alphabet is the ASCII digits and letters without `0`, `O`, `I`
   * and `l`; in particular a space is never part of an address.
   */
  lemma AlphabetIsBase58(c: char)
    ensures InAlphabet(c) <==>
      && (('0' <= c <= '9') || ('A' <= c <= 'Z') || ('a' <= c <= 'z'))
      && c != '0' && c != 'O' && c != 'I' && c != 'l'
  {
  }

  /** An address holds no space, so it is one single command token. */
  lemma {:induction false} AddressHasNoSpace(s: string)
    requires Matches(s)
    ensures ' ' !in s
  {
    forall i | 0 <= i < |s|
      ensures s[i] != ' '
    {
      if i > 0 {
        assert InAlphabet(s[i]);
      }
    }
  }
}

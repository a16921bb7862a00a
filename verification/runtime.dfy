/**
 * The pieces of the JavaScript runtime that the ledger's hashing relies on:
 * the primitives it is built from (kept abstract), what `undefined`
 * contributes to a concatenation, and the "starts with d zeros" difficulty test.
 */
module Runtime {
  import opened Wrappers

  /**
   * SHA-256 as the source uses it, kept abstract. Node's hash object is fed the
   * data with `update`; the ledger service then turns it into text with
   * `toString('hex')` while the vote document uses `digest('hex')`. The two
   * finalisers are separate functions here, so nothing assumes they agree.
   */
  datatype Sha256 = Sha256(
    updateToString: string -> string,
    updateDigest: string -> string)

  /**
   * The platform primitives the hashes are built from, kept abstract: SHA-256,
   * the text of a Number (`String(n)`, also what `+` and template literals
   * use), and `Date.prototype.toISOString` of a time in milliseconds.
   */
  datatype Platform = Platform(
    sha256: Sha256,
    numberToString: int -> string,
    toISOString: int -> string)

  /** What `"" + undefined` contributes to a concatenation. */
  const UNDEFINED: string := "undefined"

  /** What a possibly-undefined string contributes to a `+` concatenation. */
  function StringOrUndefined(o: Option<string>): string {
    match o
    case Some(s) => s
    case None => UNDEFINED
  }

  /** What a possibly-undefined number contributes to a `+` concatenation. */
  function NumberOrUndefined(p: Platform, o: Option<int>): string {
    match o
    case Some(n) => p.numberToString(n)
    case None => UNDEFINED
  }

  /** `'0'.repeat(n)`. */
  function Zeros(n: nat): (z: string)
    ensures |z| == n
  {
    if n == 0 then "" else Zeros(n - 1) + "0"
  }

  /** Every character of `'0'.repeat(n)` is '0'. */
  lemma {:induction false} ZerosAreZero(n: nat, i: nat)
    requires i < n
    ensures Zeros(n)[i] == '0'
  {
    if i < n - 1 {
      ZerosAreZero(n - 1, i);
    }
  }

  /** `s.startsWith(prefix)`. */
  predicate StartsWith(s: string, prefix: string) {
    |prefix| <= |s| && s[..|prefix|] == prefix
  }

  /** `hash.startsWith('0'.repeat(difficulty))`: the proof-of-work target. */
  predicate MeetsDifficulty(hash: string, difficulty: nat) {
    StartsWith(hash, Zeros(difficulty))
  }

  /** The difficulty test holds exactly when the first `difficulty` characters are all '0'. */
  lemma MeetsDifficultyMeaning(hash: string, difficulty: nat)
    ensures MeetsDifficulty(hash, difficulty) <==>
            (difficulty <= |hash| && forall i :: 0 <= i < difficulty ==> hash[i] == '0')
  {
    var z := Zeros(difficulty);
    forall i | 0 <= i < difficulty ensures z[i] == '0' {
      ZerosAreZero(difficulty, i);
    }
    if difficulty <= |hash| && forall i :: 0 <= i < difficulty ==> hash[i] == '0' {
      assert hash[..difficulty] == z;
    }
    if MeetsDifficulty(hash, difficulty) {
      forall i | 0 <= i < difficulty ensures hash[i] == '0' {
        assert hash[..difficulty][i] == z[i];
      }
    }
  }
}

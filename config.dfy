/** The CONFIG constants of the checker, as immutable values. */
module Config {
  const MIN_LENGTH: nat := 8
  const RECOMMENDED_LENGTH: nat := 12
  const EXCELLENT_LENGTH: nat := 20

  /** The broad SPECIAL_CHARS entry of CONFIG. No scoring member reads it. */
  const SPECIAL_CHARS: string := "!@#$%^&*(),.?\":{}|<>=_+-;'[]\\"

  /** The characters of the regex class `[!@#$%^&*(),.?\":{}|<>]` that the
      entropy and character-type checks actually search for. */
  const DETECTED_SPECIALS: string := "!@#$%^&*(),.?\":{}|<>"

  const COMMON_PATTERNS: seq<string> := ["123", "abc", "qwerty", "admin", "password", "111", "000"]
  const KEYBOARD_PATTERNS: seq<string> := ["qwerty", "asdfgh", "zxcvbn", "123456", "qazwsx"]

  /** The explicit alternatives of the sequential-numbers regex. */
  const DESCENDING_RUNS: seq<string> := ["987", "876", "765", "654", "543", "432", "321"]

  /** Minimum recommended entropy, in bits. */
  const MIN_ENTROPY: nat := 60

  /** The detected specials are a strict subset of the configured ones:
      scoring ignores `=`, `_`, `+`, `-`, `;`, `'`, `[`, `]` and `\`. */
  lemma DetectedSpecialsNarrower()
    ensures forall c :: c in DETECTED_SPECIALS ==> c in SPECIAL_CHARS
    ensures '=' in SPECIAL_CHARS && '=' !in DETECTED_SPECIALS
    ensures '\\' in SPECIAL_CHARS && '\\' !in DETECTED_SPECIALS
  {
  }
}

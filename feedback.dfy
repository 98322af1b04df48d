/** Structured feedback: the severity the source shows as a colour and an
    emoji, and the kind of message with the literal values it interpolates. */
module Feedback {
  import opened Text

  datatype Severity = Positive | Warning | Negative

  /** The entropy reported in a message: zero when no class is present,
      otherwise `length * log2(alphabetSize)` bits. */
  datatype Entropy = NoAlphabet | Bits(length: nat, alphabetSize: nat)

  datatype Message =
    | TooShort(length: nat)
    | ConsiderLonger(length: nat)
    | GoodLength(length: nat)
    | ExcellentLength(length: nat)
    | Contains(kind: CharClass, count: nat)
    | Missing(kind: CharClass)
    | CommonPattern(pattern: string)
    | KeyboardPattern(pattern: string)
    | SequentialNumbers
    | RepeatedCharacters
    | LowEntropy(entropy: Entropy)
    | GoodEntropy(entropy: Entropy)

  datatype Item = Item(severity: Severity, message: Message)
}

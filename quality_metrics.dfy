/** The three display scores derived from the prompt length. */
module QualityMetrics {

  function Min(a: int, b: int): int {
    if a <= b then a else b
  }

  /** `Math.min(85 + (promptLength % 15), 98)`. */
  function Clarity(promptLength: nat): (score: int)
    ensures 85 <= score <= 98
    ensures score == 98 <==> promptLength % 15 == 13 || promptLength % 15 == 14
  {
    Min(85 + promptLength % 15, 98)
  }

  /** `Math.min(90 + (promptLength % 10), 99)`: the cap never applies. */
  function Structure(promptLength: nat): (score: int)
    ensures 90 <= score <= 99
    ensures score == 90 + promptLength % 10
  {
    Min(90 + promptLength % 10, 99)
  }

  /** `Math.min(80 + (promptLength % 20), 100)`: the score never reaches 100. */
  function Completeness(promptLength: nat): (score: int)
    ensures 80 <= score <= 99
    ensures score == 80 + promptLength % 20
  {
    Min(80 + promptLength % 20, 100)
  }

  /** Each score depends on the length only through the remainder of its divisor. */
  lemma ScoresPeriodic(a: nat, b: nat)
    ensures a % 15 == b % 15 ==> Clarity(a) == Clarity(b)
    ensures a % 10 == b % 10 ==> Structure(a) == Structure(b)
    ensures a % 20 == b % 20 ==> Completeness(a) == Completeness(b)
  {
  }
}

/** The game's default options and the fixed quantities its rules use.
    Every time is in milliseconds, as an exact real: a wrong guess costs a
    third of the round time, which is not a whole number of milliseconds. */
module Options {
  /** Length of a whole game: five minutes. */
  const GameTime: real := 5.0 * (60.0 * 1000.0)
  /** Length of one round. */
  const RoundTime: real := 20000.0
  /** Score for a correct guess at the very start of a round with multiplier 1. */
  const MaxRoundScore: int := 30
  const InitialMultiplier: int := 1
  /** Declared by the game but never enforced: nothing caps the multiplier. */
  const MaxMultiplier: int := 8

  /** Period of the round timer. */
  const TickInterval: real := 100.0
  /** Time a wrong guess takes from the round. */
  const WrongGuessPenalty: real := RoundTime / 3.0

  /** Number of draws the choice loop may make before it gives up. */
  const MaxAttempts: nat := 50
  /** Number of choices a round tries to offer. */
  const ChoiceCount: nat := 4
}

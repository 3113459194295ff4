# Guess the Intro: a Dafny model of the game state machine

Guess the Intro is a music quiz. At the start of a game the pool is the
player's library, with a bonus track appended again if the library already
holds it. Each round draws up to four choices from the pool, plays the hidden
correct one, and takes it out of the pool. The
player then guesses. A correct guess scores by the time left in the round and
a streak multiplier. Lines 326-336 of gti.js say that a wrong guess disables
that choice, resets the multiplier and costs a third of the round time. As
written, though, the first line of `failure` throws, so those lines never run
(see `GuessTheIntro.Round.Failure` under "## Left out"). A 100 ms timer runs
down the round and the whole game.

The model has four modules:

- `Options` (options.dfy): the game's constants. Times are exact real
  milliseconds.
- `Pool` (pool.dfy): tracks, the pool operations and the draw of a round's
  choices. `Deal` is the pure description of what starting a round does.
- `Scoring` (scoring.dfy): `Math.ceil` and the score of a correct guess.
- `GuessTheIntro` (game.dfy): the session state as class `Game` and the round
  state machine as class `Round`. Their methods update fields in place, as the
  source updates its module globals and round fields. Two client methods show
  what the contracts imply over several calls.

Sources of nondeterminism are parameters:

- A `Math.random()` value is a `Random`, a real in [0, 1). A pool position is
  `Math.floor(u * n)`, as in the source.
- The time since the last tick (`new Date() - this.lastTimer`) is a parameter
  `elapsed` of `Choose` and `Success`.
- A timer tick is a call of `Round.Tick`.
- "Start a new round later" is a returned flag, or a count in the case of
  `Tick`. The host then calls `Game.NewRound`.

Source behaviour the model keeps as written:

- The bonus track is appended only when the pool already holds it
  (gti.js:71). So it never joins a pool that lacks it, and it is duplicated in
  a pool that has it (`Pool.BonusInsertDuplicates`).
- `chosen` is never assigned, so the guard at gti.js:291 never fires. A round
  that a correct guess has ended still takes the same guess until the next
  round replaces it. Each such guess scores again, raises the multiplier again
  and asks for another round (`GuessTheIntro.CorrectGuessTwice`).
- When no playable track is drawn in 50 attempts, the round has no choices.
  The correct index is then 0, and `pool.indexOf(undefined)` gives -1.
  `splice(-1, 1)` then removes the pool's last track (`Pool.Deal`,
  `Pool.SpliceLast`).
- On an empty pool, drawing the first choice throws. `newRound` has already
  added the current round to the history by then, and no new round exists
  (`Game.NewRound` with `ok == false`).
- When the game time is used up, a tick calls `failure` and then its own
  round-time check. If gti.js:325 did not throw, `failure` would run
  lines 326-336. When the penalty then ended the round, both steps would ask
  for a new round, so the tick would ask twice. Later ticks would keep counting
  as failures. `Round.Tick` models this. As written, the throw at gti.js:325
  aborts the tick, so neither `gameEnd` nor the check at gti.js:277 runs.
- Nothing stops the game: `gameEnd` only logs.
- The multiplier has no cap. `maxMultiplier` (gti.js:28) is declared but never
  used.
- A wrong guess costs a third of the round time (gti.js:330). The header
  comment says a quarter. The penalty leaves the game time unchanged.
- The maximum round score is 30 (gti.js:26).
- Fewer than four choices is not an error. The round simply offers fewer
  choices.

Deliberate deviation: the model's `failure` behaves as lines 326-336
describe. `failure` is called without an index at gti.js:274 and
gti.js:296, yet it pushes `index` into `disabledChoices`. The model's
`Round.Failure` takes the index from `Choose` as `Some(index)`. From the
timer it takes `None`, which stands for JavaScript's `undefined`.

## Model

| member | source | states |
|---|---|---|
| `Pool.IndexOf` | gti.js:216 | the result is -1 exactly when the value is absent; otherwise it is a position holding the value with no earlier occurrence |
| `Pool.RandomIndex` | gti.js:205 | `Math.floor(u * n)` is a valid position below `n` for a non-empty array, and 0 for an empty one |
| `Pool.DrawProperties` | gti.js:202-210 | the draw loop stops after at most 50 attempts, with 4 choices unless it used all 50. It only appends, at most one track per attempt. Its choices are pairwise distinct, each is in the pool, and each is available for playback |
| `Pool.Deal` | gti.js:200-217 | at most 4 distinct, playable choices from the pool. When there is a choice, the correct index is below the number of choices and the pool loses exactly the first occurrence of the correct track: it is the pool with that one position cut out, the rest in order, and its multiset lacks one copy of that track. With no choice, the correct index is 0 and the last track is removed. The pool always shrinks by one |
| `Pool.DealRetiresCorrectTrack` | gti.js:212-216 | in a pool without duplicates, the correct track is no longer in the remaining pool, and that pool still has no duplicates |
| `Pool.SpliceFirst` | gti.js:216 | splicing at `indexOf(t)` of a present track removes exactly that occurrence, keeps the order of the rest and takes one copy of `t` off the multiset |
| `Pool.SpliceLast` | gti.js:216 | `splice(-1, 1)` removes the last element |
| `Pool.BonusInsert` | gti.js:70-73 | the pool is kept as a prefix. It grows by one exactly when the bonus track was already present, and the bonus track is present afterwards exactly when it was before |
| `Pool.BonusInsertDuplicates` | gti.js:70-73 | when the bonus track is already present, the step adds a second copy and the pool then has a duplicate |
| `Scoring.Ceil` | gti.js:310 | `Math.ceil` on an exact real: the least integer not below `x` |
| `Scoring.RoundScore` | gti.js:310 | the score `ceil(30 / 20000 * t * m)` is at least 1 for positive time and multiplier at least 1, at most `30 * m` within a round's time, and not positive for no time left |
| `Scoring.RoundScoreMonotonic` | gti.js:310 | more time left never scores less |
| `Scoring.RoundScoreExample` | gti.js:310 | 15000 ms left with multiplier 1 scores 23 |
| `GuessTheIntro.Game.constructor` | gti.js:24-38 | initial globals: empty pool, 5 minutes of game time, no history, no current round, score 0, multiplier 1 |
| `GuessTheIntro.Game.Start` | gti.js:67-73 | the pool becomes the library after the bonus-track step, so it holds the bonus track only if the library did |
| `GuessTheIntro.Game.NewRound` | gti.js:124-130 | the history grows by the previous current round, if there was one. On a non-empty pool, a fresh current round gets `Deal`'s choices and correct index, and the pool becomes `Deal`'s rest. On an empty pool, it reports failure and the pool and current round are unchanged |
| `GuessTheIntro.Round.constructor` | gti.js:176-195 | the initial round fields (time 20000, no disabled choices, score 0, not playing), then the choices, correct index and pool that `Deal` gives |
| `GuessTheIntro.Round.GetChoices` | gti.js:200-217 | the loop's choices, the correct index and the new pool are exactly those of `Deal` on the old pool |
| `GuessTheIntro.Round.PlaybackStart` | gti.js:264-268 | the round is playing and its timer is live |
| `GuessTheIntro.Round.Tick` | gti.js:268-283 | round and game time both drop by exactly 100. If game time remains and the round has none left, the multiplier becomes 1, the timer stops and one new round is requested. If game time is used up, the tick also counts as a failure without an index. The round time then also loses the penalty, and the round ends, asking for two new rounds, exactly when that leaves no time |
| `GuessTheIntro.Round.Choose` | gti.js:289-298 | the correct index runs success: score, times and multiplier as in `Success`. A wrong index not yet disabled runs failure as in `Failure`. A wrong index already disabled changes nothing: score, multiplier, both times, the disabled list and the timer stay the same |
| `GuessTheIntro.Round.Success` | gti.js:303-317 | with time left, both times drop by the elapsed time. The round score is `RoundScore` of the new time and the multiplier before it increments. It is added to the score, which rises when time is still left. Without time left, nothing but the multiplier changes. The multiplier always rises by exactly 1 and the round ends asking for a new round |
| `GuessTheIntro.Round.Failure` | gti.js:322-337 | the index is appended to the disabled list and the multiplier becomes 1. The round time drops by exactly 20000/3 and the game time is unchanged. The round ends, asking for a new round, exactly when the round time is then `<= 0` |
| `GuessTheIntro.Round.End` | gti.js:342-354 | the timer stops, and a new round is requested exactly when the argument is true |
| `GuessTheIntro.ThreeWrongGuesses` | gti.js:322-337 | from a full 20000 ms round, three distinct wrong guesses end it exactly at the third. The multiplier is 1, the score and game time are unchanged, and the three indices are disabled in order |
| `GuessTheIntro.CorrectGuessTwice` | gti.js:289-317 | because the guard never fires, a correct guess repeated after the round ended scores again with the incremented multiplier. The multiplier rises by 2 and both guesses ask for a new round |

## Left out

- GuessTheIntro.Round.Failure: gti.js:325 reads `this.choiceEls[index]`.
  `Round` never defines `choiceEls`: its element list is `elements`
  (gti.js:181, 246). So as written, line 325 throws a TypeError every time
  `failure` runs.
  - Lines 326-336 never execute, so a wrong guess changes no game state.
  - A tick with no game time left aborts inside `failure`, reaching neither
    `gameEnd` nor the round-time check.
  - The model leaves line 325 out and runs lines 326-336. `Round.Failure`,
    the failure branches of `Round.Choose` and `Round.Tick`, and
    `ThreeWrongGuesses` therefore describe the evident intent, not the throw.
- Rendering: `build` (gti.js:222-251), `updateTimer`, `updateMultiplier`, the
  score text, `wrapper.dispose()` and all console logging. These are UI with no
  effect on the game state. The track's
  title, artist and cover are not modelled for the same reason.
- The Spotify platform: the library, `Track.fromURI` and playback control
  (`m.player.play`, `m.player.playing`, the track player settings). The library and the bonus
  track are parameters of `Game.Start`. Tracks are compared by value. The
  source compares object references, so a bonus-track object that is not
  itself in the library array is never found there.
- Event wiring: the click, key, unload and player-change handlers. Their
  effects are calls of `Round.Choose`, `Round.End(false)` and
  `Round.PlaybackStart`.
- Timer scheduling: `setInterval`, `setTimeout`, `clearInterval` and the 500 ms
  and 2000 ms delays. A live interval is the flag `ticking`. Each
  playback-started signal starts another interval in the source, and only the
  last one is ever cleared. The model has one timer per round, so these
  leftover intervals are not modelled.
- `Math.random` and `Date` are parameters. `success` reads the clock twice
  (gti.js:308-309). The model uses one elapsed time for both clocks.
- Before the first tick, `lastTimer` is undefined, and the source's
  subtraction gives NaN. The model's `elapsed` is always a number.
- IEEE-754 rounding: times and the score rate are exact reals.
- `gameEnd` (gti.js:104-107) only logs. No game-over state is modelled because
  the source has none.

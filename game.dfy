/** The game: the session state (pool, score, multiplier, remaining game time,
    past rounds, current round) and the round state machine that the timer,
    the player's guesses and the start of playback drive.

    The host's scheduling is not modelled. A timer tick is a call of
    `Round.Tick`; a method that would schedule the next round returns how many
    times it asked for one, and the host then calls `Game.NewRound`. */
module GuessTheIntro {
  import opened Options
  import opened Pool
  import opened Scoring

  datatype Option<T> = None | Some(value: T)

  /** The session: the game's module-level state. */
  class Game {
    var pool: seq<Track>
    var gameTimeRemaining: real
    var pastRounds: seq<Round>
    var currentRound: Round?
    var score: int
    var multiplier: int

    /** The multiplier is at least 1: it starts at 1, is reset to 1 and is
        otherwise only incremented. */
    ghost predicate Valid()
      reads this
    {
      multiplier >= 1
    }

    /** The state before the first game starts. */
    constructor ()
      ensures Valid()
      ensures pool == [] && gameTimeRemaining == GameTime && pastRounds == [] && currentRound == null
      ensures score == 0 && multiplier == InitialMultiplier
    {
      pool := [];
      gameTimeRemaining := GameTime;
      pastRounds := [];
      currentRound := null;
      score := 0;
      multiplier := InitialMultiplier;
    }

    /** Starting a game: the pool is the player's library, followed by the
        bonus track step. */
    method Start(library: seq<Track>, bonus: Track)
      modifies this`pool
      ensures pool == BonusInsert(library, bonus)
      ensures bonus in pool <==> bonus in library
    {
      pool := library;
      pool := BonusInsert(pool, bonus);
    }

    /** Starting the next round. The round that was current, if any, goes to
        the history first. On an empty pool drawing the first choice fails, so
        no round is created (`ok` is false) and the current round stays, though
        it has already been added to the history. */
    method NewRound(draws: seq<Random>, pick: Random) returns (ok: bool)
      requires |draws| >= MaxAttempts
      modifies this`pool, this`pastRounds, this`currentRound
      ensures pastRounds == old(pastRounds) + if old(currentRound) == null then [] else [old(currentRound)]
      ensures ok <==> |old(pool)| > 0
      ensures !ok ==> pool == old(pool) && currentRound == old(currentRound)
      ensures ok ==>
        var d := Deal(old(pool), draws, pick);
        currentRound != null && fresh(currentRound) && currentRound.Valid() &&
        currentRound.choices == d.choices && currentRound.correctIndex == d.correctIndex &&
        pool == d.rest && currentRound.IsFresh()
    {
      if currentRound != null {
        pastRounds := pastRounds + [currentRound];
      }
      if |pool| == 0 {
        ok := false;
        return;
      }
      var round := new Round(this, draws, pick);
      currentRound := round;
      ok := true;
    }
  }

  /** One round: its choices, the correct one, the wrong guesses made, and its
      own clock. */
  class Round {
    var choices: seq<Track>
    var correctIndex: int
    /** The wrong guesses made, in order; `None` stands for a failure the timer
        caused, which has no index. */
    var disabledChoices: seq<Option<nat>>
    var timeRemaining: real
    var roundScore: int
    var playing: bool
    /** Never assigned after construction, so the guard in `Choose` never fires. */
    var chosen: bool
    /** Whether the round's repeating timer is live. */
    var ticking: bool

    /** The choices are at most four distinct playable tracks, the correct
        index points at one of them when there is one, and `chosen` is false. */
    ghost predicate Valid()
      reads this
    {
      !chosen && |choices| <= ChoiceCount && NoDuplicates(choices) &&
      (forall t :: t in choices ==> t.availableForPlayback) &&
      (|choices| > 0 ==> 0 <= correctIndex < |choices|)
    }

    /** The state of a round that no event has touched yet. */
    ghost predicate IsFresh()
      reads this
    {
      disabledChoices == [] && timeRemaining == RoundTime && roundScore == 0 && !playing && !ticking
    }

    /** A new round draws its choices from the game's pool and takes the
        correct one out of it. */
    constructor (g: Game, draws: seq<Random>, pick: Random)
      requires |g.pool| > 0 && |draws| >= MaxAttempts
      modifies g`pool
      ensures Valid() && IsFresh()
      ensures var d := Deal(old(g.pool), draws, pick);
        choices == d.choices && correctIndex == d.correctIndex && g.pool == d.rest
    {
      choices := [];
      correctIndex := -1;
      disabledChoices := [];
      timeRemaining := RoundTime;
      roundScore := 0;
      playing := false;
      chosen := false;
      ticking := false;
      new;
      GetChoices(g, draws, pick);
    }

    /** Draws up to four choices in at most 50 attempts, picks the correct one
        and removes its first occurrence from the pool. */
    method GetChoices(g: Game, draws: seq<Random>, pick: Random)
      requires choices == [] && |g.pool| > 0 && |draws| >= MaxAttempts
      modifies this`choices, this`correctIndex, g`pool
      ensures var d := Deal(old(g.pool), draws, pick);
        choices == d.choices && correctIndex == d.correctIndex && g.pool == d.rest
    {
      var attempts := 0;
      while |choices| < ChoiceCount && attempts < MaxAttempts
        invariant 0 <= attempts <= MaxAttempts
        invariant g.pool == old(g.pool)
        invariant Draw(g.pool, draws, choices, attempts) == Draw(g.pool, draws, [], 0)
        decreases MaxAttempts - attempts
      {
        var track := g.pool[RandomIndex(draws[attempts], |g.pool|)];
        if track !in choices && track.availableForPlayback {
          choices := choices + [track];
        }
        attempts := attempts + 1;
      }
      assert Draw(g.pool, draws, choices, attempts) == (choices, attempts);
      correctIndex := RandomIndex(pick, |choices|);
      // With no choice, the missing track is not in the pool: its index is -1.
      var at := if |choices| > 0 then IndexOf(g.pool, choices[correctIndex]) else -1;
      g.pool := SpliceOne(g.pool, at);
      assert Deal(old(g.pool), draws, pick) == Dealt(choices, correctIndex, g.pool);
    }

    /** The correct track has started playing: the round timer starts. */
    method PlaybackStart()
      modifies this`playing, this`ticking
      ensures playing && ticking
    {
      playing := true;
      ticking := true;
    }

    /** One tick of the round timer. Both clocks lose one interval. When the
        game time is used up, the tick counts as a failure with no index; then,
        when the round time is used up, the multiplier is reset and the round
        ends. Returns how many new rounds the tick asked for: two when the game
        time was used up and the penalty ended the round, since both steps end
        it. */
    method Tick(g: Game) returns (requests: nat)
      requires g.Valid()
      modifies this`timeRemaining, this`disabledChoices, this`ticking, g`gameTimeRemaining, g`multiplier
      ensures g.Valid()
      ensures g.gameTimeRemaining == old(g.gameTimeRemaining) - TickInterval
      ensures g.gameTimeRemaining > 0.0 ==>
        timeRemaining == old(timeRemaining) - TickInterval &&
        disabledChoices == old(disabledChoices) &&
        if timeRemaining <= 0.0 then g.multiplier == 1 && requests == 1 && !ticking
        else g.multiplier == old(g.multiplier) && requests == 0 && ticking == old(ticking)
      ensures g.gameTimeRemaining <= 0.0 ==>
        timeRemaining == old(timeRemaining) - TickInterval - WrongGuessPenalty &&
        disabledChoices == old(disabledChoices) + [None] &&
        g.multiplier == 1 &&
        if timeRemaining <= 0.0 then requests == 2 && !ticking
        else requests == 0 && ticking == old(ticking)
    {
      timeRemaining := timeRemaining - TickInterval;
      g.gameTimeRemaining := g.gameTimeRemaining - TickInterval;
      requests := 0;
      if g.gameTimeRemaining <= 0.0 {
        var requested := Failure(g, None);
        if requested {
          requests := requests + 1;
        }
      }
      if timeRemaining <= 0.0 {
        g.multiplier := 1;
        var requested := End(true);
        if requested {
          requests := requests + 1;
        }
      }
    }

    /** The guard of `Choose`. It needs `chosen`, which is never set. */
    predicate Blocked()
      reads this
    {
      !playing && chosen
    }

    /** The player guesses choice `index`, `elapsed` milliseconds after the
        last tick. The correct index succeeds; a wrong index not guessed
        before fails; a wrong index guessed before changes nothing. */
    method Choose(g: Game, index: nat, elapsed: nat) returns (requested: bool)
      requires g.Valid()
      modifies this`timeRemaining, this`disabledChoices, this`roundScore, this`ticking
      modifies g`gameTimeRemaining, g`score, g`multiplier
      ensures g.Valid()
      ensures Blocked() || (index != correctIndex && Some(index) in old(disabledChoices)) ==>
        !requested && timeRemaining == old(timeRemaining) && disabledChoices == old(disabledChoices) &&
        roundScore == old(roundScore) && ticking == old(ticking) &&
        g.gameTimeRemaining == old(g.gameTimeRemaining) && g.score == old(g.score) &&
        g.multiplier == old(g.multiplier)
      ensures !Blocked() && index == correctIndex ==>
        requested && !ticking && disabledChoices == old(disabledChoices) &&
        g.multiplier == old(g.multiplier) + 1 &&
        if old(timeRemaining) > 0.0 then
          timeRemaining == old(timeRemaining) - elapsed as real &&
          g.gameTimeRemaining == old(g.gameTimeRemaining) - elapsed as real &&
          roundScore == RoundScore(timeRemaining, old(g.multiplier)) &&
          g.score == old(g.score) + roundScore
        else
          timeRemaining == old(timeRemaining) && g.gameTimeRemaining == old(g.gameTimeRemaining) &&
          roundScore == old(roundScore) && g.score == old(g.score)
      ensures !Blocked() && index != correctIndex && Some(index) !in old(disabledChoices) ==>
        disabledChoices == old(disabledChoices) + [Some(index)] &&
        g.multiplier == 1 &&
        timeRemaining == old(timeRemaining) - WrongGuessPenalty &&
        g.gameTimeRemaining == old(g.gameTimeRemaining) && g.score == old(g.score) &&
        roundScore == old(roundScore) &&
        (requested <==> timeRemaining <= 0.0) &&
        (if requested then !ticking else ticking == old(ticking))
    {
      if Blocked() {
        requested := false;
        return;
      }
      if index == correctIndex {
        requested := Success(g, elapsed);
      } else if Some(index) !in disabledChoices {
        requested := Failure(g, Some(index));
      } else {
        requested := false;
      }
    }

    /** A correct guess, `elapsed` milliseconds after the last tick. While the
        round has time left, both clocks lose the elapsed time and the round
        scores by the time now left and the current multiplier; in any case the
        multiplier then goes up by one and the round ends. */
    method Success(g: Game, elapsed: nat) returns (requested: bool)
      requires g.Valid()
      modifies this`timeRemaining, this`roundScore, this`ticking
      modifies g`gameTimeRemaining, g`score, g`multiplier
      ensures g.Valid()
      ensures requested && !ticking && g.multiplier == old(g.multiplier) + 1
      ensures old(timeRemaining) > 0.0 ==>
        timeRemaining == old(timeRemaining) - elapsed as real &&
        g.gameTimeRemaining == old(g.gameTimeRemaining) - elapsed as real &&
        roundScore == RoundScore(timeRemaining, old(g.multiplier)) &&
        g.score == old(g.score) + roundScore &&
        (timeRemaining > 0.0 ==> g.score > old(g.score))
      ensures old(timeRemaining) <= 0.0 ==>
        timeRemaining == old(timeRemaining) && g.gameTimeRemaining == old(g.gameTimeRemaining) &&
        roundScore == old(roundScore) && g.score == old(g.score)
    {
      if timeRemaining > 0.0 {
        timeRemaining := timeRemaining - elapsed as real;
        g.gameTimeRemaining := g.gameTimeRemaining - elapsed as real;
        roundScore := RoundScore(timeRemaining, g.multiplier);
        g.score := g.score + roundScore;
      }
      g.multiplier := g.multiplier + 1;
      requested := End(true);
    }

    /** A wrong guess: the index is disabled, the multiplier is reset and the
        round loses a third of the round time, not touching the game time; the
        round ends exactly when that leaves it no time. This is what the code
        after the UI step of `failure` does; the UI step itself reads a field
        that `Round` never defines, which is left out. */
    method Failure(g: Game, index: Option<nat>) returns (requested: bool)
      modifies this`disabledChoices, this`timeRemaining, this`ticking, g`multiplier
      ensures g.Valid() && g.multiplier == 1
      ensures disabledChoices == old(disabledChoices) + [index]
      ensures timeRemaining == old(timeRemaining) - WrongGuessPenalty
      ensures g.gameTimeRemaining == old(g.gameTimeRemaining)
      ensures requested <==> timeRemaining <= 0.0
      ensures if requested then !ticking else ticking == old(ticking)
    {
      disabledChoices := disabledChoices + [index];
      g.multiplier := 1;
      timeRemaining := timeRemaining - WrongGuessPenalty;
      if timeRemaining <= 0.0 {
        requested := End(true);
      } else {
        requested := false;
      }
    }

    /** Ending the round stops its timer; it asks for a new round exactly when
        `startNewRound` holds. */
    method End(startNewRound: bool) returns (requested: bool)
      modifies this`ticking
      ensures !ticking && requested == startNewRound
    {
      ticking := false;
      requested := startNewRound;
    }
  }

  /** Three different wrong guesses in a round that has its whole time end it:
      the first two leave it a third of its time, the third none. */
  method ThreeWrongGuesses(g: Game, r: Round, a: nat, b: nat, c: nat) returns (ended: seq<bool>)
    requires g.Valid() && r.Valid() && r.timeRemaining == RoundTime
    requires a != b && b != c && a != c
    requires a != r.correctIndex && b != r.correctIndex && c != r.correctIndex
    requires Some(a) !in r.disabledChoices && Some(b) !in r.disabledChoices && Some(c) !in r.disabledChoices
    modifies r`timeRemaining, r`disabledChoices, r`roundScore, r`ticking
    modifies g`gameTimeRemaining, g`score, g`multiplier
    ensures ended == [false, false, true]
    ensures r.timeRemaining <= 0.0 && !r.ticking && g.multiplier == 1
    ensures r.disabledChoices == old(r.disabledChoices) + [Some(a), Some(b), Some(c)]
    ensures g.score == old(g.score) && g.gameTimeRemaining == old(g.gameTimeRemaining)
  {
    var first := r.Choose(g, a, 0);
    assert r.timeRemaining == 2.0 * WrongGuessPenalty;
    var second := r.Choose(g, b, 0);
    assert r.timeRemaining == WrongGuessPenalty;
    var third := r.Choose(g, c, 0);
    ended := [first, second, third];
  }

  /** The guard of `Choose` never fires, so a round that a correct guess has
      ended still takes the correct guess again while it has time left: it
      scores twice, asks twice for a new round, and the multiplier goes up
      twice. */
  method CorrectGuessTwice(g: Game, r: Round, e1: nat, e2: nat) returns (first: bool, second: bool)
    requires g.Valid() && r.Valid() && |r.choices| > 0
    requires r.timeRemaining > (e1 + e2) as real
    modifies r`timeRemaining, r`disabledChoices, r`roundScore, r`ticking
    modifies g`gameTimeRemaining, g`score, g`multiplier
    ensures first && second && !r.ticking
    ensures g.multiplier == old(g.multiplier) + 2
    ensures g.score == old(g.score)
      + RoundScore(old(r.timeRemaining) - e1 as real, old(g.multiplier))
      + RoundScore(old(r.timeRemaining) - e1 as real - e2 as real, old(g.multiplier) + 1)
    ensures g.score > old(g.score) + 1
  {
    first := r.Choose(g, r.correctIndex as nat, e1);
    second := r.Choose(g, r.correctIndex as nat, e2);
  }
}

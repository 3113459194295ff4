/** The pool of tracks a game draws its rounds from: how a round's choices are
    drawn from it, how the correct answer leaves it, and how the bonus track
    joins it at the start of a game. */
module Pool {
  import opened Options

  /** A track of the player's library. Only its identity and whether it can be
      played matter to the game; the title, artist and cover only feed the UI. */
  datatype Track = Track(uri: string, availableForPlayback: bool)

  /** A value returned by `Math.random()`. */
  type Random = u: real | 0.0 <= u < 1.0

  predicate NoDuplicates<T(==)>(s: seq<T>) {
    forall i, j :: 0 <= i < j < |s| ==> s[i] != s[j]
  }

  /** `Array.prototype.indexOf`: the first position of `x` in `s`, or -1. */
  function IndexOf<T(==)>(s: seq<T>, x: T): (r: int)
    ensures r == -1 <==> x !in s
    ensures r != -1 ==> 0 <= r < |s| && s[r] == x && x !in s[..r]
  {
    if |s| == 0 then -1
    else if s[0] == x then 0
    else
      var k := IndexOf(s[1..], x);
      if k == -1 then -1
      else
        assert s[..k + 1] == [s[0]] + s[1..][..k];
        k + 1
  }

  /** `Math.floor(Math.random() * n)`: a position below `n`, or 0 when `n` is 0. */
  function RandomIndex(u: Random, n: nat): (i: int)
    ensures n > 0 ==> 0 <= i < n
    ensures n == 0 ==> i == 0
  {
    var x := u * n as real;
    assert 0.0 <= x <= u * n as real;
    assert n > 0 ==> x < n as real by {
      if n > 0 {
        assert (1.0 - u) * n as real > 0.0;
      }
    }
    x.Floor
  }

  /** The position that `Array.prototype.splice(start, 1)` removes on an array of
      length `n`: a negative start counts back from the end, and one before the
      front is clamped to 0. */
  function SpliceStart(n: nat, start: int): nat {
    if start >= 0 then start
    else if n + start >= 0 then n + start
    else 0
  }

  /** `s.splice(start, 1)`: the array without the element at `SpliceStart`. */
  function SpliceOne<T>(s: seq<T>, start: int): seq<T> {
    var k := SpliceStart(|s|, start);
    if k < |s| then s[..k] + s[k + 1..] else s
  }

  /** `s` without its element at position `i`. */
  lemma RemoveAt<T>(s: seq<T>, i: nat)
    requires i < |s|
    ensures var r := s[..i] + s[i + 1..];
      |r| == |s| - 1 &&
      (forall j :: 0 <= j < i ==> r[j] == s[j]) &&
      (forall j :: i <= j < |r| ==> r[j] == s[j + 1]) &&
      multiset(r) == multiset(s) - multiset{s[i]}
  {
    assert s == s[..i] + [s[i]] + s[i + 1..];
    assert multiset(s) == multiset(s[..i]) + multiset{s[i]} + multiset(s[i + 1..]);
  }

  /** The choice loop from its current state: `chosen` holds the choices so far
      and `attempts` counts the draws made. Each draw takes the pool position
      `draws[attempts]` selects and keeps the track when it is new and playable.
      Returns the choices and the number of draws made in all. */
  function Draw(pool: seq<Track>, draws: seq<Random>, chosen: seq<Track>, attempts: nat)
    : (seq<Track>, nat)
    requires |pool| > 0 && |draws| >= MaxAttempts
    decreases MaxAttempts - attempts
  {
    if |chosen| < ChoiceCount && attempts < MaxAttempts then
      var track := pool[RandomIndex(draws[attempts], |pool|)];
      var next := if track !in chosen && track.availableForPlayback then chosen + [track] else chosen;
      Draw(pool, draws, next, attempts + 1)
    else
      (chosen, attempts)
  }

  /** The loop stops after at most 50 draws, with four choices unless it used
      all 50; it only ever appends, at most one track a draw, and every track
      it keeps is a playable track of the pool that it did not hold yet. */
  lemma {:induction false} DrawProperties(pool: seq<Track>, draws: seq<Random>, chosen: seq<Track>, attempts: nat)
    requires |pool| > 0 && |draws| >= MaxAttempts
    requires attempts <= MaxAttempts && |chosen| <= ChoiceCount && NoDuplicates(chosen)
    requires forall t :: t in chosen ==> t in pool && t.availableForPlayback
    ensures var (r, n) := Draw(pool, draws, chosen, attempts);
      chosen <= r && |r| <= ChoiceCount && NoDuplicates(r) &&
      (forall t :: t in r ==> t in pool && t.availableForPlayback) &&
      attempts <= n <= MaxAttempts && |r| - |chosen| <= n - attempts &&
      (|r| == ChoiceCount || n == MaxAttempts)
    decreases MaxAttempts - attempts
  {
    if |chosen| < ChoiceCount && attempts < MaxAttempts {
      var track := pool[RandomIndex(draws[attempts], |pool|)];
      if track !in chosen && track.availableForPlayback {
        var next := chosen + [track];
        assert forall t :: t in next ==> t in chosen || t == track;
        DrawProperties(pool, draws, next, attempts + 1);
      } else {
        DrawProperties(pool, draws, chosen, attempts + 1);
      }
    }
  }

  /** What starting a round does to the pool: the choices drawn, the index of
      the correct one, and the pool that remains. */
  datatype Dealt = Dealt(choices: seq<Track>, correctIndex: int, rest: seq<Track>)

  /** A round's choices, its correct index and the pool it leaves behind, for the
      random values `draws` (one per draw of the loop) and `pick` (the one that
      selects the correct choice). When no playable track was drawn, the missing
      choice is looked up as -1, and `splice(-1, 1)` takes the pool's last track. */
  function Deal(pool: seq<Track>, draws: seq<Random>, pick: Random): (d: Dealt)
    requires |pool| > 0 && |draws| >= MaxAttempts
    ensures |d.choices| <= ChoiceCount && NoDuplicates(d.choices)
    ensures forall t :: t in d.choices ==> t in pool && t.availableForPlayback
    ensures |d.rest| == |pool| - 1
    ensures |d.choices| > 0 ==>
      0 <= d.correctIndex < |d.choices| &&
      var i := IndexOf(pool, d.choices[d.correctIndex]);
      0 <= i < |pool| && pool[i] == d.choices[d.correctIndex] &&
      d.choices[d.correctIndex] !in pool[..i] &&
      d.rest == pool[..i] + pool[i + 1..] &&
      multiset(d.rest) == multiset(pool) - multiset{d.choices[d.correctIndex]}
    ensures |d.choices| == 0 ==> d.correctIndex == 0 && d.rest == pool[..|pool| - 1]
  {
    DrawProperties(pool, draws, [], 0);
    var choices := Draw(pool, draws, [], 0).0;
    var k := RandomIndex(pick, |choices|);
    if |choices| > 0 then
      SpliceFirst(pool, choices[k]);
      Dealt(choices, k, SpliceOne(pool, IndexOf(pool, choices[k])))
    else
      SpliceLast(pool);
      Dealt(choices, k, SpliceOne(pool, -1))
  }

  /** Splicing at the first position of a track the pool holds removes exactly
      that occurrence and keeps the order of the rest. */
  lemma SpliceFirst(pool: seq<Track>, c: Track)
    requires c in pool
    ensures var i := IndexOf(pool, c);
      SpliceOne(pool, i) == pool[..i] + pool[i + 1..] &&
      multiset(SpliceOne(pool, i)) == multiset(pool) - multiset{c}
  {
    RemoveAt(pool, IndexOf(pool, c));
  }

  /** Splicing at -1 removes the last track. */
  lemma SpliceLast(pool: seq<Track>)
    requires |pool| > 0
    ensures SpliceOne(pool, -1) == pool[..|pool| - 1]
  {
    assert pool[|pool|..] == [];
  }

  /** In a pool without duplicates the correct track cannot come back: it is no
      longer in the pool, and the pool still has no duplicates. */
  lemma DealRetiresCorrectTrack(pool: seq<Track>, draws: seq<Random>, pick: Random)
    requires |pool| > 0 && |draws| >= MaxAttempts && NoDuplicates(pool)
    ensures var d := Deal(pool, draws, pick);
      NoDuplicates(d.rest) && (|d.choices| > 0 ==> d.choices[d.correctIndex] !in d.rest)
  {
    var d := Deal(pool, draws, pick);
    var i := if |d.choices| > 0 then IndexOf(pool, d.choices[d.correctIndex]) else |pool| - 1;
    RemoveAt(pool, i);
    assert d.rest == pool[..i] + pool[i + 1..];
    forall a, b | 0 <= a < b < |d.rest| ensures d.rest[a] != d.rest[b] {
      var a' := if a < i then a else a + 1;
      var b' := if b < i then b else b + 1;
      assert d.rest[a] == pool[a'] && d.rest[b] == pool[b'];
    }
    if |d.choices| > 0 {
      var c := d.choices[d.correctIndex];
      forall a | 0 <= a < |d.rest| ensures d.rest[a] != c {
        var a' := if a < i then a else a + 1;
        assert d.rest[a] == pool[a'] && a' != i;
      }
    }
  }

  /** The bonus-track step at the start of a game, as written: the track is
      appended only when the pool already holds it. */
  function BonusInsert(pool: seq<Track>, bonus: Track): (r: seq<Track>)
    ensures |pool| <= |r| && r[..|pool|] == pool
    ensures |r| == if bonus in pool then |pool| + 1 else |pool|
    ensures bonus in r <==> bonus in pool
  {
    if IndexOf(pool, bonus) != -1 then pool + [bonus] else pool
  }

  /** So the bonus track never joins a pool that lacks it, and in a pool that
      has it, it ends up twice. */
  lemma BonusInsertDuplicates(pool: seq<Track>, bonus: Track)
    requires bonus in pool
    ensures var r := BonusInsert(pool, bonus);
      multiset(r)[bonus] == multiset(pool)[bonus] + 1 && !NoDuplicates(r)
  {
    var r := BonusInsert(pool, bonus);
    var i := IndexOf(pool, bonus);
    assert r[i] == bonus && r[|pool|] == bonus;
  }
}

/** The game component of client/src/App.tsx: its React state as the fields
    of one object, and each event handler (a game-loop tick, a keystroke,
    the game-over check, the buttons) as a method that updates them.
    `Math.random()` draws and `Date.now()` readings are parameters. */
module KeyboardFall {
  import opened CharacterPool
  import opened FallingLetters
  import opened Leaderboard
  import Text

  datatype Option<T> = None | Some(value: T)

  datatype GameState = Menu | Playing | GameOver | Settings

  /** JavaScript's `parsed || d` on a parsed number: a failed parse (`NaN`,
      here `None`) and zero are falsy and give the default `d`; any other
      number is kept. */
  function OrDefault<T(==)>(parsed: Option<T>, zero: T, d: T): (r: T)
    ensures parsed == None || parsed == Some(zero) ==> r == d
    ensures parsed != None && parsed != Some(zero) ==> r == parsed.value
  {
    match parsed
    case None => d
    case Some(v) => if v == zero then d else v
  }

  /** The menu's start button is enabled exactly when the trimmed name is
      not empty, that is, when the name is not all whitespace. */
  function StartEnabled(name: string): (b: bool)
    ensures b <==> !Text.IsBlank(name)
  {
    Text.Trim(name) != []
  }

  /** Points for each letter typed in time. */
  const HitReward: nat := 20
  /** The speed ramp applies the configured rate scaled by this, every tick. */
  const SpeedRampScale: real := 0.01

  /** `id` was handed out by the id counter before it reached `n`. */
  ghost predicate IssuedBelow(id: string, n: nat) {
    exists k :: 0 <= k < n && id == LetterId(k)
  }

  /** The id the counter hands out next is not in use. */
  lemma FreshIdUnused(ls: seq<Letter>, n: nat)
    requires forall i :: 0 <= i < |ls| ==> IssuedBelow(ls[i].id, n)
    ensures forall i :: 0 <= i < |ls| ==> ls[i].id != LetterId(n)
  {
    forall i | 0 <= i < |ls| ensures ls[i].id != LetterId(n) {
      assert IssuedBelow(ls[i].id, n);
      var k :| 0 <= k < n && ls[i].id == LetterId(k);
      if ls[i].id == LetterId(n) {
        LetterIdInjective(k, n);
      }
    }
  }

  /** The live letters are all above the floor and carry distinct ids that
      the counter handed out before reaching `n`. */
  ghost predicate LettersValid(ls: seq<Letter>, n: nat) {
    && (forall i :: 0 <= i < |ls| ==> OnScreen(ls[i]))
    && UniqueIds(ls)
    && (forall i :: 0 <= i < |ls| ==> IssuedBelow(ls[i].id, n))
  }

  /** Leaving letters out keeps the live letters valid. */
  lemma SubsequenceKeepsLettersValid(r: seq<Letter>, ls: seq<Letter>, n: nat)
    requires LettersValid(ls, n) && IsSubsequence(r, ls)
    ensures LettersValid(r, n)
  {
    SubsequenceKeepsUniqueIds(r, ls);
    SubsequenceMembers(r, ls);
  }

  /** Advancing then culling keeps the live letters valid. */
  lemma AdvanceCullKeepsLettersValid(ls: seq<Letter>, n: nat)
    requires LettersValid(ls, n)
    ensures LettersValid(Cull(Advance(ls)), n)
  {
    var advanced := Advance(ls);
    AdvanceKeepsUniqueIds(ls);
    forall i | 0 <= i < |advanced| ensures IssuedBelow(advanced[i].id, n) {
      assert advanced[i].id == ls[i].id;
    }
    CullIsSubsequence(advanced);
    SubsequenceKeepsUniqueIds(Cull(advanced), advanced);
    SubsequenceMembers(Cull(advanced), advanced);
  }

  /** Appending a letter with the counter's next id keeps the live letters
      valid once the counter moves on. */
  lemma AppendFreshKeepsLettersValid(ls: seq<Letter>, n: nat, l: Letter)
    requires LettersValid(ls, n) && l.id == LetterId(n) && OnScreen(l)
    ensures LettersValid(ls + [l], n + 1)
  {
    FreshIdUnused(ls, n);
    var r := ls + [l];
    forall i | 0 <= i < |r| ensures IssuedBelow(r[i].id, n + 1) {
      if i < |ls| {
        assert IssuedBelow(ls[i].id, n);
        var k :| 0 <= k < n && ls[i].id == LetterId(k);
      }
    }
  }

  class Game {
    var state: GameState
    var letters: seq<Letter>
    var score: nat
    var explosions: nat
    var lettersTyped: nat
    var lettersMissed: nat
    /** `Date.now()` when the current game started; none before the first. */
    var startTime: Option<int>
    var currentSpeed: real

    var playerName: string
    var characterSet: CharacterSet
    var maxExplosions: int
    var initialFallSpeed: real
    var speedIncreaseRate: real

    var highScores: seq<HighScore>
    /** The letter id counter: the next letter gets `letter-<nextId>`. */
    var nextId: nat

    /** What every handler keeps true: live letters are above the floor and
        carry distinct ids already handed out; explosions and misses move in
        lockstep; the score is the hit reward per letter typed; the local
        leaderboard is sorted and capped. */
    ghost predicate Valid()
      reads this
    {
      && LettersValid(letters, nextId)
      && explosions == lettersMissed
      && score == HitReward * lettersTyped
      && SortedByScore(highScores) && |highScores| <= Capacity
    }

    /** The component's initial state. */
    constructor ()
      ensures Valid()
      ensures state == Menu && letters == [] && startTime == None
      ensures score == 0 && explosions == 0 && lettersTyped == 0 && lettersMissed == 0
      ensures currentSpeed == 1.0 && playerName == [] && characterSet == DefaultCharacterSet
      ensures maxExplosions == 10 && initialFallSpeed == 1.0 && speedIncreaseRate == 0.1
      ensures highScores == [] && nextId == 0
    {
      state := Menu;
      letters := [];
      score, explosions, lettersTyped, lettersMissed := 0, 0, 0, 0;
      startTime := None;
      currentSpeed := 1.0;
      playerName := [];
      characterSet := DefaultCharacterSet;
      maxExplosions := 10;
      initialFallSpeed := 1.0;
      speedIncreaseRate := 0.1;
      highScores := [];
      nextId := 0;
    }

    /** One game-loop tick: every letter falls by its speed, letters past the
        floor are removed and each counted as an explosion and a miss, a new
        letter is appended when `spawnRoll < 0.3`, and the speed ramps up.
        The loop runs only while playing. */
    method Tick(spawnRoll: real, symbolRoll: real, xRoll: real)
      requires Valid()
      requires 0.0 <= spawnRoll < 1.0 && 0.0 <= symbolRoll < 1.0 && 0.0 <= xRoll < 1.0
      modifies this`letters, this`explosions, this`lettersMissed, this`nextId, this`currentSpeed
      ensures Valid()
      ensures old(state) != Playing ==> unchanged(this)
      ensures old(state) == Playing ==>
        var advanced := Advance(old(letters));
        var spawned := spawnRoll < SpawnChance;
        && letters == Cull(advanced)
             + (if spawned then [NewLetter(old(nextId), Pool(characterSet), symbolRoll, xRoll, old(currentSpeed))] else [])
        && explosions == old(explosions) + OffscreenCount(advanced)
        && lettersMissed == old(lettersMissed) + OffscreenCount(advanced)
        && nextId == old(nextId) + (if spawned then 1 else 0)
        && currentSpeed == old(currentSpeed) + speedIncreaseRate * SpeedRampScale
    {
      if state != Playing {
        return;
      }
      FallAndCull();
      if spawnRoll < SpawnChance {
        Spawn(symbolRoll, xRoll);
      }
      currentSpeed := currentSpeed + speedIncreaseRate * SpeedRampScale;
    }

    /** The tick's first updater: advance every letter, then drop those past
        the floor, counting each as an explosion and a miss. */
    method FallAndCull()
      requires Valid()
      modifies this`letters, this`explosions, this`lettersMissed
      ensures Valid()
      ensures letters == Cull(Advance(old(letters)))
      ensures explosions == old(explosions) + OffscreenCount(Advance(old(letters)))
      ensures lettersMissed == old(lettersMissed) + OffscreenCount(Advance(old(letters)))
    {
      var advanced := Advance(letters);
      var remaining, missed := CullOffscreen(advanced);
      AdvanceCullKeepsLettersValid(letters, nextId);
      explosions := explosions + missed;
      lettersMissed := lettersMissed + missed;
      letters := remaining;
    }

    /** The tick's spawn: append one letter drawn from the pool, moving at the
        current speed, with the counter's next id. */
    method Spawn(symbolRoll: real, xRoll: real)
      requires Valid()
      requires 0.0 <= symbolRoll < 1.0 && 0.0 <= xRoll < 1.0
      modifies this`letters, this`nextId
      ensures Valid()
      ensures letters == old(letters) + [NewLetter(old(nextId), Pool(characterSet), symbolRoll, xRoll, currentSpeed)]
      ensures nextId == old(nextId) + 1
    {
      var pool := GenerateCharacterPool(characterSet);
      var spawned := NewLetter(nextId, pool, symbolRoll, xRoll, currentSpeed);
      AppendFreshKeepsLettersValid(letters, nextId, spawned);
      nextId := nextId + 1;
      letters := letters + [spawned];
    }

    /** The game-over effect: a game in play ends once the explosions reach
        the limit; in any other state nothing changes. */
    method CheckGameOver()
      requires Valid()
      modifies this`state
      ensures Valid()
      ensures state == if old(state) == Playing && explosions >= maxExplosions then GameOver else old(state)
    {
      if explosions >= maxExplosions && state == Playing {
        state := GameOver;
      }
    }

    /** A keystroke while playing: the oldest letter showing `key` is removed
        and scores a hit; a key no letter shows changes nothing. */
    method KeyPress(key: string)
      requires Valid()
      modifies this`letters, this`score, this`lettersTyped
      ensures Valid()
      ensures old(state) != Playing ==> unchanged(this)
      ensures old(state) == Playing ==>
        var i := FirstMatch(old(letters), key);
        if i == -1 then
          letters == old(letters) && score == old(score) && lettersTyped == old(lettersTyped)
        else
          && letters == RemoveAt(old(letters), i)
          && score == old(score) + HitReward
          && lettersTyped == old(lettersTyped) + 1
    {
      if state != Playing {
        return;
      }
      var i := FindIndex(letters, key);
      if i != -1 {
        score := score + HitReward;
        lettersTyped := lettersTyped + 1;
        var rest := RemoveAt(letters, i);
        RemoveAtIsSubsequence(letters, i);
        SubsequenceKeepsLettersValid(rest, letters, nextId);
        letters := rest;
      }
    }

    /** Start (or play again): a fresh game at the initial speed. */
    method StartGame(now: int)
      requires Valid()
      modifies this`state, this`score, this`explosions, this`lettersTyped, this`lettersMissed
      modifies this`letters, this`currentSpeed, this`startTime, this`nextId
      ensures Valid()
      ensures state == Playing && letters == []
      ensures score == 0 && explosions == 0 && lettersTyped == 0 && lettersMissed == 0
      ensures currentSpeed == initialFallSpeed && startTime == Some(now) && nextId == 0
    {
      state := Playing;
      score := 0;
      explosions := 0;
      lettersTyped := 0;
      lettersMissed := 0;
      letters := [];
      currentSpeed := initialFallSpeed;
      startTime := Some(now);
      nextId := 0;
    }

    /** Quit, or leave the game-over or settings screen: the live letters go,
        the counters stay as they were. */
    method BackToMenu()
      requires Valid()
      modifies this`state, this`letters
      ensures Valid()
      ensures state == Menu && letters == []
    {
      state := Menu;
      letters := [];
    }

    /** The menu's settings button. */
    method OpenSettings()
      requires Valid()
      modifies this`state
      ensures Valid()
      ensures state == Settings
    {
      state := Settings;
    }

    /** The name field of the menu. */
    method SetPlayerName(name: string)
      requires Valid()
      modifies this`playerName
      ensures Valid()
      ensures playerName == name
    {
      playerName := name;
    }

    /** A character-set check box of the settings screen. */
    method SetFlag(f: Flag, checked: bool)
      requires Valid()
      modifies this`characterSet
      ensures Valid()
      ensures characterSet == WithFlag(old(characterSet), f, checked)
    {
      characterSet := WithFlag(characterSet, f, checked);
    }

    /** The initial-speed field: the parsed number, or 1.0 when the parse
        fails or gives 0. */
    method SetInitialFallSpeed(parsed: Option<real>)
      requires Valid()
      modifies this`initialFallSpeed
      ensures Valid()
      ensures initialFallSpeed == OrDefault(parsed, 0.0, 1.0)
    {
      initialFallSpeed := OrDefault(parsed, 0.0, 1.0);
    }

    /** The speed-increase field: the parsed number, or 0.1 when the parse
        fails or gives 0. */
    method SetSpeedIncreaseRate(parsed: Option<real>)
      requires Valid()
      modifies this`speedIncreaseRate
      ensures Valid()
      ensures speedIncreaseRate == OrDefault(parsed, 0.0, 0.1)
    {
      speedIncreaseRate := OrDefault(parsed, 0.0, 0.1);
    }

    /** The explosion-limit field: the parsed integer, or 10 when the parse
        fails or gives 0. */
    method SetMaxExplosions(parsed: Option<int>)
      requires Valid()
      modifies this`maxExplosions
      ensures Valid()
      ensures maxExplosions == OrDefault(parsed, 0, 10)
    {
      maxExplosions := OrDefault(parsed, 0, 10);
    }

    /** Saving a score when the server cannot be reached: nothing happens for
        a blank name or before any game started; otherwise the result enters
        the local leaderboard. `savedAt` and `failedAt` are the two
        `Date.now()` readings (for the duration and for the entry's id). */
    method SaveHighScoreLocally(savedAt: int, failedAt: int)
      requires Valid()
      modifies this`highScores
      ensures Valid()
      ensures Text.IsBlank(playerName) || startTime == None ==> highScores == old(highScores)
      ensures !Text.IsBlank(playerName) && startTime != None ==>
        highScores == RecordLocally(old(highScores), HighScore(
          failedAt, Text.Trim(playerName), score, lettersTyped, lettersMissed,
          (savedAt - startTime.value) as real / 1000.0, characterSet))
    {
      var name := Text.Trim(playerName);
      if name == [] || startTime == None {
        return;
      }
      var duration := (savedAt - startTime.value) as real / 1000.0;
      var entry := HighScore(failedAt, name, score, lettersTyped, lettersMissed, duration, characterSet);
      highScores := RecordLocally(highScores, entry);
    }
  }
}

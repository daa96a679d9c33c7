/** Two short games played against the contracts of `KeyboardFall.Game`
    alone: what a player sees follows from the specifications. */
module Scenarios {
  import opened CharacterPool
  import opened FallingLetters
  import opened KeyboardFall
  import Text

  /** A lone letter that will be past the floor after one more fall. */
  lemma LandsNextTick(l: Letter)
    requires l.y + l.speed > FloorY
    ensures Cull(Advance([l])) == [] && OffscreenCount(Advance([l])) == 1
  {
    assert Advance([l])[0].y == l.y + l.speed;
    assert Advance([l]) == [Advance([l])[0]];
  }

  /** With the default flags a spawn whose symbol draw is 0 shows 'a'. */
  method FirstSpawnScenario() {
    var g := new Game();
    g.StartGame(0);
    assert Pool(g.characterSet) == LowerLatin;
    g.Tick(0.0, 0.0, 0.0);
    assert SpawnIndex(0.0, 26) == 0;
    assert LetterId(0) == "letter-0" by {
      assert Text.NatToDecimal(0) == "0";
    }
    assert g.letters == [Letter("letter-0", "a", 50.0, 0.0, 1.0)];
  }

  /** One letter 'a' on screen; typing 'a' scores it, typing 'a' again
      finds nothing and changes nothing. */
  method KeystrokeScenario(g: Game)
    requires g.Valid() && g.state == Playing
    requires |g.letters| == 1 && g.letters[0].letter == "a"
    requires g.score == 0 && g.lettersTyped == 0
    modifies g
  {
    g.KeyPress("a");
    assert g.letters == [] && g.score == 20 && g.lettersTyped == 1;
    g.KeyPress("a");
    assert g.letters == [] && g.score == 20 && g.lettersTyped == 1;
  }

  /** A tick that spawns into an empty screen: one letter at the top,
      moving faster than the play area is tall. */
  method SpawnFast(g: Game)
    requires g.Valid() && g.state == Playing && g.letters == []
    requires g.currentSpeed > 500.0 && g.speedIncreaseRate >= 0.0
    modifies g
    ensures g.Valid() && g.state == Playing
    ensures |g.letters| == 1 && g.letters[0].y + g.letters[0].speed > FloorY
    ensures g.explosions == old(g.explosions) && g.lettersMissed == old(g.lettersMissed)
    ensures g.score == old(g.score) && g.currentSpeed > 500.0
    ensures g.speedIncreaseRate == old(g.speedIncreaseRate) && g.maxExplosions == old(g.maxExplosions)
  {
    assert Advance([]) == [] && Cull([]) == [] && OffscreenCount([]) == 0;
    assert g.speedIncreaseRate * SpeedRampScale >= 0.0;
    ghost var speed := g.currentSpeed;
    g.Tick(0.0, 0.0, 0.0);
    ghost var l := NewLetter(old(g.nextId), Pool(g.characterSet), 0.0, 0.0, speed);
    assert g.letters == [l];
  }

  /** A quiet tick after that: the letter lands, one explosion and one miss. */
  method LandOne(g: Game)
    requires g.Valid() && g.state == Playing
    requires |g.letters| == 1 && g.letters[0].y + g.letters[0].speed > FloorY
    requires g.currentSpeed > 500.0 && g.speedIncreaseRate >= 0.0
    modifies g
    ensures g.Valid() && g.state == Playing && g.letters == []
    ensures g.explosions == old(g.explosions) + 1 && g.lettersMissed == old(g.lettersMissed) + 1
    ensures g.score == old(g.score) && g.currentSpeed > 500.0
    ensures g.speedIncreaseRate == old(g.speedIncreaseRate) && g.maxExplosions == old(g.maxExplosions)
  {
    assert g.speedIncreaseRate * SpeedRampScale >= 0.0;
    LandsNextTick(g.letters[0]);
    assert g.letters == [g.letters[0]];
    g.Tick(0.5, 0.0, 0.0);
  }

  /** A letter fast enough to land on the tick after it appears, left
      untyped: one explosion and one miss, and the screen is empty again. */
  method MissOne(g: Game)
    requires g.Valid() && g.state == Playing && g.letters == []
    requires g.currentSpeed > 500.0 && g.speedIncreaseRate >= 0.0
    modifies g
    ensures g.Valid() && g.state == Playing && g.letters == []
    ensures g.explosions == old(g.explosions) + 1 && g.lettersMissed == old(g.lettersMissed) + 1
    ensures g.score == old(g.score) && g.currentSpeed > 500.0
    ensures g.speedIncreaseRate == old(g.speedIncreaseRate) && g.maxExplosions == old(g.maxExplosions)
  {
    SpawnFast(g);
    LandOne(g);
  }

  /** With an explosion limit of 2, two unanswered letters end the game. */
  method TwoMissesScenario(g: Game)
    requires g.Valid() && g.state == Playing && g.maxExplosions == 2
    requires g.letters == [] && g.explosions == 0 && g.score == 0
    requires g.currentSpeed > 500.0 && g.speedIncreaseRate >= 0.0
    modifies g
  {
    MissOne(g);
    g.CheckGameOver();
    assert g.state == Playing;
    MissOne(g);
    g.CheckGameOver();
    assert g.state == GameOver && g.lettersMissed == 2 && g.score == 0;
  }

  /** Once the game is over, ticks, keystrokes and further checks change
      nothing: the transition fires once. */
  method GameOverIsFinalScenario(g: Game)
    requires g.Valid() && g.state == GameOver
    modifies g
  {
    var explosions, score := g.explosions, g.score;
    g.Tick(0.0, 0.0, 0.0);
    g.KeyPress("a");
    g.CheckGameOver();
    assert g.state == GameOver && g.explosions == explosions && g.score == score;
  }
}

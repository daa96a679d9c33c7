/** The live falling letters and the list transformations the game loop and
    the keyboard handler apply to them (client/src/App.tsx). Every
    transformation builds a new list from the old one. */
module FallingLetters {
  import Text

  /** The play area's floor: a letter whose `y` is past it has landed. */
  const FloorY: real := 500.0
  /** Chance per tick that a new letter is spawned. */
  const SpawnChance: real := 0.3

  /** A letter on screen: `x` is fixed at spawn, `y` grows by `speed` every
      tick, and `letter` is the one symbol the player has to type. */
  datatype Letter = Letter(id: string, letter: string, x: real, y: real, speed: real)

  /** The id given to the `n`-th letter of a game: `letter-<n>`. */
  function LetterId(n: nat): (id: string)
    ensures |id| > 7 && id[..7] == "letter-"
    ensures forall i :: 7 <= i < |id| ==> '0' <= id[i] <= '9'
  {
    "letter-" + Text.NatToDecimal(n)
  }

  /** The digits after `letter-` spell the counter value. */
  lemma LetterIdValue(n: nat)
    ensures Text.DecimalValue(LetterId(n)[7..]) == n
  {
    assert LetterId(n)[7..] == Text.NatToDecimal(n);
    Text.NatToDecimalValue(n);
  }

  /** Different counter values give different ids. */
  lemma LetterIdInjective(a: nat, b: nat)
    requires LetterId(a) == LetterId(b)
    ensures a == b
  {
    assert LetterId(a)[7..] == Text.NatToDecimal(a);
    assert LetterId(b)[7..] == Text.NatToDecimal(b);
    Text.NatToDecimalInjective(a, b);
  }

  /** No two letters of the list share an id. */
  predicate UniqueIds(ls: seq<Letter>) {
    forall i, j :: 0 <= i < j < |ls| ==> ls[i].id != ls[j].id
  }

  // ---------------------------------------------------------------------
  // Advancing
  // ---------------------------------------------------------------------

  /** Every letter moves down by its own speed; nothing else about it changes. */
  function Advance(ls: seq<Letter>): (r: seq<Letter>)
    ensures |r| == |ls|
    ensures forall i :: 0 <= i < |ls| ==>
      && r[i].id == ls[i].id && r[i].letter == ls[i].letter
      && r[i].x == ls[i].x && r[i].speed == ls[i].speed
      && r[i].y == ls[i].y + ls[i].speed
  {
    if ls == [] then [] else [ls[0].(y := ls[0].y + ls[0].speed)] + Advance(ls[1..])
  }

  /** Advancing keeps ids, so it keeps them unique. */
  lemma AdvanceKeepsUniqueIds(ls: seq<Letter>)
    requires UniqueIds(ls)
    ensures UniqueIds(Advance(ls))
  {
    var r := Advance(ls);
    forall i, j | 0 <= i < j < |r| ensures r[i].id != r[j].id {
      assert r[i].id == ls[i].id && r[j].id == ls[j].id;
    }
  }

  // ---------------------------------------------------------------------
  // Culling
  // ---------------------------------------------------------------------

  predicate OnScreen(l: Letter) {
    l.y <= FloorY
  }

  /** The letters still above the floor, in their order. */
  function Cull(ls: seq<Letter>): (r: seq<Letter>)
    ensures |r| <= |ls|
    ensures forall i :: 0 <= i < |r| ==> OnScreen(r[i]) && r[i] in ls
  {
    if ls == [] then []
    else (if OnScreen(ls[0]) then [ls[0]] else []) + Cull(ls[1..])
  }

  /** How many letters are past the floor: each one is an explosion and a miss. */
  function OffscreenCount(ls: seq<Letter>): (n: nat)
    ensures n <= |ls|
  {
    if ls == [] then 0
    else (if OnScreen(ls[0]) then 0 else 1) + OffscreenCount(ls[1..])
  }

  /** Every letter is either kept or counted, never both. */
  lemma {:induction false} CullPartitions(ls: seq<Letter>)
    ensures |Cull(ls)| + OffscreenCount(ls) == |ls|
  {
    if ls != [] {
      CullPartitions(ls[1..]);
    }
  }

  /** Culling works letter by letter: on a concatenation it is the
      concatenation of the culled parts, so survivors keep their order. */
  lemma {:induction false} CullAppend(a: seq<Letter>, b: seq<Letter>)
    ensures Cull(a + b) == Cull(a) + Cull(b)
    ensures OffscreenCount(a + b) == OffscreenCount(a) + OffscreenCount(b)
    decreases |a|
  {
    if a == [] {
      assert a + b == b;
    } else {
      assert (a + b)[1..] == a[1..] + b;
      CullAppend(a[1..], b);
    }
  }

  /** No letter still on screen is lost. */
  lemma {:induction false} CullKeepsOnScreen(ls: seq<Letter>, i: nat)
    requires i < |ls| && OnScreen(ls[i])
    ensures ls[i] in Cull(ls)
  {
    if i > 0 {
      CullKeepsOnScreen(ls[1..], i - 1);
    }
  }

  /** The filter callback of the game loop: walks the advanced letters once,
      keeping those on screen and counting the others. */
  method CullOffscreen(advanced: seq<Letter>) returns (remaining: seq<Letter>, missed: nat)
    ensures remaining == Cull(advanced)
    ensures missed == OffscreenCount(advanced)
  {
    remaining, missed := [], 0;
    var i := 0;
    while i < |advanced|
      invariant 0 <= i <= |advanced|
      invariant remaining == Cull(advanced[..i])
      invariant missed == OffscreenCount(advanced[..i])
    {
      assert advanced[..i + 1] == advanced[..i] + [advanced[i]];
      CullAppend(advanced[..i], [advanced[i]]);
      if advanced[i].y > FloorY {
        missed := missed + 1;
      } else {
        remaining := remaining + [advanced[i]];
      }
      i := i + 1;
    }
    assert advanced[..i] == advanced;
  }

  // ---------------------------------------------------------------------
  // Keystroke matching
  // ---------------------------------------------------------------------

  /** `i` is the lowest index whose letter is `key`. */
  predicate IsFirstMatch(ls: seq<Letter>, key: string, i: int) {
    && 0 <= i < |ls| && ls[i].letter == key
    && forall j :: 0 <= j < i ==> ls[j].letter != key
  }

  /** No letter is `key`. */
  predicate NoMatch(ls: seq<Letter>, key: string) {
    forall j :: 0 <= j < |ls| ==> ls[j].letter != key
  }

  /** `findIndex`: the index of the first letter equal to `key`, or -1. */
  function FirstMatch(ls: seq<Letter>, key: string): (r: int)
    ensures r == -1 <==> NoMatch(ls, key)
    ensures r != -1 ==> IsFirstMatch(ls, key, r)
  {
    if ls == [] then -1
    else if ls[0].letter == key then 0
    else
      var k := FirstMatch(ls[1..], key);
      if k == -1 then -1 else k + 1
  }

  /** The findIndex scan, oldest letter first. */
  method FindIndex(ls: seq<Letter>, key: string) returns (i: int)
    ensures i == -1 ==> NoMatch(ls, key)
    ensures i != -1 ==> IsFirstMatch(ls, key, i)
  {
    i := 0;
    while i < |ls|
      invariant 0 <= i <= |ls|
      invariant forall j :: 0 <= j < i ==> ls[j].letter != key
    {
      if ls[i].letter == key {
        return;
      }
      i := i + 1;
    }
    i := -1;
  }

  /** The list without its `i`-th letter: `filter((_, index) => index !== i)`
      keeps the letters before `i` where they were and shifts the ones after
      it down by one. */
  function RemoveAt(ls: seq<Letter>, i: nat): (r: seq<Letter>)
    requires i < |ls|
    ensures |r| == |ls| - 1
    ensures forall j :: 0 <= j < i ==> r[j] == ls[j]
    ensures forall j :: i <= j < |r| ==> r[j] == ls[j + 1]
  {
    ls[..i] + ls[i + 1..]
  }

  /** Removing one letter drops exactly that letter: the others stay, in order. */
  lemma RemoveAtDropsOne(ls: seq<Letter>, i: nat)
    requires i < |ls|
    ensures |RemoveAt(ls, i)| == |ls| - 1
    ensures multiset(RemoveAt(ls, i)) + multiset{ls[i]} == multiset(ls)
    ensures IsSubsequence(RemoveAt(ls, i), ls)
  {
    assert ls == ls[..i] + [ls[i]] + ls[i + 1..];
    RemoveAtIsSubsequence(ls, i);
  }

  // ---------------------------------------------------------------------
  // Order preservation
  // ---------------------------------------------------------------------

  /** `r` is `s` with some letters left out and the rest in their order. */
  predicate IsSubsequence(r: seq<Letter>, s: seq<Letter>)
    decreases |s|
  {
    if r == [] then true
    else if s == [] then false
    else (r[0] == s[0] && IsSubsequence(r[1..], s[1..])) || IsSubsequence(r, s[1..])
  }

  lemma {:induction false} SubsequenceReflexive(s: seq<Letter>)
    ensures IsSubsequence(s, s)
    decreases |s|
  {
    if s != [] {
      SubsequenceReflexive(s[1..]);
    }
  }

  /** Culling keeps the survivors in their relative order. */
  lemma {:induction false} CullIsSubsequence(ls: seq<Letter>)
    ensures IsSubsequence(Cull(ls), ls)
    decreases |ls|
  {
    if ls != [] {
      CullIsSubsequence(ls[1..]);
      if OnScreen(ls[0]) {
        assert Cull(ls)[1..] == Cull(ls[1..]);
      } else {
        assert Cull(ls) == [] + Cull(ls[1..]) == Cull(ls[1..]);
      }
    }
  }

  lemma {:induction false} RemoveAtIsSubsequence(ls: seq<Letter>, i: nat)
    requires i < |ls|
    ensures IsSubsequence(RemoveAt(ls, i), ls)
    decreases i
  {
    if i == 0 {
      assert RemoveAt(ls, 0) == ls[1..];
      SubsequenceReflexive(ls[1..]);
    } else {
      RemoveAtIsSubsequence(ls[1..], i - 1);
      assert RemoveAt(ls, i)[0] == ls[0];
      assert RemoveAt(ls, i)[1..] == RemoveAt(ls[1..], i - 1);
    }
  }

  /** A subsequence holds only letters of the original. */
  lemma {:induction false} SubsequenceMembers(r: seq<Letter>, s: seq<Letter>)
    requires IsSubsequence(r, s)
    ensures forall i :: 0 <= i < |r| ==> r[i] in s
    decreases |s|
  {
    if r != [] {
      if r[0] == s[0] && IsSubsequence(r[1..], s[1..]) {
        SubsequenceMembers(r[1..], s[1..]);
        forall i | 1 <= i < |r| ensures r[i] in s {
          assert r[i] == r[1..][i - 1];
        }
      } else {
        SubsequenceMembers(r, s[1..]);
      }
    }
  }

  /** Leaving letters out cannot create a duplicate id. */
  lemma {:induction false} SubsequenceKeepsUniqueIds(r: seq<Letter>, s: seq<Letter>)
    requires IsSubsequence(r, s) && UniqueIds(s)
    ensures UniqueIds(r)
    decreases |s|
  {
    if r != [] {
      assert UniqueIds(s[1..]) by {
        forall i, j | 0 <= i < j < |s[1..]| ensures s[1..][i].id != s[1..][j].id {
          assert s[1..][i] == s[i + 1] && s[1..][j] == s[j + 1];
        }
      }
      if r[0] == s[0] && IsSubsequence(r[1..], s[1..]) {
        SubsequenceKeepsUniqueIds(r[1..], s[1..]);
        SubsequenceMembers(r[1..], s[1..]);
        forall i, j | 0 <= i < j < |r| ensures r[i].id != r[j].id {
          assert r[j] == r[1..][j - 1];
          var k :| 0 <= k < |s[1..]| && s[1..][k] == r[j];
          assert s[k + 1] == r[j];
          if i > 0 {
            assert r[i] == r[1..][i - 1];
          }
        }
      } else {
        SubsequenceKeepsUniqueIds(r, s[1..]);
      }
    }
  }

  // ---------------------------------------------------------------------
  // Spawning
  // ---------------------------------------------------------------------

  /** `Math.floor(roll * n)` for a `Math.random()` draw `roll`: an index into
      a pool of `n` symbols. */
  function SpawnIndex(roll: real, n: nat): (i: nat)
    requires 0.0 <= roll < 1.0 && n > 0
    ensures i < n
  {
    assert 0.0 <= roll * n as real < n as real;
    (roll * n as real).Floor
  }

  /** `roll * 700 + 50`: a horizontal position inside the play area. */
  function SpawnX(roll: real): (x: real)
    requires 0.0 <= roll < 1.0
    ensures 50.0 <= x < 750.0
  {
    roll * 700.0 + 50.0
  }

  /** The letter spawned as the `serial`-th of a game: at the top, moving at
      the current speed, showing one symbol of the pool. */
  function NewLetter(serial: nat, pool: string, symbolRoll: real, xRoll: real, speed: real): (l: Letter)
    requires |pool| > 0
    requires 0.0 <= symbolRoll < 1.0 && 0.0 <= xRoll < 1.0
    ensures l.id == LetterId(serial) && l.y == 0.0 && l.speed == speed
    ensures |l.letter| == 1 && l.letter[0] in pool
    ensures 50.0 <= l.x < 750.0
  {
    Letter(LetterId(serial), [pool[SpawnIndex(symbolRoll, |pool|)]], SpawnX(xRoll), 0.0, speed)
  }
}

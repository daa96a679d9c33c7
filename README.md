# Keyboard Fall — a Dafny model of the client game engine

Keyboard Fall is a typing game. Letters fall down a 500-unit play area, and
the player types each one before it reaches the floor. A letter typed in time
is removed and scores 20 points. A letter that passes the floor explodes and
counts as a miss. The game ends when the explosions reach a configurable
limit. Finished games can go on a leaderboard. When the server cannot store a
result, the client keeps a local top-10 instead.

This project models the client's game engine, `client/src/App.tsx`:

- `character_pool.dfy` (module `CharacterPool`) holds the six character-set
  flags and the pool of symbols they select. `GenerateCharacterPool` builds
  the pool the way the source does, one `push` at a time, and is proved equal
  to the `Pool` function. Lemmas state what that pool contains and how large
  it is.
- `falling_letters.dfy` (module `FallingLetters`) holds the `Letter` record
  and the list transformations the game loop and the keyboard handler apply:
  - the fall (`Advance`);
  - the cull past the floor (`Cull`, `OffscreenCount`, and the loop method
    `CullOffscreen`);
  - `findIndex` (`FirstMatch`, and the loop method `FindIndex`);
  - removing one index (`RemoveAt`);
  - building a spawned letter (`NewLetter`).

  Lemmas show that survivors keep their order and their ids stay unique.
- `leaderboard.dfy` (module `Leaderboard`) holds the fallback update
  `[...prev, entry].sort((a, b) => b.score - a.score).slice(0, 10)`.
  `SortByScore` models that sort as a stable insertion sort, and
  `RecordLocally` is the whole update.
- `game.dfy` (module `KeyboardFall`) holds the component's React state as the
  fields of class `Game`, and each handler as a method:
  - one game-loop tick;
  - the game-over effect;
  - a keystroke;
  - start, back to menu and the settings button;
  - the settings fields;
  - the local save of a score.

  Every handler requires and preserves the class invariant `Valid`, which
  the constructor establishes. It says:
  - every live letter is above the floor;
  - live ids are distinct and were handed out by the id counter;
  - explosions equal misses;
  - the score is 20 per letter typed;
  - the local leaderboard is sorted and holds at most 10 entries.
- `text.dfy` (module `Text`) holds JavaScript's `String.prototype.trim`, used
  on the player's name, and the decimal rendering used in letter ids
  `letter-<n>`.
- `scenarios.dfy` (module `Scenarios`) plays short games against the `Game`
  contracts alone:
  - the first spawn of a default game is `letter-0`, showing `a` at x = 50;
  - a keystroke scores a hit, and a second one finds nothing;
  - two unanswered fast letters end a game whose explosion limit is 2;
  - after game over, nothing changes.

`Math.random()` draws are parameters in [0, 1): the spawn roll, the symbol
roll and the x roll. `Date.now()` readings are integer parameters.
Positions, speeds and durations are `real`.

## Model

| member | source | states |
|---|---|---|
| CharacterPool.GenerateCharacterPool | client/src/App.tsx:53-76 | the pushed-together pool equals `Pool(cs)`, the concatenation of the selected sub-alphabets in the fixed order (or `abc`), and is never empty |
| CharacterPool.Pool | client/src/App.tsx:53-76 | the pool the flags select, in closed form, is never empty |
| CharacterPool.PoolFallback | client/src/App.tsx:75 | the pool is never empty, and it is the fallback `a`, `b`, `c` exactly when no flag except `english` is set |
| CharacterPool.PoolMembership | client/src/App.tsx:56-75 | a symbol is in the pool iff a set flag selects a sub-alphabet holding it, or nothing is selected and it is one of `a`, `b`, `c` |
| CharacterPool.PoolSize | client/src/App.tsx:56-75 | the pool has 26/26/10/10/33/33 symbols for the six selected sub-alphabets, or 3 for the fallback |
| CharacterPool.EnglishIgnored | client/src/App.tsx:53-76 | the `english` flag has no effect on the pool |
| CharacterPool.AlphabetRanges | client/src/App.tsx:57-71 | Latin, digit and special symbols are ASCII; lower-case Cyrillic lies in U+0430..U+0451 and upper-case in U+0401..U+042F, so the groups are disjoint |
| CharacterPool.UpperCyrillicGated | client/src/App.tsx:68-73 | an upper-case Cyrillic letter is in the pool iff both `russian` and `uppercase` are set |
| CharacterPool.WithFlag | client/src/App.tsx:441-498 | a check box sets its own flag to the new value; every other flag, `english` included, keeps its value |
| FallingLetters.Advance | client/src/App.tsx:121-124 | same length; each letter keeps id, symbol, x and speed, and its y grows by exactly its own speed |
| FallingLetters.AdvanceKeepsUniqueIds | client/src/App.tsx:121-124 | the fall keeps ids distinct |
| FallingLetters.Cull | client/src/App.tsx:127-134 | every letter kept is on or above the floor (y <= 500) and comes from the input |
| FallingLetters.OffscreenCount | client/src/App.tsx:128-131 | counts at most as many letters as there are; with `CullPartitions`, exactly the letters the cull drops |
| FallingLetters.CullKeepsOnScreen | client/src/App.tsx:127-134 | no letter with y <= 500 is dropped |
| FallingLetters.CullPartitions | client/src/App.tsx:127-134 | kept letters plus counted letters add up to the input: each letter is kept or counted, never both |
| FallingLetters.CullAppend | client/src/App.tsx:127-134 | the cull and the count work letter by letter: over a concatenation they are the concatenation and the sum |
| FallingLetters.CullIsSubsequence | client/src/App.tsx:127-136 | the survivors keep their relative order |
| FallingLetters.CullOffscreen | client/src/App.tsx:127-134 | the filter loop returns exactly `Cull(advanced)` and counts exactly `OffscreenCount(advanced)` letters |
| FallingLetters.FirstMatch | client/src/App.tsx:174 | -1 iff no letter shows the key; otherwise the lowest index whose letter is the key |
| FallingLetters.FindIndex | client/src/App.tsx:174 | the findIndex scan returns -1 only when nothing matches, and otherwise the lowest matching index |
| FallingLetters.RemoveAtDropsOne | client/src/App.tsx:179 | removing index i loses exactly one letter, `ls[i]`: the multiset drops that one, the rest keep their order |
| FallingLetters.RemoveAt | client/src/App.tsx:179 | one letter shorter; letters before index i stay in place, letters after it move down by one |
| FallingLetters.RemoveAtIsSubsequence | client/src/App.tsx:179 | the letters left after a hit keep their relative order |
| FallingLetters.SubsequenceKeepsUniqueIds | client/src/App.tsx:127-136 | leaving letters out keeps ids distinct |
| FallingLetters.LetterIdInjective | client/src/App.tsx:143 | different counter values give different ids `letter-<n>` |
| FallingLetters.LetterId | client/src/App.tsx:143 | the id is `letter-` followed by decimal digits only |
| FallingLetters.LetterIdValue | client/src/App.tsx:143 | the digits after `letter-` spell exactly the counter value n |
| FallingLetters.SpawnIndex | client/src/App.tsx:144 | `Math.floor(roll * n)` is a valid index into a pool of n symbols |
| FallingLetters.SpawnX | client/src/App.tsx:145 | the spawn x lies in [50, 750) |
| FallingLetters.NewLetter | client/src/App.tsx:142-148 | the spawned letter has id `letter-<serial>`, y = 0, the given speed, x in [50, 750) and one symbol taken from the pool |
| Leaderboard.SortByScore | client/src/App.tsx:227 | the sort is a permutation of its input (same multiset), sorted by non-increasing score |
| Leaderboard.InsertKeepsSorted | client/src/App.tsx:227 | one insertion step of the sort keeps the list sorted |
| Leaderboard.CountSort | client/src/App.tsx:227 | sorting does not change how many entries reach a score |
| Leaderboard.SortSortedIsIdentity | client/src/App.tsx:227 | sorting an already sorted list leaves it unchanged, ties included |
| Leaderboard.RecordLocally | client/src/App.tsx:227 | the local leaderboard stays sorted, has min(old length + 1, 10) entries, and holds only old entries and the new one |
| Leaderboard.RecordLocallyKeepsQualifying | client/src/App.tsx:227 | the new entry stays whenever fewer than 10 earlier entries score at least as much |
| Leaderboard.BeatingTheLastEnters | client/src/App.tsx:227 | against a sorted leaderboard, a new entry that beats the 10th-best score (or joins a list that is not full) is kept |
| Leaderboard.TyingTheLastIsDropped | client/src/App.tsx:227 | against a full sorted leaderboard, a new entry that only ties (or trails) the 10th-best score is dropped and the list is unchanged |
| Leaderboard.RecordLocallyKeepsBest | client/src/App.tsx:227 | every entry the cut drops scores no more than every entry it keeps |
| KeyboardFall.Game.constructor | client/src/App.tsx:23-50 | the initial state: menu, no letters, zero counters, speed 1.0, default flags, limit 10, initial speed 1.0, rate 0.1, empty leaderboard |
| KeyboardFall.Game.Tick | client/src/App.tsx:119-154 | outside play nothing changes; in play the letters become the culled advanced letters plus, when spawnRoll < 0.3, one new letter at the end; explosions and misses grow by the culled count; the id counter grows by the spawn; the speed grows by rate * 0.01; the invariant holds |
| KeyboardFall.Game.FallAndCull | client/src/App.tsx:120-137 | the letters become `Cull(Advance(old))`, and explosions and misses each grow by `OffscreenCount(Advance(old))` |
| KeyboardFall.Game.Spawn | client/src/App.tsx:140-150 | exactly one letter, `NewLetter(counter, pool, …, current speed)`, is appended, and the counter moves on by one |
| KeyboardFall.Game.CheckGameOver | client/src/App.tsx:160-164 | the state becomes game over iff it was playing and explosions >= limit; otherwise it is unchanged |
| KeyboardFall.Game.KeyPress | client/src/App.tsx:170-184 | in play, the first letter showing the key is removed, the score grows by 20 and letters typed by 1; with no match, nothing changes; outside play, nothing changes |
| KeyboardFall.Game.StartGame | client/src/App.tsx:190-200 | playing, no letters, all four counters 0, speed = initial speed, start time recorded, id counter 0 |
| KeyboardFall.Game.BackToMenu | client/src/App.tsx:231-234 | menu, no letters; the counters are not in its frame and stay as they were |
| KeyboardFall.Game.OpenSettings | client/src/App.tsx:267 | the state becomes settings |
| KeyboardFall.Game.SetPlayerName | client/src/App.tsx:254 | the name becomes the typed text, untrimmed |
| KeyboardFall.StartEnabled | client/src/App.tsx:261 | the start button is enabled iff the name is not all whitespace |
| KeyboardFall.Game.SetFlag | client/src/App.tsx:441-498 | the character set becomes `WithFlag(old, flag, checked)` |
| KeyboardFall.Game.SetInitialFallSpeed | client/src/App.tsx:515-516 | the parsed number, or 1.0 when the parse fails or gives 0 |
| KeyboardFall.Game.SetSpeedIncreaseRate | client/src/App.tsx:529-530 | the parsed number, or 0.1 when the parse fails or gives 0 |
| KeyboardFall.Game.SetMaxExplosions | client/src/App.tsx:543-544 | the parsed integer, or 10 when the parse fails or gives 0 |
| KeyboardFall.OrDefault | client/src/App.tsx:516 | the logical-or fallback of the three number fields (also lines 530 and 544): a failed parse (NaN) or zero gives the default, any other number is kept |
| KeyboardFall.Game.SaveHighScoreLocally | client/src/App.tsx:202-229 | nothing for a blank name or before any game; otherwise the local leaderboard becomes `RecordLocally(old, entry)`, where the entry has the trimmed name, the counters, the character set and (save time - start) / 1000 as duration |
| KeyboardFall.AdvanceCullKeepsLettersValid | client/src/App.tsx:120-137 | after a fall and cull, live letters are on screen with distinct, already issued ids |
| KeyboardFall.AppendFreshKeepsLettersValid | client/src/App.tsx:143-149 | appending a letter with the counter's next id keeps ids distinct and issued |
| KeyboardFall.FreshIdUnused | client/src/App.tsx:143 | the id the counter hands out next is not carried by any live letter |
| Text.Trim | client/src/App.tsx:203-208 | the result has no leading or trailing whitespace, is a slice of the input, everything cut before and after it is whitespace, and it is empty iff the input is all whitespace |
| Text.TrimIdempotent | client/src/App.tsx:203-208 | trimming twice is trimming once |
| Text.NatToDecimalInjective | client/src/App.tsx:143 | distinct counters render to distinct decimal strings (a consequence of `NatToDecimalValue`) |
| Text.NatToDecimal | client/src/App.tsx:143 | the counter is written with at least one character, all decimal digits, a single one exactly when it is below 10 |
| Text.NatToDecimalValue | client/src/App.tsx:143 | the decimal digits spell exactly n (`DecimalValue`, most significant first), with no leading zero |

## Left out

- The server (`server/src/…`): its handlers are single ORM queries, and the
  router, database tables and validation schemas are configuration. The
  server-side save and `loadHighScores`, including the stub data it shows
  when the server is unreachable, are network calls. `SaveHighScoreLocally`
  models only the path taken when saving fails.
- Rendering (JSX), and the accuracy percentage on the game-over screen,
  which is a floating-point display.
- Timers and listeners. `setInterval`, `clearInterval` and
  `addEventListener` are not modelled. One tick and one keystroke are atomic
  methods, and `Tick` and `KeyPress` do nothing outside the playing state,
  since no interval or listener is installed then. The game-over effect is
  the separate method `CheckGameOver`, called after a step, as React runs it
  after the render.
- React's batching and its development-mode double invocation of updater
  functions. The counters are updated from inside updater functions: the
  miss counters from the game loop's filter callback, and the score and
  letters typed from the keystroke's `setFallingLetters` updater. A double
  invocation would count a miss, or a hit, twice. The model counts each
  culled letter and each hit once.
- `Math.random()` and `Date.now()` are parameters. The id of a locally
  saved entry is the `failedAt` reading, and `created_at` is not modelled.
- Floating point: positions, speeds and durations are exact reals. `NaN`
  from `parseFloat`/`parseInt` is `None`. How text parses into a number is
  not modelled: the setters take the parse result.
- KeyboardFall.Game.Tick: the id counter is an unbounded natural. In the
  source `letterIdRef.current++` is a floating-point number that stops
  growing at 2^53 (2^53 + 1 rounds back to 2^53), after which the same id is
  handed out again; the model's fresh ids, and the distinct-ids part of
  `Valid`, match the source only for fewer than 2^53 spawns in one game.
- Leaderboard.SortByScore: the stability of the engine's sort is modelled by
  construction: equal scores keep their order. It is stated as a property
  only for already sorted input (`SortSortedIsIdentity`,
  `TyingTheLastIsDropped`).
- KeyboardFall.Game.StartGame has no name check of its own. The blank-name
  guard is only the menu button's disabled state (`StartEnabled`). The
  game-over screen's "play again" button calls it unguarded.
- CharacterPool: the upper- and lower-case Cyrillic literals are the 33
  letters of the Russian alphabet each, in alphabetical order. The text of
  the source holds them in a mis-encoded form.

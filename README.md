# Shooting-gallery round state and top-10 leaderboard, in Dafny

This project models the two pieces of logic in a small browser first-person
shooting-gallery game and its Flask score server, and proves their properties.

- **Game** (`game.dfy`, from `static/js/game.js`): the script's module-level
  variables (`score`, `timeLeft`, `gameActive`, the pointer-lock state,
  `canJump`, the four `move*` flags, the vertical velocity as far as jumping and
  landing set it, and the `objects` target pool) are the fields of class
  `Session`. Each event callback is a method: the lock and unlock events, key
  down and key up, the one-second timer tick (which runs `endGame` when the
  clock reaches 0), `shoot` given the raycast's result, and the floor clamp of
  the animation loop. `endGame` returns the score it submits. Targets are
  objects of an empty class, so the pool's `filter(obj => obj !== hit)` works
  on identity as in the script. The pure functions `AfterTick`, `Pressed` and
  `Released` specify the methods. Lemmas about them prove these facts:
  - the clock stays in 1..60 and the score stays a non-negative multiple of 10;
  - a round ends after exactly `timeLeft` ticks and submits its score once;
  - a paused round is frozen;
  - a hit removes exactly the hit target, keeps the survivors in order and
    keeps the pool at 20 targets;
  - releasing a key after pressing it leaves the flags as releasing it alone
    would (the arrow key and the WASD key of a direction share one flag).
- **ScoreServer** (`score_server.dfy`, from `app.py`): `scores.json` is the
  field `file: Option<seq<int>>` of class `Server`, where `None` means that the
  file does not exist. `SaveScoreToFile` loads the list, appends the score,
  sorts it in non-increasing order, keeps the first 10 and writes the list
  back. The pure function `TopScores` specifies that list. Lemmas prove that it
  is sorted, that its length is `min(n + 1, 10)`, that it is contained in the
  old scores plus the new one, and that every dropped score is at most every
  kept score. They also prove that the new score is kept when fewer than 10
  were stored, and that on a list that is already a leaderboard, saving is a
  bounded sorted insert. Python's `sort(reverse=True)` is modelled by
  `SortDescending`, and `SortDescendingUnique` proves that any sorted
  permutation equals it.
- `wrappers.dfy` holds the `Option` type both use.

Two facts about the code shape the model:
- Between events the clock is never 0. The tick that reaches 0 runs
  `endGame`, which resets the clock to 60 in the same callback
  (`static/js/game.js:111`, `static/js/game.js:212`).
- `endGame` only asks for the pointer lock to be released
  (`static/js/game.js:201`). `gameActive` stays true until the separate
  unlock event, so `Unlock` is its own event.

## Model

| member | source | states |
|---|---|---|
| `Game.Without` | static/js/game.js:143 | the filtered pool no longer holds the hit target and is no longer than the old pool |
| `Game.WithoutAbsent` | static/js/game.js:143 | filtering out a target that is not in the pool leaves the pool unchanged |
| `Game.WithoutOne` | static/js/game.js:143 | in a pool without duplicates, filtering out the target at index i gives the pool with just that entry removed and the rest in their order |
| `Game.HitKeepsPool` | static/js/game.js:140-156 | a hit (filter, then push one new target) keeps the pool size and keeps it free of duplicates |
| `Game.Intent.Set` | static/js/game.js:59-65 | setting one movement flag changes that flag only |
| `Game.Pressed` | static/js/game.js:56-68 | on key down, a flag is set afterwards exactly when it was set before or the key is that flag's arrow key or WASD key; any other code leaves every flag as it was |
| `Game.Released` | static/js/game.js:70-81 | on key up, a flag is set afterwards exactly when it was set before and the key is not one of that flag's keys |
| `Game.DirectionOf` | static/js/game.js:57-65 | ArrowUp and KeyW steer forward, ArrowLeft and KeyA left, ArrowDown and KeyS backward, ArrowRight and KeyD right; every other code, Space included, steers nothing (the keyup switch at lines 72-79 uses the same mapping) |
| `Game.ReleaseAfterPress` | static/js/game.js:56-81 | releasing a key after pressing it leaves the flags as releasing it alone would; it does not restore a flag that the direction's other key had set |
| `Game.AfterTick` | static/js/game.js:107-113 | a tick changes nothing unless the round is active with time left; otherwise it takes exactly one second off; on the last second it submits the score and resets the round to 0 points and 60 seconds; the round invariant (1..60 seconds, score a non-negative multiple of 10) is preserved |
| `Game.Ticks` | static/js/game.js:107-113 | n firings of the timer callback keep the active flag, submit at most n scores, keep the round invariant, and every score they submit is a non-negative multiple of 10 |
| `Game.Countdown` | static/js/game.js:108-109 | while active, n ticks with more than n seconds left take exactly n seconds off and submit nothing |
| `Game.RoundEndsOnce` | static/js/game.js:108-111 | an active round ends after exactly `timeLeft` ticks, submits exactly one score (its own), and leaves a fresh round of 0 points and 60 seconds |
| `Game.PausedRoundFrozen` | static/js/game.js:108 | any number of ticks while not active change neither score nor clock and submit nothing |
| `Game.Session.constructor` | static/js/game.js:5-20 | the initial state: 0 points, 60 seconds, not active, not locked, no key held, cannot jump yet, and a pool of 20 new distinct targets |
| `Game.Session.SpawnTargets` | static/js/game.js:116-129 | appends exactly 20 new targets after the existing ones and keeps the pool free of duplicates |
| `Game.Session.Lock` | static/js/game.js:44-47 | sets `gameActive` and the lock; score and clock are unchanged (resume) |
| `Game.Session.Unlock` | static/js/game.js:49-52 | clears `gameActive` and the lock; score and clock are unchanged (pause) |
| `Game.Session.OnKeyDown` | static/js/game.js:56-68 | the flags become `Pressed` of the old flags; Space adds 350 to the vertical velocity only if `canJump` was true, and leaves `canJump` false; no other field changes |
| `Game.Session.OnKeyUp` | static/js/game.js:70-81 | the flags become `Released` of the old flags and nothing else changes |
| `Game.Session.Land` | static/js/game.js:189-193 | while locked, landing zeroes the vertical velocity and sets `canJump`; otherwise it changes nothing |
| `Game.Session.Shoot` | static/js/game.js:131-157 | unlocked or no hit: pool and score unchanged; a hit adds 10 to the score, removes exactly the hit target with the survivors in order, appends one new target, and keeps 20 distinct targets |
| `Game.Session.EndGame` | static/js/game.js:200-215 | returns the score as it was before the reset, then resets the score to 0 and the clock to 60 |
| `Game.Session.Tick` | static/js/game.js:107-113 | the round and the submitted score are those of `AfterTick` on the old round, and the game invariant (1..60 seconds, score equal to 10 per hit this round, 20 distinct targets) is preserved |
| `ScoreServer.DescendingAt` | app.py:18 | in a list where each score is at least the next, every earlier score is at least every later one |
| `ScoreServer.DescendingPrefix` | app.py:19 | cutting a non-increasing list keeps it non-increasing |
| `ScoreServer.Insert` | app.py:18 | inserting into a non-increasing list gives a non-increasing list one longer, with the same elements plus the new one |
| `ScoreServer.SortDescending` | app.py:18 | the result is in non-increasing order and is a permutation of the input |
| `ScoreServer.DescendingUnique` | app.py:18 | two non-increasing lists with the same elements are equal |
| `ScoreServer.SortDescendingUnique` | app.py:18 | any non-increasing permutation of a list is its `SortDescending` |
| `ScoreServer.TopScores` | app.py:15-21 | the saved list is non-increasing, has length `min(old length + 1, 10)`, and as a multiset is contained in the old list plus the new score |
| `ScoreServer.DroppedBelowKept` | app.py:17-19 | every score of old list plus new score that is not saved is at most every saved score |
| `ScoreServer.NewScoreKept` | app.py:17-19 | with fewer than 10 scores stored, nothing is dropped and the new score is in the saved list |
| `ScoreServer.SavedScoresCameFromInput` | app.py:17-19 | every saved score was stored before or is the new score |
| `ScoreServer.SaveIsBoundedInsert` | app.py:17-19 | on a list already in non-increasing order, saving equals inserting the new score in place and cutting the list at 10 |
| `ScoreServer.RequestScore` | app.py:30 | the request's `score` entry, or 0 when the key is absent |
| `ScoreServer.Server.constructor` | app.py:7 | the server starts on whatever `scores.json` holds, or on no file |
| `ScoreServer.Server.LoadScores` | app.py:9-13 | the empty list when no file exists, otherwise exactly the stored list |
| `ScoreServer.Server.SaveScoreToFile` | app.py:15-21 | the file then holds `TopScores` of the previously loaded list and the score, so a later load returns exactly what was written; the file is a valid leaderboard afterwards |
| `ScoreServer.Server.SaveScore` | app.py:27-32 | stores the request's score (0 if absent) as `SaveScoreToFile` does and echoes that same score with status "success" |
| `ScoreServer.Server.GetScores` | app.py:34-36 | returns the empty list when no file exists, otherwise the stored list, which is sorted and at most 10 long whenever the file holds a leaderboard, as it does after any save |

## Left out

- Rendering, the scene, camera, fog, lights, geometry and materials (`static/js/game.js:26-37`, `static/js/game.js:87-104`) are calls into the 3D library.
- Raycasting and nearest-hit selection are delegated geometry. `Shoot` takes the result as `None` or `Some(i)`, where i indexes the pool, and requires that index to be in range, since the raycaster only reports pool members.
- The locomotion integrator is floating-point arithmetic and is not modelled: damping, gravity, normalisation, `moveRight`/`moveForward` and `delta` from the clock. `velocityY` records only the jump impulse and the landing reset, and `Land` stands for a frame that finds the player below eye level. The test on the float height is not modelled.
- Random target positions and colours are not modelled: a target is an identity only.
- Scheduling is not modelled: `requestAnimationFrame`, `setInterval` timing, and how frames and ticks interleave. Each callback is one atomic method, and any order of calls is allowed.
- The DOM text updates, the `alert` and the `fetch` POST are not modelled. The submission is the value `EndGame` returns and `Tick` passes on.
- Window resize handling (`static/js/game.js:159-163`) is not modelled.
- The lock handler's own timing is not modelled: the pointer-lock library sets `isLocked` right around dispatching the lock and unlock events, and the model sets the lock state and `gameActive` together.
- Flask plumbing is not modelled: routing, parsing `request.json` (including a missing or non-dict body), `jsonify`, `render_template` and `app.run`. The request body is a `map<string, int>`, and the reply is the `SaveReply` value.
- Real file I/O (`os.path.exists`, `open`, `json.load`, `json.dump`) is replaced by the `file` field. A file that holds something other than a list of integers is not modelled.
- Non-integer `score` values are not modelled: the model takes the score to be an integer, which the server never checks.
- Concurrent requests are not modelled. `app.run` (`app.py:39`) serves requests on threads, so two overlapping `/save_score` requests can both load the list (`app.py:16`) before either writes (`app.py:20-21`), and the later write then drops the other's score; a `/get_scores` during a write can read a partly written file. Each route is modelled as one atomic step, so the save/load round trip and `NewScoreKept` hold only when requests run one at a time; the lost update is not modelled.

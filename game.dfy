/**
 * The round, score and input state of the browser shooting gallery
 * (static/js/game.js). The module-level variables of the script become the
 * fields of class Session, and each event callback becomes a method. Rendering,
 * raycasting, random placement and the float locomotion integrator are not
 * part of this model; a raycast is given to Shoot as its result.
 */
module Game {
  import opened Wrappers

  /** The countdown a round starts from, in seconds. */
  const RoundSeconds: int := 60
  /** Points awarded for each target hit. */
  const PointsPerHit: int := 10
  /** The number of targets spawned at start-up. */
  const PoolSize: nat := 20
  /** Vertical velocity added by a jump. */
  const JumpImpulse: int := 350

  /**
   * A target mesh. Only its identity matters here (the pool is filtered by
   * reference); its random position and colour are left out.
   */
  class Target {
    constructor() {}
  }

  /** No target occurs twice in the pool. */
  predicate Distinct(s: seq<Target>) {
    forall i, j :: 0 <= i < j < |s| ==> s[i] != s[j]
  }

  /** The pool without the hit target: `objects.filter(obj => obj !== hit)`. */
  function Without(s: seq<Target>, hit: Target): (r: seq<Target>)
    ensures |r| <= |s|
    ensures hit !in r
  {
    if s == [] then []
    else (if s[0] == hit then [] else [s[0]]) + Without(s[1..], hit)
  }

  /** Filtering out a target that is not in the pool leaves the pool as it was. */
  lemma {:induction false} WithoutAbsent(s: seq<Target>, hit: Target)
    requires hit !in s
    ensures Without(s, hit) == s
  {
    if s != [] {
      assert s == [s[0]] + s[1..];
      assert s[0] != hit;
      WithoutAbsent(s[1..], hit);
      assert Without(s, hit) == [s[0]] + Without(s[1..], hit);
    }
  }

  /**
   * Filtering out the target at index i of a pool without duplicates removes
   * exactly that one entry, and the survivors keep their relative order.
   */
  lemma {:induction false} WithoutOne(s: seq<Target>, i: nat)
    requires Distinct(s) && i < |s|
    ensures Without(s, s[i]) == s[..i] + s[i + 1..]
  {
    assert s == [s[0]] + s[1..];
    if i == 0 {
      WithoutAbsent(s[1..], s[0]);
    } else {
      WithoutOne(s[1..], i - 1);
      assert s[1..][i - 1] == s[i];
      assert s[..i] == [s[0]] + s[1..][..i - 1];
      assert s[i + 1..] == s[1..][i..];
    }
  }

  /**
   * A hit keeps the pool size: one target filtered out, one fresh target
   * appended, and still no duplicates.
   */
  lemma HitKeepsPool(pool: seq<Target>, i: nat, spawned: Target)
    requires Distinct(pool) && i < |pool| && spawned !in pool
    ensures |Without(pool, pool[i]) + [spawned]| == |pool|
    ensures Distinct(Without(pool, pool[i]) + [spawned])
  {
    WithoutOne(pool, i);
    var rest := pool[..i] + pool[i + 1..];
    forall a, b | 0 <= a < b < |rest| ensures rest[a] != rest[b] {
      var a' := if a < i then a else a + 1;
      var b' := if b < i then b else b + 1;
      assert rest[a] == pool[a'] && rest[b] == pool[b'];
    }
    assert forall t :: t in rest ==> t in pool;
  }

  /** The four movement keys' directions. */
  datatype Direction = Forward | Backward | Left | Right

  /** The `moveForward`, `moveBackward`, `moveLeft` and `moveRight` flags. */
  datatype Intent = Intent(forward: bool, backward: bool, left: bool, right: bool) {

    function Get(d: Direction): bool {
      match d
      case Forward => forward
      case Backward => backward
      case Left => left
      case Right => right
    }

    /** The same flags with the one for d set to b. */
    function Set(d: Direction, b: bool): (r: Intent)
      ensures r.Get(d) == b
      ensures forall e :: e != d ==> r.Get(e) == Get(e)
    {
      match d
      case Forward => this.(forward := b)
      case Backward => this.(backward := b)
      case Left => this.(left := b)
      case Right => this.(right := b)
    }
  }

  /** No movement key held. */
  const Idle := Intent(false, false, false, false)

  /**
   * The direction a key code steers; None for any other code. Each direction
   * has an arrow key and a WASD key, and the two share one flag.
   */
  function DirectionOf(code: string): (d: Option<Direction>)
    ensures d == Some(Forward) <==> code == "ArrowUp" || code == "KeyW"
    ensures d == Some(Left) <==> code == "ArrowLeft" || code == "KeyA"
    ensures d == Some(Backward) <==> code == "ArrowDown" || code == "KeyS"
    ensures d == Some(Right) <==> code == "ArrowRight" || code == "KeyD"
  {
    if code == "ArrowUp" || code == "KeyW" then Some(Forward)
    else if code == "ArrowLeft" || code == "KeyA" then Some(Left)
    else if code == "ArrowDown" || code == "KeyS" then Some(Backward)
    else if code == "ArrowRight" || code == "KeyD" then Some(Right)
    else None
  }

  /** The flags after a keydown: the key's own flag is set, every other flag kept. */
  function Pressed(m: Intent, code: string): (r: Intent)
    ensures forall d :: r.Get(d) == (m.Get(d) || DirectionOf(code) == Some(d))
  {
    match DirectionOf(code)
    case Some(d) => m.Set(d, true)
    case None => m
  }

  /** The flags after a keyup: the key's own flag is cleared, every other flag kept. */
  function Released(m: Intent, code: string): (r: Intent)
    ensures forall d :: r.Get(d) == (m.Get(d) && DirectionOf(code) != Some(d))
  {
    match DirectionOf(code)
    case Some(d) => m.Set(d, false)
    case None => m
  }

  /**
   * Releasing a key after pressing it leaves the flags as releasing it alone
   * would. (It does not restore the flag when the direction's other key was
   * already held: both keys share one flag.)
   */
  lemma {:induction false} ReleaseAfterPress(m: Intent, code: string)
    ensures Released(Pressed(m, code), code) == Released(m, code)
  {
    var a, b := Released(Pressed(m, code), code), Released(m, code);
    assert a.Get(Forward) == b.Get(Forward) && a.Get(Backward) == b.Get(Backward);
    assert a.Get(Left) == b.Get(Left) && a.Get(Right) == b.Get(Right);
  }

  /** The round variables: `score`, `timeLeft` and `gameActive`. */
  datatype Round = Round(score: int, timeLeft: int, active: bool)

  /** What holds between events: 1..60 seconds left, score a non-negative multiple of 10. */
  predicate RoundInv(r: Round) {
    1 <= r.timeLeft <= RoundSeconds && r.score >= 0 && r.score % PointsPerHit == 0
  }

  /** The round after one timer tick, and the score endGame submitted during it, if any. */
  datatype TickOutcome = TickOutcome(round: Round, submitted: Option<int>)

  /** One firing of the one-second timer callback, endGame included. */
  function AfterTick(r: Round): (o: TickOutcome)
    ensures o.round.active == r.active
    ensures !(r.active && r.timeLeft > 0) ==> o == TickOutcome(r, None)
    ensures r.active && r.timeLeft > 1 ==> o == TickOutcome(r.(timeLeft := r.timeLeft - 1), None)
    ensures r.active && r.timeLeft == 1 ==>
              o.submitted == Some(r.score) && o.round.score == 0 && o.round.timeLeft == RoundSeconds
    ensures RoundInv(r) ==> RoundInv(o.round)
  {
    if r.active && r.timeLeft > 0 then
      var left := r.timeLeft - 1;
      if left == 0 then TickOutcome(Round(0, RoundSeconds, r.active), Some(r.score))
      else TickOutcome(r.(timeLeft := left), None)
    else TickOutcome(r, None)
  }

  /** The round after n ticks and the scores submitted on the way, in order. */
  function Ticks(r: Round, n: nat): (res: (Round, seq<int>))
    ensures res.0.active == r.active
    ensures |res.1| <= n
    ensures RoundInv(r) ==> RoundInv(res.0)
    ensures RoundInv(r) ==> forall k :: 0 <= k < |res.1| ==> res.1[k] >= 0 && res.1[k] % PointsPerHit == 0
    decreases n
  {
    if n == 0 then (r, [])
    else
      var o := AfterTick(r);
      var rest := Ticks(o.round, n - 1);
      (rest.0, (if o.submitted.Some? then [o.submitted.value] else []) + rest.1)
  }

  /** While active, n whole seconds short of the end take exactly n off the clock and submit nothing. */
  lemma {:induction false} Countdown(r: Round, n: nat)
    requires r.active && RoundInv(r) && n < r.timeLeft
    ensures Ticks(r, n) == (r.(timeLeft := r.timeLeft - n), [])
    decreases n
  {
    if n > 0 {
      var next := r.(timeLeft := r.timeLeft - 1);
      assert AfterTick(r) == TickOutcome(next, None);
      Countdown(next, n - 1);
      var rest := Ticks(next, n - 1);
      assert Ticks(r, n) == (rest.0, [] + rest.1);
      assert rest.0 == r.(timeLeft := r.timeLeft - n) && [] + rest.1 == [];
    }
  }

  /**
   * An active round ends after exactly timeLeft ticks: endGame runs once,
   * submits the score, and the next round is ready at 0 points and 60 seconds.
   */
  lemma {:induction false} RoundEndsOnce(r: Round)
    requires r.active && RoundInv(r)
    ensures Ticks(r, r.timeLeft) == (Round(0, RoundSeconds, true), [r.score])
    decreases r.timeLeft
  {
    var ended := Round(0, RoundSeconds, true);
    if r.timeLeft == 1 {
      assert AfterTick(r) == TickOutcome(ended, Some(r.score));
      assert Ticks(ended, 0) == (ended, []);
      assert [r.score] + [] == [r.score];
    } else {
      var next := r.(timeLeft := r.timeLeft - 1);
      assert AfterTick(r) == TickOutcome(next, None);
      RoundEndsOnce(next);
      assert [] + [r.score] == [r.score];
    }
  }

  /** A paused round (view lock lost) keeps its score and clock however long it waits. */
  lemma {:induction false} PausedRoundFrozen(r: Round, n: nat)
    requires !r.active
    ensures Ticks(r, n) == (r, [])
    decreases n
  {
    if n > 0 {
      assert AfterTick(r) == TickOutcome(r, None);
      PausedRoundFrozen(r, n - 1);
      var rest := Ticks(r, n - 1);
      assert Ticks(r, n) == (rest.0, [] + rest.1);
      assert [] + rest.1 == [];
    }
  }

  /** The script's module-level state. */
  class Session {
    var score: int
    var timeLeft: int
    var gameActive: bool
    /** `controls.isLocked` of the pointer-lock controls. */
    var locked: bool
    var moveForward: bool
    var moveBackward: bool
    var moveLeft: bool
    var moveRight: bool
    var canJump: bool
    /** `velocity.y` as far as jumping and landing set it; gravity is left out. */
    var velocityY: int
    /** The live targets. */
    var objects: seq<Target>
    /** Targets hit since the round started. */
    ghost var hits: nat

    /** The state between events. */
    ghost predicate Valid()
      reads this
    {
      && RoundInv(RoundView())
      && score == PointsPerHit * hits
      && gameActive == locked
      && |objects| == PoolSize
      && Distinct(objects)
    }

    function RoundView(): Round
      reads this
    {
      Round(score, timeLeft, gameActive)
    }

    function IntentView(): Intent
      reads this
    {
      Intent(moveForward, moveBackward, moveLeft, moveRight)
    }

    /** Loading the script: the initial variable values, then init() spawning the targets. */
    constructor()
      ensures Valid()
      ensures RoundView() == Round(0, RoundSeconds, false) && !locked && hits == 0
      ensures IntentView() == Idle && !canJump && velocityY == 0
      ensures forall t :: t in objects ==> fresh(t)
    {
      score, timeLeft, gameActive, locked := 0, RoundSeconds, false, false;
      moveForward, moveBackward, moveLeft, moveRight := false, false, false, false;
      canJump, velocityY := false, 0;
      objects := [];
      hits := 0;
      new;
      SpawnTargets();
    }

    /** spawnTargets: pushes PoolSize new targets onto the pool. */
    method SpawnTargets()
      modifies this`objects
      ensures |objects| == |old(objects)| + PoolSize
      ensures objects[..|old(objects)|] == old(objects)
      ensures forall k :: |old(objects)| <= k < |objects| ==> fresh(objects[k])
      ensures Distinct(old(objects)) ==> Distinct(objects)
    {
      var i := 0;
      while i < PoolSize
        invariant 0 <= i <= PoolSize
        invariant |objects| == |old(objects)| + i
        invariant objects[..|old(objects)|] == old(objects)
        invariant forall k :: |old(objects)| <= k < |objects| ==> fresh(objects[k])
        invariant Distinct(old(objects)) ==> Distinct(objects)
      {
        var target := new Target();
        objects := objects + [target];
        i := i + 1;
      }
    }

    /** The 'lock' event: the round runs (again), score and clock as they were. */
    method Lock()
      requires Valid()
      modifies this`gameActive, this`locked
      ensures Valid()
      ensures RoundView() == old(RoundView()).(active := true) && locked
    {
      locked := true;
      gameActive := true;
    }

    /** The 'unlock' event: the round pauses, score and clock as they were. */
    method Unlock()
      requires Valid()
      modifies this`gameActive, this`locked
      ensures Valid()
      ensures RoundView() == old(RoundView()).(active := false) && !locked
    {
      locked := false;
      gameActive := false;
    }

    /** onKeyDown: a movement key sets its flag; Space jumps if grounded and clears canJump. */
    method OnKeyDown(code: string)
      requires Valid()
      modifies this`moveForward, this`moveBackward, this`moveLeft, this`moveRight
      modifies this`canJump, this`velocityY
      ensures Valid()
      ensures IntentView() == Pressed(old(IntentView()), code)
      ensures code == "Space" ==>
                !canJump && velocityY == old(velocityY) + (if old(canJump) then JumpImpulse else 0)
      ensures code != "Space" ==> canJump == old(canJump) && velocityY == old(velocityY)
    {
      if code == "ArrowUp" || code == "KeyW" {
        moveForward := true;
      } else if code == "ArrowLeft" || code == "KeyA" {
        moveLeft := true;
      } else if code == "ArrowDown" || code == "KeyS" {
        moveBackward := true;
      } else if code == "ArrowRight" || code == "KeyD" {
        moveRight := true;
      } else if code == "Space" {
        if canJump {
          velocityY := velocityY + JumpImpulse;
        }
        canJump := false;
      }
    }

    /** onKeyUp: a movement key clears its flag; any other key does nothing. */
    method OnKeyUp(code: string)
      requires Valid()
      modifies this`moveForward, this`moveBackward, this`moveLeft, this`moveRight
      ensures Valid()
      ensures IntentView() == Released(old(IntentView()), code)
    {
      if code == "ArrowUp" || code == "KeyW" {
        moveForward := false;
      } else if code == "ArrowLeft" || code == "KeyA" {
        moveLeft := false;
      } else if code == "ArrowDown" || code == "KeyS" {
        moveBackward := false;
      } else if code == "ArrowRight" || code == "KeyD" {
        moveRight := false;
      }
    }

    /**
     * The floor clamp of animate(), run when a frame finds the player below
     * eye level; animate only integrates while the controls are locked.
     */
    method Land()
      requires Valid()
      modifies this`canJump, this`velocityY
      ensures Valid()
      ensures locked ==> canJump && velocityY == 0
      ensures !locked ==> canJump == old(canJump) && velocityY == old(velocityY)
    {
      if locked {
        velocityY := 0;
        canJump := true;
      }
    }

    /**
     * shoot, given the raycast's result: None for no intersection, Some(i)
     * when the nearest target hit is objects[i].
     */
    method Shoot(hit: Option<nat>)
      requires Valid()
      requires hit.Some? ==> hit.value < |objects|
      modifies this`objects, this`score, this`hits
      ensures Valid()
      ensures !locked || hit.None? ==> objects == old(objects) && score == old(score)
      ensures locked && hit.Some? ==>
                && score == old(score) + PointsPerHit
                && objects[..|objects| - 1] == old(objects)[..hit.value] + old(objects)[hit.value + 1..]
                && fresh(objects[|objects| - 1])
    {
      if !locked {
        return;
      }
      if hit.Some? {
        var h := objects[hit.value];
        WithoutOne(objects, hit.value);
        objects := Without(objects, h);
        score := score + PointsPerHit;
        hits := hits + 1;
        var target := new Target();
        HitKeepsPool(old(objects), hit.value, target);
        objects := objects + [target];
      }
    }

    /** endGame: submits the score, then resets score and clock for the next round. */
    method EndGame() returns (submitted: int)
      modifies this`score, this`timeLeft, this`hits
      ensures submitted == old(score)
      ensures score == 0 && timeLeft == RoundSeconds && hits == 0
    {
      submitted := score;
      score := 0;
      timeLeft := RoundSeconds;
      hits := 0;
    }

    /** The one-second timer callback; returns the score endGame submitted, if it ran. */
    method Tick() returns (submitted: Option<int>)
      requires Valid()
      modifies this`score, this`timeLeft, this`hits
      ensures Valid()
      ensures TickOutcome(RoundView(), submitted) == AfterTick(old(RoundView()))
    {
      submitted := None;
      if gameActive && timeLeft > 0 {
        timeLeft := timeLeft - 1;
        if timeLeft == 0 {
          var s := EndGame();
          submitted := Some(s);
        }
      }
    }
  }
}

/**
  The game's state as a value and its per-frame phase machine as functions.

  Horizontal player quantities are kept in tenths of a pixel, so that the
  velocity steps of 0.1 are exact: a `playerX` of 40 is the pixel column 4,
  a `playerVx` of 15 is a speed of 1.5 pixels per frame. Enemy coordinates
  and the bullet's height are whole pixels, as in the game.
 */
module GameState {
  import opened Wrappers

  /** Tenths per pixel. */
  const Scale := 10
  /** An enemy is hit when the bullet is closer than this on both axes. */
  const HitRange := 6
  /** Pixel column the player is put back at when a shot is prepared. */
  const StartX := 4
  /** Velocity gained per held frame while moving, lost per frame while coasting (tenths). */
  const VxStep := 1
  /** Largest velocity (tenths per frame). */
  const VxMax := 15
  /** Frames the player must rest after coasting before the shot is fired. */
  const SettleFrames := 20
  /** Height a fired bullet starts at. */
  const BulletStartY := 128
  /** Pixels the bullet travels per frame. */
  const BulletSpeed := 3
  /** A bullet below this height has left the screen. */
  const BulletExitY := -10
  /** Updates a Fire phase can last at most: one per height the bullet drops to
      (125 down to -10), plus the frame it leaves the screen. */
  const FireFrameBound := 47

  /** The phase the game is in; Stop remembers the last frame the player still moved in. */
  datatype Phase = Ready | Moving | Stop(stoppedFrame: int) | Fire

  /** One target: a fixed position and whether it is still shown. */
  datatype EnemyState = EnemyState(x: int, y: int, alive: bool)

  /** All state one frame's update reads and writes. */
  datatype World = World(
    playerX: int,
    playerVx: int,
    bulletY: Option<int>,
    enemies: seq<EnemyState>,
    phase: Phase)

  /** What one frame reads from outside: fire held, fire just pressed, and the frame counter. */
  datatype Input = Input(fireHeld: bool, firePressed: bool, frame: int)

  function Abs(n: int): nat {
    if n < 0 then -n else n
  }

  function Min(a: int, b: int): int {
    if a < b then a else b
  }

  /** The layout the game starts with, every enemy shown. */
  function InitialEnemies(): seq<EnemyState> {
    [EnemyState(64, 32, true), EnemyState(32, 16, true), EnemyState(96, 16, true)]
  }

  /** The bullet is in flight and within range of `e` on both axes (the player's column is the bullet's). */
  predicate Hits(playerX: int, bulletY: Option<int>, e: EnemyState) {
    && bulletY.Some?
    && Abs(playerX - Scale * e.x) < Scale * HitRange
    && Abs(bulletY.value - e.y) < HitRange
  }

  /** One enemy's update: a hit hides the enemy and consumes the bullet. */
  function EnemyUpdate(playerX: int, bulletY: Option<int>, e: EnemyState): (r: (EnemyState, Option<int>))
    ensures r.0.x == e.x && r.0.y == e.y
    ensures r.0.alive ==> e.alive
    ensures r.1 == None || r.1 == bulletY
    ensures r.1 != bulletY <==> Hits(playerX, bulletY, e)
    ensures r.1 == bulletY ==> r.0 == e
    ensures Hits(playerX, bulletY, e) ==> r == (e.(alive := false), None)
  {
    if Hits(playerX, bulletY, e) then (e.(alive := false), None) else (e, bulletY)
  }

  /** Every enemy's update in list order, each seeing the bullet the previous ones left. */
  function UpdateEnemies(playerX: int, bulletY: Option<int>, es: seq<EnemyState>): (r: (Option<int>, seq<EnemyState>))
    ensures |r.1| == |es|
    ensures forall i :: 0 <= i < |es| ==> r.1[i].x == es[i].x && r.1[i].y == es[i].y
    ensures forall i :: 0 <= i < |es| ==> r.1[i].alive ==> es[i].alive
    ensures r.0 == None || r.0 == bulletY
    ensures r.0 == bulletY ==> r.1 == es
    decreases |es|
  {
    if es == [] then (bulletY, [])
    else
      var before := UpdateEnemies(playerX, bulletY, es[..|es| - 1]);
      var last := EnemyUpdate(playerX, before.0, es[|es| - 1]);
      assert es == es[..|es| - 1] + [es[|es| - 1]];
      (last.1, before.1 + [last.0])
  }

  /** The bullet's flight for one frame: down by 3, gone once below -10. */
  function AdvanceBullet(bulletY: Option<int>): (r: Option<int>)
    ensures bulletY == None ==> r == None
    ensures r.Some? ==> bulletY.Some? && r.value == bulletY.value - BulletSpeed && BulletExitY <= r.value
    ensures bulletY.Some? ==> (r.Some? <==> BulletExitY <= bulletY.value - BulletSpeed)
  {
    match bulletY
    case None => None
    case Some(b) => if b - BulletSpeed < BulletExitY then None else Some(b - BulletSpeed)
  }

  // Entry effects of each phase, applied when the phase is built.

  function EnterReady(w: World): World {
    w.(playerX := Scale * StartX, playerVx := 0, phase := Ready)
  }

  function EnterMoving(w: World): World {
    w.(phase := Moving)
  }

  function EnterStop(w: World, frame: int): World {
    w.(phase := Stop(frame))
  }

  function EnterFire(w: World): World {
    w.(bulletY := Some(BulletStartY), phase := Fire)
  }

  // The update of each phase; a phase that "returns itself" keeps `phase` as it is.

  function ReadyUpdate(w: World, input: Input): World {
    if input.firePressed then EnterMoving(w) else w
  }

  function MovingUpdate(w: World, input: Input): World {
    if input.fireHeld then
      var vx := Min(w.playerVx + VxStep, VxMax);
      w.(playerVx := vx, playerX := w.playerX + vx)
    else
      EnterStop(w, input.frame)
  }

  function StopUpdate(w: World, stoppedFrame: int, input: Input): World {
    if w.playerVx > 0 then
      w.(playerX := w.playerX + w.playerVx, playerVx := w.playerVx - VxStep, phase := Stop(input.frame))
    else if input.frame - stoppedFrame < SettleFrames then
      w
    else
      EnterFire(w)
  }

  function FireUpdate(w: World): World {
    var hit := UpdateEnemies(w.playerX, AdvanceBullet(w.bulletY), w.enemies);
    var after := w.(bulletY := hit.0, enemies := hit.1);
    if hit.0 == None then EnterReady(after) else after
  }

  /** One frame: the current phase's update. */
  function Step(w: World, input: Input): World {
    match w.phase
    case Ready => ReadyUpdate(w, input)
    case Moving => MovingUpdate(w, input)
    case Stop(stoppedFrame) => StopUpdate(w, stoppedFrame, input)
    case Fire => FireUpdate(w)
  }

  /** The frames `inputs`, one after another. */
  function Run(w: World, inputs: seq<Input>): World
    decreases |inputs|
  {
    if inputs == [] then w else Run(Step(w, inputs[0]), inputs[1..])
  }

  /** The enemies are still the three of the start, at their places. */
  predicate Layout(es: seq<EnemyState>) {
    && |es| == |InitialEnemies()|
    && forall i :: 0 <= i < |es| ==> es[i].x == InitialEnemies()[i].x && es[i].y == InitialEnemies()[i].y
  }

  /** What holds of every state the game can reach. */
  predicate Inv(w: World) {
    && 0 <= w.playerVx <= VxMax
    && Scale * StartX <= w.playerX
    && Layout(w.enemies)
    && (w.phase == Ready ==> w.playerX == Scale * StartX && w.playerVx == 0)
    && (w.phase != Fire ==> w.bulletY == None)
    && (w.phase == Fire ==>
          && w.playerVx == 0
          && w.bulletY.Some?
          && BulletExitY <= w.bulletY.value <= BulletStartY
          && w.bulletY.value % BulletSpeed == BulletStartY % BulletSpeed)
  }

  /** The state the game is created in: Ready, no bullet, three enemies. */
  function Init(): (w: World)
    ensures Inv(w)
    ensures w.phase == Ready && w.bulletY == None
    ensures w.playerX == Scale * StartX && w.playerVx == 0
    ensures |w.enemies| == 3 && forall i :: 0 <= i < 3 ==> w.enemies[i].alive
  {
    EnterReady(World(0, 0, None, InitialEnemies(), Ready))
  }
}

/**
  The game objects as the program has them: enemies and the app are objects
  whose fields each phase's update changes in place. Every method is proved
  against the matching function of GameState on the value `Model()`.
 */
module Wheel {
  import opened Wrappers
  import opened GameState
  import GameProps

  class Enemy {
    const x: int
    const y: int
    /** Whether the enemy is still shown (`exists` in the program). */
    var alive: bool

    constructor (x: int, y: int)
      ensures this.x == x && this.y == y && alive
    {
      this.x := x;
      this.y := y;
      alive := true;
    }

    function State(): EnemyState
      reads this
    {
      EnemyState(x, y, alive)
    }

    /** The hit test: a bullet in range hides this enemy and is consumed. */
    method Update(app: App)
      modifies this, app`bulletY
      ensures (State(), app.bulletY) == EnemyUpdate(app.playerX, old(app.bulletY), old(State()))
    {
      if Hits(app.playerX, app.bulletY, State()) {
        alive := false;
        app.bulletY := None;
      }
    }
  }

  /** The enemies' current values, in list order. */
  function States(es: seq<Enemy>): seq<EnemyState>
    reads es
  {
    seq(|es|, i requires 0 <= i < |es| reads es => es[i].State())
  }

  /** No enemy object appears twice in the list. */
  predicate Distinct(es: seq<Enemy>) {
    forall i, j :: 0 <= i < j < |es| ==> es[i] != es[j]
  }

  class App {
    /** The player's column, in tenths of a pixel. */
    var playerX: int
    /** The player's speed, in tenths of a pixel per frame. */
    var playerVx: int
    var bulletY: Option<int>
    const enemies: seq<Enemy>
    var phase: Phase

    function Model(): World
      reads this, enemies
    {
      World(playerX, playerVx, bulletY, States(enemies), phase)
    }

    ghost predicate Valid()
      reads this, enemies
    {
      Distinct(enemies) && Inv(Model())
    }

    /** No bullet, the three enemies, and the Ready phase (whose entry puts the player at the start). */
    constructor ()
      ensures Valid() && Model() == Init()
      ensures forall i :: 0 <= i < |enemies| ==> fresh(enemies[i])
    {
      bulletY := None;
      var e0 := new Enemy(64, 32);
      var e1 := new Enemy(32, 16);
      var e2 := new Enemy(96, 16);
      enemies := [e0, e1, e2];
      new;
      var p := StartReady();
      phase := p;
      assert States(enemies) == InitialEnemies();
    }

    // Building each phase, with its entry effect.

    method StartReady() returns (p: Phase)
      modifies this`playerX, this`playerVx
      ensures Model().(phase := p) == EnterReady(old(Model()))
    {
      playerX := Scale * StartX;
      playerVx := 0;
      p := Ready;
    }

    method StartMoving() returns (p: Phase)
      ensures Model().(phase := p) == EnterMoving(Model())
    {
      p := Moving;
    }

    method StartStop(frame: int) returns (p: Phase)
      ensures Model().(phase := p) == EnterStop(Model(), frame)
    {
      p := Stop(frame);
    }

    method StartFire() returns (p: Phase)
      modifies this`bulletY
      ensures Model().(phase := p) == EnterFire(old(Model()))
    {
      bulletY := Some(BulletStartY);
      p := Fire;
    }

    // The update of each phase, returning the phase of the next frame.

    method UpdateReady(input: Input) returns (next: Phase)
      requires phase == Ready
      ensures Model().(phase := next) == ReadyUpdate(Model(), input)
    {
      if input.firePressed {
        next := StartMoving();
      } else {
        next := phase;
      }
    }

    method UpdateMoving(input: Input) returns (next: Phase)
      requires phase == Moving
      modifies this`playerX, this`playerVx
      ensures Model().(phase := next) == MovingUpdate(old(Model()), input)
    {
      if input.fireHeld {
        playerVx := Min(playerVx + VxStep, VxMax);
        playerX := playerX + playerVx;
        next := phase;
      } else {
        next := StartStop(input.frame);
      }
    }

    method UpdateStop(input: Input) returns (next: Phase)
      requires phase.Stop?
      modifies this`playerX, this`playerVx, this`bulletY
      ensures Model().(phase := next) == StopUpdate(old(Model()), phase.stoppedFrame, input)
    {
      if playerVx > 0 {
        playerX := playerX + playerVx;
        playerVx := playerVx - VxStep;
        next := Stop(input.frame);
      } else if input.frame - phase.stoppedFrame < SettleFrames {
        next := phase;
      } else {
        next := StartFire();
      }
    }

    /** After the hit tests of the first i enemies: the bullet and those enemies are the
        pass over the first i of the values `before`, and the others still hold theirs. */
    ghost predicate PassedUpTo(i: int, start: Option<int>, before: seq<EnemyState>)
      reads this, enemies
    {
      && 0 <= i <= |enemies| == |before|
      && bulletY == UpdateEnemies(playerX, start, before[..i]).0
      && (forall j :: 0 <= j < i ==> enemies[j].State() == UpdateEnemies(playerX, start, before[..i]).1[j])
      && (forall j :: i <= j < |enemies| ==> enemies[j].State() == before[j])
    }

    /** The hit test of enemy i, as one step of the pass over the list. */
    method UpdateEnemyAt(i: int, ghost start: Option<int>, ghost before: seq<EnemyState>)
      requires Distinct(enemies) && i < |enemies| && PassedUpTo(i, start, before)
      modifies this`bulletY, enemies[i]
      ensures PassedUpTo(i + 1, start, before)
    {
      ghost var pass := UpdateEnemies(playerX, start, before[..i]);
      ghost var last := EnemyUpdate(playerX, bulletY, before[i]);
      GameProps.UpdateEnemiesSnoc(playerX, start, before, i);
      enemies[i].Update(this);
      forall j | 0 <= j < i
        ensures enemies[j].State() == (pass.1 + [last.0])[j]
      {
        assert enemies[j] != enemies[i];
      }
      forall j | i + 1 <= j < |enemies|
        ensures enemies[j].State() == before[j]
      {
        assert enemies[j] != enemies[i];
      }
    }

    /** Each enemy's hit test in list order, each seeing the bullet the previous ones left. */
    method UpdateAllEnemies()
      requires Distinct(enemies)
      modifies this`bulletY, enemies
      ensures bulletY == UpdateEnemies(playerX, old(bulletY), old(States(enemies))).0
      ensures States(enemies) == UpdateEnemies(playerX, old(bulletY), old(States(enemies))).1
    {
      ghost var start := bulletY;
      ghost var before := States(enemies);
      var i := 0;
      while i < |enemies|
        invariant PassedUpTo(i, start, before)
      {
        UpdateEnemyAt(i, start, before);
        i := i + 1;
      }
      assert before[..i] == before;
      ghost var pass := UpdateEnemies(playerX, start, before);
      assert |States(enemies)| == |pass.1|;
      forall j | 0 <= j < |enemies|
        ensures States(enemies)[j] == pass.1[j]
      {
      }
    }

    method UpdateFire() returns (next: Phase)
      requires phase == Fire && Distinct(enemies)
      modifies this`playerX, this`playerVx, this`bulletY, enemies
      ensures Model().(phase := next) == FireUpdate(old(Model()))
    {
      ghost var w := old(Model());
      if bulletY.Some? {
        bulletY := Some(bulletY.value - BulletSpeed);
        if bulletY.value < BulletExitY {
          bulletY := None;
        }
      }
      assert bulletY == AdvanceBullet(w.bulletY);
      assert States(enemies) == w.enemies;
      UpdateAllEnemies();
      ghost var pass := UpdateEnemies(w.playerX, AdvanceBullet(w.bulletY), w.enemies);
      assert Model() == w.(bulletY := pass.0, enemies := pass.1);
      if bulletY == None {
        next := StartReady();
      } else {
        next := phase;
      }
    }

    /** One frame: the current phase updates the app and names its successor. */
    method Update(input: Input)
      requires Valid()
      modifies this, enemies
      ensures Valid()
      ensures Model() == GameState.Step(old(Model()), input)
    {
      var next: Phase;
      match phase {
        case Ready => next := UpdateReady(input);
        case Moving => next := UpdateMoving(input);
        case Stop(_) => next := UpdateStop(input);
        case Fire => next := UpdateFire();
      }
      phase := next;
      GameProps.StepPreservesInv(old(Model()), input);
    }
  }
}

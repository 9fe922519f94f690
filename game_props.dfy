/** Properties of the phase machine in GameState. */
module GameProps {
  import opened Wrappers
  import opened GameState

  // ---------------------------------------------------------------------
  // The hit rule

  /** The hit test never asks whether the enemy is still shown: a hidden enemy
      in range absorbs the bullet all the same, and stays hidden. */
  lemma HiddenEnemyStillBlocks(playerX: int, bulletY: Option<int>, e: EnemyState)
    requires !e.alive && Hits(playerX, bulletY, e)
    ensures EnemyUpdate(playerX, bulletY, e) == (e, None)
  {
  }

  /** The index of the first enemy in range of the bullet as it enters the pass,
      or |es| when none is. */
  function FirstInRange(playerX: int, bulletY: Option<int>, es: seq<EnemyState>): (k: int)
    ensures 0 <= k <= |es|
    ensures k < |es| ==> Hits(playerX, bulletY, es[k])
    ensures forall j :: 0 <= j < k ==> !Hits(playerX, bulletY, es[j])
    decreases |es|
  {
    if es == [] then 0
    else
      var k := FirstInRange(playerX, bulletY, es[..|es| - 1]);
      if k < |es| - 1 then k
      else if Hits(playerX, bulletY, es[|es| - 1]) then |es| - 1
      else |es|
  }

  /** An enemy pass over the list hits exactly the first enemy in range (if any):
      it hides that one, consumes the bullet, and leaves every other enemy as it was;
      with none in range, nothing changes. */
  lemma {:induction false} UpdateEnemiesFirstHit(playerX: int, bulletY: Option<int>, es: seq<EnemyState>)
    ensures var k := FirstInRange(playerX, bulletY, es);
      UpdateEnemies(playerX, bulletY, es) ==
        if k < |es| then (None, es[k := es[k].(alive := false)]) else (bulletY, es)
    decreases |es|
  {
    if es != [] {
      var n := |es|;
      var prefix, last := es[..n - 1], es[n - 1];
      UpdateEnemiesFirstHit(playerX, bulletY, prefix);
      var k := FirstInRange(playerX, bulletY, prefix);
      var pass := UpdateEnemies(playerX, bulletY, prefix);
      var next := EnemyUpdate(playerX, pass.0, last);
      assert UpdateEnemies(playerX, bulletY, es) == (next.1, pass.1 + [next.0]);
      if k < n - 1 {
        assert FirstInRange(playerX, bulletY, es) == k && next == (last, None);
        HideThenAppend(prefix, k, last);
        assert es == prefix + [last];
      } else if Hits(playerX, bulletY, last) {
        assert next == (last.(alive := false), None);
        assert es == prefix + [last];
        assert prefix + [last.(alive := false)] == es[n - 1 := last.(alive := false)];
      } else {
        assert es == prefix + [last];
      }
    }
  }

  /** Helper: hiding enemy k commutes with appending after it. */
  lemma HideThenAppend(prefix: seq<EnemyState>, k: int, last: EnemyState)
    requires 0 <= k < |prefix|
    ensures prefix[k := prefix[k].(alive := false)] + [last] == (prefix + [last])[k := prefix[k].(alive := false)]
  {
  }

  /** The bullet is consumed by a pass exactly when some enemy is in range of it. */
  lemma BulletConsumedIffInRange(playerX: int, bulletY: Option<int>, es: seq<EnemyState>)
    ensures (UpdateEnemies(playerX, bulletY, es).0 == None && bulletY.Some?) <==>
            (exists i :: 0 <= i < |es| && Hits(playerX, bulletY, es[i]))
  {
    UpdateEnemiesFirstHit(playerX, bulletY, es);
  }

  /** Helper: the pass over the first i + 1 enemies is the pass over the first i,
      then enemy i. */
  lemma UpdateEnemiesSnoc(playerX: int, bulletY: Option<int>, es: seq<EnemyState>, i: int)
    requires 0 <= i < |es|
    ensures var pass := UpdateEnemies(playerX, bulletY, es[..i]);
      var last := EnemyUpdate(playerX, pass.0, es[i]);
      UpdateEnemies(playerX, bulletY, es[..i + 1]) == (last.1, pass.1 + [last.0])
  {
    assert es[..i + 1][..i] == es[..i];
  }

  /** At most one enemy changes in one pass over the list. */
  lemma AtMostOneEnemyChanges(playerX: int, bulletY: Option<int>, es: seq<EnemyState>)
    ensures forall i, j :: 0 <= i < j < |es| &&
                           UpdateEnemies(playerX, bulletY, es).1[i] != es[i] ==>
              UpdateEnemies(playerX, bulletY, es).1[j] == es[j]
  {
    UpdateEnemiesFirstHit(playerX, bulletY, es);
  }

  // ---------------------------------------------------------------------
  // One frame of each phase

  /** Ready moves to Moving on a fresh press of fire and changes nothing else;
      without one, the frame changes nothing at all. */
  lemma ReadyFrame(w: World, input: Input)
    requires w.phase == Ready
    ensures Step(w, input) == if input.firePressed then w.(phase := Moving) else w
  {
  }

  /** While fire is held the player speeds up by 0.1 up to 1.5 and moves by the new
      speed; a release goes to Stop at this frame, and the player stays put. */
  lemma MovingFrame(w: World, input: Input)
    requires w.phase == Moving
    ensures var w' := Step(w, input);
      && (input.fireHeld ==>
            && w'.playerVx == Min(w.playerVx + VxStep, VxMax)
            && w'.playerVx <= VxMax
            && (w.playerVx >= 0 ==> 0 < w'.playerVx)
            && w'.playerX == w.playerX + w'.playerVx
            && w' == w.(playerX := w'.playerX, playerVx := w'.playerVx))
      && (!input.fireHeld ==> w' == w.(phase := Stop(input.frame)))
  {
  }

  /** While the player still moves, Stop coasts: it moves by the speed, slows by 0.1
      and takes this frame as the stop frame. At rest it fires exactly when 20 frames
      have passed since the stop frame, and only then. */
  lemma StopFrame(w: World, stoppedFrame: int, input: Input)
    requires w.phase == Stop(stoppedFrame)
    ensures var w' := Step(w, input);
      && (w.playerVx > 0 ==>
            w' == w.(playerX := w.playerX + w.playerVx, playerVx := w.playerVx - VxStep,
                     phase := Stop(input.frame)))
      && (w'.phase == Fire <==> w.playerVx <= 0 && input.frame - stoppedFrame >= SettleFrames)
      && (w'.phase == Fire ==> w' == w.(bulletY := Some(BulletStartY), phase := Fire))
      && (w'.phase != Fire && w.playerVx <= 0 ==> w' == w)
  {
  }

  /** A Fire frame moves the bullet, updates the enemies, and returns to Ready exactly
      when no bullet is left; at most one enemy is hit, and none comes back. */
  lemma FireFrame(w: World, input: Input)
    requires w.phase == Fire
    ensures var w' := Step(w, input);
      var pass := UpdateEnemies(w.playerX, AdvanceBullet(w.bulletY), w.enemies);
      && w'.bulletY == pass.0
      && w'.enemies == pass.1
      && (w'.phase == Ready <==> w'.bulletY == None)
      && (w'.phase != Ready ==> w'.phase == Fire && w'.playerX == w.playerX && w'.playerVx == w.playerVx)
      && (w'.phase == Ready ==> w'.playerX == Scale * StartX && w'.playerVx == 0)
      && |w'.enemies| == |w.enemies|
      && (forall i :: 0 <= i < |w.enemies| && w'.enemies[i].alive ==> w.enemies[i].alive)
      && (forall i, j :: 0 <= i < j < |w.enemies| && w'.enemies[i] != w.enemies[i] ==>
            w'.enemies[j] == w.enemies[j])
  {
    AtMostOneEnemyChanges(w.playerX, AdvanceBullet(w.bulletY), w.enemies);
  }

  // ---------------------------------------------------------------------
  // Reachable states

  /** Every frame keeps the invariant. */
  lemma StepPreservesInv(w: World, input: Input)
    requires Inv(w)
    ensures Inv(Step(w, input))
  {
    if w.phase == Fire {
      var b := AdvanceBullet(w.bulletY);
      var pass := UpdateEnemies(w.playerX, b, w.enemies);
      if pass.0.Some? {
        assert pass.0 == b;
        assert b.value % BulletSpeed == w.bulletY.value % BulletSpeed;
      }
    }
  }

  /** Any run of frames keeps the invariant. */
  lemma {:induction false} RunPreservesInv(w: World, inputs: seq<Input>)
    requires Inv(w)
    ensures Inv(Run(w, inputs))
    decreases |inputs|
  {
    if inputs != [] {
      StepPreservesInv(w, inputs[0]);
      RunPreservesInv(Step(w, inputs[0]), inputs[1..]);
    }
  }

  /** Every state reached from the start satisfies the invariant: the speed stays in
      [0, 1.5], the bullet exists only in Fire, the enemies never move. */
  lemma ReachableInv(inputs: seq<Input>)
    ensures Inv(Run(Init(), inputs))
  {
    RunPreservesInv(Init(), inputs);
  }

  /** The player only moves right; the one exception is the reset to the start column
      when a shot ends and Ready is entered. */
  lemma ForwardOnly(w: World, input: Input)
    requires Inv(w)
    ensures var w' := Step(w, input);
      w'.playerX < w.playerX ==>
        w.phase == Fire && w'.phase == Ready && w'.playerX == Scale * StartX
  {
  }

  /** A hidden enemy is never shown again, and the list keeps its length and positions. */
  lemma {:induction false} EnemiesNeverRevive(w: World, inputs: seq<Input>)
    ensures |Run(w, inputs).enemies| == |w.enemies|
    ensures forall i :: 0 <= i < |w.enemies| ==>
              && Run(w, inputs).enemies[i].x == w.enemies[i].x
              && Run(w, inputs).enemies[i].y == w.enemies[i].y
              && (Run(w, inputs).enemies[i].alive ==> w.enemies[i].alive)
    decreases |inputs|
  {
    if inputs != [] {
      EnemiesNeverRevive(Step(w, inputs[0]), inputs[1..]);
    }
  }

  // ---------------------------------------------------------------------
  // How long Stop and Fire last

  /** Coasting from speed v takes v frames, whatever the input, and covers
      v + (v - 1) + ... + 1 tenths; the player is then at rest, still in Stop. */
  lemma {:induction false} CoastToRest(w: World, inputs: seq<Input>)
    requires w.phase.Stop? && w.playerVx >= 0 && |inputs| == w.playerVx
    ensures Run(w, inputs).playerVx == 0
    ensures Run(w, inputs).playerX == w.playerX + w.playerVx * (w.playerVx + 1) / 2
    ensures Run(w, inputs).phase.Stop?
    ensures inputs != [] ==> Run(w, inputs).phase == Stop(inputs[|inputs| - 1].frame)
    decreases |inputs|
  {
    if inputs != [] {
      var w' := Step(w, inputs[0]);
      assert w'.playerVx == w.playerVx - 1 && w'.playerX == w.playerX + w.playerVx;
      CoastToRest(w', inputs[1..]);
      var v := w.playerVx;
      assert v * (v + 1) / 2 == v + (v - 1) * v / 2 by {
        assert v * (v + 1) == 2 * v + (v - 1) * v;
      }
      if |inputs| > 1 {
        assert inputs[1..][|inputs[1..]| - 1] == inputs[|inputs| - 1];
      }
    }
  }

  /** Updates a Fire phase with bullet height b can still take: one per height it can
      drop to before leaving the screen, plus the frame it leaves. */
  function FireBudget(b: int): int {
    (b - BulletExitY) / BulletSpeed + 1
  }

  /** A run's first k frames after w, as one step and the rest. */
  lemma RunPrefix(w: World, inputs: seq<Input>, k: nat)
    requires 1 <= k <= |inputs|
    ensures Run(w, inputs[..k]) == Run(Step(w, inputs[0]), inputs[1..][..k - 1])
  {
    assert inputs[..k][0] == inputs[0];
    assert inputs[..k][1..] == inputs[1..][..k - 1];
  }

  /** A Fire phase ends within its budget, whatever the input: some k frames in
      (k at most the budget), the game is back in Ready, and it is in Fire before that. */
  lemma {:induction false} FireEndsWithin(w: World, inputs: seq<Input>)
    requires Inv(w) && w.phase == Fire
    requires |inputs| >= FireBudget(w.bulletY.value)
    ensures exists k :: 1 <= k <= FireBudget(w.bulletY.value) &&
                        Run(w, inputs[..k]).phase == Ready &&
                        forall j :: 0 <= j < k ==> Run(w, inputs[..j]).phase == Fire
    decreases |inputs|
  {
    var b := w.bulletY.value;
    var w' := Step(w, inputs[0]);
    FireFrame(w, inputs[0]);
    StepPreservesInv(w, inputs[0]);
    RunPrefix(w, inputs, 1);
    assert Run(w, inputs[..0]) == w;
    if w'.phase == Ready {
      assert Run(w, inputs[..1]) == w';
    } else {
      assert w'.bulletY == AdvanceBullet(w.bulletY);
      assert w'.bulletY.value == b - BulletSpeed;
      assert FireBudget(w'.bulletY.value) == FireBudget(b) - 1;
      FireEndsWithin(w', inputs[1..]);
      var k' :| 1 <= k' <= FireBudget(w'.bulletY.value) &&
                Run(w', inputs[1..][..k']).phase == Ready &&
                forall j :: 0 <= j < k' ==> Run(w', inputs[1..][..j]).phase == Fire;
      RunPrefix(w, inputs, k' + 1);
      forall j | 0 <= j < k' + 1 ensures Run(w, inputs[..j]).phase == Fire {
        if j > 0 {
          RunPrefix(w, inputs, j);
          assert Run(w', inputs[1..][..j - 1]).phase == Fire;
        }
      }
    }
  }

  /** A shot lasts at most 47 frames: from any reachable Fire state, the game is
      back in Ready within 47 frames. */
  lemma FireLastsAtMost47(w: World, inputs: seq<Input>)
    requires Inv(w) && w.phase == Fire && |inputs| >= FireFrameBound
    ensures exists k :: 1 <= k <= FireFrameBound &&
                        Run(w, inputs[..k]).phase == Ready &&
                        forall j :: 0 <= j < k ==> Run(w, inputs[..j]).phase == Fire
  {
    FireEndsWithin(w, inputs);
  }

  /** No enemy stands in the player's column: the bullet can pass every enemy's height. */
  predicate ClearColumn(playerX: int, es: seq<EnemyState>) {
    forall i :: 0 <= i < |es| ==> Abs(playerX - Scale * es[i].x) >= Scale * HitRange
  }

  /** A pass over a clear column leaves the bullet and the enemies as they are. */
  lemma ClearColumnPass(playerX: int, bulletY: Option<int>, es: seq<EnemyState>)
    requires ClearColumn(playerX, es)
    ensures UpdateEnemies(playerX, bulletY, es) == (bulletY, es)
  {
    UpdateEnemiesFirstHit(playerX, bulletY, es);
    assert FirstInRange(playerX, bulletY, es) == |es|;
  }

  /** With no enemy in the column, a Fire phase lasts exactly its budget, whatever the
      input: it is in Fire for the budget's first frames and back in Ready right after. */
  lemma {:induction false} UnobstructedShotLasts(w: World, inputs: seq<Input>)
    requires Inv(w) && w.phase == Fire && ClearColumn(w.playerX, w.enemies)
    requires |inputs| >= FireBudget(w.bulletY.value)
    ensures Run(w, inputs[..FireBudget(w.bulletY.value)]).phase == Ready
    ensures forall j :: 0 <= j < FireBudget(w.bulletY.value) ==> Run(w, inputs[..j]).phase == Fire
    decreases |inputs|
  {
    var b := w.bulletY.value;
    var n := FireBudget(b);
    var w' := Step(w, inputs[0]);
    ClearColumnPass(w.playerX, AdvanceBullet(w.bulletY), w.enemies);
    assert w'.bulletY == AdvanceBullet(w.bulletY);
    StepPreservesInv(w, inputs[0]);
    assert Run(w, inputs[..0]) == w;
    RunPrefix(w, inputs, 1);
    if b - BulletSpeed < BulletExitY {
      assert n == 1;
      assert Run(w, inputs[..1]) == w';
    } else {
      assert w' == w.(bulletY := Some(b - BulletSpeed));
      assert FireBudget(b - BulletSpeed) == n - 1;
      UnobstructedShotLasts(w', inputs[1..]);
      RunPrefix(w, inputs, n);
      forall j | 0 <= j < n ensures Run(w, inputs[..j]).phase == Fire {
        if j > 0 {
          RunPrefix(w, inputs, j);
        }
      }
    }
  }

  /** The bound of 47 frames is tight: a shot fired from the start height with no enemy in
      the column lasts exactly 47 frames. */
  lemma ClearShotLasts47(w: World, inputs: seq<Input>)
    requires Inv(w) && w.phase == Fire && w.bulletY == Some(BulletStartY)
    requires ClearColumn(w.playerX, w.enemies) && |inputs| >= FireFrameBound
    ensures Run(w, inputs[..FireFrameBound]).phase == Ready
    ensures forall j :: 0 <= j < FireFrameBound ==> Run(w, inputs[..j]).phase == Fire
  {
    assert FireBudget(BulletStartY) == FireFrameBound;
    UnobstructedShotLasts(w, inputs);
  }
}

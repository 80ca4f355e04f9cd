/**
 * Clients that drive the characters frame by frame, the way the game loop
 * does, and state what the frames add up to.
 */
module Scenarios {
  import opened Wrappers
  import opened FrameRules
  import opened Character

  /** No key pressed. */
  const Idle := Input(false, false, false, false, false)

  /** Only `z` (fire) held. */
  const Firing := Input(false, false, false, false, true)

  /**
   * An entrance from (100, 600) to (100, 400) with a frame every 16 ms: it
   * takes 250 frames (4 seconds at 50 units per second) and stops exactly on
   * the end point.
   */
  method EntranceEvery16Ms(t0: int) returns (frames: nat, x: real, y: real)
    ensures frames == 250 && x == 100.0 && y == 400.0
  {
    var v := new Viper(0.0, 0.0, 64.0, 64.0);
    v.SetComing(100.0, 600.0, 100.0, 400.0, t0);
    frames := 0;
    while v.isComing
      invariant fresh(v) && fresh(v.position) && v.Valid() && v.shotArray == null && v.poolRepr == {}
      invariant v.comingStart == t0 && v.comingStartPosition != null && v.comingEndPosition != null
      invariant fresh(v.comingStartPosition) && fresh(v.comingEndPosition)
      invariant v.comingStartPosition.y == 600.0 && v.comingEndPosition.y == 400.0
      invariant frames <= 250 && (v.isComing <==> frames < 250)
      invariant v.position.x == 100.0
      invariant !v.isComing ==> v.position.y == 400.0
      decreases 250 - frames
    {
      frames := frames + 1;
      v.Update(Idle, t0 + 16 * frames, 640, 480);
    }
    x, y := v.position.x, v.position.y;
  }

  /**
   * One tick of the game loop for a ship with a two-shot pool: the ship is
   * updated first, then each shot, as the scheduler does.
   */
  method Tick(v: Viper, a: Shot, b: Shot, input: Input, now: int)
    requires v.Valid() && !v.isComing && v.Pool() == [a, b] && v.poolRepr == {a, a.position, b, b.position}
    requires 0.0 <= a.height && 0.0 <= b.height
    modifies v, v.position, a, a.position, b, b.position
    ensures v.Valid() && !v.isComing && v.Pool() == [a, b] && v.poolRepr == {a, a.position, b, b.position}
    ensures var slot := FireSlot(input.fire, old(v.shotCheckCounter), old([a.life, b.life]));
      v.shotCheckCounter == NextCounter(old(v.shotCheckCounter), v.shotInterval, slot.Some?)
      && v.position.y == Clamp(Axis(old(v.position.y), v.speed, input.up, input.down), 480)
      && (slot == Some(0) ==> a.life == 1 && a.position.y == v.position.y - a.speed)
      && (slot != Some(0) && old(a.life) <= 0 ==> a.life == old(a.life))
      && (slot != Some(0) && 0 < old(a.life) && 0.0 <= old(a.position.y) ==>
            a.life == old(a.life) && a.position.y == old(a.position.y) - a.speed)
      && (slot != Some(1) && old(b.life) <= 0 ==> b.life == old(b.life))
  {
    assert LivesOf(v.Pool()) == [a.life, b.life];
    v.Update(input, now, 640, 480);
    assert v.Pool()[0] == a && v.Pool()[1] == b;
    a.Update();
    b.Update();
  }

  /**
   * What the game's setup does: a ship at (320, 400) wired to a fresh pool of
   * two inactive shots 16 high.
   */
  method ShipWithTwoShots() returns (v: Viper, a: Shot, b: Shot)
    ensures fresh(v) && fresh(v.position) && fresh(a) && fresh(a.position) && fresh(b) && fresh(b.position)
    ensures v.Valid() && !v.isComing && v.Pool() == [a, b] && v.poolRepr == {a, a.position, b, b.position}
    ensures v.shotCheckCounter == 0 && v.shotInterval == 10 && v.speed == 3.0 && v.position.y == 400.0
    ensures a.speed == 7.0
    ensures a.life == 0 && b.life == 0 && a.height == 16.0 && b.height == 16.0
  {
    a := new Shot(0.0, 0.0, 16.0, 16.0);
    b := new Shot(0.0, 0.0, 16.0, 16.0);
    var pool := new Shot[2] [a, b];
    v := new Viper(320.0, 400.0, 64.0, 64.0);
    assert pool[..] == [a, b];
    v.SetShotArray(pool);
    assert v.Pool() == [a, b];
    assert ObjectsOf([a, b]) == {a, a.position, b, b.position};
  }

  /**
   * A pool of two free shots and fire held for three frames from a counter of
   * 0, with the shots updated after the ship on every frame: exactly one shot
   * is active at the end, the first one.
   */
  method FireHeldThreeFrames() returns (first: bool, second: bool)
    ensures first && !second
  {
    var v, a, b := ShipWithTwoShots();
    var frame := 0;
    while frame < 3
      invariant frame <= 3
      invariant v.Valid() && !v.isComing && v.Pool() == [a, b] && v.poolRepr == {a, a.position, b, b.position}
      invariant fresh(v) && fresh(v.position) && fresh(a) && fresh(a.position) && fresh(b) && fresh(b.position)
      invariant v.shotCheckCounter == (if frame == 0 then 0 else frame - 10)
      invariant (0 < a.life <==> 0 < frame) && b.life == 0
      invariant v.position.y == 400.0 && (0 < frame ==> a.position.y == 400.0 - 7.0 * frame as real)
      decreases 3 - frame
    {
      Tick(v, a, b, Firing, 16 * frame);
      frame := frame + 1;
    }
    first, second := a.life > 0, b.life > 0;
  }


  /**
   * A shot 10 high at y = -11 is already wholly above the top edge: its next
   * update retires it and still moves it up by its speed of 7.
   */
  method ShotLeavesTop() returns (life: int, y: real)
    ensures life == 0 && y == -18.0
  {
    var s := new Shot(50.0, 0.0, 4.0, 10.0);
    s.Set(50.0, -11.0);
    s.Update();
    life, y := s.life, s.position.y;
  }
}

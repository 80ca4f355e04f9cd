/**
 * The game's characters: a mutable point, the player ship (`Viper`) with its
 * entrance sequence, clamped movement and cooldown-gated shot pool, and the
 * pooled projectile (`Shot`). Each `update` is one frame; the clock, the key
 * state and the canvas size are its parameters.
 */
module Character {
  import opened Wrappers
  import opened FrameRules

  /** The key state `update` reads in one frame: the four arrow keys and `z` (fire). */
  datatype Input = Input(left: bool, right: bool, up: bool, down: bool, fire: bool)

  /** A point whose `Set` updates only the coordinates it is given. */
  class Position {
    var x: real
    var y: real

    constructor (x: real, y: real)
      ensures this.x == x && this.y == y
    {
      this.x := x;
      this.y := y;
    }

    /** A `None` argument (JavaScript `null` or an omitted one) leaves its coordinate alone. */
    method Set(x: Option<real>, y: Option<real>)
      modifies this
      ensures this.x == (if x.Some? then x.value else old(this.x))
      ensures this.y == (if y.Some? then y.value else old(this.y))
    {
      if x.Some? { this.x := x.value; }
      if y.Some? { this.y := y.value; }
    }
  }

  /** A pooled projectile: `life <= 0` means the slot is free for reuse. */
  class Shot {
    const position: Position
    const width: real
    const height: real
    var life: int
    /** Upward displacement per frame. */
    const speed: real

    constructor (x: real, y: real, w: real, h: real)
      ensures fresh(position) && position.x == x && position.y == y
      ensures width == w && height == h && life == 0 && speed == 7.0
    {
      position := new Position(x, y);
      width := w;
      height := h;
      life := 0;
      speed := 7.0;
    }

    /** Activates the shot at `(x, y)`, whether it was active or not. */
    method Set(x: real, y: real)
      modifies this, position
      ensures position.x == x && position.y == y && life == 1
    {
      position.Set(Some(x), Some(y));
      life := 1;
    }

    /**
     * An inactive shot does nothing. An active one moves up by `speed`, and if
     * it was already wholly above the top edge it is retired, moving all the same.
     */
    method Update()
      modifies this, position
      ensures old(life) <= 0 ==> life == old(life) && position.x == old(position.x) && position.y == old(position.y)
      ensures 0 < old(life) ==> position.x == old(position.x) && position.y == old(position.y) - speed
      ensures 0 < old(life) ==> life == (if old(position.y) + height < 0.0 then 0 else old(life))
    {
      if life <= 0 { return; }
      if position.y + height < 0.0 {
        life := 0;
      }
      position.y := position.y - speed;
    }
  }

  /** The lives of a pool's shots, in pool order. */
  ghost function LivesOf(shots: seq<Shot>): (r: seq<int>)
    reads shots
    ensures |r| == |shots| && forall i :: 0 <= i < |shots| ==> r[i] == shots[i].life
  {
    if shots == [] then [] else [shots[0].life] + LivesOf(shots[1..])
  }

  /** A pool's shots and their points. */
  ghost function ObjectsOf(pool: seq<Shot>): (r: set<object>)
    ensures forall i :: 0 <= i < |pool| ==> pool[i] in r && pool[i].position in r
    ensures forall o :: o in r ==> exists i :: 0 <= i < |pool| && (o == pool[i] || o == pool[i].position)
  {
    if pool == [] then {} else {pool[0] as object, pool[0].position} + ObjectsOf(pool[1..])
  }

  /** The shot's life and point are what they were in the earlier state. */
  twostate predicate Kept(s: Shot)
    reads s, s.position
  {
    s.life == old(s.life) && s.position.x == old(s.position.x) && s.position.y == old(s.position.y)
  }

  /** Every shot of `pool` has a point of its own, distinct from the ship points `own`, `start` and `end`. */
  ghost predicate PointsApart(pool: seq<Shot>, own: Position, start: Position?, end: Position?)
  {
    (forall i, j :: 0 <= i < |pool| && 0 <= j < |pool| && i != j ==> pool[i].position != pool[j].position)
    && forall i :: 0 <= i < |pool| ==>
         pool[i].position != own && pool[i].position != start && pool[i].position != end
  }

  /** `repr` holds the shots of `pool` and their points, and none of the ship points. */
  ghost predicate Framed(pool: seq<Shot>, repr: set<object>, own: Position, start: Position?, end: Position?)
  {
    (forall i :: 0 <= i < |pool| ==> pool[i] in repr && pool[i].position in repr)
    && own !in repr && (start != null ==> start !in repr) && (end != null ==> end !in repr)
  }

  /**
   * Scans `pool` in order for the first shot with `life <= 0` and sets that
   * one, and no other, at `(x, y)`; reports which one it set, if any. `repr` holds the
   * shots and their points, not the array.
   */
  method ActivateFirstFree(pool: array<Shot>, ghost repr: set<object>, x: real, y: real) returns (slot: Option<nat>)
    requires forall i, j :: 0 <= i < pool.Length && 0 <= j < pool.Length && i != j ==> pool[i].position != pool[j].position
    requires pool !in repr && forall i :: 0 <= i < pool.Length ==> pool[i] in repr && pool[i].position in repr
    modifies repr
    ensures slot == FirstInactive(old(LivesOf(pool[..])))
    ensures slot.Some? ==>
      slot.value < pool.Length && pool[slot.value].life == 1
      && pool[slot.value].position.x == x && pool[slot.value].position.y == y
    ensures forall i :: 0 <= i < pool.Length && slot != Some(i) ==> Kept(pool[i])
  {
    ghost var lives := LivesOf(pool[..]);
    var i := 0;
    while i < pool.Length && 0 < pool[i].life
      invariant 0 <= i <= pool.Length == |lives|
      invariant forall j :: 0 <= j < i ==> 0 < lives[j]
    {
      i := i + 1;
    }
    if i < pool.Length {
      FirstInactiveAt(lives, i);
      var shot := pool[i];
      assert forall j :: 0 <= j < pool.Length && j != i ==> pool[j] != shot && pool[j].position != shot.position;
      shot.Set(x, y);
      assert pool[i] == shot && forall j :: 0 <= j < pool.Length && j != i ==> Kept(pool[j]);
      slot := Some(i);
    } else {
      FirstInactiveNone(lives);
      slot := None;
    }
  }

  /** The player ship. */
  class Viper {
    const position: Position
    const width: real
    const height: real
    var life: int
    /** Displacement per frame on each axis. */
    const speed: real
    var isComing: bool
    /** The time (ms) the entrance began; read only while `isComing`. */
    var comingStart: int
    var comingStartPosition: Position?
    var comingEndPosition: Position?
    /** The shot pool, shared with whoever built it. */
    var shotArray: array?<Shot>
    var shotCheckCounter: int
    /** Frames between two shots. */
    const shotInterval: int
    /** The objects of the pool a frame may write: its shots and their points. */
    ghost var poolRepr: set<object>

    /** The pool as a sequence, empty while none is set. */
    ghost function Pool(): seq<Shot>
      reads this, shotArray
    {
      if shotArray == null then [] else shotArray[..]
    }

    /** The pool shots' points are apart from each other and from this ship's points. */
    ghost predicate PoolApart(pool: seq<Shot>)
      reads this
    {
      PointsApart(pool, position, comingStartPosition, comingEndPosition)
    }

    /** The ship's points and the pool's are distinct objects, and the entrance points are set while entering. */
    ghost predicate Separate()
      reads this, shotArray
    {
      (isComing ==> comingStartPosition != null && comingEndPosition != null)
      && comingStartPosition != position && comingEndPosition != position
      && this !in poolRepr && (shotArray != null ==> shotArray !in poolRepr)
      && PointsApart(Pool(), position, comingStartPosition, comingEndPosition)
      && Framed(Pool(), poolRepr, position, comingStartPosition, comingEndPosition)
    }

    /** `Separate`, and the cooldown counter never below `1 - shotInterval` between frames. */
    ghost predicate Valid()
      reads this, shotArray
    {
      Separate() && 1 - shotInterval <= shotCheckCounter
    }

    constructor (x: real, y: real, w: real, h: real)
      ensures Valid() && fresh(position)
      ensures position.x == x && position.y == y && width == w && height == h && life == 0
      ensures speed == 3.0 && !isComing && comingStartPosition == null && comingEndPosition == null
      ensures shotArray == null && shotCheckCounter == 0 && shotInterval == 10 && poolRepr == {}
    {
      position := new Position(x, y);
      width := w;
      height := h;
      life := 0;
      speed := 3.0;
      isComing := false;
      comingStart := 0;
      comingStartPosition := null;
      comingEndPosition := null;
      shotArray := null;
      poolRepr := {};
      shotCheckCounter := 0;
      shotInterval := 10;
    }

    /** Starts the entrance at `now`: the ship jumps to the start point and will rise to the end point. */
    method SetComing(startX: real, startY: real, endX: real, endY: real, now: int)
      requires Valid()
      modifies this, position
      ensures Valid()
      ensures isComing && comingStart == now
      ensures position.x == startX && position.y == startY
      ensures comingStartPosition != null && fresh(comingStartPosition)
      ensures comingStartPosition.x == startX && comingStartPosition.y == startY
      ensures comingEndPosition != null && fresh(comingEndPosition)
      ensures comingEndPosition.x == endX && comingEndPosition.y == endY
      ensures shotArray == old(shotArray) && poolRepr == old(poolRepr) && Pool() == old(Pool()) && shotCheckCounter == old(shotCheckCounter) && life == old(life)
    {
      isComing := true;
      comingStart := now;
      position.Set(Some(startX), Some(startY));
      comingStartPosition := new Position(startX, startY);
      comingEndPosition := new Position(endX, endY);
    }

    /** Stores a reference to the pool; the shots stay the builder's. */
    method SetShotArray(shotArray: array<Shot>)
      requires Valid()
      requires PoolApart(shotArray[..])
      modifies this
      ensures Valid() && this.shotArray == shotArray && poolRepr == ObjectsOf(shotArray[..])
      ensures isComing == old(isComing) && comingStart == old(comingStart)
      ensures comingStartPosition == old(comingStartPosition) && comingEndPosition == old(comingEndPosition)
      ensures shotCheckCounter == old(shotCheckCounter) && life == old(life)
    {
      this.shotArray := shotArray;
      poolRepr := ObjectsOf(shotArray[..]);
    }


    /**
     * One frame. During the entrance the ship rises and nothing else happens.
     * Otherwise it moves by `speed` per pressed arrow key, is clamped into the
     * canvas, may activate the first free shot of the pool, and counts one
     * more frame of cooldown. The pool is dereferenced only when fire is held
     * with the counter not negative, so only then must it be set.
     */
    method Update(input: Input, now: int, canvasWidth: nat, canvasHeight: nat)
      requires Valid()
      requires !isComing && input.fire && 0 <= shotCheckCounter ==> shotArray != null
      modifies this, position, poolRepr
      ensures Valid()
      ensures shotArray == old(shotArray) && poolRepr == old(poolRepr) && Pool() == old(Pool()) && comingStart == old(comingStart) && life == old(life)
      ensures comingStartPosition == old(comingStartPosition) && comingEndPosition == old(comingEndPosition)
      ensures old(isComing) ==>
        var e := EntranceStep(old(comingStartPosition.y), old(comingEndPosition.y), comingStart, now);
        position.x == old(position.x) && position.y == e.y && isComing == !e.arrived
        && shotCheckCounter == old(shotCheckCounter)
        && forall i :: 0 <= i < |Pool()| ==> Kept(Pool()[i])
      ensures !old(isComing) ==> !isComing
      ensures !old(isComing) ==>
        position.x == Clamp(Axis(old(position.x), speed, input.left, input.right), canvasWidth)
        && position.y == Clamp(Axis(old(position.y), speed, input.up, input.down), canvasHeight)
      ensures !old(isComing) ==>
        0.0 <= position.x <= canvasWidth as real && 0.0 <= position.y <= canvasHeight as real
      ensures !old(isComing) ==>
        var slot := FireSlot(input.fire, old(shotCheckCounter), old(LivesOf(Pool())));
        shotCheckCounter == NextCounter(old(shotCheckCounter), shotInterval, slot.Some?)
        && forall i :: 0 <= i < |Pool()| ==>
             if slot == Some(i) then
               Pool()[i].life == 1 && Pool()[i].position.x == position.x && Pool()[i].position.y == position.y
             else Kept(Pool()[i])
    {
      if isComing {
        Enter(now);
      } else {
        Steer(input, canvasWidth, canvasHeight);
        assert Pool() == old(Pool());
        assert forall i :: 0 <= i < |Pool()| ==> Kept(Pool()[i]);
        assert LivesOf(Pool()) == old(LivesOf(Pool()));
        label Steered:
        Fire(input);
        assert forall i :: 0 <= i < |Pool()| ==>
          Kept@Steered(Pool()[i]) ==> Kept(Pool()[i]);
      }
    }

    /** The entrance branch of `Update`: rise towards the end point, stopping on it. */
    method Enter(now: int)
      requires Valid() && isComing
      modifies this, position
      ensures Valid()
      ensures shotArray == old(shotArray) && poolRepr == old(poolRepr) && comingStart == old(comingStart) && life == old(life)
      ensures comingStartPosition == old(comingStartPosition) && comingEndPosition == old(comingEndPosition)
      ensures shotCheckCounter == old(shotCheckCounter)
      ensures var e := EntranceStep(comingStartPosition.y, comingEndPosition.y, comingStart, now);
        position.x == old(position.x) && position.y == e.y && isComing == !e.arrived
    {
      var y := comingStartPosition.y - ((now - comingStart) as real / 1000.0) * EntranceRate;
      if y <= comingEndPosition.y {
        isComing := false;
        y := comingEndPosition.y;
      }
      position.Set(Some(position.x), Some(y));
    }

    /** The movement part of the controllable branch: one step per pressed arrow key, then the clamp. */
    method Steer(input: Input, canvasWidth: nat, canvasHeight: nat)
      modifies position
      ensures position.x == Clamp(Axis(old(position.x), speed, input.left, input.right), canvasWidth)
      ensures position.y == Clamp(Axis(old(position.y), speed, input.up, input.down), canvasHeight)
    {
      if input.left { position.x := position.x - speed; }
      if input.right { position.x := position.x + speed; }
      if input.up { position.y := position.y - speed; }
      if input.down { position.y := position.y + speed; }

      var tx := Clamp(position.x, canvasWidth);
      var ty := Clamp(position.y, canvasHeight);
      position.Set(Some(tx), Some(ty));
    }

    /**
     * The firing part of the controllable branch: with fire held and the
     * counter not negative, the pool is scanned for a free shot; then one
     * frame is counted.
     */
    method Fire(input: Input)
      requires Valid() && !isComing
      requires input.fire && 0 <= shotCheckCounter ==> shotArray != null
      modifies this, poolRepr
      ensures Valid() && !isComing
      ensures shotArray == old(shotArray) && poolRepr == old(poolRepr) && comingStart == old(comingStart) && life == old(life)
      ensures comingStartPosition == old(comingStartPosition) && comingEndPosition == old(comingEndPosition)
      ensures position.x == old(position.x) && position.y == old(position.y)
      ensures var slot := FireSlot(input.fire, old(shotCheckCounter), old(LivesOf(Pool())));
        shotCheckCounter == NextCounter(old(shotCheckCounter), shotInterval, slot.Some?)
        && forall i :: 0 <= i < |Pool()| ==>
             if slot == Some(i) then
               Pool()[i].life == 1 && Pool()[i].position.x == position.x && Pool()[i].position.y == position.y
             else Kept(Pool()[i])
    {
      ghost var lives := LivesOf(Pool());
      if input.fire && 0 <= shotCheckCounter {
        ShootFirstFree();
        assert FireSlot(input.fire, old(shotCheckCounter), lives) == FirstInactive(lives);
      }
      shotCheckCounter := shotCheckCounter + 1;
    }

    /**
     * The pool scan of `Fire`: the first shot with `life <= 0`, in pool order,
     * is set at the ship and the counter restarts from `-shotInterval`; the
     * scan stops there. With no free shot nothing changes.
     */
    method ShootFirstFree()
      requires Valid() && !isComing && shotArray != null
      modifies this, poolRepr
      ensures Separate() && !isComing
      ensures shotArray == old(shotArray) && poolRepr == old(poolRepr) && comingStart == old(comingStart) && life == old(life)
      ensures comingStartPosition == old(comingStartPosition) && comingEndPosition == old(comingEndPosition)
      ensures position.x == old(position.x) && position.y == old(position.y)
      ensures var slot := FirstInactive(old(LivesOf(Pool())));
        shotCheckCounter == (if slot.Some? then -shotInterval else old(shotCheckCounter))
        && forall i :: 0 <= i < |Pool()| ==>
             if slot == Some(i) then
               Pool()[i].life == 1 && Pool()[i].position.x == position.x && Pool()[i].position.y == position.y
             else Kept(Pool()[i])
    {
      var slot := ActivateFirstFree(shotArray, poolRepr, position.x, position.y);
      assert Pool() == old(Pool());
      if slot.Some? {
        shotCheckCounter := -shotInterval;
      }
    }
  }
}

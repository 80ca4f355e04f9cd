/**
 * The per-frame rules of the player ship, as values: the entrance ascent, the
 * per-axis move and clamp, the choice of the pool slot a fire request takes,
 * and the cooldown counter. `Character.Viper.Update` is proved against these
 * definitions; the lemmas here say what they mean over many frames.
 */
module FrameRules {
  import opened Wrappers

  /** Entrance ascent rate, in units per second. */
  const EntranceRate: real := 50.0

  /** Where the ship has got to, and whether the entrance is over. */
  datatype Entrance = Entrance(y: real, arrived: bool)

  /**
   * One entrance frame: the ship started at `startY` at time `since` (ms)
   * and rises at `EntranceRate`; at `endY` it stops, never going past it.
   */
  function EntranceStep(startY: real, endY: real, since: int, now: int): (r: Entrance)
    ensures endY <= r.y
    ensures r.arrived <==> (startY - endY) * 20.0 <= (now - since) as real
    ensures r.arrived ==> r.y == endY
    ensures !r.arrived ==> r.y == startY - (now - since) as real / 20.0
  {
    var y := startY - ((now - since) as real / 1000.0) * EntranceRate;
    if y <= endY then Entrance(endY, true) else Entrance(y, false)
  }

  /** One axis of a move: `back` lowers the coordinate by `speed`, `forward` raises it. */
  function Axis(v: real, speed: real, back: bool, forward: bool): (r: real)
    ensures back && !forward ==> r == v - speed
    ensures forward && !back ==> r == v + speed
    ensures back == forward ==> r == v
  {
    var w := if back then v - speed else v;
    if forward then w + speed else w
  }

  /** `min(max(v, 0), hi)`: the nearest point of `[0, hi]` to `v`. */
  function Clamp(v: real, hi: nat): (r: real)
    ensures 0.0 <= r <= hi as real
    ensures 0.0 <= v <= hi as real ==> r == v
    ensures v < 0.0 ==> r == 0.0
    ensures hi as real < v ==> r == hi as real
  {
    var low := if v < 0.0 then 0.0 else v;
    if hi as real < low then hi as real else low
  }

  /** The index of the first inactive (`life <= 0`) entry of a pool's lives, if any. */
  function FirstInactive(lives: seq<int>): (r: Option<nat>)
    ensures r.None? <==> forall i :: 0 <= i < |lives| ==> 0 < lives[i]
    ensures r.Some? ==> r.value < |lives| && lives[r.value] <= 0
    ensures r.Some? ==> forall j :: 0 <= j < r.value ==> 0 < lives[j]
  {
    if |lives| == 0 then None
    else if lives[0] <= 0 then Some(0)
    else match FirstInactive(lives[1..])
      case None => None
      case Some(k) => Some(k + 1)
  }

  /** A free entry with no free entry before it is the first inactive one. */
  lemma FirstInactiveAt(lives: seq<int>, k: nat)
    requires k < |lives| && lives[k] <= 0
    requires forall j :: 0 <= j < k ==> 0 < lives[j]
    ensures FirstInactive(lives) == Some(k)
  {
  }

  /** A pool with no free entry has no first inactive one. */
  lemma FirstInactiveNone(lives: seq<int>)
    requires forall j :: 0 <= j < |lives| ==> 0 < lives[j]
    ensures FirstInactive(lives) == None
  {
  }

  /**
   * The slot a controllable frame activates: only when fire is held and the
   * cooldown counter is not negative, and then the first inactive one.
   */
  function FireSlot(fire: bool, counter: int, lives: seq<int>): (r: Option<nat>)
    ensures r.Some? <==> fire && 0 <= counter && exists i :: 0 <= i < |lives| && lives[i] <= 0
    ensures r.Some? ==> r.value < |lives| && lives[r.value] <= 0
    ensures r.Some? ==> forall j :: 0 <= j < r.value ==> 0 < lives[j]
  {
    if fire && 0 <= counter then FirstInactive(lives) else None
  }

  /** The cooldown counter at the end of a controllable frame. */
  function NextCounter(counter: int, interval: int, fired: bool): int
  {
    (if fired then -interval else counter) + 1
  }

  /**
   * The number of shots fired over consecutive controllable frames with fire
   * held, where `pools[f]` is what the pool's lives are on frame `f` (the
   * shots' own updates may change them between frames).
   */
  function Volley(counter: int, interval: int, pools: seq<seq<int>>): nat
    decreases |pools|
  {
    if pools == [] then 0
    else
      var slot := FireSlot(true, counter, pools[0]);
      (if slot.Some? then 1 else 0) + Volley(NextCounter(counter, interval, slot.Some?), interval, pools[1..])
  }

  /** How far a negative counter still is from letting a shot through. */
  function Debt(counter: int): int
  {
    if counter < 0 then counter else 0
  }

  /**
   * At most one shot per `interval` frames: over `k` frames no more than
   * ceil(k / interval) shots fire, fewer while the counter is still negative.
   * The counter never sits below `1 - interval` at the end of a frame.
   */
  lemma {:induction false} VolleyBound(counter: int, interval: int, pools: seq<seq<int>>)
    requires 1 <= interval && 1 - interval <= counter
    ensures Volley(counter, interval, pools) * interval <= |pools| + interval - 1 + Debt(counter)
    decreases |pools|
  {
    if pools != [] {
      var slot := FireSlot(true, counter, pools[0]);
      var next := NextCounter(counter, interval, slot.Some?);
      VolleyBound(next, interval, pools[1..]);
      var rest := Volley(next, interval, pools[1..]);
      if slot.Some? {
        assert (1 + rest) * interval == interval + rest * interval;
      }
    }
  }

  /**
   * When every frame finds a free slot, a shot fires as soon as the counter
   * allows: at least one per `interval` frames once the counter is at 0.
   */
  lemma {:induction false} VolleyFloor(counter: int, interval: int, pools: seq<seq<int>>)
    requires 1 <= interval
    requires forall f :: 0 <= f < |pools| ==> FirstInactive(pools[f]).Some?
    ensures |pools| + Debt(counter) <= Volley(counter, interval, pools) * interval
    decreases |pools|
  {
    if pools != [] {
      var slot := FireSlot(true, counter, pools[0]);
      var next := NextCounter(counter, interval, slot.Some?);
      VolleyFloor(next, interval, pools[1..]);
      var rest := Volley(next, interval, pools[1..]);
      if slot.Some? {
        assert (1 + rest) * interval == interval + rest * interval;
      }
    }
  }

  /**
   * With the interval of 10 frames and fire held for three frames from a
   * counter of 0, exactly one shot fires, whatever free slots the pool has.
   */
  lemma ThreeHeldFramesFireOnce(pools: seq<seq<int>>)
    requires |pools| == 3
    requires forall f :: 0 <= f < |pools| ==> FirstInactive(pools[f]).Some?
    ensures Volley(0, 10, pools) == 1
  {
    VolleyBound(0, 10, pools);
    VolleyFloor(0, 10, pools);
  }
}

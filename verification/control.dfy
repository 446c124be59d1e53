/**
 The `player_control` system: mouse motion turns the camera, the pitch is clamped, Space
 jumps from (near) rest, and W/A/S/D set the horizontal velocity outright.
 The two horizontal basis vectors, and the normalisation of the summed key vector, are inputs:
 they come from trigonometry and a square root inside the engine. `forward` is the normalised
 horizontal part of the NEGATED camera forward direction (the camera's backward direction), so
 W, which subtracts it, moves the way the camera faces; `right` is the normalised horizontal
 part of the camera's right direction.
 */
module Control {
  import opened Geometry

  /** Radians turned per unit of mouse motion. */
  const Sensitivity: real := 0.002
  /** The pitch is clamped to [-PitchLimit, PitchLimit]. */
  const PitchLimit: real := 1.5
  /** Horizontal speed, in units per second, before the frame time is applied. */
  const Speed: real := 200.0
  /** The vertical velocity a jump sets. */
  const JumpSpeed: real := 10.0
  /** A jump is allowed only while the vertical speed is below this. */
  const RestSpeed: real := 0.1

  /** The `Player` component: the camera's yaw and pitch. */
  datatype Player = Player(yaw: real, pitch: real)

  /** One mouse-motion event's delta. */
  datatype Motion = Motion(dx: real, dy: real)

  /** The keyboard as `player_control` reads it: W, S, A, D held, and Space pressed this frame. */
  datatype Keys = Keys(w: bool, s: bool, a: bool, d: bool, spaceJustPressed: bool)

  /** The total horizontal and vertical mouse motion of a sequence of events. */
  function SumDx(events: seq<Motion>): real {
    if |events| == 0 then 0.0 else SumDx(events[..|events| - 1]) + events[|events| - 1].dx
  }

  function SumDy(events: seq<Motion>): real {
    if |events| == 0 then 0.0 else SumDy(events[..|events| - 1]) + events[|events| - 1].dy
  }

  /** Applies the events one at a time, each subtracting its delta times the sensitivity; no clamping. */
  function Turn(p: Player, events: seq<Motion>): (q: Player)
    ensures q.yaw == p.yaw - Sensitivity * SumDx(events)
    ensures q.pitch == p.pitch - Sensitivity * SumDy(events)
  {
    if |events| == 0 then p
    else
      var q := Turn(p, events[..|events| - 1]);
      var e := events[|events| - 1];
      Player(q.yaw - e.dx * Sensitivity, q.pitch - e.dy * Sensitivity)
  }

  /** The camera update: all events are applied, then the pitch is clamped once. */
  function Look(p: Player, events: seq<Motion>): (q: Player)
    ensures -PitchLimit <= q.pitch <= PitchLimit
    ensures q.yaw == p.yaw - Sensitivity * SumDx(events)
    ensures var free := p.pitch - Sensitivity * SumDy(events);
            (-PitchLimit <= free <= PitchLimit ==> q.pitch == free)
            && (free < -PitchLimit ==> q.pitch == -PitchLimit)
            && (free > PitchLimit ==> q.pitch == PitchLimit)
  {
    var q := Turn(p, events);
    q.(pitch := Clamp(q.pitch, -PitchLimit, PitchLimit))
  }

  /** The clamp comes after all events: looking up past the limit and back down in one frame ends at the limit, not below it. */
  lemma ClampAfterAllEvents()
    ensures Look(Player(0.0, 1.5), [Motion(0.0, -100.0), Motion(0.0, 100.0)]).pitch == 1.5
    ensures Clamp(Clamp(1.5 + 0.2, -PitchLimit, PitchLimit) - 0.2, -PitchLimit, PitchLimit) == 1.3
  {
    var events := [Motion(0.0, -100.0), Motion(0.0, 100.0)];
    assert events[..1] == [Motion(0.0, -100.0)];
    assert events[..1][..0] == [];
  }

  /** The summed key vector: W subtracts `forward`, S adds it, D adds `right`, A subtracts it. */
  function KeyVector(keys: Keys, forward: Vec3, right: Vec3): Vec3 {
    var m0 := Zero;
    var m1 := if keys.w then Sub(m0, forward) else m0;
    var m2 := if keys.s then Add(m1, forward) else m1;
    var m3 := if keys.d then Add(m2, right) else m2;
    if keys.a then Sub(m3, right) else m3
  }

  /** Opposite keys cancel: the key vector is `forward` times (S - W) plus `right` times (D - A). */
  lemma KeyVectorCombination(keys: Keys, forward: Vec3, right: Vec3)
    ensures var f := (if keys.s then 1.0 else 0.0) - (if keys.w then 1.0 else 0.0);
            var r := (if keys.d then 1.0 else 0.0) - (if keys.a then 1.0 else 0.0);
            KeyVector(keys, forward, right) == Add(Scale(forward, f), Scale(right, r))
    ensures keys.w == keys.s && keys.a == keys.d ==> KeyVector(keys, forward, right) == Zero
  {
  }

  /** The vertical velocity after the jump check: 10 when Space was just pressed near rest, unchanged otherwise. */
  function Jump(vy: real, spaceJustPressed: bool): (r: real)
    ensures r != vy ==> spaceJustPressed && Abs(vy) < RestSpeed && r == JumpSpeed
    ensures spaceJustPressed && Abs(vy) < RestSpeed ==> r == JumpSpeed
  {
    if spaceJustPressed && Abs(vy) < RestSpeed then JumpSpeed else vy
  }

  /** A second jump in the air does nothing: right after a jump the vertical speed is 10, not near rest. */
  lemma NoDoubleJump(vy: real, first: bool, second: bool)
    requires first && Abs(vy) < RestSpeed
    ensures Jump(Jump(vy, first), second) == JumpSpeed
  {
  }

  /** The outcome of one `player_control` call. */
  datatype ControlFrame = ControlFrame(player: Player, velocity: Vec3)

  /**
   One `player_control` call. `forward` (the camera's horizontal backward direction, see above)
   and `right` are horizontal unit vectors, `normalize` the engine's vector normalisation and
   `dt` the frame time.
   */
  function PlayerControl(p: Player, events: seq<Motion>, keys: Keys, forward: Vec3, right: Vec3,
                         normalize: Vec3 -> Vec3, dt: real, v: Vec3): (r: ControlFrame)
    ensures r.player == Look(p, events)
    ensures -PitchLimit <= r.player.pitch <= PitchLimit
    ensures r.player.yaw == p.yaw - Sensitivity * SumDx(events)
    ensures r.velocity.y == Jump(v.y, keys.spaceJustPressed)
    ensures r.velocity.y == v.y || r.velocity.y == JumpSpeed
    ensures r.velocity.y != v.y ==> keys.spaceJustPressed && Abs(v.y) < RestSpeed
    ensures keys.spaceJustPressed && Abs(v.y) < RestSpeed ==> r.velocity.y == JumpSpeed
    ensures KeyVector(keys, forward, right) == Zero ==> r.velocity.x == 0.0 && r.velocity.z == 0.0
    ensures keys.w == keys.s && keys.a == keys.d ==> r.velocity.x == 0.0 && r.velocity.z == 0.0
    ensures KeyVector(keys, forward, right) != Zero ==>
              var n := normalize(KeyVector(keys, forward, right));
              r.velocity.x == n.x * Speed * dt && r.velocity.z == n.z * Speed * dt
  {
    KeyVectorCombination(keys, forward, right);
    var m := KeyVector(keys, forward, right);
    var horizontal := if m != Zero then Scale(Scale(normalize(m), Speed), dt) else Zero;
    ControlFrame(Look(p, events), Vec3(horizontal.x, Jump(v.y, keys.spaceJustPressed), horizontal.z))
  }

  /** Horizontal velocity is overwritten, never accumulated: the incoming x and z do not matter. */
  lemma HorizontalOverwritten(p: Player, events: seq<Motion>, keys: Keys, forward: Vec3, right: Vec3,
                              normalize: Vec3 -> Vec3, dt: real, v1: Vec3, v2: Vec3)
    requires v1.y == v2.y
    ensures PlayerControl(p, events, keys, forward, right, normalize, dt, v1)
         == PlayerControl(p, events, keys, forward, right, normalize, dt, v2)
  {
  }
}

/**
 The `physics_system`: gravity, integration, and one pass of axis-aligned collision against
 every block. For each block whose cube strictly overlaps the player's box, exactly one axis
 of the candidate position is pushed to the block's face, and that velocity component is zeroed.
 */
module Physics {
  import opened Geometry

  /** The `Gravity` component the player is spawned with. */
  const GravityAccel: real := 20.0
  const PlayerSize: Vec3 := Vec3(0.5, 2.0, 0.5)
  const BlockSize: Vec3 := Vec3(1.0, 1.0, 1.0)
  /** Half the summed extents: the closest a player's centre may be to a block centre on each axis. */
  const MinDist: Vec3 := Scale(Add(PlayerSize, BlockSize), 0.5)

  /** The player's translation and velocity. */
  datatype Body = Body(pos: Vec3, vel: Vec3)

  /** The strict overlap test between the player centred at `p` and the block centred at `block`. */
  predicate Overlaps(p: Vec3, block: Vec3) {
    var d := Sub(p, block);
    Abs(d.x) < MinDist.x && Abs(d.y) < MinDist.y && Abs(d.z) < MinDist.z
  }

  /**
   The axis corrected for an offset `d`: y when `|d.y|` strictly exceeds both others, else x
   when `|d.x|` strictly exceeds `|d.z|`, else z. It is always an axis of largest `|d|`.
   */
  function SeparatingAxis(d: Vec3): (a: Axis)
    ensures forall k: Axis :: Abs(Get(d, k)) <= Abs(Get(d, a))
    ensures a == Y <==> Abs(d.y) > Abs(d.x) && Abs(d.y) > Abs(d.z)
    ensures a == X <==> !(Abs(d.y) > Abs(d.x) && Abs(d.y) > Abs(d.z)) && Abs(d.x) > Abs(d.z)
  {
    if Abs(d.y) > Abs(d.x) && Abs(d.y) > Abs(d.z) then Y
    else if Abs(d.x) > Abs(d.z) then X
    else Z
  }

  /**
   One iteration of the block loop. A block that does not overlap changes nothing. For one
   that does, the separating axis's coordinate is put exactly `MinDist` from the block on the
   side the player was on (the positive side when the offset is zero), moving it by exactly the
   penetration depth; that velocity component becomes zero; everything else is kept; and the
   block no longer overlaps.
   */
  function ResolveBlock(b: Body, block: Vec3): (r: Body)
    ensures !Overlaps(b.pos, block) ==> r == b
    ensures Overlaps(b.pos, block) ==>
              var d := Sub(b.pos, block);
              var a := SeparatingAxis(d);
              && (Get(d, a) >= 0.0 ==> Get(r.pos, a) == Get(block, a) + Get(MinDist, a))
              && (Get(d, a) < 0.0 ==> Get(r.pos, a) == Get(block, a) - Get(MinDist, a))
              && Abs(Get(r.pos, a) - Get(b.pos, a)) == Get(MinDist, a) - Abs(Get(d, a))
              && Get(r.vel, a) == 0.0
              && (forall k: Axis :: k != a ==> Get(r.pos, k) == Get(b.pos, k) && Get(r.vel, k) == Get(b.vel, k))
              && !Overlaps(r.pos, block)
  {
    var d := Sub(b.pos, block);
    if !Overlaps(b.pos, block) then b
    else match SeparatingAxis(d)
      case Y =>
        if d.y > 0.0 then Body(b.pos.(y := block.y + MinDist.y), b.vel.(y := 0.0))
        else Body(b.pos.(y := block.y - MinDist.y), b.vel.(y := 0.0))
      case X =>
        Body(b.pos.(x := block.x + MinDist.x * Signum(d.x)), b.vel.(x := 0.0))
      case Z =>
        Body(b.pos.(z := block.z + MinDist.z * Signum(d.z)), b.vel.(z := 0.0))
  }

  /**
   The block loop: one pass over the blocks in order, each resolved against the position the
   earlier ones left. Each velocity component ends unchanged or zero; a coordinate that moved
   away from the candidate has its velocity component zeroed and sits exactly `MinDist` from
   some block on that axis; and the last block processed does not overlap the result.
   */
  function ResolveAll(b: Body, blocks: seq<Vec3>): (r: Body)
    ensures r.vel.x == b.vel.x || r.vel.x == 0.0
    ensures r.vel.y == b.vel.y || r.vel.y == 0.0
    ensures r.vel.z == b.vel.z || r.vel.z == 0.0
    ensures forall k: Axis :: Get(r.pos, k) != Get(b.pos, k) ==> Get(r.vel, k) == 0.0
    ensures forall k: Axis :: Get(r.pos, k) != Get(b.pos, k) ==>
              exists i :: 0 <= i < |blocks| && Abs(Get(r.pos, k) - Get(blocks[i], k)) == Get(MinDist, k)
    ensures |blocks| > 0 ==> !Overlaps(r.pos, blocks[|blocks| - 1])
  {
    if |blocks| == 0 then b
    else
      var n := |blocks| - 1;
      var q := ResolveAll(b, blocks[..n]);
      var r := ResolveBlock(q, blocks[n]);
      assert forall k: Axis :: Get(r.pos, k) != Get(b.pos, k) ==>
               exists i :: 0 <= i < |blocks| && Abs(Get(r.pos, k) - Get(blocks[i], k)) == Get(MinDist, k) by {
        forall k: Axis | Get(r.pos, k) != Get(b.pos, k)
          ensures exists i :: 0 <= i < |blocks| && Abs(Get(r.pos, k) - Get(blocks[i], k)) == Get(MinDist, k)
        {
          if Get(r.pos, k) == Get(q.pos, k) {
            var i :| 0 <= i < n && Abs(Get(q.pos, k) - Get(blocks[..n][i], k)) == Get(MinDist, k);
            assert blocks[..n][i] == blocks[i];
          } else {
            assert Abs(Get(r.pos, k) - Get(blocks[n], k)) == Get(MinDist, k);
          }
        }
      }
      r
  }

  /** One `physics_system` call over frame time `dt`: gravity, then the candidate position, then the block pass. */
  function PhysicsStep(b: Body, dt: real, blocks: seq<Vec3>): (r: Body)
    ensures r.vel.y == b.vel.y - GravityAccel * dt || r.vel.y == 0.0
    ensures r.vel.x == b.vel.x || r.vel.x == 0.0
    ensures r.vel.z == b.vel.z || r.vel.z == 0.0
    ensures var c := Add(b.pos, Scale(b.vel.(y := b.vel.y - GravityAccel * dt), dt));
            forall k: Axis :: Get(r.pos, k) != Get(c, k) ==>
              Get(r.vel, k) == 0.0
              && exists i :: 0 <= i < |blocks| && Abs(Get(r.pos, k) - Get(blocks[i], k)) == Get(MinDist, k)
    ensures |blocks| > 0 ==> !Overlaps(r.pos, blocks[|blocks| - 1])
  {
    var v := b.vel.(y := b.vel.y - GravityAccel * dt);
    ResolveAll(Body(Add(b.pos, Scale(v, dt)), v), blocks)
  }

  /** When no block overlaps the candidate position, the pass leaves the player exactly where integration put it. */
  lemma {:induction false} NoContactNoChange(b: Body, blocks: seq<Vec3>)
    requires forall i :: 0 <= i < |blocks| ==> !Overlaps(b.pos, blocks[i])
    ensures ResolveAll(b, blocks) == b
  {
    if |blocks| > 0 {
      NoContactNoChange(b, blocks[..|blocks| - 1]);
    }
  }

  /** Free fall: with no block in reach, gravity is applied once and the player moves by `v * dt`. */
  lemma FreeFall(b: Body, dt: real, blocks: seq<Vec3>)
    requires var v := b.vel.(y := b.vel.y - GravityAccel * dt);
             forall i :: 0 <= i < |blocks| ==> !Overlaps(Add(b.pos, Scale(v, dt)), blocks[i])
    ensures PhysicsStep(b, dt, blocks).vel == b.vel.(y := b.vel.y - GravityAccel * dt)
    ensures PhysicsStep(b, dt, blocks).pos == Add(b.pos, Scale(b.vel.(y := b.vel.y - GravityAccel * dt), dt))
  {
    var v := b.vel.(y := b.vel.y - GravityAccel * dt);
    NoContactNoChange(Body(Add(b.pos, Scale(v, dt)), v), blocks);
  }

  /**
   Standing still on top of a single block is stable: over a frame short enough that gravity
   sinks the player by less than 1.5, the player is put back on the block's top face at rest.
   */
  lemma RestingIsStable(block: Vec3, dt: real)
    requires 0.0 < dt && GravityAccel * dt * dt < MinDist.y
    ensures var b := Body(Vec3(block.x, block.y + MinDist.y, block.z), Zero);
            PhysicsStep(b, dt, [block]) == b
  {
    var b := Body(Vec3(block.x, block.y + MinDist.y, block.z), Zero);
    var v := b.vel.(y := -GravityAccel * dt);
    var c := Body(Add(b.pos, Scale(v, dt)), v);
    var h := GravityAccel * dt * dt;
    assert (-GravityAccel * dt) * dt == -h;
    assert Scale(v, dt) == Vec3(0.0, -h, 0.0);
    assert c.pos == Vec3(block.x, block.y + MinDist.y - h, block.z);
    assert Sub(c.pos, block) == Vec3(0.0, MinDist.y - h, 0.0);
    assert Overlaps(c.pos, block);
    assert SeparatingAxis(Sub(c.pos, block)) == Y;
    assert ResolveBlock(c, block) == b;
    assert [block][..0] == [];
    assert ResolveAll(c, [block]) == ResolveBlock(ResolveAll(c, []), block);
    assert PhysicsStep(b, dt, [block]) == ResolveAll(c, [block]);
  }

  /**
   The pass is single, not a fixed point: squeezed between a block below and one above 2.5
   higher, the player is pushed up out of the first and then back down into it by the second.
   */
  lemma SinglePassMayLeaveOverlap()
    ensures var lower := Vec3(0.0, 0.0, 0.0);
            var upper := Vec3(0.5, 2.5, 0.0);
            var r := ResolveAll(Body(Vec3(0.5, 1.0, 0.0), Zero), [lower, upper]);
            Overlaps(r.pos, lower) && r.pos == Vec3(0.5, 1.0, 0.0)
  {
    var lower := Vec3(0.0, 0.0, 0.0);
    var upper := Vec3(0.5, 2.5, 0.0);
    var s := [lower, upper];
    var b0 := Body(Vec3(0.5, 1.0, 0.0), Zero);
    assert SeparatingAxis(Sub(b0.pos, lower)) == Y;
    var b1 := ResolveBlock(b0, lower);
    assert b1.pos == Vec3(0.5, 1.5, 0.0);
    assert SeparatingAxis(Sub(b1.pos, upper)) == Y;
    var b2 := ResolveBlock(b1, upper);
    assert b2.pos == Vec3(0.5, 1.0, 0.0);
    assert s[..1] == [lower];
    assert s[..1][..0] == [];
    assert ResolveAll(b0, [lower]) == b1;
    assert ResolveAll(b0, s) == b2;
  }
}

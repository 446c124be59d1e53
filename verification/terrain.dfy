/**
 Terrain columns: the noise sample is clamped at zero and truncated to an integer height `h`,
 and the column at `(x, z)` holds one block for every integer `y` in `[-5, h]`, the top one
 (`y == h`) grass and the rest dirt. Used both by the startup world and by the loading screen.
 */
module Terrain {
  import opened Geometry

  /** The Perlin sample at a point of the plane; the noise generator itself is not modelled. */
  type Noise = (real, real) -> real

  const I32Max: int := 0x7fff_ffff
  /** The y coordinate of the lowest block of every column. */
  const BottomY: int := -5
  /** Grid coordinates are scaled by this before sampling the noise. */
  const NoiseScale: real := 0.1
  /** The noise sample is scaled by this to give a height. */
  const HeightScale: real := 5.0
  /** The startup world covers x and z in [-StartupHalf, StartupHalf). */
  const StartupHalf: int := 10

  datatype Material = Dirt | Grass

  /** One spawned cube, centred at an integer lattice point. */
  datatype Block = Block(x: int, y: int, z: int, material: Material)

  /** Rust's `f64 as i32` on a non-negative value: truncation toward zero, saturating at `i32::MAX`. */
  function TruncToI32(v: real): (h: int)
    requires v >= 0.0
    ensures 0 <= h <= I32Max
    ensures h < I32Max ==> h as real <= v < h as real + 1.0
    ensures h == I32Max <==> v >= I32Max as real
  {
    if v >= I32Max as real then I32Max else v.Floor
  }

  /** The column height at `(x, z)`: five times the noise sampled at a tenth of the coordinates, clamped at zero, cast to i32. */
  function Height(noise: Noise, x: int, z: int): int {
    TruncToI32(Max(noise(x as real * NoiseScale, z as real * NoiseScale) * HeightScale, 0.0))
  }

  /** The blocks `y0, y0 + 1, ..., h` of the column at `(x, z)` whose top is at `h`, bottom first. */
  function Stack(x: int, z: int, h: int, y0: int): seq<Block>
    decreases h - y0
  {
    if y0 > h then []
    else [Block(x, y0, z, if y0 == h then Grass else Dirt)] + Stack(x, z, h, y0 + 1)
  }

  /** The blocks spawned for the column at `(x, z)`. */
  function Column(noise: Noise, x: int, z: int): seq<Block> {
    Stack(x, z, Height(noise, x, z), BottomY)
  }

  /** The blocks of columns `(x, z0) .. (x, z1 - 1)`, in that order. */
  function Row(noise: Noise, x: int, z0: int, z1: int): seq<Block>
    decreases z1 - z0
  {
    if z0 >= z1 then [] else Column(noise, x, z0) + Row(noise, x, z0 + 1, z1)
  }

  /** The blocks of every column with `x0 <= x < x1` and `z0 <= z < z1`, x in the outer loop. */
  function Grid(noise: Noise, x0: int, x1: int, z0: int, z1: int): seq<Block>
    decreases x1 - x0
  {
    if x0 >= x1 then [] else Row(noise, x0, z0, z1) + Grid(noise, x0 + 1, x1, z0, z1)
  }

  /** The terrain spawned at startup: the 20 x 20 columns with x and z in [-10, 10). */
  function StartupTerrain(noise: Noise): seq<Block> {
    Grid(noise, -StartupHalf, StartupHalf, -StartupHalf, StartupHalf)
  }

  /** A block belongs to the terrain shape: it lies within its column's height, and is grass exactly at the top. */
  ghost predicate InTerrain(noise: Noise, b: Block) {
    && BottomY <= b.y <= Height(noise, b.x, b.z)
    && (b.material == Grass <==> b.y == Height(noise, b.x, b.z))
  }

  /** The number of grass blocks in a sequence. */
  function GrassCount(s: seq<Block>): nat {
    if |s| == 0 then 0 else (if s[0].material == Grass then 1 else 0) + GrassCount(s[1..])
  }

  lemma {:induction false} GrassCountAppend(s: seq<Block>, t: seq<Block>)
    ensures GrassCount(s + t) == GrassCount(s) + GrassCount(t)
    decreases |s|
  {
    if |s| == 0 {
      assert s + t == t;
    } else {
      assert (s + t)[1..] == s[1..] + t;
      GrassCountAppend(s[1..], t);
    }
  }

  /** The height is never negative, is zero whenever the sample is not positive, and is the whole part of five times the sample otherwise. */
  lemma HeightBounds(noise: Noise, x: int, z: int)
    ensures 0 <= Height(noise, x, z) <= I32Max
    ensures noise(x as real * NoiseScale, z as real * NoiseScale) <= 0.0 ==> Height(noise, x, z) == 0
    ensures var v := noise(x as real * NoiseScale, z as real * NoiseScale) * HeightScale;
            0.0 <= v < I32Max as real ==> Height(noise, x, z) as real <= v < Height(noise, x, z) as real + 1.0
  {
  }

  /** A stack holds exactly the levels `y0 .. h` in order, in the column `(x, z)`, grass only at `h`. */
  lemma {:induction false} StackShape(x: int, z: int, h: int, y0: int)
    requires y0 <= h + 1
    ensures |Stack(x, z, h, y0)| == h - y0 + 1
    ensures forall i :: 0 <= i < |Stack(x, z, h, y0)| ==>
              Stack(x, z, h, y0)[i] == Block(x, y0 + i, z, if y0 + i == h then Grass else Dirt)
    decreases h - y0
  {
    if y0 <= h {
      StackShape(x, z, h, y0 + 1);
    }
  }

  /** A block is in the stack exactly when it has the column's coordinates, a level in `[y0, h]`, and is grass iff at `h`. */
  lemma StackMembers(x: int, z: int, h: int, y0: int, b: Block)
    requires y0 <= h + 1
    ensures b in Stack(x, z, h, y0) <==>
              b.x == x && b.z == z && y0 <= b.y <= h && (b.material == Grass <==> b.y == h)
  {
    StackShape(x, z, h, y0);
    var s := Stack(x, z, h, y0);
    if b.x == x && b.z == z && y0 <= b.y <= h && (b.material == Grass <==> b.y == h) {
      assert s[b.y - y0] == b;
    }
  }

  /** A column of height `h` has `h + 6` blocks, exactly one of which, the top one, is grass. */
  lemma {:induction false} ColumnShape(noise: Noise, x: int, z: int)
    ensures var h := Height(noise, x, z);
            |Column(noise, x, z)| == h + 6
            && Column(noise, x, z)[h + 5] == Block(x, h, z, Grass)
            && GrassCount(Column(noise, x, z)) == 1
  {
    var h := Height(noise, x, z);
    StackShape(x, z, h, BottomY);
    StackGrassCount(x, z, h, BottomY);
  }

  lemma {:induction false} StackGrassCount(x: int, z: int, h: int, y0: int)
    requires y0 <= h
    ensures GrassCount(Stack(x, z, h, y0)) == 1
    decreases h - y0
  {
    var s := Stack(x, z, h, y0);
    assert s[1..] == Stack(x, z, h, y0 + 1);
    if y0 < h {
      StackGrassCount(x, z, h, y0 + 1);
    } else {
      assert s[1..] == [];
    }
  }

  /** A block is in the column at `(x, z)` exactly when it is at `(x, z)` and has the terrain shape. */
  lemma ColumnMembers(noise: Noise, x: int, z: int, b: Block)
    ensures b in Column(noise, x, z) <==> b.x == x && b.z == z && InTerrain(noise, b)
  {
    StackMembers(x, z, Height(noise, x, z), BottomY, b);
  }

  lemma {:induction false} RowMembers(noise: Noise, x: int, z0: int, z1: int, b: Block)
    ensures b in Row(noise, x, z0, z1) <==> b.x == x && z0 <= b.z < z1 && InTerrain(noise, b)
    decreases z1 - z0
  {
    if z0 < z1 {
      ColumnMembers(noise, x, z0, b);
      RowMembers(noise, x, z0 + 1, z1, b);
    }
  }

  /** A block is in the grid exactly when its column is in the rectangle and it has the terrain shape. */
  lemma {:induction false} GridMembers(noise: Noise, x0: int, x1: int, z0: int, z1: int, b: Block)
    ensures b in Grid(noise, x0, x1, z0, z1) <==>
              x0 <= b.x < x1 && z0 <= b.z < z1 && InTerrain(noise, b)
    decreases x1 - x0
  {
    if x0 < x1 {
      RowMembers(noise, x0, z0, z1, b);
      GridMembers(noise, x0 + 1, x1, z0, z1, b);
    }
  }

  /** The startup terrain holds exactly the terrain-shaped blocks of the columns with x and z in [-10, 10). */
  lemma StartupTerrainMembers(noise: Noise, b: Block)
    ensures b in StartupTerrain(noise) <==>
              -StartupHalf <= b.x < StartupHalf && -StartupHalf <= b.z < StartupHalf && InTerrain(noise, b)
  {
    GridMembers(noise, -StartupHalf, StartupHalf, -StartupHalf, StartupHalf, b);
  }

  /** Each column of a row contributes exactly one grass block. */
  lemma {:induction false} RowGrassCount(noise: Noise, x: int, z0: int, z1: int)
    requires z0 <= z1
    ensures GrassCount(Row(noise, x, z0, z1)) == z1 - z0
    decreases z1 - z0
  {
    if z0 < z1 {
      ColumnShape(noise, x, z0);
      RowGrassCount(noise, x, z0 + 1, z1);
      GrassCountAppend(Column(noise, x, z0), Row(noise, x, z0 + 1, z1));
    }
  }

  /** A grid has exactly one grass block per column. */
  lemma {:induction false} GridGrassCount(noise: Noise, x0: int, x1: int, z0: int, z1: int)
    requires x0 <= x1 && z0 <= z1
    ensures GrassCount(Grid(noise, x0, x1, z0, z1)) == (x1 - x0) * (z1 - z0)
    decreases x1 - x0
  {
    if x0 < x1 {
      RowGrassCount(noise, x0, z0, z1);
      GridGrassCount(noise, x0 + 1, x1, z0, z1);
      GrassCountAppend(Row(noise, x0, z0, z1), Grid(noise, x0 + 1, x1, z0, z1));
      assert (x1 - x0) * (z1 - z0) == (z1 - z0) + (x1 - (x0 + 1)) * (z1 - z0);
    }
  }

  /** The startup world has 400 columns, so 400 grass blocks, one on top of each. */
  lemma StartupGrassCount(noise: Noise)
    ensures GrassCount(StartupTerrain(noise)) == 4 * StartupHalf * StartupHalf
  {
    GridGrassCount(noise, -StartupHalf, StartupHalf, -StartupHalf, StartupHalf);
  }
}

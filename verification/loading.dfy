/**
 The `loading_screen` system: each frame it generates at most 100 terrain columns, walking the
 square of `WORLD_SIZE x WORLD_SIZE` columns row by row through a single counter, and requests
 Playing once the counter has reached the total.
 */
module Loading {
  import opened Wrappers
  import opened Terrain
  import opened GameStates

  /** The source's `WORLD_SIZE`: the loading screen generates a 2 x 2 square of columns. */
  const WorldSize: int := 2
  /** Columns generated per frame at most. */
  const BlocksPerFrame: nat := 100

  /** The `WorldGenProgress` resource: columns generated so far, out of a fixed total. */
  datatype Progress = Progress(completed: nat, total: nat)

  datatype ColumnPos = ColumnPos(x: int, z: int)

  /** The column generated for counter value `c` in a square of width `w`: `x` runs fastest. */
  function ColumnAt(w: int, c: nat): ColumnPos
    requires w > 0
  {
    ColumnPos(-(w / 2) + c % w, -(w / 2) + c / w)
  }

  /** The counter value that generates column `p`. */
  function IndexOf(w: int, p: ColumnPos): int
    requires w > 0
  {
    (p.x + w / 2) + (p.z + w / 2) * w
  }

  /** The columns that some counter value reaches: `x` within the square's width, `z` not below it. */
  predicate InStrip(w: int, p: ColumnPos)
    requires w > 0
  {
    -(w / 2) <= p.x < -(w / 2) + w && -(w / 2) <= p.z
  }

  /** The square `[-w/2, -w/2 + w)^2` of columns the loading screen covers. */
  predicate InSquare(w: int, p: ColumnPos)
    requires w > 0
  {
    -(w / 2) <= p.x < -(w / 2) + w && -(w / 2) <= p.z < -(w / 2) + w
  }

  /** Every counter value names a column of the strip, and that column names the counter value back. */
  lemma ColumnAtRoundTrip(w: int, c: nat)
    requires w > 0
    ensures InStrip(w, ColumnAt(w, c))
    ensures IndexOf(w, ColumnAt(w, c)) == c
  {
    var q, r := c / w, c % w;
    assert c == q * w + r;
  }

  /** Every column of the strip is generated by exactly the counter value `IndexOf` gives. */
  lemma IndexOfRoundTrip(w: int, p: ColumnPos)
    requires w > 0 && InStrip(w, p)
    ensures IndexOf(w, p) >= 0
    ensures ColumnAt(w, IndexOf(w, p)) == p
  {
    var a, b := p.x + w / 2, p.z + w / 2;
    assert 0 <= a < w && 0 <= b;
    assert b * w >= 0;
    DivModUnique(w, a + b * w, b, a);
  }

  lemma DivModUnique(w: int, c: int, q: int, r: int)
    requires w > 0 && 0 <= r < w && c == q * w + r
    ensures c / w == q && c % w == r
  {
    var q', r' := c / w, c % w;
    assert c == q' * w + r' && 0 <= r' < w;
    if q < q' {
      MulMonotone(q + 1, q', w);
      assert false;
    } else if q' < q {
      MulMonotone(q' + 1, q, w);
      assert false;
    }
  }

  lemma MulMonotone(a: int, b: int, w: int)
    requires a <= b && w > 0
    ensures a * w <= b * w
  {
    assert b * w - a * w == (b - a) * w;
  }

  /** Counter values below `w * w` are exactly the ones whose column lies in the square. */
  lemma IndexInSquare(w: int, p: ColumnPos)
    requires w > 0 && InStrip(w, p)
    ensures IndexOf(w, p) < w * w <==> InSquare(w, p)
  {
    var a, b := p.x + w / 2, p.z + w / 2;
    if b < w {
      MulMonotone(b, w - 1, w);
      assert (w - 1) * w == w * w - w;
    } else {
      MulMonotone(w, b, w);
    }
  }

  /** Index bijection: the counters `0 .. w*w - 1` reach distinct columns, all inside the square. */
  lemma ColumnAtBijective(w: int, c1: nat, c2: nat)
    requires w > 0 && c1 < w * w && c2 < w * w
    ensures InSquare(w, ColumnAt(w, c1))
    ensures c1 != c2 ==> ColumnAt(w, c1) != ColumnAt(w, c2)
  {
    ColumnAtRoundTrip(w, c1);
    ColumnAtRoundTrip(w, c2);
    IndexInSquare(w, ColumnAt(w, c1));
  }

  /** The blocks of the columns for counter values `a .. b - 1`, in counter order. */
  function Columns(noise: Noise, w: int, a: nat, b: nat): seq<Block>
    requires w > 0
    decreases b - a
  {
    if b <= a then []
    else
      var p := ColumnAt(w, b - 1);
      Columns(noise, w, a, b - 1) + Column(noise, p.x, p.z)
  }

  lemma {:induction false} ColumnsAppend(noise: Noise, w: int, a: nat, b: nat, c: nat)
    requires w > 0 && a <= b <= c
    ensures Columns(noise, w, a, b) + Columns(noise, w, b, c) == Columns(noise, w, a, c)
    decreases c - b
  {
    if b < c {
      ColumnsAppend(noise, w, a, b, c - 1);
      var p := ColumnAt(w, c - 1);
      assert Columns(noise, w, a, b) + (Columns(noise, w, b, c - 1) + Column(noise, p.x, p.z))
          == (Columns(noise, w, a, b) + Columns(noise, w, b, c - 1)) + Column(noise, p.x, p.z);
    } else {
      assert Columns(noise, w, b, c) == [];
    }
  }

  /** The columns for counters `a .. b - 1` hold exactly one grass block each. */
  lemma {:induction false} ColumnsGrassCount(noise: Noise, w: int, a: nat, b: nat)
    requires w > 0 && a <= b
    ensures GrassCount(Columns(noise, w, a, b)) == b - a
    decreases b - a
  {
    if a < b {
      var p := ColumnAt(w, b - 1);
      ColumnsGrassCount(noise, w, a, b - 1);
      ColumnShape(noise, p.x, p.z);
      GrassCountAppend(Columns(noise, w, a, b - 1), Column(noise, p.x, p.z));
    }
  }

  /** A block is among the columns for counters `a .. b - 1` exactly when its column's counter is in that range and it has the terrain shape. */
  lemma {:induction false} ColumnsMembers(noise: Noise, w: int, a: nat, b: nat, blk: Block)
    requires w > 0
    ensures blk in Columns(noise, w, a, b) <==>
              InStrip(w, ColumnPos(blk.x, blk.z)) && a <= IndexOf(w, ColumnPos(blk.x, blk.z)) < b
              && InTerrain(noise, blk)
    decreases b - a
  {
    var pos := ColumnPos(blk.x, blk.z);
    if a < b {
      ColumnsMembers(noise, w, a, b - 1, blk);
      var p := ColumnAt(w, b - 1);
      ColumnMembers(noise, p.x, p.z, blk);
      ColumnAtRoundTrip(w, b - 1);
      if InStrip(w, pos) {
        IndexOfRoundTrip(w, pos);
      }
    }
  }

  /** The whole loaded world holds exactly the terrain-shaped blocks of the columns of the square. */
  lemma LoadedWorldMembers(noise: Noise, w: int, blk: Block)
    requires w > 0
    ensures blk in Columns(noise, w, 0, w * w) <==> InSquare(w, ColumnPos(blk.x, blk.z)) && InTerrain(noise, blk)
  {
    var pos := ColumnPos(blk.x, blk.z);
    ColumnsMembers(noise, w, 0, w * w, blk);
    if InStrip(w, pos) {
      IndexOfRoundTrip(w, pos);
      IndexInSquare(w, pos);
    }
  }

  /** With the source's width of 2, every block the loading screen spawns was already spawned at startup. */
  lemma LoadingDuplicatesStartup(noise: Noise, blk: Block)
    requires blk in Columns(noise, WorldSize, 0, WorldSize * WorldSize)
    ensures blk in StartupTerrain(noise)
  {
    LoadedWorldMembers(noise, WorldSize, blk);
    GridMembers(noise, -StartupHalf, StartupHalf, -StartupHalf, StartupHalf, blk);
  }

  /** What one `loading_screen` call produces. */
  datatype LoadFrame = LoadFrame(progress: Progress, spawned: seq<Block>, request: Option<GameState>)

  /**
   One `loading_screen` call. Up to 100 times: if the counter has reached the total, request
   Playing and stop; otherwise spawn the column the counter names and advance the counter.
   */
  method LoadingScreen(noise: Noise, w: int, p: Progress) returns (f: LoadFrame)
    requires w > 0
    ensures f.progress.total == p.total
    ensures p.completed <= f.progress.completed <= p.completed + BlocksPerFrame
    ensures p.completed <= p.total ==> f.progress.completed <= p.total
    ensures f.progress.completed == if p.completed >= p.total then p.completed
                                    else if p.total - p.completed < BlocksPerFrame then p.total
                                    else p.completed + BlocksPerFrame
    ensures f.request == Some(Playing) <==> p.total - p.completed < BlocksPerFrame
    ensures f.request == None <==> p.total - p.completed >= BlocksPerFrame
    ensures f.spawned == Columns(noise, w, p.completed, f.progress.completed)
  {
    var completed := p.completed;
    var spawned := [];
    var i := 0;
    while i < BlocksPerFrame
      invariant 0 <= i <= BlocksPerFrame
      invariant completed == p.completed + i
      invariant i > 0 ==> completed <= p.total
      invariant spawned == Columns(noise, w, p.completed, completed)
    {
      if completed >= p.total {
        return LoadFrame(Progress(completed, p.total), spawned, Some(Playing));
      }
      var col := ColumnAt(w, completed);
      spawned := spawned + Column(noise, col.x, col.z);
      completed := completed + 1;
      i := i + 1;
    }
    return LoadFrame(Progress(completed, p.total), spawned, None);
  }

  /**
   The Loading state from `p` until the frame that requests Playing: `loading_screen` runs once
   per frame. All remaining columns are spawned, each once and in counter order, and it takes
   `(total - completed) / 100 + 1` frames.
   */
  method LoadToCompletion(noise: Noise, w: int, p: Progress) returns (spawned: seq<Block>, frames: nat, last: Progress)
    requires w > 0 && p.completed <= p.total
    ensures last == Progress(p.total, p.total)
    ensures spawned == Columns(noise, w, p.completed, p.total)
    ensures frames == (p.total - p.completed) / BlocksPerFrame + 1
  {
    var cur := p;
    spawned := [];
    frames := 0;
    var done := false;
    while !done
      invariant p.completed <= cur.completed <= cur.total == p.total
      invariant spawned == Columns(noise, w, p.completed, cur.completed)
      invariant !done ==> cur.completed - p.completed == BlocksPerFrame * frames
      invariant done ==> cur.completed == p.total && frames == (p.total - p.completed) / BlocksPerFrame + 1
      decreases if done then 0 else 1, cur.total - cur.completed
    {
      var f := LoadingScreen(noise, w, cur);
      ColumnsAppend(noise, w, p.completed, cur.completed, f.progress.completed);
      spawned := spawned + f.spawned;
      if f.request == Some(Playing) {
        done := true;
        DivBy100(p.total - p.completed, frames);
      }
      frames := frames + 1;
      cur := f.progress;
    }
    last := cur;
  }

  lemma DivBy100(n: int, k: int)
    requires 0 <= k && BlocksPerFrame * k <= n < BlocksPerFrame * k + BlocksPerFrame
    ensures n / BlocksPerFrame == k
  {
  }
}

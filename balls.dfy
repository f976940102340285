/** The ball entity of the animation and what a ball does on its own
    turn: `Ball.update` (js/main.js:50-58) and `Ball.collisionDetect`
    (js/main.js:60-72), as functions on the ball records they mutate. */
module Balls {
  import opened Rng

  /** A ball. The source's `exists` flag is `alive` here (`exists` is a
      Dafny keyword). Positions and velocities are whole pixels: every
      value the source ever gives them is an integer. */
  datatype Ball = Ball(x: int, y: int, velX: int, velY: int, color: Color, size: int, alive: bool)

  function Abs(v: int): nat {
    if v < 0 then -v else v
  }

  /** `Math.hypot(dx, dy) < reach` in integers: a distance is never
      negative, so it is below `reach` exactly when `reach` is positive
      and dx*dx + dy*dy < reach*reach. */
  predicate Overlapping(x1: int, y1: int, x2: int, y2: int, reach: int) {
    var dx := x1 - x2;
    var dy := y1 - y2;
    0 < reach && dx * dx + dy * dy < reach * reach
  }

  /** The ball reaches at most one step of its own speed beyond the band
      [size, dim - size] in which the creation loop places it. */
  predicate InBand(b: Ball, width: int, height: int) {
    && b.size - Abs(b.velX) <= b.x <= width - b.size + Abs(b.velX)
    && b.size - Abs(b.velY) <= b.y <= height - b.size + Abs(b.velY)
  }

  /** `Ball.update` on a canvas of the given size: each velocity
      component is forced to point back inside when the ball's edge has
      reached the wall, then the ball moves by its velocity. */
  function Step(b: Ball, width: int, height: int): (r: Ball)
    // a removed ball is left as it is
    ensures !b.alive ==> r == b
    // colour, size and the flag are untouched; the speeds are kept
    ensures r.color == b.color && r.size == b.size && r.alive == b.alive
    ensures Abs(r.velX) == Abs(b.velX) && Abs(r.velY) == Abs(b.velY)
    // the ball moves by exactly its new velocity
    ensures b.alive ==> r.x == b.x + r.velX && r.y == b.y + r.velY
    // reflection at the left and top walls
    ensures b.alive && b.x - b.size <= 0 ==> r.velX >= 0
    ensures b.alive && b.y - b.size <= 0 ==> r.velY >= 0
    // reflection at the right and bottom walls, when the canvas is wider than the ball
    ensures b.alive && 2 * b.size < width && b.x + b.size >= width ==> r.velX <= 0
    ensures b.alive && 2 * b.size < height && b.y + b.size >= height ==> r.velY <= 0
    // away from the walls the velocity is kept
    ensures b.size < b.x < width - b.size ==> r.velX == b.velX
    ensures b.size < b.y < height - b.size ==> r.velY == b.velY
    // a ball never escapes more than one step beyond its band
    ensures 2 * b.size <= width && 2 * b.size <= height && InBand(b, width, height)
            ==> InBand(r, width, height)
  {
    if !b.alive then b
    else
      var vx: int := if b.x + b.size >= width then 0 - Abs(b.velX) else b.velX;
      var vx': int := if b.x - b.size <= 0 then Abs(vx) else vx;
      var vy: int := if b.y + b.size >= height then 0 - Abs(b.velY) else b.velY;
      var vy': int := if b.y - b.size <= 0 then Abs(vy) else vy;
      b.(velX := vx', velY := vy', x := b.x + vx', y := b.y + vy')
  }

  /** During ball i's collision scan, ball j is infected: it is another
      ball (`this !== ball`: balls are distinct objects, so another index),
      it is alive, and the two circles overlap. */
  predicate Hits(bs: seq<Ball>, i: nat, j: nat)
    requires i < |bs| && j < |bs|
  {
    && j != i
    && bs[j].alive
    && Overlapping(bs[i].x, bs[i].y, bs[j].x, bs[j].y, bs[i].size + bs[j].size)
  }

  /** The last index below n that ball i infects, or -1 if there is none. */
  function LastHit(bs: seq<Ball>, i: nat, n: nat): (r: int)
    requires i < |bs| && n <= |bs|
    ensures -1 <= r < n
    ensures r >= 0 ==> Hits(bs, i, r)
    ensures forall k: nat :: r < k < n ==> !Hits(bs, i, k)
    decreases n
  {
    if n == 0 then -1
    else if Hits(bs, i, n - 1) then n - 1
    else LastHit(bs, i, n - 1)
  }

  /** The first n iterations of the loop of `Ball.collisionDetect` for
      ball i. `palette[j]` is the colour randomRGB returns when the loop
      infects ball j; both balls take it. */
  function Scan(bs: seq<Ball>, i: nat, palette: seq<Color>, n: nat): (r: seq<Ball>)
    requires i < |bs| && |palette| == |bs| && n <= |bs|
    ensures |r| == |bs|
    decreases n
  {
    if n == 0 then bs
    else
      var s := Scan(bs, i, palette, n - 1);
      var j := n - 1;
      if Hits(s, i, j) then
        var c := palette[j];
        s[i := s[i].(color := c)][j := s[j].(color := c)]
      else s
  }

  /** `Ball.collisionDetect` for ball i: nothing if the ball is removed,
      otherwise the whole scan over the collection. */
  function Infected(bs: seq<Ball>, i: nat, palette: seq<Color>): (r: seq<Ball>)
    requires i < |bs| && |palette| == |bs|
    ensures |r| == |bs|
  {
    if !bs[i].alive then bs else Scan(bs, i, palette, |bs|)
  }

  /** Two balls that agree on everything except their colour. */
  predicate SameButColor(a: Ball, b: Ball) {
    a == b.(color := a.color)
  }

  /** What the first n iterations of the scan do, element by element:
      they change colours only; a ball other than i takes its palette
      colour exactly if it is infected; ball i takes the colour of the last
      ball it infected, if any. */
  lemma {:induction false} ScanEffect(bs: seq<Ball>, i: nat, palette: seq<Color>, n: nat)
    requires i < |bs| && |palette| == |bs| && n <= |bs|
    ensures var r := Scan(bs, i, palette, n);
      && (forall k :: 0 <= k < |bs| ==> SameButColor(r[k], bs[k]))
      && (forall k :: 0 <= k < |bs| && k != i ==>
            r[k].color == if k < n && Hits(bs, i, k) then palette[k] else bs[k].color)
      && r[i].color == (var last := LastHit(bs, i, n);
                        if last >= 0 then palette[last] else bs[i].color)
    decreases n
  {
    if n > 0 {
      ScanEffect(bs, i, palette, n - 1);
      var s := Scan(bs, i, palette, n - 1);
      var j := n - 1;
      assert SameButColor(s[i], bs[i]) && SameButColor(s[j], bs[j]);
      assert Hits(s, i, j) == Hits(bs, i, j);
    }
  }

  /** `Ball.collisionDetect`, as the source promises it: a removed ball
      changes nothing; otherwise only colours change, every other live
      ball that overlaps ball i is recoloured with its own fresh colour,
      every other ball keeps its colour, and ball i ends with the colour
      of the last overlapping ball in collection order, which that ball
      shares. */
  lemma InfectedEffect(bs: seq<Ball>, i: nat, palette: seq<Color>)
    requires i < |bs| && |palette| == |bs|
    ensures var r := Infected(bs, i, palette);
      && (!bs[i].alive ==> r == bs)
      && (forall k :: 0 <= k < |bs| ==> SameButColor(r[k], bs[k]))
      && (forall k :: 0 <= k < |bs| && k != i ==>
            r[k].color == if bs[i].alive && Hits(bs, i, k) then palette[k] else bs[k].color)
      && (forall k :: 0 <= k < |bs| && !bs[k].alive && k != i ==> r[k] == bs[k])
      && (var last := LastHit(bs, i, |bs|);
          && r[i].color == (if bs[i].alive && last >= 0 then palette[last] else bs[i].color)
          && (bs[i].alive && last >= 0 ==> r[i].color == r[last].color))
  {
    if bs[i].alive {
      ScanEffect(bs, i, palette, |bs|);
    }
  }

  /** Infection does not leave every overlapping pair with one colour: when
      ball 0 infects balls 1 and 2 with different fresh colours, ball 0 ends
      with ball 2's colour and differs from ball 1. */
  lemma InfectionNotPairwise(bs: seq<Ball>, palette: seq<Color>)
    requires |bs| == 3 && |palette| == 3
    requires bs[0].alive && Hits(bs, 0, 1) && Hits(bs, 0, 2)
    requires palette[1] != palette[2]
    ensures var r := Infected(bs, 0, palette);
      r[0].color == r[2].color && r[0].color != r[1].color
  {
    InfectedEffect(bs, 0, palette);
  }

  /** The number of live balls: the quantity `ballCount` stands for. */
  function Live(bs: seq<Ball>): (n: nat)
    ensures n <= |bs|
  {
    if bs == [] then 0
    else Live(bs[..|bs| - 1]) + (if bs[|bs| - 1].alive then 1 else 0)
  }

  /** Collections that agree on every ball's flag have the same live count. */
  lemma {:induction false} LiveSameFlags(a: seq<Ball>, b: seq<Ball>)
    requires |a| == |b|
    requires forall k :: 0 <= k < |a| ==> a[k].alive == b[k].alive
    ensures Live(a) == Live(b)
    decreases |a|
  {
    if a != [] {
      LiveSameFlags(a[..|a| - 1], b[..|b| - 1]);
    }
  }

  /** Removing one live ball lowers the live count by exactly one. */
  lemma {:induction false} LiveRemoveOne(bs: seq<Ball>, j: nat)
    requires j < |bs| && bs[j].alive
    ensures Live(bs[j := bs[j].(alive := false)]) == Live(bs) - 1
    decreases |bs|
  {
    var r := bs[j := bs[j].(alive := false)];
    var n := |bs| - 1;
    if j < n {
      assert r[..n] == bs[..n][j := bs[j].(alive := false)];
      LiveRemoveOne(bs[..n], j);
    } else {
      assert r[..n] == bs[..n];
    }
  }

  /** Appending a ball adds one to the live count exactly when it is alive. */
  lemma LiveAppend(bs: seq<Ball>, b: Ball)
    ensures Live(bs + [b]) == Live(bs) + (if b.alive then 1 else 0)
  {
    assert (bs + [b])[..|bs|] == bs;
  }
}

/** What the evil circle does to itself and to the balls:
    `EvilCircle.checkBounds` (js/main.js:123-128) and
    `EvilCircle.collisionDetect` (js/main.js:130-143), as functions on
    the values those methods mutate. */
module Evil {
  import opened Balls

  /** One axis of `checkBounds`: a coordinate past the far wall is put at
      dim - size, then one past the near wall is put at size. */
  function Clamp(v: int, size: int, dim: int): (r: int)
    // the circle ends inside [size, dim - size] when that band exists
    ensures 2 * size <= dim ==> size <= r <= dim - size
    // and it is moved exactly when it was outside the band
    ensures 2 * size <= dim ==> (r == v <==> size <= v <= dim - size)
    // an outside coordinate lands on the nearer edge of the band
    ensures 2 * size <= dim && v < size ==> r == size
    ensures 2 * size <= dim && v > dim - size ==> r == dim - size
    // on a canvas narrower than the circle the near wall wins
    ensures dim < 2 * size ==> r == size
  {
    var a := if v + size >= dim then dim - size else v;
    if a - size <= 0 then size else a
  }

  /** `checkBounds` is idempotent: a clamped coordinate stays put. */
  lemma ClampIdempotent(v: int, size: int, dim: int)
    ensures Clamp(Clamp(v, size, dim), size, dim) == Clamp(v, size, dim)
  {
  }

  /** A ball the circle at (ex, ey) with radius es removes: alive and
      overlapping (`Math.hypot(dx, dy) < this.size + ball.size`). */
  predicate Doomed(b: Ball, ex: int, ey: int, es: int) {
    b.alive && Overlapping(ex, ey, b.x, b.y, es + b.size)
  }

  /** The first n iterations of the loop of `EvilCircle.collisionDetect`. */
  function Sweep(bs: seq<Ball>, ex: int, ey: int, es: int, n: nat): (r: seq<Ball>)
    requires n <= |bs|
    ensures |r| == |bs|
    decreases n
  {
    if n == 0 then bs
    else
      var s := Sweep(bs, ex, ey, es, n - 1);
      var j := n - 1;
      if Doomed(s[j], ex, ey, es) then s[j := s[j].(alive := false)] else s
  }

  /** The number of balls below index n that the circle removes, counted
      on the collection as it was before the sweep. */
  function Killed(bs: seq<Ball>, ex: int, ey: int, es: int, n: nat): (k: nat)
    requires n <= |bs|
    ensures k <= n
    decreases n
  {
    if n == 0 then 0
    else Killed(bs, ex, ey, es, n - 1) + (if Doomed(bs[n - 1], ex, ey, es) then 1 else 0)
  }

  /** What the first n iterations of the sweep do, element by element:
      a ball below n that was alive and overlapping is removed, and
      every other ball is exactly as it was. */
  lemma {:induction false} SweepEffect(bs: seq<Ball>, ex: int, ey: int, es: int, n: nat)
    requires n <= |bs|
    ensures var r := Sweep(bs, ex, ey, es, n);
      forall k :: 0 <= k < |bs| ==>
        r[k] == if k < n && Doomed(bs[k], ex, ey, es) then bs[k].(alive := false) else bs[k]
    decreases n
  {
    if n > 0 {
      SweepEffect(bs, ex, ey, es, n - 1);
    }
  }

  /** The sweep removes exactly Killed balls from the live count: this is
      why decrementing `ballCount` once per removal keeps it equal to the
      number of live balls. */
  lemma {:induction false} LiveAfterSweep(bs: seq<Ball>, ex: int, ey: int, es: int, n: nat)
    requires n <= |bs|
    ensures Live(Sweep(bs, ex, ey, es, n)) == Live(bs) - Killed(bs, ex, ey, es, n)
    decreases n
  {
    if n > 0 {
      LiveAfterSweep(bs, ex, ey, es, n - 1);
      var s := Sweep(bs, ex, ey, es, n - 1);
      var j := n - 1;
      SweepEffect(bs, ex, ey, es, n - 1);
      assert s[j] == bs[j];
      if Doomed(s[j], ex, ey, es) {
        LiveRemoveOne(s, j);
      }
    }
  }

  /** The whole of `EvilCircle.collisionDetect`, as the source promises it:
      every ball that was alive and overlapping is removed, every other
      ball is unchanged, no position changes, a flag only ever goes from
      alive to removed, and the live count falls by the number removed. */
  lemma SweepAll(bs: seq<Ball>, ex: int, ey: int, es: int)
    ensures var r := Sweep(bs, ex, ey, es, |bs|);
      && (forall k :: 0 <= k < |bs| && Doomed(bs[k], ex, ey, es) ==> !r[k].alive)
      && (forall k :: 0 <= k < |bs| && !Doomed(bs[k], ex, ey, es) ==> r[k] == bs[k])
      && (forall k :: 0 <= k < |bs| ==> r[k].x == bs[k].x && r[k].y == bs[k].y)
      && (forall k :: 0 <= k < |bs| ==> r[k] == bs[k].(alive := r[k].alive))
      && (forall k :: 0 <= k < |bs| && r[k].alive ==> bs[k].alive)
      && Live(r) == Live(bs) - Killed(bs, ex, ey, es, |bs|)
  {
    SweepEffect(bs, ex, ey, es, |bs|);
    LiveAfterSweep(bs, ex, ey, es, |bs|);
  }
}

/** The simulation state and its drivers: the evil circle, the ball
    collection with its live counter, the creation loop
    (js/main.js:146-163) and one animation tick (js/main.js:169-186).
    Drawing, the DOM and frame scheduling are not modelled. */
module Simulation {
  import opened Rng
  import opened Balls
  import opened Evil

  /** The number of balls the creation loop makes. */
  const BallTotal: nat := 25

  /** The eight Math.random outputs the creation loop draws for one ball,
      in the order the source draws them: size, x, y, velX, velY, then the
      three channels of randomRGB. */
  datatype BallDraw = BallDraw(uSize: real, uX: real, uY: real, uVelX: real, uVelY: real,
                               uRed: real, uGreen: real, uBlue: real)

  predicate UniformDraw(d: BallDraw) {
    && IsUniform(d.uSize) && IsUniform(d.uX) && IsUniform(d.uY) && IsUniform(d.uVelX) && IsUniform(d.uVelY)
    && IsUniform(d.uRed) && IsUniform(d.uGreen) && IsUniform(d.uBlue)
  }

  /** What every ball satisfies from creation on: the radius random(10, 20)
      gave it, a speed of at most 7 on each axis, and a position at most
      one step outside its band. */
  predicate WellFormed(b: Ball, width: int, height: int) {
    && 10 <= b.size <= 20
    && Abs(b.velX) <= 7 && Abs(b.velY) <= 7
    && InBand(b, width, height)
  }

  /** The ball one pass of the creation loop builds (js/main.js:151-159). */
  function NewBall(d: BallDraw, width: int, height: int): (b: Ball)
    requires UniformDraw(d)
    ensures b.alive && b.color == RandomRGB(d.uRed, d.uGreen, d.uBlue)
    ensures 0 <= b.color.r <= 255 && 0 <= b.color.g <= 255 && 0 <= b.color.b <= 255
    ensures 10 <= b.size <= 20
    ensures -7 <= b.velX <= 7 && -7 <= b.velY <= 7
    ensures 2 * b.size <= width ==> b.size <= b.x <= width - b.size
    ensures 2 * b.size <= height ==> b.size <= b.y <= height - b.size
    ensures 40 <= width && 40 <= height ==> WellFormed(b, width, height)
  {
    var size := Random(10, 20, d.uSize);
    Ball(Random(size, width - size, d.uX), Random(size, height - size, d.uY),
         Random(-7, 7, d.uVelX), Random(-7, 7, d.uVelY), RandomRGB(d.uRed, d.uGreen, d.uBlue), size, true)
  }

  /** The creation loop: push balls while there are fewer than 25,
      counting each one. */
  method CreateBalls(draws: seq<BallDraw>, width: int, height: int) returns (balls: seq<Ball>, ballCount: int)
    requires BallTotal <= |draws|
    requires forall k :: 0 <= k < |draws| ==> UniformDraw(draws[k])
    ensures |balls| == BallTotal && ballCount == BallTotal
    ensures ballCount == Live(balls)
    ensures forall k :: 0 <= k < |balls| ==> balls[k] == NewBall(draws[k], width, height)
    ensures forall k :: 0 <= k < |balls| ==> balls[k].alive
  {
    balls := [];
    ballCount := 0;
    while |balls| < BallTotal
      invariant |balls| <= BallTotal
      invariant ballCount == |balls| == Live(balls)
      invariant forall k :: 0 <= k < |balls| ==> balls[k] == NewBall(draws[k], width, height)
    {
      var d := draws[|balls|];
      var size := Random(10, 20, d.uSize);
      var ball := Ball(Random(size, width - size, d.uX), Random(size, height - size, d.uY),
                       Random(-7, 7, d.uVelX), Random(-7, 7, d.uVelY),
                       RandomRGB(d.uRed, d.uGreen, d.uBlue), size, true);
      LiveAppend(balls, ball);
      balls := balls + [ball];
      ballCount := ballCount + 1;
    }
  }

  /** Changing colours only keeps every ball well formed and the live
      count as it was. */
  lemma RecolourKeeps(a: seq<Ball>, b: seq<Ball>, width: int, height: int)
    requires |a| == |b|
    requires forall k :: 0 <= k < |a| ==> SameButColor(b[k], a[k])
    requires forall k :: 0 <= k < |a| ==> WellFormed(a[k], width, height)
    ensures forall k :: 0 <= k < |b| ==> WellFormed(b[k], width, height)
    ensures Live(a) == Live(b)
  {
    LiveSameFlags(a, b);
  }

  /** The evil circle's sweep keeps every ball well formed. */
  lemma SweepKeeps(bs: seq<Ball>, ex: int, ey: int, es: int, width: int, height: int)
    requires forall k :: 0 <= k < |bs| ==> WellFormed(bs[k], width, height)
    ensures var r := Sweep(bs, ex, ey, es, |bs|);
      forall k :: 0 <= k < |r| ==> WellFormed(r[k], width, height)
  {
    SweepAll(bs, ex, ey, es);
  }

  /** One colour list per ball for its collision scan of this tick. */
  predicate PalettesFit(palettes: seq<seq<Color>>, bs: seq<Ball>) {
    |palettes| == |bs| && forall k :: 0 <= k < |palettes| ==> |palettes[k]| == |bs|
  }

  /** Ball i's turn in the tick's loop (js/main.js:174-178): a live ball
      moves, then scans the collection. */
  function Visit(bs: seq<Ball>, i: nat, palette: seq<Color>, width: int, height: int): (r: seq<Ball>)
    requires i < |bs| && |palette| == |bs|
    ensures |r| == |bs|
  {
    if bs[i].alive then Infected(bs[i := Step(bs[i], width, height)], i, palette) else bs
  }

  /** One turn of the ball loop keeps every flag and radius, leaves
      removed balls as they are, and keeps balls well formed. */
  lemma VisitEffect(bs: seq<Ball>, i: nat, palette: seq<Color>, width: int, height: int)
    requires i < |bs| && |palette| == |bs|
    ensures var r := Visit(bs, i, palette, width, height);
      && (forall k :: 0 <= k < |bs| ==> r[k].alive == bs[k].alive && r[k].size == bs[k].size)
      && (forall k :: 0 <= k < |bs| && !bs[k].alive ==> r[k] == bs[k])
      && (40 < width && 40 < height ==>
          forall k :: 0 <= k < |bs| && WellFormed(bs[k], width, height) ==> WellFormed(r[k], width, height))
  {
    if bs[i].alive {
      var t := bs[i := Step(bs[i], width, height)];
      InfectedEffect(t, i, palette);
    }
  }

  /** The first n turns of the tick's ball loop. */
  function BallPass(bs: seq<Ball>, palettes: seq<seq<Color>>, width: int, height: int, n: nat): (r: seq<Ball>)
    requires PalettesFit(palettes, bs) && n <= |bs|
    ensures |r| == |bs|
    decreases n
  {
    if n == 0 then bs
    else Visit(BallPass(bs, palettes, width, height, n - 1), n - 1, palettes[n - 1], width, height)
  }

  /** The ball loop of a tick never adds or removes a ball, never resizes
      one, leaves removed balls exactly as they are, and keeps every ball
      well formed on a canvas wider and taller than the largest ball. */
  lemma {:induction false} BallPassEffect(bs: seq<Ball>, palettes: seq<seq<Color>>, width: int, height: int, n: nat)
    requires PalettesFit(palettes, bs) && n <= |bs|
    ensures var r := BallPass(bs, palettes, width, height, n);
      && (forall k :: 0 <= k < |bs| ==> r[k].alive == bs[k].alive && r[k].size == bs[k].size)
      && (forall k :: 0 <= k < |bs| && !bs[k].alive ==> r[k] == bs[k])
      && (40 < width && 40 < height && (forall k :: 0 <= k < |bs| ==> WellFormed(bs[k], width, height))
          ==> forall k :: 0 <= k < |bs| ==> WellFormed(r[k], width, height))
    decreases n
  {
    if n > 0 {
      BallPassEffect(bs, palettes, width, height, n - 1);
      var s := BallPass(bs, palettes, width, height, n - 1);
      VisitEffect(s, n - 1, palettes[n - 1], width, height);
    }
  }

  /** The balls after one whole tick: the ball loop, then the evil
      circle's sweep from its clamped position (ex, ey). */
  function TickBalls(bs: seq<Ball>, palettes: seq<seq<Color>>, width: int, height: int,
                     ex: int, ey: int, es: int): (r: seq<Ball>)
    requires PalettesFit(palettes, bs)
    ensures |r| == |bs|
  {
    Sweep(BallPass(bs, palettes, width, height, |bs|), ex, ey, es, |bs|)
  }

  /** Over a tick a flag only ever goes from alive to removed, a removed
      ball is neither moved nor recoloured, and the live count never grows. */
  lemma TickEffect(bs: seq<Ball>, palettes: seq<seq<Color>>, width: int, height: int,
                   ex: int, ey: int, es: int)
    requires PalettesFit(palettes, bs)
    ensures var r := TickBalls(bs, palettes, width, height, ex, ey, es);
      && (forall k :: 0 <= k < |bs| && r[k].alive ==> bs[k].alive)
      && (forall k :: 0 <= k < |bs| && !bs[k].alive ==> r[k] == bs[k])
      && Live(r) <= Live(bs)
  {
    var p := BallPass(bs, palettes, width, height, |bs|);
    BallPassEffect(bs, palettes, width, height, |bs|);
    SweepAll(p, ex, ey, es);
    LiveSameFlags(bs, p);
  }

  /** The evil circle: a fixed radius of 10 and a step of 20 on each axis
      that only the keyboard mode, which is not modelled, would use. */
  class EvilCircle {
    var x: int
    var y: int
    const velX: int
    const velY: int
    const size: int

    constructor (x: int, y: int)
      ensures this.x == x && this.y == y
      ensures velX == 20 && velY == 20 && size == 10
    {
      this.x := x;
      this.y := y;
      velX := 20;
      velY := 20;
      size := 10;
    }

    /** `checkBounds`: put the circle back inside the canvas. */
    method CheckBounds(width: int, height: int)
      modifies this
      ensures x == Clamp(old(x), size, width) && y == Clamp(old(y), size, height)
    {
      if x + size >= width { x := width - size; }
      if x - size <= 0 { x := size; }
      if y + size >= height { y := height - size; }
      if y - size <= 0 { y := size; }
    }

    /** The mousemove and touchmove listeners (js/main.js:94-98, 101-111):
        jump to the pointer's canvas coordinates (px, py), then clamp. */
    method MoveTo(px: int, py: int, width: int, height: int)
      modifies this
      ensures x == Clamp(px, size, width) && y == Clamp(py, size, height)
      ensures 2 * size <= width ==> size <= x <= width - size
      ensures 2 * size <= height ==> size <= y <= height - size
    {
      x := px;
      y := py;
      CheckBounds(width, height);
    }

    /** `collisionDetect`: remove every live ball the circle overlaps and
        decrement the counter once per removal. */
    method CollisionDetect(world: World)
      requires world.Valid()
      modifies world
      ensures world.Valid()
      ensures world.balls == Sweep(old(world.balls), x, y, size, |old(world.balls)|)
      ensures world.ballCount == old(world.ballCount) - Killed(old(world.balls), x, y, size, |old(world.balls)|)
    {
      var j := 0;
      while j < |world.balls|
        invariant 0 <= j <= |world.balls| == |old(world.balls)|
        invariant world.balls == Sweep(old(world.balls), x, y, size, j)
        invariant world.ballCount == old(world.ballCount) - Killed(old(world.balls), x, y, size, j)
      {
        var ball := world.balls[j];
        SweepEffect(old(world.balls), x, y, size, j);
        if ball.alive && Overlapping(x, y, ball.x, ball.y, size + ball.size) {
          world.balls := world.balls[j := ball.(alive := false)];
          world.ballCount := world.ballCount - 1;
        }
        j := j + 1;
      }
      SweepAll(old(world.balls), x, y, size);
      SweepKeeps(old(world.balls), x, y, size, world.width, world.height);
    }
  }

  /** The page's global state: the canvas size, the evil circle, the
      ball collection and the live counter `ballCount`. */
  class World {
    const width: int
    const height: int
    const evil: EvilCircle
    var balls: seq<Ball>
    var ballCount: int

    /** The counter counts the live balls, the collection keeps its 25 balls,
        each of them well formed, and the canvas is wider and taller than
        the largest ball. */
    ghost predicate Valid()
      reads this
    {
      && 40 < width && 40 < height
      && |balls| == BallTotal
      && ballCount == Live(balls)
      && forall k :: 0 <= k < |balls| ==> WellFormed(balls[k], width, height)
    }

    /** Page start-up: the creation loop, then the evil circle at
        (random(0, width), random(0, height)) from the draws ex and ey. */
    constructor (width: int, height: int, draws: seq<BallDraw>, ex: real, ey: real)
      requires 40 < width && 40 < height
      requires BallTotal <= |draws|
      requires forall k :: 0 <= k < |draws| ==> UniformDraw(draws[k])
      requires IsUniform(ex) && IsUniform(ey)
      ensures this.width == width && this.height == height
      ensures Valid() && fresh(evil)
      ensures ballCount == BallTotal
      ensures forall k :: 0 <= k < |balls| ==> balls[k] == NewBall(draws[k], width, height)
      ensures evil.x == Random(0, width, ex) && evil.y == Random(0, height, ey) && evil.size == 10
    {
      this.width := width;
      this.height := height;
      var created, count := CreateBalls(draws, width, height);
      balls, ballCount := created, count;
      evil := new EvilCircle(Random(0, width, ex), Random(0, height, ey));
    }

    /** `Ball.update` for ball i. */
    method UpdateBall(i: nat)
      requires Valid() && i < |balls|
      modifies this
      ensures Valid()
      ensures balls == old(balls)[i := Step(old(balls[i]), width, height)]
      ensures ballCount == old(ballCount)
    {
      var b := balls[i];
      if !b.alive { return; }
      if b.x + b.size >= width { b := b.(velX := 0 - Abs(b.velX)); }
      if b.x - b.size <= 0 { b := b.(velX := Abs(b.velX)); }
      if b.y + b.size >= height { b := b.(velY := 0 - Abs(b.velY)); }
      if b.y - b.size <= 0 { b := b.(velY := Abs(b.velY)); }
      b := b.(x := b.x + b.velX);
      b := b.(y := b.y + b.velY);
      balls := balls[i := b];
      LiveSameFlags(old(balls), balls);
    }

    /** `Ball.collisionDetect` for ball i; `palette[j]` is the colour
        randomRGB returns if ball j is infected. */
    method BallCollisionDetect(i: nat, palette: seq<Color>)
      requires Valid() && i < |balls| && |palette| == |balls|
      modifies this
      ensures Valid()
      ensures balls == Infected(old(balls), i, palette)
      ensures ballCount == old(ballCount)
    {
      if !balls[i].alive { return; }
      var j := 0;
      while j < |balls|
        invariant 0 <= j <= |balls| == |old(balls)|
        invariant balls == Scan(old(balls), i, palette, j)
        invariant ballCount == old(ballCount)
      {
        var me, other := balls[i], balls[j];
        if j != i && other.alive {
          if Overlapping(me.x, me.y, other.x, other.y, me.size + other.size) {
            var c := palette[j];
            balls := balls[i := balls[i].(color := c)];
            balls := balls[j := balls[j].(color := c)];
          }
        }
        j := j + 1;
      }
      InfectedEffect(old(balls), i, palette);
      RecolourKeeps(old(balls), balls, width, height);
    }

    /** One call of `loop()`: every live ball moves and scans, then the
        evil circle clamps itself and sweeps. Afterwards the counter still
        counts the live balls, flags only went from alive to removed,
        removed balls are untouched and the counter never grew. */
    method Tick(palettes: seq<seq<Color>>)
      requires Valid() && PalettesFit(palettes, balls)
      modifies this, evil
      ensures Valid()
      ensures evil.x == Clamp(old(evil.x), evil.size, width)
      ensures evil.y == Clamp(old(evil.y), evil.size, height)
      ensures balls == TickBalls(old(balls), palettes, width, height, evil.x, evil.y, evil.size)
      ensures forall k :: 0 <= k < |balls| && balls[k].alive ==> old(balls[k].alive)
      ensures forall k :: 0 <= k < |balls| && !old(balls[k].alive) ==> balls[k] == old(balls[k])
      ensures 0 <= ballCount <= old(ballCount) <= BallTotal
    {
      var i := 0;
      while i < |balls|
        invariant Valid()
        invariant 0 <= i <= |balls|
        invariant balls == BallPass(old(balls), palettes, width, height, i)
        modifies this
      {
        if balls[i].alive {
          UpdateBall(i);
          BallCollisionDetect(i, palettes[i]);
        }
        i := i + 1;
      }
      evil.CheckBounds(width, height);
      evil.CollisionDetect(this);
      TickEffect(old(balls), palettes, width, height, evil.x, evil.y, evil.size);
    }
  }
}

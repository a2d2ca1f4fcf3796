/** A sprite: a small disc of fixed size with an integer position and velocity that
    bounces off the walls of a rectangular field, and a colour chosen by the server. */
module Sprites {

  /** Diameter of every sprite. */
  const SIZE: int := 10
  /** Bound on the magnitude of a freshly drawn speed. */
  const MAX_SPEED: int := 5

  /** The drawing colour. `Unset` stands for the null reference a sprite holds before
      its first colour assignment. */
  datatype Color = Unset | Red | Blue | Green | Black

  /** The three colour names the server cycles through. */
  predicate IsCycleName(name: string) {
    name == "RED" || name == "BLUE" || name == "GREEN"
  }

  /** The name of a cycle colour: the partner of ColorOf. */
  function NameOf(c: Color): (name: string)
    requires c == Red || c == Blue || c == Green
    ensures IsCycleName(name)
  {
    match c
    case Red => "RED"
    case Blue => "BLUE"
    case Green => "GREEN"
  }

  /** The colour that setColour derives from a colour name; any other name gives black. */
  function ColorOf(name: string): (c: Color)
    ensures c != Unset
    ensures c != Black <==> IsCycleName(name)
    ensures c != Black ==> NameOf(c) == name
  {
    if name == "RED" then Red
    else if name == "BLUE" then Blue
    else if name == "GREEN" then Green
    else Black
  }

  lemma NameOfColorOf(c: Color)
    requires c == Red || c == Blue || c == Green
    ensures ColorOf(NameOf(c)) == c
  {
  }

  function Abs(n: int): nat {
    if n < 0 then -n else n
  }

  /** A speed drawn as `nextInt(2 * MAX_SPEED) - MAX_SPEED` from the draw `r`. */
  function DrawSpeed(r: int): (v: int)
    requires 0 <= r < 2 * MAX_SPEED
    ensures -MAX_SPEED <= v < MAX_SPEED
    ensures r == v + MAX_SPEED
  {
    r - MAX_SPEED
  }

  /** Position and velocity of a sprite along one axis. */
  datatype Axis = Axis(pos: int, vel: int)

  /** The reflect phase on one axis: first the low wall, then the high wall at
      `bound - SIZE`; each flips the velocity only while it still points out. */
  function Reflect(a: Axis, bound: int): (r: Axis)
    ensures Abs(r.vel) == Abs(a.vel)
    ensures r.vel != a.vel ==> (r.pos == 0 && r.vel > 0) || (r.pos == bound - SIZE && r.vel < 0)
  {
    var low := if a.pos < 0 && a.vel < 0 then Axis(0, -a.vel) else a;
    if low.pos > bound - SIZE && low.vel > 0 then Axis(bound - SIZE, -low.vel) else low
  }

  /** One step of `move` on one axis: reflect, then translate by the velocity. */
  function StepAxis(a: Axis, bound: int): (r: Axis)
    ensures Abs(r.vel) == Abs(a.vel)
    ensures r.vel == a.vel || r.vel == -a.vel
  {
    var b := Reflect(a, bound);
    Axis(b.pos + b.vel, b.vel)
  }

  /** Within one speed-step of the field along an axis. */
  predicate InBand(a: Axis, bound: int) {
    0 - Abs(a.vel) <= a.pos <= bound - SIZE + Abs(a.vel)
  }

  lemma LowBounce(a: Axis, bound: int)
    requires bound >= SIZE
    requires a.pos < 0 && a.vel < 0
    ensures StepAxis(a, bound) == Axis(-a.vel, -a.vel)
  {
  }

  lemma HighBounce(a: Axis, bound: int)
    requires a.pos > bound - SIZE && a.vel > 0
    ensures StepAxis(a, bound) == Axis(bound - SIZE - a.vel, -a.vel)
  {
  }

  lemma NoBounce(a: Axis, bound: int)
    requires !(a.pos < 0 && a.vel < 0)
    requires !(a.pos > bound - SIZE && a.vel > 0)
    ensures StepAxis(a, bound) == Axis(a.pos + a.vel, a.vel)
  {
  }

  /** In a field narrower than a sprite the low bounce is undone by the high one
      in the same step: the velocity keeps its sign. */
  lemma NarrowFieldBouncesTwice(a: Axis, bound: int)
    requires bound < SIZE
    requires a.pos < 0 && a.vel < 0
    ensures StepAxis(a, bound) == Axis(bound - SIZE + a.vel, a.vel)
  {
  }

  /** A sprite exactly on the high edge and moving out does not bounce, so `move`
      does not keep positions inside `[0, bound - SIZE]`. */
  lemma EdgeDoesNotBounce(bound: int, v: int)
    requires v > 0
    ensures StepAxis(Axis(bound - SIZE, v), bound) == Axis(bound - SIZE + v, v)
    ensures StepAxis(Axis(bound - SIZE, v), bound).pos > bound - SIZE
  {
  }

  lemma BandPreserved(a: Axis, bound: int)
    requires bound >= SIZE
    requires InBand(a, bound)
    ensures InBand(StepAxis(a, bound), bound)
  {
  }

  /** Sprites at 0 and at 495 on a 500-wide axis, both at speed 5: the first moves to 5,
      the second is clamped to 490, turned round and moves to 485. */
  lemma CornerScenario()
    ensures StepAxis(Axis(0, 5), 500) == Axis(5, 5)
    ensures StepAxis(Axis(495, 5), 500) == Axis(485, -5)
  {
  }

  /** The fields of a sprite, as one value. */
  datatype SpriteState = SpriteState(
    spriteID: int,
    x: int, y: int,
    dx: int, dy: int,
    sizeH: int, sizeW: int,
    colour: string, color: Color)

  /** What `move` does to a sprite: x against the width, y against the height. */
  function MoveState(s: SpriteState): (t: SpriteState)
    ensures t.spriteID == s.spriteID && t.sizeH == s.sizeH && t.sizeW == s.sizeW
    ensures t.colour == s.colour && t.color == s.color
    ensures Abs(t.dx) == Abs(s.dx) && Abs(t.dy) == Abs(s.dy)
  {
    var h := StepAxis(Axis(s.x, s.dx), s.sizeW);
    var v := StepAxis(Axis(s.y, s.dy), s.sizeH);
    s.(x := h.pos, dx := h.vel, y := v.pos, dy := v.vel)
  }

  /** The x-result of `move` depends only on x, dx and the width; the y-result only on
      y, dy and the height. */
  lemma MoveAxesIndependent(s: SpriteState, t: SpriteState)
    ensures s.x == t.x && s.dx == t.dx && s.sizeW == t.sizeW ==>
      MoveState(s).x == MoveState(t).x && MoveState(s).dx == MoveState(t).dx
    ensures s.y == t.y && s.dy == t.dy && s.sizeH == t.sizeH ==>
      MoveState(s).y == MoveState(t).y && MoveState(s).dy == MoveState(t).dy
  {
  }

  /** An axis with zero speed never moves, wherever it is: a sprite drawn off the field
      with speed 0 on an axis stays off the field on that axis. */
  lemma StalledAxis(a: Axis, bound: int)
    requires a.vel == 0
    ensures StepAxis(a, bound) == a
    ensures !InBand(a, bound) ==> !InBand(StepAxis(a, bound), bound)
  {
  }

  /** Both axes of a sprite are within one speed-step of the field. */
  predicate InField(s: SpriteState) {
    InBand(Axis(s.x, s.dx), s.sizeW) && InBand(Axis(s.y, s.dy), s.sizeH)
  }

  lemma MovePreservesField(s: SpriteState)
    requires s.sizeW >= SIZE && s.sizeH >= SIZE
    requires InField(s)
    ensures InField(MoveState(s))
  {
    BandPreserved(Axis(s.x, s.dx), s.sizeW);
    BandPreserved(Axis(s.y, s.dy), s.sizeH);
  }

  /** A sprite as the four-argument constructor leaves it, given its two speed draws. */
  function Spawned(sizeH: int, sizeW: int, x: int, y: int, rdx: int, rdy: int): (s: SpriteState)
    requires 0 <= rdx < 2 * MAX_SPEED && 0 <= rdy < 2 * MAX_SPEED
    ensures s.sizeH == sizeH && s.sizeW == sizeW && s.x == x && s.y == y
    ensures -MAX_SPEED <= s.dx < MAX_SPEED && -MAX_SPEED <= s.dy < MAX_SPEED
  {
    SpriteState(0, x, y, DrawSpeed(rdx), DrawSpeed(rdy), sizeH, sizeW, "", Unset)
  }

  class Sprite {
    var spriteID: int
    var x: int
    var y: int
    var dx: int
    var dy: int
    var color: Color
    var colour: string
    var sizeH: int
    var sizeW: int

    ghost function State(): SpriteState
      reads this
    {
      SpriteState(spriteID, x, y, dx, dy, sizeH, sizeW, colour, color)
    }

    /** Stores the bounds and the position as given and draws both speeds;
        `rdx` and `rdy` are the two results of `nextInt(2 * MAX_SPEED)`. */
    constructor (sizeH: int, sizeW: int, x: int, y: int, rdx: int, rdy: int)
      requires 0 <= rdx < 2 * MAX_SPEED && 0 <= rdy < 2 * MAX_SPEED
      ensures State() == Spawned(sizeH, sizeW, x, y, rdx, rdy)
    {
      this.sizeH := sizeH;
      this.sizeW := sizeW;
      this.x := x;
      this.y := y;
      dx := rdx - MAX_SPEED;
      dy := rdy - MAX_SPEED;
      spriteID := 0;
      colour := "";
      color := Unset;
    }

    /** Bounce off any wall the sprite is past and still heading out of, then move. */
    method Move()
      modifies this
      ensures State() == MoveState(old(State()))
    {
      if x < 0 && dx < 0 {
        x := 0;
        dx := -dx;
      }
      if y < 0 && dy < 0 {
        y := 0;
        dy := -dy;
      }
      if x > sizeW - SIZE && dx > 0 {
        x := sizeW - SIZE;
        dx := -dx;
      }
      if y > sizeH - SIZE && dy > 0 {
        y := sizeH - SIZE;
        dy := -dy;
      }
      x := x + dx;
      y := y + dy;
    }

    /** Stores the colour name and the colour it stands for. */
    method SetColour(name: string)
      modifies this
      ensures State() == old(State()).(colour := name, color := ColorOf(name))
    {
      colour := name;
      if name == "RED" {
        color := Red;
      } else if name == "BLUE" {
        color := Blue;
      } else if name == "GREEN" {
        color := Green;
      } else {
        color := Black;
      }
    }
  }
}

/** The simulation server: it loads the stored sprites (adding three when there are
    none), exports the facade over the same list, and then ticks forever, each tick
    recolouring the whole list and moving every sprite once. */
module SpriteServer {
  import opened Sprites
  import opened SpriteLists
  import opened Facade

  /** Width and height of the field the viewers draw. */
  const WIDTH: int := 500
  const HEIGHT: int := 500

  // ---------------------------------------------------------------------------
  // Colour propagation

  /** The colour name after `name` in the cycle RED, BLUE, GREEN. */
  function Successor(name: string): (r: string)
    requires IsCycleName(name)
    ensures IsCycleName(r) && r != name
  {
    if name == "RED" then "BLUE"
    else if name == "BLUE" then "GREEN"
    else "RED"
  }

  /** The switch on the previous element's colour: a cycle name selects its
      successor; any other non-null name matches no case and leaves `cur` as it was.
      A null name would make the switch throw instead; it cannot occur, since the
      predecessor is always a cycle name (PropagateSuccessor). */
  function Next(prev: string, cur: string): (r: string)
    ensures IsCycleName(prev) ==> IsCycleName(r) && r != prev
    ensures !IsCycleName(prev) ==> r == cur
  {
    if IsCycleName(prev) then Successor(prev) else cur
  }

  /** The closed form: the colour name at position `i` of a recoloured list. */
  function CycleName(i: nat): (name: string)
    ensures IsCycleName(name)
  {
    if i % 3 == 0 then "RED" else if i % 3 == 1 then "BLUE" else "GREEN"
  }

  lemma CycleNameStep(i: nat)
    ensures Successor(CycleName(i)) == CycleName(i + 1)
  {
  }

  /** Which case of calcColour's switch fires at position `i`, and what it selects. */
  lemma SwitchSelects(i: nat)
    requires i >= 1
    ensures IsCycleName(CycleName(i - 1))
    ensures CycleName(i - 1) == "RED" ==> CycleName(i) == "BLUE"
    ensures CycleName(i - 1) == "BLUE" ==> CycleName(i) == "GREEN"
    ensures CycleName(i - 1) == "GREEN" ==> CycleName(i) == "RED"
  {
    CycleNameStep(i - 1);
  }

  /** The colour names calcColour leaves, given the names `o` it finds: the first is
      RED, each later one follows from its predecessor's new name. */
  function Propagate(o: seq<string>): (r: seq<string>)
    requires |o| > 0
    ensures |r| == |o|
    decreases |o|
  {
    if |o| == 1 then ["RED"]
    else
      var p := Propagate(o[..|o| - 1]);
      p + [Next(p[|p| - 1], o[|o| - 1])]
  }

  lemma {:induction false} PropagateFirst(o: seq<string>)
    requires |o| > 0
    ensures Propagate(o)[0] == "RED"
    decreases |o|
  {
    if |o| > 1 {
      PropagateFirst(o[..|o| - 1]);
    }
  }

  /** Recolouring a prefix gives the prefix of the recoloured list. */
  lemma {:induction false} PropagatePrefix(o: seq<string>, j: nat)
    requires 1 <= j <= |o|
    ensures Propagate(o)[..j] == Propagate(o[..j])
    decreases |o|
  {
    if j < |o| {
      var o' := o[..|o| - 1];
      PropagatePrefix(o', j);
      assert o'[..j] == o[..j];
    } else {
      assert o[..j] == o;
    }
  }

  /** Each element after the first is set from the already-updated previous one. */
  lemma PropagateStep(o: seq<string>, i: nat)
    requires 1 <= i < |o|
    ensures Propagate(o)[i] == Next(Propagate(o)[i - 1], o[i])
  {
    var p := o[..i + 1];
    PropagatePrefix(o, i + 1);
    PropagatePrefix(o, i);
    assert p[..i] == o[..i];
    assert Propagate(o)[i] == Propagate(p)[i];
  }

  /** Element `i` is RED, BLUE or GREEN as `i mod 3` is 0, 1 or 2, whatever it was. */
  lemma {:induction false} PropagateClosedForm(o: seq<string>, i: nat)
    requires i < |o|
    ensures Propagate(o)[i] == CycleName(i)
  {
    if i == 0 {
      PropagateFirst(o);
    } else {
      PropagateClosedForm(o, i - 1);
      PropagateStep(o, i);
      CycleNameStep(i - 1);
    }
  }

  /** Every later element holds the successor of the element before it. */
  lemma PropagateSuccessor(o: seq<string>, i: nat)
    requires 1 <= i < |o|
    ensures IsCycleName(Propagate(o)[i - 1])
    ensures Propagate(o)[i] == Successor(Propagate(o)[i - 1])
  {
    PropagateClosedForm(o, i - 1);
    PropagateClosedForm(o, i);
    CycleNameStep(i - 1);
  }

  /** The result depends on the length of the list alone. */
  lemma PropagateIgnoresPrior(o1: seq<string>, o2: seq<string>)
    requires |o1| == |o2| > 0
    ensures Propagate(o1) == Propagate(o2)
  {
    forall k | 0 <= k < |o1|
      ensures Propagate(o1)[k] == Propagate(o2)[k]
    {
      PropagateClosedForm(o1, k);
      PropagateClosedForm(o2, k);
    }
  }

  lemma PropagateIdempotent(o: seq<string>)
    requires |o| > 0
    ensures Propagate(Propagate(o)) == Propagate(o)
  {
    PropagateIgnoresPrior(Propagate(o), o);
  }

  // ---------------------------------------------------------------------------
  // One tick, on the sprites' states

  function Names(ss: seq<SpriteState>): (r: seq<string>)
    ensures |r| == |ss|
  {
    seq(|ss|, k requires 0 <= k < |ss| => ss[k].colour)
  }

  /** The states after calcColour: every sprite gets its propagated name and the
      colour for it, and keeps everything else. */
  function Recolour(ss: seq<SpriteState>): (r: seq<SpriteState>)
    requires |ss| > 0
    ensures |r| == |ss|
    ensures forall k :: 0 <= k < |ss| ==>
      r[k] == ss[k].(colour := CycleName(k), color := ColorOf(CycleName(k)))
  {
    var p := Propagate(Names(ss));
    assert forall k :: 0 <= k < |ss| ==> p[k] == CycleName(k) by {
      forall k | 0 <= k < |ss|
        ensures p[k] == CycleName(k)
      {
        PropagateClosedForm(Names(ss), k);
      }
    }
    seq(|ss|, k requires 0 <= k < |ss| => ss[k].(colour := p[k], color := ColorOf(p[k])))
  }

  /** The states after `move` on every sprite. */
  function MoveAll(ss: seq<SpriteState>): (r: seq<SpriteState>)
    ensures |r| == |ss|
  {
    seq(|ss|, k requires 0 <= k < |ss| => MoveState(ss[k]))
  }

  /** The states after one tick: recolour, then move each sprite. */
  function TickStates(ss: seq<SpriteState>): (r: seq<SpriteState>)
    requires |ss| > 0
    ensures |r| == |ss|
    ensures forall k :: 0 <= k < |ss| ==>
      r[k] == MoveState(ss[k]).(colour := CycleName(k), color := ColorOf(CycleName(k)))
  {
    MoveAll(Recolour(ss))
  }

  /** After a tick, sprite `k` has the closed-form colour and has moved exactly once;
      nothing else about it changes. */
  lemma TickAt(ss: seq<SpriteState>, k: nat)
    requires k < |ss|
    ensures TickStates(ss)[k].colour == CycleName(k)
    ensures TickStates(ss)[k].color == ColorOf(CycleName(k))
    ensures TickStates(ss)[k] == MoveState(ss[k]).(colour := CycleName(k), color := ColorOf(CycleName(k)))
  {
    PropagateClosedForm(Names(ss), k);
  }

  /** Recolouring twice is recolouring once. */
  lemma RecolourIdempotent(ss: seq<SpriteState>)
    requires |ss| > 0
    ensures Recolour(Recolour(ss)) == Recolour(ss)
  {
    var r := Recolour(ss);
    forall k | 0 <= k < |ss|
      ensures Recolour(r)[k] == r[k]
    {
      PropagateClosedForm(Names(ss), k);
      PropagateClosedForm(Names(r), k);
    }
  }

  /** Sprites that are within one speed-step of a field at least a sprite wide
      stay so over a tick. */
  lemma TickKeepsField(ss: seq<SpriteState>)
    requires |ss| > 0
    requires forall k :: 0 <= k < |ss| ==> ss[k].sizeW >= SIZE && ss[k].sizeH >= SIZE && InField(ss[k])
    ensures forall k :: 0 <= k < |ss| ==> InField(TickStates(ss)[k])
  {
    forall k | 0 <= k < |ss|
      ensures InField(TickStates(ss)[k])
    {
      TickAt(ss, k);
      MovePreservesField(ss[k]);
    }
  }

  // ---------------------------------------------------------------------------
  // Start-up

  /** The four random draws behind one bootstrap sprite: its position and its speeds. */
  datatype Draw = Draw(rx: int, ry: int, rdx: int, rdy: int)

  predicate ValidDraw(d: Draw) {
    0 <= d.rx < 2 * WIDTH && 0 <= d.ry < 2 * HEIGHT &&
    0 <= d.rdx < 2 * MAX_SPEED && 0 <= d.rdy < 2 * MAX_SPEED
  }

  /** A coordinate drawn as `nextInt(2 * extent) - extent` from the draw `r`. */
  function DrawCoord(r: int, extent: int): (c: int)
    requires 0 <= r < 2 * extent
    ensures -extent <= c < extent
    ensures r == c + extent
  {
    r - extent
  }

  /** The state of a bootstrap sprite made from draw `d`. */
  function BootSprite(d: Draw): (s: SpriteState)
    requires ValidDraw(d)
    ensures s.sizeH == HEIGHT && s.sizeW == WIDTH
    ensures -WIDTH <= s.x < WIDTH && -HEIGHT <= s.y < HEIGHT
  {
    Spawned(HEIGHT, WIDTH, DrawCoord(d.rx, WIDTH), DrawCoord(d.ry, HEIGHT), d.rdx, d.rdy)
  }

  /** The `switch` in calcColour's loop at position `i`: the previous sprite already
      holds `CycleName(i - 1)`, so the case for it fires and `cur` gets `CycleName(i)`;
      nothing else about `cur` changes. */
  method SwitchStep(prev: Sprite, cur: Sprite, ghost i: nat)
    requires i >= 1 && prev != cur && prev.colour == CycleName(i - 1)
    modifies cur
    ensures cur.State() == old(cur.State()).(colour := CycleName(i), color := ColorOf(CycleName(i)))
  {
    var name := prev.colour;
    SwitchSelects(i);
    if name == "RED" {
      cur.SetColour("BLUE");
    } else if name == "BLUE" {
      cur.SetColour("GREEN");
    } else if name == "GREEN" {
      cur.SetColour("RED");
    }
  }

  /** A bounce can give a speed no draw gives: drawn at x = -100 with dx = -5, a
      bootstrap sprite's first `move` turns it round to dx = 5. */
  lemma BounceReachesMaxSpeed()
    ensures ValidDraw(Draw(400, 600, 0, 0))
    ensures BootSprite(Draw(400, 600, 0, 0)).dx == -MAX_SPEED
    ensures MoveState(BootSprite(Draw(400, 600, 0, 0))).dx == MAX_SPEED
  {
    var s := BootSprite(Draw(400, 600, 0, 0));
    assert s.x == -100 && s.dx == -MAX_SPEED && s.sizeW == WIDTH;
    LowBounce(Axis(s.x, s.dx), s.sizeW);
  }

  /** One bootstrap sprite: `new Sprite(HEIGHT, WIDTH, x, y)` with x and y drawn as
      `nextInt(2 * WIDTH) - WIDTH` and `nextInt(2 * HEIGHT) - HEIGHT`. */
  method NewBootSprite(d: Draw) returns (s: Sprite)
    requires ValidDraw(d)
    ensures fresh(s) && s.State() == BootSprite(d)
  {
    s := new Sprite(HEIGHT, WIDTH, d.rx - WIDTH, d.ry - HEIGHT, d.rdx, d.rdy);
  }

  /** A bootstrap sprite can start off the field with speed 0 on an axis: drawn at
      x = -500 with dx = 0 and dy = 0, it is outside the band and `move` leaves it where
      it is. */
  lemma BootSpriteStalled()
    ensures ValidDraw(Draw(0, 500, 5, 5))
    ensures !InField(BootSprite(Draw(0, 500, 5, 5)))
    ensures MoveState(BootSprite(Draw(0, 500, 5, 5))) == BootSprite(Draw(0, 500, 5, 5))
  {
    var s := BootSprite(Draw(0, 500, 5, 5));
    assert s.x == -WIDTH && s.dx == 0 && s.dy == 0 && s.sizeW == WIDTH;
    StalledAxis(Axis(s.x, s.dx), s.sizeW);
    StalledAxis(Axis(s.y, s.dy), s.sizeH);
  }

  class Server {
    /** The server's list; the facade holds this same object. */
    const sprites: SpriteList
    const bs: BouncingSpritesImpl

    /** The list is shared with the facade, never empty, and holds each sprite once;
        the facade reports the server's field size. */
    ghost predicate Valid()
      reads this, sprites
    {
      bs.sprites == sprites &&
      bs.height == HEIGHT && bs.width == WIDTH &&
      |sprites.items| > 0 &&
      Distinct(sprites.items)
    }

    /** Start-up: takes the loaded sprites, adds three drawn from `draws` when there
        are none, and exports a facade over the same list. The draws are used only
        when nothing was loaded. */
    constructor (loaded: seq<Sprite>, draws: seq<Draw>)
      requires Distinct(loaded)
      requires |loaded| == 0 ==> |draws| == 3 && forall k :: 0 <= k < 3 ==> ValidDraw(draws[k])
      ensures Valid()
      ensures fresh(sprites) && fresh(bs)
      ensures |loaded| > 0 ==> sprites.items == loaded
      ensures |loaded| == 0 ==> |sprites.items| == 3
      ensures |loaded| == 0 ==> forall k :: 0 <= k < 3 ==>
        fresh(sprites.items[k]) && sprites.items[k].State() == BootSprite(draws[k])
    {
      var list := new SpriteList(loaded);
      if |loaded| == 0 {
        var s0 := NewBootSprite(draws[0]);
        list.Add(s0);
        var s1 := NewBootSprite(draws[1]);
        list.Add(s1);
        var s2 := NewBootSprite(draws[2]);
        list.Add(s2);
        assert list.items == [s0, s1, s2];
      }
      sprites := list;
      bs := new BouncingSpritesImpl(list, HEIGHT, WIDTH);
    }

    /** Sets the first sprite's colour to RED and each later one to the successor of
        the colour just given to the sprite before it. */
    method CalcColour()
      requires Valid()
      modifies sprites.items
      ensures Valid() && sprites.items == old(sprites.items)
      ensures States(sprites.items) == Recolour(old(States(sprites.items)))
    {
      var items := sprites.items;
      ghost var before := States(items);
      items[0].SetColour("RED");
      var i := 1;
      while i < |items|
        invariant 1 <= i <= |items| && Distinct(items)
        invariant forall k :: 0 <= k < i ==>
          items[k].State() == before[k].(colour := CycleName(k), color := ColorOf(CycleName(k)))
        invariant forall k :: i <= k < |items| ==> items[k].State() == before[k]
      {
        SwitchStep(items[i - 1], items[i], i);
        i := i + 1;
      }
    }

    /** One pass of the simulation loop: recolour, then move every sprite in order. */
    method Tick()
      requires Valid()
      modifies sprites.items
      ensures Valid() && sprites.items == old(sprites.items)
      ensures States(sprites.items) == TickStates(old(States(sprites.items)))
    {
      // The loop's check that the facade's list differs from its own never succeeds:
      // both are this one object.
      var current := bs.GetSprites();
      assert current == sprites;
      CalcColour();
      MoveEvery();
    }

    /** The tick's `for` loop: `move` on every sprite, in list order. */
    method MoveEvery()
      requires Valid()
      modifies sprites.items
      ensures Valid() && sprites.items == old(sprites.items)
      ensures States(sprites.items) == MoveAll(old(States(sprites.items)))
    {
      var items := sprites.items;
      ghost var before := States(items);
      var i := 0;
      while i < |items|
        invariant 0 <= i <= |items| && Distinct(items)
        invariant forall k :: 0 <= k < i ==> items[k].State() == MoveState(before[k])
        invariant forall k :: i <= k < |items| ==> items[k].State() == before[k]
      {
        items[i].Move();
        i := i + 1;
      }
    }

    /** A viewer's create request reaching the exported facade between ticks. */
    method RemoteCreate(x: int, y: int, rdx: int, rdy: int)
      requires Valid()
      requires 0 <= rdx < 2 * MAX_SPEED && 0 <= rdy < 2 * MAX_SPEED
      modifies sprites
      ensures Valid()
      ensures |sprites.items| == |old(sprites.items)| + 1
      ensures sprites.items[..|old(sprites.items)|] == old(sprites.items)
      ensures sprites.items[|old(sprites.items)|].State() == Spawned(HEIGHT, WIDTH, x, y, rdx, rdy)
    {
      bs.CreateSprite(x, y, rdx, rdy);
    }
  }
}

/** The object exported to remote viewers: it answers the field size and the sprite
    list, and creates sprites on request, all against the list the server animates. */
module Facade {
  import opened Sprites
  import opened SpriteLists

  class BouncingSpritesImpl {
    /** The list given at construction; never replaced, never copied. */
    const sprites: SpriteList
    const height: int
    const width: int

    constructor (sprites: SpriteList, h: int, w: int)
      ensures this.sprites == sprites && height == h && width == w
    {
      this.sprites := sprites;
      height := h;
      width := w;
    }

    method GetHeight() returns (h: int)
      ensures h == height
    {
      h := height;
    }

    method GetWidth() returns (w: int)
      ensures w == width
    {
      w := width;
    }

    /** The shared list itself, aliased rather than copied. */
    method GetSprites() returns (l: SpriteList)
      ensures l == sprites
    {
      l := sprites;
    }

    /** Appends a new sprite at (x, y), with no range check, bounded by this facade's
        height and width; `rdx` and `rdy` are the sprite's two speed draws. */
    method CreateSprite(x: int, y: int, rdx: int, rdy: int)
      requires 0 <= rdx < 2 * MAX_SPEED && 0 <= rdy < 2 * MAX_SPEED
      modifies sprites
      ensures |sprites.items| == |old(sprites.items)| + 1
      ensures sprites.items[..|old(sprites.items)|] == old(sprites.items)
      ensures fresh(sprites.items[|old(sprites.items)|])
      ensures sprites.items[|old(sprites.items)|].State() == Spawned(height, width, x, y, rdx, rdy)
    {
      var s := new Sprite(height, width, x, y, rdx, rdy);
      sprites.Add(s);
    }
  }
}

/** The two-tile scrolling ground `Base`, identical in both modes. */
module Ground {
  import opened Common

  /** Pixels the ground moves left per tick. */
  const BaseVel: int := 5
  /** Both modes create the ground as `Base(730)`. */
  const BaseY: int := 730

  /** The left edges `x1`, `x2` of the two ground tiles. */
  datatype Tiles = Tiles(x1: int, x2: int)

  /** The tiles sit side by side: one starts exactly where the other ends. */
  predicate Adjacent(t: Tiles, width: int)
  {
    t.x2 == t.x1 + width || t.x1 == t.x2 + width
  }

  /** Neither tile has scrolled wholly off the left edge (`x + WIDTH < 0`). */
  predicate OnScreen(t: Tiles, width: int)
  {
    t.x1 + width >= 0 && t.x2 + width >= 0
  }

  /** `Base.move`: shift both tiles, then move a tile that left the screen behind the other one. */
  function Scroll(t: Tiles, width: Pos): (r: Tiles)
    ensures Adjacent(t, width) ==> Adjacent(r, width)
    ensures Adjacent(t, width) && OnScreen(t, width) && width >= BaseVel ==> OnScreen(r, width)
  {
    var a := t.x1 - BaseVel;
    var b := t.x2 - BaseVel;
    var a' := if a + width < 0 then b + width else a;
    var b' := if b + width < 0 then a' + width else b;
    Tiles(a', b')
  }

  /** n consecutive moves. */
  function Slide(t: Tiles, width: Pos, n: nat): Tiles
  {
    if n == 0 then t else Scroll(Slide(t, width, n - 1), width)
  }

  /** A wrap (a tile jumping to the right) only happens to a tile that left the screen. */
  lemma WrapOnlyOffScreen(t: Tiles, width: Pos)
    requires Adjacent(t, width) && OnScreen(t, width) && width >= BaseVel
    ensures var r := Scroll(t, width);
      (r.x1 == t.x1 - BaseVel || t.x1 - BaseVel + width < 0) &&
      (r.x2 == t.x2 - BaseVel || t.x2 - BaseVel + width < 0)
  {
  }

  /** A `Base` object: `x1` and `x2` are updated in place by `move`. */
  class Base {
    const y: int
    /** `BASE_IMG.get_width()`. */
    const width: Pos
    var x1: int
    var x2: int

    function Pair(): Tiles
      reads this
    {
      Tiles(x1, x2)
    }

    ghost predicate Valid()
      reads this
    {
      Adjacent(Pair(), width) && (width >= BaseVel ==> OnScreen(Pair(), width))
    }

    constructor (y: int, width: Pos)
      ensures Valid() && this.y == y && this.width == width
      ensures x1 == 0 && x2 == width
    {
      this.y := y;
      this.width := width;
      x1 := 0;
      x2 := width;
    }

    method Move()
      requires Valid()
      modifies this
      ensures Valid()
      ensures Pair() == Scroll(old(Pair()), width)
    {
      x1 := x1 - BaseVel;
      x2 := x2 - BaseVel;
      if x1 + width < 0 {
        x1 := x2 + width;
      }
      if x2 + width < 0 {
        x2 := x1 + width;
      }
    }
  }
}

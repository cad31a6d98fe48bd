/** The small option type used where the game leaves a value undefined or
    drops an entity from a list. */
module Wrappers {
  datatype Option<+T> = None | Some(value: T)
}

/** Axis-aligned boxes and the overlap test that every collision pass of the
    game uses. All coordinates are screen pixels with y growing downwards. */
module Geometry {

  datatype Box = Box(x: int, y: int, width: int, height: int)

  /** The test written out in every collision check of the game: strict
      inequalities on both axes, so boxes that only share an edge do not
      collide. */
  predicate Overlaps(a: Box, b: Box) {
    a.x < b.x + b.width && a.x + a.width > b.x &&
    a.y < b.y + b.height && a.y + a.height > b.y
  }

  /** Pixel (px, py) is covered by the box, read as the half-open rectangle
      [x, x + width) x [y, y + height). */
  predicate Covers(b: Box, px: int, py: int) {
    b.x <= px < b.x + b.width && b.y <= py < b.y + b.height
  }

  /** The hitbox of a square sprite of side `size` drawn at (x, y), shrunk by
      `inset` on every side. The hitboxes of the game are all of this form
      except the attack reach and the arrow. */
  function InsetBox(x: int, y: int, size: int, inset: int): Box {
    Box(x + inset, y + inset, size - 2 * inset, size - 2 * inset)
  }

  /** The overlap test agrees with the geometric reading: two boxes overlap
      exactly when some pixel lies in both of them (for boxes of positive
      size, as all hitboxes of the game are). */
  lemma OverlapsIffSharedPixel(a: Box, b: Box)
    requires a.width > 0 && a.height > 0 && b.width > 0 && b.height > 0
    ensures Overlaps(a, b) <==> exists px, py :: Covers(a, px, py) && Covers(b, px, py)
  {
    if Overlaps(a, b) {
      var px := if a.x < b.x then b.x else a.x;
      var py := if a.y < b.y then b.y else a.y;
      assert Covers(a, px, py) && Covers(b, px, py);
    }
  }

  /** Boxes that only touch along a vertical or horizontal edge do not
      collide, whatever their other coordinates. */
  lemma TouchingDoesNotOverlap(a: Box, b: Box)
    requires a.x + a.width == b.x || b.x + b.width == a.x ||
             a.y + a.height == b.y || b.y + b.height == a.y
    ensures !Overlaps(a, b) && !Overlaps(b, a)
  {
  }

  /** Shrinking two sprites into hitboxes can only remove collisions: hitboxes
      that overlap come from sprites that overlap. */
  lemma InsetOverlapImpliesSpriteOverlap(x1: int, y1: int, s1: int, i1: int,
                                         x2: int, y2: int, s2: int, i2: int)
    requires 0 <= i1 && 0 <= i2
    requires Overlaps(InsetBox(x1, y1, s1, i1), InsetBox(x2, y2, s2, i2))
    ensures Overlaps(InsetBox(x1, y1, s1, 0), InsetBox(x2, y2, s2, 0))
  {
  }
}

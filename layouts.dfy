/**
 * Geometry of template layouts: a slot is one or more (size, position)
 * placements that all show the same photo; a template is a background asset
 * plus an ordered list of slots.
 */
module Layouts {
  import opened Wrappers

  datatype Point = Point(x: int, y: int)
  datatype Size = Size(w: nat, h: nat)

  /** `((size_x, size_y), (position_x, position_y))`, position from the top left. */
  datatype Placement = Placement(size: Size, position: Point)

  type Slot = seq<Placement>

  /** `name` is absent in the templates of the older revision. */
  datatype Template = Template(name: Option<string>, layout: seq<Slot>, file: string)

  /** The pixel (x, y) lies in the rectangle of `p`. */
  predicate Covers(p: Placement, x: int, y: int) {
    p.position.x <= x < p.position.x + p.size.w && p.position.y <= y < p.position.y + p.size.h
  }

  /** Two placements share no pixel. */
  predicate Disjoint(p: Placement, q: Placement) {
    p.position.x + p.size.w <= q.position.x || q.position.x + q.size.w <= p.position.x ||
    p.position.y + p.size.h <= q.position.y || q.position.y + q.size.h <= p.position.y
  }

  lemma DisjointMeansNoSharedPixel(p: Placement, q: Placement, x: int, y: int)
    requires Disjoint(p, q) && Covers(p, x, y)
    ensures !Covers(q, x, y)
  {
  }

  /** The rectangle of `p` lies inside a `width` by `height` canvas. */
  predicate Inside(p: Placement, width: int, height: int) {
    0 <= p.position.x && p.position.x + p.size.w <= width &&
    0 <= p.position.y && p.position.y + p.size.h <= height
  }

  /** All placements of a layout, in slot order and then placement order. */
  function Flatten(layout: seq<Slot>): (r: seq<Placement>)
    ensures forall s, j :: 0 <= s < |layout| && 0 <= j < |layout[s]| ==> layout[s][j] in r
    ensures forall p :: p in r ==> exists s :: 0 <= s < |layout| && p in layout[s]
  {
    if layout == [] then [] else Flatten(layout[..|layout| - 1]) + layout[|layout| - 1]
  }

  lemma FlattenThree(layout: seq<Slot>)
    requires |layout| == 3
    ensures Flatten(layout) == layout[0] + layout[1] + layout[2]
  {
    var l2, l1 := layout[..2], layout[..1];
    assert l2[..1] == l1 && l1[..0] == [];
    calc {
      Flatten(layout);
      Flatten(l2) + layout[2];
      Flatten(l1) + layout[1] + layout[2];
      Flatten([]) + layout[0] + layout[1] + layout[2];
    }
  }

  predicate PairwiseDisjoint(ps: seq<Placement>) {
    forall i, j :: 0 <= i < j < |ps| ==> Disjoint(ps[i], ps[j])
  }

  predicate AllInside(ps: seq<Placement>, width: int, height: int) {
    forall p :: p in ps ==> Inside(p, width, height)
  }
}

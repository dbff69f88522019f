/** The two layouts of the current revision (src/templates.py). */
module Templates {
  import opened Wrappers
  import opened Layouts
  import Paths

  /** `os.path.dirname(__file__)`, taken as the repository's `src` directory. */
  const ModuleDir: string := "src"

  const SquareName: string := "square"
  const StripsName: string := "photo_strips"

  const TemplateSize: Size := Size(535, 420)

  /**
   * The square composite for upload: three single 660x660 photos, two on
   * top and one below, none overlapping another.
   */
  function Square(): (r: Template)
    ensures |r.layout| == 3
    ensures forall s :: 0 <= s < |r.layout| ==> |r.layout[s]| == 1
    ensures PairwiseDisjoint(Flatten(r.layout))
  {
    var layout := [
      [Placement(Size(660, 660), Point(40, 40))],
      [Placement(Size(660, 660), Point(740, 40))],
      [Placement(Size(660, 660), Point(40, 740))]
    ];
    FlattenThree(layout);
    Template(Some(SquareName), layout, Paths.Join(ModuleDir, "../4x4.png"))
  }

  /** Each photo twice, side by side, on three rows. */
  const StripsLayout: seq<Slot> := [
    [Placement(TemplateSize, Point(30, 30)), Placement(TemplateSize, Point(625, 30))],
    [Placement(TemplateSize, Point(30, 480)), Placement(TemplateSize, Point(625, 480))],
    [Placement(TemplateSize, Point(30, 930)), Placement(TemplateSize, Point(625, 930))]
  ]

  /** The strip placements in flattened order: rows y = 30, 480, 930, each at x = 30 then 625. */
  lemma StripsPlacements(k: nat)
    requires k < 6
    ensures |Flatten(StripsLayout)| == 6
    ensures Flatten(StripsLayout)[k] ==
      Placement(TemplateSize, Point([30, 625, 30, 625, 30, 625][k], [30, 30, 480, 480, 930, 930][k]))
  {
    FlattenThree(StripsLayout);
  }

  lemma StripsLayoutDisjoint()
    ensures PairwiseDisjoint(Flatten(StripsLayout))
  {
    var ps := Flatten(StripsLayout);
    StripsPlacements(0);
    forall i, j | 0 <= i < j < |ps| ensures Disjoint(ps[i], ps[j]) {
      StripsPlacements(i);
      StripsPlacements(j);
    }
  }

  /**
   * The printed strip: no two placements overlap, and all of them lie
   * inside the 1190x1760 base image the print path assumes.
   */
  function Strips(): (r: Template)
    ensures |r.layout| == 3
    ensures forall s :: 0 <= s < |r.layout| ==> |r.layout[s]| == 2
    ensures PairwiseDisjoint(Flatten(r.layout))
    ensures AllInside(Flatten(r.layout), 1190, 1760)
  {
    StripsLayoutDisjoint();
    FlattenThree(StripsLayout);
    Template(Some(StripsName), StripsLayout, Paths.Join(ModuleDir, "../4x6.jpg"))
  }

  /** Both layouts have as many slots as each other, so one capture set fills both. */
  lemma SameSlotCount()
    ensures |Square().layout| == |Strips().layout| == 3
  {
  }
}

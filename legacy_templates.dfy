/** The layouts of the earlier revision (templates.py): no `name` entry. */
module LegacyTemplates {
  import opened Wrappers
  import opened Layouts
  import Templates

  const TemplateSize: Size := Size(535, 420)

  /** The same slots as the current square layout; only the asset path differs. */
  function Square(): (r: Template)
    ensures r.layout == Templates.Square().layout
    ensures PairwiseDisjoint(Flatten(r.layout))
  {
    Template(
      None,
      [
        [Placement(Size(660, 660), Point(40, 40))],
        [Placement(Size(660, 660), Point(740, 40))],
        [Placement(Size(660, 660), Point(40, 740))]
      ],
      "4x4.png")
  }

  /** The same slots as the current strips layout; only the asset path differs. */
  function Strips(): (r: Template)
    ensures r.layout == Templates.Strips().layout
    ensures PairwiseDisjoint(Flatten(r.layout))
    ensures AllInside(Flatten(r.layout), 1190, 1760)
  {
    Template(
      None,
      [
        [Placement(TemplateSize, Point(30, 30)), Placement(TemplateSize, Point(625, 30))],
        [Placement(TemplateSize, Point(30, 480)), Placement(TemplateSize, Point(625, 480))],
        [Placement(TemplateSize, Point(30, 930)), Placement(TemplateSize, Point(625, 930))]
      ],
      "4x6.jpg")
  }
}

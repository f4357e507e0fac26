/**
 * The page templates of the note editor as geometry: where each template
 * rules its lines, grid lines, dots, staves and checkboxes for a canvas of
 * a given size. Every template is built from the same counting loop
 * `for (v = start; v < limit; v += step)`, modelled once as `Run`.
 */
module Templates {
  import Records

  /** `r` holds exactly the values `start, start + step, …` below `limit`. */
  predicate IsRun(r: seq<real>, start: real, step: real, limit: real) {
    (forall k :: 0 <= k < |r| ==> r[k] == start + (k as real) * step && r[k] < limit)
    && start + (|r| as real) * step >= limit
  }

  /** The counting loop every template uses. Its steps are whole pixel
      counts, so `step >= 1` bounds the number of iterations. */
  method Run(start: real, step: real, limit: real) returns (r: seq<real>)
    requires step >= 1.0
    ensures IsRun(r, start, step, limit)
  {
    r := [];
    var v := start;
    while v < limit
      invariant v == start + (|r| as real) * step
      invariant forall k :: 0 <= k < |r| ==> r[k] == start + (k as real) * step && r[k] < limit
      decreases (limit - v).Floor
    {
      r := r + [v];
      v := v + step;
    }
  }

  /** Grid lines: the light lines at every cell and, on graph paper, the
      heavy lines drawn over them. */
  datatype Grid = Grid(vertical: seq<real>, horizontal: seq<real>,
                       heavyVertical: seq<real>, heavyHorizontal: seq<real>)

  /** What a template puts on the page, in canvas pixels. */
  datatype Layout =
    | Plain
      /** Lined, wide- and narrow-ruled paper: rules from `marginX` to the
          right margin, and the red margin line at `marginX`. */
    | Ruled(rules: seq<real>, marginX: real)
    | Squared(grid: Grid)
    | Dots(columns: seq<real>, rows: seq<real>)
      /** Cornell notes: the cue column edge, the summary line and the rules
          of the notes area, drawn from `ruleStartX` to `ruleEndX`. */
    | Sections(cueX: real, summaryY: real, rules: seq<real>, ruleStartX: real, ruleEndX: real)
      /** Music paper: the top line of each staff and all five lines of every staff. */
    | Staves(tops: seq<real>, lines: seq<real>)
      /** To-do paper: each row's line, its checkbox column and size, and
          where the text rule starts. */
    | Checklist(rows: seq<real>, boxX: real, boxSize: real, textX: real)

  const RuleMargin: real := 40.0

  /** Lined paper with rule spacing `spacing`: rules from y = 2·spacing
      while y < height − 20. */
  method RuledLines(spacing: real, height: real) returns (layout: Layout)
    requires spacing >= 1.0
    ensures layout.Ruled? && layout.marginX == RuleMargin
    ensures IsRun(layout.rules, 2.0 * spacing, spacing, height - 20.0)
  {
    var rules := Run(2.0 * spacing, spacing, height - 20.0);
    layout := Ruled(rules, RuleMargin);
  }

  /** Square grids of cell `size` from the origin; graph paper adds heavy
      lines every five cells. */
  method GridLines(size: real, width: real, height: real, heavy: bool) returns (g: Grid)
    requires size >= 1.0
    ensures IsRun(g.vertical, 0.0, size, width) && IsRun(g.horizontal, 0.0, size, height)
    ensures heavy ==> (IsRun(g.heavyVertical, 0.0, 5.0 * size, width)
                       && IsRun(g.heavyHorizontal, 0.0, 5.0 * size, height))
    ensures !heavy ==> g.heavyVertical == [] && g.heavyHorizontal == []
  {
    var vertical := Run(0.0, size, width);
    var horizontal := Run(0.0, size, height);
    var heavyVertical: seq<real> := [];
    var heavyHorizontal: seq<real> := [];
    if heavy {
      heavyVertical := Run(0.0, 5.0 * size, width);
      heavyHorizontal := Run(0.0, 5.0 * size, height);
    }
    g := Grid(vertical, horizontal, heavyVertical, heavyHorizontal);
  }

  /** Music paper: staves start at y = 80 every 100 px while the top is above
      height − 40; each staff has five lines 20 px apart (80 / 4). */
  method StaffLines(height: real) returns (layout: Layout)
    ensures layout.Staves?
    ensures IsRun(layout.tops, 80.0, 100.0, height - 40.0)
    ensures |layout.lines| == 5 * |layout.tops|
    ensures forall j :: 0 <= j < |layout.lines| ==>
      layout.lines[j] == layout.tops[j / 5] + ((j % 5) as real) * 20.0
  {
    var tops := Run(80.0, 100.0, height - 40.0);
    var lines: seq<real> := [];
    for k := 0 to |tops|
      invariant |lines| == 5 * k
      invariant forall j :: 0 <= j < |lines| ==> lines[j] == tops[j / 5] + ((j % 5) as real) * 20.0
    {
      for i := 0 to 5
        invariant |lines| == 5 * k + i
        invariant forall j :: 0 <= j < |lines| ==> lines[j] == tops[j / 5] + ((j % 5) as real) * 20.0
      {
        assert (5 * k + i) / 5 == k && (5 * k + i) % 5 == i;
        lines := lines + [tops[k] + (i as real) * 20.0];
      }
    }
    layout := Staves(tops, lines);
  }

  /** `drawTemplate`: the geometry of each template for a canvas of
      `width` × `height`. */
  method DrawTemplate(t: Records.Template, width: real, height: real) returns (layout: Layout)
    ensures t == Records.Blank ==> layout == Plain
    ensures t == Records.Lined ==>
      layout.Ruled? && layout.marginX == 40.0 && IsRun(layout.rules, 56.0, 28.0, height - 20.0)
    ensures t == Records.WideRuled ==>
      layout.Ruled? && layout.marginX == 40.0 && IsRun(layout.rules, 68.0, 34.0, height - 20.0)
    ensures t == Records.NarrowRuled ==>
      layout.Ruled? && layout.marginX == 40.0 && IsRun(layout.rules, 44.0, 22.0, height - 20.0)
    ensures t == Records.Grid ==>
      layout.Squared? && IsRun(layout.grid.vertical, 0.0, 25.0, width)
      && IsRun(layout.grid.horizontal, 0.0, 25.0, height)
      && layout.grid.heavyVertical == [] && layout.grid.heavyHorizontal == []
    ensures t == Records.GraphSmall ==>
      layout.Squared? && IsRun(layout.grid.vertical, 0.0, 15.0, width)
      && IsRun(layout.grid.horizontal, 0.0, 15.0, height)
      && IsRun(layout.grid.heavyVertical, 0.0, 75.0, width)
      && IsRun(layout.grid.heavyHorizontal, 0.0, 75.0, height)
    ensures t == Records.GraphLarge ==>
      layout.Squared? && IsRun(layout.grid.vertical, 0.0, 30.0, width)
      && IsRun(layout.grid.horizontal, 0.0, 30.0, height)
      && IsRun(layout.grid.heavyVertical, 0.0, 150.0, width)
      && IsRun(layout.grid.heavyHorizontal, 0.0, 150.0, height)
    ensures t == Records.Dotted ==>
      layout.Dots? && IsRun(layout.columns, 20.0, 20.0, width) && IsRun(layout.rows, 20.0, 20.0, height)
    ensures t == Records.Cornell ==>
      layout.Sections? && layout.cueX == width * 0.3 && layout.summaryY == height - height * 0.15
      && IsRun(layout.rules, 56.0, 28.0, height - height * 0.15 - 20.0)
      && layout.ruleStartX == width * 0.3 + 20.0 && layout.ruleEndX == width - 40.0
    ensures t == Records.Music ==>
      layout.Staves? && IsRun(layout.tops, 80.0, 100.0, height - 40.0)
      && |layout.lines| == 5 * |layout.tops|
      && (forall j :: 0 <= j < |layout.lines| ==>
            layout.lines[j] == layout.tops[j / 5] + ((j % 5) as real) * 20.0)
    ensures t == Records.Todo ==>
      layout.Checklist? && IsRun(layout.rows, 60.0, 40.0, height - 20.0)
      && layout.boxX == 40.0 && layout.boxSize == 16.0 && layout.textX == 71.0
  {
    match t
    case Blank =>
      layout := Plain;
    case Lined =>
      layout := RuledLines(28.0, height);
    case WideRuled =>
      layout := RuledLines(34.0, height);
    case NarrowRuled =>
      layout := RuledLines(22.0, height);
    case Grid =>
      var g := GridLines(25.0, width, height, false);
      layout := Squared(g);
    case GraphSmall =>
      var g := GridLines(15.0, width, height, true);
      layout := Squared(g);
    case GraphLarge =>
      var g := GridLines(30.0, width, height, true);
      layout := Squared(g);
    case Dotted =>
      var columns := Run(20.0, 20.0, width);
      var rows := Run(20.0, 20.0, height);
      layout := Dots(columns, rows);
    case Cornell =>
      var cueX := width * 0.3;
      var bottom := height * 0.15;
      var rules := Run(56.0, 28.0, height - bottom - 20.0);
      layout := Sections(cueX, height - bottom, rules, cueX + 20.0, width - 40.0);
    case Music =>
      layout := StaffLines(height);
    case Todo =>
      var rows := Run(60.0, 40.0, height - 20.0);
      layout := Checklist(rows, 40.0, 16.0, 40.0 + 16.0 + 15.0);
  }

  // ---------------------------------------------------------------- lemmas

  /** Scaling by a positive step preserves order. */
  lemma ScaleMonotone(a: int, b: int, step: real)
    requires a <= b && step > 0.0
    ensures (a as real) * step <= (b as real) * step
  {
    assert (b as real) * step - (a as real) * step == ((b - a) as real) * step;
  }

  /** Each position of a run is below the limit. */
  lemma RunBelow(r: seq<real>, start: real, step: real, limit: real, k: int)
    requires IsRun(r, start, step, limit) && 0 <= k < |r|
    ensures r[k] == start + (k as real) * step && start + (k as real) * step < limit
  {
  }

  /** A run is determined by its start, step and limit: the loop draws
      exactly those positions and no others. */
  lemma RunDetermined(r1: seq<real>, r2: seq<real>, start: real, step: real, limit: real)
    requires step > 0.0
    requires IsRun(r1, start, step, limit) && IsRun(r2, start, step, limit)
    ensures r1 == r2
  {
    if |r1| < |r2| {
      RunBelow(r2, start, step, limit, |r1|);
    } else if |r2| < |r1| {
      RunBelow(r1, start, step, limit, |r2|);
    }
  }

  /** The lines of a run are strictly increasing. */
  lemma RunIncreasing(r: seq<real>, start: real, step: real, limit: real, i: int, j: int)
    requires step > 0.0 && IsRun(r, start, step, limit)
    requires 0 <= i < j < |r|
    ensures r[i] < r[j]
  {
    assert r[j] - r[i] == ((j - i) as real) * step;
  }

  /** On graph paper the heavy lines fall exactly on every fifth light line:
      the k-th heavy line is light line 5k, and every light line with an
      index divisible by five is a heavy line. */
  lemma HeavyEveryFifth(light: seq<real>, heavy: seq<real>, size: real, limit: real)
    requires size > 0.0
    requires IsRun(light, 0.0, size, limit) && IsRun(heavy, 0.0, 5.0 * size, limit)
    ensures forall k :: 0 <= k < |heavy| ==> 5 * k < |light| && heavy[k] == light[5 * k]
    ensures forall j :: 0 <= j < |light| && j % 5 == 0 ==> j / 5 < |heavy| && heavy[j / 5] == light[j]
  {
    forall k | 0 <= k < |heavy|
      ensures 5 * k < |light| && heavy[k] == light[5 * k]
    {
      assert heavy[k] == ((5 * k) as real) * size;
      if |light| <= 5 * k {
        ScaleMonotone(|light|, 5 * k, size);
      }
    }
    forall j | 0 <= j < |light| && j % 5 == 0
      ensures j / 5 < |heavy| && heavy[j / 5] == light[j]
    {
      var m := j / 5;
      assert j == 5 * m;
      assert light[j] == ((5 * m) as real) * size;
      if |heavy| <= m {
        assert (|heavy| as real) * (5.0 * size) == ((5 * |heavy|) as real) * size;
        ScaleMonotone(5 * |heavy|, 5 * m, size);
      }
    }
  }
}

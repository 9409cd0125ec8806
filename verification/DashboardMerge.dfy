/**
 Stacking several dashboards into one: each source becomes a section with a row header,
 its panels rebased below it. A panel has a full grid position or none; one without gets
 the default rectangle, which the section's height does not count.
 */
module DashboardMerge {
  import opened Options
  import opened Basics

  const ROW_HEIGHT := 1

  datatype Grid = Grid(x: int, y: int, w: int, h: int)

  datatype Panel = Panel(isRow: bool, grid: Option<Grid>, id: int, title: string)

  datatype Source = Source(title: string, panels: seq<Panel>)

  const DEFAULT_GRID := Grid(0, 0, 12, 8)

  function CountedTop(p: Panel): int {
    if p.grid.Some? then p.grid.value.y else 0
  }

  function CountedBottom(p: Panel): int {
    if p.grid.Some? then p.grid.value.y + p.grid.value.h else 0
  }

  /** The rectangle the panel will be drawn in, before rebasing. */
  function Drawn(p: Panel): Grid {
    if p.grid.Some? then p.grid.value else DEFAULT_GRID
  }

  function NonRows(panels: seq<Panel>): seq<Panel> {
    if panels == [] then [] else (if panels[0].isRow then [] else [panels[0]]) + NonRows(panels[1..])
  }

  /** The panels of a source's own list that are not rows, and those among the first n. */
  function KeptBefore(panels: seq<Panel>, n: nat): nat
    requires n <= |panels|
  {
    |set i: nat | i < n && !panels[i].isRow :: i|
  }

  lemma KeptBeforeStep(panels: seq<Panel>, n: nat)
    requires n < |panels|
    ensures KeptBefore(panels, n + 1) == KeptBefore(panels, n) + if panels[n].isRow then 0 else 1
    ensures KeptBefore(panels, 0) == 0
  {
    var now := set i: nat | i < n && !panels[i].isRow :: i;
    var next := set i: nat | i < n + 1 && !panels[i].isRow :: i;
    assert next == if panels[n].isRow then now else now + {n};
  }

  lemma {:induction false} NonRowsConcat(a: seq<Panel>, b: seq<Panel>)
    ensures NonRows(a + b) == NonRows(a) + NonRows(b)
    decreases |a|
  {
    if a == [] {
      assert a + b == b;
    } else {
      assert (a + b)[1..] == a[1..] + b;
      NonRowsConcat(a[1..], b);
    }
  }

  lemma {:induction false} NonRowsPrefix(panels: seq<Panel>, n: nat)
    requires n <= |panels|
    ensures |NonRows(panels[..n])| == KeptBefore(panels, n)
    decreases n
  {
    if n > 0 {
      NonRowsPrefix(panels, n - 1);
      KeptBeforeStep(panels, n - 1);
      NonRowsConcat(panels[..n - 1], [panels[n - 1]]);
      assert panels[..n] == panels[..n - 1] + [panels[n - 1]] && [panels[n - 1]][1..] == [];
    }
  }

  /** Each panel that is not a row is kept, at the place given by how many such panels come before it. */
  lemma KeptInPlace(panels: seq<Panel>, i: nat)
    requires i < |panels|
    ensures |NonRows(panels)| == KeptBefore(panels, |panels|)
    ensures !panels[i].isRow ==>
              KeptBefore(panels, i) < |NonRows(panels)| && NonRows(panels)[KeptBefore(panels, i)] == panels[i]
  {
    NonRowsPrefix(panels, |panels|);
    assert panels[..|panels|] == panels;
    NonRowsPrefix(panels, i);
    assert panels == panels[..i] + panels[i..];
    NonRowsConcat(panels[..i], panels[i..]);
  }

  /** The tallest counted bottom, or zero. */
  function SectionHeight(panels: seq<Panel>): int {
    if panels == [] then 0
    else if |panels| == 1 then CountedBottom(panels[0])
    else Max(CountedBottom(panels[0]), SectionHeight(panels[1..]))
  }

  /** The highest counted top, or zero. */
  function LocalMinY(panels: seq<Panel>): int {
    if panels == [] then 0
    else if |panels| == 1 then CountedTop(panels[0])
    else Min(CountedTop(panels[0]), LocalMinY(panels[1..]))
  }

  lemma {:induction false} Bounds(panels: seq<Panel>, i: nat)
    requires i < |panels|
    ensures CountedBottom(panels[i]) <= SectionHeight(panels)
    ensures LocalMinY(panels) <= CountedTop(panels[i])
    decreases |panels|
  {
    if i > 0 { Bounds(panels[1..], i - 1); }
  }

  // ---- the layout ----

  function MakeRow(title: string, y: int, id: int): Panel {
    Panel(true, Some(Grid(0, y, 24, ROW_HEIGHT)), id, title)
  }

  /** A copy with its rectangle moved down by `shift` and a new id. */
  function Placed(p: Panel, shift: int, id: int): Panel {
    p.(grid := Some(Drawn(p).(y := Drawn(p).y + shift)), id := id)
  }

  function PlaceAll(panels: seq<Panel>, shift: int, id: int): seq<Panel> {
    if panels == [] then [] else [Placed(panels[0], shift, id)] + PlaceAll(panels[1..], shift, id + 1)
  }

  lemma {:induction false} PlaceAllAt(panels: seq<Panel>, shift: int, id: int)
    ensures |PlaceAll(panels, shift, id)| == |panels|
    ensures forall i | 0 <= i < |panels| :: PlaceAll(panels, shift, id)[i] == Placed(panels[i], shift, id + i)
    decreases |panels|
  {
    if panels != [] {
      PlaceAllAt(panels[1..], shift, id + 1);
      forall i | 0 <= i < |panels|
        ensures PlaceAll(panels, shift, id)[i] == Placed(panels[i], shift, id + i)
      {
        if i > 0 { assert panels[i] == panels[1..][i - 1]; }
      }
    }
  }

  function Shift(panels: seq<Panel>, cursor: int): int {
    cursor + ROW_HEIGHT - LocalMinY(panels)
  }

  function Section(s: Source, cursor: int, id: int): seq<Panel> {
    var panels := NonRows(s.panels);
    [MakeRow(s.title, cursor, id)] + PlaceAll(panels, Shift(panels, cursor), id + 1)
  }

  /** A section is its header and then its panels, moved down together, ids counting up. */
  lemma SectionAt(s: Source, cursor: int, id: int)
    ensures var panels := NonRows(s.panels);
            var out := Section(s, cursor, id);
            && |out| == |panels| + 1
            && out[0] == MakeRow(s.title, cursor, id)
            && forall i | 0 <= i < |panels| :: out[i + 1] == Placed(panels[i], Shift(panels, cursor), id + 1 + i)
  {
    PlaceAllAt(NonRows(s.panels), Shift(NonRows(s.panels), cursor), id + 1);
  }

  /** A header is a row with its source's title; a panel keeps everything but its height on the page and its id. */
  lemma SectionContents(s: Source, cursor: int, id: int)
    ensures var out, panels := Section(s, cursor, id), NonRows(s.panels);
            && |out| == |panels| + 1
            && out[0].isRow && out[0].title == s.title && out[0].id == id
            && out[0].grid == Some(Grid(0, cursor, 24, 1))
            && forall i | 0 <= i < |panels| :: SamePanel(panels[i], out[i + 1]) && out[i + 1].id == id + 1 + i
  {
    SectionAt(s, cursor, id);
  }

  predicate SamePanel(p: Panel, q: Panel) {
    && q.isRow == p.isRow && q.title == p.title && q.grid.Some?
    && (if p.grid.Some? then q.grid.value.(y := 0) == p.grid.value.(y := 0)
        else q.grid.value.(y := 0) == Grid(0, 0, 12, 8))
  }

  /** Where the next section starts. */
  function NextCursor(s: Source, cursor: int): int {
    var panels := NonRows(s.panels);
    cursor + ROW_HEIGHT + Max(SectionHeight(panels) - LocalMinY(panels), ROW_HEIGHT)
  }

  function Sections(sources: seq<Source>, cursor: int, id: int): (r: seq<seq<Panel>>)
    ensures |r| == |sources|
  {
    if sources == [] then []
    else
      var first := Section(sources[0], cursor, id);
      [first] + Sections(sources[1..], NextCursor(sources[0], cursor), id + |first|)
  }

  function CursorAt(sources: seq<Source>, cursor: int, a: nat): int
    requires a <= |sources|
  {
    if a == 0 then cursor else CursorAt(sources[1..], NextCursor(sources[0], cursor), a - 1)
  }

  lemma {:induction false} SectionIs(sources: seq<Source>, cursor: int, id: int, a: nat) returns (first: int)
    requires a < |sources|
    ensures Sections(sources, cursor, id)[a] == Section(sources[a], CursorAt(sources, cursor, a), first)
    decreases a
  {
    if a == 0 {
      first := id;
    } else {
      var next := id + |Section(sources[0], cursor, id)|;
      first := SectionIs(sources[1..], NextCursor(sources[0], cursor), next, a - 1);
      assert sources[1..][a - 1] == sources[a];
    }
  }

  lemma {:induction false} CursorStep(sources: seq<Source>, cursor: int, a: nat)
    requires a < |sources|
    ensures CursorAt(sources, cursor, a + 1) == NextCursor(sources[a], CursorAt(sources, cursor, a))
    decreases a
  {
    if a > 0 {
      CursorStep(sources[1..], NextCursor(sources[0], cursor), a - 1);
      assert sources[1..][a - 1] == sources[a];
    }
  }

  lemma {:induction false} CursorGrows(sources: seq<Source>, cursor: int, a: nat, b: nat)
    requires a <= b <= |sources|
    ensures CursorAt(sources, cursor, a) <= CursorAt(sources, cursor, b)
    decreases b - a
  {
    if a < b {
      CursorGrows(sources, cursor, a, b - 1);
      CursorStep(sources, cursor, b - 1);
    }
  }

  /** Some panel has the top of its section, and some panel the counted bottom. */
  lemma {:induction false} ExtremesAreReached(panels: seq<Panel>) returns (top: nat, bottom: nat)
    requires panels != []
    ensures top < |panels| && CountedTop(panels[top]) == LocalMinY(panels)
    ensures bottom < |panels| && CountedBottom(panels[bottom]) == SectionHeight(panels)
    decreases |panels|
  {
    top, bottom := 0, 0;
    if |panels| > 1 {
      var t, b := ExtremesAreReached(panels[1..]);
      if CountedTop(panels[0]) > CountedTop(panels[1..][t]) { top := t + 1; }
      if CountedBottom(panels[0]) < CountedBottom(panels[1..][b]) { bottom := b + 1; }
    }
  }

  /** Sections are stacked without gaps: the topmost panel touches its header, and the next header the lowest one. */
  lemma SectionsAreTight(s: Source, cursor: int)
    ensures var panels := NonRows(s.panels);
            && (panels == [] ==> NextCursor(s, cursor) == cursor + 2)
            && (panels != [] ==>
                  && (exists i :: 0 <= i < |panels| && CountedTop(panels[i]) + Shift(panels, cursor) == cursor + 1)
                  && (NextCursor(s, cursor) == cursor + 2 ||
                      exists i :: 0 <= i < |panels|
                                  && CountedBottom(panels[i]) + Shift(panels, cursor) == NextCursor(s, cursor)))
  {
    var panels := NonRows(s.panels);
    if panels != [] {
      var top, bottom := ExtremesAreReached(panels);
    }
  }

  // ---- ids and counts ----

  lemma SectionIds(s: Source, cursor: int, id: int, k: nat)
    requires k < |Section(s, cursor, id)|
    ensures Section(s, cursor, id)[k].id == id + k
  {
    SectionAt(s, cursor, id);
    if k > 0 {
      var i := k - 1;
      var panels := NonRows(s.panels);
      assert Section(s, cursor, id)[i + 1] == Placed(panels[i], Shift(panels, cursor), id + 1 + i);
    }
  }

  /** Ids are consecutive from the first one, over all sections. */
  lemma {:induction false} IdsAreConsecutive(sources: seq<Source>, cursor: int, id: int, k: nat)
    requires k < |Flat(Sections(sources, cursor, id))|
    ensures Flat(Sections(sources, cursor, id))[k].id == id + k
    decreases |sources|
  {
    FlatSections(sources, cursor, id);
    var first := Section(sources[0], cursor, id);
    if k < |first| {
      SectionIds(sources[0], cursor, id, k);
    } else {
      IdsAreConsecutive(sources[1..], NextCursor(sources[0], cursor), id + |first|, k - |first|);
    }
  }

  function PanelCount(sources: seq<Source>): nat {
    if sources == [] then 0 else |NonRows(sources[0].panels)| + PanelCount(sources[1..])
  }

  /** No panel is lost: all that were not rows, and one row per source. */
  lemma {:induction false} CountIsKept(sources: seq<Source>, cursor: int, id: int)
    ensures |Flat(Sections(sources, cursor, id))| == PanelCount(sources) + |sources|
    decreases |sources|
  {
    if sources != [] {
      FlatSections(sources, cursor, id);
      SectionAt(sources[0], cursor, id);
      CountIsKept(sources[1..], NextCursor(sources[0], cursor), id + |Section(sources[0], cursor, id)|);
    }
  }

  // ---- overlaps ----

  /** Some cell belongs to both rectangles. */
  predicate Overlap(a: Grid, b: Grid) {
    && Max(a.x, b.x) < Min(a.x + a.w, b.x + b.w)
    && Max(a.y, b.y) < Min(a.y + a.h, b.y + b.h)
  }

  /** Everything drawn in a source ends within the height counted for it. */
  predicate Fits(s: Source) {
    var panels := NonRows(s.panels);
    forall i | 0 <= i < |panels| ::
      Drawn(panels[i]).y + Drawn(panels[i]).h <= Max(SectionHeight(panels), LocalMinY(panels) + ROW_HEIGHT)
  }

  predicate Apart(p: seq<Panel>, q: seq<Panel>) {
    forall i, j | 0 <= i < |p| && 0 <= j < |q| :: !Overlap(Drawn(p[i]), Drawn(q[j]))
  }

  predicate SectionsApart(sections: seq<seq<Panel>>) {
    forall a, b | 0 <= a < b < |sections| :: Apart(sections[a], sections[b])
  }

  /** A fitting section stays inside its own band of rows. */
  lemma SectionBand(s: Source, cursor: int, id: int, i: nat)
    requires i < |Section(s, cursor, id)|
    ensures Drawn(Section(s, cursor, id)[i]).y >= cursor
    ensures Fits(s) ==> var g := Drawn(Section(s, cursor, id)[i]); g.y + g.h <= NextCursor(s, cursor)
  {
    var panels := NonRows(s.panels);
    SectionAt(s, cursor, id);
    if i > 0 {
      var p := panels[i - 1];
      assert Section(s, cursor, id)[i - 1 + 1] == Placed(p, Shift(panels, cursor), id + 1 + (i - 1));
      Bounds(panels, i - 1);
    }
  }

  lemma FittingSectionsApart(sources: seq<Source>, a: nat, b: nat)
    requires a < b < |sources| && Fits(sources[a])
    ensures Apart(Sections(sources, 0, 1)[a], Sections(sources, 0, 1)[b])
  {
    var ida := SectionIs(sources, 0, 1, a);
    var idb := SectionIs(sources, 0, 1, b);
    var ca, cb := CursorAt(sources, 0, a), CursorAt(sources, 0, b);
    CursorStep(sources, 0, a);
    CursorGrows(sources, 0, a + 1, b);
    forall i, j | 0 <= i < |Section(sources[a], ca, ida)| && 0 <= j < |Section(sources[b], cb, idb)|
      ensures !Overlap(Drawn(Section(sources[a], ca, ida)[i]), Drawn(Section(sources[b], cb, idb)[j]))
    {
      SectionBand(sources[a], ca, ida, i);
      SectionBand(sources[b], cb, idb, j);
    }
  }

  /** A panel that reaches below the counted height has no grid position, and covers the next header's first cell. */
  lemma SpillCovers(s: Source, cursor: int, i: nat)
    requires i < |NonRows(s.panels)|
    requires var panels := NonRows(s.panels);
             Drawn(panels[i]).y + Drawn(panels[i]).h > Max(SectionHeight(panels), LocalMinY(panels) + ROW_HEIGHT)
    ensures var panels := NonRows(s.panels);
            var g := Drawn(panels[i]);
            Overlap(g.(y := g.y + Shift(panels, cursor)), Grid(0, NextCursor(s, cursor), 24, ROW_HEIGHT))
  {
    Bounds(NonRows(s.panels), i);
  }

  lemma HeaderIs(s: Source, cursor: int, id: int)
    ensures |Section(s, cursor, id)| > 0
    ensures Drawn(Section(s, cursor, id)[0]) == Grid(0, cursor, 24, ROW_HEIGHT)
  {
    SectionAt(s, cursor, id);
  }

  lemma PanelIs(s: Source, cursor: int, id: int, i: nat)
    requires i < |NonRows(s.panels)|
    ensures i + 1 < |Section(s, cursor, id)|
    ensures var g := Drawn(NonRows(s.panels)[i]);
            Drawn(Section(s, cursor, id)[i + 1]) == g.(y := g.y + Shift(NonRows(s.panels), cursor))
  {
    SectionAt(s, cursor, id);
  }

  /** A source that does not fit covers part of the next section's row header. */
  lemma SpillHitsNextHeader(sources: seq<Source>, a: nat, i: nat)
    requires a + 1 < |sources| && i < |NonRows(sources[a].panels)|
    requires var panels := NonRows(sources[a].panels);
             Drawn(panels[i]).y + Drawn(panels[i]).h > Max(SectionHeight(panels), LocalMinY(panels) + ROW_HEIGHT)
    ensures !Apart(Sections(sources, 0, 1)[a], Sections(sources, 0, 1)[a + 1])
  {
    var ida := SectionIs(sources, 0, 1, a);
    var idb := SectionIs(sources, 0, 1, a + 1);
    CursorStep(sources, 0, a);
    SpillCovers(sources[a], CursorAt(sources, 0, a), i);
    PanelIs(sources[a], CursorAt(sources, 0, a), ida, i);
    HeaderIs(sources[a + 1], CursorAt(sources, 0, a + 1), idb);
    Touching(Sections(sources, 0, 1)[a], Sections(sources, 0, 1)[a + 1], i + 1, 0);
  }

  lemma Touching(p: seq<Panel>, q: seq<Panel>, i: nat, j: nat)
    requires i < |p| && j < |q| && Overlap(Drawn(p[i]), Drawn(q[j]))
    ensures !Apart(p, q)
  {
  }

  lemma SpillingPanel(s: Source) returns (i: nat)
    requires !Fits(s)
    ensures i < |NonRows(s.panels)|
    ensures var panels := NonRows(s.panels);
            Drawn(panels[i]).y + Drawn(panels[i]).h > Max(SectionHeight(panels), LocalMinY(panels) + ROW_HEIGHT)
  {
    var panels := NonRows(s.panels);
    i :| 0 <= i < |panels| && Drawn(panels[i]).y + Drawn(panels[i]).h
                              > Max(SectionHeight(panels), LocalMinY(panels) + ROW_HEIGHT);
  }

  lemma SpillBreaks(sources: seq<Source>, a: nat)
    requires a + 1 < |sources| && !Fits(sources[a])
    ensures !SectionsApart(Sections(sources, 0, 1))
  {
    var i := SpillingPanel(sources[a]);
    SpillHitsNextHeader(sources, a, i);
  }

  lemma FittingIsApart(sources: seq<Source>)
    requires forall a | 0 <= a < |sources| - 1 :: Fits(sources[a])
    ensures SectionsApart(Sections(sources, 0, 1))
  {
    var sections := Sections(sources, 0, 1);
    forall a, b | 0 <= a < b < |sections| ensures Apart(sections[a], sections[b]) {
      FittingSectionsApart(sources, a, b);
    }
  }

  /** Sections never overlap one another if, and only if, every source but the last fits its counted height. */
  lemma NoOverlapAcrossSections(sources: seq<Source>)
    ensures SectionsApart(Sections(sources, 0, 1)) <==> forall a | 0 <= a < |sources| - 1 :: Fits(sources[a])
  {
    if forall a | 0 <= a < |sources| - 1 :: Fits(sources[a]) {
      FittingIsApart(sources);
    } else {
      var a :| 0 <= a < |sources| - 1 && !Fits(sources[a]);
      SpillBreaks(sources, a);
    }
  }

  /** Full grid positions always fit; a panel without one fits when eight rows are counted. */
  lemma FitsExactly(s: Source)
    ensures var panels := NonRows(s.panels);
            Fits(s) <==> (forall i | 0 <= i < |panels| :: panels[i].grid.Some?)
                         || Max(SectionHeight(panels), LocalMinY(panels) + ROW_HEIGHT) >= 8
  {
    var panels := NonRows(s.panels);
    forall i | 0 <= i < |panels| ensures CountedBottom(panels[i]) <= SectionHeight(panels) { Bounds(panels, i); }
  }

  /** So sources with full positions throughout never overlap one another. */
  lemma FullPositionsStayApart(sources: seq<Source>)
    requires forall a | 0 <= a < |sources| :: forall p | p in NonRows(sources[a].panels) :: p.grid.Some?
    ensures SectionsApart(Sections(sources, 0, 1))
  {
    forall a | 0 <= a < |sources| - 1 ensures Fits(sources[a]) { FitsExactly(sources[a]); }
    FittingIsApart(sources);
  }

  /** The failing case: one panel without a position, 12 by 8 once drawn, over the header after it. */
  const UNPLACED := [Source("first", [Panel(false, None, 7, "graph")]), Source("second", [])]

  lemma UnplacedPanelCoversNextHeader()
    ensures var out := Flat(Sections(UNPLACED, 0, 1));
            && |out| == 3
            && Drawn(out[1]) == Grid(0, 1, 12, 8) && Drawn(out[2]) == Grid(0, 2, 24, ROW_HEIGHT)
            && Overlap(Drawn(out[1]), Drawn(out[2]))
  {
    var first, second := UNPLACED[0], UNPLACED[1];
    assert first.panels[1..] == [] && NonRows(first.panels) == first.panels && NonRows(second.panels) == [];
    assert UNPLACED[1..] == [second] && [second][1..] == [];
    SectionAt(first, 0, 1);
    SectionAt(second, 2, 3);
    FlatSections(UNPLACED, 0, 1);
    FlatSections([second], 2, 3);
    assert Flat(Sections([], 4, 4)) == [];
  }

  /** Inside a section: the header overlaps nothing, and two panels overlap exactly as they did before. */
  lemma OverlapsInsideAreOld(s: Source, cursor: int, id: int, i: nat, j: nat)
    requires i < j <= |NonRows(s.panels)|
    ensures |Section(s, cursor, id)| == |NonRows(s.panels)| + 1
    ensures var out := Section(s, cursor, id);
            Overlap(Drawn(out[i]), Drawn(out[j])) <==>
              i > 0 && Overlap(Drawn(NonRows(s.panels)[i - 1]), Drawn(NonRows(s.panels)[j - 1]))
  {
    SectionAt(s, cursor, id);
    Bounds(NonRows(s.panels), j - 1);
    PanelIs(s, cursor, id, j - 1);
    var g, d := Drawn(NonRows(s.panels)[j - 1]), Shift(NonRows(s.panels), cursor);
    if i > 0 {
      PanelIs(s, cursor, id, i - 1);
      MovedTogether(Drawn(NonRows(s.panels)[i - 1]), g, d);
    } else {
      HeaderIs(s, cursor, id);
    }
  }

  lemma MovedTogether(a: Grid, b: Grid, d: int)
    ensures Overlap(a.(y := a.y + d), b.(y := b.y + d)) <==> Overlap(a, b)
  {
  }

  // ---- overlaps in the whole output ----

  function SectionSize(s: Source): nat {
    1 + |NonRows(s.panels)|
  }

  function Size(sources: seq<Source>): nat {
    if sources == [] then 0 else SectionSize(sources[0]) + Size(sources[1..])
  }

  /** The source the k-th output panel comes from. */
  function SourceOf(sources: seq<Source>, k: nat): (a: nat)
    requires k < Size(sources)
    ensures a < |sources|
  {
    if k < SectionSize(sources[0]) then 0 else 1 + SourceOf(sources[1..], k - SectionSize(sources[0]))
  }

  /** Its place in that source's section, the header being the first. */
  function PlaceOf(sources: seq<Source>, k: nat): (i: nat)
    requires k < Size(sources)
    ensures i < SectionSize(sources[SourceOf(sources, k)])
  {
    if k < SectionSize(sources[0]) then k else PlaceOf(sources[1..], k - SectionSize(sources[0]))
  }

  predicate Sized(sections: seq<seq<Panel>>, sources: seq<Source>) {
    |sections| == |sources| && forall a | 0 <= a < |sources| :: |sections[a]| == SectionSize(sources[a])
  }

  lemma SectionsAreSized(sources: seq<Source>, cursor: int, id: int)
    ensures Sized(Sections(sources, cursor, id), sources)
  {
    forall a | 0 <= a < |sources| ensures |Sections(sources, cursor, id)[a]| == SectionSize(sources[a]) {
      var first := SectionIs(sources, cursor, id, a);
      SectionAt(sources[a], CursorAt(sources, cursor, a), first);
    }
  }

  lemma {:induction false} FlatSize(sections: seq<seq<Panel>>, sources: seq<Source>)
    requires Sized(sections, sources)
    ensures |Flat(sections)| == Size(sources)
    decreases |sources|
  {
    if sources != [] { FlatSize(sections[1..], sources[1..]); }
  }

  lemma {:induction false} FlatIs(sections: seq<seq<Panel>>, sources: seq<Source>, k: nat)
    requires Sized(sections, sources) && k < Size(sources) == |Flat(sections)|
    ensures Flat(sections)[k] == sections[SourceOf(sources, k)][PlaceOf(sources, k)]
    decreases |sources|
  {
    var size := SectionSize(sources[0]);
    if k >= size {
      FlatSize(sections[1..], sources[1..]);
      FlatIs(sections[1..], sources[1..], k - size);
    }
  }

  lemma {:induction false} InOrder(sources: seq<Source>, k: nat, l: nat)
    requires k < l < Size(sources)
    ensures SourceOf(sources, k) <= SourceOf(sources, l)
    ensures SourceOf(sources, k) == SourceOf(sources, l) ==> PlaceOf(sources, k) < PlaceOf(sources, l)
    decreases |sources|
  {
    var size := SectionSize(sources[0]);
    if k >= size { InOrder(sources[1..], k - size, l - size); }
  }

  /** Two panels at these places of one source, the header being the first, overlapped there. */
  predicate OverlappedIn(s: Source, i: nat, j: nat)
    requires i < SectionSize(s) && j < SectionSize(s)
  {
    i > 0 && j > 0 && Overlap(Drawn(NonRows(s.panels)[i - 1]), Drawn(NonRows(s.panels)[j - 1]))
  }

  /** When all sources but the last fit: two panels of the output overlap if, and only if, both are panels of one
      source, not headers, and overlapped in it. */
  lemma MergeKeepsOverlaps(sources: seq<Source>, k: nat, l: nat)
    requires k < l < Size(sources)
    requires forall a | 0 <= a < |sources| - 1 :: Fits(sources[a])
    ensures |Flat(Sections(sources, 0, 1))| == Size(sources)
    ensures var out := Flat(Sections(sources, 0, 1));
            Overlap(Drawn(out[k]), Drawn(out[l])) <==>
              SourceOf(sources, k) == SourceOf(sources, l)
              && OverlappedIn(sources[SourceOf(sources, k)], PlaceOf(sources, k), PlaceOf(sources, l))
  {
    var sections := Sections(sources, 0, 1);
    SectionsAreSized(sources, 0, 1);
    FlatSize(sections, sources);
    FlatIs(sections, sources, k);
    FlatIs(sections, sources, l);
    InOrder(sources, k, l);
    var a, b := SourceOf(sources, k), SourceOf(sources, l);
    if a < b {
      AcrossSections(sources, a, b, PlaceOf(sources, k), PlaceOf(sources, l));
    } else {
      WithinSection(sources, a, PlaceOf(sources, k), PlaceOf(sources, l));
    }
  }

  lemma AcrossSections(sources: seq<Source>, a: nat, b: nat, i: nat, j: nat)
    requires a < b < |sources| && Fits(sources[a])
    requires i < |Sections(sources, 0, 1)[a]| && j < |Sections(sources, 0, 1)[b]|
    ensures !Overlap(Drawn(Sections(sources, 0, 1)[a][i]), Drawn(Sections(sources, 0, 1)[b][j]))
  {
    FittingSectionsApart(sources, a, b);
  }

  lemma WithinSection(sources: seq<Source>, a: nat, i: nat, j: nat)
    requires a < |sources| && i < j < SectionSize(sources[a])
    ensures |Sections(sources, 0, 1)[a]| == SectionSize(sources[a])
    ensures Overlap(Drawn(Sections(sources, 0, 1)[a][i]), Drawn(Sections(sources, 0, 1)[a][j]))
            <==> OverlappedIn(sources[a], i, j)
  {
    var id := SectionIs(sources, 0, 1, a);
    OverlapsInsideAreOld(sources[a], CursorAt(sources, 0, a), id, i, j);
  }

  // ---- the loops ----

  /** One source: its header, then its panels in order. */
  method AppendSource(s: Source, before: seq<Panel>, cursor: int, id: int)
    returns (out: seq<Panel>, nextId: int, nextCursor: int)
    ensures out == before + Section(s, cursor, id)
    ensures nextId == id + |Section(s, cursor, id)| && nextCursor == NextCursor(s, cursor)
  {
    var panels := NonRows(s.panels);
    ghost var section := Section(s, cursor, id);
    SectionAt(s, cursor, id);
    out := before + [MakeRow(s.title, cursor, id)];
    nextId := id + 1;
    nextCursor := cursor + ROW_HEIGHT;
    var localMinY := LocalMinY(panels);
    for i := 0 to |panels|
      invariant nextId == id + 1 + i
      invariant out == before + section[..i + 1]
    {
      out := out + [Placed(panels[i], nextCursor - localMinY, nextId)];
      nextId := nextId + 1;
      assert section[..i + 2] == section[..i + 1] + [section[i + 1]];
    }
    assert section[..|panels| + 1] == section;
    nextCursor := nextCursor + Max(SectionHeight(panels) - localMinY, ROW_HEIGHT);
  }

  method Merge(sources: seq<Source>) returns (out: seq<Panel>)
    ensures out == Flat(Sections(sources, 0, 1))
  {
    out := [];
    var nextId, cursorY := 1, 0;
    ghost var goal := Flat(Sections(sources, 0, 1));
    assert sources[0..] == sources && [] + goal == goal;
    for s := 0 to |sources|
      invariant out + Flat(Sections(sources[s..], cursorY, nextId)) == goal
    {
      assert sources[s..][1..] == sources[s + 1..];
      FlatSections(sources[s..], cursorY, nextId);
      ghost var section := Section(sources[s], cursorY, nextId);
      ghost var before := out;
      out, nextId, cursorY := AppendSource(sources[s], out, cursorY, nextId);
      AppendSection(before, section, Flat(Sections(sources[s + 1..], cursorY, nextId)));
    }
    assert sources[|sources|..] == [];
  }

  lemma FlatSections(sources: seq<Source>, cursor: int, id: int)
    requires sources != []
    ensures var first := Section(sources[0], cursor, id);
            Flat(Sections(sources, cursor, id))
            == first + Flat(Sections(sources[1..], NextCursor(sources[0], cursor), id + |first|))
  {
    var first := Section(sources[0], cursor, id);
    assert Sections(sources, cursor, id)[1..]
        == Sections(sources[1..], NextCursor(sources[0], cursor), id + |first|);
  }

  lemma AppendSection(a: seq<Panel>, b: seq<Panel>, c: seq<Panel>)
    ensures a + (b + c) == a + b + c
  {
  }
}

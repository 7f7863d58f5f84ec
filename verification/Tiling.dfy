/** Master-and-stack tiling: the geometry of every tiled window, and why tiles never overlap. */
module Tiling {
  import opened Prelude
  import opened Desktop

  datatype Config = Config(gap: nat, useSsd: bool, focusFollowsMouse: bool, resizeStep: real)

  type Tile = (nat, Area)

  /** Interiors do not meet. */
  predicate Disjoint(a: Area, b: Area) {
    a.x + a.width <= b.x || b.x + b.width <= a.x || a.y + a.height <= b.y || b.y + b.height <= a.y
  }

  predicate Inside(t: Area, a: Area) {
    a.x <= t.x && t.x + t.width <= a.x + a.width && a.y <= t.y && t.y + t.height <= a.y + a.height
  }

  predicate NonEmpty(a: Area) {
    a.width > 0 && a.height > 0
  }

  function MasterWidth(width: nat, fraction: real): nat {
    Max((width as real * fraction).Floor, 0)
  }

  lemma MasterWidthBounded(width: nat, fraction: real)
    requires 0.0 <= fraction <= 1.0
    ensures MasterWidth(width, fraction) <= width
  {
    var w := width as real;
    assert w * fraction <= w * 1.0;
  }

  /** Height of every stack tile but the last; the gaps are saturating-subtracted. */
  function StackHeight(height: nat, gap: nat, k: nat): nat
    requires k > 0
  {
    Max(height - (k - 1) * gap, 0) / k
  }

  /** Tile `i` of a stack of `k`. */
  function StackTile(area: Area, bottom: int, gap: nat, masterW: nat, k: nat, i: nat): Area
    requires i < k
  {
    var y := area.y + i * (StackHeight(area.height, gap, k) + gap);
    Area(area.x + masterW + gap, y, Max(area.width - masterW - gap, 0),
         if i + 1 == k then Max(bottom - gap - y, 0) else StackHeight(area.height, gap, k))
  }

  function TileAt(n: nat, area: Area, bottom: int, gap: nat, masterW: nat, i: nat): Area
    requires i < n
  {
    if n == 1 then area
    else if i == 0 then Area(area.x, area.y, masterW, area.height)
    else StackTile(area, bottom, gap, masterW, n - 1, i - 1)
  }

  function Tiles(ids: seq<nat>, area: Area, bottom: int, gap: nat, fraction: real): (r: seq<Tile>)
    ensures |r| == |ids|
    ensures forall i :: 0 <= i < |ids| ==> r[i].0 == ids[i]
  {
    seq(|ids|, i requires 0 <= i < |ids| =>
      (ids[i], TileAt(|ids|, area, bottom, gap, MasterWidth(area.width, fraction), i)))
  }

  /** The loop of the layout: one tile per window, pushed in order. */
  method ComputeTiling(ids: seq<nat>, area: Area, bottom: int, gap: nat, fraction: real) returns (result: seq<Tile>)
    ensures result == Tiles(ids, area, bottom, gap, fraction)
    ensures bottom == area.y + area.height && 0.0 <= fraction ==> MasterAndStack(result, area, gap, fraction)
  {
    if bottom == area.y + area.height && 0.0 <= fraction { TilesStack(ids, area, bottom, gap, fraction); }
    hide MasterAndStack;
    var n := |ids|;
    if n == 0 { return []; }
    if n == 1 { return [(ids[0], area)]; }
    var masterW := MasterWidth(area.width, fraction);
    result := [(ids[0], Area(area.x, area.y, masterW, area.height))];
    var stackX := area.x + masterW + gap;
    var stackW := Max(area.width - masterW - gap, 0);
    var stackH := Max(area.height - (n - 2) * gap, 0) / (n - 1);
    assert stackH == StackHeight(area.height, gap, n - 1);
    hide StackHeight;
    for i := 0 to n - 1
      invariant |result| == i + 1
      invariant forall k :: 0 <= k <= i ==> result[k] == (ids[k], TileAt(n, area, bottom, gap, masterW, k))
    {
      var y := area.y + i * (stackH + gap);
      var h := if i + 1 == n - 1 then Max(bottom - gap - y, 0) else stackH;
      result := result + [(ids[i + 1], Area(stackX, y, stackW, h))];
      assert StackTile(area, bottom, gap, masterW, n - 1, i) == Area(stackX, y, stackW, h);
      hide StackTile;
    }
  }

  /** Any two tiles of one output are interior-disjoint, even the empty ones. */
  lemma TilesDisjoint(n: nat, area: Area, bottom: int, gap: nat, masterW: nat, i: nat, j: nat)
    requires i < j < n
    ensures Disjoint(TileAt(n, area, bottom, gap, masterW, i), TileAt(n, area, bottom, gap, masterW, j))
  {
    if i > 0 {
      StackTilesDisjoint(area, bottom, gap, masterW, n - 1, i - 1, j - 1);
    }
  }

  lemma StackTilesDisjoint(area: Area, bottom: int, gap: nat, masterW: nat, k: nat, i: nat, j: nat)
    requires i < j < k
    ensures Disjoint(StackTile(area, bottom, gap, masterW, k, i), StackTile(area, bottom, gap, masterW, k, j))
  {
    var h := StackHeight(area.height, gap, k);
    MulStep(i, j, h + gap);
    assert StackTile(area, bottom, gap, masterW, k, i) ==
        Area(area.x + masterW + gap, area.y + i * (h + gap), Max(area.width - masterW - gap, 0), h);
    assert StackTile(area, bottom, gap, masterW, k, j).y == area.y + j * (h + gap);
    hide StackTile, StackHeight;
  }

  lemma MulStep(a: nat, b: nat, c: nat)
    requires a < b
    ensures a * c + c <= b * c
  {
    MulMonotone(a + 1, b, c);
    assert (a + 1) * c == a * c + c;
  }

  lemma MulMonotone(a: nat, b: nat, c: nat)
    requires a <= b
    ensures a * c <= b * c
  {
  }

  /** A tile with any interior lies inside the area. */
  lemma TileInside(n: nat, area: Area, gap: nat, masterW: nat, i: nat)
    requires i < n && masterW <= area.width
    requires NonEmpty(TileAt(n, area, area.y + area.height, gap, masterW, i))
    ensures Inside(TileAt(n, area, area.y + area.height, gap, masterW, i), area)
  {
    if n > 1 && i > 0 {
      StackTileInside(area, gap, masterW, n - 1, i - 1);
    }
    hide StackTile;
  }

  lemma StackTileInside(area: Area, gap: nat, masterW: nat, k: nat, i: nat)
    requires i < k && NonEmpty(StackTile(area, area.y + area.height, gap, masterW, k, i))
    ensures Inside(StackTile(area, area.y + area.height, gap, masterW, k, i), area)
  {
    var h := StackHeight(area.height, gap, k);
    MulMonotone(0, i, h + gap);
    if i + 1 < k {
      StackFits(area.height, gap, k);
      MulMonotone(i, k - 1, h + gap);
    }
    hide StackHeight;
  }

  /** All but the last stack tile, with their gaps, fit above the last one. */
  lemma StackFits(height: nat, gap: nat, k: nat)
    requires k > 0 && StackHeight(height, gap, k) > 0
    ensures (k - 1) * (StackHeight(height, gap, k) + gap) + StackHeight(height, gap, k) <= height
  {
    var h := StackHeight(height, gap, k);
    var room := height - (k - 1) * gap;
    assert room > 0;
    assert k * h <= room;
    assert (k - 1) * (h + gap) + h == k * h + (k - 1) * gap;
  }

  /** Sum of the heights of the first `m` stack tiles. */
  ghost function StackSum(area: Area, bottom: int, gap: nat, masterW: nat, k: nat, m: nat): nat
    requires m <= k
  {
    if m == 0 then 0
    else StackSum(area, bottom, gap, masterW, k, m - 1) + StackTile(area, bottom, gap, masterW, k, m - 1).height
  }

  lemma {:induction false} StackSumOfEqualTiles(area: Area, bottom: int, gap: nat, masterW: nat, k: nat, m: nat)
    requires m < k
    ensures StackSum(area, bottom, gap, masterW, k, m) == m * StackHeight(area.height, gap, k)
  {
    if m > 0 {
      StackSumOfEqualTiles(area, bottom, gap, masterW, k, m - 1);
    }
  }

  /** Nothing is lost down the stack: neighbours are exactly `gap` apart, the last
      tile absorbs the division remainder less one gap, and unless that is cut off
      at zero the heights plus `k` gaps add up to the whole height. */
  lemma StackConserved(area: Area, gap: nat, masterW: nat, k: nat)
    requires k > 0 && (k - 1) * gap <= area.height
    ensures var bottom, room := area.y + area.height, area.height - (k - 1) * gap;
      && (forall i :: 0 <= i < k - 1 ==>
            StackTile(area, bottom, gap, masterW, k, i).y + StackTile(area, bottom, gap, masterW, k, i).height + gap
            == StackTile(area, bottom, gap, masterW, k, i + 1).y)
      && StackTile(area, bottom, gap, masterW, k, k - 1).height == Max(room / k + room % k - gap, 0)
      && (room / k + room % k >= gap ==> StackSum(area, bottom, gap, masterW, k, k) + k * gap == area.height)
  {
    var bottom, room := area.y + area.height, area.height - (k - 1) * gap;
    forall i | 0 <= i < k - 1
      ensures StackTile(area, bottom, gap, masterW, k, i).y + StackTile(area, bottom, gap, masterW, k, i).height + gap
              == StackTile(area, bottom, gap, masterW, k, i + 1).y
    {
      StackSpacing(area, bottom, gap, masterW, k, i);
    }
    LastTileHeight(area, gap, masterW, k);
    StackTotal(area, gap, masterW, k);
    hide *;
  }

  lemma StackTotal(area: Area, gap: nat, masterW: nat, k: nat)
    requires k > 0 && (k - 1) * gap <= area.height
    ensures var room := area.height - (k - 1) * gap;
      room / k + room % k >= gap ==> StackSum(area, area.y + area.height, gap, masterW, k, k) + k * gap == area.height
  {
    var bottom, room := area.y + area.height, area.height - (k - 1) * gap;
    var h := room / k;
    assert StackHeight(area.height, gap, k) == h;
    StackSumOfEqualTiles(area, bottom, gap, masterW, k, k - 1);
    LastTileHeight(area, gap, masterW, k);
    assert StackSum(area, bottom, gap, masterW, k, k)
           == (k - 1) * h + StackTile(area, bottom, gap, masterW, k, k - 1).height;
    hide StackTile, StackHeight, StackSum;
    DivisionSplit(room, k, gap);
  }

  lemma DivisionSplit(room: nat, k: nat, gap: nat)
    requires k > 0
    ensures (k - 1) * (room / k) + room / k + room % k == room
    ensures (k - 1) * gap + gap == k * gap
  {
  }

  lemma StackSpacing(area: Area, bottom: int, gap: nat, masterW: nat, k: nat, i: nat)
    requires i + 1 < k
    ensures StackTile(area, bottom, gap, masterW, k, i).y + StackTile(area, bottom, gap, masterW, k, i).height + gap
            == StackTile(area, bottom, gap, masterW, k, i + 1).y
  {
    var h := StackHeight(area.height, gap, k);
    hide StackHeight;
    assert (i + 1) * (h + gap) == i * (h + gap) + h + gap;
  }

  lemma LastTileHeight(area: Area, gap: nat, masterW: nat, k: nat)
    requires k > 0 && (k - 1) * gap <= area.height
    ensures var room := area.height - (k - 1) * gap;
      StackTile(area, area.y + area.height, gap, masterW, k, k - 1).height == Max(room / k + room % k - gap, 0)
  {
    var room := area.height - (k - 1) * gap;
    var h := StackHeight(area.height, gap, k);
    assert h == room / k;
    hide StackHeight;
    assert room == k * h + room % k;
    assert (k - 1) * (h + gap) == (k - 1) * h + (k - 1) * gap;
    assert k * h == (k - 1) * h + h;
  }

  /** Where the last of `k` stack tiles ends. */
  function StackEnd(area: Area, gap: nat, masterW: nat, k: nat): int
    requires k > 0
  {
    var t := StackTile(area, area.y + area.height, gap, masterW, k, k - 1);
    t.y + t.height
  }

  /** The last stack tile ends on the bottom edge of the area exactly when there is no gap and the
      gaps fit, or the gaps alone fill the height. */
  lemma EndsOnBottomExactly(area: Area, gap: nat, masterW: nat, k: nat)
    requires k > 0
    ensures StackEnd(area, gap, masterW, k) == area.y + area.height
      <==> (k - 1) * gap == area.height || (gap == 0 && (k - 1) * gap <= area.height)
  {
    StackEndIs(area, gap, masterW, k);
  }

  /** It ends one gap above the bottom edge exactly when its height is not cut off at zero. */
  lemma EndsOneGapAboveExactly(area: Area, gap: nat, masterW: nat, k: nat)
    requires k > 0
    ensures StackEnd(area, gap, masterW, k) == area.y + area.height - gap
      <==> (k - 1) * gap <= area.height
           && var room := area.height - (k - 1) * gap; room / k + room % k >= gap
  {
    StackEndIs(area, gap, masterW, k);
  }

  /** Where the stack ends, whether or not the last height is cut off and the gaps fit. */
  lemma StackEndIs(area: Area, gap: nat, masterW: nat, k: nat)
    requires k > 0
    ensures var room, end := area.height - (k - 1) * gap, StackEnd(area, gap, masterW, k) - area.y;
      if room < 0 then end == (k - 1) * gap
      else
        && end == (if room / k + room % k >= gap then area.height - gap else (k - 1) * gap + (k - 1) * (room / k))
        && (k - 1) * (room / k) + room / k + room % k == room && (k - 1) * (room / k) >= 0
  {
    var room, h := area.height - (k - 1) * gap, StackHeight(area.height, gap, k);
    assert (k - 1) * (h + gap) == (k - 1) * h + (k - 1) * gap;
    if room >= 0 {
      LastTileHeight(area, gap, masterW, k);
      assert h == room / k;
      MulMonotone(0, k - 1, room / k);
      assert k * (room / k) == (k - 1) * (room / k) + room / k;
    } else {
      assert h == 0;
    }
  }

  /** Two stack tiles ten pixels high with a gap of eight: the last one is empty and ends at nine,
      neither at ten nor at two. */
  lemma CutStackEndsElsewhere()
    ensures StackEnd(Area(0, 0, 10, 10), 8, 0, 2) == 9
  {
  }

  /** Nothing is lost across: master, gap and stack fill the width whenever they fit. */
  lemma WidthConserved(area: Area, bottom: int, gap: nat, masterW: nat, n: nat, i: nat)
    requires 0 < i < n && masterW + gap <= area.width
    ensures TileAt(n, area, bottom, gap, masterW, 0).width + gap + TileAt(n, area, bottom, gap, masterW, i).width ==
        area.width
    ensures TileAt(n, area, bottom, gap, masterW, i).x + TileAt(n, area, bottom, gap, masterW, i).width ==
        area.x + area.width
  {
    assert StackTile(area, bottom, gap, masterW, n - 1, i - 1).width == area.width - masterW - gap;
  }

  // ----- outputs -----

  /** Windows output `i` tiles, in master-and-stack order. */
  function VisibleIds(s: Wm, i: nat): seq<nat>
    requires i < |s.outputs|
  {
    Map(Filter(s.windows, (w: Window) => s.ShownBy(i, w) && !w.floating), (w: Window) => w.id)
  }

  /** The output's area less one gap on every side. */
  function InnerArea(o: Output, gap: nat): Area {
    var a := OutputArea(o);
    Area(a.x + gap, a.y + gap, Max(a.width - 2 * gap, 0), Max(a.height - 2 * gap, 0))
  }

  /** The active tag's master fraction; a tag outside the table, which no reachable state shows,
      would get the default. */
  function Fraction(s: Wm, i: nat): real
    requires i < |s.outputs|
  {
    var t := s.outputs[i].activeTag;
    if t < |s.tags| then s.tags[t].masterFraction else 0.55
  }

  function OutputTiles(s: Wm, c: Config, i: nat): seq<Tile>
    requires i < |s.outputs|
  {
    var a := InnerArea(s.outputs[i], c.gap);
    Tiles(VisibleIds(s, i), a, a.y + a.height, c.gap, Fraction(s, i))
  }

  function TilesUpTo(s: Wm, c: Config, k: nat): seq<Tile>
    requires k <= |s.outputs|
  {
    if k == 0 then [] else TilesUpTo(s, c, k - 1) + OutputTiles(s, c, k - 1)
  }

  function AllTiles(s: Wm, c: Config): seq<Tile> {
    TilesUpTo(s, c, |s.outputs|)
  }

  method ComputeAll(s: Wm, c: Config) returns (tiles: seq<Tile>)
    ensures tiles == AllTiles(s, c)
  {
    tiles := [];
    for i := 0 to |s.outputs|
      invariant tiles == TilesUpTo(s, c, i)
    {
      var a := InnerArea(s.outputs[i], c.gap);
      var more := ComputeTiling(VisibleIds(s, i), a, a.y + a.height, c.gap, Fraction(s, i));
      tiles := tiles + more;
    }
  }

  function GeometryOf(s: Wm, c: Config, id: nat): Option<Area> {
    var k := Position(AllTiles(s, c), (t: Tile) => t.0 == id);
    if k.Some? then Some(AllTiles(s, c)[k.value].1) else None
  }

  ghost predicate FractionsLegal(s: Wm) {
    forall t :: 0 <= t < |s.tags| ==> 0.1 <= s.tags[t].masterFraction <= 0.9
  }

  ghost predicate OutputsApart(s: Wm) {
    forall i, j :: 0 <= i < j < |s.outputs| ==> Disjoint(OutputArea(s.outputs[i]), OutputArea(s.outputs[j]))
  }

  /** Every non-empty one of the tiles lies in `a`. */
  ghost predicate AllInside(tiles: seq<Tile>, a: Area) {
    forall p :: 0 <= p < |tiles| && NonEmpty(tiles[p].1) ==> Inside(tiles[p].1, a)
  }

  /** The non-empty tiles of output `i` stay within that output's area. */
  lemma OutputTilesInside(s: Wm, c: Config, i: nat)
    requires FractionsLegal(s) && i < |s.outputs|
    ensures AllInside(OutputTiles(s, c, i), OutputArea(s.outputs[i]))
  {
    var a, tiles := InnerArea(s.outputs[i], c.gap), OutputTiles(s, c, i);
    MasterWidthBounded(a.width, Fraction(s, i));
    forall p | 0 <= p < |tiles| && NonEmpty(tiles[p].1) ensures Inside(tiles[p].1, OutputArea(s.outputs[i])) {
      TileInside(|VisibleIds(s, i)|, a, c.gap, MasterWidth(a.width, Fraction(s, i)), p);
    }
  }

  lemma TilesUpToStep(s: Wm, c: Config, k: nat)
    requires k <= |s.outputs|
    ensures TilesUpTo(s, c, 0) == []
    ensures k > 0 ==> TilesUpTo(s, c, k) == TilesUpTo(s, c, k - 1) + OutputTiles(s, c, k - 1)
  {
    hide OutputTiles;
  }

  lemma {:induction false} TileHasOutput(s: Wm, c: Config, k: nat, p: nat) returns (i: nat, q: nat)
    requires k <= |s.outputs| && p < |TilesUpTo(s, c, k)|
    ensures i < k && q < |OutputTiles(s, c, i)| && OutputTiles(s, c, i)[q] == TilesUpTo(s, c, k)[p]
  {
    hide *;
    TilesUpToStep(s, c, k);
    var m := |TilesUpTo(s, c, k - 1)|;
    if p < m {
      i, q := TileHasOutput(s, c, k - 1, p);
    } else {
      i, q := k - 1, p - m;
    }
  }

  /** No two tiles with an interior overlap. */
  ghost predicate Apart(tiles: seq<Tile>) {
    forall p, q :: 0 <= p < q < |tiles| && NonEmpty(tiles[p].1) && NonEmpty(tiles[q].1) ==>
        Disjoint(tiles[p].1, tiles[q].1)
  }

  lemma OutputTilesApart(s: Wm, c: Config, i: nat)
    requires i < |s.outputs|
    ensures Apart(OutputTiles(s, c, i))
  {
    var a, n := InnerArea(s.outputs[i], c.gap), |VisibleIds(s, i)|;
    forall p, q | 0 <= p < q < n ensures Disjoint(OutputTiles(s, c, i)[p].1, OutputTiles(s, c, i)[q].1) {
      TilesDisjoint(n, a, a.y + a.height, c.gap, MasterWidth(a.width, Fraction(s, i)), p, q);
    }
  }

  /** No tile of `before` meets one of `here`. */
  ghost predicate ApartFrom(before: seq<Tile>, here: seq<Tile>) {
    forall p, q :: 0 <= p < |before| && 0 <= q < |here| && NonEmpty(before[p].1) && NonEmpty(here[q].1)
      ==> Disjoint(before[p].1, here[q].1)
  }

  /** Tiles of different outputs do not meet. */
  lemma CrossDisjoint(s: Wm, c: Config, k: nat)
    requires FractionsLegal(s) && OutputsApart(s) && k < |s.outputs|
    ensures ApartFrom(TilesUpTo(s, c, k), OutputTiles(s, c, k))
  {
    hide TilesUpTo, OutputTiles, Disjoint, Inside, NonEmpty, OutputArea;
    var before, here := TilesUpTo(s, c, k), OutputTiles(s, c, k);
    OutputTilesInside(s, c, k);
    forall p, q | 0 <= p < |before| && 0 <= q < |here| && NonEmpty(before[p].1) && NonEmpty(here[q].1)
      ensures Disjoint(before[p].1, here[q].1)
    {
      var i, r := TileHasOutput(s, c, k, p);
      OutputTilesInside(s, c, i);
      assert Inside(OutputTiles(s, c, i)[r].1, OutputArea(s.outputs[i]));
      InsideDisjoint(before[p].1, here[q].1, OutputArea(s.outputs[i]), OutputArea(s.outputs[k]));
    }
  }

  lemma InsideDisjoint(t: Area, u: Area, a: Area, b: Area)
    requires Inside(t, a) && Inside(u, b) && Disjoint(a, b)
    ensures Disjoint(t, u)
  {
  }

  lemma AppendApart(before: seq<Tile>, here: seq<Tile>)
    requires Apart(before) && Apart(here) && ApartFrom(before, here)
    ensures Apart(before + here)
  {
  }

  lemma {:induction false} TilesUpToApart(s: Wm, c: Config, k: nat)
    requires FractionsLegal(s) && OutputsApart(s) && k <= |s.outputs|
    ensures Apart(TilesUpTo(s, c, k))
  {
    hide TilesUpTo, OutputTiles;
    TilesUpToStep(s, c, k);
    if k > 0 {
      hide *;
      TilesUpToApart(s, c, k - 1);
      OutputTilesApart(s, c, k - 1);
      CrossDisjoint(s, c, k - 1);
      AppendApart(TilesUpTo(s, c, k - 1), OutputTiles(s, c, k - 1));
    }
  }

  /** No two tiles anywhere overlap when the outputs themselves do not. */
  lemma NoOverlapAnywhere(s: Wm, c: Config)
    requires FractionsLegal(s) && OutputsApart(s)
    ensures Apart(AllTiles(s, c))
  {
    TilesUpToApart(s, c, |s.outputs|);
  }

  // ----- the layout by value -----

  /** The greatest whole number not above `x`. */
  predicate FloorOf(m: nat, x: real) {
    m as real <= x && x < (m + 1) as real
  }

  lemma MasterWidthIs(width: nat, fraction: real)
    requires 0.0 <= fraction
    ensures FloorOf(MasterWidth(width, fraction), width as real * fraction)
  {
  }

  /** The greatest height `k` tiles can share with a gap between any two, or none if the gaps do not fit. */
  predicate SharedHeight(h: nat, height: nat, gap: nat, k: nat) {
    if (k - 1) * gap <= height then k * h + (k - 1) * gap <= height && height < k * (h + 1) + (k - 1) * gap
    else h == 0
  }

  lemma StackHeightIs(height: nat, gap: nat, k: nat)
    requires k > 0
    ensures SharedHeight(StackHeight(height, gap, k), height, gap, k)
  {
    var room := height - (k - 1) * gap;
    var h := Max(room, 0) / k;
    if room >= 0 {
      assert k * h <= room < k * h + k;
      assert k * (h + 1) == k * h + k;
    }
  }

  /** The place tiles are laid out in: the usable area if the output reported one, else the whole output, less one
      gap on every side. */
  ghost predicate LaidOutIn(o: Output, gap: nat, a: Area) {
    var usable := o.usableW > 0 || o.usableH > 0;
    && a.x == (if usable then o.usableX else o.x) + gap
    && a.y == (if usable then o.usableY else o.y) + gap
    && a.width == Max((if usable then o.usableW else o.width) - 2 * gap, 0)
    && a.height == Max((if usable then o.usableH else o.height) - 2 * gap, 0)
  }

  /** The tiles of one output. A single one fills the place. Of several the first is the master, at the left over the
      full height, as wide as its share of the width; the others are stacked to its right, a gap apart, sharing
      the height, and the last one gets the rest, less one gap. */
  ghost predicate MasterAndStack(tiles: seq<Tile>, a: Area, gap: nat, fraction: real) {
    var n := |tiles|;
    && (n == 1 ==> tiles[0].1 == a)
    && (n >= 2 ==>
          var m, stack := tiles[0].1.width, tiles[1..];
          && FloorOf(m, a.width as real * fraction)
          && tiles[0].1 == Area(a.x, a.y, m, a.height)
          && stack[0].1.y == a.y
          && (forall k :: 0 <= k < n - 1 ==>
                stack[k].1.x == a.x + m + gap && stack[k].1.width == Max(a.width - m - gap, 0))
          && (forall k :: 0 <= k < n - 2 ==>
                && SharedHeight(stack[k].1.height, a.height, gap, n - 1)
                && stack[k + 1].1.y == stack[k].1.y + stack[k].1.height + gap)
          && stack[n - 2].1.height == Max(a.y + a.height - gap - stack[n - 2].1.y, 0))
  }

  lemma TilesAre(s: Wm, c: Config, i: nat)
    requires FractionsLegal(s) && i < |s.outputs| && s.outputs[i].activeTag < |s.tags|
    ensures var a := InnerArea(s.outputs[i], c.gap);
      && LaidOutIn(s.outputs[i], c.gap, a)
      && MasterAndStack(OutputTiles(s, c, i), a, c.gap, s.tags[s.outputs[i].activeTag].masterFraction)
  {
    hide *;
    ActiveFraction(s, i);
    LaidOutByValue(s.outputs[i], c.gap);
    OutputTilesAt(s, c, i);
    StackByWidth(OutputTiles(s, c, i), InnerArea(s.outputs[i], c.gap), c.gap, Fraction(s, i));
  }

  lemma TilesStack(ids: seq<nat>, area: Area, bottom: int, gap: nat, fraction: real)
    requires bottom == area.y + area.height && 0.0 <= fraction
    ensures MasterAndStack(Tiles(ids, area, bottom, gap, fraction), area, gap, fraction)
  {
    var tiles := Tiles(ids, area, bottom, gap, fraction);
    hide MasterWidth, TileAt, MasterAndStack;
    StackByWidth(tiles, area, gap, fraction);
  }

  lemma StackByWidth(tiles: seq<Tile>, a: Area, gap: nat, fraction: real)
    requires 0.0 <= fraction
    requires forall k :: 0 <= k < |tiles| ==>
               tiles[k].1 == TileAt(|tiles|, a, a.y + a.height, gap, MasterWidth(a.width, fraction), k)
    ensures MasterAndStack(tiles, a, gap, fraction)
  {
    hide *;
    MasterWidthIs(a.width, fraction);
    StackIs(tiles, a, gap, fraction, MasterWidth(a.width, fraction));
  }

  lemma ActiveFraction(s: Wm, i: nat)
    requires FractionsLegal(s) && i < |s.outputs| && s.outputs[i].activeTag < |s.tags|
    ensures 0.0 <= s.tags[s.outputs[i].activeTag].masterFraction == Fraction(s, i)
  {
  }

  lemma LaidOutByValue(o: Output, gap: nat)
    ensures LaidOutIn(o, gap, InnerArea(o, gap))
  {
  }

  lemma OutputTilesAt(s: Wm, c: Config, i: nat)
    requires i < |s.outputs|
    ensures var a, tiles := InnerArea(s.outputs[i], c.gap), OutputTiles(s, c, i);
      forall k :: 0 <= k < |tiles| ==>
        tiles[k].1 == TileAt(|tiles|, a, a.y + a.height, c.gap, MasterWidth(a.width, Fraction(s, i)), k)
  {
    hide VisibleIds, InnerArea, Fraction, TileAt, MasterWidth;
  }

  lemma StackIs(tiles: seq<Tile>, a: Area, gap: nat, fraction: real, m: nat)
    requires FloorOf(m, a.width as real * fraction)
    requires forall k :: 0 <= k < |tiles| ==> tiles[k].1 == TileAt(|tiles|, a, a.y + a.height, gap, m, k)
    ensures MasterAndStack(tiles, a, gap, fraction)
  {
    if |tiles| >= 2 {
      var stack := tiles[1..];
      forall k | 0 <= k < |stack| ensures stack[k].1 == StackTile(a, a.y + a.height, gap, m, |stack|, k) {
        assert stack[k] == tiles[k + 1];
      }
      assert tiles[0].1 == Area(a.x, a.y, m, a.height);
      SeveralStack(tiles, a, gap, fraction, m);
    }
    hide TileAt, FloorOf, StackTile, SharedHeight;
  }

  lemma SeveralStack(tiles: seq<Tile>, a: Area, gap: nat, fraction: real, m: nat)
    requires |tiles| >= 2 && tiles[0].1 == Area(a.x, a.y, m, a.height) && FloorOf(m, a.width as real * fraction)
    requires var stack := tiles[1..];
      forall k :: 0 <= k < |stack| ==> stack[k].1 == StackTile(a, a.y + a.height, gap, m, |stack|, k)
    ensures MasterAndStack(tiles, a, gap, fraction)
  {
    hide *;
    var stack, n, bottom := tiles[1..], |tiles|, a.y + a.height;
    StackHeightIs(a.height, gap, n - 1);
    forall k | 0 <= k < n - 1
      ensures stack[k].1.x == a.x + m + gap && stack[k].1.width == Max(a.width - m - gap, 0)
      ensures k == 0 ==> stack[k].1.y == a.y
      ensures k == n - 2 ==> stack[k].1.height == Max(bottom - gap - stack[k].1.y, 0)
      ensures k < n - 2 ==> stack[k].1.height == StackHeight(a.height, gap, n - 1)
      ensures k < n - 2 ==> stack[k + 1].1.y == stack[k].1.y + stack[k].1.height + gap
    {
      StackTileIs(a, bottom, gap, m, n - 1, k);
      if k < n - 2 { StackSpacing(a, bottom, gap, m, n - 1, k); }
    }
    StackByParts(tiles, a, gap, fraction, StackHeight(a.height, gap, n - 1), m);
  }

  lemma StackTileIs(a: Area, bottom: int, gap: nat, m: nat, n: nat, k: nat)
    requires k < n
    ensures var t := StackTile(a, bottom, gap, m, n, k);
      && t.x == a.x + m + gap && t.width == Max(a.width - m - gap, 0) && (k == 0 ==> t.y == a.y)
      && t.height == if k + 1 == n then Max(bottom - gap - t.y, 0) else StackHeight(a.height, gap, n)
  {
    hide StackHeight;
  }

  lemma StackByParts(tiles: seq<Tile>, a: Area, gap: nat, fraction: real, h: nat, m: nat)
    requires |tiles| >= 2 && tiles[0].1 == Area(a.x, a.y, m, a.height) && FloorOf(m, a.width as real * fraction)
    requires var n, stack := |tiles|, tiles[1..];
      && SharedHeight(h, a.height, gap, n - 1) && stack[0].1.y == a.y
      && (forall k :: 0 <= k < n - 1 ==>
            stack[k].1.x == a.x + m + gap && stack[k].1.width == Max(a.width - m - gap, 0))
      && (forall k :: 0 <= k < n - 2 ==> stack[k].1.height == h)
      && (forall k :: 0 <= k < n - 2 ==> stack[k + 1].1.y == stack[k].1.y + stack[k].1.height + gap)
      && stack[n - 2].1.height == Max(a.y + a.height - gap - stack[n - 2].1.y, 0)
    ensures MasterAndStack(tiles, a, gap, fraction)
  {
    var n, stack := |tiles|, tiles[1..];
    hide FloorOf;
    forall k | 0 <= k < n - 2 ensures SharedHeight(stack[k].1.height, a.height, gap, n - 1) {
      assert stack[k].1.height == h;
      hide SharedHeight;
    }
    hide SharedHeight;
  }

  /** Tiles follow the state's order: the k-th tile of output `i` belongs to the k-th window it shows that does
      not float. */
  lemma TileOrder(s: Wm, c: Config, i: nat) returns (at: seq<nat>)
    requires i < |s.outputs|
    ensures |at| == |OutputTiles(s, c, i)|
    ensures forall k :: 0 <= k < |at| ==>
              && at[k] < |s.windows| && OutputTiles(s, c, i)[k].0 == s.windows[at[k]].id
              && s.ShownBy(i, s.windows[at[k]]) && !s.windows[at[k]].floating
    ensures forall j, k :: 0 <= j < k < |at| ==> at[j] < at[k]
    ensures forall w :: 0 <= w < |s.windows| && s.ShownBy(i, s.windows[w]) && !s.windows[w].floating ==> w in at
  {
    var p := (w: Window) => s.ShownBy(i, w) && !w.floating;
    at := FilterKeepsOrder(s.windows, p);
    var shown := Filter(s.windows, p);
    FilterCongruent(s.windows, p, (w: Window) => s.ShownBy(i, w) && !w.floating);
    assert VisibleIds(s, i) == Map(shown, (w: Window) => w.id);
    hide Filter, InnerArea, Tiles;
    assert forall w :: 0 <= w < |s.windows| && p(s.windows[w]) ==> w in at;
  }

  // ----- what the layout depends on -----

  /** The layout sees outputs but for their focus, tags, and of a window its id, tag and floating flag. */
  ghost predicate SameLayoutInputs(s: Wm, r: Wm) {
    && r.tags == s.tags && |r.outputs| == |s.outputs| && |r.windows| == |s.windows|
    && (forall i :: 0 <= i < |s.outputs| ==>
          r.outputs[i] == s.outputs[i].(focusedWindow := r.outputs[i].focusedWindow))
    && (forall k :: 0 <= k < |s.windows| ==>
          r.windows[k].id == s.windows[k].id && r.windows[k].tag == s.windows[k].tag
          && r.windows[k].floating == s.windows[k].floating)
  }

  lemma {:induction false} FilteredIdsSame(a: seq<Window>, b: seq<Window>, p: Window -> bool, q: Window -> bool)
    requires |a| == |b| && forall k :: 0 <= k < |a| ==> a[k].id == b[k].id && p(a[k]) == q(b[k])
    ensures Map(Filter(a, p), (w: Window) => w.id) == Map(Filter(b, q), (w: Window) => w.id)
  {
    if a != [] {
      FilteredIdsSame(a[..|a| - 1], b[..|b| - 1], p, q);
      var fa, fb := Filter(a[..|a| - 1], p), Filter(b[..|b| - 1], q);
      assert |fa| == |fb| by {
        assert |Map(fa, (w: Window) => w.id)| == |Map(fb, (w: Window) => w.id)|;
      }
      forall k | 0 <= k < |fa| ensures fa[k].id == fb[k].id {
        assert Map(fa, (w: Window) => w.id)[k] == Map(fb, (w: Window) => w.id)[k];
      }
    }
  }

  lemma SameOutputTiles(s: Wm, r: Wm, c: Config, i: nat)
    requires SameLayoutInputs(s, r) && i < |s.outputs| == |r.outputs|
    ensures OutputTiles(r, c, i) == OutputTiles(s, c, i)
  {
    hide VisibleIds, InnerArea, Fraction, Tiles, SameLayoutInputs;
    SameVisibleIds(s, r, i);
    SameFrame(s, r, c, i);
  }

  lemma SameFrame(s: Wm, r: Wm, c: Config, i: nat)
    requires SameLayoutInputs(s, r) && i < |s.outputs| == |r.outputs|
    ensures InnerArea(r.outputs[i], c.gap) == InnerArea(s.outputs[i], c.gap) && Fraction(r, i) == Fraction(s, i)
  {
    assert r.outputs[i] == s.outputs[i].(focusedWindow := r.outputs[i].focusedWindow);
  }

  lemma SameVisibleIds(s: Wm, r: Wm, i: nat)
    requires SameLayoutInputs(s, r) && i < |s.outputs| == |r.outputs|
    ensures VisibleIds(r, i) == VisibleIds(s, i)
  {
    var p, q := (w: Window) => s.ShownBy(i, w) && !w.floating, (w: Window) => r.ShownBy(i, w) && !w.floating;
    assert forall k :: 0 <= k < |s.windows| ==> p(s.windows[k]) == q(r.windows[k]);
    hide Filter;
    FilteredIdsSame(s.windows, r.windows, p, q);
  }

  lemma {:induction false} SameTilesUpTo(s: Wm, r: Wm, c: Config, k: nat)
    requires SameLayoutInputs(s, r) && k <= |s.outputs| == |r.outputs|
    ensures TilesUpTo(r, c, k) == TilesUpTo(s, c, k)
  {
    hide *;
    TilesUpToStep(s, c, k);
    TilesUpToStep(r, c, k);
    if k > 0 {
      SameTilesUpTo(s, r, c, k - 1);
      SameOutputTiles(s, r, c, k - 1);
    }
  }

  /** Focus, fullscreen, minimizing and render nodes do not move a tile. */
  lemma SameLayout(s: Wm, r: Wm, c: Config)
    requires SameLayoutInputs(s, r)
    ensures AllTiles(r, c) == AllTiles(s, c)
  {
    SameTilesUpTo(s, r, c, |s.outputs|);
    hide TilesUpTo;
  }

  // ----- which windows are listed -----

  ghost predicate DistinctIds(s: Wm) {
    forall i, j :: 0 <= i < j < |s.windows| ==> s.windows[i].id != s.windows[j].id
  }

  /** Filtering keeps different windows' ids different. */
  lemma {:induction false} FilteredIdsDistinct(ws: seq<Window>, p: Window -> bool)
    requires forall i, j :: 0 <= i < j < |ws| ==> ws[i].id != ws[j].id
    ensures forall i, j :: 0 <= i < j < |Filter(ws, p)| ==> Filter(ws, p)[i].id != Filter(ws, p)[j].id
  {
    if ws != [] {
      FilteredIdsDistinct(ws[..|ws| - 1], p);
    }
  }

  ghost predicate IdsDistinct(tiles: seq<Tile>) {
    forall p, q :: 0 <= p < q < |tiles| ==> tiles[p].0 != tiles[q].0
  }

  lemma {:induction false} TilesUpToListsOnce(s: Wm, c: Config, k: nat)
    requires k <= |s.outputs| && DistinctIds(s)
    ensures IdsDistinct(TilesUpTo(s, c, k))
    ensures forall p :: 0 <= p < |TilesUpTo(s, c, k)| ==> ListedFrom(s, k, TilesUpTo(s, c, k)[p].0)
  {
    hide TilesUpTo, OutputTiles;
    TilesUpToStep(s, c, k);
    if k > 0 {
      hide *;
      var before, here := TilesUpTo(s, c, k - 1), OutputTiles(s, c, k - 1);
      TilesUpToListsOnce(s, c, k - 1);
      OutputTilesFromWindows(s, c, k - 1);
      AppendListed(s, k, before, here);
    }
  }

  lemma AppendListed(s: Wm, k: nat, before: seq<Tile>, here: seq<Tile>)
    requires 0 < k <= |s.outputs| && DistinctIds(s) && IdsDistinct(before) && IdsDistinct(here)
    requires forall p :: 0 <= p < |before| ==> ListedFrom(s, k - 1, before[p].0)
    requires forall p :: 0 <= p < |here| ==> ShownId(s, k - 1, here[p].0)
    ensures IdsDistinct(before + here)
    ensures forall p :: 0 <= p < |before + here| ==> ListedFrom(s, k, (before + here)[p].0)
  {
    var all := before + here;
    forall p, q | 0 <= p < |before| && 0 <= q < |here| ensures before[p].0 != here[q].0 {
      assert ListedFrom(s, k - 1, before[p].0) && ShownId(s, k - 1, here[q].0);
    }
    forall p | 0 <= p < |all| ensures ListedFrom(s, k, all[p].0) {
      if p < |before| {
        assert ListedFrom(s, k - 1, before[p].0);
      } else {
        assert ShownId(s, k - 1, here[p - |before|].0);
      }
    }
  }

  /** `id` is the id of a visible non-floating window of one of the first `k` outputs. */
  ghost predicate ListedFrom(s: Wm, k: nat, id: nat) {
    exists j :: 0 <= j < |s.windows| && s.windows[j].id == id && !s.windows[j].floating
                && s.IsVisible(s.windows[j]) && s.TagOwner(s.windows[j].tag).value < k
  }

  /** `id` is the id of a non-floating window output `i` shows. */
  ghost predicate ShownId(s: Wm, i: nat, id: nat)
    requires i < |s.outputs|
  {
    exists j :: 0 <= j < |s.windows| && s.windows[j].id == id && !s.windows[j].floating && s.ShownBy(i, s.windows[j])
  }

  lemma OutputTilesFromWindows(s: Wm, c: Config, i: nat)
    requires i < |s.outputs|
    ensures forall p :: 0 <= p < |OutputTiles(s, c, i)| ==> ShownId(s, i, OutputTiles(s, c, i)[p].0)
    ensures DistinctIds(s) ==> IdsDistinct(OutputTiles(s, c, i))
  {
    if DistinctIds(s) {
      FilteredIdsDistinct(s.windows, (w: Window) => s.ShownBy(i, w) && !w.floating);
    }
    var shown := Filter(s.windows, (w: Window) => s.ShownBy(i, w) && !w.floating);
    forall p | 0 <= p < |OutputTiles(s, c, i)| ensures ShownId(s, i, OutputTiles(s, c, i)[p].0) {
      assert shown[p] in s.windows;
    }
  }

  lemma {:induction false} VisibleIsListed(s: Wm, c: Config, k: nat, i: nat, j: nat) returns (p: nat)
    requires i < k <= |s.outputs| && j < |s.windows| && !s.windows[j].floating && s.ShownBy(i, s.windows[j])
    ensures p < |TilesUpTo(s, c, k)| && TilesUpTo(s, c, k)[p].0 == s.windows[j].id
  {
    hide *;
    TilesUpToStep(s, c, k);
    if i < k - 1 {
      p := VisibleIsListed(s, c, k - 1, i, j);
    } else {
      var q := VisibleInOutput(s, c, i, j);
      p := |TilesUpTo(s, c, k - 1)| + q;
    }
  }

  lemma VisibleInOutput(s: Wm, c: Config, i: nat, j: nat) returns (q: nat)
    requires i < |s.outputs| && j < |s.windows| && !s.windows[j].floating && s.ShownBy(i, s.windows[j])
    ensures q < |OutputTiles(s, c, i)| && OutputTiles(s, c, i)[q].0 == s.windows[j].id
  {
    var shown := Filter(s.windows, (w: Window) => s.ShownBy(i, w) && !w.floating);
    assert s.windows[j] in shown;
    q :| 0 <= q < |shown| && shown[q] == s.windows[j];
  }

  /** The tiled windows are exactly the visible non-floating ones, each listed once. */
  lemma ListsEachVisibleWindowOnce(s: Wm, c: Config)
    requires DistinctIds(s)
    ensures forall p, q :: 0 <= p < q < |AllTiles(s, c)| ==> AllTiles(s, c)[p].0 != AllTiles(s, c)[q].0
    ensures forall j :: 0 <= j < |s.windows| ==>
              ((exists p :: 0 <= p < |AllTiles(s, c)| && AllTiles(s, c)[p].0 == s.windows[j].id)
               <==> s.IsVisible(s.windows[j]) && !s.windows[j].floating)
  {
    TilesUpToListsOnce(s, c, |s.outputs|);
    assert forall p :: 0 <= p < |AllTiles(s, c)| ==> ListedFrom(s, |s.outputs|, AllTiles(s, c)[p].0);
    forall j | 0 <= j < |s.windows| && s.IsVisible(s.windows[j]) && !s.windows[j].floating
      ensures exists p :: 0 <= p < |AllTiles(s, c)| && AllTiles(s, c)[p].0 == s.windows[j].id
    {
      var p := VisibleIsListed(s, c, |s.outputs|, s.TagOwner(s.windows[j].tag).value, j);
      assert AllTiles(s, c)[p].0 == s.windows[j].id;
    }
  }
}

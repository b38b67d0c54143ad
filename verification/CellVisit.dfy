/** Visiting the grid cells around a point: cell addresses, the small rectangle, the octagon. */
module CellVisit {

  const MAX_NUMBER_OF_GRIDS: nat := 64
  const MAX_NUMBER_OF_CELLS: nat := 8
  const TOTAL_NUMBER_OF_CELLS_PER_MAP: nat := MAX_NUMBER_OF_GRIDS * MAX_NUMBER_OF_CELLS
  const UINT32_SIZE: nat := 0x1_0000_0000

  datatype CellPair = CellPair(x: nat, y: nat)
  {
    predicate OnMap() { x < TOTAL_NUMBER_OF_CELLS_PER_MAP && y < TOTAL_NUMBER_OF_CELLS_PER_MAP }

    function Normalize(): (p: CellPair)
      ensures p.OnMap()
    {
      CellPair(if x < TOTAL_NUMBER_OF_CELLS_PER_MAP then x else TOTAL_NUMBER_OF_CELLS_PER_MAP - 1,
               if y < TOTAL_NUMBER_OF_CELLS_PER_MAP then y else TOTAL_NUMBER_OF_CELLS_PER_MAP - 1)
    }
  }

  // ----- cell addresses -----

  /** A field of six bits. */
  function SixBits(n: nat): nat { n % 64 }

  /** The bit fields of Cell without `reserved`, which is always 0. */
  datatype Cell = Cell(gridX: nat, gridY: nat, cellX: nat, cellY: nat, nocreate: bool)
  {
    function Pair(): CellPair {
      CellPair(gridX * MAX_NUMBER_OF_CELLS + cellX, gridY * MAX_NUMBER_OF_CELLS + cellY)
    }
  }

  function MakeCell(p: CellPair, nocreate: bool): Cell {
    Cell(SixBits(p.x / MAX_NUMBER_OF_CELLS), SixBits(p.y / MAX_NUMBER_OF_CELLS),
         SixBits(p.x % MAX_NUMBER_OF_CELLS), SixBits(p.y % MAX_NUMBER_OF_CELLS), nocreate)
  }

  lemma Address(n: nat)
    ensures SixBits(n / MAX_NUMBER_OF_CELLS) * MAX_NUMBER_OF_CELLS + SixBits(n % MAX_NUMBER_OF_CELLS)
            == n % TOTAL_NUMBER_OF_CELLS_PER_MAP
  {
    var grid, cell := n / 8, n % 8;
    var low := grid % 64 * 8 + cell;
    assert n == grid / 64 * 512 + low;
    Remainder(n, grid / 64, low);
  }

  lemma Remainder(n: nat, k: nat, low: nat)
    requires n == k * 512 + low && low < 512
    ensures n % 512 == low
  {
  }

  /** A cell leads back to its pair exactly when the pair is on the map. */
  lemma CellRoundTrip(p: CellPair, nocreate: bool)
    ensures MakeCell(p, nocreate).Pair() == p <==> p.OnMap()
  {
    Address(p.x);
    Address(p.y);
  }

  /** Different cells of the map have different addresses. */
  lemma CellsDiffer(p: CellPair, q: CellPair, nocreate: bool)
    requires p.OnMap() && q.OnMap() && p != q
    ensures MakeCell(p, nocreate) != MakeCell(q, nocreate)
  {
    CellRoundTrip(p, nocreate);
    CellRoundTrip(q, nocreate);
  }

  // ----- regions -----

  predicate InRectangle(low: CellPair, high: CellPair, p: CellPair) {
    low.x <= p.x <= high.x && low.y <= p.y <= high.y
  }

  /** The rectangle without a triangle of `shift` cells at each corner. */
  predicate InOctagon(low: CellPair, high: CellPair, shift: nat, p: CellPair) {
    && InRectangle(low, high, p)
    && (p.x - low.x) + (p.y - low.y) >= shift
    && (p.x - low.x) + (high.y - p.y) >= shift
    && (high.x - p.x) + (p.y - low.y) >= shift
    && (high.x - p.x) + (high.y - p.y) >= shift
  }

  ghost predicate Distinct(visited: seq<CellPair>) {
    forall i, j :: 0 <= i < j < |visited| ==> visited[i] != visited[j]
  }

  /** The shift of the code in exact arithmetic: 0.3 times the width less a half, rounded up. */
  function XShift(width: int): int {
    -(-(width as real * 0.3 - 0.5)).Floor
  }

  lemma XShiftBounds(width: nat)
    ensures XShift(width) == (3 * width + 4) / 10
    ensures 2 * XShift(width) <= width + 1
    ensures width > 4 ==> 1 <= XShift(width) && 2 * XShift(width) <= width
    ensures width <= 18 ==> XShift(width) <= 5
  {
    var r := -(width as real * 0.3 - 0.5);
    assert r == (5 - 3 * width) as real / 10.0;
    var k := -((3 * width + 4) / 10);
    assert k as real <= r < k as real + 1.0;
  }

  // ----- the octagon -----

  function Strip(low: CellPair, high: CellPair, xStart: nat, x: int, p: CellPair): bool {
    xStart <= p.x < x && low.y <= p.y <= high.y
  }

  /** The border columns of the steps before `step`. */
  predicate Border(low: CellPair, high: CellPair, xStart: nat, xEnd: nat, step: nat, p: CellPair) {
    || (p.x < xStart && xStart - p.x < step && low.y + (xStart - p.x) <= p.y <= high.y - (xStart - p.x))
    || (p.x > xEnd && p.x - xEnd < step && low.y + (p.x - xEnd) <= p.y <= high.y - (p.x - xEnd))
  }

  method VisitStrip(low: CellPair, high: CellPair, xStart: nat, xEnd: nat) returns (visited: seq<CellPair>)
    requires xStart <= xEnd + 1
    ensures Distinct(visited)
    ensures forall p :: p in visited <==> Strip(low, high, xStart, xEnd + 1, p)
  {
    visited := [];
    var x := xStart;
    while x <= xEnd
      invariant xStart <= x <= xEnd + 1
      invariant Distinct(visited)
      invariant forall p :: p in visited <==> Strip(low, high, xStart, x, p)
    {
      var y := low.y;
      while y <= high.y
        invariant low.y <= y <= (if low.y <= high.y then high.y + 1 else low.y)
        invariant Distinct(visited)
        invariant forall p :: p in visited <==> Strip(low, high, xStart, x, p) || (p.x == x && low.y <= p.y < y)
      {
        visited := visited + [CellPair(x, y)];
        y := y + 1;
      }
      x := x + 1;
    }
  }

  /** y_start -= 1 and y_end += 1 on uint32. */
  function Down(n: nat): nat { (n + UINT32_SIZE - 1) % UINT32_SIZE }

  predicate NoneIn(visited: seq<CellPair>, left: nat, right: nat) {
    forall p :: p in visited ==> p.x != left && p.x != right
  }

  /** The strip of one step: both columns from top to bottom, with the unsigned countdown. */
  method VisitColumns(visited: seq<CellPair>, left: nat, right: nat, yStart: nat, yEnd: nat)
    returns (more: seq<CellPair>)
    requires left < right && 1 <= yEnd && yStart < UINT32_SIZE
    ensures Distinct(visited) && NoneIn(visited, left, right) ==> Distinct(more)
    ensures forall p :: p in more <==> p in visited || ((p.x == left || p.x == right) && yEnd <= p.y <= yStart)
  {
    more := visited;
    var y := yStart;
    while y >= yEnd
      invariant y <= yStart && (y >= yEnd - 1 || y == yStart)
      invariant Distinct(visited) && NoneIn(visited, left, right) ==> Distinct(more)
      invariant forall p :: p in more <==>
        p in visited || ((p.x == left || p.x == right) && yEnd <= p.y && y < p.y <= yStart)
      decreases y
    {
      more := more + [CellPair(left, y)];
      more := more + [CellPair(right, y)];
      y := Down(y);
    }
  }

  /** The octagon is the central strip and the columns of all steps. */
  lemma OctagonParts(low: CellPair, high: CellPair, shift: nat, p: CellPair)
    requires low.x <= high.x && 2 * shift <= high.x - low.x + 1
    ensures InOctagon(low, high, shift, p)
            <==> || Strip(low, high, low.x + shift, high.x - shift + 1, p)
                 || Border(low, high, low.x + shift, high.x - shift, shift + 1, p)
  {
  }

  /** The border loop of VisitCircle: one pair of columns per step, each two cells shorter. */
  method VisitBorders(low: CellPair, high: CellPair, xShift: nat, strip: seq<CellPair>) returns (visited: seq<CellPair>)
    requires low.OnMap() && high.OnMap() && low.x + xShift <= high.x - xShift + 1
    requires Distinct(strip) && forall p :: p in strip <==> Strip(low, high, low.x + xShift, high.x - xShift + 1, p)
    ensures xShift <= high.y ==> Distinct(visited)
    ensures xShift <= high.y ==> forall p :: p in visited <==>
              p in strip || Border(low, high, low.x + xShift, high.x - xShift, xShift + 1, p)
    ensures xShift > high.y ==> exists p :: p in visited && p.y == UINT32_SIZE - 1
  {
    var xStart, xEnd := low.x + xShift, high.x - xShift;
    visited := strip;
    var yStart, yEnd := high.y, low.y;
    var step := 1;
    while step <= xStart - low.x
      invariant 1 <= step <= xShift + 1
      invariant yEnd == low.y + step - 1
      invariant 0 <= yStart < UINT32_SIZE
      invariant step <= high.y + 1 ==> yStart == high.y - (step - 1)
      invariant step <= high.y + 1 ==> Distinct(visited)
      invariant step <= high.y + 1 ==> forall p :: p in visited <==>
          p in strip || Border(low, high, xStart, xEnd, step, p)
      invariant step > high.y + 1 ==> exists p :: p in visited && p.y == UINT32_SIZE - 1
      decreases xShift - step
    {
      yEnd := yEnd + 1;
      yStart := Down(yStart);
      visited := VisitColumns(visited, xStart - step, xEnd + step, yStart, yEnd);
      assert step == high.y + 1 ==> CellPair(xStart - step, UINT32_SIZE - 1) in visited;
      step := step + 1;
    }
  }

  /** VisitCircle after its shift is known.  With a shift above the upper border the countdown
      wraps around and runs off the map; otherwise exactly the octagon is visited, each cell once. */
  method FillOctagon(low: CellPair, high: CellPair, xShift: int) returns (visited: seq<CellPair>)
    requires low.OnMap() && high.OnMap() && low.x <= high.x
    requires 2 * xShift <= high.x - low.x + 1
    ensures xShift < 0 ==> visited == []
    ensures 0 <= xShift <= high.y ==> Distinct(visited)
    ensures 0 <= xShift <= high.y ==> forall p :: p in visited <==> InOctagon(low, high, xShift, p)
    ensures xShift > high.y ==> exists p :: p in visited && p.y == UINT32_SIZE - 1
  {
    visited := [];
    if xShift < 0 {
      return;
    }
    forall p
      ensures InOctagon(low, high, xShift, p)
              <==> || Strip(low, high, low.x + xShift, high.x - xShift + 1, p)
                   || Border(low, high, low.x + xShift, high.x - xShift, xShift + 1, p)
    {
      OctagonParts(low, high, xShift, p);
    }
    visited := VisitStrip(low, high, low.x + xShift, high.x - xShift);
    if xShift == 0 {
      return;
    }
    visited := VisitBorders(low, high, xShift, visited);
  }

  /** The exact condition: no countdown wraps if and only if the shift is within the upper border. */
  method VisitCircle(low: CellPair, high: CellPair) returns (visited: seq<CellPair>)
    requires low.OnMap() && high.OnMap() && low.x <= high.x
    ensures var shift := XShift(high.x - low.x);
            && shift >= 0
            && (shift <= high.y <==> forall p :: p in visited ==> p.OnMap())
            && (shift <= high.y ==> Distinct(visited) && forall p :: p in visited <==> InOctagon(low, high, shift, p))
  {
    XShiftBounds(high.x - low.x);
    visited := FillOctagon(low, high, XShift(high.x - low.x));
  }

  // ----- Cell::Visit -----

  /** The two ways a search around a standing cell can go. */
  predicate NeedsCircle(low: CellPair, high: CellPair) {
    high.x - low.x > 4 && high.y - low.y > 4
  }

  /** Cell::Visit after the area is computed: `a` and `b` are the corner pairs before they are
      brought onto the map, `inside` says that the radius is not positive. */
  method Visit(standing: CellPair, inside: bool, a: CellPair, b: CellPair) returns (visited: seq<CellPair>)
    ensures !standing.OnMap() ==> visited == []
    ensures standing.OnMap() && (inside || a.Normalize() == b.Normalize()) ==> visited == [standing]
    ensures var low, high := a.Normalize(), b.Normalize();
            standing.OnMap() && !inside && low != high ==>
              if low.x > high.x then visited == []
              else if NeedsCircle(low, high) then
                XShift(high.x - low.x) <= high.y ==>
                  Distinct(visited) && forall p :: p in visited <==> InOctagon(low, high, XShift(high.x - low.x), p)
              else
                && Distinct(visited)
                && visited != [] && visited[0] == standing
                && forall p :: p in visited <==> p == standing || InRectangle(low, high, p)
  {
    if !standing.OnMap() {
      return [];
    }
    if inside {
      return [standing];
    }
    var low, high := a.Normalize(), b.Normalize();
    if low == high {
      return [standing];
    }
    if low.x > high.x {
      return [];
    }
    if high.x - low.x > 4 && high.y - low.y > 4 {
      visited := VisitCircle(low, high);
      return;
    }
    visited := VisitRectangle(standing, low, high);
  }

  /** The standing cell first, then the others of the rectangle column by column. */
  method VisitRectangle(standing: CellPair, low: CellPair, high: CellPair) returns (visited: seq<CellPair>)
    requires low.x <= high.x
    ensures Distinct(visited)
    ensures visited != [] && visited[0] == standing
    ensures forall p :: p in visited <==> p == standing || InRectangle(low, high, p)
  {
    visited := [standing];
    var x := low.x;
    while x <= high.x
      invariant low.x <= x <= high.x + 1
      invariant Distinct(visited)
      invariant visited != [] && visited[0] == standing
      invariant forall p :: p in visited <==> p == standing || Strip(low, high, low.x, x, p)
    {
      var y := low.y;
      while y <= high.y
        invariant low.y <= y <= (if low.y <= high.y then high.y + 1 else low.y)
        invariant Distinct(visited)
        invariant visited != [] && visited[0] == standing
        invariant forall p :: p in visited <==>
          p == standing || Strip(low, high, low.x, x, p) || (p.x == x && low.y <= p.y < y)
      {
        var pair := CellPair(x, y);
        if pair != standing {
          visited := visited + [pair];
        }
        y := y + 1;
      }
      x := x + 1;
    }
  }

  /** For every area that the visibility limit allows (a width of at most 18 cells) the octagon
      search never wraps around. */
  lemma SearchNeverWraps(low: CellPair, high: CellPair)
    requires NeedsCircle(low, high) && high.x - low.x <= 18
    ensures 1 <= XShift(high.x - low.x) <= high.y
  {
    XShiftBounds(high.x - low.x);
  }
}

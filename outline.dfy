/** The outline engine of the vector font (patternToContours): the boundary edges of
    the filled cells of a bitmap pattern, the adjacency lists of their end points, and
    the walk that traces them into contours.  The string keys "x,y" and "a->b" of the
    source are modelled by the lattice points and point pairs they encode. */
module Outline {
  import opened Common
  import opened Sorting
  import opened Glyphs

  /** A lattice point (x, y): column, row. */
  type Point = (int, int)

  /** A directed edge [x1, y1, x2, y2]. */
  type Edge = (Point, Point)

  function Rows(p: Pattern): nat { |p| }

  /** pattern[0].length */
  function Cols(p: Pattern): nat
    requires |p| >= 1
  {
    |p[0]|
  }

  /** cell(r, c): inside the grid and '#'; a cell past the end of a short row is empty. */
  predicate Filled(p: Pattern, r: int, c: int)
    requires |p| >= 1
  {
    0 <= r < Rows(p) && 0 <= c < Cols(p) && c < |p[r]| && p[r][c] == '#'
  }

  datatype Side = Top | Right | Bottom | Left

  /** The neighbour across a side. */
  function Across(r: int, c: int, s: Side): (int, int)
  {
    match s
    case Top => (r - 1, c)
    case Right => (r, c + 1)
    case Bottom => (r + 1, c)
    case Left => (r, c - 1)
  }

  /** The edge along a side of cell (r, c), oriented clockwise around the cell. */
  function SideEdge(r: int, c: int, s: Side): Edge
  {
    match s
    case Top => ((c, r), (c + 1, r))
    case Right => ((c + 1, r), (c + 1, r + 1))
    case Bottom => ((c + 1, r + 1), (c, r + 1))
    case Left => ((c, r + 1), (c, r))
  }

  /** Cell (r, c) has side s on the boundary: it is filled and the cell across is not. */
  predicate OnBoundary(p: Pattern, r: int, c: int, s: Side)
    requires |p| >= 1
  {
    Filled(p, r, c) && !Filled(p, Across(r, c, s).0, Across(r, c, s).1)
  }

  function EdgeIf(p: Pattern, r: int, c: int, s: Side): seq<Edge>
    requires |p| >= 1
  {
    if OnBoundary(p, r, c, s) then [SideEdge(r, c, s)] else []
  }

  /** The edges one cell contributes: top, right, bottom, left. */
  function CellEdges(p: Pattern, r: int, c: int): seq<Edge>
    requires |p| >= 1
  {
    EdgeIf(p, r, c, Top) + EdgeIf(p, r, c, Right) + EdgeIf(p, r, c, Bottom) + EdgeIf(p, r, c, Left)
  }

  predicate GridPos(p: Pattern, r: nat, c: nat)
    requires |p| >= 1
  {
    r <= Rows(p) && c <= Cols(p) && (r == Rows(p) ==> c == 0)
  }

  /** The edges emitted once the cell scan reaches column c of row r. */
  function EdgesAt(p: Pattern, r: nat, c: nat): seq<Edge>
    requires |p| >= 1 && GridPos(p, r, c)
    decreases r, c
  {
    if c == 0 then
      if r == 0 then [] else EdgesAt(p, r - 1, Cols(p))
    else
      EdgesAt(p, r, c - 1) + CellEdges(p, r, c - 1)
  }

  /** All boundary edges, cell by cell in row-major order. */
  function BoundaryEdges(p: Pattern): seq<Edge>
    requires |p| >= 1
  {
    EdgesAt(p, Rows(p), 0)
  }

  /** The body of the cell loops: a filled cell emits, in order, its top, right, bottom
      and left edge when the cell across that side is empty. */
  method EmitCell(p: Pattern, r: int, c: int, edges0: seq<Edge>) returns (edges: seq<Edge>)
    requires |p| >= 1
    ensures edges == edges0 + CellEdges(p, r, c)
  {
    edges := edges0;
    if Filled(p, r, c) {
      if !Filled(p, r - 1, c) { edges := edges + [((c, r), (c + 1, r))]; }
      assert edges == edges0 + EdgeIf(p, r, c, Top);
      if !Filled(p, r, c + 1) { edges := edges + [((c + 1, r), (c + 1, r + 1))]; }
      assert edges == edges0 + EdgeIf(p, r, c, Top) + EdgeIf(p, r, c, Right);
      if !Filled(p, r + 1, c) { edges := edges + [((c + 1, r + 1), (c, r + 1))]; }
      assert edges == edges0 + EdgeIf(p, r, c, Top) + EdgeIf(p, r, c, Right) + EdgeIf(p, r, c, Bottom);
      if !Filled(p, r, c - 1) { edges := edges + [((c, r + 1), (c, r))]; }
    }
  }

  /** The cell loops of patternToContours. */
  method EmitEdges(p: Pattern) returns (edges: seq<Edge>)
    requires |p| >= 1
    ensures edges == BoundaryEdges(p)
  {
    var rows, cols := |p|, |p[0]|;
    edges := [];
    var r := 0;
    while r < rows
      invariant 0 <= r <= rows
      invariant edges == EdgesAt(p, r, 0)
    {
      var c := 0;
      while c < cols
        invariant 0 <= c <= cols
        invariant edges == EdgesAt(p, r, c)
      {
        edges := EmitCell(p, r, c, edges);
        c := c + 1;
      }
      assert EdgesAt(p, r + 1, 0) == EdgesAt(p, r, cols);
      r := r + 1;
    }
  }

  /** The scan has visited cell (r, c) when it comes before position (r1, c1). */
  predicate Before(r: int, c: int, r1: nat, c1: nat)
  {
    r < r1 || (r == r1 && c < c1)
  }

  lemma CellEdgesChar(p: Pattern, r: int, c: int, e: Edge)
    requires |p| >= 1
    ensures e in CellEdges(p, r, c) <==> exists s :: OnBoundary(p, r, c, s) && e == SideEdge(r, c, s)
  {
    if e in CellEdges(p, r, c) {
      if e in EdgeIf(p, r, c, Top) { assert OnBoundary(p, r, c, Top) && e == SideEdge(r, c, Top); }
      else if e in EdgeIf(p, r, c, Right) { assert OnBoundary(p, r, c, Right) && e == SideEdge(r, c, Right); }
      else if e in EdgeIf(p, r, c, Bottom) { assert OnBoundary(p, r, c, Bottom) && e == SideEdge(r, c, Bottom); }
      else { assert OnBoundary(p, r, c, Left) && e == SideEdge(r, c, Left); }
    }
  }

  /** Some cell the scan visited before (r, c) has e as a boundary edge. */
  ghost predicate EmittedBefore(p: Pattern, r: nat, c: nat, e: Edge)
    requires |p| >= 1
  {
    exists r0: nat, c0: nat, s :: c0 < Cols(p) && Before(r0, c0, r, c) && OnBoundary(p, r0, c0, s) && e == SideEdge(r0, c0, s)
  }

  lemma EmittedRowStart(p: Pattern, r: nat, e: Edge)
    requires |p| >= 1 && r > 0
    ensures EmittedBefore(p, r, 0, e) <==> EmittedBefore(p, r - 1, Cols(p), e)
  {
    if EmittedBefore(p, r, 0, e) {
      var r0: nat, c0: nat, s :| c0 < Cols(p) && Before(r0, c0, r, 0) && OnBoundary(p, r0, c0, s) && e == SideEdge(r0, c0, s);
      assert Before(r0, c0, r - 1, Cols(p));
    }
    if EmittedBefore(p, r - 1, Cols(p), e) {
      var r0: nat, c0: nat, s :| c0 < Cols(p) && Before(r0, c0, r - 1, Cols(p)) && OnBoundary(p, r0, c0, s) && e == SideEdge(r0, c0, s);
      assert Before(r0, c0, r, 0);
    }
  }

  lemma EmittedNext(p: Pattern, r: nat, c: nat, e: Edge)
    requires |p| >= 1 && 0 < c <= Cols(p)
    ensures EmittedBefore(p, r, c, e) <==> EmittedBefore(p, r, c - 1, e) || e in CellEdges(p, r, c - 1)
  {
    CellEdgesChar(p, r, c - 1, e);
    if EmittedBefore(p, r, c, e) {
      var r0: nat, c0: nat, s :| c0 < Cols(p) && Before(r0, c0, r, c) && OnBoundary(p, r0, c0, s) && e == SideEdge(r0, c0, s);
      if !(r0 == r && c0 == c - 1) {
        assert Before(r0, c0, r, c - 1);
      }
    }
    if EmittedBefore(p, r, c - 1, e) {
      var r0: nat, c0: nat, s :| c0 < Cols(p) && Before(r0, c0, r, c - 1) && OnBoundary(p, r0, c0, s) && e == SideEdge(r0, c0, s);
      assert Before(r0, c0, r, c);
    }
    if e in CellEdges(p, r, c - 1) {
      var s :| OnBoundary(p, r, c - 1, s) && e == SideEdge(r, c - 1, s);
      assert Before(r, c - 1, r, c);
    }
  }

  lemma {:induction false} EdgesAtChar(p: Pattern, r: nat, c: nat, e: Edge)
    requires |p| >= 1 && GridPos(p, r, c)
    ensures e in EdgesAt(p, r, c) <==> EmittedBefore(p, r, c, e)
    decreases r, c
  {
    if c == 0 {
      if r > 0 {
        EdgesAtChar(p, r - 1, Cols(p), e);
        EmittedRowStart(p, r, e);
      }
    } else {
      EdgesAtChar(p, r, c - 1, e);
      EmittedNext(p, r, c, e);
    }
  }

  /** An edge is emitted exactly when some filled cell has an empty neighbour across that side. */
  lemma BoundaryEdgesChar(p: Pattern, e: Edge)
    requires |p| >= 1
    ensures e in BoundaryEdges(p) <==> exists r: nat, c: nat, s :: OnBoundary(p, r, c, s) && e == SideEdge(r, c, s)
  {
    EdgesAtChar(p, Rows(p), 0, e);
  }

  /** The two lattice points are one unit apart along an axis. */
  predicate UnitStep(a: Point, b: Point)
  {
    (a.0 == b.0 && (a.1 - b.1 == 1 || b.1 - a.1 == 1)) || (a.1 == b.1 && (a.0 - b.0 == 1 || b.0 - a.0 == 1))
  }

  /** A point of the lattice spanned by the grid: [0, cols] x [0, rows]. */
  predicate InBox(p: Pattern, q: Point)
    requires |p| >= 1
  {
    0 <= q.0 <= Cols(p) && 0 <= q.1 <= Rows(p)
  }

  /** Every edge is a unit axis-aligned segment between lattice points of the grid box. */
  lemma EdgeGeometry(p: Pattern, e: Edge)
    requires |p| >= 1 && e in BoundaryEdges(p)
    ensures UnitStep(e.0, e.1) && InBox(p, e.0) && InBox(p, e.1)
  {
    BoundaryEdgesChar(p, e);
  }

  /** Different sides of cells give different edges: the direction of an edge names its side. */
  lemma SideEdgeInjective(r: int, c: int, s: Side, r1: int, c1: int, s1: Side)
    requires SideEdge(r, c, s) == SideEdge(r1, c1, s1)
    ensures r == r1 && c == c1 && s == s1
  {
  }

  lemma CellEdgesNoDup(p: Pattern, r: int, c: int)
    requires |p| >= 1
    ensures NoDup(CellEdges(p, r, c))
  {
  }

  lemma NoDupConcat<T>(a: seq<T>, b: seq<T>)
    requires NoDup(a) && NoDup(b)
    requires forall x :: x in a ==> x !in b
    ensures NoDup(a + b)
  {
    forall i, j | 0 <= i < j < |a + b| ensures (a + b)[i] != (a + b)[j] {
      if j < |a| {
        assert (a + b)[i] == a[i] && (a + b)[j] == a[j];
      } else if i >= |a| {
        assert (a + b)[i] == b[i - |a|] && (a + b)[j] == b[j - |a|];
      } else {
        assert (a + b)[i] == a[i] && (a + b)[j] == b[j - |a|];
        assert a[i] in a && b[j - |a|] in b;
      }
    }
  }

  /** An edge of an earlier cell is not an edge of cell (r, c). */
  lemma EarlierEdge(p: Pattern, r: nat, c: nat, e: Edge)
    requires |p| >= 1 && GridPos(p, r, c) && e in EdgesAt(p, r, c)
    ensures e !in CellEdges(p, r, c)
  {
    EdgesAtChar(p, r, c, e);
    var r0: nat, c0: nat, s0 :| c0 < Cols(p) && Before(r0, c0, r, c) && OnBoundary(p, r0, c0, s0) && e == SideEdge(r0, c0, s0);
    if e in CellEdges(p, r, c) {
      CellEdgesChar(p, r, c, e);
      var s1 :| OnBoundary(p, r, c, s1) && e == SideEdge(r, c, s1);
      SideEdgeInjective(r0, c0, s0, r, c, s1);
    }
  }

  lemma EarlierDisjoint(p: Pattern, r: nat, c: nat)
    requires |p| >= 1 && GridPos(p, r, c)
    ensures forall e :: e in EdgesAt(p, r, c) ==> e !in CellEdges(p, r, c)
  {
    forall e | e in EdgesAt(p, r, c) ensures e !in CellEdges(p, r, c) {
      EarlierEdge(p, r, c, e);
    }
  }

  lemma {:induction false} EdgesAtNoDup(p: Pattern, r: nat, c: nat)
    requires |p| >= 1 && GridPos(p, r, c)
    ensures NoDup(EdgesAt(p, r, c))
    decreases r, c
  {
    if c == 0 {
      if r > 0 {
        EdgesAtNoDup(p, r - 1, Cols(p));
        assert EdgesAt(p, r, c) == EdgesAt(p, r - 1, Cols(p));
      }
    } else {
      var a, b := EdgesAt(p, r, c - 1), CellEdges(p, r, c - 1);
      assert EdgesAt(p, r, c) == a + b;
      EdgesAtNoDup(p, r, c - 1);
      CellEdgesNoDup(p, r, c - 1);
      EarlierDisjoint(p, r, c - 1);
      NoDupConcat(a, b);
    }
  }

  /** The (filled cell, empty neighbour) pairs of a pattern, as (row, column, side). */
  function BoundaryPairs(p: Pattern): set<(int, int, Side)>
    requires |p| >= 1
  {
    set r, c, s | 0 <= r < Rows(p) && 0 <= c < Cols(p) && OnBoundary(p, r, c, s) :: (r, c, s)
  }

  lemma {:induction false} NoDupCard<T>(s: seq<T>)
    requires NoDup(s)
    ensures |set x | x in s| == |s|
    decreases |s|
  {
    if s != [] {
      var init := s[..|s| - 1];
      assert NoDup(init) by {
        forall i, j | 0 <= i < j < |init| ensures init[i] != init[j] {
          assert init[i] == s[i] && init[j] == s[j];
        }
      }
      NoDupCard(init);
      var last := s[|s| - 1];
      assert (set x | x in s) == (set x | x in init) + {last};
      assert last !in (set x | x in init) by {
        forall i | 0 <= i < |init| ensures init[i] != last {
          assert init[i] == s[i];
        }
      }
    }
  }

  lemma {:induction false} ImageCard(t: set<(int, int, Side)>)
    ensures |set q | q in t :: SideEdge(q.0, q.1, q.2)| == |t|
    decreases |t|
  {
    if t != {} {
      var q :| q in t;
      var rest := t - {q};
      ImageCard(rest);
      var img, imgRest := set u | u in t :: SideEdge(u.0, u.1, u.2), set u | u in rest :: SideEdge(u.0, u.1, u.2);
      assert img == imgRest + {SideEdge(q.0, q.1, q.2)};
      assert SideEdge(q.0, q.1, q.2) !in imgRest by {
        forall u | u in rest ensures SideEdge(u.0, u.1, u.2) != SideEdge(q.0, q.1, q.2) {
          if SideEdge(u.0, u.1, u.2) == SideEdge(q.0, q.1, q.2) {
            SideEdgeInjective(u.0, u.1, u.2, q.0, q.1, q.2);
          }
        }
      }
    }
  }

  /** The edge list has no repeats, and as many edges as there are (filled cell, empty
      neighbour) pairs. */
  lemma EdgeCount(p: Pattern)
    requires |p| >= 1
    ensures NoDup(BoundaryEdges(p))
    ensures |BoundaryEdges(p)| == |BoundaryPairs(p)|
  {
    var edges := BoundaryEdges(p);
    EdgesAtNoDup(p, Rows(p), 0);
    NoDupCard(edges);
    ImageCard(BoundaryPairs(p));
    var img := set q | q in BoundaryPairs(p) :: SideEdge(q.0, q.1, q.2);
    forall e ensures e in edges <==> e in img {
      BoundaryEdgesChar(p, e);
      if e in edges {
        var r: nat, c: nat, s :| OnBoundary(p, r, c, s) && e == SideEdge(r, c, s);
        assert (r, c, s) in BoundaryPairs(p);
      }
    }
    assert (set x | x in edges) == img;
  }

  /** A pattern without a filled cell, such as the space glyph, has no edges. */
  lemma BlankHasNoEdges(p: Pattern)
    requires |p| >= 1 && Blank(p)
    ensures BoundaryEdges(p) == []
  {
    if BoundaryEdges(p) != [] {
      var e := BoundaryEdges(p)[0];
      BoundaryEdgesChar(p, e);
    }
  }

  /** The adjacency map: for each "x,y" key, its neighbours in the order they were added. */
  type Adj = map<Point, seq<Point>>

  /** adj.get(v) || [] */
  function Neighbours(adj: Adj, v: Point): seq<Point>
  {
    if v in adj then adj[v] else []
  }

  /** addAdj(a, b) */
  function AddAdj(adj: Adj, a: Point, b: Point): Adj
  {
    adj[a := Neighbours(adj, a) + [b]]
  }

  /** The map after the forEach over edges: both directions of each edge, in edge order. */
  function AdjOf(edges: seq<Edge>): (adj: Adj)
    ensures forall v :: v in adj ==> adj[v] != []
  {
    if edges == [] then map[] else
      var e := edges[|edges| - 1];
      AddAdj(AddAdj(AdjOf(edges[..|edges| - 1]), e.0, e.1), e.1, e.0)
  }

  method BuildAdjacency(edges: seq<Edge>) returns (adj: Adj)
    ensures adj == AdjOf(edges)
  {
    adj := map[];
    var i := 0;
    while i < |edges|
      invariant 0 <= i <= |edges|
      invariant adj == AdjOf(edges[..i])
    {
      var (a, b) := edges[i];
      adj := AddAdj(adj, a, b);
      adj := AddAdj(adj, b, a);
      assert edges[..i + 1][..i] == edges[..i];
      i := i + 1;
    }
    assert edges[..|edges|] == edges;
  }

  function Reverse(e: Edge): Edge { (e.1, e.0) }

  /** Some edge joins a and b, in either direction. */
  predicate Joined(edges: seq<Edge>, a: Point, b: Point)
  {
    exists i :: 0 <= i < |edges| && (edges[i] == (a, b) || edges[i] == (b, a))
  }

  lemma AddAdjNeighbours(adj: Adj, a: Point, b: Point, v: Point)
    ensures Neighbours(AddAdj(adj, a, b), v) == Neighbours(adj, v) + (if v == a then [b] else [])
  {
  }

  /** Joined over edges is Joined over all but the last edge, or the last edge itself. */
  lemma JoinedSnoc(edges: seq<Edge>, a: Point, b: Point)
    requires edges != []
    ensures var init, e := edges[..|edges| - 1], edges[|edges| - 1];
      Joined(edges, a, b) <==> Joined(init, a, b) || e == (a, b) || e == (b, a)
  {
    var init := edges[..|edges| - 1];
    if Joined(init, a, b) {
      var i :| 0 <= i < |init| && (init[i] == (a, b) || init[i] == (b, a));
      assert edges[i] == init[i];
    }
    if Joined(edges, a, b) {
      var i :| 0 <= i < |edges| && (edges[i] == (a, b) || edges[i] == (b, a));
      assert i < |init| ==> init[i] == edges[i];
    }
  }

  /** b is listed as a neighbour of a exactly when an edge joins them. */
  lemma {:induction false} AdjOfChar(edges: seq<Edge>, a: Point, b: Point)
    ensures b in Neighbours(AdjOf(edges), a) <==> Joined(edges, a, b)
    decreases |edges|
  {
    if edges != [] {
      var init, e := edges[..|edges| - 1], edges[|edges| - 1];
      var adj0 := AdjOf(init);
      var adj1 := AddAdj(adj0, e.0, e.1);
      assert AdjOf(edges) == AddAdj(adj1, e.1, e.0);
      AdjOfChar(init, a, b);
      AddAdjNeighbours(adj1, e.1, e.0, a);
      AddAdjNeighbours(adj0, e.0, e.1, a);
      JoinedSnoc(edges, a, b);
    }
  }

  /** The adjacency map is symmetric. */
  lemma AdjSymmetric(edges: seq<Edge>, a: Point, b: Point)
    ensures b in Neighbours(AdjOf(edges), a) <==> a in Neighbours(AdjOf(edges), b)
  {
    AdjOfChar(edges, a, b);
    AdjOfChar(edges, b, a);
  }

  /** The sort key of the walk: the angle Math.atan2(dy, dx) of the step from cur to a
      neighbour; atan2 itself is a parameter. */
  function Heading(atan2: (real, real) -> real, cur: Point): Point -> real
  {
    (nb: Point) => atan2((nb.1 - cur.1) as real, (nb.0 - cur.0) as real)
  }

  /** Every neighbour before index k is prev or has its edge from cur used. */
  predicate SkippedBefore(nbrs: seq<Point>, k: int, cur: Point, prev: Option<Point>, used: set<Edge>)
    requires k <= |nbrs|
  {
    forall j :: 0 <= j < k ==> prev == Some(nbrs[j]) || (cur, nbrs[j]) in used
  }

  /** The neighbour the walk takes: the first, in angle order, that is not the point it
      came from and whose edge from cur is still unused. */
  function FirstFree(nbrs: seq<Point>, cur: Point, prev: Option<Point>, used: set<Edge>): (r: Option<Point>)
    ensures r.Some? ==> r.value in nbrs && prev != Some(r.value) && (cur, r.value) !in used
    ensures r.None? <==> forall nb :: nb in nbrs ==> prev == Some(nb) || (cur, nb) in used
    ensures r.Some? ==> exists k :: 0 <= k < |nbrs| && nbrs[k] == r.value && SkippedBefore(nbrs, k, cur, prev, used)
  {
    if nbrs == [] then None
    else if prev == Some(nbrs[0]) || (cur, nbrs[0]) in used then
      var r := FirstFree(nbrs[1..], cur, prev, used);
      assert r.Some? ==> exists k :: 0 <= k < |nbrs| && nbrs[k] == r.value && SkippedBefore(nbrs, k, cur, prev, used) by {
        if r.Some? {
          var k :| 0 <= k < |nbrs[1..]| && nbrs[1..][k] == r.value && SkippedBefore(nbrs[1..], k, cur, prev, used);
          assert nbrs[k + 1] == r.value;
          forall j | 0 <= j < k + 1 ensures prev == Some(nbrs[j]) || (cur, nbrs[j]) in used {
            if j > 0 {
              assert nbrs[j] == nbrs[1..][j - 1];
            }
          }
          assert SkippedBefore(nbrs, k + 1, cur, prev, used);
        }
      }
      r
    else
      assert SkippedBefore(nbrs, 0, cur, prev, used);
      Some(nbrs[0])
  }

  /** The inner for loop over the sorted neighbours. */
  method ChooseNeighbour(nbrs: seq<Point>, cur: Point, prev: Option<Point>, used: set<Edge>) returns (chosen: Option<Point>)
    ensures chosen == FirstFree(nbrs, cur, prev, used)
  {
    var k := 0;
    while k < |nbrs|
      invariant 0 <= k <= |nbrs|
      invariant FirstFree(nbrs, cur, prev, used) == FirstFree(nbrs[k..], cur, prev, used)
    {
      var nb := nbrs[k];
      assert nbrs[k..][1..] == nbrs[k + 1..];
      if prev == Some(nb) || (cur, nb) in used {
        k := k + 1;
      } else {
        return Some(nb);
      }
    }
    return None;
  }

  /** The consecutive steps of a polyline. */
  function PolySteps(poly: seq<Point>): (steps: seq<Edge>)
    ensures |steps| == if |poly| <= 1 then 0 else |poly| - 1
  {
    if |poly| <= 1 then [] else seq(|poly| - 1, i requires 0 <= i < |poly| - 1 => (poly[i], poly[i + 1]))
  }

  /** The steps of all contours, contour by contour. */
  function AllSteps(cs: seq<seq<Point>>): seq<Edge>
  {
    if cs == [] then [] else AllSteps(cs[..|cs| - 1]) + PolySteps(cs[|cs| - 1])
  }

  predicate SameSegment(s: Edge, t: Edge)
  {
    s == t || s == Reverse(t)
  }

  /** No segment of the grid is walked twice, in either direction. */
  predicate NoSharedSegment(steps: seq<Edge>)
  {
    forall i, j :: 0 <= i < j < |steps| ==> !SameSegment(steps[i], steps[j])
  }

  /** Every step of a polyline goes to a listed neighbour. */
  predicate Path(adj: Adj, poly: seq<Point>)
  {
    forall i :: 0 <= i < |poly| - 1 ==> poly[i + 1] in Neighbours(adj, poly[i])
  }

  /** A point where some edge starts: where the trace of a contour begins. */
  predicate IsSeed(edges: seq<Edge>, q: Point)
  {
    exists i :: 0 <= i < |edges| && edges[i].0 == q
  }

  /** The directed pairs the walk can mark: both directions of every edge. */
  function PairSet(edges: seq<Edge>): set<Edge>
  {
    (set e | e in edges) + (set e | e in edges :: Reverse(e))
  }

  /** Both directions of every step are marked used. */
  predicate Walked(steps: seq<Edge>, used: set<Edge>)
  {
    forall i :: 0 <= i < |steps| ==> steps[i] in used && Reverse(steps[i]) in used
  }

  predicate SymmetricSet(used: set<Edge>)
  {
    forall e :: e in used ==> Reverse(e) in used
  }

  lemma PolyStepsSnoc(poly: seq<Point>, q: Point)
    requires |poly| >= 1
    ensures PolySteps(poly + [q]) == PolySteps(poly) + [(poly[|poly| - 1], q)]
  {
    var t := poly + [q];
    var a, b := PolySteps(t), PolySteps(poly) + [(poly[|poly| - 1], q)];
    assert |a| == |b|;
    forall i | 0 <= i < |a| ensures a[i] == b[i] {
      assert a[i] == (t[i], t[i + 1]);
    }
  }

  lemma AllStepsSnoc(cs: seq<seq<Point>>, poly: seq<Point>)
    ensures AllSteps(cs + [poly]) == AllSteps(cs) + PolySteps(poly)
  {
    assert (cs + [poly])[..|cs|] == cs;
  }

  /** Marking a fresh segment keeps the walked steps walked and apart. */
  lemma StepFresh(steps: seq<Edge>, used: set<Edge>, e: Edge)
    requires Walked(steps, used) && NoSharedSegment(steps) && SymmetricSet(used) && e !in used
    ensures Walked(steps + [e], used + {e, Reverse(e)})
    ensures NoSharedSegment(steps + [e])
    ensures SymmetricSet(used + {e, Reverse(e)})
  {
    var steps2 := steps + [e];
    forall i, j | 0 <= i < j < |steps2| ensures !SameSegment(steps2[i], steps2[j]) {
      if j == |steps| {
        assert steps2[i] == steps[i];
        assert steps[i] in used && Reverse(steps[i]) in used;
      }
    }
  }

  lemma PrefixKeeps(a: seq<Edge>, b: seq<Edge>, used: set<Edge>)
    requires Walked(a + b, used) && NoSharedSegment(a + b)
    ensures Walked(a, used) && NoSharedSegment(a)
  {
    forall i | 0 <= i < |a| ensures a[i] in used && Reverse(a[i]) in used {
      assert (a + b)[i] == a[i];
    }
    forall i, j | 0 <= i < j < |a| ensures !SameSegment(a[i], a[j]) {
      assert (a + b)[i] == a[i] && (a + b)[j] == a[j];
    }
  }

  /** A neighbour in the map is an edge, so both directions are pairs the walk may mark. */
  lemma NeighbourPairs(edges: seq<Edge>, a: Point, b: Point)
    requires b in Neighbours(AdjOf(edges), a)
    ensures (a, b) in PairSet(edges) && (b, a) in PairSet(edges)
  {
    AdjOfChar(edges, a, b);
    var i :| 0 <= i < |edges| && (edges[i] == (a, b) || edges[i] == (b, a));
    assert Reverse(edges[i]) in PairSet(edges);
  }

  lemma FewerLeft(all: set<Edge>, used: set<Edge>, e: Edge, f: Edge)
    requires e in all && e !in used
    ensures |all - (used + {e, f})| < |all - used|
  {
    var before, after := all - used, all - (used + {e, f});
    assert after <= before - {e};
    assert |before - {e}| == |before| - 1;
    SubsetCard(after, before - {e});
  }

  lemma {:induction false} SubsetCard(a: set<Edge>, b: set<Edge>)
    requires a <= b
    ensures |a| <= |b|
    decreases |b|
  {
    if b != {} {
      var x :| x in b;
      SubsetCard(a - {x}, b - {x});
    }
  }

  /** What holds while a walk is under way: the polyline runs from start to cur along
      listed neighbours, and its steps, after those of base, are marked used in both
      directions and share no segment. */
  predicate WalkInv(edges: seq<Edge>, adj: Adj, base: seq<Edge>, start: Point, poly: seq<Point>, cur: Point, used: set<Edge>)
  {
    && |poly| >= 1 && poly[0] == start && poly[|poly| - 1] == cur
    && Path(adj, poly)
    && used <= PairSet(edges) && SymmetricSet(used)
    && Walked(base + PolySteps(poly), used) && NoSharedSegment(base + PolySteps(poly))
  }

  /** Taking an unused edge to a neighbour keeps the walk invariant and leaves fewer
      unused pairs. */
  lemma WalkStep(edges: seq<Edge>, adj: Adj, base: seq<Edge>, start: Point, poly: seq<Point>, cur: Point, used: set<Edge>, nb: Point)
    requires adj == AdjOf(edges)
    requires WalkInv(edges, adj, base, start, poly, cur, used)
    requires nb in Neighbours(adj, cur) && (cur, nb) !in used
    ensures WalkInv(edges, adj, base, start, poly + [nb], nb, used + {(cur, nb), (nb, cur)})
    ensures |PairSet(edges) - (used + {(cur, nb), (nb, cur)})| < |PairSet(edges) - used|
  {
    NeighbourPairs(edges, cur, nb);
    FewerLeft(PairSet(edges), used, (cur, nb), (nb, cur));
    PolyStepsSnoc(poly, nb);
    assert base + PolySteps(poly + [nb]) == (base + PolySteps(poly)) + [(cur, nb)];
    StepFresh(base + PolySteps(poly), used, (cur, nb));
    var poly2 := poly + [nb];
    forall i | 0 <= i < |poly2| - 1 ensures poly2[i + 1] in Neighbours(adj, poly2[i]) {
      if i < |poly| - 1 {
        assert poly2[i] == poly[i] && poly2[i + 1] == poly[i + 1];
      }
    }
  }

  /** The point before the last one of a walk: prev in the source. */
  function PrevOf(poly: seq<Point>): Option<Point>
    requires |poly| >= 1
  {
    if |poly| >= 2 then Some(poly[|poly| - 2]) else None
  }

  /** The list holds two different points. */
  predicate TwoApart(s: seq<Point>)
  {
    exists i, j :: 0 <= i < |s| && 0 <= j < |s| && s[i] != s[j]
  }

  /** No point is its own neighbour, and every point with a neighbour has a second one:
      a walk that has just arrived somewhere can always leave by another edge. */
  ghost predicate Degree2(adj: Adj)
  {
    && (forall v, a :: a in Neighbours(adj, v) ==> a != v)
    && (forall v :: Neighbours(adj, v) != [] ==> TwoApart(Neighbours(adj, v)))
  }

  /** In such a list every point has a different companion. */
  lemma OtherThan(s: seq<Point>, a: Point) returns (b: Point)
    requires TwoApart(s)
    ensures b in s && b != a
  {
    var i, j :| 0 <= i < |s| && 0 <= j < |s| && s[i] != s[j];
    b := if s[i] != a then s[i] else s[j];
  }

  /** A walk from a point with a neighbour, before any edge is used, in a map of degree two. */
  ghost predicate FreshStart(adj: Adj, start: Point, used0: set<Edge>)
  {
    used0 == {} && Neighbours(adj, start) != [] && Degree2(adj)
  }

  /** How a fresh walk begins: at start with nothing used, or one step out with only that
      step used. */
  ghost predicate Opening(adj: Adj, start: Point, poly: seq<Point>, cur: Point, used: set<Edge>)
  {
    || |poly| >= 3
    || (|poly| == 1 && used == {})
    || (|poly| == 2 && used == {(start, cur), (cur, start)} && cur != start && cur in Neighbours(adj, start))
  }

  /** During the first two steps of a fresh walk an unused edge other than the one back
      is always available. */
  lemma EarlyProgress(edges: seq<Edge>, adj: Adj, start: Point, used0: set<Edge>, poly: seq<Point>, cur: Point,
                      used: set<Edge>, nbrs: seq<Point>)
    requires adj == AdjOf(edges)
    requires |poly| >= 1 && poly[0] == start && poly[|poly| - 1] == cur
    requires multiset(nbrs) == multiset(Neighbours(adj, cur))
    requires FreshStart(adj, start, used0) ==> Opening(adj, start, poly, cur, used)
    ensures FreshStart(adj, start, used0) && |poly| <= 2 ==> FirstFree(nbrs, cur, PrevOf(poly), used).Some?
  {
    if FreshStart(adj, start, used0) && |poly| <= 2 {
      var b;
      if |poly| == 1 {
        b := Neighbours(adj, start)[0];
      } else {
        AdjSymmetric(edges, start, cur);
        b := OtherThan(Neighbours(adj, cur), start);
      }
      assert b in multiset(nbrs);
      assert PrevOf(poly) != Some(b) && (cur, b) !in used;
    }
  }

  /** A step of a fresh walk keeps to the opening: the first step leaves start. */
  lemma OpeningStep(adj: Adj, start: Point, used0: set<Edge>, poly: seq<Point>, cur: Point, used: set<Edge>, nb: Point)
    requires |poly| >= 1 && poly[0] == start && poly[|poly| - 1] == cur
    requires nb in Neighbours(adj, cur)
    requires FreshStart(adj, start, used0) ==> Opening(adj, start, poly, cur, used)
    ensures FreshStart(adj, start, used0) ==> Opening(adj, start, poly + [nb], nb, used + {(cur, nb), (nb, cur)})
  {
  }

  /** The state of the walk loop: the walk invariant, prev one point behind, and the
      opening of a fresh walk. */
  ghost predicate WalkState(edges: seq<Edge>, adj: Adj, base: seq<Edge>, start: Point, used0: set<Edge>,
                            poly: seq<Point>, cur: Point, prev: Option<Point>, used: set<Edge>)
  {
    && WalkInv(edges, adj, base, start, poly, cur, used)
    && prev == PrevOf(poly)
    && (FreshStart(adj, start, used0) ==> Opening(adj, start, poly, cur, used))
  }

  /** Taking an unused edge to a neighbour keeps the loop state and leaves fewer unused pairs. */
  lemma Advance(edges: seq<Edge>, adj: Adj, base: seq<Edge>, start: Point, used0: set<Edge>,
                poly: seq<Point>, cur: Point, prev: Option<Point>, used: set<Edge>, nb: Point)
    requires adj == AdjOf(edges)
    requires WalkState(edges, adj, base, start, used0, poly, cur, prev, used)
    requires nb in Neighbours(adj, cur) && (cur, nb) !in used
    ensures WalkState(edges, adj, base, start, used0, poly + [nb], nb, Some(cur), used + {(cur, nb), (nb, cur)})
    ensures |PairSet(edges) - (used + {(cur, nb), (nb, cur)})| < |PairSet(edges) - used|
  {
    WalkStep(edges, adj, base, start, poly, cur, used, nb);
    OpeningStep(adj, start, used0, poly, cur, used, nb);
  }

  /** One walk of the trace loop, from start until no unused edge is left or the walk is
      back at start.  base holds the steps of the contours already kept; the new steps
      join them without sharing a segment, and both directions of each are marked used.
      The walk stops only for those two reasons, and a fresh walk in a map of degree two
      takes at least two steps. */
  method Walk(edges: seq<Edge>, adj: Adj, atan2: (real, real) -> real, start: Point, used0: set<Edge>, ghost base: seq<Edge>)
    returns (poly: seq<Point>, used: set<Edge>)
    requires adj == AdjOf(edges)
    requires used0 <= PairSet(edges) && SymmetricSet(used0)
    requires Walked(base, used0) && NoSharedSegment(base)
    ensures |poly| >= 1 && poly[0] == start && Path(adj, poly)
    ensures used <= PairSet(edges) && SymmetricSet(used)
    ensures Walked(base + PolySteps(poly), used) && NoSharedSegment(base + PolySteps(poly))
    ensures var last := poly[|poly| - 1];
      || (|poly| >= 2 && last == start)
      || FirstFree(SortBy(Neighbours(adj, last), Heading(atan2, last)), last, PrevOf(poly), used).None?
    ensures FreshStart(adj, start, used0) ==> |poly| >= 3
  {
    used := used0;
    poly := [start];
    var cur, prev := start, None;
    assert base + PolySteps(poly) == base;
    while true
      invariant WalkState(edges, adj, base, start, used0, poly, cur, prev, used)
      decreases |PairSet(edges) - used|
    {
      var nbrs := SortBy(Neighbours(adj, cur), Heading(atan2, cur));
      EarlyProgress(edges, adj, start, used0, poly, cur, used, nbrs);
      var chosen := ChooseNeighbour(nbrs, cur, prev, used);
      if chosen.None? {
        assert poly[|poly| - 1] == cur;
        break;
      }
      var nb := chosen.value;
      assert nb in multiset(nbrs);
      Advance(edges, adj, base, start, used0, poly, cur, prev, used, nb);
      used := used + {(cur, nb), (nb, cur)};
      poly := poly + [nb];
      prev, cur := Some(cur), nb;
      if cur == start {
        assert |poly| >= 2 && poly[|poly| - 1] == start;
        break;
      }
    }
  }

  /** Every contour has at least three points, steps only along listed neighbours and
      starts where an edge starts. */
  predicate Contours(edges: seq<Edge>, adj: Adj, cs: seq<seq<Point>>)
  {
    forall k :: 0 <= k < |cs| ==> |cs[k]| >= 3 && Path(adj, cs[k]) && IsSeed(edges, cs[k][0])
  }

  lemma ContoursSnoc(edges: seq<Edge>, adj: Adj, cs: seq<seq<Point>>, poly: seq<Point>, i: int)
    requires Contours(edges, adj, cs)
    requires |poly| >= 3 && Path(adj, poly) && 0 <= i < |edges| && edges[i].0 == poly[0]
    ensures Contours(edges, adj, cs + [poly])
  {
    var cs2 := cs + [poly];
    forall k | 0 <= k < |cs2| ensures |cs2[k]| >= 3 && Path(adj, cs2[k]) && IsSeed(edges, cs2[k][0]) {
      if k == |cs| {
        assert cs2[k] == poly;
      } else {
        assert cs2[k] == cs[k];
      }
    }
  }

  /** The trace loop of patternToContours.  Every contour has at least three points,
      starts where an edge starts, steps only along edges, and no segment is walked by
      two steps, within one contour or across contours.  In a map of degree two the
      first edge always gives a contour. */
  method TraceContours(edges: seq<Edge>, adj: Adj, atan2: (real, real) -> real) returns (contours: seq<seq<Point>>)
    requires adj == AdjOf(edges)
    ensures edges == [] ==> contours == []
    ensures Contours(edges, adj, contours)
    ensures NoSharedSegment(AllSteps(contours))
    ensures edges != [] && Degree2(adj) ==> |contours| >= 1
  {
    var used: set<Edge> := {};
    contours := [];
    for i := 0 to |edges|
      invariant used <= PairSet(edges) && SymmetricSet(used)
      invariant Walked(AllSteps(contours), used) && NoSharedSegment(AllSteps(contours))
      invariant Contours(edges, adj, contours)
      invariant i == 0 ==> used == {}
      invariant i > 0 && Degree2(adj) ==> |contours| >= 1
    {
      var start, next := edges[i].0, edges[i].1;
      if (start, next) in used {
        continue;
      }
      if i == 0 {
        AdjOfChar(edges, start, next);
        assert Joined(edges, start, next) by { assert edges[0] == (start, next); }
      }
      var poly;
      poly, used := Walk(edges, adj, atan2, start, used, AllSteps(contours));
      if |poly| >= 3 {
        AllStepsSnoc(contours, poly);
        ContoursSnoc(edges, adj, contours, poly, i);
        contours := contours + [poly];
      } else {
        PrefixKeeps(AllSteps(contours), PolySteps(poly), used);
      }
    }
  }

  /** Neighbours in the map of a pattern's edges are one unit apart, inside the grid box. */
  lemma NeighbourGeometry(p: Pattern, a: Point, b: Point)
    requires |p| >= 1 && b in Neighbours(AdjOf(BoundaryEdges(p)), a)
    ensures UnitStep(a, b) && InBox(p, a) && InBox(p, b)
  {
    var edges := BoundaryEdges(p);
    AdjOfChar(edges, a, b);
    var i :| 0 <= i < |edges| && (edges[i] == (a, b) || edges[i] == (b, a));
    EdgeGeometry(p, edges[i]);
  }

  lemma ContourGeometry(p: Pattern, cs: seq<seq<Point>>)
    requires |p| >= 1 && Contours(BoundaryEdges(p), AdjOf(BoundaryEdges(p)), cs)
    ensures forall k, i :: 0 <= k < |cs| && 0 <= i < |cs[k]| ==> InBox(p, cs[k][i])
    ensures forall k, i :: 0 <= k < |cs| && 0 <= i < |cs[k]| - 1 ==> UnitStep(cs[k][i], cs[k][i + 1])
  {
    var edges := BoundaryEdges(p);
    forall k, i | 0 <= k < |cs| && 0 <= i < |cs[k]| ensures InBox(p, cs[k][i]) {
      if i == 0 {
        var j :| 0 <= j < |edges| && edges[j].0 == cs[k][0];
        EdgeGeometry(p, edges[j]);
      } else {
        NeighbourGeometry(p, cs[k][i - 1], cs[k][i]);
      }
    }
    forall k, i | 0 <= k < |cs| && 0 <= i < |cs[k]| - 1 ensures UnitStep(cs[k][i], cs[k][i + 1]) {
      NeighbourGeometry(p, cs[k][i], cs[k][i + 1]);
    }
  }

  /** The edge along a boundary side is one of the pattern's edges. */
  lemma Emit(p: Pattern, r: int, c: int, s: Side)
    requires |p| >= 1 && OnBoundary(p, r, c, s)
    ensures SideEdge(r, c, s) in BoundaryEdges(p)
  {
    BoundaryEdgesChar(p, SideEdge(r, c, s));
  }

  /** The boundary goes on: from the end of every edge another edge leads on, not back. */
  lemma Continues(p: Pattern, e: Edge)
    requires |p| >= 1 && e in BoundaryEdges(p)
    ensures exists f :: f in BoundaryEdges(p) && f.0 == e.1 && f.1 != e.0
  {
    BoundaryEdgesChar(p, e);
    var r: nat, c: nat, s :| OnBoundary(p, r, c, s) && e == SideEdge(r, c, s);
    ContinuesAt(p, r, c, s);
  }

  /** The three cases at the end of a side: turn right, go straight on, or turn left. */
  lemma ContinuesAt(p: Pattern, r: int, c: int, s: Side)
    requires |p| >= 1 && OnBoundary(p, r, c, s)
    ensures var e := SideEdge(r, c, s); exists f :: f in BoundaryEdges(p) && f.0 == e.1 && f.1 != e.0
  {
    match s
    case Top =>
      if !Filled(p, r, c + 1) { Emit(p, r, c, Right); }
      else if !Filled(p, r - 1, c + 1) { Emit(p, r, c + 1, Top); }
      else { Emit(p, r - 1, c + 1, Left); }
    case Right =>
      if !Filled(p, r + 1, c) { Emit(p, r, c, Bottom); }
      else if !Filled(p, r + 1, c + 1) { Emit(p, r + 1, c, Right); }
      else { Emit(p, r + 1, c + 1, Top); }
    case Bottom =>
      if !Filled(p, r, c - 1) { Emit(p, r, c, Left); }
      else if !Filled(p, r + 1, c - 1) { Emit(p, r, c - 1, Bottom); }
      else { Emit(p, r + 1, c - 1, Right); }
    case Left =>
      if !Filled(p, r - 1, c) { Emit(p, r, c, Top); }
      else if !Filled(p, r - 1, c - 1) { Emit(p, r - 1, c, Left); }
      else { Emit(p, r - 1, c - 1, Bottom); }
  }

  /** The boundary comes from somewhere: into the start of every edge another edge leads,
      not from its end. */
  lemma Precedes(p: Pattern, e: Edge)
    requires |p| >= 1 && e in BoundaryEdges(p)
    ensures exists g :: g in BoundaryEdges(p) && g.1 == e.0 && g.0 != e.1
  {
    BoundaryEdgesChar(p, e);
    var r: nat, c: nat, s :| OnBoundary(p, r, c, s) && e == SideEdge(r, c, s);
    PrecedesAt(p, r, c, s);
  }

  /** The three cases at the start of a side. */
  lemma PrecedesAt(p: Pattern, r: int, c: int, s: Side)
    requires |p| >= 1 && OnBoundary(p, r, c, s)
    ensures var e := SideEdge(r, c, s); exists g :: g in BoundaryEdges(p) && g.1 == e.0 && g.0 != e.1
  {
    match s
    case Top =>
      if !Filled(p, r, c - 1) { Emit(p, r, c, Left); }
      else if !Filled(p, r - 1, c - 1) { Emit(p, r, c - 1, Top); }
      else { Emit(p, r - 1, c - 1, Right); }
    case Right =>
      if !Filled(p, r - 1, c) { Emit(p, r, c, Top); }
      else if !Filled(p, r - 1, c + 1) { Emit(p, r - 1, c, Right); }
      else { Emit(p, r - 1, c + 1, Bottom); }
    case Bottom =>
      if !Filled(p, r, c + 1) { Emit(p, r, c, Right); }
      else if !Filled(p, r + 1, c + 1) { Emit(p, r, c + 1, Bottom); }
      else { Emit(p, r + 1, c + 1, Left); }
    case Left =>
      if !Filled(p, r + 1, c) { Emit(p, r, c, Bottom); }
      else if !Filled(p, r + 1, c - 1) { Emit(p, r + 1, c, Left); }
      else { Emit(p, r + 1, c - 1, Top); }
  }

  /** f is an edge, so each end is a neighbour of the other. */
  lemma EdgeNeighbours(edges: seq<Edge>, f: Edge)
    requires f in edges
    ensures f.1 in Neighbours(AdjOf(edges), f.0) && f.0 in Neighbours(AdjOf(edges), f.1)
  {
    var i :| 0 <= i < |edges| && edges[i] == f;
    AdjOfChar(edges, f.0, f.1);
    AdjOfChar(edges, f.1, f.0);
  }

  /** Every point of a pattern's boundary other than a's neighbour a has another neighbour. */
  lemma SecondNeighbour(p: Pattern, v: Point, a: Point) returns (b: Point)
    requires |p| >= 1 && a in Neighbours(AdjOf(BoundaryEdges(p)), v)
    ensures a != v && b in Neighbours(AdjOf(BoundaryEdges(p)), v) && b != a
  {
    var edges := BoundaryEdges(p);
    AdjOfChar(edges, v, a);
    var i :| 0 <= i < |edges| && (edges[i] == (v, a) || edges[i] == (a, v));
    var e := edges[i];
    EdgeGeometry(p, e);
    if e == (a, v) {
      Continues(p, e);
      var f :| f in edges && f.0 == v && f.1 != a;
      EdgeNeighbours(edges, f);
      b := f.1;
    } else {
      Precedes(p, e);
      var g :| g in edges && g.1 == v && g.0 != a;
      EdgeNeighbours(edges, g);
      b := g.0;
    }
  }

  /** Every point of a pattern's boundary has two different neighbours, none of them itself. */
  lemma BoundaryDegree2(p: Pattern)
    requires |p| >= 1
    ensures Degree2(AdjOf(BoundaryEdges(p)))
  {
    var adj := AdjOf(BoundaryEdges(p));
    forall v, a | a in Neighbours(adj, v) ensures a != v {
      var _ := SecondNeighbour(p, v, a);
    }
    forall v | Neighbours(adj, v) != [] ensures TwoApart(Neighbours(adj, v)) {
      var s := Neighbours(adj, v);
      var b := SecondNeighbour(p, v, s[0]);
      var k :| 0 <= k < |s| && s[k] == b;
      assert s[0] != s[k];
    }
  }

  /** A pattern with a filled cell has a boundary edge: the top of the highest filled cell
      of that column. */
  lemma {:induction false} FilledHasEdge(p: Pattern, r: int, c: int)
    requires |p| >= 1 && Filled(p, r, c)
    ensures BoundaryEdges(p) != []
    decreases r
  {
    if !Filled(p, r - 1, c) {
      Emit(p, r, c, Top);
    } else {
      FilledHasEdge(p, r - 1, c);
    }
  }

  /** patternToContours: the contours of a pattern are lattice polylines of unit steps
      inside the grid box, walking only boundary edges and none twice; a pattern without
      a filled cell has none, and a pattern with one has at least one. */
  method PatternToContours(p: Pattern, atan2: (real, real) -> real) returns (contours: seq<seq<Point>>)
    requires |p| >= 1
    ensures Contours(BoundaryEdges(p), AdjOf(BoundaryEdges(p)), contours)
    ensures NoSharedSegment(AllSteps(contours))
    ensures forall k, i :: 0 <= k < |contours| && 0 <= i < |contours[k]| ==> InBox(p, contours[k][i])
    ensures forall k, i :: 0 <= k < |contours| && 0 <= i < |contours[k]| - 1 ==> UnitStep(contours[k][i], contours[k][i + 1])
    ensures Blank(p) ==> contours == []
    ensures (exists r, c :: Filled(p, r, c)) ==> |contours| >= 1
  {
    var edges := EmitEdges(p);
    var adj := BuildAdjacency(edges);
    BoundaryDegree2(p);
    contours := TraceContours(edges, adj, atan2);
    ContourGeometry(p, contours);
    if Blank(p) {
      BlankHasNoEdges(p);
    }
    if exists r, c :: Filled(p, r, c) {
      var r, c :| Filled(p, r, c);
      FilledHasEdge(p, r, c);
    }
  }
}

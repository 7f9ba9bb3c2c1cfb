/**
 The hub page: circles around a centre, placed in whole pixels. Trigonometry enters
 as unit vectors no two of which are nearer than the chord 2 sin(pi / n).
 */
module Hub {
  const GAP := 14
  const CENTER_SIZE := 180
  const COLORS := 10

  datatype Vector = Vector(x: real, y: real)

  datatype Node = Node(key: string, x: int, y: int, size: int, color: int)

  /** Directions for n nodes, and the chord between neighbours. */
  predicate Around(directions: seq<Vector>, chord: real) {
    && 0.0 < chord <= 2.0
    && (forall i | 0 <= i < |directions| :: Unit(directions[i]))
    && (forall i, j | 0 <= i < j < |directions| :: ChordApart(directions[i], directions[j], chord))
  }

  predicate Unit(u: Vector) {
    u.x * u.x + u.y * u.y == 1.0
  }

  predicate ChordApart(u: Vector, v: Vector, chord: real) {
    (u.x - v.x) * (u.x - v.x) + (u.y - v.y) * (u.y - v.y) >= chord * chord
  }

  /** Conversion to int drops the fraction. */
  function Truncate(x: real): int {
    if x >= 0.0 then x.Floor else -((-x).Floor)
  }

  function NodeSize(n: nat): int {
    if n > 12 then 92 else if n > 8 then 112 else 140
  }

  function Radius(n: nat, chord: real): int
    requires chord > 0.0
  {
    if n <= 1 then 180
    else
      var least := (NodeSize(n) + GAP) as real / chord;
      Truncate(if least > 180.0 then least else 180.0)
  }

  /** On a circle of this radius neighbours are more than this distance apart. */
  predicate Reaches(radius: int, chord: real, distance: int) {
    radius as real * chord > distance as real
  }

  /** Neighbours are the gap apart but for two pixels, and one pixel of radius more would
      close that; the container leaves 40 pixels around the outermost circles. */
  method Geometry(n: nat, chord: real) returns (container: int, radius: int, size: int)
    requires 0.0 < chord <= 2.0
    ensures size == NodeSize(n) && 180 <= radius && (n <= 1 ==> radius == 180)
    ensures n >= 2 ==> Reaches(radius, chord, size + 12) && Reaches(radius + 1, chord, size + GAP)
    ensures n >= 2 && Reaches(radius, chord, size + GAP) ==> radius == 180
    ensures 2 * (radius + size / 2 + 40) == container
  {
    size := 140;
    if n > 12 {
      size := 92;
    } else if n > 8 {
      size := 112;
    }
    if n <= 1 {
      radius := 180;
    } else {
      var least := (size + GAP) as real / chord;
      radius := Truncate(if least > 180.0 then least else 180.0);
      RadiusSuffices(n, chord);
    }
    container := radius * 2 + size + 80;
  }

  // --------------------------------------------------------- no overlaps

  /** Centres this far apart, so that circles of that summed radius do not overlap. */
  predicate Far(dx: int, dy: int, distance: int) {
    dx * dx + dy * dy >= distance * distance
  }

  predicate WithinContainer(v: Node, container: int) {
    && 0 <= 2 * v.x - v.size && 2 * v.x + v.size <= 2 * container
    && 0 <= 2 * v.y - v.size && 2 * v.y + v.size <= 2 * container
  }

  // Real arithmetic, one product at a time.

  lemma SquareIsPositive(a: real)
    ensures a * a >= 0.0
  {
  }

  lemma SquareAtLeast(a: real, b: real)
    requires a >= b >= 0.0
    ensures a * a >= b * b
  {
    assert (a - b) * (a + b) >= 0.0;
    assert (a - b) * (a + b) == a * a - b * b;
  }

  lemma BelowBySquares(a: real, b: real)
    requires b >= 0.0 && a * a < b * b
    ensures -b < a < b
  {
    if a >= b {
      SquareAtLeast(a, b);
    } else if -a >= b {
      SquareAtLeast(-a, b);
    }
  }

  lemma SquareBelow(a: real, b: real)
    requires -b <= a <= b
    ensures a * a <= b * b
  {
    assert (b - a) * (b + a) >= 0.0;
    assert (b - a) * (b + a) == b * b - a * a;
  }

  lemma ProductBelow(w: real, e: real, s: real)
    requires -s < w < s && -2.0 < e < 2.0
    ensures -(w * e) <= 2.0 * s
  {
    if e >= 0.0 {
      assert (s + w) * e >= 0.0;
      assert s * e <= s * 2.0;
    } else {
      assert (s - w) * -e >= 0.0;
      assert s * -e <= s * 2.0;
    }
  }

  lemma Expand(a: real, b: real)
    ensures (a - b) * (a - b) == a * a - 2.0 * (a * b) + b * b
  {
  }

  lemma ScaleSquare(r: real, d: real)
    ensures (r * d) * (r * d) == (r * r) * (d * d)
  {
  }

  /** Moving a vector by less than two pixels each way lengthens it by less than twelve. */
  lemma SmallShift(wx: real, wy: real, ex: real, ey: real, s: real)
    requires s >= 1.0 && -2.0 < ex < 2.0 && -2.0 < ey < 2.0
    requires wx * wx + wy * wy < s * s
    ensures (wx - ex) * (wx - ex) + (wy - ey) * (wy - ey) < (s + 12.0) * (s + 12.0)
  {
    SquareIsPositive(wx);
    SquareIsPositive(wy);
    BelowBySquares(wx, s);
    BelowBySquares(wy, s);
    ProductBelow(wx, ex, s);
    ProductBelow(wy, ey, s);
    SquareBelow(ex, 2.0);
    SquareBelow(ey, 2.0);
    Expand(wx, ex);
    Expand(wy, ey);
    Expand(s, -12.0);
  }

  lemma TruncateError(x: real)
    ensures -1.0 < Truncate(x) as real - x < 1.0
    ensures x >= 0.0 ==> 0 <= Truncate(x) && Truncate(x) as real <= x
    ensures x <= 0.0 ==> Truncate(x) <= 0 && Truncate(x) as real >= x
  {
  }

  /** The radius reaches the gap between neighbours, but for what truncating took; the
      next one does, and it is 180 or falls short itself. */
  lemma RadiusSuffices(n: nat, chord: real)
    requires n >= 2 && 0.0 < chord <= 2.0
    ensures Radius(n, chord) >= 180
    ensures Reaches(Radius(n, chord), chord, NodeSize(n) + 12)
    ensures Reaches(Radius(n, chord) + 1, chord, NodeSize(n) + GAP)
    ensures Reaches(Radius(n, chord), chord, NodeSize(n) + GAP) ==> Radius(n, chord) == 180
  {
    var least := (NodeSize(n) + GAP) as real / chord;
    var r := Radius(n, chord) as real;
    TruncateError(if least > 180.0 then least else 180.0);
    assert r > least - 1.0;
    assert least * chord == (NodeSize(n) + GAP) as real;
    assert r * chord > (least - 1.0) * chord == least * chord - chord;
    assert (r + 1.0) * chord > least * chord;
    if r > 180.0 {
      assert r <= least;
      assert r * chord <= least * chord;
    }
  }

  lemma Widen(k: real, a: real, b: real)
    requires a >= b && k >= 0.0
    ensures k * a >= k * b
  {
  }

  lemma Distribute(k: real, a: real, b: real)
    ensures k * (a + b) == k * a + k * b
  {
  }

  lemma PositiveProduct(a: real, b: real)
    requires a > 0.0 && b > 0.0
    ensures a * b > 0.0
  {
  }

  lemma SquareAbove(a: real, b: real)
    requires a > b >= 0.0
    ensures a * a > b * b
  {
    PositiveProduct(a - b, a + b);
    assert (a - b) * (a + b) == a * a - b * b;
  }

  // ------------------------------------------------ from vectors to pixels

  predicate Longer(dx: real, dy: real, d: real) {
    dx * dx + dy * dy >= d * d
  }

  predicate FarVectors(a: Vector, b: Vector, d: real) {
    Longer(a.x - b.x, a.y - b.y, d)
  }

  predicate Between(x: real, r: real) {
    -r <= x <= r
  }

  predicate InBox(a: Vector, radius: int) {
    Between(a.x, radius as real) && Between(a.y, radius as real)
  }

  /** The point radius pixels out in a direction. */
  function Spot(u: Vector, radius: int): Vector {
    Vector(radius as real * u.x, radius as real * u.y)
  }

  /** Directions a chord apart, r pixels out, are r chords apart. */
  lemma ScaledApart(u: Vector, v: Vector, radius: int, chord: real, d: real)
    requires radius as real * chord > d >= 0.0 && ChordApart(u, v, chord)
    ensures FarVectors(Spot(u, radius), Spot(v, radius), d)
  {
    var r, dx, dy := radius as real, u.x - v.x, u.y - v.y;
    assert r * u.x - r * v.x == r * dx && r * u.y - r * v.y == r * dy;
    ScaleSquare(r, dx);
    ScaleSquare(r, dy);
    ScaleSquare(r, chord);
    Widen(r * r, dx * dx + dy * dy, chord * chord);
    Distribute(r * r, dx * dx, dy * dy);
    SquareAbove(r * chord, d);
  }

  lemma ScaledUnit(u: Vector, radius: int)
    requires Unit(u) && radius >= 172
    ensures FarVectors(Spot(u, radius), Vector(0.0, 0.0), 172.0)
  {
    var r := radius as real;
    ScaleSquare(r, u.x);
    ScaleSquare(r, u.y);
    Distribute(r * r, u.x * u.x, u.y * u.y);
    SquareAtLeast(r, 172.0);
  }

  lemma ScaledInBox(u: Vector, radius: int)
    requires Unit(u) && radius >= 0
    ensures InBox(Spot(u, radius), radius)
  {
    ScaledCoordinate(u.x, u.y, radius as real);
    ScaledCoordinate(u.y, u.x, radius as real);
  }

  lemma ScaledCoordinate(a: real, b: real, r: real)
    requires a * a + b * b == 1.0 && r >= 0.0
    ensures Between(r * a, r)
  {
    SquareIsPositive(b);
    if a > 1.0 {
      SquareAbove(a, 1.0);
    } else if a < -1.0 {
      SquareAbove(-a, 1.0);
    }
    Widen(r, 1.0, a);
    Widen(r, a, -1.0);
    assert r * 1.0 == r && r * -1.0 == -r;
  }

  /** Vectors further apart than d + 12 are further apart than d in whole pixels. */
  lemma PixelsApart(a: Vector, b: Vector, d: int)
    requires d >= 1 && FarVectors(a, b, d as real + 12.0)
    ensures Far(Truncate(a.x) - Truncate(b.x), Truncate(a.y) - Truncate(b.y), d)
  {
    TruncateError(a.x);
    TruncateError(a.y);
    TruncateError(b.x);
    TruncateError(b.y);
    ShiftedApart(Truncate(a.x) - Truncate(b.x), Truncate(a.y) - Truncate(b.y), a.x - b.x, a.y - b.y, d);
  }

  lemma ShiftedApart(wx: int, wy: int, dx: real, dy: real, d: int)
    requires d >= 1 && -2.0 < wx as real - dx < 2.0 && -2.0 < wy as real - dy < 2.0
    requires Longer(dx, dy, d as real + 12.0)
    ensures Far(wx, wy, d)
  {
    if wx * wx + wy * wy < d * d {
      AsReal(wx, wy, d);
      SmallShift(wx as real, wy as real, wx as real - dx, wy as real - dy, d as real);
    }
  }

  lemma AsReal(x: int, y: int, z: int)
    requires x * x + y * y < z * z
    ensures (x as real) * (x as real) + (y as real) * (y as real) < (z as real) * (z as real)
  {
    assert (x * x) as real == (x as real) * (x as real);
    assert (y * y) as real == (y as real) * (y as real);
    assert (z * z) as real == (z as real) * (z as real);
  }

  /** Where the nodes go before truncation: r pixels out in each direction. */
  predicate Spread(spots: seq<Vector>, radius: int, d: int) {
    && (forall i, j | 0 <= i < j < |spots| :: FarVectors(spots[i], spots[j], d as real + 12.0))
    && (forall i | 0 <= i < |spots| :: FarVectors(spots[i], Vector(0.0, 0.0), 172.0) && InBox(spots[i], radius))
  }

  lemma SpotsSpread(directions: seq<Vector>, chord: real, radius: int, d: int, spots: seq<Vector>)
    requires Around(directions, chord) && radius >= 180 && d >= 1 && |spots| == |directions|
    requires |directions| >= 2 ==> radius as real * chord > d as real + 12.0
    requires forall i | 0 <= i < |spots| :: spots[i] == Spot(directions[i], radius)
    ensures Spread(spots, radius, d)
  {
    forall i, j | 0 <= i < j < |spots|
      ensures FarVectors(spots[i], spots[j], d as real + 12.0)
    {
      ScaledApart(directions[i], directions[j], radius, chord, d as real + 12.0);
    }
    forall i | 0 <= i < |spots|
      ensures FarVectors(spots[i], Vector(0.0, 0.0), 172.0) && InBox(spots[i], radius)
    {
      ScaledUnit(directions[i], radius);
      ScaledInBox(directions[i], radius);
    }
  }

  /** A node in its place, given where it was to go. */
  predicate At(v: Node, spot: Vector, center: int) {
    v.x == center + Truncate(spot.x) && v.y == center + Truncate(spot.y)
  }

  predicate PairApart(v: Node, w: Node, d: int) {
    Far(v.x - w.x, v.y - w.y, d)
  }

  lemma NodesApart(v: Node, w: Node, a: Vector, b: Vector, center: int, d: int)
    requires At(v, a, center) && At(w, b, center) && d >= 1 && FarVectors(a, b, d as real + 12.0)
    ensures PairApart(v, w, d)
  {
    PixelsApart(a, b, d);
  }

  predicate ClearOfCenter(v: Node, center: int) {
    Far(v.x - center, v.y - center, (v.size + CENTER_SIZE) / 2)
  }

  lemma NodeClear(v: Node, a: Vector, center: int)
    requires At(v, a, center) && FarVectors(a, Vector(0.0, 0.0), 172.0) && v.size in {92, 112, 140}
    ensures ClearOfCenter(v, center)
  {
    PixelsApart(a, Vector(0.0, 0.0), 160);
    Nearer(v.x - center, v.y - center, (v.size + CENTER_SIZE) / 2);
  }

  lemma Nearer(dx: int, dy: int, d: int)
    requires Far(dx, dy, 160) && (d == 136 || d == 146 || d == 160)
    ensures Far(dx, dy, d)
  {
  }

  lemma TruncateBound(x: real, n: int)
    requires Between(x, n as real)
    ensures -n <= Truncate(x) <= n
  {
  }

  lemma NodeWithin(v: Node, a: Vector, radius: int)
    requires InBox(a, radius) && v.size % 2 == 0 && At(v, a, radius + v.size / 2 + 40)
    ensures WithinContainer(v, 2 * radius + v.size + 80)
  {
    TruncateBound(a.x, radius);
    TruncateBound(a.y, radius);
  }

  /** All nodes apart from each other and from the centre, and inside the container. */
  predicate Separate(nodes: seq<Node>, size: int, container: int) {
    && (forall i, j | 0 <= i < j < |nodes| :: PairApart(nodes[i], nodes[j], size))
    && (forall i | 0 <= i < |nodes| :: ClearOfCenter(nodes[i], container / 2) && WithinContainer(nodes[i], container))
  }

  function PlaceNode(key: string, u: Vector, radius: int, size: int, center: int, i: nat): Node {
    Node(key, center + Truncate(radius as real * u.x), center + Truncate(radius as real * u.y), size, i % COLORS)
  }

  method PlaceNodes(keys: seq<string>, directions: seq<Vector>, radius: int, size: int, center: int)
    returns (nodes: array<Node>)
    requires |directions| == |keys|
    ensures fresh(nodes) && nodes.Length == |keys|
    ensures forall i | 0 <= i < |keys| :: nodes[i] == PlaceNode(keys[i], directions[i], radius, size, center, i)
  {
    var n := |keys|;
    nodes := new Node[n](_ => Node("", 0, 0, 0, 0));
    for i := 0 to n
      invariant forall k | 0 <= k < i :: nodes[k] == PlaceNode(keys[k], directions[k], radius, size, center, k)
    {
      nodes[i] := PlaceNode(keys[i], directions[i], radius, size, center, i);
    }
  }

  /** Lays out any number of entries, in order. */
  method LayoutNodes(keys: seq<string>, directions: seq<Vector>, chord: real)
    returns (nodes: array<Node>, container: int)
    requires |directions| == |keys| && Around(directions, chord)
    ensures fresh(nodes) && nodes.Length == |keys|
    ensures forall i | 0 <= i < |keys| ::
              nodes[i].key == keys[i] && nodes[i].size == NodeSize(|keys|) && nodes[i].color == i % COLORS
    ensures Separate(nodes[..], NodeSize(|keys|), container)
  {
    var n := |keys|;
    var radius, size;
    container, radius, size := Geometry(n, chord);
    nodes := PlaceNodes(keys, directions, radius, size, container / 2);
    LaidOut(keys, nodes[..], directions, chord, radius, size, container);
  }

  function Spots(directions: seq<Vector>, radius: int): seq<Vector> {
    seq(|directions|, i requires 0 <= i < |directions| => Spot(directions[i], radius))
  }

  lemma PlacedAt(key: string, u: Vector, radius: int, size: int, center: int, i: nat)
    ensures At(PlaceNode(key, u, radius, size, center, i), Spot(u, radius), center)
  {
  }

  lemma LaidOut(keys: seq<string>, nodes: seq<Node>, directions: seq<Vector>, chord: real,
                radius: int, size: int, container: int)
    requires |nodes| == |keys| == |directions| && Around(directions, chord)
    requires size in {92, 112, 140} && radius >= 180 && container == 2 * (radius + size / 2 + 40)
    requires |nodes| >= 2 ==> Reaches(radius, chord, size + 12)
    requires forall i | 0 <= i < |nodes| ::
               nodes[i] == PlaceNode(keys[i], directions[i], radius, size, container / 2, i)
    ensures Separate(nodes, size, container)
  {
    forall i | 0 <= i < |nodes|
      ensures nodes[i].size == size && At(nodes[i], Spots(directions, radius)[i], container / 2)
    {
      PlacedAt(keys[i], directions[i], radius, size, container / 2, i);
    }
    SpotsSpread(directions, chord, radius, size, Spots(directions, radius));
    Separated(nodes, Spots(directions, radius), radius, size);
  }

  lemma Separated(nodes: seq<Node>, spots: seq<Vector>, radius: int, size: int)
    requires |nodes| == |spots| && Spread(spots, radius, size) && size in {92, 112, 140}
    requires forall i | 0 <= i < |nodes| :: nodes[i].size == size && At(nodes[i], spots[i], radius + size / 2 + 40)
    ensures forall i, j | 0 <= i < j < |nodes| :: PairApart(nodes[i], nodes[j], size)
    ensures forall i | 0 <= i < |nodes| ::
              ClearOfCenter(nodes[i], radius + size / 2 + 40) && WithinContainer(nodes[i], 2 * radius + size + 80)
  {
    forall i, j | 0 <= i < j < |nodes|
      ensures PairApart(nodes[i], nodes[j], size)
    {
      NodesApart(nodes[i], nodes[j], spots[i], spots[j], radius + size / 2 + 40, size);
    }
    forall i | 0 <= i < |nodes|
      ensures ClearOfCenter(nodes[i], radius + size / 2 + 40) && WithinContainer(nodes[i], 2 * radius + size + 80)
    {
      NodeClear(nodes[i], spots[i], radius + size / 2 + 40);
      NodeWithin(nodes[i], spots[i], radius);
    }
  }
}

/**
 * Arrays as numpy holds them for this application: rectangular 2-D grids, boxes clipped
 * to an image, counts over a window of a grid, and segmentation tensors of rank 2, 3 or 4
 * with the "maximum over the leading axis" reduction.
 */
module Tensors {
  import opened Wrappers

  // ---------------------------------------------------------------------------
  // Numbers
  // ---------------------------------------------------------------------------

  /** Python's `int(x)` on a float: truncation toward zero. */
  function Trunc(x: real): (n: int)
    ensures x >= 0.0 ==> n as real <= x < n as real + 1.0
    ensures x < 0.0 ==> n as real - 1.0 < x <= n as real
  {
    if x >= 0.0 then x.Floor else -((-x).Floor)
  }

  function Min(a: int, b: int): int {
    if a <= b then a else b
  }

  function Max(a: int, b: int): int {
    if a >= b then a else b
  }

  function MaxReal(a: real, b: real): real {
    if a >= b then a else b
  }

  // ---------------------------------------------------------------------------
  // Grids and windows
  // ---------------------------------------------------------------------------

  /** Every plane of `ps` has shape (h, w). */
  predicate AllShaped<T>(ps: seq<seq<seq<T>>>, h: nat, w: nat) {
    && (forall c :: 0 <= c < |ps| ==> |ps[c]| == h)
    && (forall c, i :: 0 <= c < |ps| && 0 <= i < h ==> |ps[c][i]| == w)
  }

  /** `g.shape == (h, w)`: `h` rows of `w` cells. */
  predicate HasShape<T>(g: seq<seq<T>>, h: nat, w: nat) {
    |g| == h && forall i :: 0 <= i < h ==> |g[i]| == w
  }

  /** The number of columns of a rectangular grid (`shape[1]`). */
  function Width<T>(g: seq<seq<T>>): nat {
    if g == [] then 0 else |g[0]|
  }

  predicate IsRect<T>(g: seq<seq<T>>) {
    HasShape(g, |g|, Width(g))
  }

  /** A window [x1, x2) × [y1, y2) in pixel coordinates. */
  datatype Window = Window(x1: int, y1: int, x2: int, y2: int) {
    predicate IsEmpty() {
      x2 <= x1 || y2 <= y1
    }

    function Area(): int {
      (x2 - x1) * (y2 - y1)
    }
  }

  /** The box `x1, y1, x2, y2` clipped to a `w` × `h` image: `max(0, x1)`, `max(0, y1)`, `min(w, x2)`, `min(h, y2)`. */
  function Clip(x1: int, y1: int, x2: int, y2: int, w: nat, h: nat): (r: Window)
    ensures 0 <= r.x1 && 0 <= r.y1 && r.x2 <= w && r.y2 <= h
    ensures r.x1 >= x1 && r.y1 >= y1 && r.x2 <= x2 && r.y2 <= y2
    ensures !r.IsEmpty() ==> 0 <= r.x1 < r.x2 <= w && 0 <= r.y1 < r.y2 <= h && r.Area() >= 1
  {
    var r := Window(Max(0, x1), Max(0, y1), Min(w, x2), Min(h, y2));
    if !r.IsEmpty() then
      PositiveProduct(r.x2 - r.x1, r.y2 - r.y1);
      r
    else r
  }

  lemma PositiveProduct(a: int, b: int)
    requires a >= 1 && b >= 1
    ensures a * b >= 1
  {
    assert a * b >= 1 * b;
  }

  lemma ProductStep(a: int, n: int)
    ensures a * (n + 1) == a + a * n
  {
  }

  /** The number of cells of `row` that satisfy `p`. */
  function CountRow<T>(row: seq<T>, p: T -> bool): (n: nat)
    ensures n <= |row|
  {
    if row == [] then 0 else (if p(row[0]) then 1 else 0) + CountRow(row[1..], p)
  }

  predicate InGrid<T>(g: seq<seq<T>>, r: Window) {
    && 0 <= r.y1 <= r.y2 <= |g|
    && 0 <= r.x1 <= r.x2
    && forall i :: r.y1 <= i < r.y2 ==> r.x2 <= |g[i]|
  }

  /** The number of cells of `g[y1:y2, x1:x2]` that satisfy `p` (`np.sum(p(window))`, `cv2.countNonZero`). */
  function CountWindow<T>(g: seq<seq<T>>, r: Window, p: T -> bool): (n: nat)
    requires InGrid(g, r)
    ensures n <= (r.x2 - r.x1) * (r.y2 - r.y1)
    decreases r.y2 - r.y1
  {
    if r.y1 == r.y2 then 0
    else
      var rest := CountWindow(g, r.(y1 := r.y1 + 1), p);
      var here := CountRow(g[r.y1][r.x1..r.x2], p);
      ProductStep(r.x2 - r.x1, r.y2 - (r.y1 + 1));
      here + rest
  }

  // ---------------------------------------------------------------------------
  // Segmentation tensors
  // ---------------------------------------------------------------------------

  /** One channel of a segmentation output: per-pixel scores. */
  type Plane = seq<seq<real>>

  /**
   * A segmentation array by rank: (H, W), (C, H, W) or (N, C, H, W). Arrays of any other
   * rank are only told apart by their rank.
   */
  datatype Tensor =
    | Rank2(plane: Plane)
    | Rank3(planes: seq<Plane>)
    | Rank4(batch: seq<seq<Plane>>)
    | OtherRank(rank: nat)
  {
    function Rank(): nat {
      match this
      case Rank2(_) => 2
      case Rank3(_) => 3
      case Rank4(_) => 4
      case OtherRank(k) => k
    }

    /** The size of the second-to-last axis (0 when there is no plane to read it from). */
    function PlaneHeight(): nat {
      match this
      case Rank2(p) => |p|
      case Rank3(ps) => if ps == [] then 0 else |ps[0]|
      case Rank4(b) => if b == [] || b[0] == [] then 0 else |b[0][0]|
      case OtherRank(_) => 0
    }

    /** The size of the last axis (0 when there is no plane to read it from). */
    function PlaneWidth(): nat {
      match this
      case Rank2(p) => Width(p)
      case Rank3(ps) => if ps == [] then 0 else Width(ps[0])
      case Rank4(b) => if b == [] || b[0] == [] then 0 else Width(b[0][0])
      case OtherRank(_) => 0
    }

    /** Rectangular, as every numpy array is. */
    predicate Valid() {
      Shaped(this, PlaneHeight(), PlaneWidth())
    }

    /** `len(t)`: the size of the leading axis. */
    function Length(): nat {
      match this
      case Rank2(p) => |p|
      case Rank3(ps) => |ps|
      case Rank4(b) => |b|
      case OtherRank(_) => 0
    }
  }

  /** A segmentation array as numpy holds it. */
  type Array = t: Tensor | t.Valid() witness OtherRank(0)

  /** A numpy array's trailing axes are (h, w) and its leading axes have one size each. */
  predicate Shaped(t: Tensor, h: nat, w: nat) {
    match t
    case Rank2(p) => HasShape(p, h, w)
    case Rank3(ps) => AllShaped(ps, h, w)
    case Rank4(b) =>
      && (forall s :: 0 <= s < |b| ==> |b[s]| == |b[0]|)
      && (forall s :: 0 <= s < |b| ==> AllShaped(b[s], h, w))
    case OtherRank(k) => k < 2 || k > 4
  }

  /** `t[i]` for an index inside the leading axis: one rank less. Rank-2 rows are not segmentation data. */
  function Index(t: Tensor, i: nat): (r: Tensor)
    requires i < t.Length()
    ensures t.Rank() == 4 ==> r.Rank() == 3
    ensures t.Rank() == 3 ==> r.Rank() == 2
    ensures t.Valid() ==> r.Valid()
  {
    match t
    case Rank2(_) => OtherRank(1)
    case Rank3(ps) => Rank2(ps[i])
    case Rank4(b) => Rank3(b[i])
  }

  /** The largest element of a non-empty sequence. */
  function MaxOf(xs: seq<real>): (m: real)
    requires |xs| >= 1
    ensures forall k :: 0 <= k < |xs| ==> xs[k] <= m
    ensures exists k :: 0 <= k < |xs| && xs[k] == m
  {
    if |xs| == 1 then xs[0]
    else
      var rest := MaxOf(xs[1..]);
      assert forall k :: 1 <= k < |xs| ==> xs[k] == xs[1..][k - 1];
      var m := MaxReal(xs[0], rest);
      if m == xs[0] then m
      else
        var k :| 0 <= k < |xs[1..]| && xs[1..][k] == rest;
        assert xs[k + 1] == m;
        m
  }

  /** The largest score of any plane at pixel (i, j). */
  function CellMax(ps: seq<Plane>, h: nat, w: nat, i: nat, j: nat): (m: real)
    requires |ps| >= 1 && AllShaped(ps, h, w) && i < h && j < w
    ensures forall c :: 0 <= c < |ps| ==> ps[c][i][j] <= m
    ensures exists c :: 0 <= c < |ps| && ps[c][i][j] == m
  {
    var xs := seq(|ps|, c requires 0 <= c < |ps| => ps[c][i][j]);
    assert forall c :: 0 <= c < |ps| ==> xs[c] == ps[c][i][j];
    MaxOf(xs)
  }

  /** Row `i` of the cell-wise maximum. */
  function MaxRow(ps: seq<Plane>, h: nat, w: nat, i: nat): (row: seq<real>)
    requires |ps| >= 1 && AllShaped(ps, h, w) && i < h
    ensures |row| == w && forall j :: 0 <= j < w ==> row[j] == CellMax(ps, h, w, i, j)
  {
    seq(w, j requires 0 <= j < w => CellMax(ps, h, w, i, j))
  }

  /** `np.max(planes, axis=0)`: the cell-wise maximum of equally shaped planes. */
  function MaxPlanes(ps: seq<Plane>, h: nat, w: nat): (r: Plane)
    requires |ps| >= 1
    requires AllShaped(ps, h, w)
    ensures HasShape(r, h, w)
    ensures forall i :: 0 <= i < h ==> r[i] == MaxRow(ps, h, w, i)
  {
    seq(h, i requires 0 <= i < h => MaxRow(ps, h, w, i))
  }

  /** At every pixel the cell-wise maximum is some plane's score there, and no plane's score exceeds it. */
  lemma MaxPlanesAt(ps: seq<Plane>, h: nat, w: nat, i: nat, j: nat)
    requires |ps| >= 1 && AllShaped(ps, h, w) && i < h && j < w
    ensures forall c :: 0 <= c < |ps| ==> ps[c][i][j] <= MaxPlanes(ps, h, w)[i][j]
    ensures exists c :: 0 <= c < |ps| && ps[c][i][j] == MaxPlanes(ps, h, w)[i][j]
  {
    assert MaxPlanes(ps, h, w)[i][j] == CellMax(ps, h, w, i, j);
  }

  /** `b[:, c]`: channel `c` of every sample. */
  function Column(b: seq<seq<Plane>>, c: nat, h: nat, w: nat): (col: seq<Plane>)
    requires Shaped(Rank4(b), h, w) && |b| >= 1 && c < |b[0]|
    ensures |col| == |b| && AllShaped(col, h, w)
    ensures forall s :: 0 <= s < |b| ==> col[s] == b[s][c]
  {
    seq(|b|, s requires 0 <= s < |b| => b[s][c])
  }

  /**
   * `t.max(axis=0)` on a rank-3 or rank-4 tensor. `None` where numpy raises: a reduction
   * over an empty leading axis has no identity.
   */
  function ReduceLeading(t: Tensor, h: nat, w: nat): (r: Option<Tensor>)
    requires t.Rank3? || t.Rank4?
    requires Shaped(t, h, w)
    ensures r.None? <==> t.Length() == 0
    ensures r.Some? ==> r.value.Rank() == t.Rank() - 1 && Shaped(r.value, h, w)
  {
    match t
    case Rank3(ps) =>
      if |ps| == 0 then None else Some(Rank2(MaxPlanes(ps, h, w)))
    case Rank4(b) =>
      if |b| == 0 then None
      else
        var channels := |b[0]|;
        Some(Rank3(seq(channels, c requires 0 <= c < channels => MaxPlanes(Column(b, c, h, w), h, w))))
  }

  /** The rank-2 array left after reducing every leading axis, or `None` if some reduction raises. */
  function ReduceAll(t: Tensor, h: nat, w: nat): Option<Plane>
    requires t.Rank2? || t.Rank3? || t.Rank4?
    requires Shaped(t, h, w)
    decreases t.Rank()
  {
    if t.Rank2? then Some(t.plane)
    else
      match ReduceLeading(t, h, w)
      case None => None
      case Some(t') => ReduceAll(t', h, w)
  }

  /** Reducing a (C, H, W) tensor is the cell-wise maximum over its channels; no channels raises. */
  lemma ReduceAllRank3(ps: seq<Plane>, h: nat, w: nat)
    requires Shaped(Rank3(ps), h, w)
    ensures |ps| == 0 ==> ReduceAll(Rank3(ps), h, w).None?
    ensures |ps| >= 1 ==> ReduceAll(Rank3(ps), h, w) == Some(MaxPlanes(ps, h, w))
  {
    if |ps| > 0 {
      var r := MaxPlanes(ps, h, w);
      assert ReduceAll(Rank2(r), h, w) == Some(r);
    }
  }

  /** `r[i][j]` is the largest score at pixel (i, j) over all samples and channels of `b`. */
  predicate PixelMax(b: seq<seq<Plane>>, r: Plane, i: nat, j: nat)
    requires forall s, c :: 0 <= s < |b| && 0 <= c < |b[s]| ==> i < |b[s][c]| && j < |b[s][c][i]|
    requires i < |r| && j < |r[i]|
  {
    && (forall s, c :: 0 <= s < |b| && 0 <= c < |b[s]| ==> b[s][c][i][j] <= r[i][j])
    && (exists s, c :: 0 <= s < |b| && 0 <= c < |b[s]| && b[s][c][i][j] == r[i][j])
  }

  /** `r` holds, at every pixel, the largest score over all samples and channels of `b`. */
  predicate IsBatchMax(b: seq<seq<Plane>>, r: Plane, h: nat, w: nat)
    requires Shaped(Rank4(b), h, w)
  {
    && HasShape(r, h, w)
    && (forall i, j :: 0 <= i < h && 0 <= j < w ==> PixelMax(b, r, i, j))
  }

  /**
   * Reducing an (N, C, H, W) tensor gives, at every pixel, the largest score over all
   * samples and channels; an empty sample or channel axis raises.
   */
  lemma ReduceAllRank4(b: seq<seq<Plane>>, h: nat, w: nat)
    requires Shaped(Rank4(b), h, w)
    ensures ReduceAll(Rank4(b), h, w).None? <==> |b| == 0 || |b[0]| == 0
    ensures ReduceAll(Rank4(b), h, w).Some? ==> IsBatchMax(b, ReduceAll(Rank4(b), h, w).value, h, w)
  {
    if |b| > 0 {
      var t' := ReduceLeading(Rank4(b), h, w).value;
      var ps := t'.planes;
      ReduceAllRank3(ps, h, w);
      if |ps| > 0 {
        var r := MaxPlanes(ps, h, w);
        assert ReduceAll(Rank4(b), h, w) == Some(r);
        forall i, j | 0 <= i < h && 0 <= j < w
          ensures PixelMax(b, r, i, j)
        {
          forall s, c | 0 <= s < |b| && 0 <= c < |b[s]|
            ensures b[s][c][i][j] <= r[i][j]
          {
            Rank4CellBound(b, h, w, i, j, s, c);
          }
          Rank4CellAttained(b, h, w, i, j);
        }
      }
    }
  }

  /** Channel `c` of a reduced batch is the maximum over the samples of channel `c`. */
  lemma ReducedChannel(b: seq<seq<Plane>>, h: nat, w: nat, c: nat)
    requires Shaped(Rank4(b), h, w) && |b| >= 1 && c < |b[0]|
    ensures |ReduceLeading(Rank4(b), h, w).value.planes| == |b[0]|
    ensures ReduceLeading(Rank4(b), h, w).value.planes[c] == MaxPlanes(Column(b, c, h, w), h, w)
  {
  }

  lemma Rank4CellBound(b: seq<seq<Plane>>, h: nat, w: nat, i: nat, j: nat, s: nat, c: nat)
    requires Shaped(Rank4(b), h, w) && |b| >= 1 && i < h && j < w && s < |b| && c < |b[s]|
    ensures b[s][c][i][j] <= MaxPlanes(ReduceLeading(Rank4(b), h, w).value.planes, h, w)[i][j]
  {
    var ps := ReduceLeading(Rank4(b), h, w).value.planes;
    var col := Column(b, c, h, w);
    ReducedChannel(b, h, w, c);
    MaxPlanesAt(col, h, w, i, j);
    assert col[s] == b[s][c];
    MaxPlanesAt(ps, h, w, i, j);
  }

  lemma Rank4CellAttained(b: seq<seq<Plane>>, h: nat, w: nat, i: nat, j: nat)
    requires Shaped(Rank4(b), h, w) && |b| >= 1 && |b[0]| >= 1 && i < h && j < w
    ensures var r := MaxPlanes(ReduceLeading(Rank4(b), h, w).value.planes, h, w);
      exists s, c :: 0 <= s < |b| && 0 <= c < |b[s]| && b[s][c][i][j] == r[i][j]
  {
    var ps := ReduceLeading(Rank4(b), h, w).value.planes;
    var r := MaxPlanes(ps, h, w);
    MaxPlanesAt(ps, h, w, i, j);
    var c :| 0 <= c < |ps| && ps[c][i][j] == r[i][j];
    var col := Column(b, c, h, w);
    ReducedChannel(b, h, w, c);
    MaxPlanesAt(col, h, w, i, j);
    var s :| 0 <= s < |col| && col[s][i][j] == ps[c][i][j];
    assert col[s] == b[s][c] && |b[s]| == |b[0]|;
    assert 0 <= s < |b| && 0 <= c < |b[s]| && b[s][c][i][j] == r[i][j];
  }

  /** `(x * 255).astype(np.uint8)`: truncation, then wrap-around into 0..255. */
  function ToByte(x: real): (b: nat)
    ensures b < 256
    ensures 0.0 <= x <= 1.0 ==> b as real <= x * 255.0 < b as real + 1.0
  {
    Trunc(x * 255.0) % 256
  }

  /** For a score in [0, 1] the stored byte is non-zero exactly when the score is at least 1/255. */
  lemma ToBytePositive(x: real)
    requires 0.0 <= x <= 1.0
    ensures ToByte(x) > 0 <==> x >= 1.0 / 255.0
  {
  }
}

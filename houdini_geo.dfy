/** The Houdini grid geometry the level-generation scripts work on: one point
    per cell, with a position, the primitives (grid faces) it belongs to, and
    the two point attributes the scripts read and write, `tile_type` and
    `class`. */
module HoudiniGeo {

  /** The values the scripts store in the `tile_type` string attribute. */
  datatype Kind = Wall | Empty | Player | Stairs | Enemy | EnemyShooter | Coin | Health | Breakable

  datatype Pos = Pos(x: real, z: real)

  class Geometry {
    /** Point positions, indexed by point number. */
    const pts: seq<Pos>
    /** For each primitive, the numbers of its points. */
    const prims: seq<seq<nat>>
    /** The geometry's bounding box, as `geo.boundingBox()` reports it. */
    const bboxMin: Pos
    const bboxMax: Pos
    /** The `tile_type` attribute of each point. */
    const tile: array<Kind>
    /** The `class` attribute of each point; meaningful only when `hasClass`. */
    const cls: array<int>
    var hasClass: bool

    ghost predicate Valid()
      reads this
    {
      tile.Length == |pts| && cls.Length == |pts| && PrimsWithin(prims, |pts|)
    }

    /** A fresh grid in which every cell is a wall and the `class` attribute
        does not exist yet. */
    constructor (pts: seq<Pos>, prims: seq<seq<nat>>, bboxMin: Pos, bboxMax: Pos)
      requires PrimsWithin(prims, |pts|)
      ensures Valid() && fresh(tile) && fresh(cls) && !hasClass
      ensures this.pts == pts && this.prims == prims
      ensures this.bboxMin == bboxMin && this.bboxMax == bboxMax
      ensures forall p :: 0 <= p < |pts| ==> tile[p] == Wall
    {
      this.pts := pts;
      this.prims := prims;
      this.bboxMin := bboxMin;
      this.bboxMax := bboxMax;
      tile := new Kind[|pts|](_ => Wall);
      cls := new int[|pts|](_ => -1);
      hasClass := false;
    }
  }

  /** Every primitive lists only existing point numbers. */
  predicate PrimsWithin(prims: seq<seq<nat>>, n: nat) {
    forall i, j :: 0 <= i < |prims| && 0 <= j < |prims[i]| ==> prims[i][j] < n
  }

  /** Two points are neighbours when one primitive holds both
      (`for prim in pt.prims(): for n in prim.points()`). */
  predicate Adjacent(prims: seq<seq<nat>>, p: nat, q: nat) {
    exists i :: 0 <= i < |prims| && p in prims[i] && q in prims[i]
  }

  lemma AdjacentSymmetric(prims: seq<seq<nat>>, p: nat, q: nat)
    requires Adjacent(prims, p, q)
    ensures Adjacent(prims, q, p)
  {
    var i :| 0 <= i < |prims| && p in prims[i] && q in prims[i];
  }

  /** The number of points of each kind, counted over a snapshot of `tile_type`. */
  function CountKind(s: seq<Kind>, k: Kind): (n: nat)
    ensures n <= |s|
  {
    if s == [] then 0 else (if s[|s| - 1] == k then 1 else 0) + CountKind(s[..|s| - 1], k)
  }

  /** Changing one point's kind moves it from one count to the other. */
  lemma {:induction false} CountKindUpdate(s: seq<Kind>, i: nat, v: Kind, k: Kind)
    requires i < |s|
    ensures CountKind(s[i := v], k) ==
      CountKind(s, k) - (if s[i] == k then 1 else 0) + (if v == k then 1 else 0)
    decreases |s|
  {
    var t := s[i := v];
    if i < |s| - 1 {
      assert t[..|t| - 1] == s[..|s| - 1][i := v];
      CountKindUpdate(s[..|s| - 1], i, v, k);
    } else {
      assert t[..|t| - 1] == s[..|s| - 1];
    }
  }

  /** The scan `for pt in geo.points(): if tile_type == k: lst.append(pt)`:
      the points of kind k, in point order. */
  method CollectKind(tile: array<Kind>, k: Kind) returns (pts: seq<nat>)
    ensures |pts| == CountKind(tile[..], k)
    ensures forall i :: 0 <= i < |pts| ==> pts[i] < tile.Length && tile[pts[i]] == k
    ensures forall i, j :: 0 <= i < j < |pts| ==> pts[i] < pts[j]
    ensures forall p :: 0 <= p < tile.Length && tile[p] == k ==> p in pts
  {
    pts := [];
    var p := 0;
    while p < tile.Length
      invariant 0 <= p <= tile.Length
      invariant |pts| == CountKind(tile[..p], k)
      invariant forall i :: 0 <= i < |pts| ==> pts[i] < p && tile[pts[i]] == k
      invariant forall i, j :: 0 <= i < j < |pts| ==> pts[i] < pts[j]
      invariant forall q :: 0 <= q < p && tile[q] == k ==> q in pts
    {
      assert tile[..p + 1][..p] == tile[..p];
      if tile[p] == k {
        pts := pts + [p];
      }
      p := p + 1;
    }
    assert tile[..p] == tile[..];
  }
}

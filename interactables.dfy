/** 6_CREATE_INTERACTABLES.py: the ratio-based loot system that scatters coins
    and health packs over the empty points, and the edge/thick split that picks
    which walls become breakable. */
module Interactables {
  import opened Wrappers
  import opened Rng
  import opened Common
  import opened HoudiniGeo

  /** The five controller parameters the script reads. */
  datatype Params = Params(loot: real, coin: real, health: real, breakable: real, edgeBias: real)

  /** Any missing parameter makes the script fall back to all five defaults. */
  function ParamsOf(controller: Option<Params>): (p: Params)
    ensures controller.Some? ==> p == controller.value
    ensures controller.None? ==> p == Params(1.0, 0.5, 0.25, 0.3, 1.0)
  {
    if controller.Some? then controller.value else Params(1.0, 0.5, 0.25, 0.3, 1.0)
  }

  // ---------------------------------------------------------------- ratios

  /** One entry of the `loot_types` dictionary. */
  datatype LootType = LootType(ratio: real, tile: Kind, normalized: real)

  /** The normalised ratio of one entry: its share of the total, or 0 when the
      total is not positive. */
  function Norm(ratio: real, total: real): (n: real)
    ensures total > 0.0 ==> n * total == ratio
    ensures total <= 0.0 ==> n == 0.0
  {
    if total > 0.0 then ratio / total else 0.0
  }

  ghost predicate Keyed(names: seq<string>, types: map<string, LootType>) {
    forall n :: n in names ==> n in types
  }

  /** Every listed entry's normalised ratio is its ratio against `total`. */
  ghost predicate NormalizedBy(names: seq<string>, types: map<string, LootType>, total: real)
    requires Keyed(names, types)
  {
    forall j :: 0 <= j < |names| ==> types[names[j]].normalized == Norm(types[names[j]].ratio, total)
  }

  /** Sum of the raw ratios, `sum(loot['ratio'] for loot in values())`. */
  function SumRatio(names: seq<string>, types: map<string, LootType>): real
    requires Keyed(names, types)
  {
    if names == [] then 0.0
    else SumRatio(names[..|names| - 1], types) + types[names[|names| - 1]].ratio
  }

  function SumNormalized(names: seq<string>, types: map<string, LootType>): real
    requires Keyed(names, types)
  {
    if names == [] then 0.0
    else SumNormalized(names[..|names| - 1], types) + types[names[|names| - 1]].normalized
  }

  /** Normalising by a positive total divides the sum by that total. */
  lemma {:induction false} SumNormalizedScales(names: seq<string>, types: map<string, LootType>, total: real)
    requires Keyed(names, types) && total > 0.0
    requires NormalizedBy(names, types, total)
    ensures SumNormalized(names, types) * total == SumRatio(names, types)
    decreases |names|
  {
    if names != [] {
      var pre := names[..|names| - 1];
      var last := types[names[|names| - 1]];
      PrefixNormalized(names, types, total);
      SumNormalizedScales(pre, types, total);
      AddScaled(SumNormalized(pre, types), last.normalized, total, SumRatio(pre, types), last.ratio);
    }
  }

  /** Dropping the last name keeps the remaining names keyed and normalised;
      the last entry's share times the total is its ratio. */
  lemma PrefixNormalized(names: seq<string>, types: map<string, LootType>, total: real)
    requires Keyed(names, types) && total > 0.0 && names != []
    requires NormalizedBy(names, types, total)
    ensures Keyed(names[..|names| - 1], types) && NormalizedBy(names[..|names| - 1], types, total)
    ensures types[names[|names| - 1]].normalized * total == types[names[|names| - 1]].ratio
  {
    var pre := names[..|names| - 1];
    assert forall n :: n in pre ==> n in names;
    assert forall j :: 0 <= j < |pre| ==> pre[j] == names[j];
  }

  lemma AddScaled(a: real, b: real, t: real, ra: real, rb: real)
    requires a * t == ra && b * t == rb
    ensures (a + b) * t == ra + rb
  {
  }

  /** The normalised ratios of all entries add up to 1 whenever the total
      ratio is positive. */
  lemma NormalizedSumIsOne(names: seq<string>, types: map<string, LootType>, total: real)
    requires Keyed(names, types) && total == SumRatio(names, types) && total > 0.0
    requires NormalizedBy(names, types, total)
    ensures SumNormalized(names, types) == 1.0
  {
    SumNormalizedScales(names, types, total);
    var x, r := SumNormalized(names, types), SumRatio(names, types);
    assert x * total == r;
    assert r == total;
    assert x * total == total;
    DivideOut(SumNormalized(names, types), total);
  }

  lemma DivideOut(x: real, t: real)
    requires t > 0.0 && x * t == t
    ensures x == 1.0
  {
  }

  // ---------------------------------------------------------------- counts

  /** `int(total_points * (individual * (global * 0.1)))`. The type's ratio
      plays no part in it. */
  function CountFor(totalPoints: nat, individual: real, global: real): int
  {
    Trunc(totalPoints as real * (individual * (global * 0.1)))
  }

  /** `individual_densities.get(name, 0.5)`. */
  function IndividualDensity(individual: map<string, real>, name: string): (d: real)
    ensures name in individual ==> d == individual[name]
    ensures name !in individual ==> d == 0.5
  {
    if name in individual then individual[name] else 0.5
  }

  /** Non-negative densities whose product with 0.1 stays within 1 plan a
      count between 0 and the number of points. */
  lemma CountForBounded(totalPoints: nat, individual: real, global: real)
    requires 0.0 <= individual && 0.0 <= global && individual * global <= 10.0
    ensures 0 <= CountFor(totalPoints, individual, global) <= totalPoints
  {
    var p := individual * global;
    assert 0.0 <= p;
    var e := individual * (global * 0.1);
    assert e == p * 0.1;
    assert 0.0 <= e <= 1.0;
    TruncScaled(totalPoints, e);
  }

  /** One entry of the `counts` dictionary returned by `get_loot_counts`. */
  datatype LootCount = LootCount(name: string, count: int, tile: Kind, ratio: real)

  // ---------------------------------------------------------------- placement plan

  /** A type placing `count` items when `room` points are left takes
      `min(count, room)` of them, and none for a negative count. */
  function Take(count: int, room: nat): (n: nat)
    ensures n <= room
    ensures count >= 0 ==> n == Min(count, room)
    ensures count < 0 ==> n == 0
  {
    if count <= 0 then 0 else if count < room then count else room
  }


  /** The tile kinds written by the successive pops, in pop order: each type's
      share in dictionary order. */
  function Plan(counts: seq<LootCount>, room: nat): (p: seq<Kind>)
    ensures |p| <= room
    decreases |counts|
  {
    if counts == [] then []
    else
      var pre := Plan(counts[..|counts| - 1], room);
      var last := counts[|counts| - 1];
      pre + Rep(last.tile, Take(last.count, room - |pre|))
  }

  /** `results` of `place_loot_with_ratios`: each type's name with the
      number of points it actually got. */
  function LootResults(counts: seq<LootCount>, room: nat): (r: seq<(string, nat)>)
    ensures |r| == |counts|
    ensures forall i :: 0 <= i < |r| ==> r[i].0 == counts[i].name && r[i].1 <= room
    decreases |counts|
  {
    if counts == [] then []
    else
      var pre := counts[..|counts| - 1];
      LootResults(pre, room) + [(counts[|counts| - 1].name, Take(counts[|counts| - 1].count, room - |Plan(pre, room)|))]
  }

  /** The placed counts add up to the length of the plan, so never to more
      than the points available. */
  lemma {:induction false} LootResultsTotal(counts: seq<LootCount>, room: nat)
    ensures SumPlaced(LootResults(counts, room)) == |Plan(counts, room)| <= room
    decreases |counts|
  {
    if counts != [] {
      var pre := counts[..|counts| - 1];
      LootResultsTotal(pre, room);
      var r := LootResults(counts, room);
      assert r[..|r| - 1] == LootResults(pre, room);
    }
  }

  /** `n` copies of one tile kind. */
  function Rep(k: Kind, n: nat): (r: seq<Kind>)
    ensures |r| == n && forall i :: 0 <= i < n ==> r[i] == k
    decreases n
  {
    if n == 0 then [] else Rep(k, n - 1) + [k]
  }

  function SumPlaced(results: seq<(string, nat)>): nat {
    if results == [] then 0 else SumPlaced(results[..|results| - 1]) + results[|results| - 1].1
  }

  /** The shuffled copy of the available points, `random.shuffle(points_copy)`. */
  function Shuffled(available: seq<nat>, raws: nat -> nat): (s: seq<nat>)
    ensures |s| == |available| && multiset(s) == multiset(available)
    ensures forall x :: x in s ==> x in available
    ensures forall i :: 0 <= i < |s| ==> s[i] in available
  {
    var s := Sample(available, |available|, raws).0;
    ShuffledWithin(s, available);
    s
  }

  lemma ShuffledWithin(s: seq<nat>, available: seq<nat>)
    requires multiset(s) == multiset(available)
    ensures forall x :: x in s ==> x in available
  {
    forall x | x in s ensures x in available {
      assert x in multiset(s);
    }
  }

  lemma ShuffledDistinct(available: seq<nat>, raws: nat -> nat)
    requires Distinct(available)
    ensures Distinct(Shuffled(available, raws))
  {
    SampleDistinct(available, |available|, raws, 0);
  }

  lemma PlanStep(counts: seq<LootCount>, i: nat, room: nat)
    requires i < |counts|
    ensures Plan(counts[..i + 1], room) ==
      Plan(counts[..i], room) + Rep(counts[i].tile, Take(counts[i].count, room - |Plan(counts[..i], room)|))
  {
    assert counts[..i + 1][..i] == counts[..i];
  }

  /** The state after `plan` has been popped off the shuffled list `s`: the
      remaining copy is the front of `s`, the j-th popped point holds the j-th
      planned kind, and every point not yet popped still holds its kind from
      `t0`. */
  ghost predicate Popped(tile: seq<Kind>, t0: seq<Kind>, s: seq<nat>, plan: seq<Kind>, copy: seq<nat>) {
    Scattered(tile, t0, s, plan) && copy == s[..|s| - |plan|]
  }

  /** The j-th point from the end of `s` holds the j-th kind of `plan`, and
      every point outside those last |plan| ones keeps its kind from `t0`. */
  ghost predicate Scattered(tile: seq<Kind>, t0: seq<Kind>, s: seq<nat>, plan: seq<Kind>) {
    |tile| == |t0| && (forall i :: 0 <= i < |s| ==> s[i] < |tile|) && |plan| <= |s| &&
    (forall j :: 0 <= j < |plan| ==> tile[s[|s| - 1 - j]] == plan[j]) &&
    (forall p :: 0 <= p < |tile| && p !in s[|s| - |plan|..] ==> tile[p] == t0[p])
  }

  /** One `points_copy.pop()` followed by the write of its tile kind. */
  lemma PopStep(tile: seq<Kind>, t0: seq<Kind>, s: seq<nat>, plan: seq<Kind>, copy: seq<nat>, k: Kind)
    requires Distinct(s) && Popped(tile, t0, s, plan, copy) && |copy| > 0
    ensures copy[|copy| - 1] < |tile|
    ensures Popped(tile[copy[|copy| - 1] := k], t0, s, plan + [k], copy[..|copy| - 1])
  {
    var m := |plan|;
    var pt := copy[|copy| - 1];
    assert pt == s[|s| - 1 - m];
    assert s[|s| - m - 1] in s;
    assert s[|s| - (m + 1)..] == [pt] + s[|s| - m..];
    var t1 := tile[pt := k];
    var plan1 := plan + [k];
    forall j | 0 <= j < |plan1| ensures t1[s[|s| - 1 - j]] == plan1[j] {
      if j < m {
        assert s[|s| - 1 - j] in s;
        assert s[|s| - 1 - j] != pt;
      }
    }
  }

  /** The first line of `_update_ratios`: the sum of the raw ratios. */
  method TotalRatio(names: seq<string>, types: map<string, LootType>) returns (total: real)
    requires Keyed(names, types)
    ensures total == SumRatio(names, types)
  {
    total := 0.0;
    var i := 0;
    while i < |names|
      invariant 0 <= i <= |names|
      invariant Keyed(names[..i], types)
      invariant total == SumRatio(names[..i], types)
    {
      assert names[..i + 1][..i] == names[..i];
      total := total + types[names[i]].ratio;
      i := i + 1;
    }
    assert names[..i] == names;
  }

  /** The loop of `_update_ratios`: every entry's normalised ratio becomes
      its ratio against `total`; keys, raw ratios and tiles stay. */
  method Renormalize(names: seq<string>, types: map<string, LootType>, total: real)
    returns (ts: map<string, LootType>)
    requires Keyed(names, types)
    ensures ts.Keys == types.Keys
    ensures forall n :: n in ts ==> ts[n].ratio == types[n].ratio && ts[n].tile == types[n].tile
    ensures Keyed(names, ts) && NormalizedBy(names, ts, total)
  {
    ts := types;
    var i := 0;
    while i < |names|
      invariant 0 <= i <= |names|
      invariant ts.Keys == types.Keys
      invariant forall n :: n in ts ==> ts[n].ratio == types[n].ratio && ts[n].tile == types[n].tile
      invariant forall j :: 0 <= j < i ==> ts[names[j]].normalized == Norm(ts[names[j]].ratio, total)
    {
      var n := names[i];
      ts := ts[n := ts[n].(normalized := Norm(ts[n].ratio, total))];
      i := i + 1;
    }
  }

  // ---------------------------------------------------------------- the loot system

  class LootSystem {
    /** Dictionary keys in insertion order, and the dictionary itself. */
    var names: seq<string>
    var types: map<string, LootType>
    var totalRatio: real

    ghost predicate Valid()
      reads this
    {
      Distinct(names) && (forall n :: n in types <==> n in names)
    }

    /** Every entry's normalised ratio agrees with the current total. */
    ghost predicate Normalized()
      reads this
    {
      Valid() && totalRatio == SumRatio(names, types) &&
      NormalizedBy(names, types, totalRatio)
    }

    constructor()
      ensures Valid() && names == [] && types == map[] && totalRatio == 0.0
    {
      names := [];
      types := map[];
      totalRatio := 0.0;
    }

    /** `add_loot_type`: inserts or overwrites the entry, keeping a key's first
        position, then renormalises. */
    method AddLootType(name: string, ratio: real, tile: Kind)
      requires Valid()
      modifies this
      ensures Normalized()
      ensures names == if name in old(names) then old(names) else old(names) + [name]
      ensures types[name].ratio == ratio && types[name].tile == tile
      ensures forall n :: n in old(types) && n != name ==>
        types[n].ratio == old(types[n].ratio) && types[n].tile == old(types[n].tile)
    {
      var ns := names;
      if name !in ns {
        ns := ns + [name];
      }
      var ts := types[name := LootType(ratio, tile, 0.0)];
      names, types := ns, ts;
      UpdateRatios();
    }

    /** `_update_ratios`: recomputes the total and every normalised ratio,
        leaving keys, raw ratios and tile kinds alone. */
    method UpdateRatios()
      requires Valid()
      modifies this
      ensures Normalized()
      ensures names == old(names) && types.Keys == old(types.Keys)
      ensures forall n :: n in types ==>
        types[n].ratio == old(types[n].ratio) && types[n].tile == old(types[n].tile)
    {
      assert Keyed(names, types);
      var total := TotalRatio(names, types);
      var ts := Renormalize(names, types, total);
      SumRatioFrame(names, types, ts);
      types, totalRatio := ts, total;
    }

    /** `get_loot_counts`: one entry per loot type, in dictionary order, with
        the count of `CountFor` and the type's tile kind and ratio. */
    method GetLootCounts(totalPoints: nat, individual: map<string, real>, global: real)
      returns (counts: seq<LootCount>)
      requires Valid()
      ensures |counts| == |names|
      ensures forall i :: 0 <= i < |counts| ==>
        counts[i] == LootCount(names[i], CountFor(totalPoints, IndividualDensity(individual, names[i]), global),
                               types[names[i]].tile, types[names[i]].ratio)
    {
      counts := [];
      var i := 0;
      while i < |names|
        invariant 0 <= i <= |names|
        invariant |counts| == i
        invariant forall j :: 0 <= j < i ==>
          counts[j] == LootCount(names[j], CountFor(totalPoints, IndividualDensity(individual, names[j]), global),
                                 types[names[j]].tile, types[names[j]].ratio)
      {
        var name := names[i];
        var ind := IndividualDensity(individual, name);
        var count := CountFor(totalPoints, ind, global);
        counts := counts + [LootCount(name, count, types[name].tile, types[name].ratio)];
        i := i + 1;
      }
    }

    /** `place_loot_with_ratios`: shuffles the available points and pops from
        the end of the shuffled list, each type in turn taking as many points
        as its count asks for while points remain. The j-th pop writes the
        j-th kind of `Plan`; nothing outside the popped points changes. */
    method PlaceLootWithRatios(g: Geometry, available: seq<nat>, counts: seq<LootCount>, raws: nat -> nat)
      returns (results: seq<(string, nat)>)
      requires g.Valid() && Distinct(available)
      requires forall p :: p in available ==> p < |g.pts|
      modifies g.tile
      ensures results == LootResults(counts, |available|)
      ensures Scattered(g.tile[..], old(g.tile[..]), Shuffled(available, raws), Plan(counts, |available|))
    {
      ghost var s := Shuffled(available, raws);
      ghost var t0 := g.tile[..];
      ShuffledDistinct(available, raws);
      var copy := Shuffled(available, raws);
      ghost var plan: seq<Kind> := [];
      assert s[..|s| - |plan|] == s;
      assert Popped(g.tile[..], t0, s, plan, copy);
      results := [];
      var i := 0;
      while i < |counts|
        invariant 0 <= i <= |counts|
        invariant plan == Plan(counts[..i], |available|)
        invariant Popped(g.tile[..], t0, s, plan, copy)
        invariant results == LootResults(counts[..i], |available|)
      {
        copy, plan, results := PlaceNext(g, s, t0, copy, plan, counts, i, |available|, results);
        i := i + 1;
      }
      assert counts[..i] == counts;
    }

    /** One turn of `place_loot_with_ratios`' loop over the counts: type i
        takes its points and its entry of `results`. */
    method PlaceNext(g: Geometry, ghost s: seq<nat>, ghost t0: seq<Kind>, copy: seq<nat>, ghost plan: seq<Kind>,
                     counts: seq<LootCount>, i: nat, ghost room: nat, results: seq<(string, nat)>)
      returns (copy': seq<nat>, ghost plan': seq<Kind>, results': seq<(string, nat)>)
      requires i < |counts| && Distinct(s) && |s| == room
      requires plan == Plan(counts[..i], room) && results == LootResults(counts[..i], room)
      requires Popped(g.tile[..], t0, s, plan, copy)
      modifies g.tile
      ensures plan' == Plan(counts[..i + 1], room) && results' == LootResults(counts[..i + 1], room)
      ensures Popped(g.tile[..], t0, s, plan', copy')
    {
      var placed;
      copy', plan', placed := PlaceOne(g, s, t0, copy, plan, counts[i].count, counts[i].tile);
      PlanStep(counts, i, room);
      results' := results + [(counts[i].name, placed)];
      assert counts[..i + 1][..i] == counts[..i];
    }

    /** The pops of one loot type: `for i in range(min(count, len(points_copy)))`,
        each popping a point and writing the type's tile kind. */
    method PlaceOne(g: Geometry, ghost s: seq<nat>, ghost t0: seq<Kind>, copy: seq<nat>, ghost plan: seq<Kind>,
                    count: int, tile: Kind)
      returns (copy': seq<nat>, ghost plan': seq<Kind>, placed: nat)
      requires Distinct(s) && Popped(g.tile[..], t0, s, plan, copy)
      modifies g.tile
      ensures placed == Take(count, |copy|)
      ensures plan' == plan + Rep(tile, placed)
      ensures Popped(g.tile[..], t0, s, plan', copy')
    {
      copy', plan', placed := copy, plan, 0;
      var n := Min(count, |copy|);
      var k := 0;
      while k < n
        invariant 0 <= k && (n >= 0 ==> k <= n) && (n < 0 ==> k == 0)
        invariant placed == k && plan' == plan + Rep(tile, k)
        invariant |copy'| == |copy| - k
        invariant Popped(g.tile[..], t0, s, plan', copy')
      {
        if |copy'| > 0 {
          PopStep(g.tile[..], t0, s, plan', copy', tile);
          var pt := copy'[|copy'| - 1];
          copy' := copy'[..|copy'| - 1];
          g.tile[pt] := tile;
          plan' := plan' + [tile];
          placed := placed + 1;
        }
        k := k + 1;
      }
    }
  }

  lemma SumRatioFrame(names: seq<string>, a: map<string, LootType>, b: map<string, LootType>)
    requires Keyed(names, a) && Keyed(names, b)
    requires forall n :: n in names ==> a[n].ratio == b[n].ratio
    ensures SumRatio(names, a) == SumRatio(names, b)
    decreases |names|
  {
    if names != [] {
      assert forall n :: n in names[..|names| - 1] ==> n in names;
      SumRatioFrame(names[..|names| - 1], a, b);
    }
  }

  // ---------------------------------------------------------------- breakable walls

  /** A wall is an edge wall when some other point sharing a primitive with it
      is not a wall. */
  predicate IsEdgeWall(prims: seq<seq<nat>>, t: seq<Kind>, p: nat) {
    exists q :: 0 <= q < |t| && q != p && Adjacent(prims, p, q) && t[q] != Wall
  }

  ghost function EdgeWalls(prims: seq<seq<nat>>, t: seq<Kind>): set<nat> {
    set p | 0 <= p < |t| && t[p] == Wall && IsEdgeWall(prims, t, p)
  }

  ghost function ThickWalls(prims: seq<seq<nat>>, t: seq<Kind>): set<nat> {
    set p | 0 <= p < |t| && t[p] == Wall && !IsEdgeWall(prims, t, p)
  }

  /** The nested `for prim in pt.prims(): for neighbor_pt in prim.points()`
      search, leaving both loops at the first non-wall neighbour. */
  method EdgeTest(prims: seq<seq<nat>>, tile: array<Kind>, p: nat) returns (isEdge: bool)
    requires PrimsWithin(prims, tile.Length)
    ensures isEdge == IsEdgeWall(prims, tile[..], p)
  {
    isEdge := false;
    var i := 0;
    while i < |prims|
      invariant 0 <= i <= |prims| && !isEdge
      invariant forall i', q :: 0 <= i' < i && p in prims[i'] && q in prims[i'] ==> q == p || tile[q] == Wall
    {
      if p in prims[i] {
        var k := 0;
        while k < |prims[i]|
          invariant 0 <= k <= |prims[i]| && !isEdge
          invariant forall k' :: 0 <= k' < k ==> prims[i][k'] == p || tile[prims[i][k']] == Wall
        {
          var q := prims[i][k];
          if q != p && tile[q] != Wall {
            assert Adjacent(prims, p, q) && tile[..][q] != Wall;
            isEdge := true;
            break;
          }
          k := k + 1;
        }
        if isEdge {
          break;
        }
        assert forall q :: q in prims[i] ==> q == p || tile[q] == Wall;
      }
      i := i + 1;
    }
    if !isEdge {
      assert !IsEdgeWall(prims, tile[..], p) by {
        forall q | 0 <= q < tile.Length && q != p && Adjacent(prims, p, q) ensures tile[q] == Wall {
          var j :| 0 <= j < |prims| && p in prims[j] && q in prims[j];
        }
      }
    }
  }

  /** The candidate scan: every wall lands in exactly one of the two lists,
      each in point order. */
  method ClassifyWalls(g: Geometry) returns (edge: seq<nat>, thick: seq<nat>)
    requires g.Valid()
    ensures Increasing(edge) && Increasing(thick)
    ensures forall p: nat :: p in edge <==> p in EdgeWalls(g.prims, g.tile[..])
    ensures forall p: nat :: p in thick <==> p in ThickWalls(g.prims, g.tile[..])
  {
    edge, thick := [], [];
    var p := 0;
    while p < g.tile.Length
      invariant 0 <= p <= g.tile.Length
      invariant Increasing(edge) && Increasing(thick)
      invariant forall i :: 0 <= i < |edge| ==> edge[i] < p
      invariant forall i :: 0 <= i < |thick| ==> thick[i] < p
      invariant forall x: nat :: x in edge <==> x < p && x in EdgeWalls(g.prims, g.tile[..])
      invariant forall x: nat :: x in thick <==> x < p && x in ThickWalls(g.prims, g.tile[..])
    {
      if g.tile[p] == Wall {
        var isEdge := EdgeTest(g.prims, g.tile, p);
        if isEdge {
          edge := edge + [p];
        } else {
          thick := thick + [p];
        }
      }
      p := p + 1;
    }
  }

  /** An increasing list holds as many points as the set of its members. */
  lemma {:induction false} IncreasingCard(s: seq<nat>, S: set<nat>)
    requires Increasing(s) && forall x: nat :: x in S <==> x in s
    ensures |S| == |s|
    decreases |s|
  {
    if s != [] {
      var last := s[|s| - 1];
      var pre := s[..|s| - 1];
      assert last !in pre;
      assert forall x: nat :: x in S - {last} <==> x in pre;
      IncreasingCard(pre, S - {last});
    }
  }

  function Max0(n: int): nat { if n > 0 then n else 0 }

  /** `total_to_convert = int(total * (density * 0.2))`. */
  function BreakableTotal(edgeN: nat, thickN: nat, density: real): int {
    Trunc((edgeN + thickN) as real * (density * 0.2))
  }

  /** The edge and thick shares after the `min` safety clamp: the edge share
      is `int(total * bias)`, the thick share the rest. */
  function BreakableShares(edgeN: nat, thickN: nat, density: real, bias: real): (r: (int, int))
    ensures r.0 <= edgeN && r.1 <= thickN
  {
    var total := BreakableTotal(edgeN, thickN, density);
    var ne := Trunc(total as real * bias);
    (Min(ne, edgeN), Min(total - ne, thickN))
  }

  /** With a bias in [0, 1] neither share is negative, and when neither pool
      forces the clamp the two shares make up the whole total. */
  lemma SharesSplitTotal(edgeN: nat, thickN: nat, density: real, bias: real)
    requires 0.0 <= density && 0.0 <= bias <= 1.0
    ensures var r := BreakableShares(edgeN, thickN, density, bias);
      r.0 >= 0 && r.1 >= 0 &&
      (r.0 < edgeN && r.1 < thickN ==> r.0 + r.1 == BreakableTotal(edgeN, thickN, density))
  {
    var t := (edgeN + thickN) as real;
    assert 0.0 <= density * 0.2;
    assert 0.0 <= t * (density * 0.2);
    var total := BreakableTotal(edgeN, thickN, density);
    assert total >= 0;
    ScaleDown(total as real, bias);
    TruncAtMost(total as real * bias, total);
  }

  /** A density up to 5 converts at most every candidate wall. */
  lemma BreakableTotalBounded(edgeN: nat, thickN: nat, density: real)
    requires 0.0 <= density <= 5.0
    ensures 0 <= BreakableTotal(edgeN, thickN, density) <= edgeN + thickN
  {
    var t := (edgeN + thickN) as real;
    var f := density * 0.2;
    assert 0.0 <= f <= 1.0;
    ScaleDown(t, f);
    TruncAtMost(t * f, edgeN + thickN);
  }

  /** The walls section 5 of the script picks, edge picks first: nothing for a
      density of 0 or below; otherwise the positive part of each clamped
      share, the edge picks distinct edge walls and the thick picks distinct
      thick walls. */
  method SelectBreakables(g: Geometry, density: real, bias: real, edgeRaws: nat -> nat, thickRaws: nat -> nat)
    returns (picks: seq<nat>)
    requires g.Valid()
    ensures density <= 0.0 ==> picks == []
    ensures density > 0.0 ==>
      var r := BreakableShares(|EdgeWalls(g.prims, g.tile[..])|, |ThickWalls(g.prims, g.tile[..])|, density, bias);
      |picks| == Max0(r.0) + Max0(r.1) &&
      (forall i :: 0 <= i < Max0(r.0) ==> picks[i] in EdgeWalls(g.prims, g.tile[..])) &&
      (forall i :: Max0(r.0) <= i < |picks| ==> picks[i] in ThickWalls(g.prims, g.tile[..]))
    ensures Distinct(picks)
    ensures forall i :: 0 <= i < |picks| ==> picks[i] < |g.pts| && g.tile[picks[i]] == Wall
  {
    picks := [];
    if density > 0.0 {
      ghost var t := g.tile[..];
      var edge, thick := ClassifyWalls(g);
      IncreasingCard(edge, EdgeWalls(g.prims, t));
      IncreasingCard(thick, ThickWalls(g.prims, t));
      var r := BreakableShares(|edge|, |thick|, density, bias);
      var edgePicks, thickPicks := [], [];
      if r.0 > 0 {
        edgePicks := Sample(edge, r.0, edgeRaws).0;
        PicksFrom(edge, r.0, edgeRaws);
      }
      if r.1 > 0 {
        thickPicks := Sample(thick, r.1, thickRaws).0;
        PicksFrom(thick, r.1, thickRaws);
      }
      picks := edgePicks + thickPicks;
      assert forall i :: 0 <= i < |edgePicks| ==> edgePicks[i] in edge;
      assert forall i :: 0 <= i < |thickPicks| ==> thickPicks[i] in thick;
      assert Distinct(picks) by {
        forall a, b | 0 <= a < b < |picks| ensures picks[a] != picks[b] {
          if a < |edgePicks| && b >= |edgePicks| {
            assert picks[a] in edge && picks[b] in thick;
          }
        }
      }
    }
  }

  /** Writes kind `k` at every point of a list of distinct points. */
  method SetAll(g: Geometry, pts: seq<nat>, k: Kind)
    requires g.Valid() && forall i :: 0 <= i < |pts| ==> pts[i] < |g.pts|
    modifies g.tile
    ensures forall p :: 0 <= p < |g.pts| ==> g.tile[p] == if p in pts then k else old(g.tile[p])
  {
    var i := 0;
    while i < |pts|
      invariant 0 <= i <= |pts|
      invariant forall p :: 0 <= p < |g.pts| ==> g.tile[p] == if p in pts[..i] then k else old(g.tile[p])
    {
      assert pts[..i + 1] == pts[..i] + [pts[i]];
      g.tile[pts[i]] := k;
      i := i + 1;
    }
    assert pts[..i] == pts;
  }

  /** Section 5 of the script: the selected walls become breakable and
      nothing else changes. */
  method PlaceBreakables(g: Geometry, density: real, bias: real, edgeRaws: nat -> nat, thickRaws: nat -> nat)
    returns (converted: seq<nat>)
    requires g.Valid()
    modifies g.tile
    ensures BreakablesOutcome(g.prims, old(g.tile[..]), g.tile[..], converted, density, bias)
  {
    converted := SelectBreakables(g, density, bias, edgeRaws, thickRaws);
    SetAll(g, converted, Breakable);
  }

  /** The map `t` after section 5 on the map `t0`: nothing is converted at
      a density of 0 or below; otherwise the clamped edge share comes from
      the edge walls of `t0` and the clamped thick share after it from the
      thick walls. The converted points are distinct walls of `t0`, and
      exactly they become breakable. */
  ghost predicate BreakablesOutcome(prims: seq<seq<nat>>, t0: seq<Kind>, t: seq<Kind>, converted: seq<nat>,
                                    density: real, bias: real) {
    |t| == |t0| &&
    (density <= 0.0 ==> converted == []) &&
    (density > 0.0 ==>
      var r := BreakableShares(|EdgeWalls(prims, t0)|, |ThickWalls(prims, t0)|, density, bias);
      |converted| == Max0(r.0) + Max0(r.1) &&
      (forall i :: 0 <= i < Max0(r.0) ==> converted[i] in EdgeWalls(prims, t0)) &&
      (forall i :: Max0(r.0) <= i < |converted| ==> converted[i] in ThickWalls(prims, t0))) &&
    Distinct(converted) &&
    (forall i :: 0 <= i < |converted| ==> converted[i] < |t0| && t0[converted[i]] == Wall) &&
    (forall p :: 0 <= p < |t| ==> t[p] == if p in converted then Breakable else t0[p])
  }

  /** What `random.sample` takes from an increasing candidate list is distinct
      and drawn from that list. */
  lemma PicksFrom(pool: seq<nat>, k: nat, raws: nat -> nat)
    requires Increasing(pool) && k <= |pool|
    ensures Distinct(Sample(pool, k, raws).0)
    ensures forall x :: x in Sample(pool, k, raws).0 ==> x in pool
  {
    SampleDistinct(pool, k, raws, 0);
    forall x | x in Sample(pool, k, raws).0 ensures x in pool {
      SampleFromPool(pool, k, raws, 0, x);
    }
  }

  // ---------------------------------------------------------------- the whole script

  /** Every kind the plan writes is the tile kind of one of the loot types. */
  lemma {:induction false} PlanKinds(counts: seq<LootCount>, room: nat, ks: set<Kind>)
    requires forall i :: 0 <= i < |counts| ==> counts[i].tile in ks
    ensures forall j :: 0 <= j < |Plan(counts, room)| ==> Plan(counts, room)[j] in ks
    decreases |counts|
  {
    if counts != [] {
      PlanKinds(counts[..|counts| - 1], room, ks);
    }
  }

  /** Section 3 of the script: a loot system holding coins (ratio 2) and
      health packs (ratio 1), in that order. */
  method DefaultLoot() returns (loot: LootSystem)
    ensures fresh(loot) && loot.Normalized() && loot.names == ["coin", "health"]
    ensures loot.types["coin"].tile == Coin && loot.types["coin"].ratio == 2.0
    ensures loot.types["health"].tile == Health && loot.types["health"].ratio == 1.0
  {
    loot := new LootSystem();
    loot.AddLootType("coin", 2.0, Coin);
    loot.AddLootType("health", 1.0, Health);
  }

  /** The two entries of `loot_counts` for `n` empty points: coins, then
      health packs, each with the script's count formula. */
  function LootCounts(n: nat, P: Params): (counts: seq<LootCount>)
    ensures |counts| == 2 && counts[0].tile == Coin && counts[1].tile == Health
  {
    [LootCount("coin", CountFor(n, P.coin, P.loot), Coin, 2.0),
     LootCount("health", CountFor(n, P.health, P.loot), Health, 1.0)]
  }

  /** `available` lists the empty points of `t0` in ascending order. */
  ghost predicate EmptyList(t0: seq<Kind>, available: seq<nat>) {
    |available| == CountKind(t0, Empty) &&
    (forall p :: p in available <==> 0 <= p < |t0| && t0[p] == Empty) &&
    (forall i, j :: 0 <= i < j < |available| ==> available[i] < available[j])
  }

  /** The map `t` and the `results` after sections 3 and 4 on the map `t0`
      whose empty points are `available`: with a positive loot density and
      some empty point, coins then health packs get their counts, clipped
      to what is left, and the plan is written onto the shuffled empties;
      otherwise nothing is placed and the map is unchanged. The coin and
      health counts grow by the placed numbers, the empty count shrinks by
      their sum. */
  ghost predicate LootOutcome(t0: seq<Kind>, t: seq<Kind>, available: seq<nat>, results: seq<(string, nat)>,
                              P: Params, raws: nat -> nat) {
    var n := |available|;
    (if P.loot > 0.0 && n > 0 then
       var coins := Take(CountFor(n, P.coin, P.loot), n);
       results == [("coin", coins), ("health", Take(CountFor(n, P.health, P.loot), n - coins))] &&
       Scattered(t, t0, Shuffled(available, raws), Plan(LootCounts(n, P), n))
     else results == [] && t == t0) &&
    (|results| == 2 ==>
       CountKind(t, Coin) == CountKind(t0, Coin) + results[0].1 &&
       CountKind(t, Health) == CountKind(t0, Health) + results[1].1 &&
       CountKind(t, Empty) == CountKind(t0, Empty) - results[0].1 - results[1].1)
  }

  /** Sections 3 and 4 of the script: coins (ratio 2) and health packs
      (ratio 1) are scattered over the empty points, coins first.
      `available` is the list of empty points the script collects; the
      popped points receive the plan's kinds and nothing else changes, so
      the coin and health counts grow by what `results` reports and the
      empty count shrinks by the same. */
  method PlaceLoot(g: Geometry, P: Params, shuffleRaws: nat -> nat)
    returns (results: seq<(string, nat)>, ghost available: seq<nat>)
    requires g.Valid()
    modifies g.tile
    ensures EmptyList(old(g.tile[..]), available)
    ensures LootOutcome(old(g.tile[..]), g.tile[..], available, results, P, shuffleRaws)
    ensures forall p :: 0 <= p < |g.pts| ==>
      g.tile[p] == old(g.tile[p]) || (old(g.tile[p]) == Empty && (g.tile[p] == Coin || g.tile[p] == Health))
  {
    var loot := DefaultLoot();
    var empties := CollectKind(g.tile, Empty);
    available := empties;
    ghost var t0 := g.tile[..];
    results := [];
    if P.loot > 0.0 && |empties| > 0 {
      var individual := map["coin" := P.coin, "health" := P.health];
      var counts := loot.GetLootCounts(|empties|, individual, P.loot);
      assert Distinct(empties);
      ghost var n := |empties|;
      assert counts[0] == LootCount("coin", CountFor(n, P.coin, P.loot), Coin, 2.0);
      assert counts[1] == LootCount("health", CountFor(n, P.health, P.loot), Health, 1.0);
      assert counts == LootCounts(n, P);
      results := loot.PlaceLootWithRatios(g, empties, counts, shuffleRaws);
      assert forall i :: 0 <= i < |empties| ==> empties[i] < |t0| && t0[empties[i]] == Empty;
      LootPlaced(g.tile[..], t0, empties, shuffleRaws, P);
    }
  }

  /** What `PlaceLoot` states about the map, from the scatter of the plan
      over the shuffled empty points. */
  lemma {:induction false} LootPlaced(tile: seq<Kind>, t0: seq<Kind>, empties: seq<nat>, raws: nat -> nat, P: Params)
    requires Distinct(empties)
    requires forall i :: 0 <= i < |empties| ==> empties[i] < |t0| && t0[empties[i]] == Empty
    requires Scattered(tile, t0, Shuffled(empties, raws), Plan(LootCounts(|empties|, P), |empties|))
    ensures var n := |empties|; var coins := Take(CountFor(n, P.coin, P.loot), n);
      var healths := Take(CountFor(n, P.health, P.loot), n - coins);
      LootResults(LootCounts(n, P), n) == [("coin", coins), ("health", healths)] &&
      CountKind(tile, Coin) == CountKind(t0, Coin) + coins &&
      CountKind(tile, Health) == CountKind(t0, Health) + healths &&
      CountKind(tile, Empty) == CountKind(t0, Empty) - coins - healths
    ensures forall p :: 0 <= p < |tile| ==>
      tile[p] == t0[p] || (t0[p] == Empty && (tile[p] == Coin || tile[p] == Health))
  {
    var n := |empties|;
    var counts := LootCounts(n, P);
    var sh := Shuffled(empties, raws);
    TwoTypes(counts, n);
    ShuffledDistinct(empties, raws);
    var plan := Plan(counts, n);
    assert forall j :: 0 <= j < |plan| ==> plan[j] in {Coin, Health};
    LootTouchesEmpties(tile, t0, sh, plan, empties);
    LootCountsGrow(tile, t0, sh, empties, counts, n);
  }

  /** The script end to end: the loot, then the breakable walls, chosen on
      the map as the loot left it (`mid`). The loot part is `PlaceLoot`'s
      state; the breakable part converts exactly `converted`, the clamped
      edge share drawn from the edge walls of `mid` followed by the thick
      share drawn from its thick walls. A point either keeps its kind, or
      was empty and now holds loot, or was a wall and is now breakable. */
  method CreateInteractables(g: Geometry, controller: Option<Params>,
                             shuffleRaws: nat -> nat, edgeRaws: nat -> nat, thickRaws: nat -> nat)
    returns (results: seq<(string, nat)>, converted: seq<nat>, ghost available: seq<nat>, ghost mid: seq<Kind>)
    requires g.Valid()
    modifies g.tile
    ensures |mid| == |g.pts|
    ensures EmptyList(old(g.tile[..]), available)
    ensures LootOutcome(old(g.tile[..]), mid, available, results, ParamsOf(controller), shuffleRaws)
    ensures BreakablesOutcome(g.prims, mid, g.tile[..], converted, ParamsOf(controller).breakable, ParamsOf(controller).edgeBias)
    ensures forall p :: 0 <= p < |g.pts| ==>
      g.tile[p] == old(g.tile[p]) ||
      (old(g.tile[p]) == Empty && (g.tile[p] == Coin || g.tile[p] == Health)) ||
      (old(g.tile[p]) == Wall && g.tile[p] == Breakable)
  {
    ghost var t0 := g.tile[..];
    var P := ParamsOf(controller);
    results, available := PlaceLoot(g, P, shuffleRaws);
    mid := g.tile[..];
    converted := PlaceBreakables(g, P.breakable, P.edgeBias, edgeRaws, thickRaws);
    InteractablesFrame(t0, mid, g.tile[..], converted);
  }

  /** Loot onto empties followed by breakables onto walls: each point kept
      its kind, took loot where it was empty, or became breakable where it
      was a wall. */
  lemma InteractablesFrame(t0: seq<Kind>, mid: seq<Kind>, t: seq<Kind>, converted: seq<nat>)
    requires |t0| == |mid| == |t|
    requires forall p :: 0 <= p < |mid| ==>
      mid[p] == t0[p] || (t0[p] == Empty && (mid[p] == Coin || mid[p] == Health))
    requires forall i :: 0 <= i < |converted| ==> converted[i] < |mid| && mid[converted[i]] == Wall
    requires forall p :: 0 <= p < |t| ==> t[p] == if p in converted then Breakable else mid[p]
    ensures forall p :: 0 <= p < |t| ==>
      t[p] == t0[p] || (t0[p] == Empty && (t[p] == Coin || t[p] == Health)) || (t0[p] == Wall && t[p] == Breakable)
  {
    forall p | 0 <= p < |t| && p in converted
      ensures t0[p] == Wall && t[p] == Breakable
    {
      var i :| 0 <= i < |converted| && converted[i] == p;
    }
  }

  /** The results and written kinds of a two-entry loot table. */
  lemma TwoTypes(counts: seq<LootCount>, n: nat)
    requires |counts| == 2
    ensures LootResults(counts, n) ==
      [(counts[0].name, Take(counts[0].count, n)), (counts[1].name, Take(counts[1].count, n - Take(counts[0].count, n)))]
    ensures Plan(counts, n) ==
      Rep(counts[0].tile, Take(counts[0].count, n)) + Rep(counts[1].tile, Take(counts[1].count, n - Take(counts[0].count, n)))
    ensures forall j :: 0 <= j < |Plan(counts, n)| ==> Plan(counts, n)[j] in {counts[0].tile, counts[1].tile}
  {
    assert counts[..1] == [counts[0]] && counts[..1][..0] == [];
    assert counts[..2] == counts && counts[..2][..1] == counts[..1];
    PlanKinds(counts, n, {counts[0].tile, counts[1].tile});
  }

  /** After the loot pops, a point either is untouched or was an empty point
      that now holds loot. */
  lemma LootTouchesEmpties(tile: seq<Kind>, t0: seq<Kind>, s: seq<nat>, plan: seq<Kind>, empties: seq<nat>)
    requires Scattered(tile, t0, s, plan)
    requires forall i :: 0 <= i < |s| ==> s[i] in empties
    requires forall i :: 0 <= i < |empties| ==> empties[i] < |t0| && t0[empties[i]] == Empty
    requires forall j :: 0 <= j < |plan| ==> plan[j] in {Coin, Health}
    ensures forall p :: 0 <= p < |tile| ==>
      tile[p] == t0[p] || (t0[p] == Empty && (tile[p] == Coin || tile[p] == Health))
  {
    forall p | 0 <= p < |tile| && tile[p] != t0[p]
      ensures t0[p] == Empty && (tile[p] == Coin || tile[p] == Health)
    {
      assert p in s[|s| - |plan|..];
      var m :| 0 <= m < |plan| && s[|s| - |plan|..][m] == p;
      var j := |plan| - 1 - m;
      assert s[|s| - 1 - j] == p;
      assert s[|s| - 1 - j] in empties;
      var i :| 0 <= i < |empties| && empties[i] == p;
      assert tile[p] == plan[j] && plan[j] in {Coin, Health};
    }
  }

  /** The loot of a two-entry table of coins and health packs, popped onto
      empty points: each loot count grows, and the empty count shrinks, by
      the number of points the entry got. */
  lemma {:induction false} LootCountsGrow(tile: seq<Kind>, t0: seq<Kind>, s: seq<nat>, empties: seq<nat>, counts: seq<LootCount>, n: nat)
    requires |counts| == 2 && counts[0].tile == Coin && counts[1].tile == Health
    requires Distinct(s) && Scattered(tile, t0, s, Plan(counts, n))
    requires forall i :: 0 <= i < |s| ==> s[i] in empties
    requires forall i :: 0 <= i < |empties| ==> empties[i] < |t0| && t0[empties[i]] == Empty
    ensures var a := LootResults(counts, n)[0].1; var b := LootResults(counts, n)[1].1;
      CountKind(tile, Coin) == CountKind(t0, Coin) + a &&
      CountKind(tile, Health) == CountKind(t0, Health) + b &&
      CountKind(tile, Empty) == CountKind(t0, Empty) - a - b
  {
    TwoTypes(counts, n);
    var a, b := Take(counts[0].count, n), Take(counts[1].count, n - Take(counts[0].count, n));
    var plan := Plan(counts, n);
    assert plan == Rep(Coin, a) + Rep(Health, b);
    forall i | |s| - |plan| <= i < |s| ensures t0[s[i]] == Empty {
      assert s[i] in empties;
      var e :| 0 <= e < |empties| && empties[e] == s[i];
    }
    forall k | k in {Coin, Health, Empty} ensures CountKind(plan, k) == (if k == Coin then a else 0) + (if k == Health then b else 0) {
      CountKindAppend(Rep(Coin, a), Rep(Health, b), k);
      CountKindRep(Coin, a, k);
      CountKindRep(Health, b, k);
    }
    ScatterCount(tile, t0, s, plan, Coin);
    ScatterCount(tile, t0, s, plan, Health);
    ScatterCount(tile, t0, s, plan, Empty);
  }

  /** Writing `plan` onto distinct points that were empty moves each
      written point from the empty count to the count of its new kind. */
  lemma {:induction false} ScatterCount(tile: seq<Kind>, t0: seq<Kind>, s: seq<nat>, plan: seq<Kind>, k: Kind)
    requires Distinct(s) && Scattered(tile, t0, s, plan)
    requires forall i :: |s| - |plan| <= i < |s| ==> t0[s[i]] == Empty
    ensures CountKind(tile, k) == CountKind(t0, k) - (if k == Empty then |plan| else 0) + CountKind(plan, k)
    decreases |plan|
  {
    if plan == [] {
      assert tile == t0;
    } else {
      var m := |plan| - 1;
      var p := s[|s| - 1 - m];
      var prev := tile[p := t0[p]];
      ScatterUndo(tile, t0, s, plan);
      ScatterCount(prev, t0, s, plan[..m], k);
      assert prev[p := plan[m]] == tile;
      CountKindUpdate(prev, p, plan[m], k);
      assert plan[..m] == plan[..|plan| - 1];
    }
  }

  /** Restoring the last-written point leaves the scatter of the shorter plan. */
  lemma ScatterUndo(tile: seq<Kind>, t0: seq<Kind>, s: seq<nat>, plan: seq<Kind>)
    requires Distinct(s) && Scattered(tile, t0, s, plan) && plan != []
    ensures var p := s[|s| - |plan|];
      tile[p] == plan[|plan| - 1] && Scattered(tile[p := t0[p]], t0, s, plan[..|plan| - 1])
  {
    var m := |plan| - 1;
    var p := s[|s| - 1 - m];
    var prev := tile[p := t0[p]];
    forall j | 0 <= j < m ensures prev[s[|s| - 1 - j]] == plan[..m][j] {
      assert s[|s| - 1 - j] != p;
    }
    forall q | 0 <= q < |prev| && q !in s[|s| - m..] ensures prev[q] == t0[q] {
      if q != p {
        assert q !in s[|s| - m - 1..] by {
          assert s[|s| - m - 1..] == [p] + s[|s| - m..];
        }
      }
    }
  }

  /** Counting over a concatenation. */
  lemma {:induction false} CountKindAppend(a: seq<Kind>, b: seq<Kind>, k: Kind)
    ensures CountKind(a + b, k) == CountKind(a, k) + CountKind(b, k)
    decreases |b|
  {
    if b == [] {
      assert a + b == a;
    } else {
      assert (a + b)[..|a + b| - 1] == a + b[..|b| - 1];
      CountKindAppend(a, b[..|b| - 1], k);
    }
  }

  /** A run of one kind counts fully for that kind and not at all for others. */
  lemma {:induction false} CountKindRep(x: Kind, n: nat, k: Kind)
    ensures CountKind(Rep(x, n), k) == if x == k then n else 0
    decreases n
  {
    if n > 0 {
      assert Rep(x, n)[..n - 1] == Rep(x, n - 1);
      CountKindRep(x, n - 1, k);
    }
  }
}

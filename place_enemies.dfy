/** 5_PLACE_ENEMIES.py: turns a density-controlled share of the empty points
    into enemies, one in five of them (on average) a shooter. */
module PlaceEnemies {
  import opened Wrappers
  import opened Rng
  import opened HoudiniGeo
  import opened Common

  /** The density read from the controller; a missing controller or parameter
      means 0.0, which places nothing. */
  function Density(controller: Option<real>): (d: real)
    ensures controller.None? ==> d == 0.0
    ensures controller.Some? ==> d == controller.value
  {
    match controller
    case None => 0.0
    case Some(v) => v
  }

  /** At most 15% of the empty points, scaled by the density, each step
      truncated as `int()` does. */
  function EnemyCount(empties: nat, density: real): (num: int)
    ensures density >= 0.0 ==> num >= 0
  {
    Trunc(Trunc(empties as real * 0.15) as real * density)
  }

  /** With a density in [0, 1] the count never exceeds 15% of the empty
      points, so the `len(suitable) >= num_to_place` guard always passes. */
  lemma EnemyCountBounded(empties: nat, density: real)
    requires 0.0 <= density <= 1.0
    ensures 0 <= EnemyCount(empties, density)
    ensures EnemyCount(empties, density) as real <= empties as real * 0.15
    ensures EnemyCount(empties, density) <= empties
  {
    var m := Trunc(empties as real * 0.15);
    TruncAtMost(empties as real * 0.15, empties);
    TruncScaled(m, density);
    assert EnemyCount(empties, density) == Trunc(m as real * density) <= m;
    assert m as real <= empties as real * 0.15;
  }

  /** A density above 1 can ask for more enemies than there are empty points;
      the guard then places none at all, e.g. 20 empty points at density 10. */
  lemma EnemyCountCanOvershoot()
    ensures EnemyCount(20, 10.0) == 30
  {
    assert Trunc(20.0 * 0.15) == 3;
  }

  /** The kind an enemy pick becomes, from the `random.random()` roll. */
  function EnemyKind(roll: real): (k: Kind)
    ensures k == EnemyShooter <==> roll < 0.2
    ensures k == Enemy <==> roll >= 0.2
  {
    if roll < 0.2 then EnemyShooter else Enemy
  }

  /** How many enemies the script places for a given empty count and density. */
  function Placed(empties: nat, density: real): (n: nat)
    ensures n <= empties
    ensures n > 0 ==> n == EnemyCount(empties, density) && density > 0.0
  {
    var num := EnemyCount(empties, density);
    if empties > 0 && density > 0.0 && num > 0 && empties >= num then num else 0
  }

  /** Returns the points turned into enemies, in pick order: distinct former
      empty points, the i-th an EnemyShooter exactly when roll i is below 0.2.
      Every other point is left as it was. */
  method PlaceEnemies(g: Geometry, controller: Option<real>, raws: nat -> nat, rolls: nat -> real)
    returns (placed: seq<nat>)
    requires g.Valid()
    modifies g.tile
    ensures |placed| == Placed(CountKind(old(g.tile[..]), Empty), Density(controller))
    ensures Distinct(placed)
    ensures forall i :: 0 <= i < |placed| ==>
      placed[i] < |g.pts| && old(g.tile[placed[i]]) == Empty && g.tile[placed[i]] == EnemyKind(rolls(i))
    ensures forall p :: 0 <= p < |g.pts| && p !in placed ==> g.tile[p] == old(g.tile[p])
  {
    var density := Density(controller);
    var empties := CollectKind(g.tile, Empty);
    placed := [];
    if |empties| > 0 && density > 0.0 {
      var num := Placed(|empties|, density);
      if num > 0 {
        PickDistinct(empties, num, raws);
        var picks := Sample(empties, num, raws).0;
        MarkEnemies(g, picks, rolls);
        placed := picks;
      }
    }
  }

  /** `random.sample(empty_points, num_to_place)`: distinct empty points. */
  lemma PickDistinct(empties: seq<nat>, num: nat, raws: nat -> nat)
    requires num <= |empties| && Distinct(empties)
    ensures var picks := Sample(empties, num, raws).0;
      Distinct(picks) && forall j :: 0 <= j < |picks| ==> picks[j] in empties
  {
    SampleDistinct(empties, num, raws, 0);
    var picks := Sample(empties, num, raws).0;
    forall j | 0 <= j < |picks| ensures picks[j] in empties {
      SampleFromPool(empties, num, raws, 0, picks[j]);
    }
  }

  /** In the placement loop, the i-th pick becomes `EnemyKind(rolls(i))`. */
  method MarkEnemies(g: Geometry, picks: seq<nat>, rolls: nat -> real)
    requires g.Valid() && Distinct(picks)
    requires forall j :: 0 <= j < |picks| ==> picks[j] < |g.pts|
    modifies g.tile
    ensures forall j :: 0 <= j < |picks| ==> g.tile[picks[j]] == EnemyKind(rolls(j))
    ensures forall p :: 0 <= p < |g.pts| && p !in picks ==> g.tile[p] == old(g.tile[p])
  {
    var i := 0;
    while i < |picks|
      invariant 0 <= i <= |picks|
      invariant forall j :: 0 <= j < i ==> g.tile[picks[j]] == EnemyKind(rolls(j))
      invariant forall p :: 0 <= p < |g.pts| && p !in picks[..i] ==> g.tile[p] == old(g.tile[p])
    {
      assert picks[i] !in picks[..i];
      g.tile[picks[i]] := EnemyKind(rolls(i));
      assert picks[..i + 1] == picks[..i] + [picks[i]];
      i := i + 1;
    }
    assert picks[..i] == picks;
  }
}

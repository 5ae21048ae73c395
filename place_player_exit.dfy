/** 3_PLACE_PLAYER_AND_EXIT.py: picks two different empty points at random and
    makes the first the player spawn and the second the stairs. */
module PlacePlayerExit {
  import opened Wrappers
  import opened Rng
  import opened HoudiniGeo
  import opened Common

  /** Returns the chosen (player, stairs) points, or None when there are fewer
      than two empty points, in which case nothing changes. */
  method PlacePlayerAndExit(g: Geometry, raws: nat -> nat) returns (chosen: Option<(nat, nat)>)
    requires g.Valid()
    modifies g.tile
    ensures chosen.None? <==> CountKind(old(g.tile[..]), Empty) < 2
    ensures chosen.None? ==> g.tile[..] == old(g.tile[..])
    ensures chosen.Some? ==>
      var (pl, st) := chosen.value;
      pl < |g.pts| && st < |g.pts| && pl != st &&
      old(g.tile[pl]) == Empty && old(g.tile[st]) == Empty &&
      g.tile[pl] == Player && g.tile[st] == Stairs &&
      (forall p :: 0 <= p < |g.pts| && p != pl && p != st ==> g.tile[p] == old(g.tile[p])) &&
      CountKind(g.tile[..], Empty) == CountKind(old(g.tile[..]), Empty) - 2
  {
    var empties := CollectKind(g.tile, Empty);
    if |empties| < 2 {
      return None;
    }
    assert Distinct(empties);
    PickTwo(empties, raws);
    var picked := Sample(empties, 2, raws).0;
    var pl, st := picked[0], picked[1];
    ghost var t0 := g.tile[..];
    g.tile[pl] := Player;
    g.tile[st] := Stairs;
    assert g.tile[..] == t0[pl := Player][st := Stairs];
    TwoUpdates(t0, pl, st);
    chosen := Some((pl, st));
  }

  /** `random.sample(empty_points, 2)` from distinct points: two different
      empty points. */
  lemma PickTwo(empties: seq<nat>, raws: nat -> nat)
    requires |empties| >= 2 && Distinct(empties)
    ensures var picked := Sample(empties, 2, raws).0;
      picked[0] != picked[1] && picked[0] in empties && picked[1] in empties
  {
    var picked := Sample(empties, 2, raws).0;
    SampleDistinct(empties, 2, raws, 0);
    SampleFromPool(empties, 2, raws, 0, picked[0]);
    SampleFromPool(empties, 2, raws, 0, picked[1]);
  }

  /** Two empty points made player and stairs: two fewer empty points. */
  lemma TwoUpdates(t0: seq<Kind>, pl: nat, st: nat)
    requires pl < |t0| && st < |t0| && pl != st && t0[pl] == Empty && t0[st] == Empty
    ensures CountKind(t0[pl := Player][st := Stairs], Empty) == CountKind(t0, Empty) - 2
  {
    CountKindUpdate(t0, pl, Player, Empty);
    CountKindUpdate(t0[pl := Player], st, Stairs, Empty);
  }
}

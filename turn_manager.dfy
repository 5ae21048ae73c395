/** `TurnManager`: the registry of turn-based units and the turn loop that
    first resets every unit and then lets each one act, in a fixed order of
    unit kinds. A unit is a value (an id and its kind); what a unit does in
    `ResetTurn` and `ExecuteTurn` belongs to the unit, so the manager's
    effect is modelled as the sequence of those calls it makes. */
module TurnManager {
  import opened Common

  /** The concrete classes `GetExecutionOrder` tests for. */
  datatype UnitKind = PlayerController | EnemyShooterTile | EnemyTile | Projectile | BombTile | OtherUnit

  datatype Unit = Unit(id: nat, kind: UnitKind)

  /** One call the manager makes on a unit. */
  datatype Call = ResetTurn(unit: Unit) | ExecuteTurn(unit: Unit)

  /** `GetExecutionOrder`: the player acts first, then enemies, then
      projectiles, then bombs, then everything else. */
  function GetExecutionOrder(u: Unit): (r: int)
    ensures r == 0 <==> u.kind == PlayerController
    ensures r == 1 <==> u.kind == EnemyShooterTile || u.kind == EnemyTile
    ensures r == 2 <==> u.kind == Projectile
    ensures r == 3 <==> u.kind == BombTile
    ensures r == 100 <==> u.kind == OtherUnit
  {
    match u.kind
    case PlayerController => 0
    case EnemyShooterTile => 1
    case EnemyTile => 1
    case Projectile => 2
    case BombTile => 3
    case OtherUnit => 100
  }

  predicate SortedByOrder(s: seq<Unit>)
  {
    forall i, j :: 0 <= i < j < |s| ==> GetExecutionOrder(s[i]) <= GetExecutionOrder(s[j])
  }

  /** The units of rank k, in the order they appear in s. */
  function OfRank(s: seq<Unit>, k: int): (r: seq<Unit>)
    ensures |r| <= |s|
    ensures forall u :: u in r <==> u in s && GetExecutionOrder(u) == k
  {
    if |s| == 0 then [] else (if GetExecutionOrder(s[0]) == k then [s[0]] else []) + OfRank(s[1..], k)
  }

  /** One step of a stable insertion: u goes before the first unit whose
      rank is not smaller than its own. */
  function Insert(u: Unit, t: seq<Unit>): (r: seq<Unit>)
    ensures |r| == |t| + 1
    ensures multiset(r) == multiset(t) + multiset{u}
  {
    if |t| == 0 || GetExecutionOrder(u) <= GetExecutionOrder(t[0]) then [u] + t
    else
      assert t == [t[0]] + t[1..];
      [t[0]] + Insert(u, t[1..])
  }

  lemma {:induction false} InsertSorted(u: Unit, t: seq<Unit>)
    requires SortedByOrder(t)
    ensures SortedByOrder(Insert(u, t))
    decreases |t|
  {
    if |t| > 0 && GetExecutionOrder(u) > GetExecutionOrder(t[0]) {
      assert SortedByOrder(t[1..]);
      InsertSorted(u, t[1..]);
      var rest := Insert(u, t[1..]);
      forall j | 0 <= j < |rest|
        ensures GetExecutionOrder(t[0]) <= GetExecutionOrder(rest[j])
      {
        assert rest[j] in multiset(rest);
        if rest[j] != u {
          assert rest[j] in multiset(t[1..]);
          var m :| 0 <= m < |t[1..]| && t[1..][m] == rest[j];
          assert t[m + 1] == rest[j];
        }
      }
    }
  }

  /** LINQ's `OrderBy(GetExecutionOrder)`, which is a stable sort. */
  function OrderBy(s: seq<Unit>): (r: seq<Unit>)
    ensures |r| == |s|
    ensures multiset(r) == multiset(s)
    ensures SortedByOrder(r)
  {
    if |s| == 0 then []
    else
      assert s == [s[0]] + s[1..];
      InsertSorted(s[0], OrderBy(s[1..]));
      Insert(s[0], OrderBy(s[1..]))
  }

  lemma {:induction false} InsertOfRank(u: Unit, t: seq<Unit>, k: int)
    ensures OfRank(Insert(u, t), k) == if GetExecutionOrder(u) == k then [u] + OfRank(t, k) else OfRank(t, k)
    decreases |t|
  {
    if |t| == 0 || GetExecutionOrder(u) <= GetExecutionOrder(t[0]) {
      assert ([u] + t)[1..] == t;
    } else {
      var rest := Insert(u, t[1..]);
      InsertOfRank(u, t[1..], k);
      assert ([t[0]] + rest)[1..] == rest;
      if GetExecutionOrder(u) == k {
        assert GetExecutionOrder(t[0]) != k;
      }
    }
  }

  /** Stability: for every rank, the units of that rank keep their
      registration order. Together with `OrderBy`'s own contract this fixes
      the result completely. */
  lemma {:induction false} OrderByIsStable(s: seq<Unit>, k: int)
    ensures OfRank(OrderBy(s), k) == OfRank(s, k)
    decreases |s|
  {
    if |s| > 0 {
      OrderByIsStable(s[1..], k);
      InsertOfRank(s[0], OrderBy(s[1..]), k);
    }
  }

  /** The ResetTurn calls on the units of s, in order. */
  function Resets(s: seq<Unit>): (r: seq<Call>)
    ensures |r| == |s|
    ensures forall i :: 0 <= i < |s| ==> r[i] == ResetTurn(s[i])
  {
    if |s| == 0 then [] else Resets(s[..|s| - 1]) + [ResetTurn(s[|s| - 1])]
  }

  /** The ExecuteTurn calls on the units of t that are not destroyed. */
  function Executes(t: seq<Unit>, destroyed: set<Unit>): (r: seq<Call>)
    ensures |r| <= |t|
    ensures forall i :: 0 <= i < |r| ==> r[i].ExecuteTurn? && r[i].unit in t && r[i].unit !in destroyed
    ensures forall u :: u in t && u !in destroyed ==> ExecuteTurn(u) in r
  {
    if |t| == 0 then []
    else
      var last := t[|t| - 1];
      var before := Executes(t[..|t| - 1], destroyed);
      assert forall u :: u in t ==> u in t[..|t| - 1] || u == last;
      if last in destroyed then before else before + [ExecuteTurn(last)]
  }

  lemma ResetsSnoc(s: seq<Unit>, i: nat)
    requires i < |s|
    ensures Resets(s[..i + 1]) == Resets(s[..i]) + [ResetTurn(s[i])]
  {
    assert s[..i + 1][..i] == s[..i];
  }

  lemma ExecutesSnoc(t: seq<Unit>, j: nat, destroyed: set<Unit>)
    requires j < |t|
    ensures Executes(t[..j + 1], destroyed) ==
      if t[j] in destroyed then Executes(t[..j], destroyed) else Executes(t[..j], destroyed) + [ExecuteTurn(t[j])]
  {
    assert t[..j + 1][..j] == t[..j];
  }

  /** The calls are made in nondecreasing rank of their units. */
  predicate CallsInRankOrder(r: seq<Call>)
  {
    forall i, j :: 0 <= i < j < |r| ==> GetExecutionOrder(r[i].unit) <= GetExecutionOrder(r[j].unit)
  }

  lemma {:induction false} ExecutesSorted(t: seq<Unit>, destroyed: set<Unit>)
    requires SortedByOrder(t)
    ensures CallsInRankOrder(Executes(t, destroyed))
    decreases |t|
  {
    if |t| > 0 {
      var front := t[..|t| - 1];
      assert SortedByOrder(front);
      ExecutesSorted(front, destroyed);
      var before := Executes(front, destroyed);
      forall i | 0 <= i < |before|
        ensures GetExecutionOrder(before[i].unit) <= GetExecutionOrder(t[|t| - 1])
      {
        var u := before[i].unit;
        assert u in front;
        var m :| 0 <= m < |front| && front[m] == u;
        assert t[m] == u;
      }
      var last := t[|t| - 1];
      if last !in destroyed {
        var r := before + [ExecuteTurn(last)];
        assert Executes(t, destroyed) == r;
        forall i, j | 0 <= i < j < |r|
          ensures GetExecutionOrder(r[i].unit) <= GetExecutionOrder(r[j].unit)
        {
          if j == |before| {
            assert r[i] == before[i];
            assert r[j].unit == last;
          } else {
            assert r[i] == before[i] && r[j] == before[j];
          }
        }
      } else {
        assert Executes(t, destroyed) == before;
      }
    }
  }

  /** The calls of one turn split into the resets, then the executes. */
  lemma ResetsFirst(rs: seq<Call>, ex: seq<Call>)
    requires forall i :: 0 <= i < |rs| ==> rs[i].ResetTurn?
    requires forall i :: 0 <= i < |ex| ==> ex[i].ExecuteTurn?
    ensures var seg := rs + ex;
      forall i, j :: 0 <= i < |seg| && 0 <= j < |seg| && seg[i].ResetTurn? && seg[j].ExecuteTurn? ==> i < j
  {
  }

  /** A unit is executed in a turn iff it is registered and not destroyed. */
  lemma ExecutedUnits(s: seq<Unit>, destroyed: set<Unit>, u: Unit)
    ensures ExecuteTurn(u) in Executes(OrderBy(s), destroyed) <==> u in s && u !in destroyed
  {
    var ex := Executes(OrderBy(s), destroyed);
    if ExecuteTurn(u) in ex {
      var m :| 0 <= m < |ex| && ex[m] == ExecuteTurn(u);
      assert u in OrderBy(s);
      assert u in multiset(OrderBy(s));
    }
    if u in s && u !in destroyed {
      assert u in multiset(s);
      assert u in OrderBy(s);
    }
  }

  /** A registered list without repeats executes each live unit once. */
  lemma {:induction false} ExecutesDistinct(t: seq<Unit>, destroyed: set<Unit>)
    requires Distinct(t)
    ensures Distinct(Executes(t, destroyed))
    decreases |t|
  {
    if |t| > 0 {
      var init := t[..|t| - 1];
      var last := t[|t| - 1];
      assert Distinct(init);
      ExecutesDistinct(init, destroyed);
      if last !in destroyed {
        var before := Executes(init, destroyed);
        assert last !in init;
        ConcatDistinct(before, [ExecuteTurn(last)]);
      }
    }
  }

  /** What one `AdvanceTurn` asks of the units given the registered list s:
      every reset comes before every execute, every registered unit is
      reset, and the executes follow the rank order, each live unit once. */
  lemma AdvanceTurnSchedule(s: seq<Unit>, destroyed: set<Unit>)
    ensures var seg := Resets(s) + Executes(OrderBy(s), destroyed);
      forall i, j :: 0 <= i < |seg| && 0 <= j < |seg| && seg[i].ResetTurn? && seg[j].ExecuteTurn? ==> i < j
    ensures forall u :: u in s ==> ResetTurn(u) in Resets(s)
    ensures forall u :: ExecuteTurn(u) in Executes(OrderBy(s), destroyed) <==> u in s && u !in destroyed
    ensures CallsInRankOrder(Executes(OrderBy(s), destroyed))
    ensures Distinct(s) ==> Distinct(Executes(OrderBy(s), destroyed))
  {
    if Distinct(s) {
      PermutationDistinct(s, OrderBy(s));
      ExecutesDistinct(OrderBy(s), destroyed);
    }
    var rs := Resets(s);
    ResetsFirst(rs, Executes(OrderBy(s), destroyed));
    forall u | u in s
      ensures ResetTurn(u) in rs
    {
      var m :| 0 <= m < |s| && s[m] == u;
      assert rs[m] == ResetTurn(u);
    }
    forall u
      ensures ExecuteTurn(u) in Executes(OrderBy(s), destroyed) <==> u in s && u !in destroyed
    {
      ExecutedUnits(s, destroyed, u);
    }
    ExecutesSorted(OrderBy(s), destroyed);
  }

  class TurnManager {
    var turnCount: int
    var turnBasedObjects: seq<Unit>
    /** Every ResetTurn/ExecuteTurn call made so far, oldest first. */
    var calls: seq<Call>

    constructor ()
      ensures turnCount == 0 && turnBasedObjects == [] && calls == []
      ensures Valid()
    {
      turnCount := 0;
      turnBasedObjects := [];
      calls := [];
    }

    /** The count never goes negative and no unit is registered twice. */
    predicate Valid()
      reads this
    {
      turnCount >= 0 && Distinct(turnBasedObjects)
    }

    /** `Register`: appends obj when it is not already there. */
    method Register(obj: Unit)
      requires Valid()
      modifies this`turnBasedObjects
      ensures Valid()
      ensures turnBasedObjects == if obj in old(turnBasedObjects) then old(turnBasedObjects) else old(turnBasedObjects) + [obj]
      ensures obj in turnBasedObjects
    {
      if obj !in turnBasedObjects {
        turnBasedObjects := turnBasedObjects + [obj];
      }
    }

    /** `Unregister`: removes obj; the other registered units stay in order. */
    method Unregister(obj: Unit)
      requires Valid()
      modifies this`turnBasedObjects
      ensures Valid()
      ensures turnBasedObjects == RemoveFirst(old(turnBasedObjects), obj)
      ensures obj !in turnBasedObjects
      ensures forall u :: u != obj ==> (u in turnBasedObjects <==> u in old(turnBasedObjects))
    {
      RemoveFirstDistinct(turnBasedObjects, obj);
      if obj in turnBasedObjects {
        turnBasedObjects := RemoveFirst(turnBasedObjects, obj);
      }
    }

    /** `AdvanceTurn`: one more turn; every registered unit is reset, then
      the units, ordered by `GetExecutionOrder`, execute, skipping those
      already destroyed. */
    method AdvanceTurn(destroyed: set<Unit>)
      requires Valid()
      modifies this`turnCount, this`calls
      ensures Valid()
      ensures turnCount == old(turnCount) + 1
      ensures calls == old(calls) + Resets(turnBasedObjects) + Executes(OrderBy(turnBasedObjects), destroyed)
    {
      turnCount := turnCount + 1;
      ResetAll(turnBasedObjects);
      ExecuteAll(OrderBy(turnBasedObjects), destroyed);
    }

    /** The first loop of `AdvanceTurn`, over a snapshot of the list. */
    method ResetAll(snapshot: seq<Unit>)
      modifies this`calls
      ensures calls == old(calls) + Resets(snapshot)
    {
      var i := 0;
      while i < |snapshot|
        invariant 0 <= i <= |snapshot|
        invariant calls == old(calls) + Resets(snapshot[..i])
      {
        ResetsSnoc(snapshot, i);
        calls := calls + [ResetTurn(snapshot[i])];
        i := i + 1;
      }
      assert snapshot[..i] == snapshot;
    }

    /** The second loop of `AdvanceTurn`: a destroyed unit is skipped. */
    method ExecuteAll(unitsToPlay: seq<Unit>, destroyed: set<Unit>)
      modifies this`calls
      ensures calls == old(calls) + Executes(unitsToPlay, destroyed)
    {
      var j := 0;
      while j < |unitsToPlay|
        invariant 0 <= j <= |unitsToPlay|
        invariant calls == old(calls) + Executes(unitsToPlay[..j], destroyed)
      {
        ExecutesSnoc(unitsToPlay, j, destroyed);
        if unitsToPlay[j] !in destroyed {
          calls := calls + [ExecuteTurn(unitsToPlay[j])];
        }
        j := j + 1;
      }
      assert unitsToPlay[..j] == unitsToPlay;
    }
  }
}

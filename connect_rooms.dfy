/** 2_5_CONNECT_ROOMS.py: groups points by class id, computes each room's
    centroid, joins the rooms by a greedy nearest-pair spanning tree (Prim's
    scheme on squared centroid distance) and carves an L-shaped corridor along
    each tree edge through the points that belong to no room. */
module ConnectRooms {
  import opened Wrappers
  import opened HoudiniGeo
  import opened Rng
  import opened Common

  datatype ConnectError = MissingClassAttrib | TooFewRooms

  /** One entry of the `rooms` dictionary: a class id and its points, in point order. */
  datatype RoomGroup = RoomGroup(id: int, members: seq<nat>)

  /** The distinct class ids other than -1. */
  function ClassIds(cls: seq<int>): set<int> {
    set p | 0 <= p < |cls| && cls[p] != -1 :: cls[p]
  }

  /** The position of the group with this id, if any. */
  function FindGroup(groups: seq<RoomGroup>, id: int): (r: int)
    ensures -1 <= r < |groups|
    ensures r >= 0 ==> groups[r].id == id
    ensures r == -1 <==> forall i :: 0 <= i < |groups| ==> groups[i].id != id
  {
    if groups == [] then -1
    else if groups[|groups| - 1].id == id then |groups| - 1
    else FindGroup(groups[..|groups| - 1], id)
  }

  lemma {:induction false} DistinctIdsCard(groups: seq<RoomGroup>)
    requires IdsDistinct(groups)
    ensures |Ids(groups)| == |groups|
  {
    if groups != [] {
      var init := groups[..|groups| - 1];
      DistinctIdsCard(init);
      var last := groups[|groups| - 1].id;
      assert Ids(groups) == Ids(init) + {last} by {
        forall i | 0 <= i < |init| ensures init[i].id == groups[i].id {}
      }
      assert last !in Ids(init);
    }
  }

  predicate IdsDistinct(groups: seq<RoomGroup>) {
    forall i, j :: 0 <= i < j < |groups| ==> groups[i].id != groups[j].id
  }

  function Ids(groups: seq<RoomGroup>): set<int> {
    set i | 0 <= i < |groups| :: groups[i].id
  }

  /** Each group is non-empty and lists, in increasing order, points below p
      whose class is the group's id. */
  predicate MembersBelow(groups: seq<RoomGroup>, cls: seq<int>, p: nat) {
    (forall i :: 0 <= i < |groups| ==> |groups[i].members| > 0) &&
    (forall i, m :: 0 <= i < |groups| && 0 <= m < |groups[i].members| ==>
      groups[i].members[m] < p && groups[i].members[m] < |cls| && cls[groups[i].members[m]] == groups[i].id) &&
    (forall i, m, m' :: 0 <= i < |groups| && 0 <= m < m' < |groups[i].members| ==>
      groups[i].members[m] < groups[i].members[m'])
  }

  /** Every point below p whose class is a group's id is in that group. */
  predicate CompleteBelow(groups: seq<RoomGroup>, cls: seq<int>, p: nat) {
    forall q, i :: 0 <= q < p && q < |cls| && 0 <= i < |groups| && cls[q] == groups[i].id ==> q in groups[i].members
  }

  /** Groups appear in the order of their first point. */
  predicate FirstOrder(groups: seq<RoomGroup>) {
    forall i, j :: 0 <= i < j < |groups| && |groups[i].members| > 0 && |groups[j].members| > 0 ==>
      groups[i].members[0] < groups[j].members[0]
  }

  ghost predicate GroupedBelow(groups: seq<RoomGroup>, cls: seq<int>, p: nat) {
    p <= |cls| && IdsDistinct(groups) && Ids(groups) == ClassIds(cls[..p]) &&
    MembersBelow(groups, cls, p) && CompleteBelow(groups, cls, p) && FirstOrder(groups)
  }

  /** `rooms[cid].append(pt)` on a defaultdict. */
  function AddPoint(groups: seq<RoomGroup>, id: int, p: nat): (r: seq<RoomGroup>)
    ensures FindGroup(groups, id) == -1 ==> r == groups + [RoomGroup(id, [p])]
    ensures FindGroup(groups, id) >= 0 ==> |r| == |groups|
  {
    var k := FindGroup(groups, id);
    if k == -1 then groups + [RoomGroup(id, [p])]
    else groups[k := RoomGroup(id, groups[k].members + [p])]
  }

  lemma AddPointIds(groups: seq<RoomGroup>, id: int, p: nat)
    requires IdsDistinct(groups)
    ensures IdsDistinct(AddPoint(groups, id, p)) && Ids(AddPoint(groups, id, p)) == Ids(groups) + {id}
  {
    var r := AddPoint(groups, id, p);
    var k := FindGroup(groups, id);
    if k == -1 {
      forall i | 0 <= i < |groups| ensures r[i].id == groups[i].id {}
      assert r[|groups|].id == id;
    } else {
      forall i | 0 <= i < |groups| ensures r[i].id == groups[i].id {}
    }
  }

  lemma AddPointMembers(groups: seq<RoomGroup>, cls: seq<int>, p: nat)
    requires p < |cls| && cls[p] != -1 && MembersBelow(groups, cls, p) && FirstOrder(groups)
    ensures MembersBelow(AddPoint(groups, cls[p], p), cls, p + 1) && FirstOrder(AddPoint(groups, cls[p], p))
  {
    var k := FindGroup(groups, cls[p]);
    if k == -1 {
      NewGroupMembers(groups, cls, p);
    } else {
      AppendMembers(groups, cls, p, k);
    }
  }

  /** A point whose id has no group yet starts a new, last group. */
  lemma NewGroupMembers(groups: seq<RoomGroup>, cls: seq<int>, p: nat)
    requires p < |cls| && cls[p] != -1 && MembersBelow(groups, cls, p) && FirstOrder(groups)
    ensures var r := groups + [RoomGroup(cls[p], [p])];
      MembersBelow(r, cls, p + 1) && FirstOrder(r)
  {
    var r := groups + [RoomGroup(cls[p], [p])];
    assert forall i :: 0 <= i < |groups| ==> r[i] == groups[i];
    assert r[|groups|].members == [p];
  }

  /** A point whose id has group k is appended to that group. */
  lemma AppendMembers(groups: seq<RoomGroup>, cls: seq<int>, p: nat, k: nat)
    requires p < |cls| && k < |groups| && groups[k].id == cls[p]
    requires MembersBelow(groups, cls, p) && FirstOrder(groups)
    ensures var r := groups[k := RoomGroup(cls[p], groups[k].members + [p])];
      MembersBelow(r, cls, p + 1) && FirstOrder(r)
  {
    var ms := groups[k].members + [p];
    assert forall m :: 0 <= m < |groups[k].members| ==> ms[m] == groups[k].members[m];
    assert ms[0] == groups[k].members[0];
  }

  lemma AddPointComplete(groups: seq<RoomGroup>, cls: seq<int>, p: nat)
    requires p < |cls| && cls[p] != -1 && IdsDistinct(groups) && CompleteBelow(groups, cls, p)
    requires Ids(groups) == ClassIds(cls[..p])
    ensures CompleteBelow(AddPoint(groups, cls[p], p), cls, p + 1)
  {
    var r := AddPoint(groups, cls[p], p);
    var k := FindGroup(groups, cls[p]);
    if k == -1 { UnseenId(groups, cls, p); }
    forall q, i | 0 <= q < p + 1 && 0 <= i < |r| && cls[q] == r[i].id ensures q in r[i].members {
      if k == -1 {
        if i < |groups| {
          assert r[i] == groups[i];
        }
      } else if i == k {
        if q < p { assert q in groups[k].members; }
      } else {
        assert r[i] == groups[i];
      }
    }
  }

  /** A class id no group has yet was not seen before point p. */
  lemma UnseenId(groups: seq<RoomGroup>, cls: seq<int>, p: nat)
    requires p < |cls| && cls[p] != -1 && Ids(groups) == ClassIds(cls[..p])
    requires FindGroup(groups, cls[p]) == -1
    ensures forall q :: 0 <= q < p ==> cls[q] != cls[p]
  {
    forall q | 0 <= q < p ensures cls[q] != cls[p] {
      if cls[q] != -1 {
        assert cls[..p][q] == cls[q];
        assert cls[q] in Ids(groups);
      }
    }
  }

  lemma ClassIdsStep(cls: seq<int>, p: nat)
    requires p < |cls|
    ensures ClassIds(cls[..p + 1]) == ClassIds(cls[..p]) + (if cls[p] != -1 then {cls[p]} else {})
  {
    assert forall q :: 0 <= q < p ==> cls[..p + 1][q] == cls[..p][q];
  }

  /** The grouping loop: `rooms[cid].append(pt)` for every point whose class is not
      -1. The groups appear in order of their first point, their ids are the
      distinct class ids, and each holds, in point order, exactly the points
      with its id. */
  method GroupRooms(cls: seq<int>) returns (groups: seq<RoomGroup>)
    ensures IdsDistinct(groups) && Ids(groups) == ClassIds(cls) && |groups| == |ClassIds(cls)|
    ensures MembersBelow(groups, cls, |cls|) && FirstOrder(groups)
    ensures CompleteBelow(groups, cls, |cls|)
  {
    groups := [];
    var p := 0;
    while p < |cls|
      invariant GroupedBelow(groups, cls, p)
    {
      ClassIdsStep(cls, p);
      if cls[p] == -1 {
        forall i | 0 <= i < |groups| ensures groups[i].id != -1 {
          assert groups[i].id in Ids(groups);
        }
      }
      if cls[p] != -1 {
        AddPointIds(groups, cls[p], p);
        AddPointMembers(groups, cls, p);
        AddPointComplete(groups, cls, p);
        groups := AddPoint(groups, cls[p], p);
      }
      p := p + 1;
    }
    assert cls[..p] == cls;
    DistinctIdsCard(groups);
  }

  predicate Within(ms: seq<nat>, n: nat) {
    forall k :: 0 <= k < |ms| ==> ms[k] < n
  }

  function SumX(pts: seq<Pos>, ms: seq<nat>): real
    requires Within(ms, |pts|)
  {
    if ms == [] then 0.0 else SumX(pts, ms[..|ms| - 1]) + pts[ms[|ms| - 1]].x
  }

  function SumZ(pts: seq<Pos>, ms: seq<nat>): real
    requires Within(ms, |pts|)
  {
    if ms == [] then 0.0 else SumZ(pts, ms[..|ms| - 1]) + pts[ms[|ms| - 1]].z
  }

  /** The centroid step: the room centre is the mean x and mean z of its points. */
  function Centroid(pts: seq<Pos>, ms: seq<nat>): (real, real)
    requires |ms| > 0 && Within(ms, |pts|)
  {
    (SumX(pts, ms) / |ms| as real, SumZ(pts, ms) / |ms| as real)
  }

  lemma {:induction false} SumXBounds(pts: seq<Pos>, ms: seq<nat>, lo: real, hi: real)
    requires forall k :: 0 <= k < |ms| ==> ms[k] < |pts| && lo <= pts[ms[k]].x <= hi
    ensures |ms| as real * lo <= SumX(pts, ms) <= |ms| as real * hi
  {
    if ms != [] {
      SumXBounds(pts, ms[..|ms| - 1], lo, hi);
    }
  }

  lemma {:induction false} SumZBounds(pts: seq<Pos>, ms: seq<nat>, lo: real, hi: real)
    requires forall k :: 0 <= k < |ms| ==> ms[k] < |pts| && lo <= pts[ms[k]].z <= hi
    ensures |ms| as real * lo <= SumZ(pts, ms) <= |ms| as real * hi
  {
    if ms != [] {
      SumZBounds(pts, ms[..|ms| - 1], lo, hi);
    }
  }

  /** A centroid lies inside the box of its room's points: a room that is one
      carved rectangle has its centre inside that rectangle. */
  lemma CentroidInBox(pts: seq<Pos>, ms: seq<nat>, lo: Pos, hi: Pos)
    requires |ms| > 0
    requires forall k :: 0 <= k < |ms| ==> ms[k] < |pts| && lo.x <= pts[ms[k]].x <= hi.x && lo.z <= pts[ms[k]].z <= hi.z
    ensures lo.x <= Centroid(pts, ms).0 <= hi.x && lo.z <= Centroid(pts, ms).1 <= hi.z
  {
    CentroidXIn(pts, ms, lo.x, hi.x);
    CentroidZIn(pts, ms, lo.z, hi.z);
  }

  lemma CentroidXIn(pts: seq<Pos>, ms: seq<nat>, lo: real, hi: real)
    requires |ms| > 0
    requires forall k :: 0 <= k < |ms| ==> ms[k] < |pts| && lo <= pts[ms[k]].x <= hi
    ensures lo <= Centroid(pts, ms).0 <= hi
  {
    SumXBounds(pts, ms, lo, hi);
    DivBounds(SumX(pts, ms), |ms| as real, lo, hi);
  }

  lemma CentroidZIn(pts: seq<Pos>, ms: seq<nat>, lo: real, hi: real)
    requires |ms| > 0
    requires forall k :: 0 <= k < |ms| ==> ms[k] < |pts| && lo <= pts[ms[k]].z <= hi
    ensures lo <= Centroid(pts, ms).1 <= hi
  {
    SumZBounds(pts, ms, lo, hi);
    DivBounds(SumZ(pts, ms), |ms| as real, lo, hi);
  }

  lemma DivBounds(s: real, n: real, lo: real, hi: real)
    requires n > 0.0 && n * lo <= s <= n * hi
    ensures lo <= s / n <= hi
  {
    assert s / n * n == s;
  }

  /** The `room_centers` loop: one centre per group, in group order. */
  method Centers(pts: seq<Pos>, groups: seq<RoomGroup>) returns (centers: seq<(real, real)>)
    requires forall i :: 0 <= i < |groups| ==> |groups[i].members| > 0
    requires forall i, m :: 0 <= i < |groups| && 0 <= m < |groups[i].members| ==> groups[i].members[m] < |pts|
    ensures |centers| == |groups|
    ensures forall i :: 0 <= i < |groups| ==> centers[i] == Centroid(pts, groups[i].members)
  {
    centers := [];
    var i := 0;
    while i < |groups|
      invariant 0 <= i <= |groups| && |centers| == i
      invariant forall k :: 0 <= k < i ==> centers[k] == Centroid(pts, groups[k].members)
    {
      var ms := groups[i].members;
      var sx, sz, k := 0.0, 0.0, 0;
      while k < |ms|
        invariant 0 <= k <= |ms|
        invariant sx == SumX(pts, ms[..k]) && sz == SumZ(pts, ms[..k])
      {
        assert ms[..k + 1][..k] == ms[..k];
        sx, sz := sx + pts[ms[k]].x, sz + pts[ms[k]].z;
        k := k + 1;
      }
      assert ms[..k] == ms;
      centers := centers + [(sx / |ms| as real, sz / |ms| as real)];
      i := i + 1;
    }
  }

  /** The `dist` of the closest-pair scan: squared distance between two room centres. */
  function Dist2(a: (real, real), b: (real, real)): real {
    (a.0 - b.0) * (a.0 - b.0) + (a.1 - b.1) * (a.1 - b.1)
  }

  /** The entries of h that are in s, each at its first occurrence. */
  function Keep(h: seq<nat>, s: set<nat>): (r: seq<nat>)
    ensures Distinct(r) && forall x :: x in r <==> x in h && x in s
    ensures Distinct(h) && (forall x :: x in h ==> x in s) ==> r == h
    decreases |h|
  {
    if h == [] then []
    else
      var pre, x := Keep(h[..|h| - 1], s), h[|h| - 1];
      assert h == h[..|h| - 1] + [x];
      if x in s && x !in pre then
        ConcatDistinct(pre, [x]);
        pre + [x]
      else pre
  }

  /** The members of s in [lo, m), ascending. */
  function Ascending(s: set<nat>, lo: nat, m: nat): (r: seq<nat>)
    ensures Increasing(r) && forall x :: x in r <==> x in s && lo <= x < m
    ensures (forall x :: lo <= x < m ==> x !in s) ==> r == []
    decreases m - lo
  {
    if lo >= m then []
    else
      var rest := Ascending(s, lo + 1, m);
      if lo in s then
        assert forall j :: 0 <= j < |rest| ==> rest[j] in rest;
        [lo] + rest
      else rest
  }

  /** The order in which `for r1 in connected` visits the connected rooms.
      CPython visits a set of integers in the order of its hash-table slots,
      which depends on the table size and on the insertion history, so the
      order is not in general ascending; it is an input here. `hint` lists
      the rooms in the order the set is visited: an entry that repeats or is
      not in the set is skipped, and a connected room it leaves out comes
      afterwards, in ascending order. A hint that lists exactly the connected
      rooms, once each, is the scan order itself. */
  function ScanOrder(hint: seq<nat>, connected: set<nat>, m: nat): (o: seq<nat>)
    requires forall x :: x in connected ==> x < m
    ensures Distinct(o) && forall x :: x in o <==> x in connected
    ensures forall i :: 0 <= i < |o| ==> o[i] < m
    ensures Distinct(hint) && (forall x :: x in hint <==> x in connected) ==> o == hint
  {
    var front := Keep(hint, connected);
    var rest := Ascending(set x | x in connected && x !in hint, 0, m);
    IncreasingDistinct(rest);
    ConcatDistinct(front, rest);
    ExactHint(hint, connected, m);
    var o := front + rest;
    assert forall i :: 0 <= i < |o| ==> o[i] in o;
    o
  }

  /** A hint that lists exactly the connected rooms leaves none over. */
  lemma ExactHint(hint: seq<nat>, connected: set<nat>, m: nat)
    requires forall x :: x in connected ==> x < m
    ensures Distinct(hint) && (forall x :: x in hint <==> x in connected) ==>
      Keep(hint, connected) + Ascending(set x | x in connected && x !in hint, 0, m) == hint
  {
    var rest := Ascending(set x | x in connected && x !in hint, 0, m);
    if Distinct(hint) && (forall x :: x in hint <==> x in connected) {
      assert rest == [];
      assert Keep(hint, connected) + rest == Keep(hint, connected);
    }
  }

  /** (order[i], y) is visited strictly before (a, b): row order[i] comes
      before row a, or it is row a and y comes before b in the ascending
      unconnected list. */
  predicate ScannedBefore(order: seq<nat>, i: nat, y: nat, a: nat, b: nat)
    requires i < |order|
  {
    a !in order[..i + 1] || (order[i] == a && y < b)
  }

  /** The inner loop of the closest-pair scan, for one connected room x: the scan over the unconnected
      list. `pair` is `closest_pair` and `best` is `shortest_dist` whenever
      `pair` is not None. Either the pair is kept, or it becomes (x, y) for the
      first y in the list at strictly smaller distance than all before it. */
  method ScanRow(centers: seq<(real, real)>, x: nat, unc: seq<nat>, pair: Option<(nat, nat)>, best: real)
    returns (pair': Option<(nat, nat)>, best': real)
    requires x < |centers| && |unc| > 0 && Increasing(unc)
    requires forall j :: 0 <= j < |unc| ==> unc[j] < |centers|
    requires pair.Some? ==> pair.value.0 != x
    ensures pair'.Some?
    ensures (pair', best') == (pair, best) || (pair'.value.0 == x && pair'.value.1 in unc && (pair.Some? ==> best' < best))
    ensures pair'.value.0 == x ==> pair'.value.1 in unc && best' == Dist2(centers[x], centers[pair'.value.1])
    ensures pair.Some? ==> best' <= best
    ensures forall y :: y in unc ==> best' <= Dist2(centers[x], centers[y])
    ensures forall y :: y in unc && pair'.value.0 == x && y < pair'.value.1 ==> best' < Dist2(centers[x], centers[y])
  {
    pair', best' := pair, best;
    var j := 0;
    while j < |unc|
      invariant 0 <= j <= |unc|
      invariant j > 0 ==> pair'.Some?
      invariant (pair', best') == (pair, best) || (pair'.Some? && pair'.value.0 == x && pair'.value.1 in unc[..j] && (pair.Some? ==> best' < best))
      invariant pair'.Some? && pair'.value.0 == x ==> pair'.value.1 in unc && best' == Dist2(centers[x], centers[pair'.value.1])
      invariant pair.Some? ==> best' <= best
      invariant forall k :: 0 <= k < j ==> best' <= Dist2(centers[x], centers[unc[k]])
      invariant forall k :: 0 <= k < j && pair'.Some? && pair'.value.0 == x && unc[k] < pair'.value.1 ==>
        best' < Dist2(centers[x], centers[unc[k]])
    {
      var d := Dist2(centers[x], centers[unc[j]]);
      if pair'.Some? && pair'.value.0 == x {
        var k :| 0 <= k < j && unc[k] == pair'.value.1;
        assert pair'.value.1 < unc[j];
      }
      if pair'.None? || d < best' {
        pair', best' := Some((x, unc[j])), d;
        forall k | 0 <= k < j ensures unc[k] < unc[j] {}
      }
      j := j + 1;
    }
    forall y | y in unc ensures best' <= Dist2(centers[x], centers[y]) {
      var k :| 0 <= k < |unc| && unc[k] == y;
    }
    forall y | y in unc && pair'.value.0 == x && y < pair'.value.1 ensures best' < Dist2(centers[x], centers[y]) {
      var k :| 0 <= k < |unc| && unc[k] == y;
    }
  }

  /** Over the first n rows of the scan, (a, b) is at least squared distance
      among all (connected, unconnected) pairs, and strictly closer than every
      pair visited before it. */
  predicate ClosestUpTo(centers: seq<(real, real)>, order: seq<nat>, unc: seq<nat>, n: nat, a: nat, b: nat)
    requires n <= |order| && a < |centers| && b < |centers|
    requires forall i :: 0 <= i < |order| ==> order[i] < |centers|
    requires forall j :: 0 <= j < |unc| ==> unc[j] < |centers|
  {
    (forall i, y :: 0 <= i < n && y in unc ==>
      Dist2(centers[a], centers[b]) <= Dist2(centers[order[i]], centers[y])) &&
    (forall i, y :: 0 <= i < n && y in unc && ScannedBefore(order, i, y, a, b) ==>
      Dist2(centers[a], centers[b]) < Dist2(centers[order[i]], centers[y]))
  }

  /** (a, b) is the closest pair over the whole scan. */
  predicate IsClosest(centers: seq<(real, real)>, order: seq<nat>, unc: seq<nat>, a: nat, b: nat)
    requires a < |centers| && b < |centers|
    requires forall i :: 0 <= i < |order| ==> order[i] < |centers|
    requires forall j :: 0 <= j < |unc| ==> unc[j] < |centers|
  {
    ClosestUpTo(centers, order, unc, |order|, a, b)
  }

  /** A row already scanned is not the current one, in a distinct order. */
  lemma RowIsNew(order: seq<nat>, i: nat, a: nat)
    requires Distinct(order) && i < |order| && a in order[..i]
    ensures a in order[..i + 1] && a != order[i]
  {
    assert order[..i + 1] == order[..i] + [order[i]];
  }

  /** One row of the scan keeps the closest-so-far property: given what the
      scan of row order[i] promises about the pair (a, b) it leaves, (a, b) is
      closest over the first i + 1 rows. `prev` is the pair before the row. */
  lemma RowStep(centers: seq<(real, real)>, order: seq<nat>, unc: seq<nat>, i: nat, prev: Option<(nat, nat)>, a: nat, b: nat)
    requires i < |order| && a < |centers| && b < |centers|
    requires forall k :: 0 <= k < |order| ==> order[k] < |centers|
    requires forall j :: 0 <= j < |unc| ==> unc[j] < |centers|
    requires i > 0 <==> prev.Some?
    requires prev.Some? ==> (prev.value.0 < |centers| && prev.value.1 < |centers| && prev.value.0 in order[..i + 1] &&
      prev.value.0 != order[i] && ClosestUpTo(centers, order, unc, i, prev.value.0, prev.value.1))
    requires prev == Some((a, b)) || (a == order[i] && b in unc && (prev.Some? ==>
      Dist2(centers[a], centers[b]) < Dist2(centers[prev.value.0], centers[prev.value.1])))
    requires prev.Some? ==> Dist2(centers[a], centers[b]) <= Dist2(centers[prev.value.0], centers[prev.value.1])
    requires forall y :: y in unc ==> Dist2(centers[a], centers[b]) <= Dist2(centers[order[i]], centers[y])
    requires forall y :: y in unc && a == order[i] && y < b ==> Dist2(centers[a], centers[b]) < Dist2(centers[order[i]], centers[y])
    ensures a in order[..i + 1]
    ensures ClosestUpTo(centers, order, unc, i + 1, a, b)
  {
    assert order[..i + 1][i] == order[i];
    var d := Dist2(centers[a], centers[b]);
    forall k, y | 0 <= k < i + 1 && y in unc ensures d <= Dist2(centers[order[k]], centers[y]) {
      if k < i {
        assert Dist2(centers[prev.value.0], centers[prev.value.1]) <= Dist2(centers[order[k]], centers[y]);
      }
    }
    forall k, y | 0 <= k < i + 1 && y in unc && ScannedBefore(order, k, y, a, b) ensures d < Dist2(centers[order[k]], centers[y]) {
      if prev == Some((a, b)) {
        if k == i {
          assert false;
        }
      } else if k < i {
        assert Dist2(centers[prev.value.0], centers[prev.value.1]) <= Dist2(centers[order[k]], centers[y]);
      }
    }
  }

  /** `for r1 in connected: for r2 in unconnected_rooms:` with the update on
      `dist < shortest_dist`: the pair (connected, unconnected) of least
      squared centre distance, the first such pair in scan order winning a
      tie. `order` is the order in which the set is visited. The pair always
      exists, so the `if closest_pair:` test always passes and the outer loop
      always makes progress. */
  method ClosestPair(centers: seq<(real, real)>, order: seq<nat>, unc: seq<nat>) returns (a: nat, b: nat)
    requires |order| > 0 && |unc| > 0 && Distinct(order)
    requires forall i :: 0 <= i < |order| ==> order[i] < |centers|
    requires forall j :: 0 <= j < |unc| ==> unc[j] < |centers| && unc[j] !in order
    requires Increasing(unc)
    ensures a in order && b in unc && a < |centers| && b < |centers|
    ensures IsClosest(centers, order, unc, a, b)
  {
    var pair: Option<(nat, nat)> := None;
    var best: real := 0.0;
    var i := 0;
    while i < |order|
      invariant 0 <= i <= |order|
      invariant i > 0 <==> pair.Some?
      invariant pair.Some? ==> (pair.value.0 in order[..i] && pair.value.1 in unc &&
        pair.value.0 < |centers| && pair.value.1 < |centers| &&
        best == Dist2(centers[pair.value.0], centers[pair.value.1]) &&
        ClosestUpTo(centers, order, unc, i, pair.value.0, pair.value.1))
    {
      if pair.Some? {
        RowIsNew(order, i, pair.value.0);
      }
      ghost var prev := pair;
      pair, best := ScanRow(centers, order[i], unc, pair, best);
      RowStep(centers, order, unc, i, prev, pair.value.0, pair.value.1);
      i := i + 1;
    }
    assert order[..i] == order;
    a, b := pair.value.0, pair.value.1;
  }


  /** The rooms connected after the first k edges: the first room and the far
      end of each edge so far. */
  ghost function Tree(edges: seq<(nat, nat)>, k: nat): set<nat>
    requires k <= |edges|
  {
    if k == 0 then {0} else Tree(edges, k - 1) + {edges[k - 1].1}
  }

  lemma {:induction false} TreePrefix(edges: seq<(nat, nat)>, e: (nat, nat), k: nat)
    requires k <= |edges|
    ensures Tree(edges + [e], k) == Tree(edges, k)
  {
    if k > 0 {
      TreePrefix(edges, e, k - 1);
      assert (edges + [e])[k - 1] == edges[k - 1];
    }
  }

  /** Edge k joins a connected room to an unconnected one at least squared
      distance, and no pair visited before it in that round's scan order,
      `ScanOrder(hint(k), ...)`, is as close. */
  ghost predicate GreedyEdge(centers: seq<(real, real)>, hint: nat -> seq<nat>, edges: seq<(nat, nat)>, k: nat)
    requires k < |edges|
  {
    var t := Tree(edges, k);
    var e := edges[k];
    var m := |centers|;
    e.0 in t && e.0 < m && e.1 < m && e.1 !in t && (forall x :: x in t ==> x < m) &&
    (forall x: nat, y: nat :: x in t && x < m && y < m && y !in t ==>
      Dist2(centers[e.0], centers[e.1]) <= Dist2(centers[x], centers[y])) &&
    var o := ScanOrder(hint(k), t, m);
    (forall i, y: nat :: 0 <= i < |o| && y < m && y !in t && ScannedBefore(o, i, y, e.0, e.1) ==>
      Dist2(centers[e.0], centers[e.1]) < Dist2(centers[o[i]], centers[y]))
  }

  lemma GreedyEdgePrefix(centers: seq<(real, real)>, hint: nat -> seq<nat>, edges: seq<(nat, nat)>, e: (nat, nat), k: nat)
    requires k < |edges| && GreedyEdge(centers, hint, edges, k)
    ensures GreedyEdge(centers, hint, edges + [e], k)
  {
    TreePrefix(edges, e, k);
    assert (edges + [e])[k] == edges[k];
  }

  /** The pair ClosestPair picks from the round's scan order is the greedy
      edge of that round. */
  lemma NewGreedyEdge(centers: seq<(real, real)>, hint: nat -> seq<nat>, edges: seq<(nat, nat)>,
                      connected: set<nat>, unc: seq<nat>, a: nat, b: nat)
    requires connected == Tree(edges, |edges|)
    requires forall x :: x in connected ==> x < |centers|
    requires forall y :: 0 <= y < |centers| && y !in connected ==> y in unc
    requires forall j :: 0 <= j < |unc| ==> unc[j] < |centers| && unc[j] !in connected
    requires a in connected && b in unc && a < |centers| && b < |centers|
    requires IsClosest(centers, ScanOrder(hint(|edges|), connected, |centers|), unc, a, b)
    ensures GreedyEdge(centers, hint, edges + [(a, b)], |edges|)
  {
    TreePrefix(edges, (a, b), |edges|);
    ClosestIsShortest(centers, ScanOrder(hint(|edges|), connected, |centers|), connected, unc, a, b);
    ClosestWinsTies(centers, ScanOrder(hint(|edges|), connected, |centers|), connected, unc, a, b);
  }

  lemma ClosestIsShortest(centers: seq<(real, real)>, o: seq<nat>, connected: set<nat>, unc: seq<nat>, a: nat, b: nat)
    requires forall x :: x in o <==> x in connected
    requires forall i :: 0 <= i < |o| ==> o[i] < |centers|
    requires forall y :: 0 <= y < |centers| && y !in connected ==> y in unc
    requires forall j :: 0 <= j < |unc| ==> unc[j] < |centers|
    requires a < |centers| && b < |centers| && IsClosest(centers, o, unc, a, b)
    ensures forall x: nat, y: nat :: x in connected && x < |centers| && y < |centers| && y !in connected ==>
      Dist2(centers[a], centers[b]) <= Dist2(centers[x], centers[y])
  {
    forall x: nat, y: nat | x in connected && x < |centers| && y < |centers| && y !in connected
      ensures Dist2(centers[a], centers[b]) <= Dist2(centers[x], centers[y])
    {
      var i :| 0 <= i < |o| && o[i] == x;
      assert y in unc;
    }
  }

  lemma ClosestWinsTies(centers: seq<(real, real)>, o: seq<nat>, connected: set<nat>, unc: seq<nat>, a: nat, b: nat)
    requires forall i :: 0 <= i < |o| ==> o[i] < |centers|
    requires forall y :: 0 <= y < |centers| && y !in connected ==> y in unc
    requires forall j :: 0 <= j < |unc| ==> unc[j] < |centers|
    requires a < |centers| && b < |centers| && IsClosest(centers, o, unc, a, b)
    ensures forall i, y: nat :: 0 <= i < |o| && y < |centers| && y !in connected && ScannedBefore(o, i, y, a, b) ==>
      Dist2(centers[a], centers[b]) < Dist2(centers[o[i]], centers[y])
  {
    forall i, y: nat | 0 <= i < |o| && y < |centers| && y !in connected && ScannedBefore(o, i, y, a, b)
      ensures Dist2(centers[a], centers[b]) < Dist2(centers[o[i]], centers[y])
    {
      assert y in unc;
    }
  }

  ghost predicate AllGreedy(centers: seq<(real, real)>, hint: nat -> seq<nat>, edges: seq<(nat, nat)>) {
    forall k :: 0 <= k < |edges| ==> GreedyEdge(centers, hint, edges, k)
  }

  lemma AllGreedyExtend(centers: seq<(real, real)>, hint: nat -> seq<nat>, edges: seq<(nat, nat)>, e: (nat, nat))
    requires AllGreedy(centers, hint, edges)
    requires GreedyEdge(centers, hint, edges + [e], |edges|)
    ensures AllGreedy(centers, hint, edges + [e])
  {
    forall k | 0 <= k < |edges| ensures GreedyEdge(centers, hint, edges + [e], k) {
      GreedyEdgePrefix(centers, hint, edges, e, k);
    }
  }

  /** Moving b out of the unconnected list keeps it the ascending list of the
      rooms not yet connected. */
  lemma UnconnectedStep(unc: seq<nat>, connected: set<nat>, b: nat, m: nat)
    requires b in unc && Increasing(unc)
    requires forall j :: 0 <= j < |unc| ==> unc[j] < m && unc[j] !in connected
    requires forall y :: 0 <= y < m && y !in connected ==> y in unc
    ensures var r := RemoveFirst<nat>(unc, b);
      |r| == |unc| - 1 && Increasing(r) &&
      (forall j :: 0 <= j < |r| ==> r[j] < m && r[j] !in connected + {b}) &&
      (forall y :: 0 <= y < m && y !in connected + {b} ==> y in r)
  {
    var r := RemoveFirst<nat>(unc, b);
    RemoveFirstIncreasing(unc, b);
    forall j | 0 <= j < |r| ensures r[j] < m && r[j] !in connected + {b} {
      assert r[j] in unc;
    }
  }

  function Iota(lo: nat, hi: nat): (r: seq<nat>)
    ensures |r| == if lo <= hi then hi - lo else 0
    ensures forall j :: 0 <= j < |r| ==> r[j] == lo + j
    decreases hi - lo
  {
    if lo >= hi then [] else [lo] + Iota(lo + 1, hi)
  }

  /** The connection loop, from `connected.add(unconnected_rooms.pop(0))` to
      `unconnected_rooms.remove(r2)`: starting from the first room, each
      iteration visits `connected` in the order `hint` gives for that round
      and moves exactly one room from the unconnected list into `connected`
      along the greedy edge. So the result has one edge fewer than there are
      rooms and reaches every room. Indices are positions in the `rooms`
      dictionary. */
  method SpanningTree(centers: seq<(real, real)>, hint: nat -> seq<nat>) returns (edges: seq<(nat, nat)>)
    requires |centers| >= 1
    ensures |edges| == |centers| - 1
    ensures AllGreedy(centers, hint, edges)
    ensures forall y :: 0 <= y < |centers| <==> y in Tree(edges, |edges|)
  {
    var m := |centers|;
    var connected: set<nat> := {0};
    var unc: seq<nat> := Iota(1, m);
    edges := [];
    forall y | 0 <= y < m && y != 0 ensures y in unc {
      assert unc[y - 1] == y;
    }
    while |unc| > 0
      invariant TreeState(centers, hint, edges, connected, unc)
      invariant AllGreedy(centers, hint, edges)
      decreases |unc|
    {
      var order := ScanOrder(hint(|edges|), connected, m);
      assert connected != {} by { TreeRoot(edges, |edges|); }
      assert order != [] by { var r :| r in connected; }
      var a, b := ClosestPair(centers, order, unc);
      NewGreedyEdge(centers, hint, edges, connected, unc, a, b);
      AllGreedyExtend(centers, hint, edges, (a, b));
      TreeStep(centers, hint, edges, connected, unc, a, b);
      edges := edges + [(a, b)];
      connected := connected + {b};
      unc := RemoveFirst<nat>(unc, b);
    }
  }

  lemma {:induction false} TreeRoot(edges: seq<(nat, nat)>, k: nat)
    requires k <= |edges|
    ensures 0 in Tree(edges, k)
  {
    if k > 0 {
      TreeRoot(edges, k - 1);
    }
  }

  /** The state of the connection loop: `connected` is the tree of the edges
      so far and `unc` lists the other rooms in ascending order. */
  ghost predicate TreeState(centers: seq<(real, real)>, hint: nat -> seq<nat>, edges: seq<(nat, nat)>,
                            connected: set<nat>, unc: seq<nat>) {
    var m := |centers|;
    connected == Tree(edges, |edges|) &&
    (forall x :: x in connected ==> x < m) &&
    (forall j :: 0 <= j < |unc| ==> unc[j] < m && unc[j] !in connected) &&
    (forall y :: 0 <= y < m && y !in connected ==> y in unc) &&
    Increasing(unc) && |edges| + |unc| == m - 1
  }

  /** One iteration of the connection loop keeps its state. */
  lemma TreeStep(centers: seq<(real, real)>, hint: nat -> seq<nat>, edges: seq<(nat, nat)>,
                 connected: set<nat>, unc: seq<nat>, a: nat, b: nat)
    requires TreeState(centers, hint, edges, connected, unc)
    requires a in connected && b in unc && a < |centers| && b < |centers|
    ensures TreeState(centers, hint, edges + [(a, b)], connected + {b}, RemoveFirst<nat>(unc, b))
  {
    var edges' := edges + [(a, b)];
    TreePrefix(edges, (a, b), |edges|);
    assert Tree(edges', |edges'|) == connected + {b};
    UnconnectedStep(unc, connected, b, |centers|);
    assert |RemoveFirst<nat>(unc, b)| == |unc| - 1;
  }

  /** Two rooms are joined by one of the edges, in either direction. */
  predicate Linked<T(==)>(edges: seq<(T, T)>, u: T, v: T) {
    exists j :: 0 <= j < |edges| && (edges[j] == (u, v) || edges[j] == (v, u))
  }

  predicate IsPath<T(==)>(edges: seq<(T, T)>, path: seq<T>, from: T, to: T) {
    |path| > 0 && path[0] == from && path[|path| - 1] == to &&
    forall i :: 0 <= i < |path| - 1 ==> Linked(edges, path[i], path[i + 1])
  }

  /** The greedy edges form a spanning tree: every connected room is joined to
      the first room by a path of edges. */
  lemma {:induction false} PathToRoot(centers: seq<(real, real)>, hint: nat -> seq<nat>, edges: seq<(nat, nat)>, k: nat, r: nat)
    returns (path: seq<nat>)
    requires k <= |edges| && r in Tree(edges, k)
    requires AllGreedy(centers, hint, edges)
    ensures IsPath(edges, path, 0, r)
  {
    if k == 0 {
      path := [0];
    } else if r in Tree(edges, k - 1) {
      path := PathToRoot(centers, hint, edges, k - 1, r);
    } else {
      var e := edges[k - 1];
      assert GreedyEdge(centers, hint, edges, k - 1);
      path := PathToRoot(centers, hint, edges, k - 1, e.0);
      assert Linked(edges, e.0, r);
      path := path + [r];
    }
  }

  function Min(a: real, b: real): real { if a <= b then a else b }
  function Max(a: real, b: real): real { if a <= b then b else a }
  function Abs(a: real): real { if a < 0.0 then -a else a }

  /** The corridor test of the carving loop: the horizontal leg runs at z1 between x1 and x2, the
      vertical leg at x2 between z1 and z2; a point is on a leg when it is
      within half a cell of its line. */
  predicate InCorridor(p: Pos, c1: (real, real), c2: (real, real)) {
    (Min(c1.0, c2.0) <= p.x <= Max(c1.0, c2.0) && Abs(p.z - c1.1) < 0.5) ||
    (Min(c1.1, c2.1) <= p.z <= Max(c1.1, c2.1) && Abs(p.x - c2.0) < 0.5)
  }

  /** The L joins the two centres: it holds both of them and its corner. */
  lemma CorridorJoins(c1: (real, real), c2: (real, real))
    ensures InCorridor(Pos(c1.0, c1.1), c1, c2)
    ensures InCorridor(Pos(c2.0, c1.1), c1, c2)
    ensures InCorridor(Pos(c2.0, c2.1), c1, c2)
  {
  }

  predicate EdgesWithin(edges: seq<(nat, nat)>, m: nat) {
    forall k :: 0 <= k < |edges| ==> edges[k].0 < m && edges[k].1 < m
  }

  predicate OnAnyCorridor(p: Pos, centers: seq<(real, real)>, edges: seq<(nat, nat)>)
    requires EdgesWithin(edges, |centers|)
  {
    exists k :: 0 <= k < |edges| && InCorridor(p, centers[edges[k].0], centers[edges[k].1])
  }

  /** The carving loop: every point on some edge's corridor that belongs to no room
      (class -1) becomes empty; room points and all other points keep their
      tile_type. */
  method CarveCorridors(g: Geometry, centers: seq<(real, real)>, edges: seq<(nat, nat)>)
    requires g.Valid() && EdgesWithin(edges, |centers|)
    modifies g.tile
    ensures forall p :: 0 <= p < |g.pts| ==>
      g.tile[p] == if g.cls[p] == -1 && OnAnyCorridor(g.pts[p], centers, edges) then Empty else old(g.tile[p])
  {
    var k := 0;
    while k < |edges|
      invariant 0 <= k <= |edges|
      invariant forall p :: 0 <= p < |g.pts| ==>
        g.tile[p] == if g.cls[p] == -1 && OnAnyCorridor(g.pts[p], centers, edges[..k]) then Empty else old(g.tile[p])
    {
      var c1, c2 := centers[edges[k].0], centers[edges[k].1];
      var p := 0;
      while p < g.tile.Length
        invariant 0 <= p <= g.tile.Length
        invariant forall q :: 0 <= q < |g.pts| ==>
          g.tile[q] == if g.cls[q] == -1 && (OnAnyCorridor(g.pts[q], centers, edges[..k]) || (q < p && InCorridor(g.pts[q], c1, c2)))
            then Empty else old(g.tile[q])
      {
        if InCorridor(g.pts[p], c1, c2) && g.cls[p] == -1 {
          g.tile[p] := Empty;
        }
        p := p + 1;
      }
      forall q | 0 <= q < |g.pts|
        ensures OnAnyCorridor(g.pts[q], centers, edges[..k + 1]) <==>
          OnAnyCorridor(g.pts[q], centers, edges[..k]) || InCorridor(g.pts[q], c1, c2)
      {
        OnAnyCorridorSnoc(g.pts[q], centers, edges, k);
      }
      k := k + 1;
    }
    assert edges[..k] == edges;
  }

  lemma OnAnyCorridorSnoc(p: Pos, centers: seq<(real, real)>, edges: seq<(nat, nat)>, k: nat)
    requires k < |edges| && EdgesWithin(edges, |centers|)
    ensures OnAnyCorridor(p, centers, edges[..k + 1]) <==>
      OnAnyCorridor(p, centers, edges[..k]) || InCorridor(p, centers[edges[k].0], centers[edges[k].1])
  {
    var pre, pre1 := edges[..k], edges[..k + 1];
    assert pre1[k] == edges[k];
    if OnAnyCorridor(p, centers, pre) {
      var i :| 0 <= i < |pre| && InCorridor(p, centers[pre[i].0], centers[pre[i].1]);
      assert pre1[i] == pre[i];
    }
    if OnAnyCorridor(p, centers, pre1) {
      var i :| 0 <= i < |pre1| && InCorridor(p, centers[pre1[i].0], centers[pre1[i].1]);
      if i < k { assert pre1[i] == pre[i]; }
    }
  }

  lemma GreedyEdgesProper(centers: seq<(real, real)>, hint: nat -> seq<nat>, edges: seq<(nat, nat)>)
    requires AllGreedy(centers, hint, edges)
    ensures EdgesWithin(edges, |centers|)
    ensures forall k :: 0 <= k < |edges| ==> edges[k].0 != edges[k].1
  {
    forall k | 0 <= k < |edges| ensures edges[k].0 < |centers| && edges[k].1 < |centers| && edges[k].0 != edges[k].1 {
      assert GreedyEdge(centers, hint, edges, k);
    }
  }

  /** The `corridors.append` of the spanning-tree loop, in terms of class ids: each index pair becomes the pair of its
      groups' ids. */
  method EdgeIds(groups: seq<RoomGroup>, edges: seq<(nat, nat)>) returns (ids: seq<(int, int)>)
    requires EdgesWithin(edges, |groups|) && IdsDistinct(groups)
    requires forall k :: 0 <= k < |edges| ==> edges[k].0 != edges[k].1
    ensures |ids| == |edges|
    ensures forall j :: 0 <= j < |ids| ==> ids[j] == (groups[edges[j].0].id, groups[edges[j].1].id)
    ensures forall j :: 0 <= j < |ids| ==> ids[j].0 in Ids(groups) && ids[j].1 in Ids(groups) && ids[j].0 != ids[j].1
  {
    ids := [];
    var k := 0;
    while k < |edges|
      invariant 0 <= k <= |edges| && |ids| == k
      invariant forall j :: 0 <= j < k ==> ids[j] == (groups[edges[j].0].id, groups[edges[j].1].id)
    {
      ids := ids + [(groups[edges[k].0].id, groups[edges[k].1].id)];
      k := k + 1;
    }
  }

  /** A path of group positions read through the groups' ids is a path of
      the id edges. */
  lemma IdPath(groups: seq<RoomGroup>, edges: seq<(nat, nat)>, ids: seq<(int, int)>, path: seq<nat>, r: nat)
    requires EdgesWithin(edges, |groups|) && |groups| > 0
    requires |ids| == |edges| && forall j :: 0 <= j < |ids| ==> ids[j] == (groups[edges[j].0].id, groups[edges[j].1].id)
    requires IsPath(edges, path, 0, r)
    ensures r < |groups| && forall k :: 0 <= k < |path| ==> path[k] < |groups|
    ensures IsPath(ids, seq(|path|, k requires 0 <= k < |path| && path[k] < |groups| => groups[path[k]].id), groups[0].id, groups[r].id)
  {
    forall k | 0 <= k < |path| ensures path[k] < |groups| {
      if k > 0 {
        assert Linked(edges, path[k - 1], path[k]);
        var j :| 0 <= j < |edges| && (edges[j] == (path[k - 1], path[k]) || edges[j] == (path[k], path[k - 1]));
      }
    }
    var named := seq(|path|, k requires 0 <= k < |path| && path[k] < |groups| => groups[path[k]].id);
    forall k | 0 <= k < |path| - 1 ensures Linked(ids, named[k], named[k + 1]) {
      assert Linked(edges, path[k], path[k + 1]);
      var j :| 0 <= j < |edges| && (edges[j] == (path[k], path[k + 1]) || edges[j] == (path[k + 1], path[k]));
      assert ids[j] == (groups[edges[j].0].id, groups[edges[j].1].id);
    }
  }

  /** The id edges span the rooms: every class id is joined to the first
      room's id by a path of id edges. */
  lemma {:induction false} IdsSpan(centers: seq<(real, real)>, hint: nat -> seq<nat>, groups: seq<RoomGroup>,
                edges: seq<(nat, nat)>, ids: seq<(int, int)>)
    requires |groups| > 0 && |centers| == |groups| && AllGreedy(centers, hint, edges)
    requires EdgesWithin(edges, |groups|)
    requires forall y :: 0 <= y < |groups| ==> y in Tree(edges, |edges|)
    requires |ids| == |edges| && forall j :: 0 <= j < |ids| ==> ids[j] == (groups[edges[j].0].id, groups[edges[j].1].id)
    ensures forall c :: c in Ids(groups) ==> exists path :: IsPath(ids, path, groups[0].id, c)
  {
    forall c | c in Ids(groups) ensures exists path :: IsPath(ids, path, groups[0].id, c) {
      var r :| 0 <= r < |groups| && groups[r].id == c;
      var path := PathToRoot(centers, hint, edges, |edges|, r);
      IdPath(groups, edges, ids, path, r);
    }
  }

  /** The whole script. It raises when the `class` attribute is missing or
      fewer than two rooms exist, changing nothing. Otherwise `groups` is the
      `rooms` dictionary (one group per class id, in order of first point,
      each holding exactly its points in point order), `centers` are their
      centroids, and `edges` is the greedy spanning tree over the groups,
      visiting `connected` in round k in the order `hint(k)` gives. The
      result lists the tree edges as pairs of class ids, one fewer than there
      are rooms, and joins every room to the first one; exactly the points on
      some corridor that belong to no room become empty. */
  method ConnectRooms(g: Geometry, hint: nat -> seq<nat>)
    returns (r: Result<seq<(int, int)>, ConnectError>, ghost groups: seq<RoomGroup>,
             ghost centers: seq<(real, real)>, ghost edges: seq<(nat, nat)>)
    requires g.Valid()
    modifies g.tile
    ensures !g.hasClass ==> r == Err(MissingClassAttrib)
    ensures g.hasClass && |ClassIds(g.cls[..])| < 2 ==> r == Err(TooFewRooms)
    ensures r.Err? ==> forall p :: 0 <= p < |g.pts| ==> g.tile[p] == old(g.tile[p])
    ensures r.Ok? ==> g.hasClass && |ClassIds(g.cls[..])| >= 2 && |r.value| == |ClassIds(g.cls[..])| - 1
    ensures r.Ok? ==> forall k :: 0 <= k < |r.value| ==>
      r.value[k].0 in ClassIds(g.cls[..]) && r.value[k].1 in ClassIds(g.cls[..]) && r.value[k].0 != r.value[k].1
    ensures r.Ok? ==>
      IdsDistinct(groups) && Ids(groups) == ClassIds(g.cls[..]) && |groups| >= 2 &&
      MembersBelow(groups, g.cls[..], |g.pts|) && CompleteBelow(groups, g.cls[..], |g.pts|) && FirstOrder(groups)
    ensures r.Ok? ==> (|centers| == |groups| &&
      forall i :: 0 <= i < |groups| ==> centers[i] == Centroid(g.pts, groups[i].members))
    ensures r.Ok? ==> (|edges| == |groups| - 1 && EdgesWithin(edges, |groups|) && AllGreedy(centers, hint, edges) &&
      (forall y :: 0 <= y < |groups| ==> y in Tree(edges, |edges|)))
    ensures r.Ok? ==> (|r.value| == |edges| &&
      forall j :: 0 <= j < |edges| ==> r.value[j] == (groups[edges[j].0].id, groups[edges[j].1].id))
    ensures r.Ok? ==> forall c :: c in ClassIds(g.cls[..]) ==> exists path :: IsPath(r.value, path, groups[0].id, c)
    ensures r.Ok? ==> forall p :: 0 <= p < |g.pts| ==>
      g.tile[p] == if g.cls[p] == -1 && OnAnyCorridor(g.pts[p], centers, edges) then Empty else old(g.tile[p])
    ensures forall p :: 0 <= p < |g.pts| && g.cls[p] != -1 ==> g.tile[p] == old(g.tile[p])
    ensures forall p :: 0 <= p < |g.pts| ==> g.tile[p] == old(g.tile[p]) || g.tile[p] == Empty
  {
    groups, centers, edges := [], [], [];
    if !g.hasClass {
      return Err(MissingClassAttrib), groups, centers, edges;
    }
    var gs := GroupRooms(g.cls[..]);
    groups := gs;
    if |gs| < 2 {
      return Err(TooFewRooms), groups, centers, edges;
    }
    var cs := Centers(g.pts, gs);
    var es := SpanningTree(cs, hint);
    GreedyEdgesProper(cs, hint, es);
    CarveCorridors(g, cs, es);
    var ids := EdgeIds(gs, es);
    IdsSpan(cs, hint, gs, es, ids);
    r, centers, edges := Ok(ids), cs, es;
  }
}

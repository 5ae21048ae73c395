/** level_utils.py, `find_rooms`: labels each connected region of empty
    points with a class id, by breadth-first flood fill from the first
    unvisited empty point in point order. */
module FindRooms {
  import opened HoudiniGeo

  predicate IsEmpty(t: seq<Kind>, x: nat) {
    x < |t| && t[x] == Empty
  }

  /** Every empty neighbour of a point of `from` is in `within`. */
  ghost predicate ClosedFrom(prims: seq<seq<nat>>, t: seq<Kind>, from: set<nat>, within: set<nat>) {
    forall x, r :: x in from && Adjacent(prims, x, r) && IsEmpty(t, r) ==> r in within
  }

  /** A walk through empty points, each one a neighbour of the one before. */
  ghost predicate EmptyWalk(prims: seq<seq<nat>>, t: seq<Kind>, w: seq<nat>) {
    |w| > 0 && (forall i :: 0 <= i < |w| ==> IsEmpty(t, w[i])) &&
    (forall i :: 0 < i < |w| ==> Adjacent(prims, w[i - 1], w[i]))
  }

  /** a and b lie in the same connected region of empty points. */
  ghost predicate Connected(prims: seq<seq<nat>>, t: seq<Kind>, a: nat, b: nat) {
    exists w :: EmptyWalk(prims, t, w) && w[0] == a && w[|w| - 1] == b
  }

  lemma ConnectedRefl(prims: seq<seq<nat>>, t: seq<Kind>, a: nat)
    requires IsEmpty(t, a)
    ensures Connected(prims, t, a, a)
  {
    assert EmptyWalk(prims, t, [a]);
  }

  /** A walk extends by one empty neighbour. */
  lemma ConnectedSnoc(prims: seq<seq<nat>>, t: seq<Kind>, a: nat, b: nat, c: nat)
    requires Connected(prims, t, a, b) && Adjacent(prims, b, c) && IsEmpty(t, c)
    ensures Connected(prims, t, a, c)
  {
    var w :| EmptyWalk(prims, t, w) && w[0] == a && w[|w| - 1] == b;
    var w' := w + [c];
    assert forall i :: 0 <= i < |w| ==> w'[i] == w[i];
    assert EmptyWalk(prims, t, w');
  }

  /** Walking back along a walk joins its ends the other way round. */
  lemma ConnectedSym(prims: seq<seq<nat>>, t: seq<Kind>, a: nat, b: nat)
    requires Connected(prims, t, a, b)
    ensures Connected(prims, t, b, a)
  {
    var w :| EmptyWalk(prims, t, w) && w[0] == a && w[|w| - 1] == b;
    var n := |w|;
    var v := seq(n, i requires 0 <= i < n => w[n - 1 - i]);
    forall i | 0 < i < n ensures Adjacent(prims, v[i - 1], v[i]) {
      assert v[i - 1] == w[n - i] && v[i] == w[n - i - 1];
      assert Adjacent(prims, w[n - i - 1], w[n - i]);
      AdjacentSymmetric(prims, w[n - i - 1], w[n - i]);
    }
    assert forall i :: 0 <= i < n ==> v[i] == w[n - 1 - i];
    assert EmptyWalk(prims, t, v);
  }

  /** Two walks that meet join up. */
  lemma ConnectedTrans(prims: seq<seq<nat>>, t: seq<Kind>, a: nat, b: nat, c: nat)
    requires Connected(prims, t, a, b) && Connected(prims, t, b, c)
    ensures Connected(prims, t, a, c)
  {
    var w1 :| EmptyWalk(prims, t, w1) && w1[0] == a && w1[|w1| - 1] == b;
    var w2 :| EmptyWalk(prims, t, w2) && w2[0] == b && w2[|w2| - 1] == c;
    var w := w1 + w2[1..];
    forall i | 0 < i < |w| ensures Adjacent(prims, w[i - 1], w[i]) {
      if i < |w1| {
        assert w[i - 1] == w1[i - 1] && w[i] == w1[i];
      } else {
        assert w[i - 1] == w2[i - |w1|] && w[i] == w2[i - |w1| + 1];
      }
    }
    assert forall i :: 0 <= i < |w| ==> w[i] == if i < |w1| then w1[i] else w2[i - |w1| + 1];
    assert EmptyWalk(prims, t, w);
  }

  /** Neighbouring empty points carry the same class id. */
  ghost predicate SharedIds(prims: seq<seq<nat>>, t: seq<Kind>, cls: seq<int>) {
    |cls| == |t| &&
    forall x: nat, r: nat :: x < |t| && r < |t| && Adjacent(prims, x, r) && t[x] == Empty && t[r] == Empty
      ==> cls[x] == cls[r]
  }

  /** Along a walk of empty points the class id never changes. */
  lemma {:induction false} WalkSameId(prims: seq<seq<nat>>, t: seq<Kind>, cls: seq<int>, w: seq<nat>)
    requires SharedIds(prims, t, cls) && EmptyWalk(prims, t, w)
    ensures cls[w[0]] == cls[w[|w| - 1]]
    decreases |w|
  {
    if |w| > 1 {
      var pre := w[..|w| - 1];
      assert forall i :: 0 <= i < |pre| ==> pre[i] == w[i];
      assert EmptyWalk(prims, t, pre);
      WalkSameId(prims, t, cls, pre);
      assert Adjacent(prims, w[|w| - 2], w[|w| - 1]);
    }
  }

  /** Ids given per seed, with every empty point connected to its id's seed
      and neighbours sharing ids, are exactly the connected regions. */
  lemma IdsAreRegions(prims: seq<seq<nat>>, t: seq<Kind>, cls: seq<int>, seedOf: map<int, nat>)
    requires SharedIds(prims, t, cls)
    requires forall x :: 0 <= x < |t| && t[x] == Empty ==>
      cls[x] in seedOf && Connected(prims, t, seedOf[cls[x]], x)
    ensures forall x: nat, y: nat :: x < |t| && y < |t| && t[x] == Empty && t[y] == Empty ==>
      (cls[x] == cls[y] <==> Connected(prims, t, x, y))
  {
    forall x: nat, y: nat | x < |t| && y < |t| && t[x] == Empty && t[y] == Empty
      ensures cls[x] == cls[y] <==> Connected(prims, t, x, y)
    {
      if cls[x] == cls[y] {
        var s := seedOf[cls[x]];
        ConnectedSym(prims, t, s, x);
        ConnectedTrans(prims, t, x, s, y);
      }
      if Connected(prims, t, x, y) {
        var w :| EmptyWalk(prims, t, w) && w[0] == x && w[|w| - 1] == y;
        WalkSameId(prims, t, cls, w);
      }
    }
  }

  /** Some empty point carries class id c. */
  ghost predicate IsRoomId(t: seq<Kind>, cls: seq<int>, c: int) {
    exists x :: 0 <= x < |t| && x < |cls| && t[x] == Empty && cls[x] == c
  }

  /** A set of naturals below n has at most n elements. */
  lemma {:induction false} BoundedCard(s: set<nat>, n: nat)
    requires forall x :: x in s ==> x < n
    ensures |s| <= n
  {
    if n > 0 {
      BoundedCard(s - {n - 1}, n - 1);
    } else {
      assert s == {};
    }
  }

  /** What the scan has done so far: it only added empty points to
      `visited`, and appended exactly those points, each once, to `queue`. */
  ghost predicate Grown(t: seq<Kind>, visited: set<nat>, queue: seq<nat>, visited': set<nat>, queue': seq<nat>) {
    visited <= visited' &&
    (forall x :: x in visited' && x !in visited ==> IsEmpty(t, x)) &&
    |queue| <= |queue'| && queue'[..|queue|] == queue &&
    (forall x :: x in visited' && x !in visited <==> x in queue'[|queue|..]) &&
    |queue'| - |queue| == |visited' - visited|
  }

  /** The neighbour step of the breadth-first search: visits the primitives of `cur` and enqueues every empty,
      not yet visited point among their points. */
  method ScanNeighbours(prims: seq<seq<nat>>, t: seq<Kind>, cur: nat, visited: set<nat>, queue: seq<nat>)
    returns (visited': set<nat>, queue': seq<nat>)
    requires PrimsWithin(prims, |t|)
    ensures visited <= visited'
    ensures forall x :: x in visited' && x !in visited ==> IsEmpty(t, x)
    ensures |queue| <= |queue'| && queue'[..|queue|] == queue
    ensures forall x :: x in visited' && x !in visited <==> x in queue'[|queue|..]
    ensures |queue'| - |queue| == |visited' - visited|
    ensures forall r :: Adjacent(prims, cur, r) && IsEmpty(t, r) ==> r in visited'
    ensures forall x :: x in visited' && x !in visited ==> Adjacent(prims, cur, x)
  {
    visited', queue' := visited, queue;
    var i := 0;
    while i < |prims|
      invariant 0 <= i <= |prims|
      invariant Grown(t, visited, queue, visited', queue')
      invariant forall k, r :: 0 <= k < i && cur in prims[k] && r in prims[k] && IsEmpty(t, r) ==> r in visited'
      invariant forall x :: x in visited' && x !in visited ==> Adjacent(prims, cur, x)
    {
      if cur in prims[i] {
        ghost var v0 := visited';
        visited', queue' := ScanPrim(prims[i], t, visited, queue, visited', queue');
        forall x | x in visited' && x !in visited ensures Adjacent(prims, cur, x) {
          if x !in v0 {
            assert cur in prims[i] && x in prims[i];
          }
        }
      }
      i := i + 1;
    }
  }

  /** The inner loop over the points of one primitive: `for neighbor in prim.points()`. */
  method ScanPrim(prim: seq<nat>, t: seq<Kind>, ghost visited: set<nat>, ghost queue: seq<nat>, v0: set<nat>, q0: seq<nat>)
    returns (visited': set<nat>, queue': seq<nat>)
    requires forall m :: 0 <= m < |prim| ==> prim[m] < |t|
    requires Grown(t, visited, queue, v0, q0)
    ensures Grown(t, visited, queue, visited', queue') && v0 <= visited'
    ensures forall m :: 0 <= m < |prim| && IsEmpty(t, prim[m]) ==> prim[m] in visited'
    ensures forall x :: x in visited' && x !in v0 ==> x in prim
  {
    visited', queue' := v0, q0;
    var j := 0;
    while j < |prim|
      invariant 0 <= j <= |prim|
      invariant Grown(t, visited, queue, visited', queue') && v0 <= visited'
      invariant forall m :: 0 <= m < j && IsEmpty(t, prim[m]) ==> prim[m] in visited'
      invariant forall x :: x in visited' && x !in v0 ==> x in prim
    {
      var nb := prim[j];
      if nb !in visited' && t[nb] == Empty {
        GrownStep(t, visited, queue, visited', queue', nb);
        visited' := visited' + {nb};
        queue' := queue' + [nb];
      }
      j := j + 1;
    }
  }

  /** Visiting one more empty point and enqueueing it keeps the scan grown. */
  lemma GrownStep(t: seq<Kind>, visited: set<nat>, queue: seq<nat>, v: set<nat>, q: seq<nat>, nb: nat)
    requires Grown(t, visited, queue, v, q) && nb !in v && IsEmpty(t, nb)
    ensures Grown(t, visited, queue, v + {nb}, q + [nb])
  {
    assert (v + {nb}) - visited == (v - visited) + {nb};
    var q' := q + [nb];
    assert q'[..|queue|] == q[..|queue|];
    assert q'[|queue|..] == q[|queue|..] + [nb];
  }

  /** The `while queue:` loop: the breadth-first search from `seed`. The returned room is
      exactly the set of newly visited points, holds the seed, contains only
      empty points, and every empty neighbour of a room point is visited. */
  method Flood(prims: seq<seq<nat>>, t: seq<Kind>, seed: nat, visited: set<nat>)
    returns (room: seq<nat>, visited': set<nat>)
    requires PrimsWithin(prims, |t|)
    requires IsEmpty(t, seed) && seed !in visited
    requires forall x :: x in visited ==> x < |t|
    ensures visited <= visited' && seed in room
    ensures forall x :: x in visited' && x !in visited <==> x in room
    ensures forall x :: x in room ==> IsEmpty(t, x)
    ensures forall x, r :: x in room && Adjacent(prims, x, r) && IsEmpty(t, r) ==> r in visited'
    ensures forall x :: x in room ==> Connected(prims, t, seed, x)
  {
    ConnectedRefl(prims, t, seed);
    visited' := visited + {seed};
    var queue := [seed];
    room := [];
    while |queue| > 0
      invariant visited <= visited'
      invariant forall x :: x in visited' ==> x < |t|
      invariant forall x :: x in visited' && x !in visited ==> IsEmpty(t, x)
      invariant forall x :: x in visited' && x !in visited <==> x in room || x in queue
      invariant seed in room || seed in queue
      invariant forall x, r :: x in room && Adjacent(prims, x, r) && IsEmpty(t, r) ==> r in visited'
      invariant forall x :: x in visited' && x !in visited ==> Connected(prims, t, seed, x)
      decreases |t| - |visited'|, |queue|
    {
      BoundedCard(visited', |t|);
      var cur := queue[0];
      queue := queue[1..];
      room := room + [cur];
      ghost var before := visited';
      ghost var q0 := queue;
      visited', queue := ScanNeighbours(prims, t, cur, visited', queue);
      forall x | x in visited' && x !in before ensures Connected(prims, t, seed, x) {
        ConnectedSnoc(prims, t, seed, cur, x);
      }
      QueueGrowth(q0, queue, before, visited');
    }
  }

  /** The queue after a neighbour scan: the old queue followed by exactly
      the newly visited points, and longer exactly when some point is new. */
  lemma QueueGrowth(q0: seq<nat>, queue: seq<nat>, before: set<nat>, after: set<nat>)
    requires before <= after && |q0| <= |queue| && queue[..|q0|] == q0
    requires forall x :: x in after && x !in before <==> x in queue[|q0|..]
    requires |queue| - |q0| == |after - before|
    ensures forall x :: x in q0 ==> x in queue
    ensures forall x :: x in queue ==> x in q0 || (x in after && x !in before)
    ensures after == before ==> |queue| == |q0|
    ensures after != before ==> |before| < |after|
  {
    forall x | x in q0 ensures x in queue {
      var k :| 0 <= k < |q0| && q0[k] == x;
      assert queue[..|q0|][k] == x;
    }
    forall x | x in queue ensures x in q0 || (x in after && x !in before) {
      var k :| 0 <= k < |queue| && queue[k] == x;
      if k < |q0| { assert queue[..|q0|][k] == x; } else { assert queue[|q0|..][k - |q0|] == x; }
    }
    if after == before {
      assert after - before == {};
    } else {
      var y :| y in after && y !in before;
      assert after == before + (after - before);
      assert y in after - before;
    }
  }

  /** After the search, every point of the room gets the class id. */
  method Label(cls: array<int>, room: seq<nat>, c: int)
    requires forall x :: x in room ==> x < cls.Length
    modifies cls
    ensures forall x :: 0 <= x < cls.Length ==> cls[x] == if x in room then c else old(cls[x])
  {
    var k := 0;
    while k < |room|
      invariant 0 <= k <= |room|
      invariant forall x :: 0 <= x < cls.Length ==> cls[x] == if x in room[..k] then c else old(cls[x])
    {
      assert room[k] in room;
      cls[room[k]] := c;
      assert room[..k + 1] == room[..k] + [room[k]];
      k := k + 1;
    }
    assert room[..k] == room;
  }

  /** At the start of the script, the `class` attribute is created with default -1 when missing. */
  method EnsureClassAttrib(g: Geometry)
    requires g.Valid()
    modifies g, g.cls
    ensures g.Valid() && g.hasClass
    ensures forall x :: 0 <= x < g.cls.Length ==> g.cls[x] == if old(g.hasClass) then old(g.cls[x]) else -1
  {
    if !g.hasClass {
      var k := 0;
      while k < g.cls.Length
        invariant 0 <= k <= g.cls.Length
        invariant forall x :: 0 <= x < k ==> g.cls[x] == -1
      {
        g.cls[k] := -1;
        k := k + 1;
      }
      g.hasClass := true;
    }
  }

  /** `find_rooms(geo)`. Every empty point gets a class id below the returned
      count, every other point keeps its `class` value; two empty points share
      an id exactly when they are connected through empty neighbours; and ids
      0, 1, ..., count - 1 are each some room's id. So the ids name the
      connected regions of empty points one to one, and count is their number. */
  method FindRooms(g: Geometry) returns (count: nat)
    requires g.Valid()
    modifies g, g.cls
    ensures g.Valid() && g.hasClass
    ensures forall x :: 0 <= x < |g.pts| && g.tile[x] == Empty ==> 0 <= g.cls[x] < count
    ensures forall x :: 0 <= x < |g.pts| && g.tile[x] != Empty ==>
      g.cls[x] == if old(g.hasClass) then old(g.cls[x]) else -1
    ensures forall x: nat, r: nat ::
      (x < |g.pts| && r < |g.pts| && Adjacent(g.prims, x, r) && g.tile[x] == Empty && g.tile[r] == Empty)
      ==> g.cls[x] == g.cls[r]
    ensures forall c :: 0 <= c < count ==> IsRoomId(g.tile[..], g.cls[..], c)
    ensures forall x: nat, y: nat :: x < |g.pts| && y < |g.pts| && g.tile[x] == Empty && g.tile[y] == Empty ==>
      (g.cls[x] == g.cls[y] <==> Connected(g.prims, g.tile[..], x, y))
  {
    EnsureClassAttrib(g);
    ghost var init := g.cls[..];
    var t := g.tile[..];
    var n := g.tile.Length;
    var visited: set<nat> := {};
    ghost var seedOf: map<int, nat> := map[];
    count := 0;
    var p := 0;
    while p < n
      invariant 0 <= p <= n && g.Valid() && g.hasClass && t == g.tile[..]
      invariant ScanState(g.prims, t, g.cls[..], init, visited, seedOf, count, p)
    {
      if t[p] == Empty && p !in visited {
        ghost var cls0 := g.cls[..];
        var room, visited' := Flood(g.prims, t, p, visited);
        Label(g.cls, room, count);
        ScanRoom(g.prims, t, cls0, g.cls[..], init, visited, visited', room, seedOf, count, p);
        visited := visited';
        seedOf := seedOf[count := p];
        count := count + 1;
      }
      p := p + 1;
    }
    RoomIds(g.prims, t, g.cls[..], init, visited, seedOf, count);
  }

  /** The state of the labelling scan after point p: the visited points are
      empty, carry ids below the count and leave the class of every other
      point as it was; they are closed under empty neighbours, which share
      their id; every empty point before p is visited; and every id has a
      visited seed that every point of that id is joined to. */
  ghost predicate ScanState(prims: seq<seq<nat>>, t: seq<Kind>, cls: seq<int>, init: seq<int>,
                            visited: set<nat>, seedOf: map<int, nat>, count: nat, p: nat) {
    |cls| == |t| && |init| == |t| && p <= |t| &&
    (forall x :: x in visited ==> IsEmpty(t, x)) &&
    (forall x :: 0 <= x < |t| ==> if x in visited then 0 <= cls[x] < count else cls[x] == init[x]) &&
    (forall x, r: nat :: x in visited && x < |t| && Adjacent(prims, x, r) && IsEmpty(t, r) ==> r in visited && cls[r] == cls[x]) &&
    (forall x :: 0 <= x < p && t[x] == Empty ==> x in visited) &&
    (forall c :: 0 <= c < count ==> c in seedOf && seedOf[c] in visited && seedOf[c] < |t| && cls[seedOf[c]] == c) &&
    (forall x :: x in visited && x < |t| ==> cls[x] in seedOf && Connected(prims, t, seedOf[cls[x]], x))
  }

  /** Flooding from the unvisited empty point p and labelling the room with
      the next id moves the scan past p. */
  lemma ScanRoom(prims: seq<seq<nat>>, t: seq<Kind>, cls0: seq<int>, cls: seq<int>, init: seq<int>,
                 v0: set<nat>, visited: set<nat>, room: seq<nat>, seedOf: map<int, nat>, count: nat, p: nat)
    requires ScanState(prims, t, cls0, init, v0, seedOf, count, p) && p < |t| && t[p] == Empty && p !in v0
    requires v0 <= visited && p in room
    requires forall x :: x in visited && x !in v0 <==> x in room
    requires forall x :: x in room ==> IsEmpty(t, x)
    requires forall x, r :: x in room && Adjacent(prims, x, r) && IsEmpty(t, r) ==> r in visited
    requires forall x :: x in room ==> Connected(prims, t, p, x)
    requires |cls| == |t| && forall x :: 0 <= x < |t| ==> cls[x] == if x in room then count else cls0[x]
    ensures ScanState(prims, t, cls, init, visited, seedOf[count := p], count + 1, p + 1)
  {
    var seedOf' := seedOf[count := p];
    forall x, r: nat | x in visited && x < |t| && Adjacent(prims, x, r) && IsEmpty(t, r)
      ensures r in visited && cls[r] == cls[x]
    {
      if x in v0 {
        assert r in v0 && cls0[r] == cls0[x];
      } else {
        assert x in room && r in visited;
        if r in v0 {
          AdjacentSymmetric(prims, x, r);
          assert false;
        }
      }
    }
    forall x | x in visited && x < |t| ensures cls[x] in seedOf' && Connected(prims, t, seedOf'[cls[x]], x) {
      if x in v0 {
        assert cls0[x] < count && cls[x] == cls0[x];
      } else {
        assert x in room && cls[x] == count;
      }
    }
  }

  /** When the scan is over: empty points carry ids below the count and the
      others keep their class; neighbours share ids; every id below the count
      names the room of its seed; and the ids are exactly the connected
      regions. */
  lemma RoomIds(prims: seq<seq<nat>>, t: seq<Kind>, cls: seq<int>, init: seq<int>, visited: set<nat>,
                seedOf: map<int, nat>, count: nat)
    requires ScanState(prims, t, cls, init, visited, seedOf, count, |t|)
    ensures forall x :: 0 <= x < |t| && t[x] == Empty ==> 0 <= cls[x] < count
    ensures forall x :: 0 <= x < |t| && t[x] != Empty ==> cls[x] == init[x]
    ensures SharedIds(prims, t, cls)
    ensures forall c :: 0 <= c < count ==> IsRoomId(t, cls, c)
    ensures forall x: nat, y: nat :: x < |t| && y < |t| && t[x] == Empty && t[y] == Empty ==>
      (cls[x] == cls[y] <==> Connected(prims, t, x, y))
  {
    forall c | 0 <= c < count ensures IsRoomId(t, cls, c) {
      var x := seedOf[c];
      assert IsEmpty(t, x) && cls[x] == c;
    }
    assert SharedIds(prims, t, cls);
    IdsAreRegions(prims, t, cls, seedOf);
  }
}

/** 2_CARVE_ROOMS.py: draws `room_count` random rectangles inside the
    bounding box and turns every point inside one of them into an empty cell. */
module CarveRooms {
  import opened Wrappers
  import opened Rng
  import opened HoudiniGeo

  /** A rectangle with integer origin (x, z), width w and height h. */
  datatype Room = Room(x: int, z: int, w: int, h: int)

  /** The integer bounds the script takes from the bounding box with `int()`. */
  datatype Bounds = Bounds(minX: int, maxX: int, minZ: int, maxZ: int)

  /** `int(bbox.minvec()[0])` and the like: each bound is the corresponding
      corner coordinate truncated toward zero, which by TruncUnique fixes it. */
  function BoundsOf(lo: Pos, hi: Pos): (b: Bounds)
    ensures TruncOf(b.minX, lo.x) && TruncOf(b.maxX, hi.x)
    ensures TruncOf(b.minZ, lo.z) && TruncOf(b.maxZ, hi.z)
  {
    Bounds(Trunc(lo.x), Trunc(hi.x), Trunc(lo.z), Trunc(hi.z))
  }

  /** The room count: the controller's `room_count`, or 5 when the controller
      or its parameter is missing. */
  function RoomCount(controller: Option<int>): (n: int)
    ensures controller.None? ==> n == 5
    ensures controller.Some? ==> n == controller.value
  {
    match controller
    case None => 5
    case Some(c) => c
  }

  /** The half-open containment test of the carving loop: room_x <= x < room_x + room_w, same for z. */
  predicate InRoom(p: Pos, r: Room) {
    r.x as real <= p.x < (r.x + r.w) as real && r.z as real <= p.z < (r.z + r.h) as real
  }

  predicate InAnyRoom(p: Pos, rooms: seq<Room>) {
    exists i :: 0 <= i < |rooms| && InRoom(p, rooms[i])
  }

  /** A room that has the drawn size and fits inside the bounds. */
  predicate Fits(r: Room, b: Bounds) {
    3 <= r.w <= 7 && 3 <= r.h <= 7 &&
    b.minX <= r.x && r.x + r.w <= b.maxX && b.minZ <= r.z && r.z + r.h <= b.maxZ
  }

  /** The i-th room's four draws: width, height, then an origin that keeps the
      room inside the bounds. None when an origin range is empty, where
      `randint` raises ValueError. */
  function DrawRoom(b: Bounds, rand: nat -> nat, i: nat): (r: Option<Room>)
    ensures r.Some? ==> Fits(r.value, b)
    ensures r.None? <==>
      (b.maxX - RandInt(3, 7, rand(4 * i)) < b.minX || b.maxZ - RandInt(3, 7, rand(4 * i + 1)) < b.minZ)
  {
    var w := RandInt(3, 7, rand(4 * i));
    var h := RandInt(3, 7, rand(4 * i + 1));
    if b.maxX - w < b.minX || b.maxZ - h < b.minZ then None
    else Some(Room(RandInt(b.minX, b.maxX - w, rand(4 * i + 2)), RandInt(b.minZ, b.maxZ - h, rand(4 * i + 3)), w, h))
  }

  /** The rooms drawn by the first k iterations, and whether a draw raised. */
  datatype Draws = Draws(rooms: seq<Room>, failed: bool)

  function DrawRooms(b: Bounds, rand: nat -> nat, k: nat): (d: Draws)
    ensures !d.failed ==> |d.rooms| == k
    ensures |d.rooms| <= k
    ensures forall j :: 0 <= j < |d.rooms| ==> Fits(d.rooms[j], b)
  {
    if k == 0 then Draws([], false)
    else
      var prev := DrawRooms(b, rand, k - 1);
      if prev.failed then prev
      else match DrawRoom(b, rand, k - 1)
        case None => Draws(prev.rooms, true)
        case Some(r) => Draws(prev.rooms + [r], false)
  }

  /** The number of loop iterations: `range(num_rooms)` is empty for a negative count. */
  function Iterations(n: int): nat {
    if n < 0 then 0 else n
  }

  /** The carving loop. On success every one of the `room_count` rooms is
      carved; when a draw raises, the rooms carved before it stay carved. */
  method CarveRooms(g: Geometry, controller: Option<int>, rand: nat -> nat) returns (ok: bool)
    requires g.Valid()
    modifies g.tile
    ensures g.Valid()
    ensures var d := DrawRooms(BoundsOf(g.bboxMin, g.bboxMax), rand, Iterations(RoomCount(controller)));
      ok == !d.failed &&
      forall p :: 0 <= p < |g.pts| ==>
        g.tile[p] == (if InAnyRoom(g.pts[p], d.rooms) then Empty else old(g.tile[p]))
  {
    ok := CarveLoop(g, BoundsOf(g.bboxMin, g.bboxMax), Iterations(RoomCount(controller)), rand);
  }

  /** The script's `for i in range(num_rooms)` loop, over bounds b. */
  method CarveLoop(g: Geometry, b: Bounds, n: nat, rand: nat -> nat) returns (ok: bool)
    requires g.Valid()
    modifies g.tile
    ensures var d := DrawRooms(b, rand, n);
      ok == !d.failed && Carved(g.tile[..], g.pts, old(g.tile[..]), d.rooms)
  {
    var rooms: seq<Room> := [];
    var k := 0;
    ok := true;
    while k < n
      invariant 0 <= k <= n
      invariant DrawRooms(b, rand, k) == Draws(rooms, false)
      invariant Carved(g.tile[..], g.pts, old(g.tile[..]), rooms)
    {
      var room := DrawRoom(b, rand, k);
      if room.None? {
        ok := false;
        DrawFails(b, rand, k, n, rooms);
        return;
      }
      DrawSucceeds(b, rand, k, rooms);
      CarveNext(g, rooms, room.value, old(g.tile[..]));
      rooms := rooms + [room.value];
      k := k + 1;
    }
  }

  /** One iteration's carving, on top of the rooms carved before it. */
  method CarveNext(g: Geometry, ghost rooms: seq<Room>, r: Room, ghost orig: seq<Kind>)
    requires g.Valid() && Carved(g.tile[..], g.pts, orig, rooms)
    modifies g.tile
    ensures Carved(g.tile[..], g.pts, orig, rooms + [r])
  {
    ghost var before := g.tile[..];
    CarveOne(g, r);
    CarvedSnoc(before, g.tile[..], g.pts, orig, rooms, r);
  }

  /** Every point inside one of `rooms` is empty, every other point keeps
      its kind from `orig`. */
  ghost predicate Carved(tiles: seq<Kind>, pts: seq<Pos>, orig: seq<Kind>, rooms: seq<Room>) {
    |tiles| == |pts| == |orig| &&
    forall p :: 0 <= p < |pts| ==> tiles[p] == (if InAnyRoom(pts[p], rooms) then Empty else orig[p])
  }

  /** Carving one more room on top of the carved rooms. */
  lemma CarvedSnoc(before: seq<Kind>, after: seq<Kind>, pts: seq<Pos>, orig: seq<Kind>, rooms: seq<Room>, r: Room)
    requires Carved(before, pts, orig, rooms) && |after| == |pts|
    requires forall p :: 0 <= p < |pts| ==> after[p] == (if InRoom(pts[p], r) then Empty else before[p])
    ensures Carved(after, pts, orig, rooms + [r])
  {
    forall p | 0 <= p < |pts|
      ensures after[p] == (if InAnyRoom(pts[p], rooms + [r]) then Empty else orig[p])
    {
      InAnyRoomSnoc(pts[p], rooms, r);
    }
  }

  /** The inner pass of that loop over the points, for one room. */
  method CarveOne(g: Geometry, r: Room)
    requires g.Valid()
    modifies g.tile
    ensures forall p :: 0 <= p < |g.pts| ==>
      g.tile[p] == (if InRoom(g.pts[p], r) then Empty else old(g.tile[p]))
  {
    var p := 0;
    while p < g.tile.Length
      invariant 0 <= p <= g.tile.Length
      invariant forall q :: 0 <= q < p ==> g.tile[q] == (if InRoom(g.pts[q], r) then Empty else old(g.tile[q]))
      invariant forall q :: p <= q < g.tile.Length ==> g.tile[q] == old(g.tile[q])
    {
      if InRoom(g.pts[p], r) {
        g.tile[p] := Empty;
      }
      p := p + 1;
    }
  }

  /** The iteration whose draw raises ends the loop with the rooms so far. */
  lemma DrawFails(b: Bounds, rand: nat -> nat, k: nat, n: nat, rooms: seq<Room>)
    requires k < n && DrawRooms(b, rand, k) == Draws(rooms, false) && DrawRoom(b, rand, k).None?
    ensures DrawRooms(b, rand, n) == Draws(rooms, true)
  {
    var prev := DrawRooms(b, rand, k);
    assert !prev.failed;
    assert DrawRooms(b, rand, k + 1) == Draws(prev.rooms, true);
    DrawRoomsStops(b, rand, k + 1, n);
  }

  lemma DrawSucceeds(b: Bounds, rand: nat -> nat, k: nat, rooms: seq<Room>)
    requires DrawRooms(b, rand, k) == Draws(rooms, false) && DrawRoom(b, rand, k).Some?
    ensures DrawRooms(b, rand, k + 1) == Draws(rooms + [DrawRoom(b, rand, k).value], false)
  {
  }

  /** Once a draw has raised, later iterations never run. */
  lemma {:induction false} DrawRoomsStops(b: Bounds, rand: nat -> nat, k: nat, n: nat)
    requires k <= n && DrawRooms(b, rand, k).failed
    ensures DrawRooms(b, rand, n) == DrawRooms(b, rand, k)
    decreases n - k
  {
    if k < n {
      DrawRoomsStops(b, rand, k, n - 1);
    }
  }

  lemma InAnyRoomSnoc(p: Pos, rooms: seq<Room>, r: Room)
    ensures InAnyRoom(p, rooms + [r]) <==> InAnyRoom(p, rooms) || InRoom(p, r)
  {
    if InRoom(p, r) { assert (rooms + [r])[|rooms|] == r; }
    if InAnyRoom(p, rooms) {
      var i :| 0 <= i < |rooms| && InRoom(p, rooms[i]);
      assert (rooms + [r])[i] == rooms[i];
    }
    if InAnyRoom(p, rooms + [r]) {
      var i :| 0 <= i < |rooms| + 1 && InRoom(p, (rooms + [r])[i]);
      if i < |rooms| { assert (rooms + [r])[i] == rooms[i]; }
    }
  }

  /** The drawn rooms are the per-iteration draws in order, and the loop
      raises exactly when one of its k iterations finds an empty origin range. */
  lemma {:induction false} DrawRoomsAre(b: Bounds, rand: nat -> nat, k: nat)
    ensures var d := DrawRooms(b, rand, k);
      (forall j :: 0 <= j < |d.rooms| ==> DrawRoom(b, rand, j) == Some(d.rooms[j])) &&
      (d.failed <==> exists j :: 0 <= j < k && DrawRoom(b, rand, j).None?) &&
      (d.failed ==> DrawRoom(b, rand, |d.rooms|).None?)
  {
    if k > 0 {
      DrawRoomsAre(b, rand, k - 1);
      var prev := DrawRooms(b, rand, k - 1);
      if !prev.failed && DrawRoom(b, rand, k - 1).Some? {
        var d := DrawRooms(b, rand, k);
        assert d.rooms == prev.rooms + [DrawRoom(b, rand, k - 1).value];
        forall j | 0 <= j < |d.rooms| ensures DrawRoom(b, rand, j) == Some(d.rooms[j]) {
          if j < |prev.rooms| { assert d.rooms[j] == prev.rooms[j]; }
        }
      }
    }
  }
}

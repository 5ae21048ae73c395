/** `MovementHelper`: one grid step of a movable object over the loader's
    tile map and object map. */
module Movement {
  import opened Wrappers
  import opened Tiles
  import ExplosionRules

  /** The loader's logical maps: the tile type of every cell and the id of
      the object standing there, if any. */
  class Board {
    const width: int
    const height: int
    const levelMap: array2<TileType>
    const tileObjects: array2<Option<nat>>

    ghost predicate Valid()
      reads this
    {
      levelMap.Length0 == width && levelMap.Length1 == height &&
      tileObjects.Length0 == width && tileObjects.Length1 == height
    }

    predicate InBounds(x: int, y: int)
      reads this
    {
      0 <= x < width && 0 <= y < height
    }

    constructor (w: nat, h: nat)
      ensures width == w && height == h && Valid()
      ensures fresh(levelMap) && fresh(tileObjects)
      ensures forall x, y :: 0 <= x < w && 0 <= y < h ==> levelMap[x, y] == Empty && tileObjects[x, y] == None
    {
      width, height := w, h;
      levelMap := new TileType[w, h]((_, _) => Empty);
      tileObjects := new Option<nat>[w, h]((_, _) => None);
    }
  }

  /** An `IMovable`: its grid coordinates, its own tile type and its
      game object. */
  class Mover {
    var x: int
    var y: int
    const tileType: TileType
    const obj: nat

    constructor (x0: int, y0: int, t: TileType, id: nat)
      ensures x == x0 && y == y0 && tileType == t && obj == id
    {
      x, y, tileType, obj := x0, y0, t, id;
    }
  }

  /** The tiles a mover may step onto. */
  function IsTilePassable(t: TileType): (b: bool)
    ensures b <==> t in {Empty, Coin, Health, Stairs}
  {
    match t
    case Empty | Coin | Health | Stairs => true
    case _ => false
  }

  /** Walking and blasting agree except at the stairs, which a mover can
      enter and a blast cannot cross; every walkable tile is neither hurt
      nor destroyed by a blast. */
  lemma WalkableExplosionPassable(t: TileType, o: Option<ExplosionRules.TileObject>)
    ensures IsTilePassable(t) && t != Stairs ==> ExplosionRules.IsExplosionPassable(t)
    ensures IsTilePassable(t) ==> !ExplosionRules.IsExplosionDamageable(t) && !ExplosionRules.WillTileBeDestroyed(t, o)
  {
  }

  /** `TryMove`: the step to (x + dx, y + dy) happens iff the target is on
      the board and passable. A step writes Empty and no object at the old
      cell, then the mover's type and object at the new one, and moves the
      mover; nothing else changes. A refused step changes nothing. */
  method TryMove(ll: Board, mover: Mover, dx: int, dy: int) returns (moved: bool)
    requires ll.Valid() && ll.InBounds(mover.x, mover.y)
    modifies ll.levelMap, ll.tileObjects, mover
    ensures var nx, ny := old(mover.x) + dx, old(mover.y) + dy;
      moved <==> ll.InBounds(nx, ny) && IsTilePassable(old(ll.levelMap[nx, ny]))
    ensures !moved ==> unchanged(mover) && unchanged(ll.levelMap) && unchanged(ll.tileObjects)
    ensures moved ==> mover.x == old(mover.x) + dx && mover.y == old(mover.y) + dy
    ensures moved && (dx, dy) != (0, 0) ==>
      ll.levelMap[old(mover.x), old(mover.y)] == Empty &&
      ll.levelMap[mover.x, mover.y] == mover.tileType &&
      ll.tileObjects[old(mover.x), old(mover.y)] == None &&
      ll.tileObjects[mover.x, mover.y] == Some(mover.obj)
    ensures moved && (dx, dy) == (0, 0) ==>
      ll.levelMap[mover.x, mover.y] == mover.tileType && ll.tileObjects[mover.x, mover.y] == None
    ensures moved ==> forall i, j ::
      0 <= i < ll.width && 0 <= j < ll.height && (i, j) != (old(mover.x), old(mover.y)) && (i, j) != (mover.x, mover.y)
      ==> ll.levelMap[i, j] == old(ll.levelMap[i, j]) && ll.tileObjects[i, j] == old(ll.tileObjects[i, j])
  {
    var newX, newY := mover.x + dx, mover.y + dy;
    if newX < 0 || newX >= ll.width || newY < 0 || newY >= ll.height {
      return false;
    }
    var targetType := ll.levelMap[newX, newY];
    if !IsTilePassable(targetType) {
      return false;
    }
    ll.levelMap[mover.x, mover.y] := Empty;
    ll.levelMap[newX, newY] := mover.tileType;
    ll.tileObjects[newX, newY] := Some(mover.obj);
    ll.tileObjects[mover.x, mover.y] := None;
    mover.x, mover.y := newX, newY;
    return true;
  }
}

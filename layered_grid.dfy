/** `LayeredGridService`: the occupancy grid of a level, one 2-D array per
    layer (static blocks, destructible blocks and their objects, actors,
    bombs, effects, items), with the place, move and remove operations that
    keep at most one object of a kind in a cell. */
module LayeredGrid {
  import opened Wrappers
  import opened Tiles
  import opened Rng
  import opened Common

  /** `LayerMask`, a set of flags in an int. */
  type Mask = bv32

  const NoMask: Mask := 0
  const BlocksMovement: Mask := 1
  const BlocksFire: Mask := 2
  const Destructible: Mask := 4
  const Temporary: Mask := 8
  const Interactive: Mask := 16

  predicate Has(m: Mask, flag: Mask) { m & flag != 0 }

  /** A game object, identified by its value: its id, the tile type of its
      `TileBase` component if it has one, whether it carries a
      `PlayerController`, and, for a bomb, the id of its owner (None for a
      bomb without owner; the outer Option is None without a `BombTile`). */
  datatype GameObject = GameObject(id: nat, tileBase: Option<TileType>, isPlayer: bool,
                                   bombOwner: Option<Option<nat>>)

  /** The first object of the list that carries a `TileBase`, by its type. */
  function FirstTile(objs: seq<GameObject>): (t: Option<TileType>)
    ensures t.Some? <==> exists i :: 0 <= i < |objs| && objs[i].tileBase.Some?
    ensures t.Some? ==> exists i :: 0 <= i < |objs| && objs[i].tileBase == t && NoneTyped(objs[..i])
  {
    if objs == [] then None
    else if objs[0].tileBase.Some? then objs[0].tileBase
    else
      var t := FirstTile(objs[1..]);
      assert forall i :: 1 <= i < |objs| ==> objs[i] == objs[1..][i - 1];
      t
  }

  /** Writes `v` into every cell of `a`. */
  method Fill<T>(a: array2<T>, v: T)
    modifies a
    ensures forall i, j :: 0 <= i < a.Length0 && 0 <= j < a.Length1 ==> a[i, j] == v
  {
    var x := 0;
    while x < a.Length0
      invariant 0 <= x <= a.Length0
      invariant forall i, j :: 0 <= i < x && 0 <= j < a.Length1 ==> a[i, j] == v
    {
      var y := 0;
      while y < a.Length1
        invariant 0 <= y <= a.Length1
        invariant forall i, j :: 0 <= i < x && 0 <= j < a.Length1 ==> a[i, j] == v
        invariant forall j :: 0 <= j < y ==> a[x, j] == v
      {
        a[x, y] := v;
        y := y + 1;
      }
      x := x + 1;
    }
  }

  /** The object layers of the grid, in the order the queries visit them. */
  type Layer = array2<Option<GameObject>>

  /** Every cell of `a` other than (x, y) keeps its old value. */
  twostate predicate OnlyCellChanged<T>(a: array2<T>, x: int, y: int)
    reads a
  {
    forall i, j :: 0 <= i < a.Length0 && 0 <= j < a.Length1 && (i, j) != (x, y) ==> a[i, j] == old(a[i, j])
  }

  class LayeredGridService {
    const width: int
    const height: int
    const staticLayer: array2<Mask>
    const destructibleLayer: array2<Mask>
    const destructibleObjectLayer: Layer
    const actorLayer: Layer
    const bombLayer: Layer
    const effectLayer: Layer
    const itemLayer: Layer
    var allActors: seq<GameObject>
    var allBombs: seq<GameObject>
    var allItems: seq<GameObject>

    ghost predicate Shaped(a: array2)
      reads this
    {
      a.Length0 == width && a.Length1 == height
    }

    /** The layers have the grid's size and are separate arrays; the
        tracking lists hold no duplicates. */
    ghost predicate Valid()
      reads this
    {
      Shaped(staticLayer) && Shaped(destructibleLayer) && Shaped(destructibleObjectLayer) &&
      Shaped(actorLayer) && Shaped(bombLayer) && Shaped(effectLayer) && Shaped(itemLayer) &&
      staticLayer != destructibleLayer &&
      {staticLayer as object, destructibleLayer} !!
        {destructibleObjectLayer as object, actorLayer, bombLayer, effectLayer, itemLayer} &&
      destructibleObjectLayer != actorLayer && destructibleObjectLayer != bombLayer &&
      destructibleObjectLayer != effectLayer && destructibleObjectLayer != itemLayer &&
      actorLayer != bombLayer && actorLayer != effectLayer && actorLayer != itemLayer &&
      bombLayer != effectLayer && bombLayer != itemLayer && effectLayer != itemLayer &&
      Distinct(allActors) && Distinct(allBombs) && Distinct(allItems)
    }

    /** `Initialize`: every layer empty, every list empty. */
    constructor (gridWidth: nat, gridHeight: nat)
      ensures width == gridWidth && height == gridHeight && Valid()
      ensures allActors == [] && allBombs == [] && allItems == []
      ensures forall x, y :: 0 <= x < width && 0 <= y < height ==>
        staticLayer[x, y] == NoMask && destructibleLayer[x, y] == NoMask &&
        destructibleObjectLayer[x, y] == None && actorLayer[x, y] == None &&
        bombLayer[x, y] == None && effectLayer[x, y] == None && itemLayer[x, y] == None
    {
      width, height := gridWidth, gridHeight;
      staticLayer := new Mask[gridWidth, gridHeight]((_, _) => NoMask);
      destructibleLayer := new Mask[gridWidth, gridHeight]((_, _) => NoMask);
      destructibleObjectLayer := new Option<GameObject>[gridWidth, gridHeight]((_, _) => None);
      actorLayer := new Option<GameObject>[gridWidth, gridHeight]((_, _) => None);
      bombLayer := new Option<GameObject>[gridWidth, gridHeight]((_, _) => None);
      effectLayer := new Option<GameObject>[gridWidth, gridHeight]((_, _) => None);
      itemLayer := new Option<GameObject>[gridWidth, gridHeight]((_, _) => None);
      allActors, allBombs, allItems := [], [], [];
    }

    predicate IsValidPosition(x: int, y: int)
      reads this
    {
      0 <= x < width && 0 <= y < height
    }

    /** `GetAllObjectsAt`: the objects of the cell, destructible first, then
        actor, bomb, effect and item; nothing off the grid. */
    function GetAllObjectsAt(x: int, y: int): (objs: seq<GameObject>)
      requires Valid()
      reads this, destructibleObjectLayer, actorLayer, bombLayer, effectLayer, itemLayer
      ensures !IsValidPosition(x, y) ==> objs == []
      ensures |objs| <= 5
      ensures IsValidPosition(x, y) ==> (objs == [] <==>
        destructibleObjectLayer[x, y].None? && actorLayer[x, y].None? && bombLayer[x, y].None? &&
        effectLayer[x, y].None? && itemLayer[x, y].None?)
      ensures IsValidPosition(x, y) ==> forall o ::
        o in objs <==> Some(o) in [destructibleObjectLayer[x, y], actorLayer[x, y], bombLayer[x, y],
                                   effectLayer[x, y], itemLayer[x, y]]
    {
      if !IsValidPosition(x, y) then []
      else
        Listed(destructibleObjectLayer[x, y]) + (Listed(actorLayer[x, y]) + (Listed(bombLayer[x, y]) +
        (Listed(effectLayer[x, y]) + Listed(itemLayer[x, y]))))
    }

    /** `GetTileTypeAt`: the type of the first object of the cell that has a
        `TileBase`; failing that Breakable for a destructible block, Wall
        for a static block, Empty otherwise and off the grid. */
    function GetTileTypeAt(x: int, y: int): (t: TileType)
      requires Valid()
      reads this, staticLayer, destructibleLayer
      reads destructibleObjectLayer, actorLayer, bombLayer, effectLayer, itemLayer
      ensures !IsValidPosition(x, y) ==> t == Empty
      ensures IsValidPosition(x, y) ==> var first := FirstTile(GetAllObjectsAt(x, y));
        if first.Some? then t == first.value
        else if Has(destructibleLayer[x, y], Destructible) then t == Breakable
        else if Has(staticLayer[x, y], BlocksMovement) then t == Wall
        else t == Empty
    {
      if !IsValidPosition(x, y) then Empty
      else
        TileOfCell(destructibleObjectLayer[x, y], actorLayer[x, y], bombLayer[x, y], effectLayer[x, y],
                   itemLayer[x, y]);
        if Typed(destructibleObjectLayer[x, y]) then destructibleObjectLayer[x, y].value.tileBase.value
      else if Typed(actorLayer[x, y]) then actorLayer[x, y].value.tileBase.value
      else if Typed(bombLayer[x, y]) then bombLayer[x, y].value.tileBase.value
      else if Typed(effectLayer[x, y]) then effectLayer[x, y].value.tileBase.value
      else if Typed(itemLayer[x, y]) then itemLayer[x, y].value.tileBase.value
      else if Has(destructibleLayer[x, y], Destructible) then Breakable
      else if Has(staticLayer[x, y], BlocksMovement) then Wall
      else Empty
    }

    /** `IsWalkable` for `actor` (None for no actor): on the grid, no static
        or destructible movement block, no other actor, no bomb whose
        `BombTile` names another owner, and no item unless `actor` is a
        player. */
    predicate IsWalkable(x: int, y: int, actor: Option<GameObject>)
      requires Valid()
      reads this, staticLayer, destructibleLayer, actorLayer, bombLayer, itemLayer
    {
      IsValidPosition(x, y) &&
      !Has(staticLayer[x, y], BlocksMovement) &&
      !Has(destructibleLayer[x, y], BlocksMovement) &&
      (actorLayer[x, y].None? || actorLayer[x, y] == actor) &&
      (bombLayer[x, y].None? || bombLayer[x, y].value.bombOwner.None? ||
       bombLayer[x, y].value.bombOwner.value == IdOf(actor)) &&
      (itemLayer[x, y].None? || (actor.Some? && actor.value.isPlayer))
    }

    /** `IsFirePassable`: on the grid, with neither layer blocking fire. */
    predicate IsFirePassable(x: int, y: int)
      requires Valid()
      reads this, staticLayer, destructibleLayer
    {
      IsValidPosition(x, y) && !Has(staticLayer[x, y], BlocksFire) && !Has(destructibleLayer[x, y], BlocksFire)
    }

    /** A cell with no block and no object can be walked by anyone and
        lets fire through. */
    lemma EmptyCellIsOpen(x: int, y: int, actor: Option<GameObject>)
      requires Valid() && IsValidPosition(x, y)
      requires staticLayer[x, y] == NoMask && destructibleLayer[x, y] == NoMask
      requires GetAllObjectsAt(x, y) == []
      ensures IsWalkable(x, y, actor) && IsFirePassable(x, y) && GetTileTypeAt(x, y) == Empty
    {
    }

    /** `SetStaticTile`: a no-op off the grid. */
    method SetStaticTile(x: int, y: int, mask: Mask)
      requires Valid()
      modifies staticLayer
      ensures Valid()
      ensures OnlyCellChanged(staticLayer, x, y)
      ensures IsValidPosition(x, y) ==> staticLayer[x, y] == mask
    {
      if !IsValidPosition(x, y) { return; }
      staticLayer[x, y] := mask;
    }

    function GetStaticTile(x: int, y: int): (m: Mask)
      requires Valid()
      reads this, staticLayer
      ensures m == if IsValidPosition(x, y) then staticLayer[x, y] else NoMask
    {
      if !IsValidPosition(x, y) then NoMask else staticLayer[x, y]
    }

    /** `SetDestructibleTile`: a no-op off the grid. */
    method SetDestructibleTile(x: int, y: int, mask: Mask)
      requires Valid()
      modifies destructibleLayer
      ensures Valid()
      ensures OnlyCellChanged(destructibleLayer, x, y)
      ensures IsValidPosition(x, y) ==> destructibleLayer[x, y] == mask
    {
      if !IsValidPosition(x, y) { return; }
      destructibleLayer[x, y] := mask;
    }

    /** `PlaceDestructibleObject`: refused off the grid, for no object, and
        when the cell already holds one; otherwise the cell becomes a
        destructible block that stops movement and fire. */
    method PlaceDestructibleObject(obj: Option<GameObject>, x: int, y: int) returns (ok: bool)
      requires Valid()
      modifies destructibleLayer, destructibleObjectLayer
      ensures Valid()
      ensures ok <==> IsValidPosition(x, y) && obj.Some? && old(destructibleObjectLayer[x, y]).None?
      ensures !ok ==> unchanged(destructibleLayer) && unchanged(destructibleObjectLayer)
      ensures OnlyCellChanged(destructibleLayer, x, y) && OnlyCellChanged(destructibleObjectLayer, x, y)
      ensures ok ==> destructibleLayer[x, y] == (Destructible | BlocksMovement | BlocksFire)
      ensures ok ==> destructibleObjectLayer[x, y] == obj
      ensures ok ==> !IsFirePassable(x, y)
      ensures ok ==> forall a :: !IsWalkable(x, y, a)
    {
      if !IsValidPosition(x, y) || obj.None? { return false; }
      if destructibleObjectLayer[x, y].Some? { return false; }
      destructibleLayer[x, y] := Destructible | BlocksMovement | BlocksFire;
      destructibleObjectLayer[x, y] := obj;
      return true;
    }

    function GetDestructibleObjectAt(x: int, y: int): (o: Option<GameObject>)
      requires Valid()
      reads this, destructibleObjectLayer
      ensures o == if IsValidPosition(x, y) then destructibleObjectLayer[x, y] else None
    {
      if !IsValidPosition(x, y) then None else destructibleObjectLayer[x, y]
    }

    /** `DestroyDestructibleTile`: true iff the cell had the Destructible
        flag, and then both destructible layers of the cell are cleared. */
    method DestroyDestructibleTile(x: int, y: int) returns (was: bool)
      requires Valid()
      modifies destructibleLayer, destructibleObjectLayer
      ensures Valid()
      ensures was <==> IsValidPosition(x, y) && Has(old(destructibleLayer[x, y]), Destructible)
      ensures !was ==> unchanged(destructibleLayer) && unchanged(destructibleObjectLayer)
      ensures OnlyCellChanged(destructibleLayer, x, y) && OnlyCellChanged(destructibleObjectLayer, x, y)
      ensures was ==> destructibleLayer[x, y] == NoMask
      ensures was ==> destructibleObjectLayer[x, y] == None
    {
      if !IsValidPosition(x, y) { return false; }
      was := Has(destructibleLayer[x, y], Destructible);
      if was {
        destructibleLayer[x, y] := NoMask;
        destructibleObjectLayer[x, y] := None;
      }
    }

    function GetDestructibleTile(x: int, y: int): (m: Mask)
      requires Valid()
      reads this, destructibleLayer
      ensures m == if IsValidPosition(x, y) then destructibleLayer[x, y] else NoMask
    {
      if !IsValidPosition(x, y) then NoMask else destructibleLayer[x, y]
    }

    /** `PlaceActor`: refused off the grid, for no actor, when another actor
        or an item is in the cell; otherwise the actor is stored and listed
        once. */
    method PlaceActor(actor: Option<GameObject>, x: int, y: int) returns (ok: bool)
      requires Valid()
      modifies this`allActors, actorLayer
      ensures Valid()
      ensures ok <==> (IsValidPosition(x, y) && actor.Some? &&
                       (old(actorLayer[x, y]).None? || old(actorLayer[x, y]) == actor) && itemLayer[x, y].None?)
      ensures !ok ==> unchanged(actorLayer) && allActors == old(allActors)
      ensures OnlyCellChanged(actorLayer, x, y)
      ensures ok ==> actorLayer[x, y] == actor && actor.value in allActors
      ensures ok ==> allActors == old(allActors) + (if actor.value in old(allActors) then [] else [actor.value])
    {
      if !IsValidPosition(x, y) || actor.None? { return false; }
      if actorLayer[x, y].Some? && actorLayer[x, y] != actor { return false; }
      if itemLayer[x, y].Some? { return false; }
      actorLayer[x, y] := actor;
      if actor.value !in allActors {
        allActors := allActors + [actor.value];
      }
      return true;
    }

    /** `MoveActor`: needs both cells on the grid, the actor at `from` and
        `to` walkable for it; then `from` is cleared and `to` holds the
        actor, and nothing else changes. */
    method MoveActor(actor: Option<GameObject>, fromX: int, fromY: int, toX: int, toY: int) returns (ok: bool)
      requires Valid()
      modifies actorLayer
      ensures Valid()
      ensures ok <==> (IsValidPosition(fromX, fromY) && IsValidPosition(toX, toY) && actor.Some? &&
                       old(actorLayer[fromX, fromY]) == actor && old(IsWalkable(toX, toY, actor)))
      ensures !ok ==> unchanged(actorLayer)
      ensures ok ==> actorLayer[toX, toY] == actor
      ensures ok && (fromX, fromY) != (toX, toY) ==> actorLayer[fromX, fromY] == None
      ensures forall i, j ::
        0 <= i < width && 0 <= j < height && (i, j) != (fromX, fromY) && (i, j) != (toX, toY)
        ==> actorLayer[i, j] == old(actorLayer[i, j])
    {
      if !IsValidPosition(fromX, fromY) || !IsValidPosition(toX, toY) { return false; }
      if actor.None? || actorLayer[fromX, fromY] != actor { return false; }
      if !IsWalkable(toX, toY, actor) { return false; }
      actorLayer[fromX, fromY] := None;
      actorLayer[toX, toY] := actor;
      return true;
    }

    /** `RemoveActor`: clears the cell and unlists the actor only when the
        cell holds that same actor. */
    method RemoveActor(actor: Option<GameObject>, x: int, y: int)
      requires Valid()
      modifies this`allActors, actorLayer
      ensures Valid()
      ensures OnlyCellChanged(actorLayer, x, y)
      ensures if IsValidPosition(x, y) && actor.Some? && old(actorLayer[x, y]) == actor
        then actorLayer[x, y] == None && allActors == RemoveFirst(old(allActors), actor.value) &&
          actor.value !in allActors
        else unchanged(actorLayer) && allActors == old(allActors)
    {
      if !IsValidPosition(x, y) || actor.None? { return; }
      if actorLayer[x, y] == actor {
        actorLayer[x, y] := None;
        RemoveFirstDistinct(allActors, actor.value);
        allActors := RemoveFirst(allActors, actor.value);
      }
    }

    function GetActorAt(x: int, y: int): (o: Option<GameObject>)
      requires Valid()
      reads this, actorLayer
      ensures o == if IsValidPosition(x, y) then actorLayer[x, y] else None
    {
      if !IsValidPosition(x, y) then None else actorLayer[x, y]
    }

    /** `PlaceBomb`: refused off the grid, for no bomb and on a cell that
        already has a bomb, so a cell never holds two. */
    method PlaceBomb(bomb: Option<GameObject>, x: int, y: int) returns (ok: bool)
      requires Valid()
      modifies this`allBombs, bombLayer
      ensures Valid()
      ensures ok <==> IsValidPosition(x, y) && bomb.Some? && old(bombLayer[x, y]).None?
      ensures !ok ==> unchanged(bombLayer) && allBombs == old(allBombs)
      ensures OnlyCellChanged(bombLayer, x, y)
      ensures ok ==> bombLayer[x, y] == bomb && bomb.value in allBombs
      ensures ok ==> allBombs == old(allBombs) + (if bomb.value in old(allBombs) then [] else [bomb.value])
    {
      if !IsValidPosition(x, y) || bomb.None? { return false; }
      if bombLayer[x, y].Some? { return false; }
      bombLayer[x, y] := bomb;
      if bomb.value !in allBombs {
        allBombs := allBombs + [bomb.value];
      }
      return true;
    }

    /** `RemoveBomb`: only when the cell holds that same bomb. */
    method RemoveBomb(bomb: Option<GameObject>, x: int, y: int)
      requires Valid()
      modifies this`allBombs, bombLayer
      ensures Valid()
      ensures OnlyCellChanged(bombLayer, x, y)
      ensures if IsValidPosition(x, y) && bomb.Some? && old(bombLayer[x, y]) == bomb
        then bombLayer[x, y] == None && allBombs == RemoveFirst(old(allBombs), bomb.value) &&
          bomb.value !in allBombs
        else unchanged(bombLayer) && allBombs == old(allBombs)
    {
      if !IsValidPosition(x, y) || bomb.None? { return; }
      if bombLayer[x, y] == bomb {
        bombLayer[x, y] := None;
        RemoveFirstDistinct(allBombs, bomb.value);
        allBombs := RemoveFirst(allBombs, bomb.value);
      }
    }

    function GetBombAt(x: int, y: int): (o: Option<GameObject>)
      requires Valid()
      reads this, bombLayer
      ensures o == if IsValidPosition(x, y) then bombLayer[x, y] else None
    {
      if !IsValidPosition(x, y) then None else bombLayer[x, y]
    }

    /** `PlaceItem`: refused off the grid, for no item, when an actor or an
        item is in the cell; otherwise stored and listed once. */
    method PlaceItem(item: Option<GameObject>, x: int, y: int) returns (ok: bool)
      requires Valid()
      modifies this`allItems, itemLayer
      ensures Valid()
      ensures ok <==> IsValidPosition(x, y) && item.Some? && actorLayer[x, y].None? && old(itemLayer[x, y]).None?
      ensures !ok ==> unchanged(itemLayer) && allItems == old(allItems)
      ensures OnlyCellChanged(itemLayer, x, y)
      ensures ok ==> itemLayer[x, y] == item && item.value in allItems
      ensures ok ==> allItems == old(allItems) + (if item.value in old(allItems) then [] else [item.value])
    {
      if !IsValidPosition(x, y) || item.None? { return false; }
      if actorLayer[x, y].Some? { return false; }
      if itemLayer[x, y].Some? { return false; }
      itemLayer[x, y] := item;
      if item.value !in allItems {
        allItems := allItems + [item.value];
      }
      return true;
    }

    /** `RemoveItem`: only when the cell holds that same item. */
    method RemoveItem(item: Option<GameObject>, x: int, y: int)
      requires Valid()
      modifies this`allItems, itemLayer
      ensures Valid()
      ensures OnlyCellChanged(itemLayer, x, y)
      ensures if IsValidPosition(x, y) && item.Some? && old(itemLayer[x, y]) == item
        then itemLayer[x, y] == None && allItems == RemoveFirst(old(allItems), item.value) &&
          item.value !in allItems
        else unchanged(itemLayer) && allItems == old(allItems)
    {
      if !IsValidPosition(x, y) || item.None? { return; }
      if itemLayer[x, y] == item {
        itemLayer[x, y] := None;
        RemoveFirstDistinct(allItems, item.value);
        allItems := RemoveFirst(allItems, item.value);
      }
    }

    function GetItemAt(x: int, y: int): (o: Option<GameObject>)
      requires Valid()
      reads this, itemLayer
      ensures o == if IsValidPosition(x, y) then itemLayer[x, y] else None
    {
      if !IsValidPosition(x, y) then None else itemLayer[x, y]
    }

    /** `PlaceEffect`: overwrites whatever effect the cell had. */
    method PlaceEffect(effect: Option<GameObject>, x: int, y: int)
      requires Valid()
      modifies effectLayer
      ensures Valid()
      ensures OnlyCellChanged(effectLayer, x, y)
      ensures if IsValidPosition(x, y) && effect.Some? then effectLayer[x, y] == effect else unchanged(effectLayer)
    {
      if !IsValidPosition(x, y) || effect.None? { return; }
      effectLayer[x, y] := effect;
    }

    /** `RemoveEffect`: only when the cell holds that same effect. */
    method RemoveEffect(effect: Option<GameObject>, x: int, y: int)
      requires Valid()
      modifies effectLayer
      ensures Valid()
      ensures OnlyCellChanged(effectLayer, x, y)
      ensures if IsValidPosition(x, y) && effect.Some? && old(effectLayer[x, y]) == effect
        then effectLayer[x, y] == None else unchanged(effectLayer)
    {
      if !IsValidPosition(x, y) || effect.None? { return; }
      if effectLayer[x, y] == effect {
        effectLayer[x, y] := None;
      }
    }

    function GetEffectAt(x: int, y: int): (o: Option<GameObject>)
      requires Valid()
      reads this, effectLayer
      ensures o == if IsValidPosition(x, y) then effectLayer[x, y] else None
    {
      if !IsValidPosition(x, y) then None else effectLayer[x, y]
    }

    /** `ClearAllLayers`: every cell of every layer and every list empty. */
    method ClearAllLayers()
      requires Valid()
      modifies this`allActors, this`allBombs, this`allItems
      modifies staticLayer, destructibleLayer, destructibleObjectLayer, actorLayer, bombLayer, effectLayer, itemLayer
      ensures Valid()
      ensures allActors == [] && allBombs == [] && allItems == []
      ensures forall x, y :: 0 <= x < width && 0 <= y < height ==> staticLayer[x, y] == NoMask
      ensures forall x, y :: 0 <= x < width && 0 <= y < height ==> destructibleLayer[x, y] == NoMask
      ensures forall x, y :: 0 <= x < width && 0 <= y < height ==> destructibleObjectLayer[x, y] == None
      ensures forall x, y :: 0 <= x < width && 0 <= y < height ==> actorLayer[x, y] == None
      ensures forall x, y :: 0 <= x < width && 0 <= y < height ==> bombLayer[x, y] == None
      ensures forall x, y :: 0 <= x < width && 0 <= y < height ==> effectLayer[x, y] == None
      ensures forall x, y :: 0 <= x < width && 0 <= y < height ==> itemLayer[x, y] == None
    {
      Fill(staticLayer, NoMask);
      Fill(destructibleLayer, NoMask);
      Fill(destructibleObjectLayer, None);
      Fill(actorLayer, None);
      Fill(bombLayer, None);
      Fill(effectLayer, None);
      Fill(itemLayer, None);
      allActors, allBombs, allItems := [], [], [];
    }
  }

  function Listed(o: Option<GameObject>): seq<GameObject> {
    if o.Some? then [o.value] else []
  }

  predicate NoneTyped(objs: seq<GameObject>) {
    forall j :: 0 <= j < |objs| ==> objs[j].tileBase.None?
  }

  /** The first typed object of a cell's list: the head's type if the head
      has one, otherwise the first of the rest. */
  lemma FirstTileCons(o: Option<GameObject>, rest: seq<GameObject>)
    ensures FirstTile(Listed(o) + rest) == if Typed(o) then o.value.tileBase else FirstTile(rest)
  {
    if o.Some? {
      assert (Listed(o) + rest)[1..] == rest;
    } else {
      assert Listed(o) + rest == rest;
    }
  }

  /** The cascade over the five layers finds the first typed object of
      the cell's list. */
  lemma TileOfCell(d: Option<GameObject>, a: Option<GameObject>, b: Option<GameObject>,
                   e: Option<GameObject>, i: Option<GameObject>)
    ensures var first := FirstTile(Listed(d) + (Listed(a) + (Listed(b) + (Listed(e) + Listed(i)))));
      first == if Typed(d) then d.value.tileBase else if Typed(a) then a.value.tileBase
        else if Typed(b) then b.value.tileBase else if Typed(e) then e.value.tileBase
        else if Typed(i) then i.value.tileBase else None
  {
    FirstTileCons(d, Listed(a) + (Listed(b) + (Listed(e) + Listed(i))));
    FirstTileCons(a, Listed(b) + (Listed(e) + Listed(i)));
    FirstTileCons(b, Listed(e) + Listed(i));
    FirstTileCons(e, Listed(i));
  }

  predicate Typed(o: Option<GameObject>) {
    o.Some? && o.value.tileBase.Some?
  }

  function IdOf(o: Option<GameObject>): Option<nat> {
    if o.Some? then Some(o.value.id) else None
  }
}

/** `ExplosionPassableHelper`: how a blast treats each tile type: whether it
    passes, damages, leaves an explosion tile, and destroys what is there. */
module ExplosionRules {
  import opened Wrappers
  import opened Tiles

  /** The part of the object at a tile the rules look at: its `IDamageable`
      component, given by its current health, if it has one. */
  datatype TileObject = TileObject(damageable: Option<int>)

  predicate HasDamageable(o: Option<TileObject>) {
    o.Some? && o.value.damageable.Some?
  }

  /** A blast travels on through these tiles. */
  function IsExplosionPassable(t: TileType): (b: bool)
    ensures b <==> t in {Empty, Player, Enemy, EnemyShooter, Coin, Health, Bomb, Gate, Explosion}
  {
    match t
    case Empty | Player | Enemy | EnemyShooter | Coin | Health | Bomb | Gate => true
    case Breakable => false
    case Wall => false
    case Explosion => true
    case _ => false
  }

  /** A blast damages what stands on these tiles. */
  function IsExplosionDamageable(t: TileType): (b: bool)
    ensures b <==> t in {Player, Enemy, EnemyShooter, Breakable, Bomb}
  {
    match t
    case Player | Enemy | EnemyShooter | Breakable | Bomb => true
    case Empty | Wall | Coin | Health | Gate | Explosion => false
    case _ => false
  }

  /** Whether the blast goes on past this tile. The object never matters: it
      stops exactly where the tile type is not passable, hitting or not. */
  function ShouldExplosionContinue(t: TileType, o: Option<TileObject>): (b: bool)
    ensures b <==> IsExplosionPassable(t)
  {
    if !IsExplosionPassable(t) then
      if IsExplosionDamageable(t) && o.Some? && o.value.damageable.Some? then false
      else false
    else true
  }

  /** Whether an explosion tile is put at this position: always on Empty,
      never on collectibles; on a damageable tile holding an object, exactly
      when that object can take damage; anywhere else, exactly where the blast
      passes, so never on walls. */
  function ShouldCreateExplosionTile(t: TileType, o: Option<TileObject>): (b: bool)
    ensures t == Empty ==> b
    ensures t == Coin || t == Health ==> !b
    ensures IsExplosionDamageable(t) && o.Some? ==> (b <==> HasDamageable(o))
    ensures t != Coin && t != Health && !(IsExplosionDamageable(t) && o.Some?) ==> (b <==> IsExplosionPassable(t))
    ensures t == Wall ==> !b
  {
    if t == Empty then true
    else if t == Coin || t == Health then false
    else if IsExplosionDamageable(t) && o.Some? then o.value.damageable.Some?
    else if IsExplosionPassable(t) then true
    else false
  }

  /** Whether the blast destroys what is at this position, so that it
      becomes Empty: breakables and bombs always, the player never, enemies
      exactly when one hit is enough, and only damageable tiles at all. */
  function WillTileBeDestroyed(t: TileType, o: Option<TileObject>): (b: bool)
    ensures t == Breakable || t == Bomb ==> b
    ensures t == Player ==> !b
    ensures t == Enemy || t == EnemyShooter ==> (b <==> HasDamageable(o) && o.value.damageable.value <= 1)
    ensures b ==> IsExplosionDamageable(t)
  {
    match t
    case Breakable | Bomb => true
    case Enemy | EnemyShooter =>
      if o.Some? && o.value.damageable.Some? then o.value.damageable.value <= 1 else false
    case Player => false
    case _ => false
  }

  /** Where the blast damages and passes: the actors and bombs; breakables
      are damaged but stop it; walls do neither. */
  lemma DamageablePassable(t: TileType)
    ensures IsExplosionDamageable(t) && IsExplosionPassable(t) <==> t in {Player, Enemy, EnemyShooter, Bomb}
    ensures IsExplosionDamageable(t) && !IsExplosionPassable(t) <==> t == Breakable
    ensures !IsExplosionDamageable(t) && !IsExplosionPassable(t) <==> t in {Wall, PlayerSpawn, Stairs, Projectile}
  {
  }
}

/** The game's tile vocabulary, shared by the symbol tables, the movement
    and explosion rules, the layered grid and the importers. */
module Tiles {
  /** The twelve members declared next to both symbol tables, plus `Player`
      and `Explosion`, which the explosion rules and the explosion tiles use
      and whose declaration is not part of this model. */
  datatype TileType =
    | Wall | PlayerSpawn | Breakable | Empty | Gate | Coin | Stairs
    | Enemy | EnemyShooter | Bomb | Projectile | Health
    | Player | Explosion

  /** The twelve members of the enum as declared beside the symbol tables:
      every member except `Player` and `Explosion`. */
  predicate Declared(t: TileType) {
    !t.Player? && !t.Explosion?
  }
}

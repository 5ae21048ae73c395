/** `TileSymbols` (Scripts/Tiles/TileSymbols.cs): the Unicode table between
    tile types and the block and pictogram characters of the preview format. */
module UnicodeSymbols {
  import opened Tiles

  const FullBlock: char := '\U{2588}'
  const MediumShade: char := '\U{2592}'
  const Intersection: char := '\U{2229}'
  const IdenticalTo: char := '\U{2261}'
  const SmilingFace: char := '\U{263A}'
  const SkullAndCrossbones: char := '\U{2620}'
  const Psi: char := '\U{03A8}'
  const Bullseye: char := '\U{25CE}'
  const MiddleDot: char := '\U{00B7}'
  const Currency: char := '\U{00A4}'
  const BlackHeart: char := '\U{2665}'

  /** The symbol of a tile type; a member outside the table gets '?'. */
  function TypeToSymbol(t: TileType): (c: char)
    ensures t == Empty ==> c == ' '
    ensures !Declared(t) <==> c == '?'
  {
    match t
    case Wall => FullBlock
    case Empty => ' '
    case Breakable => MediumShade
    case Gate => Intersection
    case Stairs => IdenticalTo
    case PlayerSpawn => SmilingFace
    case Enemy => SkullAndCrossbones
    case EnemyShooter => Psi
    case Bomb => Bullseye
    case Projectile => MiddleDot
    case Coin => Currency
    case Health => BlackHeart
    case _ => '?'
  }

  /** The characters the table knows. */
  const Symbols: seq<char> :=
    [FullBlock, ' ', MediumShade, Intersection, IdenticalTo, SmilingFace,
     SkullAndCrossbones, Psi, Bullseye, MiddleDot, Currency, BlackHeart]

  /** The tile type of a symbol; any other character reads as Empty. */
  function SymbolToType(c: char): (t: TileType)
    ensures c !in Symbols ==> t == Empty
    ensures Declared(t)
  {
    if c == FullBlock then Wall
    else if c == ' ' then Empty
    else if c == MediumShade then Breakable
    else if c == Intersection then Gate
    else if c == IdenticalTo then Stairs
    else if c == SmilingFace then PlayerSpawn
    else if c == SkullAndCrossbones then Enemy
    else if c == Psi then EnemyShooter
    else if c == Bullseye then Bomb
    else if c == MiddleDot then Projectile
    else if c == Currency then Coin
    else if c == BlackHeart then Health
    else Empty
  }

  /** Reading back the symbol of a type gives the type, for exactly the
      declared members. */
  lemma RoundTrip(t: TileType)
    ensures SymbolToType(TypeToSymbol(t)) == t <==> Declared(t)
  {
  }

  /** Distinct declared members have distinct symbols. */
  lemma Injective(t: TileType, u: TileType)
    requires Declared(t) && Declared(u) && TypeToSymbol(t) == TypeToSymbol(u)
    ensures t == u
  {
    RoundTrip(t);
    RoundTrip(u);
  }

  /** Every known symbol is the symbol of its type. */
  lemma SymbolRoundTrip(c: char)
    ensures TypeToSymbol(SymbolToType(c)) == c <==> c in Symbols
  {
  }
}

/** `TileSymbols` (Scripts/TileSymbols.cs): the ASCII table between tile
    types and the characters of the text level format. */
module AsciiSymbols {
  import opened Tiles

  /** The symbol of a tile type; a member outside the table gets '?'. */
  function TypeToSymbol(t: TileType): (c: char)
    ensures t == Empty ==> c == ' '
    ensures t == Wall ==> c == '#'
    ensures !Declared(t) <==> c == '?'
  {
    match t
    case Wall => '#'
    case PlayerSpawn => 'P'
    case Breakable => 'B'
    case Empty => ' '
    case Gate => 'G'
    case Coin => 'C'
    case Stairs => 'S'
    case Enemy => 'E'
    case EnemyShooter => 'F'
    case Bomb => 'X'
    case Projectile => '*'
    case Health => 'H'
    case _ => '?'
  }

  /** The characters the table knows. */
  const Symbols: seq<char> := "#PB GCSEFX*H"

  /** The tile type of a symbol; any other character reads as Empty. */
  function SymbolToType(c: char): (t: TileType)
    ensures c !in Symbols ==> t == Empty
    ensures Declared(t)
  {
    match c
    case '#' => Wall
    case 'P' => PlayerSpawn
    case 'B' => Breakable
    case ' ' => Empty
    case 'G' => Gate
    case 'C' => Coin
    case 'S' => Stairs
    case 'E' => Enemy
    case 'F' => EnemyShooter
    case 'X' => Bomb
    case '*' => Projectile
    case 'H' => Health
    case _ => Empty
  }

  /** Reading back the symbol of a type gives the type, for exactly the
      declared members. */
  lemma RoundTrip(t: TileType)
    ensures SymbolToType(TypeToSymbol(t)) == t <==> Declared(t)
  {
  }

  /** Distinct declared members have distinct symbols. */
  lemma Injective(t: TileType, u: TileType)
    requires Declared(t) && Declared(u) && TypeToSymbol(t) == TypeToSymbol(u)
    ensures t == u
  {
    RoundTrip(t);
    RoundTrip(u);
  }

  /** Every known symbol is the symbol of its type, so the two tables are
      inverse in both directions. */
  lemma SymbolRoundTrip(c: char)
    ensures TypeToSymbol(SymbolToType(c)) == c <==> c in Symbols
  {
  }
}

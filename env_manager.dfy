/** `EnvManager`: the training environment's own level generator. It lays
    out a wall grid (0 empty, 1 breakable, 2 unbreakable) with a solid
    border, a lattice of pillars and random breakable walls kept away from
    the spawn corner, then places the player, the exit, enemies and
    collectibles by bounded rejection sampling. Spawning prefabs and naming
    game objects is not part of this model; objects are their grid cells. */
module EnvManager {
  import opened Rng

  datatype Pos = Pos(x: int, y: int)

  /** Squared Euclidean distance. For a whole number d,
      `Vector2Int.Distance(a, b) > d` holds exactly when this exceeds d * d. */
  function Dist2(a: Pos, b: Pos): int
  {
    (a.x - b.x) * (a.x - b.x) + (a.y - b.y) * (a.y - b.y)
  }

  predicate OnBorder(w: int, h: int, x: int, y: int)
  {
    x == 0 || x == w - 1 || y == 0 || y == h - 1
  }

  /** The interior lattice: both coordinates even, two or more cells from
      the low edges and more than two from the high ones. */
  predicate IsPillar(w: int, h: int, x: int, y: int)
  {
    2 <= x < w - 2 && 2 <= y < h - 2 && x % 2 == 0 && y % 2 == 0
  }

  /** Breakable walls are only allowed more than 2 cells from (1, 1). */
  predicate FarFromSpawn(x: int, y: int)
  {
    Dist2(Pos(x, y), Pos(1, 1)) > 4
  }

  /** The grid `InitializeWallGrid` builds, cell by cell; `place(x, y)`
      stands for the draw `Random.value < breakableWallDensity` at that cell. */
  function Wall(w: int, h: int, x: int, y: int, place: (int, int) -> bool): int
  {
    if OnBorder(w, h, x, y) || IsPillar(w, h, x, y) then 2
    else if place(x, y) && FarFromSpawn(x, y) then 1
    else 0
  }

  /** What the layout promises: walls are 0, 1 or 2; the border and the
      pillars are unbreakable; a breakable wall only replaces an empty cell
      whose draw succeeded and which lies far from the spawn corner. */
  lemma WallLayout(w: int, h: int, x: int, y: int, place: (int, int) -> bool)
    requires 0 <= x < w && 0 <= y < h
    ensures 0 <= Wall(w, h, x, y, place) <= 2
    ensures OnBorder(w, h, x, y) ==> Wall(w, h, x, y, place) == 2
    ensures IsPillar(w, h, x, y) ==> Wall(w, h, x, y, place) == 2
    ensures Wall(w, h, x, y, place) == 1 ==>
      1 <= x < w - 1 && 1 <= y < h - 1 && place(x, y) && FarFromSpawn(x, y) && !IsPillar(w, h, x, y)
    ensures Wall(w, h, x, y, place) == 2 <==> OnBorder(w, h, x, y) || IsPillar(w, h, x, y)
  {
  }

  /** The spawn cell and its two neighbours inside the grid are always
      empty, whatever the draws. */
  lemma SpawnAreaClear(w: int, h: int, place: (int, int) -> bool)
    requires w >= 4 && h >= 4
    ensures Wall(w, h, 1, 1, place) == 0
    ensures Wall(w, h, 2, 1, place) == 0
    ensures Wall(w, h, 1, 2, place) == 0
  {
  }

  /** The first two loops of `InitializeWallGrid`: the border rows, then
      the border columns. */
  method SetBorders(g: array2<int>)
    requires g.Length0 >= 1 && g.Length1 >= 1
    modifies g
    ensures forall a, b :: 0 <= a < g.Length0 && 0 <= b < g.Length1 ==>
      g[a, b] == if OnBorder(g.Length0, g.Length1, a, b) then 2 else old(g[a, b])
  {
    var w, h := g.Length0, g.Length1;
    var x := 0;
    while x < w
      invariant 0 <= x <= w
      invariant forall a, b :: 0 <= a < w && 0 <= b < h ==>
        g[a, b] == if a < x && (b == 0 || b == h - 1) then 2 else old(g[a, b])
    {
      g[x, 0] := 2;
      g[x, h - 1] := 2;
      x := x + 1;
    }
    var y := 0;
    while y < h
      invariant 0 <= y <= h
      invariant forall a, b :: 0 <= a < w && 0 <= b < h ==>
        g[a, b] == if (b == 0 || b == h - 1) || (b < y && (a == 0 || a == w - 1)) then 2 else old(g[a, b])
    {
      g[0, y] := 2;
      g[w - 1, y] := 2;
      y := y + 1;
    }
  }

  /** The third loop of `InitializeWallGrid`: the pillar lattice. */
  method SetPillars(g: array2<int>)
    modifies g
    ensures forall a, b :: 0 <= a < g.Length0 && 0 <= b < g.Length1 ==>
      g[a, b] == if IsPillar(g.Length0, g.Length1, a, b) then 2 else old(g[a, b])
  {
    var w, h := g.Length0, g.Length1;
    var x := 2;
    while x < w - 2
      invariant 2 <= x && x % 2 == 0
      invariant forall a, b :: 0 <= a < w && 0 <= b < h ==>
        g[a, b] == if IsPillar(w, h, a, b) && a < x then 2 else old(g[a, b])
    {
      var y := 2;
      while y < h - 2
        invariant 2 <= y && y % 2 == 0
        invariant forall a, b :: 0 <= a < w && 0 <= b < h ==>
          g[a, b] == if IsPillar(w, h, a, b) && (a < x || (a == x && b < y)) then 2 else old(g[a, b])
      {
        g[x, y] := 2;
        y := y + 2;
      }
      x := x + 2;
    }
  }

  /** The last loop of `InitializeWallGrid`: an interior empty cell becomes
      breakable when its draw succeeds and it is far from the spawn. */
  method AddBreakables(g: array2<int>, place: (int, int) -> bool)
    modifies g
    ensures forall a, b :: 0 <= a < g.Length0 && 0 <= b < g.Length1 ==>
      g[a, b] == if old(g[a, b]) == 0 && 1 <= a < g.Length0 - 1 && 1 <= b < g.Length1 - 1
        && place(a, b) && FarFromSpawn(a, b) then 1 else old(g[a, b])
  {
    var w, h := g.Length0, g.Length1;
    var x := 1;
    while x < w - 1
      invariant 1 <= x
      invariant forall a, b :: 0 <= a < w && 0 <= b < h ==>
        g[a, b] == if a < x && old(g[a, b]) == 0 && 1 <= a < w - 1 && 1 <= b < h - 1
          && place(a, b) && FarFromSpawn(a, b) then 1 else old(g[a, b])
    {
      var y := 1;
      while y < h - 1
        invariant 1 <= y
        invariant forall a, b :: 0 <= a < w && 0 <= b < h ==>
          g[a, b] == if (a < x || (a == x && b < y)) && old(g[a, b]) == 0 && 1 <= a < w - 1 && 1 <= b < h - 1
            && place(a, b) && FarFromSpawn(a, b) then 1 else old(g[a, b])
      {
        if g[x, y] == 0 && place(x, y) {
          if Dist2(Pos(x, y), Pos(1, 1)) > 4 {
            g[x, y] := 1;
          }
        }
        y := y + 1;
      }
      x := x + 1;
    }
  }

  class EnvManager {
    var mapWidth: int
    var mapHeight: int
    var enemyCount: int
    var collectibleCount: int
    var wallGrid: array2?<int>
    var enemies: seq<Pos>
    var collectibles: seq<Pos>
    var playerSpawnPos: Pos
    var exitPos: Pos

    /** The serialized defaults: a 15 by 15 map, 3 enemies, 5 collectibles. */
    constructor ()
      ensures mapWidth == 15 && mapHeight == 15 && enemyCount == 3 && collectibleCount == 5
      ensures wallGrid == null && enemies == [] && collectibles == []
    {
      mapWidth := 15;
      mapHeight := 15;
      enemyCount := 3;
      collectibleCount := 5;
      wallGrid := null;
      enemies := [];
      collectibles := [];
      playerSpawnPos := Pos(0, 0);
      exitPos := Pos(0, 0);
    }

    predicate InGrid(p: Pos)
      reads this`mapWidth, this`mapHeight
    {
      0 <= p.x < mapWidth && 0 <= p.y < mapHeight
    }

    /** A grid of the map's size holding only wall kinds 0, 1 and 2. */
    predicate Valid()
      reads this`mapWidth, this`mapHeight, this`wallGrid, wallGrid
    {
      wallGrid != null && wallGrid.Length0 == mapWidth && wallGrid.Length1 == mapHeight &&
      forall x, y :: 0 <= x < mapWidth && 0 <= y < mapHeight ==> 0 <= wallGrid[x, y] <= 2
    }

    /** `InitializeWallGrid`: a fresh grid laid out as `Wall` says. A width
      and a height of at least 1 are assumed. */
    method InitializeWallGrid(place: (int, int) -> bool)
      requires mapWidth >= 1 && mapHeight >= 1
      modifies this`wallGrid
      ensures fresh(wallGrid) && Valid()
      ensures forall x, y :: 0 <= x < mapWidth && 0 <= y < mapHeight ==>
        wallGrid[x, y] == Wall(mapWidth, mapHeight, x, y, place)
    {
      var g := new int[mapWidth, mapHeight]((x, y) => 0);
      SetBorders(g);
      SetPillars(g);
      AddBreakables(g, place);
      wallGrid := g;
      forall x, y | 0 <= x < mapWidth && 0 <= y < mapHeight
        ensures 0 <= wallGrid[x, y] <= 2
      {
        WallLayout(mapWidth, mapHeight, x, y, place);
      }
    }

    /** `GetWallType`: a cell outside the map counts as unbreakable wall. */
    function GetWallType(p: Pos): (r: int)
      requires Valid()
      reads this`mapWidth, this`mapHeight, this`wallGrid, wallGrid
      ensures 0 <= r <= 2
      ensures !InGrid(p) ==> r == 2
      ensures InGrid(p) ==> r == wallGrid[p.x, p.y]
    {
      if p.x < 0 || p.x >= mapWidth || p.y < 0 || p.y >= mapHeight then 2
      else wallGrid[p.x, p.y]
    }

    /** `DestroyBreakableWall`: a breakable cell inside the map becomes
      empty; no other cell, and no cell of another kind, changes. */
    method DestroyBreakableWall(p: Pos)
      requires Valid()
      modifies wallGrid
      ensures Valid()
      ensures forall x, y :: 0 <= x < mapWidth && 0 <= y < mapHeight ==>
        wallGrid[x, y] == if Pos(x, y) == p && old(wallGrid[x, y]) == 1 then 0 else old(wallGrid[x, y])
    {
      if p.x >= 0 && p.x < mapWidth && p.y >= 0 && p.y < mapHeight {
        if wallGrid[p.x, p.y] == 1 {
          wallGrid[p.x, p.y] := 0;
        }
      }
    }

    /** `SpawnPlayer`: the player always starts at (1, 1). */
    method SpawnPlayer()
      modifies this`playerSpawnPos
      ensures playerSpawnPos == Pos(1, 1)
    {
      playerSpawnPos := Pos(1, 1);
    }

    /** The exit candidate of attempt a: draws 2a and 2a + 1, in the upper
      right quarter of the map. */
    function ExitDraw(raws: nat -> nat, a: nat): (p: Pos)
      reads this`mapWidth, this`mapHeight
      requires mapWidth >= 1 && mapHeight >= 1
      ensures InGrid(p)
      ensures mapWidth / 2 <= p.x && mapHeight / 2 <= p.y
    {
      Pos(UnityRange(mapWidth / 2, mapWidth - 1, raws(2 * a)), UnityRange(mapHeight / 2, mapHeight - 1, raws(2 * a + 1)))
    }

    /** `SpawnExit`: the first of 10 candidates that lands on an empty
      cell, else (W - 2, H - 2). `attempt` is the index of the accepted
      candidate, 10 when none was. */
    method SpawnExit(raws: nat -> nat) returns (attempt: nat)
      requires Valid() && mapWidth >= 1 && mapHeight >= 1
      modifies this`exitPos
      ensures attempt <= 10
      ensures attempt < 10 ==> exitPos == ExitDraw(raws, attempt) && GetWallType(exitPos) == 0
      ensures attempt == 10 ==> exitPos == Pos(mapWidth - 2, mapHeight - 2)
      ensures forall b :: 0 <= b < attempt ==> GetWallType(ExitDraw(raws, b)) != 0
    {
      var bestPos := Pos(mapWidth - 2, mapHeight - 2);
      attempt := 0;
      while attempt < 10
        invariant 0 <= attempt <= 10
        invariant forall b :: 0 <= b < attempt ==> GetWallType(ExitDraw(raws, b)) != 0
      {
        var candidate := ExitDraw(raws, attempt);
        if wallGrid[candidate.x, candidate.y] == 0 {
          bestPos := candidate;
          break;
        }
        attempt := attempt + 1;
      }
      exitPos := bestPos;
    }

    /** The random cell of attempt a of the enemy or collectible loop:
      draws 2a and 2a + 1, inside the border. */
    function SpawnDraw(raws: nat -> nat, a: nat): (p: Pos)
      reads this`mapWidth, this`mapHeight
      requires mapWidth >= 2 && mapHeight >= 2
      ensures InGrid(p) && 1 <= p.x && 1 <= p.y
    {
      Pos(UnityRange(1, mapWidth - 1, raws(2 * a)), UnityRange(1, mapHeight - 1, raws(2 * a + 1)))
    }

    /** Where `SpawnEnemies` accepts an enemy: an empty cell more than 3
      from the spawn that is not the exit. */
    predicate EnemySpot(p: Pos)
      requires Valid()
      reads this, wallGrid
    {
      InGrid(p) && wallGrid[p.x, p.y] == 0 && Dist2(p, playerSpawnPos) > 9 && p != exitPos
    }

    /** `HasEnemyAt`: some enemy stands on the cell. */
    predicate HasEnemyAt(p: Pos)
      reads this
    {
      p in enemies
    }

    /** Where `SpawnCollectibles` accepts a collectible: an empty cell more
      than 2 from the spawn that is neither the exit nor an enemy's cell. */
    predicate CollectibleSpot(p: Pos)
      requires Valid()
      reads this, wallGrid
    {
      InGrid(p) && wallGrid[p.x, p.y] == 0 && Dist2(p, playerSpawnPos) > 4 && p != exitPos && !HasEnemyAt(p)
    }

    /** `SpawnEnemies`: at most 50 attempts, stopping once `enemyCount`
      enemies are placed; each placed enemy is the draw of its attempt and
      an `EnemySpot`. `attempts` is the number of attempts made. */
    method SpawnEnemies(raws: nat -> nat) returns (attempts: nat)
      requires Valid() && mapWidth >= 2 && mapHeight >= 2
      modifies this`enemies
      ensures attempts <= 50
      ensures |enemies| >= |old(enemies)| && enemies[..|old(enemies)|] == old(enemies)
      ensures |enemies| - |old(enemies)| <= attempts
      ensures |enemies| - |old(enemies)| <= if enemyCount > 0 then enemyCount else 0
      ensures |enemies| - |old(enemies)| < enemyCount ==> attempts == 50
      ensures forall i :: |old(enemies)| <= i < |enemies| ==> EnemySpot(enemies[i])
    {
      var spawnedEnemies := 0;
      var maxAttempts := 50;
      attempts := 0;
      while spawnedEnemies < enemyCount && maxAttempts > 0
        modifies this`enemies
        invariant 0 <= maxAttempts && attempts + maxAttempts == 50
        invariant 0 <= spawnedEnemies <= attempts
        invariant spawnedEnemies <= (if enemyCount > 0 then enemyCount else 0)
        invariant |enemies| == |old(enemies)| + spawnedEnemies
        invariant enemies[..|old(enemies)|] == old(enemies)
        invariant forall i :: |old(enemies)| <= i < |enemies| ==> EnemySpot(enemies[i])
        decreases maxAttempts
      {
        var randomPos := SpawnDraw(raws, attempts);
        if wallGrid[randomPos.x, randomPos.y] == 0 && Dist2(randomPos, playerSpawnPos) > 9 && randomPos != exitPos {
          enemies := enemies + [randomPos];
          spawnedEnemies := spawnedEnemies + 1;
        }
        maxAttempts := maxAttempts - 1;
        attempts := attempts + 1;
      }
    }

    /** `SpawnCollectibles`: the same bounded loop over `CollectibleSpot`. */
    method SpawnCollectibles(raws: nat -> nat) returns (attempts: nat)
      requires Valid() && mapWidth >= 2 && mapHeight >= 2
      modifies this`collectibles
      ensures attempts <= 50
      ensures |collectibles| >= |old(collectibles)| && collectibles[..|old(collectibles)|] == old(collectibles)
      ensures |collectibles| - |old(collectibles)| <= attempts
      ensures |collectibles| - |old(collectibles)| <= if collectibleCount > 0 then collectibleCount else 0
      ensures |collectibles| - |old(collectibles)| < collectibleCount ==> attempts == 50
      ensures forall i :: |old(collectibles)| <= i < |collectibles| ==> CollectibleSpot(collectibles[i])
    {
      var spawnedCollectibles := 0;
      var maxAttempts := 50;
      attempts := 0;
      while spawnedCollectibles < collectibleCount && maxAttempts > 0
        modifies this`collectibles
        invariant 0 <= maxAttempts && attempts + maxAttempts == 50
        invariant 0 <= spawnedCollectibles <= attempts
        invariant spawnedCollectibles <= (if collectibleCount > 0 then collectibleCount else 0)
        invariant |collectibles| == |old(collectibles)| + spawnedCollectibles
        invariant collectibles[..|old(collectibles)|] == old(collectibles)
        invariant forall i :: |old(collectibles)| <= i < |collectibles| ==> CollectibleSpot(collectibles[i])
        decreases maxAttempts
      {
        var randomPos := SpawnDraw(raws, attempts);
        if wallGrid[randomPos.x, randomPos.y] == 0 && Dist2(randomPos, playerSpawnPos) > 4 &&
          randomPos != exitPos && !HasEnemyAt(randomPos)
        {
          collectibles := collectibles + [randomPos];
          spawnedCollectibles := spawnedCollectibles + 1;
        }
        maxAttempts := maxAttempts - 1;
        attempts := attempts + 1;
      }
    }

    /** `GenerateLevel`, with `ClearLevel` emptying the object lists: a new
      grid, the player at (1, 1), then the exit, the enemies and the
      collectibles, each from its own stream of draws. */
    method GenerateLevel(place: (int, int) -> bool, exitRaws: nat -> nat, enemyRaws: nat -> nat, collectibleRaws: nat -> nat)
      returns (exitAttempt: nat)
      requires mapWidth >= 2 && mapHeight >= 2
      modifies this`wallGrid, this`enemies, this`collectibles, this`playerSpawnPos, this`exitPos
      ensures fresh(wallGrid) && Valid()
      ensures forall x, y :: 0 <= x < mapWidth && 0 <= y < mapHeight ==>
        wallGrid[x, y] == Wall(mapWidth, mapHeight, x, y, place)
      ensures playerSpawnPos == Pos(1, 1)
      ensures exitAttempt <= 10
      ensures exitAttempt < 10 ==> exitPos == ExitDraw(exitRaws, exitAttempt) && GetWallType(exitPos) == 0
      ensures exitAttempt == 10 ==> exitPos == Pos(mapWidth - 2, mapHeight - 2)
      ensures forall b :: 0 <= b < exitAttempt ==> GetWallType(ExitDraw(exitRaws, b)) != 0
      ensures |enemies| <= 50 && |enemies| <= if enemyCount > 0 then enemyCount else 0
      ensures |collectibles| <= 50 && |collectibles| <= if collectibleCount > 0 then collectibleCount else 0
      ensures forall i :: 0 <= i < |enemies| ==> EnemySpot(enemies[i])
      ensures forall i :: 0 <= i < |collectibles| ==> CollectibleSpot(collectibles[i])
    {
      enemies := [];
      collectibles := [];
      InitializeWallGrid(place);
      SpawnPlayer();
      exitAttempt := SpawnExit(exitRaws);
      var enemyAttempts := SpawnEnemies(enemyRaws);
      var collectibleAttempts := SpawnCollectibles(collectibleRaws);
    }
  }

  /** In a generated level no enemy stands on a wall, on the border, on
      the spawn cell or next to it, or on the exit; no collectible shares a
      cell with an enemy. */
  lemma GeneratedPlacement(e: EnvManager, place: (int, int) -> bool, i: int, j: int)
    requires e.Valid() && e.playerSpawnPos == Pos(1, 1)
    requires forall x, y :: 0 <= x < e.mapWidth && 0 <= y < e.mapHeight ==>
      e.wallGrid[x, y] == Wall(e.mapWidth, e.mapHeight, x, y, place)
    requires 0 <= i < |e.enemies| && e.EnemySpot(e.enemies[i])
    requires 0 <= j < |e.collectibles| && e.CollectibleSpot(e.collectibles[j])
    ensures var p := e.enemies[i];
      !OnBorder(e.mapWidth, e.mapHeight, p.x, p.y) && !IsPillar(e.mapWidth, e.mapHeight, p.x, p.y)
    ensures var p := e.enemies[i];
      p != e.exitPos && (p.x - 1) * (p.x - 1) + (p.y - 1) * (p.y - 1) > 9
    ensures e.collectibles[j] != e.enemies[i] && e.collectibles[j] != e.exitPos
  {
    var p := e.enemies[i];
    assert e.wallGrid[p.x, p.y] == 0;
    WallLayout(e.mapWidth, e.mapHeight, p.x, p.y, place);
  }
}

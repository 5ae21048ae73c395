# BombermanTower level generation and grid logic, in Dafny

BombermanTower builds grid-based Bomberman levels for reinforcement-learning
training. Its levels come from a pipeline of Houdini Python scripts. The
pipeline starts from an all-wall grid, carves random rooms, labels the
connected empty regions, joins the rooms with a greedy spanning tree of
L-shaped corridors, places the player and the exit, places enemies, loot and
breakable walls, and exports the grid as an INI file of ASCII rows. The Unity
game reads those files back and plays on them, using a layered occupancy
grid, tile and symbol tables, explosion and movement rules, level selection
and sequencing, a turn scheduler, and the wall-grid builder of the ML arena.

This project models that core and proves its contracts. There is one module
per source file:

- `HoudiniGeo`, `CarveRooms`, `FindRooms`, `ConnectRooms`, `PlacePlayerExit`,
  `PlaceEnemies`, `Interactables` and `Exporter` cover the Python scripts.
  Houdini points are indices into arrays of tile kinds and room ids, and two
  points are adjacent when a primitive contains both.
- `Tiles`, `AsciiSymbols`, `UnicodeSymbols`, `ExplosionRules`, `Movement`,
  `LayeredGrid`, `LevelImporter`, `LevelDataService`, `LevelSequencer`,
  `LevelManager`, `TurnManager` and `EnvManager` cover the C# classes.
  Objects whose fields change are classes; Unity `GameObject`s are abstract
  ids.
- `Wrappers`, `Text` and `Rng` hold the library semantics the code relies on:
  Option, string splitting, trimming and Int32/Boolean parsing, and the
  ranges of the random draws. `Common` holds the list facts several
  modules share: lists without repeats, ascending lists, and `remove`.

Randomness is an input. Every random call takes a raw natural number from a
caller-supplied stream, and a wrapper maps it into the range the library
documents: `random.randint` is inclusive, Unity's `Random.Range(int, int)`
is half-open, and `random.sample` is modelled as a partial Fisher-Yates
draw. That draw yields exactly the outcomes CPython's can (k distinct picks
from the pool), but which stream value leads to which pick differs from
CPython's algorithm. So every property holds for every random stream.
The order in which Python visits a `set` is an input in the same way: in
each round of the spanning-tree loop the caller supplies the visiting order
of the connected rooms, and the model holds for every such order. Python's `int()` on a float
truncates toward zero. Densities and centroids are `real`s.

## Model

| member | source | states |
|---|---|---|
| AsciiSymbols.TypeToSymbol | unity/Assets/Scripts/TileSymbols.cs:19-37 | every declared type gets its own ASCII symbol and every other type gets '?' |
| AsciiSymbols.SymbolToType | unity/Assets/Scripts/TileSymbols.cs:39-57 | the twelve table characters map to their types and any other character maps to Empty |
| AsciiSymbols.RoundTrip | unity/Assets/Scripts/TileSymbols.cs:19-57 | `SymbolToType(TypeToSymbol(t)) == t` holds exactly for the declared members |
| AsciiSymbols.Injective | unity/Assets/Scripts/TileSymbols.cs:19-37 | two distinct declared types never share a symbol |
| AsciiSymbols.SymbolRoundTrip | unity/Assets/Scripts/TileSymbols.cs:19-57 | every character the reader knows reads back to itself through `TypeToSymbol`, so the two tables are inverse in both directions |
| UnicodeSymbols.TypeToSymbol | unity/Assets/Scripts/Tiles/TileSymbols.cs:19-37 | the box-drawing table: every declared type gets its own symbol and every other type gets '?' |
| UnicodeSymbols.SymbolToType | unity/Assets/Scripts/Tiles/TileSymbols.cs:39-57 | the twelve table characters map to their types and any other character maps to Empty |
| UnicodeSymbols.RoundTrip | unity/Assets/Scripts/Tiles/TileSymbols.cs:19-57 | `SymbolToType(TypeToSymbol(t)) == t` holds exactly for the declared members |
| UnicodeSymbols.Injective | unity/Assets/Scripts/Tiles/TileSymbols.cs:19-37 | two distinct declared types never share a symbol |
| UnicodeSymbols.SymbolRoundTrip | unity/Assets/Scripts/Tiles/TileSymbols.cs:39-57 | every known character is the symbol of the type it reads as |
| ExplosionRules.IsExplosionPassable | unity/Assets/Scripts/Helpers/ExplosionPassableHelper.cs:12-38 | a blast passes exactly the empty, actor, collectible, bomb, gate and explosion tiles |
| ExplosionRules.IsExplosionDamageable | unity/Assets/Scripts/Helpers/ExplosionPassableHelper.cs:43-65 | a blast damages exactly the player, enemies, breakables and bombs |
| ExplosionRules.ShouldExplosionContinue | unity/Assets/Scripts/Helpers/ExplosionPassableHelper.cs:70-92 | the blast goes on exactly where the tile is passable; the object on a blocking tile never lets it through |
| ExplosionRules.DamageablePassable | unity/Assets/Scripts/Helpers/ExplosionPassableHelper.cs:12-65 | actors and bombs are both damaged and passed, breakables are damaged but stop the blast, walls are neither |
| ExplosionRules.ShouldCreateExplosionTile | unity/Assets/Scripts/Helpers/ExplosionPassableHelper.cs:97-127 | an explosion tile appears on Empty, never on a coin or health, never on a wall, on a damageable tile with an object exactly when that object has a damageable component, and elsewhere exactly where the blast passes |
| ExplosionRules.WillTileBeDestroyed | unity/Assets/Scripts/Helpers/ExplosionPassableHelper.cs:133-159 | breakables and bombs are always destroyed, the player never, enemies exactly when they have a damageable component with health at most 1, and only damageable tiles at all |
| Movement.IsTilePassable | unity/Assets/Scripts/Helpers/MovementHelper.cs:54-69 | a mover may enter exactly Empty, Coin, Health and Stairs |
| Movement.WalkableExplosionPassable | unity/Assets/Scripts/Helpers/MovementHelper.cs:54-69 | every walkable tile except the stairs also lets a blast through, and no walkable tile is damaged or destroyed by one |
| Movement.TryMove | unity/Assets/Scripts/Helpers/MovementHelper.cs:10-48 | the step happens iff the target is on the board and passable; then the old cell holds Empty and no object, the new cell holds the mover's type and object, the mover's coordinates move, and every other cell is unchanged; a refused step changes nothing |
| HoudiniGeo.Geometry.constructor | houdini/houdiniScripts/1_INITIALIZE_MAP.py:7-15 | a fresh grid whose every point is a wall and which has no `class` attribute yet |
| HoudiniGeo.AdjacentSymmetric | houdini/houdiniScripts/level_utils.py:19-21 | neighbourhood through a shared primitive is symmetric |
| HoudiniGeo.CountKind | houdini/houdiniScripts/3_PLACE_PLAYER_AND_EXIT.py:26-32 | the number of points of a kind never exceeds the number of points |
| HoudiniGeo.CountKindUpdate | houdini/houdiniScripts/3_PLACE_PLAYER_AND_EXIT.py:37-43 | setting one point's kind moves exactly that point from its old kind's count to its new kind's count |
| HoudiniGeo.CollectKind | houdini/houdiniScripts/3_PLACE_PLAYER_AND_EXIT.py:26-29 | the collected list holds exactly the points of the kind, each once, in ascending point order, and its length is their count |
| CarveRooms.BoundsOf | houdini/houdiniScripts/2_CARVE_ROOMS.py:32-34 | each of the four bounds (min x and max x from the box minimum and maximum x, min z and max z from their z) is that bounding-box coordinate truncated toward zero, as `TruncOf` characterises `int()` |
| CarveRooms.RoomCount | houdini/houdiniScripts/2_CARVE_ROOMS.py:10-27 | the controller's `room_count`, or 5 when the controller or the parameter is missing |
| CarveRooms.DrawRoom | houdini/houdiniScripts/2_CARVE_ROOMS.py:42-45 | a drawn room has width and height in [3, 7] and fits the bounds (room_x + room_w ≤ max_x, room_z + room_h ≤ max_z); the draw raises exactly when an origin range is empty |
| CarveRooms.DrawRooms | houdini/houdiniScripts/2_CARVE_ROOMS.py:39-45 | at most k rooms are drawn, exactly k when no draw raised, and every one fits the bounds |
| CarveRooms.DrawRoomsStops | houdini/houdiniScripts/2_CARVE_ROOMS.py:40-45 | once a draw has raised, no later iteration runs |
| CarveRooms.DrawRoomsAre | houdini/houdiniScripts/2_CARVE_ROOMS.py:40-45 | the rooms are the per-iteration draws in order, and the loop raises iff one of its iterations finds an empty range, at the first such iteration |
| CarveRooms.InAnyRoomSnoc | houdini/houdiniScripts/2_CARVE_ROOMS.py:40-52 | a point is in one of the rooms plus a new one iff it is in one of the rooms or in the new one |
| CarveRooms.CarveOne | houdini/houdiniScripts/2_CARVE_ROOMS.py:48-52 | a point becomes empty iff it lies in the half-open rectangle; every other point keeps its tile type |
| CarveRooms.CarveRooms | houdini/houdiniScripts/2_CARVE_ROOMS.py:10-52 | exactly the points inside one of the drawn rooms become empty, for `room_count` rooms (5 by default, none for a negative count); the result says whether every draw succeeded, and the rooms carved before a failing draw stay carved |
| CarveRooms.CarveLoop | houdini/houdiniScripts/2_CARVE_ROOMS.py:40-52 | the loop over the given bounds raises exactly when the room draws of `DrawRooms` fail; the points inside the drawn rooms are empty and all others keep their kind |
| CarveRooms.CarveNext | houdini/houdiniScripts/2_CARVE_ROOMS.py:47-52 | one more room keeps the carving invariant: afterwards the points inside any room drawn so far are empty and every other point still has its original kind |
| FindRooms.ConnectedRefl | houdini/houdiniScripts/level_utils.py:13 | an empty point is joined to itself |
| FindRooms.ConnectedSnoc | houdini/houdiniScripts/level_utils.py:19-23 | a walk from a to b extends to any empty neighbour of b |
| FindRooms.ConnectedSym | houdini/houdiniScripts/level_utils.py:19-23 | being joined by a walk of empty points is symmetric |
| FindRooms.ConnectedTrans | houdini/houdiniScripts/level_utils.py:19-23 | being joined by a walk of empty points is transitive |
| FindRooms.WalkSameId | houdini/houdiniScripts/level_utils.py:19-25 | when neighbouring empty points share ids, both ends of a walk of empty points carry the same id |
| FindRooms.IdsAreRegions | houdini/houdiniScripts/level_utils.py:11-26 | ids that neighbours share and that join each point to its id's seed are exactly the connected regions: same id iff joined by a walk |
| FindRooms.BoundedCard | houdini/houdiniScripts/level_utils.py:14-15 | the visited set holds only point numbers below the point count, so it has at most that many elements and the search terminates |
| FindRooms.ScanNeighbours | houdini/houdiniScripts/level_utils.py:19-23 | only empty, unvisited neighbours are enqueued, each exactly once and marked visited; every empty neighbour of the current point is visited afterwards |
| FindRooms.Flood | houdini/houdiniScripts/level_utils.py:13-23 | the room is exactly the newly visited points, holds the seed, is all empty, is closed under empty neighbours, and every point of it is joined to the seed by a walk of adjacent empty points |
| FindRooms.Label | houdini/houdiniScripts/level_utils.py:24-25 | exactly the room's points get the class id |
| FindRooms.EnsureClassAttrib | houdini/houdiniScripts/level_utils.py:9-10 | the `class` attribute exists afterwards, with -1 on every point when it was just created |
| FindRooms.FindRooms | houdini/houdiniScripts/level_utils.py:5-27 | every empty point gets an id in [0, count) and no other point is labelled; adjacent empty points share their id; ids 0 .. count - 1 each name some room; two empty points share an id exactly when a walk of adjacent empty points joins them |
| FindRooms.ScanRoom | houdini/houdiniScripts/level_utils.py:11-26 | flooding from an unvisited empty point and labelling its room with the next id keeps the scan invariant: visited points are empty, closed under empty neighbours with shared ids, and joined to their id's seed |
| FindRooms.RoomIds | houdini/houdiniScripts/level_utils.py:11-27 | after the scan every empty point has an id below the count, other points keep their class, every id names a room, and two empty points share an id exactly when a walk of empty points joins them |
| ConnectRooms.FindGroup | houdini/houdiniScripts/2_5_CONNECT_ROOMS.py:13-17 | the `defaultdict` lookup: the position of the group with that id, or -1 exactly when no group has it |
| ConnectRooms.AddPoint | houdini/houdiniScripts/2_5_CONNECT_ROOMS.py:17 | appending to `rooms[cid]` adds a new group at the end when the id is new and otherwise keeps the number of groups |
| ConnectRooms.AddPointIds | houdini/houdiniScripts/2_5_CONNECT_ROOMS.py:17 | the group ids stay distinct and gain exactly the point's id |
| ConnectRooms.GroupRooms | houdini/houdiniScripts/2_5_CONNECT_ROOMS.py:13-17 | one group per distinct class id other than -1, in order of first appearance; each group lists, in point order, exactly the points carrying its id |
| ConnectRooms.CentroidInBox | houdini/houdiniScripts/2_5_CONNECT_ROOMS.py:26-29 | a room's centre lies inside any box holding all of the room's points |
| ConnectRooms.Centers | houdini/houdiniScripts/2_5_CONNECT_ROOMS.py:25-29 | one centre per group, the mean x and mean z of its points |
| ConnectRooms.ScanOrder | houdini/houdiniScripts/2_5_CONNECT_ROOMS.py:42 | the visiting order of `connected` lists every connected room exactly once and nothing else; a given order that lists the connected rooms once each is used as it is |
| ConnectRooms.ScanRow | houdini/houdiniScripts/2_5_CONNECT_ROOMS.py:43-49 | one pass of the inner loop: the best distance never grows, a pair is always found, and the first unconnected room at the minimum wins |
| ConnectRooms.RowStep | houdini/houdiniScripts/2_5_CONNECT_ROOMS.py:43-49 | after the pass over one more connected room the pair is still the closest over the rooms scanned so far, ties going to the pair scanned first |
| ConnectRooms.ClosestPair | houdini/houdiniScripts/2_5_CONNECT_ROOMS.py:40-49 | the chosen pair joins a connected room to an unconnected one; no pair of the scan is closer, and every pair the scan visits before it (an earlier connected room in the given visiting order, or the same room and a smaller unconnected one) is strictly farther |
| ConnectRooms.UnconnectedStep | houdini/houdiniScripts/2_5_CONNECT_ROOMS.py:54-55 | after moving a room from the unconnected list to the connected set, the list is still ascending and is exactly the rooms not connected |
| ConnectRooms.NewGreedyEdge | houdini/houdiniScripts/2_5_CONNECT_ROOMS.py:40-53 | the edge added in a round joins the tree built so far to a room outside it, no such pair is shorter, and every pair scanned before it in that round's visiting order is strictly longer |
| ConnectRooms.ClosestIsShortest | houdini/houdiniScripts/2_5_CONNECT_ROOMS.py:40-49 | the closest pair of the scan is no longer than any pair of a connected and an unconnected room |
| ConnectRooms.ClosestWinsTies | houdini/houdiniScripts/2_5_CONNECT_ROOMS.py:40-49 | every pair of a connected and an unconnected room scanned before the closest pair is strictly longer |
| ConnectRooms.AllGreedyExtend | houdini/houdiniScripts/2_5_CONNECT_ROOMS.py:39-55 | adding a greedy edge keeps every edge of the list greedy for its round |
| ConnectRooms.SpanningTree | houdini/houdiniScripts/2_5_CONNECT_ROOMS.py:32-55 | Prim's construction: one edge fewer than rooms, each edge the greedy edge of its round (shortest from the tree to the rest, first in that round's visiting order on a tie), and the tree reaches every room |
| ConnectRooms.PathToRoot | houdini/houdiniScripts/2_5_CONNECT_ROOMS.py:32-55 | every room reached by the tree has a path of edges back to the first room, so the corridors connect all rooms |
| ConnectRooms.GreedyEdgesProper | houdini/houdiniScripts/2_5_CONNECT_ROOMS.py:42-53 | every edge joins two distinct existing rooms |
| ConnectRooms.EdgeIds | houdini/houdiniScripts/2_5_CONNECT_ROOMS.py:51-55 | the edges expressed as pairs of distinct class ids |
| ConnectRooms.IdPath | houdini/houdiniScripts/2_5_CONNECT_ROOMS.py:51-55 | a path of tree edges between room positions, read through the rooms' ids, is a path of the id edges |
| ConnectRooms.IdsSpan | houdini/houdiniScripts/2_5_CONNECT_ROOMS.py:32-55 | every class id is joined to the first room's id by a path of the id edges |
| ConnectRooms.CorridorJoins | houdini/houdiniScripts/2_5_CONNECT_ROOMS.py:59-66 | the L-shaped corridor contains the first room's centre, the corner (x2, z1) and the second room's centre |
| ConnectRooms.OnAnyCorridorSnoc | houdini/houdiniScripts/2_5_CONNECT_ROOMS.py:58-66 | a point is on one of the first k + 1 corridors iff it is on one of the first k or on corridor k |
| ConnectRooms.CarveCorridors | houdini/houdiniScripts/2_5_CONNECT_ROOMS.py:58-68 | a point becomes empty iff it is outside every room (class -1) and on some corridor; every other point keeps its tile type |
| ConnectRooms.ConnectRooms | houdini/houdiniScripts/2_5_CONNECT_ROOMS.py:7-70 | an error when the class attribute is missing or fewer than 2 rooms exist, leaving the tiles untouched; otherwise the groups are the `rooms` dictionary, the centres their centroids, and the result is the greedy spanning tree as rooms - 1 pairs of distinct class ids that join every room to the first; exactly the points outside every room that lie on some corridor become empty and all others keep their tile |
| PlacePlayerExit.PlacePlayerAndExit | houdini/houdiniScripts/3_PLACE_PLAYER_AND_EXIT.py:26-48 | with fewer than 2 empty points nothing changes; otherwise two distinct empty points become the player and the stairs, no other point changes, and the empty count drops by exactly 2 |
| PlaceEnemies.Density | houdini/houdiniScripts/5_PLACE_ENEMIES.py:9-19 | the controller's `enemy_density`, or 0 when the controller is missing |
| PlaceEnemies.EnemyCount | houdini/houdiniScripts/5_PLACE_ENEMIES.py:35-36 | `int(int(empties * 0.15) * density)` is never negative for a non-negative density |
| PlaceEnemies.EnemyCountBounded | houdini/houdiniScripts/5_PLACE_ENEMIES.py:35-36 | for a density in [0, 1] the count is at most 15% of the empty points |
| PlaceEnemies.EnemyCountCanOvershoot | houdini/houdiniScripts/5_PLACE_ENEMIES.py:35-39 | a density above 1 can ask for more enemies than 15% of the empties (20 empties at density 10 ask for 30), which the `len(suitable_empty_points) >= num_to_place` guard then refuses |
| PlaceEnemies.EnemyKind | houdini/houdiniScripts/5_PLACE_ENEMIES.py:45-48 | a roll below 0.2 gives a shooter and any other roll a plain enemy |
| PlaceEnemies.Placed | houdini/houdiniScripts/5_PLACE_ENEMIES.py:31-40 | the number placed never exceeds the empty points, and when positive it is the computed count at a positive density |
| PlaceEnemies.PlaceEnemies | houdini/houdiniScripts/5_PLACE_ENEMIES.py:25-48 | exactly `Placed` distinct empty points become enemies, each of the kind its roll picks, and every other point keeps its tile type |
| PlaceEnemies.MarkEnemies | houdini/houdiniScripts/5_PLACE_ENEMIES.py:42-48 | each picked point gets the kind its own roll selects and every point that was not picked keeps its tile type |
| Interactables.ParamsOf | houdini/houdiniScripts/6_CREATE_INTERACTABLES.py:9-22 | the controller's five densities, or the defaults 1.0, 0.5, 0.25, 0.3, 1.0 when it is missing |
| Interactables.Norm | houdini/houdiniScripts/6_CREATE_INTERACTABLES.py:52 | the normalized ratio times the total gives back the ratio when the total is positive; otherwise it is 0 |
| Interactables.SumNormalizedScales | houdini/houdiniScripts/6_CREATE_INTERACTABLES.py:48-52 | the sum of the normalized ratios times the total is the sum of the ratios |
| Interactables.NormalizedSumIsOne | houdini/houdiniScripts/6_CREATE_INTERACTABLES.py:48-52 | after normalizing by a positive total, the normalized ratios sum to exactly 1 |
| Interactables.IndividualDensity | houdini/houdiniScripts/6_CREATE_INTERACTABLES.py:60 | `individual_densities.get(name, 0.5)` |
| Interactables.CountForBounded | houdini/houdiniScripts/6_CREATE_INTERACTABLES.py:61-64 | `int(total * individual * global * 0.1)` lies in [0, total] whenever individual × global ≤ 10 |
| Interactables.Take | houdini/houdiniScripts/6_CREATE_INTERACTABLES.py:86-90 | one loot type places min(count, points left), and nothing for a negative count |
| Interactables.Plan | houdini/houdiniScripts/6_CREATE_INTERACTABLES.py:80-92 | the pops never write more tiles than there are points |
| Interactables.LootResults | houdini/houdiniScripts/6_CREATE_INTERACTABLES.py:75-94 | one result per loot type, in dictionary order, each at most the number of points |
| Interactables.LootResultsTotal | houdini/houdiniScripts/6_CREATE_INTERACTABLES.py:80-94 | the reported counts add up to the number of tiles written, which is at most the number of points |
| Interactables.PlanStep | houdini/houdiniScripts/6_CREATE_INTERACTABLES.py:80-92 | each loot type takes its share from what the earlier types left |
| Interactables.Shuffled | houdini/houdiniScripts/6_CREATE_INTERACTABLES.py:76-77 | the shuffled copy is a permutation of the available points |
| Interactables.ShuffledDistinct | houdini/houdiniScripts/6_CREATE_INTERACTABLES.py:76-77 | shuffling distinct points gives distinct points |
| Interactables.PopStep | houdini/houdiniScripts/6_CREATE_INTERACTABLES.py:88-89 | one `pop` writes the planned kind on the last point of the copy and keeps the scatter invariant |
| Interactables.LootSystem.constructor | houdini/houdiniScripts/6_CREATE_INTERACTABLES.py:31-33 | an empty loot table with total ratio 0 |
| Interactables.LootSystem.AddLootType | houdini/houdiniScripts/6_CREATE_INTERACTABLES.py:35-46 | the entry is added or overwritten in place, the other entries keep their ratio and tile, and the ratios are normalized afterwards |
| Interactables.TotalRatio | houdini/houdiniScripts/6_CREATE_INTERACTABLES.py:50 | the total is the sum of the raw ratios of the listed entries |
| Interactables.Renormalize | houdini/houdiniScripts/6_CREATE_INTERACTABLES.py:51-52 | every listed entry's normalized ratio becomes its ratio against the total; keys, raw ratios and tiles are unchanged |
| Interactables.LootSystem.UpdateRatios | houdini/houdiniScripts/6_CREATE_INTERACTABLES.py:48-52 | every normalized ratio becomes ratio / total (0 for a non-positive total); ratios, tiles and keys are unchanged |
| Interactables.LootSystem.GetLootCounts | houdini/houdiniScripts/6_CREATE_INTERACTABLES.py:54-71 | one count per loot type, in insertion order, each `int(total * individual * global * 0.1)` with the type's tile and ratio |
| Interactables.LootSystem.PlaceLootWithRatios | houdini/houdiniScripts/6_CREATE_INTERACTABLES.py:73-94 | the results are `LootResults`, and the grid is the old grid with the planned kinds written, from the end, on the shuffled copy |
| Interactables.LootSystem.PlaceNext | houdini/houdiniScripts/6_CREATE_INTERACTABLES.py:80-92 | one loot type's turn extends both the pop plan and `results` by that type's entry, keeping the popped points in step with the shuffled list |
| Interactables.LootSystem.PlaceOne | houdini/houdiniScripts/6_CREATE_INTERACTABLES.py:81-92 | one loot type pops `Take(count, left)` points and writes its tile on each |
| Interactables.SumRatioFrame | houdini/houdiniScripts/6_CREATE_INTERACTABLES.py:50 | the total ratio depends only on the ratios |
| Interactables.EdgeTest | houdini/houdiniScripts/6_CREATE_INTERACTABLES.py:156-163 | a wall is an edge wall iff some other point of one of its primitives is not a wall |
| Interactables.ClassifyWalls | houdini/houdiniScripts/6_CREATE_INTERACTABLES.py:151-168 | the two lists hold, in point order, exactly the edge walls and exactly the other walls |
| Interactables.BreakableShares | houdini/houdiniScripts/6_CREATE_INTERACTABLES.py:175-180 | after the safety clamp each share is at most its candidate count |
| Interactables.SharesSplitTotal | houdini/houdiniScripts/6_CREATE_INTERACTABLES.py:172-180 | both shares are non-negative, and when neither is clamped they add up to the total to convert |
| Interactables.BreakableTotalBounded | houdini/houdiniScripts/6_CREATE_INTERACTABLES.py:171-172 | for a density in [0, 5] the total to convert lies in [0, candidates] |
| Interactables.SelectBreakables | houdini/houdiniScripts/6_CREATE_INTERACTABLES.py:149-192 | nothing for a non-positive density; otherwise the edge share of distinct edge walls followed by the thick share of distinct thick walls |
| Interactables.SetAll | houdini/houdiniScripts/6_CREATE_INTERACTABLES.py:195-196 | exactly the listed points get the kind |
| Interactables.PlaceBreakables | houdini/houdiniScripts/6_CREATE_INTERACTABLES.py:149-199 | `BreakablesOutcome`: none at a density of 0 or below; otherwise the converted count is the sum of the clamped shares, the edge picks come from the edge walls and the thick picks after them from the thick walls; the picks are distinct walls, exactly they become breakable and every other point keeps its tile type |
| Interactables.PicksFrom | houdini/houdiniScripts/6_CREATE_INTERACTABLES.py:185-189 | `random.sample` of an ascending list gives distinct members of it |
| Interactables.PlanKinds | houdini/houdiniScripts/6_CREATE_INTERACTABLES.py:80-89 | every written tile is the tile of one of the loot types |
| Interactables.DefaultLoot | houdini/houdiniScripts/6_CREATE_INTERACTABLES.py:97-101 | the table holds "coin" (ratio 2, tile coin) then "health" (ratio 1, tile health), normalized |
| Interactables.TwoTypes | houdini/houdiniScripts/6_CREATE_INTERACTABLES.py:80-94 | with two types the second gets what the first left, the plan is a run of the first tile followed by a run of the second, and only those two tiles are written |
| Interactables.LootCounts | houdini/houdiniScripts/6_CREATE_INTERACTABLES.py:124-134 | the two-entry count table the script builds, coins before health |
| Interactables.LootTouchesEmpties | houdini/houdiniScripts/6_CREATE_INTERACTABLES.py:114-141 | scattering coins and health over empty points changes only empty points, and only into coin or health |
| Interactables.LootPlaced | houdini/houdiniScripts/6_CREATE_INTERACTABLES.py:121-141 | from the scatter of the default plan over the shuffled empties: the two result entries, the coin, health and empty counts after placement, and the change only of empty points into loot |
| Interactables.LootCountsGrow | houdini/houdiniScripts/6_CREATE_INTERACTABLES.py:80-94 | popping a coin/health plan onto empty points raises the coin and health counts by their entries and lowers the empty count by both |
| Interactables.ScatterCount | houdini/houdiniScripts/6_CREATE_INTERACTABLES.py:84-90 | writing a plan onto distinct formerly empty points changes a kind's count by the plan's count of it, less the plan's length for the empty kind |
| Interactables.CountKindAppend | houdini/houdiniScripts/6_CREATE_INTERACTABLES.py:84-90 | a kind's count over two joined lists is the sum of their counts |
| Interactables.CountKindRep | houdini/houdiniScripts/6_CREATE_INTERACTABLES.py:84-90 | a run of n copies of one kind counts n for that kind and 0 for any other |
| Interactables.PlaceLoot | houdini/houdiniScripts/6_CREATE_INTERACTABLES.py:112-146 | `EmptyList`: `available` is the ascending list of the map's empty points. `LootOutcome`: with loot density > 0 and some empty point, the results are coin = Take(coin count, n) then health = Take(health count, n - coins), and the map is the plan of `LootCounts` scattered over the shuffled empties; otherwise there are no results and the map is unchanged. The coin and health counts grow by their results and the empty count shrinks by both; only empty points change, into coin or health |
| Interactables.CreateInteractables | houdini/houdiniScripts/6_CREATE_INTERACTABLES.py:1-201 | the loot state of `PlaceLoot` (`EmptyList`, `LootOutcome`), reached at `mid`; then `BreakablesOutcome` from `mid`: no breakables at a non-positive density, otherwise the converted count is the sum of the clamped edge and thick shares over the walls of `mid`, the edge picks lie in its edge walls and the thick picks in its thick walls, the picks are distinct walls of `mid`, exactly they become breakable, and every other point keeps its `mid` kind. Overall a point keeps its kind, goes from empty to loot, or from wall to breakable |
| Interactables.InteractablesFrame | houdini/houdiniScripts/6_CREATE_INTERACTABLES.py:112-199 | loot onto empties followed by breakables onto walls leaves each point unchanged, empty-to-loot or wall-to-breakable |
| Exporter.Cell | houdini/scripts/my_exporter.py:159-173 | a hole in the dictionary gives "?", a missing or empty character gives ".", any other character is copied |
| Exporter.RowShape | houdini/scripts/my_exporter.py:154-175 | a row built from single-character cells has one character per x from min_x to max_x, each the cell's text |
| Exporter.Bounds | houdini/scripts/my_exporter.py:127-130 | `min` and `max` of a non-empty set of keys are its least and greatest members |
| Exporter.CreateAsciiGrid | houdini/scripts/my_exporter.py:124-192 | width and height span the least to greatest x and z keys, and there is one row per z from min_z, each the row of cells from min_x |
| Exporter.LevelFileName | houdini/scripts/my_exporter.py:344 | the file name starts with "LEVEL_" and ends with ".ini" (the full round trip is `LevelDataService.ParseExportedName`) |
| Exporter.ExportAll | houdini/scripts/my_exporter.py:474-491 | levels 1 .. level_count are tried with consecutive seeds; successes plus failures is the level count, the file list is exactly the names of the successful levels in order, and nothing happens for a count ≤ 0 |
| Exporter.Exported | houdini/scripts/my_exporter.py:480-491 | at most one file per tried level |
| Exporter.AllExported | houdini/scripts/my_exporter.py:480-491 | when every export succeeds, file k is `LEVEL_{k+1:04d}_{level_version}_{format_version}.ini` |
| Rng.RandInt | houdini/houdiniScripts/2_CARVE_ROOMS.py:42-45 | `random.randint(lo, hi)` lands in the closed range [lo, hi] whatever the random stream |
| Rng.UnityRange | unity/Assets/Scripts/Managers/LevelSequencer.cs:332 | `Random.Range(min, max)` lands in [min, max), and gives min for an empty range |
| Rng.Trunc | houdini/houdiniScripts/5_PLACE_ENEMIES.py:35-36 | Python `int(x)` truncates toward zero: the result is within 1 of x and no farther from 0 than x |
| Rng.TruncUnique | houdini/houdiniScripts/2_CARVE_ROOMS.py:33-34 | only one integer is the truncation toward zero of a real, so `TruncOf` determines each `int()` result |
| Rng.Sample | houdini/houdiniScripts/3_PLACE_PLAYER_AND_EXIT.py:35 | `random.sample(pool, k)` picks k elements and leaves the other \|pool\| - k, the two together being exactly the pool as a multiset |
| Rng.SampleFromPool | houdini/houdiniScripts/3_PLACE_PLAYER_AND_EXIT.py:35 | every sampled element comes from the pool |
| Rng.SampleDistinct | houdini/houdiniScripts/5_PLACE_ENEMIES.py:40 | sampling a pool without repeats gives elements without repeats |
| Text.Split | unity/Assets/Scripts/Managers/HoudiniLevelImporter.cs:105 | `Split(c)` gives at least one part and no part contains the separator |
| Text.JoinSplit | unity/Assets/Scripts/Managers/HoudiniLevelImporter.cs:199-204 | joining the parts of a split with the separator gives back the original text |
| Text.SplitJoin | unity/Assets/Scripts/Managers/HoudiniLevelImporter.cs:199-204 | splitting a join of separator-free parts gives back the parts |
| Text.SplitFree | unity/Assets/Scripts/Managers/HoudiniLevelImporter.cs:200 | a text without the separator splits into itself alone |
| Text.TrimStart | unity/Assets/Scripts/Managers/HoudiniLevelImporter.cs:114 | the result is a suffix of the input, every dropped character is white space and the result does not start with white space |
| Text.TrimEnd | unity/Assets/Scripts/Managers/HoudiniLevelImporter.cs:114 | the result is a prefix of the input, every dropped character is white space and the result does not end with white space |
| Text.Trim | unity/Assets/Scripts/Managers/HoudiniLevelImporter.cs:224-225 | the trimmed text is no longer than the input and neither starts nor ends with white space |
| Text.TrimFixed | unity/Assets/Scripts/Managers/HoudiniLevelImporter.cs:224-225 | a text that neither starts nor ends with white space is its own trim |
| Text.TrimIdempotent | unity/Assets/Scripts/Managers/HoudiniLevelImporter.cs:114 | trimming twice is trimming once |
| Text.Remove | unity/Assets/Scripts/Managers/HoudiniLevelImporter.cs:114 | `Replace("\r", "")` leaves no carriage return, never lengthens the text and leaves alone a text without one |
| Text.Digits | unity/Assets/Scripts/Managers/LevelSequencer.cs:253 | the decimal form of n is all digits, has no leading zero and reads back as n |
| Text.ZeroPad | houdini/scripts/my_exporter.py:344 | `{n:04d}` is all digits, reads back as n, and is as long as the wider of the width and n's own digits |
| Text.ParseInt32 | unity/Assets/Scripts/Managers/HoudiniLevelImporter.cs:202 | a successful `int.TryParse` yields a value within the 32-bit range |
| Text.ParseDigits | unity/Assets/Scripts/Managers/HoudiniLevelImporter.cs:202 | a non-empty run of decimal digits whose value fits in 32 bits parses back to that value |
| Text.ParseBool | unity/Assets/Scripts/Managers/HoudiniLevelImporter.cs:209 | `bool.Parse` accepts exactly "true" and "false" in any letter case with surrounding white space, and rejects everything else |
| LevelImporter.Put | unity/Assets/Scripts/Managers/HoudiniLevelImporter.cs:213 | `cellTypes[id] = cellType`: afterwards the id maps to the new entry and every other id maps to what it did before; a new id is appended, a known one overwritten in place, and ids stay unique |
| LevelImporter.LookupFinds | unity/Assets/Scripts/Managers/HoudiniLevelImporter.cs:34 | in a dictionary with unique ids, looking up an entry's id finds that entry |
| LevelImporter.LookupAbsent | unity/Assets/Scripts/Managers/HoudiniLevelImporter.cs:34 | an id no entry carries is not found |
| LevelImporter.CellTypeLine | unity/Assets/Scripts/Managers/HoudiniLevelImporter.cs:196-217 | a line without one '=', an Int32 id and four comma-separated fields is skipped; a well-shaped line whose passable field is not a Boolean or whose prefab index is not an Int32 throws; otherwise the entry has that id, the first character of the symbol field (a space when it is empty), the name field, the parsed passable flag and prefab index |
| LevelImporter.IntEntry | unity/Assets/Scripts/Managers/HoudiniLevelImporter.cs:255-259 | a `KEY=VALUE` line yields a (key, value) pair exactly when it has one '=' and its trimmed value parses as an Int32 |
| LevelImporter.ConfigLine | unity/Assets/Scripts/Managers/HoudiniLevelImporter.cs:219-251 | a VERSION, FORMAT_VERSION, LEVEL_NAME or LEVEL_ID line sets exactly that field to its trimmed value; a GRID_WIDTH or GRID_HEIGHT line with an Int32 value sets exactly that size, and with any other value throws; a line without exactly one '=' or with another key leaves the configuration as it was |
| LevelImporter.ConfigLineOwnKey | unity/Assets/Scripts/Managers/HoudiniLevelImporter.cs:219-251 | conversely, a configuration field changes only through a line of its own key, and then to that line's trimmed value |
| LevelImporter.GenLine | unity/Assets/Scripts/Managers/HoudiniLevelImporter.cs:253-313 | a line without an integer value changes nothing; each integer parameter changes only under its own key, to the value given, and nothing else changes |
| LevelImporter.HeaderName | unity/Assets/Scripts/Managers/HoudiniLevelImporter.cs:121-123 | the section name is the header with its brackets stripped |
| LevelImporter.RunStops | unity/Assets/Scripts/Managers/HoudiniLevelImporter.cs:103-179 | once a line has thrown, the rest of the file cannot undo it: the import fails |
| LevelImporter.GridSize | unity/Assets/Scripts/Managers/HoudiniLevelImporter.cs:317-326 | the configured size when both GRID_WIDTH and GRID_HEIGHT are non-zero, else the first grid line's length by the number of grid lines |
| LevelImporter.GridCell | unity/Assets/Scripts/Managers/HoudiniLevelImporter.cs:336-353 | a cell holds its grid line's character where the line reaches it, and '.' elsewhere |
| LevelImporter.VisitCells | unity/Assets/Scripts/Managers/HoudiniLevelImporter.cs:371-394 | visiting a cell appends its position to the list its symbol names and to no other list |
| LevelImporter.RowCells | unity/Assets/Scripts/Managers/HoudiniLevelImporter.cs:366-394 | after a row prefix, a list holds exactly what it held before plus the cells of that prefix carrying its symbol |
| LevelImporter.RowAscending | unity/Assets/Scripts/Managers/HoudiniLevelImporter.cs:364-396 | a row scan keeps each list in row-major order |
| LevelImporter.RowsAscending | unity/Assets/Scripts/Managers/HoudiniLevelImporter.cs:364-396 | the full scan lists each symbol's cells in row-major order, all inside the grid's rows |
| LevelImporter.RowsCells | unity/Assets/Scripts/Managers/HoudiniLevelImporter.cs:364-396 | the full scan lists a position exactly when it is inside the grid and its cell carries the symbol |
| LevelImporter.ScanLists | unity/Assets/Scripts/Managers/HoudiniLevelImporter.cs:362-396 | the enemy, shooter, coin, health and breakable lists are exactly the grid's cells with 'E', 'S', 'C', 'H' and 'B', each in row-major order |
| LevelImporter.RowMarker | unity/Assets/Scripts/Managers/HoudiniLevelImporter.cs:373-378 | after a row prefix, the spawn or exit is either unchanged with no marker in the prefix, or the last marker of the prefix |
| LevelImporter.RowsMarker | unity/Assets/Scripts/Managers/HoudiniLevelImporter.cs:364-396 | after the full scan the spawn or exit is (0, 0) when the grid has no such marker, else the last one in row-major order |
| LevelImporter.ScanMarkers | unity/Assets/Scripts/Managers/HoudiniLevelImporter.cs:373-378 | the player spawn and the exit are the last 'P' and the last 'X' of the grid in row-major order, and (0, 0) when there is none |
| LevelImporter.SampleGrid | unity/Assets/Scripts/Managers/HoudiniLevelImporter.cs:429-449 | the built-in sample grid yields the spawn (1, 1), the enemy (2, 3) and the coin (3, 1) |
| LevelImporter.HoudiniLevelData.constructor | unity/Assets/Scripts/Managers/HoudiniLevelImporter.cs:46-54 | a fresh level has no cell types, no grid, zero sizes and parameters, and empty position lists |
| LevelImporter.ParseCellType | unity/Assets/Scripts/Managers/HoudiniLevelImporter.cs:196-217 | the dictionary gains or overwrites exactly the line's entry when it parses, is left alone when the line is ignored, and the call fails exactly when the line throws |
| LevelImporter.ParseLevelConfig | unity/Assets/Scripts/Managers/HoudiniLevelImporter.cs:219-251 | the configuration becomes `ConfigLine`'s result, or the call fails leaving it unchanged |
| LevelImporter.ParseGenerationParams | unity/Assets/Scripts/Managers/HoudiniLevelImporter.cs:253-313 | the integer parameters become `GenLine`'s result |
| LevelImporter.ParseGrid | unity/Assets/Scripts/Managers/HoudiniLevelImporter.cs:315-360 | fails exactly when a size is negative; otherwise a fresh grid of the `GridSize` dimensions whose every cell is `GridCell` |
| LevelImporter.CopyLines | unity/Assets/Scripts/Managers/HoudiniLevelImporter.cs:345-353 | copying the grid lines over a grid of '.' leaves every cell equal to `GridCell` |
| LevelImporter.ExtractSpecialPositions | unity/Assets/Scripts/Managers/HoudiniLevelImporter.cs:362-396 | the positions found are the row-major scan of the grid |
| LevelImporter.ImportLine | unity/Assets/Scripts/Managers/HoudiniLevelImporter.cs:112-150 | one pass of the line loop does what `Step` says to the section, the dictionary, the configuration, the parameters and the grid lines |
| LevelImporter.DispatchLine | unity/Assets/Scripts/Managers/HoudiniLevelImporter.cs:130-149 | a line is handed to the parser of the current section, as `Dispatch` says |
| LevelImporter.DispatchCells | unity/Assets/Scripts/Managers/HoudiniLevelImporter.cs:132-135 | a `CELL_TYPES` line changes the scan state as `Dispatch` says; only the cell table changes |
| LevelImporter.DispatchConfig | unity/Assets/Scripts/Managers/HoudiniLevelImporter.cs:136-139 | a `LEVEL_CONFIG` line changes the scan state as `Dispatch` says; only the configuration changes |
| LevelImporter.ReadSections | unity/Assets/Scripts/Managers/HoudiniLevelImporter.cs:105-150 | the line loop ends in the state `Run` computes, and fails exactly when `Run` does |
| LevelImporter.LayOutGrid | unity/Assets/Scripts/Managers/HoudiniLevelImporter.cs:156-160 | a non-empty grid section is laid into a fresh grid and scanned for its special cells, failing exactly on a negative size |
| LevelImporter.ImportFromText | unity/Assets/Scripts/Managers/HoudiniLevelImporter.cs:99-180 | null exactly when some line throws or a grid size is negative; otherwise a fresh level holding the scanned dictionary, configuration, parameters, grid and special positions |
| LevelDataService.ParseLevelFileName | unity/Assets/Scripts/Services/LevelDataService.cs:120-151 | the entry keeps the file name and path; the level number is the second '_'-separated part when it parses as an Int32, else 1; the version is the third part without its leading 'v' when it has one, else "1.0.0" |
| LevelDataService.IsValidLevelFileName | unity/Assets/Scripts/Services/LevelDataService.cs:115-118 | a level file name starts with "LEVEL_" and contains "_v" |
| LevelDataService.ParseExample | unity/Assets/Scripts/Services/LevelDataService.cs:115-151 | the name "LEVEL_0001_v1.0.0_v4.3" is a level file name and reads as level 1, version "1.0.0" |
| LevelDataService.ExportedStem | unity/Assets/Scripts/Services/LevelDataService.cs:133 | an exported file name without ".ini" is the '_'-join of "LEVEL", the zero-padded number and the two versions |
| LevelDataService.ParseExportedName | unity/Assets/Scripts/Services/LevelDataService.cs:115-151 | every name the exporter writes, for a version starting with 'v' and without '_', is accepted as a level file and reads back to the exported level number and version |
| LevelDataService.OrdinalTotal | unity/Assets/Scripts/Services/LevelDataService.cs:73 | ordinal string comparison is total |
| LevelDataService.OrdinalLe | unity/Assets/Scripts/Services/LevelDataService.cs:73 | `string.CompareOrdinal` order: a proper prefix or a smaller character at the first difference |
| LevelDataService.OrdinalTrans | unity/Assets/Scripts/Services/LevelDataService.cs:73 | ordinal string comparison is transitive |
| LevelDataService.EntryTotal | unity/Assets/Scripts/Services/LevelDataService.cs:71-74 | the sort's comparison (level number, then version) is total |
| LevelDataService.EntryTrans | unity/Assets/Scripts/Services/LevelDataService.cs:71-74 | the sort's comparison is transitive |
| LevelDataService.Insert | unity/Assets/Scripts/Services/LevelDataService.cs:71-74 | inserting into a sorted list keeps it sorted and adds exactly that entry |
| LevelDataService.Sort | unity/Assets/Scripts/Services/LevelDataService.cs:71-74 | `List.Sort` with that comparison yields a sorted permutation of its input |
| LevelDataService.ImportedIsValid | unity/Assets/Scripts/Services/LevelDataService.cs:307-322 | data imported from a file with grid lines and a positive grid size always passes `ValidateLevelData`: its spawn is on the grid |
| LevelDataService.ValidateLevelData | unity/Assets/Scripts/Services/LevelDataService.cs:307-322 | data is valid exactly when it exists, has a grid, both sizes are positive and the player spawn lies on the grid |
| LevelDataService.GridlessIsInvalid | unity/Assets/Scripts/Services/LevelDataService.cs:307-310 | data imported from a file without grid lines never passes `ValidateLevelData` |
| LevelDataService.Entries | unity/Assets/Scripts/Services/LevelDataService.cs:100-113 | an entry is in the scan exactly when it is the parse of some valid asset name with its path under "Resources/Levels/"; there is one entry per valid name (CountValid), so no valid asset is dropped and nothing else is added |
| LevelDataService.CountValidSnoc | unity/Assets/Scripts/Services/LevelDataService.cs:104-106 | appending an asset adds one to the number of valid names exactly when its name passes IsValidLevelFileName |
| LevelDataService.LevelDataService.constructor | unity/Assets/Scripts/Services/LevelDataService.cs:60-62 | the service starts with no levels and the first index selected |
| LevelDataService.LevelDataService.ScanForLevelFiles | unity/Assets/Scripts/Services/LevelDataService.cs:60-113 | the level list becomes the scanned entries, sorted by level number then version, as a permutation of the scan, and the selection is kept |
| LevelDataService.LevelDataService.GetSelectedLevel | unity/Assets/Scripts/Services/LevelDataService.cs:158-165 | the selected entry exactly when the index is in range, else the default entry |
| LevelDataService.LevelDataService.GetCurrentLevelNumber | unity/Assets/Scripts/Services/LevelDataService.cs:292-296 | the selected entry's level number, or 0 (the default entry's) when the index is out of range |
| LevelDataService.LevelDataService.GetTotalLevelCount | unity/Assets/Scripts/Services/LevelDataService.cs:298-301 | the number of levels |
| LevelDataService.LevelDataService.SelectLevelByNumber | unity/Assets/Scripts/Services/LevelDataService.cs:171-180 | succeeds exactly when some level has the number, and then selects the first such level; otherwise the selection is unchanged |
| LevelDataService.LevelDataService.SelectLevelByNumberAndVersion | unity/Assets/Scripts/Services/LevelDataService.cs:182-192 | succeeds exactly when some level has the number and version, and then selects the first such level; otherwise the selection is unchanged |
| LevelDataService.LevelDataService.SelectNextLevel | unity/Assets/Scripts/Services/LevelDataService.cs:194-212 | moves one forward exactly when there is a next level, keeping an in-range selection in range |
| LevelDataService.LevelDataService.HasNextLevel | unity/Assets/Scripts/Services/LevelDataService.cs:194-197 | the selected index is before the last level |
| LevelDataService.LevelDataService.HasPreviousLevel | unity/Assets/Scripts/Services/LevelDataService.cs:199-202 | the selected index is after the first level |
| LevelDataService.LevelDataService.SelectPreviousLevel | unity/Assets/Scripts/Services/LevelDataService.cs:199-222 | moves one back exactly when there is a previous level, keeping an in-range selection in range |
| LevelDataService.LevelDataService.ResetToFirstLevel | unity/Assets/Scripts/Services/LevelDataService.cs:224-230 | selects the first level when there is one, else leaves the selection |
| LevelDataService.LevelDataService.SelectLastLevel | unity/Assets/Scripts/Services/LevelDataService.cs:232-238 | selects the last level when there is one, after which there is no next level |
| LevelDataService.NavigationEnds | unity/Assets/Scripts/Services/LevelDataService.cs:194-202 | on an in-range selection, there is no next level exactly at the last index and no previous level exactly at the first |
| LevelSequencer.Clamp | unity/Assets/Scripts/Managers/LevelSequencer.cs:103-107 | `Mathf.Clamp` lies in [lo, hi], is the value itself when inside and the nearer bound otherwise |
| LevelSequencer.Next | unity/Assets/Scripts/Managers/LevelSequencer.cs:130-138 | one step of the index stays in the list, and the cycle count grows by one exactly when the index wraps to 0 |
| LevelSequencer.StepsNoWrap | unity/Assets/Scripts/Managers/LevelSequencer.cs:130 | steps that do not reach the end of the list advance the index without completing a cycle |
| LevelSequencer.StepsAdd | unity/Assets/Scripts/Managers/LevelSequencer.cs:121-146 | a + b steps are a steps followed by b steps |
| LevelSequencer.FullCycle | unity/Assets/Scripts/Managers/LevelSequencer.cs:121-146 | from any index, one call of `LoadNextLevel` per level returns to the same index with exactly one more completed cycle |
| LevelSequencer.LevelSequencer.constructor | unity/Assets/Scripts/Managers/LevelSequencer.cs:14-27 | the serialized settings, with the index and the cycle count at 0 |
| LevelSequencer.LevelSequencer.ValidateSetup | unity/Assets/Scripts/Managers/LevelSequencer.cs:66-83 | an empty level list switches the sequence off; otherwise nothing changes |
| LevelSequencer.LevelSequencer.IsSequenceActive | unity/Assets/Scripts/Managers/LevelSequencer.cs:281-284 | the sequence is enabled and its level list is not empty |
| LevelSequencer.LevelSequencer.InitializeSequence | unity/Assets/Scripts/Managers/LevelSequencer.cs:92-115 | on an active sequence the index becomes the argument, or the configured start when the argument is negative, clamped into the list, and the cycle count restarts; an inactive sequence is left alone |
| LevelSequencer.LevelSequencer.LoadNextLevel | unity/Assets/Scripts/Managers/LevelSequencer.cs:121-146 | on an active sequence the state takes one `Next` step; an inactive one is left alone |
| LevelSequencer.LevelSequencer.LoadLevelByIndex | unity/Assets/Scripts/Managers/LevelSequencer.cs:151-170 | the index is taken exactly when the sequence is active and it lies in the list, and is otherwise left alone |
| LevelSequencer.LevelSequencer.GetTotalLevelsCount | unity/Assets/Scripts/Managers/LevelSequencer.cs:232-235 | the number of levels |
| LevelSequencer.LevelSequencer.GetCurrentLevelEntry | unity/Assets/Scripts/Managers/LevelSequencer.cs:261-268 | the current entry exactly when the index is in range, else the default entry |
| LevelSequencer.LevelSequencer.GetCurrentLevelInfo | unity/Assets/Scripts/Managers/LevelSequencer.cs:248-256 | the current file name followed by " (" when a level is current, else "No level loaded" |
| LevelSequencer.LevelSequencer.AddLevelToSequence | unity/Assets/Scripts/Managers/LevelSequencer.cs:293-300 | an entry with a text asset is appended and any other entry is ignored |
| LevelSequencer.LevelSequencer.RemoveLevelFromSequence | unity/Assets/Scripts/Managers/LevelSequencer.cs:305-320 | an index in range is removed, and a current index at or after it moves back one (never below 0); an index out of range changes nothing |
| LevelSequencer.RemoveKeepsCurrent | unity/Assets/Scripts/Managers/LevelSequencer.cs:305-320 | removing another entry keeps the current index on the same entry |
| LevelSequencer.LevelSequencer.ShuffleLevelSequence | unity/Assets/Scripts/Managers/LevelSequencer.cs:325-340 | a list of more than one entry is permuted (same entries, same multiplicities) and the index restarts at 0; a shorter list is left alone |
| LayeredGrid.FirstTile | unity/Assets/Scripts/Services/LayeredGridService.cs:105-134 | the first object, in layer order, that carries a tile component gives the type, and there is none exactly when no object carries one |
| Common.RemoveFirst | unity/Assets/Scripts/Services/LayeredGridService.cs:352 | `List.Remove` leaves a list without the object alone, makes a list holding it one shorter, and keeps only listed objects |
| Common.RemoveFirstCounts | unity/Assets/Scripts/Managers/TurnManager.cs:38 | `List.Remove` takes away exactly one copy of the object and nothing else: the multiset of the list loses one occurrence of it |
| Common.RemoveFirstDistinct | unity/Assets/Scripts/Services/LayeredGridService.cs:344-355 | on a list without repeats, removing an object leaves it absent, the list without repeats, and every other object listed as before |
| Common.PermutationDistinct | unity/Assets/Scripts/Managers/TurnManager.cs:55 | a rearrangement of a list without repeats, such as `OrderBy`'s, has no repeats |
| Common.RemoveFirstIncreasing | houdini/houdiniScripts/2_5_CONNECT_ROOMS.py:55 | `unconnected_rooms.remove(r2)` on an ascending list keeps it ascending, removes the value and keeps every other value |
| LayeredGrid.LayeredGridService.constructor | unity/Assets/Scripts/Services/LayeredGridService.cs:67-88 | `Initialize` allocates every layer at the grid size, with no masks, no objects and empty registries |
| LayeredGrid.LayeredGridService.IsValidPosition | unity/Assets/Scripts/Services/LayeredGridService.cs:93-96 | a position is valid exactly inside the width and height |
| LayeredGrid.LayeredGridService.IsWalkable | unity/Assets/Scripts/Services/LayeredGridService.cs:154-197 | walkable exactly on the grid with no static or destructible movement block, no actor other than the mover, no bomb owned by someone else, and no item unless the mover is a player |
| LayeredGrid.LayeredGridService.IsFirePassable | unity/Assets/Scripts/Services/LayeredGridService.cs:202-213 | fire passes exactly on the grid where neither the static nor the destructible layer blocks fire |
| LayeredGrid.LayeredGridService.GetAllObjectsAt | unity/Assets/Scripts/Services/LayeredGridService.cs:496-509 | nothing outside the grid; inside, at most five objects, exactly those of the destructible, actor, bomb, effect and item layers at that cell |
| LayeredGrid.LayeredGridService.GetTileTypeAt | unity/Assets/Scripts/Services/LayeredGridService.cs:101-149 | Empty outside the grid; inside, the tile type of the first object in layer order that has one, else Breakable on a destructible mask, else Wall on a movement-blocking static mask, else Empty |
| LayeredGrid.LayeredGridService.EmptyCellIsOpen | unity/Assets/Scripts/Services/LayeredGridService.cs:101-213 | a cell with no masks and no objects is walkable, lets fire through and reads as Empty |
| LayeredGrid.LayeredGridService.SetStaticTile | unity/Assets/Scripts/Services/LayeredGridService.cs:219-229 | sets the static mask of a cell inside the grid and changes no other cell |
| LayeredGrid.LayeredGridService.GetStaticTile | unity/Assets/Scripts/Services/LayeredGridService.cs:231-235 | the cell's static mask, or no mask outside the grid |
| LayeredGrid.LayeredGridService.SetDestructibleTile | unity/Assets/Scripts/Services/LayeredGridService.cs:241-245 | sets the destructible mask of a cell inside the grid and changes no other cell |
| LayeredGrid.LayeredGridService.PlaceDestructibleObject | unity/Assets/Scripts/Services/LayeredGridService.cs:247-264 | succeeds exactly on a free cell inside the grid with an object; the cell then holds it, blocks movement and fire, and nothing else changes |
| LayeredGrid.LayeredGridService.GetDestructibleObjectAt | unity/Assets/Scripts/Services/LayeredGridService.cs:266-270 | the cell's destructible object, or none outside the grid |
| LayeredGrid.LayeredGridService.DestroyDestructibleTile | unity/Assets/Scripts/Services/LayeredGridService.cs:272-284 | succeeds exactly on a cell whose mask is destructible, clearing its mask and its object and changing no other cell |
| LayeredGrid.LayeredGridService.GetDestructibleTile | unity/Assets/Scripts/Services/LayeredGridService.cs:286-290 | the cell's destructible mask, or no mask outside the grid |
| LayeredGrid.LayeredGridService.PlaceActor | unity/Assets/Scripts/Services/LayeredGridService.cs:296-323 | succeeds exactly on a cell inside the grid holding no other actor and no item; the actor is then there and registered once |
| LayeredGrid.LayeredGridService.MoveActor | unity/Assets/Scripts/Services/LayeredGridService.cs:325-342 | succeeds exactly when the actor stands on the source cell and the target is walkable for it; then the actor is on the target, the source is empty unless it is the target, and no other cell changes |
| LayeredGrid.LayeredGridService.RemoveActor | unity/Assets/Scripts/Services/LayeredGridService.cs:344-355 | when the actor is on that cell, the cell is emptied and the actor is unregistered; otherwise nothing changes |
| LayeredGrid.LayeredGridService.GetActorAt | unity/Assets/Scripts/Services/LayeredGridService.cs:357-361 | the cell's actor, or none outside the grid |
| LayeredGrid.LayeredGridService.PlaceBomb | unity/Assets/Scripts/Services/LayeredGridService.cs:367-387 | succeeds exactly on a cell inside the grid without a bomb; the bomb is then there and registered once |
| LayeredGrid.LayeredGridService.RemoveBomb | unity/Assets/Scripts/Services/LayeredGridService.cs:389-400 | when the bomb is on that cell, the cell is emptied and the bomb is unregistered; otherwise nothing changes |
| LayeredGrid.LayeredGridService.GetBombAt | unity/Assets/Scripts/Services/LayeredGridService.cs:402-406 | the cell's bomb, or none outside the grid |
| LayeredGrid.LayeredGridService.PlaceItem | unity/Assets/Scripts/Services/LayeredGridService.cs:412-439 | succeeds exactly on a cell inside the grid without an actor or an item; the item is then there and registered once |
| LayeredGrid.LayeredGridService.RemoveItem | unity/Assets/Scripts/Services/LayeredGridService.cs:441-452 | when the item is on that cell, the cell is emptied and the item is unregistered; otherwise nothing changes |
| LayeredGrid.LayeredGridService.GetItemAt | unity/Assets/Scripts/Services/LayeredGridService.cs:454-458 | the cell's item, or none outside the grid |
| LayeredGrid.LayeredGridService.PlaceEffect | unity/Assets/Scripts/Services/LayeredGridService.cs:464-470 | an effect inside the grid replaces the cell's effect; nothing else changes |
| LayeredGrid.LayeredGridService.RemoveEffect | unity/Assets/Scripts/Services/LayeredGridService.cs:472-481 | the cell's effect is cleared when it is that effect; otherwise nothing changes |
| LayeredGrid.LayeredGridService.GetEffectAt | unity/Assets/Scripts/Services/LayeredGridService.cs:483-487 | the cell's effect, or none outside the grid |
| LayeredGrid.LayeredGridService.ClearAllLayers | unity/Assets/Scripts/Services/LayeredGridService.cs:514-538 | every cell of every layer is cleared and the registries are emptied |
| LayeredGrid.FirstTileCons | unity/Assets/Scripts/Services/LayeredGridService.cs:105-134 | the first typed object of a cell is the first layer's when that one is typed, else the rest's |
| LayeredGrid.TileOfCell | unity/Assets/Scripts/Services/LayeredGridService.cs:105-134 | the layer-by-layer priority of `GetTileTypeAt` is the first typed object among destructible, actor, bomb, effect and item |
| LevelManager.PutSymbol | unity/Assets/Scripts/Managers/LevelManager.cs:353 | `cellTypes[symbol] = cellType`: the symbol then maps to the new type and every other symbol keeps its type |
| LevelManager.ReKeyLookup | unity/Assets/Scripts/Managers/LevelManager.cs:341-354 | after re-keying by symbol, a symbol no Houdini cell type carries is unknown, and a symbol maps to the last cell type (in enumeration order) that carries it |
| LevelManager.LevelData.constructor | unity/Assets/Scripts/Managers/LevelManager.cs:6-19 | a level of the given size with no name, version, cell types or positions |
| LevelManager.LevelData.GetCellAtGrid | unity/Assets/Scripts/Managers/LevelManager.cs:314-318 | the grid character inside the level, and '#' (a wall) outside it |
| LevelManager.LevelData.IsValidGridPosition | unity/Assets/Scripts/Managers/LevelManager.cs:308-312 | a position is valid exactly inside the level's width and height |
| LevelManager.LevelData.IsCellPassable | unity/Assets/Scripts/Managers/LevelManager.cs:320-328 | passable exactly when the cell's character is a known cell type marked passable; unknown characters are impassable |
| LevelManager.OutsideIsWall | unity/Assets/Scripts/Managers/LevelManager.cs:316-327 | a position outside the level is passable exactly when the cell type '#' is known and passable |
| LevelManager.ConvertHoudiniToLevelData | unity/Assets/Scripts/Managers/LevelManager.cs:331-383 | fails (the array copy would throw) exactly when a size is negative or the Houdini grid is smaller than its sizes; otherwise name, version, sizes, spawn and exit are copied, cell types are re-keyed by symbol, every cell is copied, enemies are plain then shooters and collectibles are coins then health items |
| LevelManager.ReKeyTypes | unity/Assets/Scripts/Managers/LevelManager.cs:342-354 | the dictionary the loop builds is the symbol-keyed re-keying of the Houdini cell types, in enumeration order |
| LevelManager.CopyGrid | unity/Assets/Scripts/Managers/LevelManager.cs:357-364 | every cell of the destination gets the source's cell |
| LevelManager.GetCurrentLevelFileName | unity/Assets/Scripts/Managers/LevelManager.cs:281-292 | null exactly for a null or empty name; otherwise the name, with ".txt" added unless it already ends so |
| LevelManager.FileNameIdempotent | unity/Assets/Scripts/Managers/LevelManager.cs:281-292 | applying the file-name rule twice is applying it once |
| LevelManager.IndexOf | unity/Assets/Scripts/Managers/LevelManager.cs:236 | `List.IndexOf`: the first position holding the name, or -1 exactly when no position does |
| LevelManager.NextLevelName | unity/Assets/Scripts/Managers/LevelManager.cs:232-240 | nothing with no levels; otherwise the level after the current one, wrapping, and the first when the current name is not listed |
| LevelManager.RandomLevelName | unity/Assets/Scripts/Managers/LevelManager.cs:242-248 | nothing with no levels; otherwise a listed level, and draw i < count picks level i |
| LevelManager.NextOfDistinct | unity/Assets/Scripts/Managers/LevelManager.cs:232-240 | with distinct names the level after level i is level i + 1, and after the last comes the first |
| LevelManager.NonEmpty | unity/Assets/Scripts/Managers/LevelManager.cs:97-103 | exactly the non-empty names are kept |
| LevelManager.LevelManager.constructor | unity/Assets/Scripts/Managers/LevelManager.cs:30-82 | the inspector settings, with no levels and no current level |
| LevelManager.LevelManager.ScanAvailableLevels | unity/Assets/Scripts/Managers/LevelManager.cs:83-130 | the list becomes the non-empty entry names; when auto-selecting a non-empty list, the default becomes the first level if it was unset or unknown, and it becomes current |
| LevelManager.LevelManager.LoadCurrentLevel | unity/Assets/Scripts/Managers/LevelManager.cs:132-157 | a random level when randomizing, else the first level when none is current, else the current one; the level handed on is the current name exactly when it is non-empty |
| TurnManager.GetExecutionOrder | unity/Assets/Scripts/Managers/TurnManager.cs:68-76 | players rank 0, enemies and shooters 1, projectiles 2, bombs 3 and everything else 100, each rank exactly for its kinds |
| TurnManager.OfRank | unity/Assets/Scripts/Managers/TurnManager.cs:53-55 | the units of one rank, in order: exactly those of the list with that rank |
| TurnManager.Insert | unity/Assets/Scripts/Managers/TurnManager.cs:53-55 | stable insertion adds exactly the one unit |
| TurnManager.InsertSorted | unity/Assets/Scripts/Managers/TurnManager.cs:53-55 | inserting into a list sorted by rank keeps it sorted |
| TurnManager.OrderBy | unity/Assets/Scripts/Managers/TurnManager.cs:53-55 | `OrderBy(GetExecutionOrder)` is a permutation of the units sorted by rank |
| TurnManager.InsertOfRank | unity/Assets/Scripts/Managers/TurnManager.cs:53-55 | inserting a unit adds it at the front of its own rank and leaves every other rank alone |
| TurnManager.OrderByIsStable | unity/Assets/Scripts/Managers/TurnManager.cs:53-55 | `OrderBy` is stable: units of equal rank keep their registration order |
| TurnManager.Resets | unity/Assets/Scripts/Managers/TurnManager.cs:46-49 | one `ResetTurn` call per registered unit, in registration order |
| TurnManager.Executes | unity/Assets/Scripts/Managers/TurnManager.cs:59-64 | only `ExecuteTurn` calls, only for listed units that have not been destroyed, and one for every such unit |
| TurnManager.ExecutesSorted | unity/Assets/Scripts/Managers/TurnManager.cs:59-64 | executing a rank-sorted list calls the units in rank order |
| TurnManager.ResetsFirst | unity/Assets/Scripts/Managers/TurnManager.cs:41-65 | every reset call comes before every execute call |
| TurnManager.ExecutedUnits | unity/Assets/Scripts/Managers/TurnManager.cs:53-64 | a unit executes exactly when it is registered and not destroyed |
| TurnManager.ExecutesDistinct | unity/Assets/Scripts/Managers/TurnManager.cs:53-64 | on a list without repeats, each live unit gets one execute call |
| TurnManager.AdvanceTurnSchedule | unity/Assets/Scripts/Managers/TurnManager.cs:41-65 | in one turn every unit is reset before any executes, every registered unit is reset, exactly the live registered units execute, each once when the registered list has no repeats, and they execute players first, then enemies, projectiles, bombs and the rest |
| TurnManager.TurnManager.constructor | unity/Assets/Scripts/Managers/TurnManager.cs:12-13 | no turns and no registered units |
| TurnManager.TurnManager.Register | unity/Assets/Scripts/Managers/TurnManager.cs:31-34 | a unit not yet registered is appended; registering twice changes nothing, so there are never repeats |
| TurnManager.TurnManager.Unregister | unity/Assets/Scripts/Managers/TurnManager.cs:36-39 | the unit is no longer registered and every other unit stays registered |
| TurnManager.TurnManager.AdvanceTurn | unity/Assets/Scripts/Managers/TurnManager.cs:41-65 | the turn count grows by one and the turn's calls are the resets of all units followed by the execution of the live units in rank order |
| TurnManager.TurnManager.ResetAll | unity/Assets/Scripts/Managers/TurnManager.cs:46-49 | the first loop adds one ResetTurn call per unit of the snapshot, in list order |
| TurnManager.TurnManager.ExecuteAll | unity/Assets/Scripts/Managers/TurnManager.cs:58-63 | the second loop adds one ExecuteTurn call per unit of the ordered list, skipping destroyed units |
| EnvManager.WallLayout | unity/Assets/Scripts/ML-Agent/EnvManager.cs:90-131 | every cell is 0, 1 or 2; border and pillar cells (even x and y inside the inner ring) are 2, and only they; a breakable 1 lies inside the border, off the pillars, at a cell the random draw picked and more than 2 from (1, 1) |
| EnvManager.SpawnAreaClear | unity/Assets/Scripts/ML-Agent/EnvManager.cs:116-130 | on a map of at least 4 by 4, the spawn (1, 1) and its two neighbours (2, 1) and (1, 2) are always open |
| EnvManager.SetBorders | unity/Assets/Scripts/ML-Agent/EnvManager.cs:94-105 | the border cells become 2 and every other cell keeps its value |
| EnvManager.SetPillars | unity/Assets/Scripts/ML-Agent/EnvManager.cs:107-114 | the pillar cells become 2 and every other cell keeps its value |
| EnvManager.AddBreakables | unity/Assets/Scripts/ML-Agent/EnvManager.cs:116-130 | an open interior cell the draw picks, more than 2 from the spawn, becomes 1; every other cell keeps its value |
| EnvManager.EnvManager.constructor | unity/Assets/Scripts/ML-Agent/EnvManager.cs:9-24 | the inspector defaults: a 15 by 15 map, 3 enemies, 5 collectibles, no grid and no objects |
| EnvManager.EnvManager.InitializeWallGrid | unity/Assets/Scripts/ML-Agent/EnvManager.cs:90-131 | a fresh W by H grid whose every cell is `Wall` |
| EnvManager.EnvManager.GetWallType | unity/Assets/Scripts/ML-Agent/EnvManager.cs:272-278 | 2 (unbreakable) outside the map, else the cell's value, always in 0..2 |
| EnvManager.EnvManager.DestroyBreakableWall | unity/Assets/Scripts/ML-Agent/EnvManager.cs:366-385 | a breakable cell becomes open and no other cell changes |
| EnvManager.EnvManager.SpawnPlayer | unity/Assets/Scripts/ML-Agent/EnvManager.cs:155-164 | the spawn is (1, 1) |
| EnvManager.EnvManager.ExitDraw | unity/Assets/Scripts/ML-Agent/EnvManager.cs:174-177 | an exit candidate lies on the map, in its upper-right quarter |
| EnvManager.EnvManager.SpawnExit | unity/Assets/Scripts/ML-Agent/EnvManager.cs:166-190 | the exit is the first of at most 10 candidates that is open, every earlier candidate being a wall, and (W - 2, H - 2) when none is |
| EnvManager.EnvManager.SpawnDraw | unity/Assets/Scripts/ML-Agent/EnvManager.cs:199-202 | a spawn draw lies on the map, off the left and bottom borders |
| EnvManager.EnvManager.HasEnemyAt | unity/Assets/Scripts/ML-Agent/EnvManager.cs:280-290 | some enemy stands on the cell |
| EnvManager.EnvManager.SpawnEnemies | unity/Assets/Scripts/ML-Agent/EnvManager.cs:192-218 | at most 50 attempts and at most `enemyCount` new enemies, fewer only when all 50 attempts are spent, each new enemy on an open cell more than 3 from the spawn and not on the exit, earlier enemies kept |
| EnvManager.EnvManager.SpawnCollectibles | unity/Assets/Scripts/ML-Agent/EnvManager.cs:220-247 | the same bound, each new collectible on an open cell more than 2 from the spawn, not on the exit and not on an enemy |
| EnvManager.EnvManager.GenerateLevel | unity/Assets/Scripts/ML-Agent/EnvManager.cs:43-52 | a fresh grid laid out by `Wall`, the player at (1, 1), the exit at the first empty candidate of at most ten (else at (W - 2, H - 2)), at most `enemyCount` enemies and `collectibleCount` collectibles (and at most 50 of each), all on their accepted spots |
| EnvManager.GeneratedPlacement | unity/Assets/Scripts/ML-Agent/EnvManager.cs:43-247 | in a generated level no enemy is on the border, a pillar, the exit or within 3 of the spawn, and no collectible shares a cell with an enemy or the exit |

## Left out

- Houdini API plumbing (nodes, parameters, attribute creation, cooking) is not modelled. The geometry is given as arrays of point kinds and ids with a primitive-sharing adjacency.
- `3_5_GUARANTEE_PATH.py` is not part of this model: its path comes from Houdini's shortest-path node, a foreign call.
- The rendering and preview scripts, the font scripts, `2_6_CLEANUP.py`, `GET_LVL_INFO.py` and the duplicate exporters are not part of this model.
- Random number generators are not modelled. Seeds and the generators' internal state are replaced by raw draw streams, so no property depends on a particular seed.
- Floating point is modelled as exact reals. Python's `round` in the exporter's point-to-cell mapping and the world/grid coordinate conversions (`WorldToGrid`, `GridToWorld`) are left out.
- File and asset I/O is left out: reading and writing INI files, `Resources.LoadAll`, the editor's `AssetDatabase` scan and text assets. Callers pass names and text in.
- `LevelManager.LoadLevel`, `LevelSequencer.LoadCurrentLevel` and `LevelSequencer.RestartCurrentLevel` hand the level to `LevelLoader`, whose instantiation is not part of this model. The model returns the name or entry they would load.
- The events, debug logging, inspector status strings and singleton `Awake` logic are left out, as are `LevelDataService.LoadLevelData` and `GetExpectedTileCounts`, which call into other services.
- `TurnManager`'s `Update` timer is left out. What `ResetTurn` and `ExecuteTurn` do inside each unit is foreign code. A turn is modelled as the list of calls it makes, with the set of destroyed units given as input.
- TurnManager.TurnManager.AdvanceTurn: assumes the set of units does not change during the turn. Registrations made while a turn runs are not modelled.
- TurnManager.TurnManager.AdvanceTurn: the turn counter is an unbounded integer, so 32-bit overflow of `TurnCount` is not modelled.
- EnvManager: `SpawnWalls` and the exit, enemy and collectible prefab instantiation are left out. Enemies and collectibles are kept as grid positions, so `HasEnemyAt` compares positions directly rather than converting transforms with `WorldToGrid`.
- EnvManager: the bomb and explosion bookkeeping (`RegisterBomb`, `AddExplosion` and its coroutine), the float nearest-enemy and nearest-collectible queries, and `GetRemainingEnemyCount` are left out.
- EnvManager.EnvManager.InitializeWallGrid: `Random.value < breakableWallDensity` is a per-cell oracle `place(x, y)`, and each spawn method draws from its own stream. The model does not capture the order in which one shared Unity stream would be consumed.
- EnvManager.EnvManager.SpawnEnemies: states which spots are acceptable and the attempt bounds, not which draw of the stream each enemy came from.
- EnvManager.EnvManager.SpawnCollectibles: states which spots are acceptable and the attempt bounds, not which draw of the stream each collectible came from.
- EnvManager.EnvManager.GenerateLevel: requires a map of at least 2 × 2, and InitializeWallGrid one of at least 1 × 1. The source accepts smaller maps and then throws: a map with one side 0 and the other positive indexes out of range in a border loop (a 0 × 0 map runs no loop there), and a 1-wide map makes `Random.Range(1, 0)` return 1 in `SpawnEnemies`, so `wallGrid[1, y]` is out of range. Those exceptions are not modelled.
- LayeredGrid.LayeredGridService.constructor: takes the sizes as natural numbers. The source's `new LayerMask[width, height]` throws on a negative size, and that exception is not modelled.
- LevelDataService.Sort: `List.Sort` is not stable, so the model promises only a sorted permutation, not the order of entries that compare equal.
- LevelDataService.OrdinalLe: ordinal comparison is modelled on `char` code points. UTF-16 surrogate pairs are not modelled.
- Text: whitespace, letter case and digits are the ASCII and basic Unicode cases. Culture-specific parsing and full Unicode classes are not modelled.
- LevelImporter.GenLine: the float generation parameters (densities, noise, exit distance) are not kept. Only the integer ones are.
- LevelSequencer.LevelSequencer.GetCurrentLevelInfo: states the level-name prefix of the text and the "No level loaded" case. The two numbers come from `Digits`, whose round trip is proved under Text.
- LevelSequencer.LevelSequencer.Valid: requires `currentLevelIndex` and `cyclesCompleted` to be at least 0. Both fields are `[SerializeField]` (LevelSequencer.cs lines 25-29), so the editor could set a negative value. On a negative index, C#'s `%` truncates toward zero and Dafny's does not, so the model does not cover an index set negative in the inspector.
- Text.ParseInt32: its contract states only the Int32 range. The digit round trip is stated separately by `Text.ParseDigits`. Other `NumberStyles` options are not modelled.
- Movement: the level map holds `TileType` values directly, not the data symbols of the source's map. This takes `TileSymbols.DataSymbolToType` and `TypeToDataSymbol`, which `TryMove` calls at MovementHelper.cs lines 18 and 31-32, to be mutual inverses. Their source is not part of this model, so that assumption is not proved here. `TryMove` also requires the mover to stand on the board. The source would throw at MovementHelper.cs line 31 on an off-board mover, but its callers only move actors that are on the board, so the model leaves that exception out.
- ConnectRooms: the order in which Python iterates the `connected` set is a caller-supplied input per round, not CPython's set layout. The greedy-edge and tie-break properties hold for every such order. Which edge CPython itself would pick on a tie is not modelled.
- LevelDataService: `GetAvailableLevels` returns a copy of the list. A Dafny sequence is a value, so the copy is not modelled.

/** my_exporter.py: flattening the Houdini cell dictionary into ASCII rows,
    and the per-level seeds and file names of a multi-level export. */
module Exporter {
  import opened Wrappers
  import opened Text

  /** `grid_chars[x][z]`: the `tile_char` of the primitive at grid cell
      (x, z), None when the attribute could not be read. */
  type GridChars = map<int, map<int, Option<string>>>

  ghost predicate IsMin(s: set<int>, m: int) { m in s && forall y :: y in s ==> m <= y }
  ghost predicate IsMax(s: set<int>, m: int) { m in s && forall y :: y in s ==> y <= m }

  function XKeys(grid: GridChars): set<int> { grid.Keys }

  /** Every z coordinate of every column, the set `min`/`max` range over. */
  function ZKeys(grid: GridChars): set<int> {
    set x, z | x in grid && z in grid[x] :: z
  }

  /** The text one cell contributes to its row: "." for a missing or empty
      character, "?" for a hole in the dictionary, the character otherwise. */
  function Cell(grid: GridChars, x: int, z: int): (c: string)
    ensures !(x in grid && z in grid[x]) ==> c == "?"
    ensures x in grid && z in grid[x] && (grid[x][z] == None || grid[x][z] == Some("")) ==> c == "."
    ensures x in grid && z in grid[x] && grid[x][z].Some? && grid[x][z].value != "" ==> c == grid[x][z].value
  {
    if x in grid && z in grid[x] then
      match grid[x][z]
      case None => "."
      case Some(ch) => if ch == "" then "." else ch
    else "?"
  }

  /** Row z: the cells of x0, x0 + 1, ..., x0 + n - 1 concatenated. */
  function Row(grid: GridChars, z: int, x0: int, n: nat): string
    decreases n
  {
    if n == 0 then "" else Row(grid, z, x0, n - 1) + Cell(grid, x0 + n - 1, z)
  }

  /** Every stored character is a single character or empty. */
  ghost predicate SingleChars(grid: GridChars) {
    forall x, z :: x in grid && z in grid[x] && grid[x][z].Some? ==> |grid[x][z].value| <= 1
  }

  /** With single-character tiles, row z has one character per column, and
      column j is the cell at x = x0 + j. */
  lemma {:induction false} RowShape(grid: GridChars, z: int, x0: int, n: nat)
    requires SingleChars(grid)
    ensures |Row(grid, z, x0, n)| == n
    ensures forall j :: 0 <= j < n ==> [Row(grid, z, x0, n)[j]] == Cell(grid, x0 + j, z)
    decreases n
  {
    if n > 0 {
      RowShape(grid, z, x0, n - 1);
      var c := Cell(grid, x0 + n - 1, z);
      assert |c| == 1;
    }
  }

  /** Python's `min`/`max` over a non-empty set of keys, by one pass. */
  method Bounds(s: set<int>) returns (lo: int, hi: int)
    requires exists x :: x in s
    ensures IsMin(s, lo) && IsMax(s, hi)
  {
    var x0 :| x0 in s;
    lo, hi := x0, x0;
    var rest := s - {x0};
    while exists y :: y in rest
      invariant rest <= s && lo in s && hi in s
      invariant forall y :: y in s - rest ==> lo <= y <= hi
      decreases |rest|
    {
      var y :| y in rest;
      if y < lo { lo := y; }
      if y > hi { hi := y; }
      assert s - (rest - {y}) == (s - rest) + {y};
      rest := rest - {y};
    }
    assert s - rest == s;
  }

  /** `create_ascii_grid`: one row per z from min_z to max_z, each row the
      cells from min_x to max_x, with width and height the two ranges. The
      dictionary and each of its columns must be non-empty: Python's `min`
      raises on an empty sequence. */
  method CreateAsciiGrid(grid: GridChars) returns (rows: seq<string>, width: int, height: int)
    requires exists x :: x in grid
    requires forall x :: x in grid ==> exists z :: z in grid[x]
    ensures exists minX, maxX, minZ, maxZ ::
      IsMin(XKeys(grid), minX) && IsMax(XKeys(grid), maxX) &&
      IsMin(ZKeys(grid), minZ) && IsMax(ZKeys(grid), maxZ) &&
      width == maxX - minX + 1 && height == maxZ - minZ + 1 &&
      |rows| == height &&
      forall k :: 0 <= k < height ==> rows[k] == Row(grid, minZ + k, minX, width)
  {
    var minX, maxX := Bounds(grid.Keys);
    var x0 :| x0 in grid;
    var z0 :| z0 in grid[x0];
    assert z0 in ZKeys(grid);
    var minZ, maxZ := Bounds(ZKeys(grid));
    width := maxX - minX + 1;
    height := maxZ - minZ + 1;
    rows := [];
    var z := minZ;
    while z <= maxZ
      invariant minZ <= z <= maxZ + 1
      invariant |rows| == z - minZ
      invariant forall k :: 0 <= k < |rows| ==> rows[k] == Row(grid, minZ + k, minX, width)
    {
      var row := "";
      var x := minX;
      while x <= maxX
        invariant minX <= x <= maxX + 1
        invariant row == Row(grid, z, minX, x - minX)
      {
        if x in grid && z in grid[x] {
          var ch := grid[x][z];
          if ch.None? || ch.value == "" {
            row := row + ".";
          } else {
            row := row + ch.value;
          }
        } else {
          row := row + "?";
        }
        x := x + 1;
      }
      rows := rows + [row];
      z := z + 1;
    }
    assert |rows| == height;
    assert IsMin(XKeys(grid), minX) && IsMax(XKeys(grid), maxX) &&
      IsMin(ZKeys(grid), minZ) && IsMax(ZKeys(grid), maxZ);
  }

  // ---------------------------------------------------------------- multi-level export

  /** `f"LEVEL_{n:04d}_{level_version}_{format_version}.ini"`. */
  function LevelFileName(n: nat, levelVersion: string, formatVersion: string): (name: string)
    ensures StartsWith(name, "LEVEL_") && EndsWith(name, ".ini")
  {
    var name := "LEVEL_" + ZeroPad(n, 4) + "_" + levelVersion + "_" + formatVersion + ".ini";
    assert name[..6] == "LEVEL_";
    assert name[|name| - 4..] == ".ini";
    name
  }

  /** The seed level n is cooked with. */
  function LevelSeed(baseSeed: int, n: nat): int { baseSeed + (n - 1) }

  /** `export_level_complete`: levels 1 to `levelCount` are cooked with
      consecutive seeds from the base seed; `exported(n, seed)` says whether
      writing level n succeeded. Returns the file names written, in level
      order, and the success and failure counts. */
  method ExportAll(baseSeed: int, levelCount: int, levelVersion: string, formatVersion: string,
                   exported: (nat, int) -> bool)
    returns (files: seq<string>, successful: nat, failed: nat)
    ensures levelCount <= 0 ==> files == [] && successful == 0 && failed == 0
    ensures levelCount > 0 ==> successful + failed == levelCount
    ensures successful == |files|
    ensures files == Exported(baseSeed, if levelCount > 0 then levelCount else 0, levelVersion, formatVersion, exported)
  {
    files, successful, failed := [], 0, 0;
    var n := 1;
    while n <= levelCount
      invariant 1 <= n && (levelCount > 0 ==> n <= levelCount + 1)
      invariant levelCount <= 0 ==> n == 1
      invariant successful + failed == n - 1 && successful == |files|
      invariant files == Exported(baseSeed, n - 1, levelVersion, formatVersion, exported)
    {
      var seed := baseSeed + (n - 1);
      if exported(n, seed) {
        successful := successful + 1;
        files := files + [LevelFileName(n, levelVersion, formatVersion)];
      } else {
        failed := failed + 1;
      }
      n := n + 1;
    }
  }

  /** The names of the levels among 1..m whose export succeeded. */
  function Exported(baseSeed: int, m: nat, levelVersion: string, formatVersion: string,
                    exported: (nat, int) -> bool): (files: seq<string>)
    ensures |files| <= m
    decreases m
  {
    if m == 0 then []
    else
      var pre := Exported(baseSeed, m - 1, levelVersion, formatVersion, exported);
      if exported(m, LevelSeed(baseSeed, m)) then pre + [LevelFileName(m, levelVersion, formatVersion)] else pre
  }

  /** When every level exports, there is one file per level, in order. */
  lemma {:induction false} AllExported(baseSeed: int, m: nat, lv: string, fv: string, exported: (nat, int) -> bool)
    requires forall n: nat, s: int :: exported(n, s)
    ensures var files := Exported(baseSeed, m, lv, fv, exported);
      |files| == m && forall k :: 0 <= k < m ==> files[k] == LevelFileName(k + 1, lv, fv)
    decreases m
  {
    if m > 0 {
      AllExported(baseSeed, m - 1, lv, fv, exported);
    }
  }
}

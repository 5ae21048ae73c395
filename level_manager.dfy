/** `LevelManager`: the list of level names, the current one, and the
    legacy `LevelData` view of an imported level with its grid queries.
    Loading a level through `LevelLoader` is not part of this model. */
module LevelManager {
  import opened Wrappers
  import opened Text
  import opened Rng
  import opened Common
  import LevelImporter

  /** The legacy `CellType`: a cell type keyed by its symbol. */
  datatype CellType = CellType(symbol: char, name: string, passable: bool, prefabIndex: int)

  /** `Dictionary<char, CellType>` as its entries in enumeration order. */
  function LookupSymbol(entries: seq<CellType>, c: char): Option<CellType> {
    if entries == [] then None
    else if entries[0].symbol == c then Some(entries[0])
    else LookupSymbol(entries[1..], c)
  }

  /** `dict[c.symbol] = c`. */
  function PutSymbol(entries: seq<CellType>, c: CellType): (r: seq<CellType>)
    ensures LookupSymbol(r, c.symbol) == Some(c)
    ensures forall s :: s != c.symbol ==> LookupSymbol(r, s) == LookupSymbol(entries, s)
  {
    if entries == [] then [c]
    else if entries[0].symbol == c.symbol then [c] + entries[1..]
    else [entries[0]] + PutSymbol(entries[1..], c)
  }

  function Legacy(h: LevelImporter.CellType): CellType {
    CellType(h.symbol, h.name, h.passable, h.prefabIndex)
  }

  /** The cell-type loop of `ConvertHoudiniToLevelData`: the id-keyed
      entries, in enumeration order, put under their symbols. */
  function ReKey(entries: seq<LevelImporter.CellType>): seq<CellType>
    decreases |entries|
  {
    if entries == [] then []
    else PutSymbol(ReKey(entries[..|entries| - 1]), Legacy(entries[|entries| - 1]))
  }

  /** Re-keying by symbol keeps, for each symbol, the LAST entry that has
      it; a symbol no entry has is not a key. */
  lemma {:induction false} ReKeyLookup(entries: seq<LevelImporter.CellType>, c: char)
    ensures (forall i :: 0 <= i < |entries| ==> entries[i].symbol != c) ==> LookupSymbol(ReKey(entries), c).None?
    ensures forall i :: (0 <= i < |entries| && entries[i].symbol == c &&
      (forall j :: i < j < |entries| ==> entries[j].symbol != c)) ==>
      LookupSymbol(ReKey(entries), c) == Some(Legacy(entries[i]))
    decreases |entries|
  {
    if entries != [] {
      var n := |entries| - 1;
      var pre := entries[..n];
      var last := entries[n];
      assert ReKey(entries) == PutSymbol(ReKey(pre), Legacy(last));
      ReKeyLookup(pre, c);
      if last.symbol == c {
        assert LookupSymbol(ReKey(entries), c) == Some(Legacy(last));
      } else {
        assert LookupSymbol(ReKey(entries), c) == LookupSymbol(ReKey(pre), c);
        forall i | 0 <= i < n && entries[i].symbol == c && (forall j :: i < j < |entries| ==> entries[j].symbol != c)
          ensures LookupSymbol(ReKey(entries), c) == Some(Legacy(entries[i]))
        {
          assert pre[i] == entries[i];
          assert forall j :: i < j < |pre| ==> pre[j] == entries[j];
        }
        assert (forall i :: 0 <= i < |entries| ==> entries[i].symbol != c) ==>
          (forall i :: 0 <= i < |pre| ==> pre[i].symbol != c);
      }
    }
  }

  /** The legacy `LevelData`; a string never set is None (null). */
  class LevelData {
    var levelName: Option<string>
    var version: Option<string>
    var width: int
    var height: int
    var cellTypes: seq<CellType>
    var grid: array2<char>
    var playerSpawn: LevelImporter.Pos
    var exitPosition: LevelImporter.Pos
    var enemyPositions: seq<LevelImporter.Pos>
    var collectiblePositions: seq<LevelImporter.Pos>

    constructor (w: nat, h: nat)
      ensures width == w && height == h && fresh(grid) && grid.Length0 == w && grid.Length1 == h
      ensures levelName == None && version == None && cellTypes == []
      ensures enemyPositions == [] && collectiblePositions == []
    {
      levelName, version := None, None;
      width, height := w, h;
      cellTypes := [];
      grid := new char[w, h];
      playerSpawn, exitPosition := LevelImporter.Pos(0, 0), LevelImporter.Pos(0, 0);
      enemyPositions, collectiblePositions := [], [];
    }

    /** The grid has the level's size. */
    predicate Valid()
      reads this
    {
      grid.Length0 == width && grid.Length1 == height
    }

    predicate IsValidGridPosition(p: LevelImporter.Pos)
      reads this
    {
      0 <= p.x < width && 0 <= p.y < height
    }

    /** `GetCellAtGrid`: a wall outside the grid. */
    function GetCellAtGrid(p: LevelImporter.Pos): (c: char)
      requires Valid()
      reads this, grid
      ensures !IsValidGridPosition(p) ==> c == '#'
      ensures IsValidGridPosition(p) ==> c == grid[p.x, p.y]
    {
      if !IsValidGridPosition(p) then '#' else grid[p.x, p.y]
    }

    /** `IsCellPassable`: the cell's symbol's type decides; an unknown
      symbol is impassable. */
    function IsCellPassable(p: LevelImporter.Pos): (b: bool)
      requires Valid()
      reads this, grid
      ensures b <==> LookupSymbol(cellTypes, GetCellAtGrid(p)).Some? && LookupSymbol(cellTypes, GetCellAtGrid(p)).value.passable
    {
      match LookupSymbol(cellTypes, GetCellAtGrid(p))
      case None => false
      case Some(t) => t.passable
    }
  }

  /** Outside the grid a cell is passable exactly when the level declares
      '#' passable. */
  lemma OutsideIsWall(d: LevelData, p: LevelImporter.Pos)
    requires d.Valid() && !d.IsValidGridPosition(p)
    ensures d.IsCellPassable(p) <==> LookupSymbol(d.cellTypes, '#').Some? && LookupSymbol(d.cellTypes, '#').value.passable
  {
  }

  /** Whether `ConvertHoudiniToLevelData` gets through: a negative size
      makes the array allocation throw, and a missing or too small source
      grid makes the copy loop throw, unless the size is empty. */
  predicate Convertible(h: LevelImporter.HoudiniLevelData)
    reads h
  {
    h.gridWidth >= 0 && h.gridHeight >= 0 &&
    (h.gridWidth > 0 && h.gridHeight > 0 ==>
      h.grid != null && h.grid.Length0 >= h.gridWidth && h.grid.Length1 >= h.gridHeight)
  }

  /** `ConvertHoudiniToLevelData`; null where it would throw. Enemies and
      shooters are merged into one list, coins and health pickups into
      another; cell types are re-keyed by symbol. */
  method ConvertHoudiniToLevelData(h: LevelImporter.HoudiniLevelData) returns (d: LevelData?)
    ensures d == null <==> !Convertible(h)
    ensures d != null ==> fresh(d) && fresh(d.grid) && d.Valid()
    ensures d != null ==> d.levelName == h.levelName && d.version == h.version
    ensures d != null ==> d.width == h.gridWidth && d.height == h.gridHeight
    ensures d != null ==> d.cellTypes == ReKey(h.cellTypes)
    ensures d != null ==> forall x, y :: 0 <= x < d.width && 0 <= y < d.height ==>
      h.grid != null && 0 <= x < h.grid.Length0 && 0 <= y < h.grid.Length1 && d.grid[x, y] == h.grid[x, y]
    ensures d != null ==> d.playerSpawn == h.playerSpawn && d.exitPosition == h.exitPosition
    ensures d != null ==> d.enemyPositions == h.enemyPositions + h.enemyShooterPositions
    ensures d != null ==> d.collectiblePositions == h.coinPositions + h.healthPositions
  {
    if !Convertible(h) {
      return null;
    }
    var w, ht := h.gridWidth, h.gridHeight;
    var cellTypes := ReKeyTypes(h.cellTypes);
    d := new LevelData(w, ht);
    d.levelName := h.levelName;
    d.version := h.version;
    d.cellTypes := cellTypes;
    if w > 0 && ht > 0 {
      CopyGrid(h.grid, d.grid);
    }
    d.playerSpawn := h.playerSpawn;
    d.exitPosition := h.exitPosition;
    d.enemyPositions := h.enemyPositions + h.enemyShooterPositions;
    d.collectiblePositions := h.coinPositions + h.healthPositions;
  }

  /** The loop that adds every legacy cell type under its symbol. */
  method ReKeyTypes(types: seq<LevelImporter.CellType>) returns (r: seq<CellType>)
    ensures r == ReKey(types)
  {
    r := [];
    var i := 0;
    while i < |types|
      invariant 0 <= i <= |types|
      invariant r == ReKey(types[..i])
    {
      assert types[..i + 1][..i] == types[..i];
      r := PutSymbol(r, Legacy(types[i]));
      i := i + 1;
    }
    assert types[..i] == types;
  }

  /** The grid copy loop: every cell of `dst` from the same cell of `src`. */
  method CopyGrid(src: array2<char>, dst: array2<char>)
    requires src != dst && dst.Length0 <= src.Length0 && dst.Length1 <= src.Length1
    modifies dst
    ensures forall x, y :: 0 <= x < dst.Length0 && 0 <= y < dst.Length1 ==> dst[x, y] == src[x, y]
  {
    var x := 0;
    while x < dst.Length0
      invariant 0 <= x <= dst.Length0
      invariant forall i, j :: 0 <= i < x && 0 <= j < dst.Length1 ==> dst[i, j] == src[i, j]
    {
      var y := 0;
      while y < dst.Length1
        invariant 0 <= y <= dst.Length1
        invariant forall i, j :: 0 <= i < x && 0 <= j < dst.Length1 ==> dst[i, j] == src[i, j]
        invariant forall j :: 0 <= j < y ==> dst[x, j] == src[x, j]
      {
        dst[x, y] := src[x, y];
        y := y + 1;
      }
      x := x + 1;
    }
  }

  // ---------------------------------------------------------------- level names

  /** `string.IsNullOrEmpty`. */
  predicate IsNullOrEmpty(s: Option<string>) { s.None? || s.value == "" }

  /** `GetCurrentLevelFileName`: the name with ".txt", added only when it
      is not already there; null for a null or empty name. */
  function GetCurrentLevelFileName(currentLevelName: Option<string>): (r: Option<string>)
    ensures r.None? <==> IsNullOrEmpty(currentLevelName)
    ensures r.Some? ==> EndsWith(r.value, ".txt")
    ensures r.Some? && EndsWith(currentLevelName.value, ".txt") ==> r == currentLevelName
    ensures r.Some? && !EndsWith(currentLevelName.value, ".txt") ==> r.value == currentLevelName.value + ".txt"
  {
    if IsNullOrEmpty(currentLevelName) then None
    else if EndsWith(currentLevelName.value, ".txt") then currentLevelName
    else
      var name := currentLevelName.value + ".txt";
      assert name[|name| - 4..] == ".txt";
      Some(name)
  }

  /** Asking again for the file name of a file name changes nothing. */
  lemma FileNameIdempotent(currentLevelName: Option<string>)
    ensures GetCurrentLevelFileName(GetCurrentLevelFileName(currentLevelName)) == GetCurrentLevelFileName(currentLevelName)
  {
  }

  /** `List.IndexOf`: the first index holding `x`, or -1. */
  function IndexOf(s: seq<string>, x: Option<string>): (i: int)
    ensures -1 <= i < |s|
    ensures i >= 0 ==> Some(s[i]) == x && forall j :: 0 <= j < i ==> Some(s[j]) != x
    ensures i == -1 ==> forall j :: 0 <= j < |s| ==> Some(s[j]) != x
    decreases |s|
  {
    if s == [] then -1
    else if Some(s[0]) == x then 0
    else
      var k := IndexOf(s[1..], x);
      if k < 0 then -1 else k + 1
  }

  /** The name `LoadNextLevel` hands to `LoadLevel`: the one after the
      current name, wrapping to the first; the first as well when the
      current name is not in the list. None: no levels, nothing loads. */
  function NextLevelName(availableLevels: seq<string>, currentLevelName: Option<string>): (r: Option<string>)
    ensures r.None? <==> availableLevels == []
    ensures r.Some? ==> r.value in availableLevels
    ensures availableLevels != [] && IndexOf(availableLevels, currentLevelName) == -1 ==> r == Some(availableLevels[0])
    ensures availableLevels != [] && IndexOf(availableLevels, currentLevelName) >= 0 ==>
      r == Some(availableLevels[(IndexOf(availableLevels, currentLevelName) + 1) % |availableLevels|])
  {
    if availableLevels == [] then None
    else
      var currentIndex := IndexOf(availableLevels, currentLevelName);
      Some(availableLevels[(currentIndex + 1) % |availableLevels|])
  }

  /** The name `LoadRandomLevel` hands to `LoadLevel`: `raw` is the draw
      of `Random.Range(0, count)`. None: no levels, nothing loads. Every
      level is the pick of some draw. */
  function RandomLevelName(availableLevels: seq<string>, raw: nat): (r: Option<string>)
    ensures r.None? <==> availableLevels == []
    ensures r.Some? ==> r.value in availableLevels
    ensures raw < |availableLevels| ==> r == Some(availableLevels[raw])
  {
    if availableLevels == [] then None
    else Some(availableLevels[UnityRange(0, |availableLevels|, raw)])
  }

  /** With distinct names, the level after level i is level i + 1, and
      the level after the last is the first. */
  lemma NextOfDistinct(levels: seq<string>, i: int)
    requires Distinct(levels) && 0 <= i < |levels|
    ensures i + 1 < |levels| ==> NextLevelName(levels, Some(levels[i])) == Some(levels[i + 1])
    ensures i + 1 == |levels| ==> NextLevelName(levels, Some(levels[i])) == Some(levels[0])
  {
    var k := IndexOf(levels, Some(levels[i]));
    assert Some(levels[i]) == Some(levels[i]);
    assert k >= 0;
    assert levels[k] == levels[i];
    assert !(k < i) && !(i < k);
    var n := |levels|;
    if i + 1 < n {
      assert (i + 1) % n == i + 1;
    } else {
      assert (i + 1) % n == 0;
    }
  }

  /** The names `ScanAvailableLevels` keeps: the non-empty ones, in order. */
  function NonEmpty(names: seq<string>): (r: seq<string>)
    ensures forall n :: n in r <==> n in names && n != ""
    decreases |names|
  {
    if names == [] then []
    else
      var pre := NonEmpty(names[..|names| - 1]);
      assert names == names[..|names| - 1] + [names[|names| - 1]];
      if names[|names| - 1] != "" then pre + [names[|names| - 1]] else pre
  }

  class LevelManager {
    var defaultLevelName: Option<string>
    var randomizeLevel: bool
    var autoSelectFirstLevel: bool
    var availableLevels: seq<string>
    var currentLevelName: Option<string>

    constructor (defaultName: Option<string>, randomize: bool, autoSelect: bool)
      ensures defaultLevelName == defaultName && randomizeLevel == randomize && autoSelectFirstLevel == autoSelect
      ensures availableLevels == [] && currentLevelName == None
    {
      defaultLevelName := defaultName;
      randomizeLevel := randomize;
      autoSelectFirstLevel := autoSelect;
      availableLevels := [];
      currentLevelName := None;
    }

    /** `ScanAvailableLevels` given the file names of `LevelLoader`'s
      entries ("" for a null name): keeps the non-empty names and, when
      auto-selecting, makes the default (or the first level, if the
      default is unset or unknown) the current level. */
    method ScanAvailableLevels(entryNames: seq<string>)
      modifies this`availableLevels, this`defaultLevelName, this`currentLevelName
      ensures availableLevels == NonEmpty(entryNames)
      ensures !(autoSelectFirstLevel && |availableLevels| > 0) ==>
        defaultLevelName == old(defaultLevelName) && currentLevelName == old(currentLevelName)
      ensures autoSelectFirstLevel && |availableLevels| > 0 ==>
        currentLevelName == defaultLevelName && defaultLevelName.Some? && defaultLevelName.value in availableLevels
      ensures autoSelectFirstLevel && |availableLevels| > 0 ==>
        defaultLevelName == if IsNullOrEmpty(old(defaultLevelName)) || old(defaultLevelName).value !in availableLevels
          then Some(availableLevels[0]) else old(defaultLevelName)
    {
      availableLevels := [];
      var i := 0;
      while i < |entryNames|
        modifies this`availableLevels
        invariant 0 <= i <= |entryNames|
        invariant availableLevels == NonEmpty(entryNames[..i])
      {
        assert entryNames[..i + 1][..i] == entryNames[..i];
        if entryNames[i] != "" {
          availableLevels := availableLevels + [entryNames[i]];
        }
        i := i + 1;
      }
      assert entryNames[..i] == entryNames;
      if autoSelectFirstLevel && |availableLevels| > 0 {
        if IsNullOrEmpty(defaultLevelName) || defaultLevelName.value !in availableLevels {
          defaultLevelName := Some(availableLevels[0]);
        }
        currentLevelName := defaultLevelName;
      }
    }

    /** `LoadCurrentLevel`'s choice of level: a random one (`raw` is the
      draw of `Random.Range(0, count)`) when randomizing, else the current
      one, else the first. Returns the name handed to `LoadLevel`, None
      when there is none. */
    method LoadCurrentLevel(raw: nat) returns (toLoad: Option<string>)
      modifies this`currentLevelName
      ensures randomizeLevel && |availableLevels| > 0 ==>
        currentLevelName == Some(availableLevels[UnityRange(0, |availableLevels|, raw)])
      ensures !(randomizeLevel && |availableLevels| > 0) && IsNullOrEmpty(old(currentLevelName)) && |availableLevels| > 0 ==>
        currentLevelName == Some(availableLevels[0])
      ensures !(randomizeLevel && |availableLevels| > 0) && !(IsNullOrEmpty(old(currentLevelName)) && |availableLevels| > 0) ==>
        currentLevelName == old(currentLevelName)
      ensures toLoad.Some? <==> !IsNullOrEmpty(currentLevelName)
      ensures toLoad.Some? ==> toLoad == currentLevelName
    {
      if randomizeLevel && |availableLevels| > 0 {
        currentLevelName := Some(availableLevels[UnityRange(0, |availableLevels|, raw)]);
      } else if IsNullOrEmpty(currentLevelName) && |availableLevels| > 0 {
        currentLevelName := Some(availableLevels[0]);
      }
      if !IsNullOrEmpty(currentLevelName) {
        return currentLevelName;
      }
      return None;
    }
  }
}

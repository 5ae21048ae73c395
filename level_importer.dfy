/** `HoudiniLevelImporter`: reads the INI level files the exporter writes.
    A line-by-line section machine fills the cell-type dictionary, the level
    configuration and the integer generation parameters and collects the
    ASCII grid lines; the grid is then laid into a 2-D char array and the
    special cells are listed. Any exception makes the import return null. */
module LevelImporter {
  import opened Wrappers
  import opened Text
  import opened Common

  /** `Vector2Int`. */
  datatype Pos = Pos(x: int, y: int)

  /** `HoudiniCellType`. */
  datatype CellType = CellType(id: int, symbol: char, name: string, passable: bool, prefabIndex: int)

  // ---------------------------------------------------------------- the cell-type dictionary

  /** `Dictionary<int, HoudiniCellType>` as its entries in enumeration
      order: a new id goes to the end, a known id is overwritten in place. */
  function Lookup(entries: seq<CellType>, id: int): Option<CellType> {
    if entries == [] then None
    else if entries[0].id == id then Some(entries[0])
    else Lookup(entries[1..], id)
  }

  predicate UniqueIds(entries: seq<CellType>) {
    forall i, j :: 0 <= i < j < |entries| ==> entries[i].id != entries[j].id
  }

  /** `dict[c.id] = c`. */
  function Put(entries: seq<CellType>, c: CellType): (r: seq<CellType>)
    ensures Lookup(r, c.id) == Some(c)
    ensures forall id :: id != c.id ==> Lookup(r, id) == Lookup(entries, id)
    ensures Lookup(entries, c.id).None? ==> r == entries + [c]
    ensures Lookup(entries, c.id).Some? ==> |r| == |entries|
    ensures UniqueIds(entries) ==> UniqueIds(r)
  {
    if entries == [] then [c]
    else if entries[0].id == c.id then
      assert UniqueIds(entries) ==> Lookup(entries[1..], c.id).None? by {
        if UniqueIds(entries) { LookupAbsent(entries[1..], c.id); }
      }
      [c] + entries[1..]
    else
      var rest := Put(entries[1..], c);
      assert UniqueIds(entries) ==> UniqueIds([entries[0]] + rest) by {
        if UniqueIds(entries) { PutUnique(entries, c, rest); }
      }
      [entries[0]] + rest
  }

  /** Putting past a head with another id keeps the ids unique: the head's
      id is in neither the old tail nor the new one. */
  lemma PutUnique(entries: seq<CellType>, c: CellType, rest: seq<CellType>)
    requires entries != [] && entries[0].id != c.id && UniqueIds(entries)
    requires UniqueIds(rest) && Lookup(rest, c.id) == Some(c)
    requires forall id :: id != c.id ==> Lookup(rest, id) == Lookup(entries[1..], id)
    ensures UniqueIds([entries[0]] + rest)
  {
    var tail := entries[1..];
    forall i | 0 <= i < |tail| ensures tail[i].id != entries[0].id {
      assert tail[i] == entries[i + 1];
    }
    forall j | 0 <= j < |rest| ensures rest[j].id != entries[0].id {
      LookupFinds(rest, j);
      if rest[j].id == entries[0].id {
        LookupAbsent(tail, entries[0].id);
      }
    }
    var r := [entries[0]] + rest;
    forall i, j | 0 <= i < j < |r| ensures r[i].id != r[j].id {
      assert r[j] == rest[j - 1];
      if i > 0 { assert r[i] == rest[i - 1]; }
    }
  }

  /** A lookup finds the entry at the first index holding the id. */
  lemma {:induction false} LookupFinds(entries: seq<CellType>, j: int)
    requires 0 <= j < |entries| && UniqueIds(entries)
    ensures Lookup(entries, entries[j].id) == Some(entries[j])
  {
    if j > 0 {
      assert entries[1..][j - 1] == entries[j];
      LookupFinds(entries[1..], j - 1);
    }
  }

  /** A lookup fails exactly when no entry holds the id. */
  lemma {:induction false} LookupAbsent(entries: seq<CellType>, id: int)
    requires forall i :: 0 <= i < |entries| ==> entries[i].id != id
    ensures Lookup(entries, id).None?
  {
    if entries != [] {
      LookupAbsent(entries[1..], id);
    }
  }

  // ---------------------------------------------------------------- one line of each section

  /** What one line does to the dictionary: nothing, an entry, or an
      exception that aborts the import. */
  datatype Outcome<T> = Skip | Take(value: T) | Throw

  /** A cell-type line `ParseCellType` does not ignore: exactly one '=', an
      Int32 before it and exactly four comma-separated fields after it. */
  predicate CellShaped(line: string) {
    |Split(line, '=')| == 2 && ParseInt32(Split(line, '=')[0]).Some? &&
    |Split(Split(line, '=')[1], ',')| == 4
  }

  /** The comma-separated fields after the '='. */
  function CellFields(line: string): seq<string>
    requires |Split(line, '=')| == 2
  {
    Split(Split(line, '=')[1], ',')
  }

  /** `ParseCellType`: `ID=Symbol,Name,Passable,Prefab_Index`. A line
      without exactly one '=', with a non-integer id or without exactly
      four fields is ignored; a passable field that `bool.Parse` rejects or
      a prefab index that `int.Parse` rejects throws. An empty symbol field
      reads as ' '. */
  function CellTypeLine(line: string): (r: Outcome<CellType>)
    ensures r.Skip? <==> !CellShaped(line)
    ensures r.Throw? <==> (CellShaped(line) &&
      (ParseBool(CellFields(line)[2]).None? || ParseInt32(CellFields(line)[3]).None?))
    ensures r.Take? ==> (CellShaped(line) &&
      ParseInt32(Split(line, '=')[0]) == Some(r.value.id) &&
      r.value.symbol == (if |CellFields(line)[0]| > 0 then CellFields(line)[0][0] else ' ') &&
      r.value.name == CellFields(line)[1] &&
      ParseBool(CellFields(line)[2]) == Some(r.value.passable) &&
      ParseInt32(CellFields(line)[3]) == Some(r.value.prefabIndex))
  {
    var parts := Split(line, '=');
    if |parts| != 2 then Skip
    else match ParseInt32(parts[0])
      case None => Skip
      case Some(id) =>
        var values := Split(parts[1], ',');
        if |values| != 4 then Skip
        else
          var symbol := if |values[0]| > 0 then values[0][0] else ' ';
          match ParseBool(values[2])
          case None => Throw
          case Some(passable) =>
            match ParseInt32(values[3])
            case None => Throw
            case Some(prefab) => Take(CellType(id, symbol, values[1], passable, prefab))
  }

  /** The `LEVEL_CONFIG` fields; a string never set is None (null). */
  datatype Config = Config(version: Option<string>, formatVersion: Option<string>,
                           levelName: Option<string>, levelId: Option<string>,
                           gridWidth: int, gridHeight: int)

  const NoConfig := Config(None, None, None, None, 0, 0)

  /** A `KEY=VALUE` line whose trimmed value is an Int32: the trimmed key
      and the value. */
  function IntEntry(line: string): (e: Option<(string, int)>)
    ensures e.Some? ==> |Split(line, '=')| == 2 && e.value.0 == Trim(Split(line, '=')[0])
    ensures e.Some? <==> |Split(line, '=')| == 2 && ParseInt32(Trim(Split(line, '=')[1])).Some?
  {
    var parts := Split(line, '=');
    if |parts| != 2 then None
    else match ParseInt32(Trim(parts[1]))
      case None => None
      case Some(n) => Some((Trim(parts[0]), n))
  }

  /** The six keys `ParseLevelConfig` reads. */
  predicate ConfigKey(key: string) {
    key == "VERSION" || key == "FORMAT_VERSION" || key == "LEVEL_NAME" || key == "LEVEL_ID" ||
    key == "GRID_WIDTH" || key == "GRID_HEIGHT"
  }

  /** `ParseLevelConfig`: `KEY=VALUE` with both sides trimmed. The grid
      sizes go through `int.Parse`, whose failure throws (None here); an
      unknown key or a line without exactly one '=' changes nothing. */
  function ConfigLine(line: string, cfg: Config): (r: Option<Config>)
    ensures r.None? <==> (|Split(line, '=')| == 2 && IntEntry(line).None? &&
                            (Trim(Split(line, '=')[0]) == "GRID_WIDTH" || Trim(Split(line, '=')[0]) == "GRID_HEIGHT"))
    ensures |Split(line, '=')| == 2 && Trim(Split(line, '=')[0]) == "VERSION" ==>
      r == Some(cfg.(version := Some(Trim(Split(line, '=')[1]))))
    ensures |Split(line, '=')| == 2 && Trim(Split(line, '=')[0]) == "FORMAT_VERSION" ==>
      r == Some(cfg.(formatVersion := Some(Trim(Split(line, '=')[1]))))
    ensures |Split(line, '=')| == 2 && Trim(Split(line, '=')[0]) == "LEVEL_NAME" ==>
      r == Some(cfg.(levelName := Some(Trim(Split(line, '=')[1]))))
    ensures |Split(line, '=')| == 2 && Trim(Split(line, '=')[0]) == "LEVEL_ID" ==>
      r == Some(cfg.(levelId := Some(Trim(Split(line, '=')[1]))))
    ensures IntEntry(line).Some? && IntEntry(line).value.0 == "GRID_WIDTH" ==> r == Some(cfg.(gridWidth := IntEntry(line).value.1))
    ensures IntEntry(line).Some? && IntEntry(line).value.0 == "GRID_HEIGHT" ==> r == Some(cfg.(gridHeight := IntEntry(line).value.1))
    ensures |Split(line, '=')| != 2 || !ConfigKey(Trim(Split(line, '=')[0])) ==> r == Some(cfg)
  {
    var parts := Split(line, '=');
    if |parts| != 2 then Some(cfg)
    else
      var key := Trim(parts[0]);
      var value := Trim(parts[1]);
      if key == "VERSION" then Some(cfg.(version := Some(value)))
      else if key == "FORMAT_VERSION" then Some(cfg.(formatVersion := Some(value)))
      else if key == "LEVEL_NAME" then Some(cfg.(levelName := Some(value)))
      else if key == "LEVEL_ID" then Some(cfg.(levelId := Some(value)))
      else if key == "GRID_WIDTH" then
        match ParseInt32(value)
        case None => None
        case Some(n) => Some(cfg.(gridWidth := n))
      else if key == "GRID_HEIGHT" then
        match ParseInt32(value)
        case None => None
        case Some(n) => Some(cfg.(gridHeight := n))
      else Some(cfg)
  }

  /** A configuration field changes only through a line of its own key,
      and then to that line's trimmed value. */
  lemma ConfigLineOwnKey(line: string, cfg: Config)
    ensures var r := ConfigLine(line, cfg);
      (r.Some? && r.value.gridWidth != cfg.gridWidth ==> IntEntry(line) == Some(("GRID_WIDTH", r.value.gridWidth))) &&
      (r.Some? && r.value.gridHeight != cfg.gridHeight ==> IntEntry(line) == Some(("GRID_HEIGHT", r.value.gridHeight))) &&
      (r.Some? && r.value.levelName != cfg.levelName ==>
        |Split(line, '=')| == 2 && Trim(Split(line, '=')[0]) == "LEVEL_NAME" && r.value.levelName == Some(Trim(Split(line, '=')[1]))) &&
      (r.Some? && r.value.levelId != cfg.levelId ==>
        |Split(line, '=')| == 2 && Trim(Split(line, '=')[0]) == "LEVEL_ID" && r.value.levelId == Some(Trim(Split(line, '=')[1]))) &&
      (r.Some? && r.value.version != cfg.version ==>
        |Split(line, '=')| == 2 && Trim(Split(line, '=')[0]) == "VERSION" && r.value.version == Some(Trim(Split(line, '=')[1]))) &&
      (r.Some? && r.value.formatVersion != cfg.formatVersion ==>
        |Split(line, '=')| == 2 && Trim(Split(line, '=')[0]) == "FORMAT_VERSION" && r.value.formatVersion == Some(Trim(Split(line, '=')[1])))
  {
  }

  /** The integer `GENERATION_PARAMS`. */
  datatype GenParams = GenParams(houdiniSeed: int, roomCount: int, minRoomSize: int, maxRoomSize: int)

  const NoGenParams := GenParams(0, 0, 0, 0)

  /** `ParseGenerationParams` on an integer key: a value that does not
      parse is caught there, so it leaves the parameter as it was. At most
      the one parameter the key names changes, and it gets the value. */
  function GenLine(line: string, gen: GenParams): (r: GenParams)
    ensures IntEntry(line).None? ==> r == gen
    ensures r.houdiniSeed != gen.houdiniSeed ==> IntEntry(line) == Some(("HOUDINI_SEED", r.houdiniSeed))
    ensures r.roomCount != gen.roomCount ==> IntEntry(line) == Some(("ROOM_COUNT", r.roomCount))
    ensures r.minRoomSize != gen.minRoomSize ==> IntEntry(line) == Some(("MIN_ROOM_SIZE", r.minRoomSize))
    ensures r.maxRoomSize != gen.maxRoomSize ==> IntEntry(line) == Some(("MAX_ROOM_SIZE", r.maxRoomSize))
    ensures IntEntry(line).Some? && IntEntry(line).value.0 == "HOUDINI_SEED" ==> r == gen.(houdiniSeed := IntEntry(line).value.1)
    ensures IntEntry(line).Some? && IntEntry(line).value.0 == "ROOM_COUNT" ==> r == gen.(roomCount := IntEntry(line).value.1)
    ensures IntEntry(line).Some? && IntEntry(line).value.0 == "MIN_ROOM_SIZE" ==> r == gen.(minRoomSize := IntEntry(line).value.1)
    ensures IntEntry(line).Some? && IntEntry(line).value.0 == "MAX_ROOM_SIZE" ==> r == gen.(maxRoomSize := IntEntry(line).value.1)
  {
    var parts := Split(line, '=');
    if |parts| != 2 then gen
    else
      var key := Trim(parts[0]);
      match ParseInt32(Trim(parts[1]))
      case None => gen
      case Some(n) =>
        if key == "HOUDINI_SEED" then gen.(houdiniSeed := n)
        else if key == "ROOM_COUNT" then gen.(roomCount := n)
        else if key == "MIN_ROOM_SIZE" then gen.(minRoomSize := n)
        else if key == "MAX_ROOM_SIZE" then gen.(maxRoomSize := n)
        else gen
  }

  // ---------------------------------------------------------------- the section machine

  /** `line.Trim().Replace("\r", "")`. */
  function Clean(line: string): string { Remove(Trim(line), '\r') }

  predicate IsHeader(t: string) { StartsWith(t, "[") && EndsWith(t, "]") }

  /** The text between the brackets of a section header. */
  function HeaderName(t: string): (name: string)
    requires IsHeader(t)
    ensures |name| == |t| - 2 && "[" + name + "]" == t
  {
    assert t[0] == '[' && t[|t| - 1] == ']';
    var name := t[1..|t| - 1];
    assert t == [t[0]] + name + [t[|t| - 1]];
    name
  }

  /** What the import loop carries from line to line. */
  datatype Scan = Scan(section: string, cells: seq<CellType>, cfg: Config, gen: GenParams,
                       gridLines: seq<string>)

  const Start := Scan("", [], NoConfig, NoGenParams, [])

  /** One raw line of the file: blank lines are skipped outside
      `GRID_ASCII`, a `[NAME]` line switches the section, and any other
      line goes to the parser of the current section. None: the line threw. */
  function Step(st: Scan, raw: string): Option<Scan> {
    var t := Clean(raw);
    if st.section != "GRID_ASCII" && t == "" then Some(st)
    else if IsHeader(t) then Some(st.(section := HeaderName(t)))
    else Dispatch(st, t)
  }

  /** A cleaned line that is neither skipped nor a header. */
  function Dispatch(st: Scan, t: string): Option<Scan> {
    if st.section == "CELL_TYPES" then CellStep(st, t)
    else if st.section == "LEVEL_CONFIG" then ConfigStep(st, t)
    else if st.section == "GENERATION_PARAMS" then Some(st.(gen := GenLine(t, st.gen)))
    else if st.section == "GRID_ASCII" then Some(st.(gridLines := st.gridLines + [t]))
    else Some(st)
  }

  function CellStep(st: Scan, t: string): Option<Scan> {
    match CellTypeLine(t)
    case Skip => Some(st)
    case Throw => None
    case Take(c) => Some(st.(cells := Put(st.cells, c)))
  }

  function ConfigStep(st: Scan, t: string): Option<Scan> {
    match ConfigLine(t, st.cfg)
    case None => None
    case Some(cfg) => Some(st.(cfg := cfg))
  }

  /** The loop over the lines, stopped by the first line that throws. */
  function Run(lines: seq<string>): Option<Scan>
    decreases |lines|
  {
    if lines == [] then Some(Start)
    else
      match Run(lines[..|lines| - 1])
      case None => None
      case Some(st) => Step(st, lines[|lines| - 1])
  }

  /** Once a line has thrown, the lines after it change nothing. */
  lemma {:induction false} RunStops(lines: seq<string>, k: nat)
    requires k <= |lines| && Run(lines[..k]).None?
    ensures Run(lines).None?
    decreases |lines| - k
  {
    if k < |lines| {
      assert lines[..k + 1][..k] == lines[..k];
      RunStops(lines, k + 1);
    } else {
      assert lines[..k] == lines;
    }
  }

  // ---------------------------------------------------------------- the grid

  /** `ParseGrid`'s size: the configured one, or, when either configured
      side is 0, the number of grid lines by the first line's length. */
  function GridSize(cfg: Config, gridLines: seq<string>): (wh: (int, int))
    requires |gridLines| > 0
    ensures cfg.gridWidth != 0 && cfg.gridHeight != 0 ==> wh == (cfg.gridWidth, cfg.gridHeight)
    ensures cfg.gridWidth == 0 || cfg.gridHeight == 0 ==> wh == (|gridLines[0]|, |gridLines|)
  {
    if cfg.gridWidth == 0 || cfg.gridHeight == 0 then (|gridLines[0]|, |gridLines|)
    else (cfg.gridWidth, cfg.gridHeight)
  }

  /** Cell (x, y) of the grid: character x of grid line y, or '.' where
      no line reaches. */
  function GridCell(gridLines: seq<string>, x: int, y: int): (c: char)
    ensures 0 <= y < |gridLines| && 0 <= x < |gridLines[y]| ==> c == gridLines[y][x]
    ensures !(0 <= y < |gridLines| && 0 <= x < |gridLines[y]|) ==> c == '.'
  {
    if 0 <= y < |gridLines| && 0 <= x < |gridLines[y]| then gridLines[y][x] else '.'
  }

  /** The special cells `ExtractSpecialPositions` collects. */
  datatype Special = Special(spawn: Pos, exit: Pos, enemies: seq<Pos>, shooters: seq<Pos>,
                             coins: seq<Pos>, healths: seq<Pos>, breakables: seq<Pos>)

  const NoSpecial := Special(Pos(0, 0), Pos(0, 0), [], [], [], [], [])

  /** One cell of the scan: 'P' and 'X' overwrite the spawn and the exit,
      'E', 'S', 'C', 'H' and 'B' append to their lists. */
  function Visit(sp: Special, c: char, p: Pos): Special {
    match c
    case 'P' => sp.(spawn := p)
    case 'X' => sp.(exit := p)
    case 'E' => sp.(enemies := sp.enemies + [p])
    case 'S' => sp.(shooters := sp.shooters + [p])
    case 'C' => sp.(coins := sp.coins + [p])
    case 'H' => sp.(healths := sp.healths + [p])
    case 'B' => sp.(breakables := sp.breakables + [p])
    case _ => sp
  }

  /** Cells (0, y) to (x - 1, y) visited after `sp`. */
  function ScanRow(g: seq<string>, y: int, x: int, sp: Special): Special
    decreases x
  {
    if x <= 0 then sp else Visit(ScanRow(g, y, x - 1, sp), GridCell(g, x - 1, y), Pos(x - 1, y))
  }

  /** Rows 0 to h - 1 of a grid of width w visited after `sp`, each row
      left to right. */
  function ScanRows(g: seq<string>, w: int, h: int, sp: Special): Special
    decreases h
  {
    if h <= 0 then sp else ScanRow(g, h - 1, w, ScanRows(g, w, h - 1, sp))
  }

  /** The list a list symbol appends to. */
  function Cells(sp: Special, c: char): seq<Pos> {
    match c
    case 'E' => sp.enemies
    case 'S' => sp.shooters
    case 'C' => sp.coins
    case 'H' => sp.healths
    case 'B' => sp.breakables
    case _ => []
  }

  /** The position a marker symbol overwrites. */
  function Marker(sp: Special, c: char): Pos {
    if c == 'X' then sp.exit else sp.spawn
  }

  predicate IsList(c: char) { c == 'E' || c == 'S' || c == 'C' || c == 'H' || c == 'B' }

  predicate IsMarker(c: char) { c == 'P' || c == 'X' }

  /** Row-major order: the order the scan visits cells in. */
  predicate Before(p: Pos, q: Pos) { p.y < q.y || (p.y == q.y && p.x < q.x) }

  predicate Ascending(s: seq<Pos>) {
    forall i, j :: 0 <= i < j < |s| ==> Before(s[i], s[j])
  }

  predicate InGrid(w: int, h: int, p: Pos) { 0 <= p.x < w && 0 <= p.y < h }

  /** What one visit does to a list. */
  lemma VisitCells(sp: Special, cell: char, p: Pos, c: char)
    requires IsList(c)
    ensures Cells(Visit(sp, cell, p), c) == if cell == c then Cells(sp, c) + [p] else Cells(sp, c)
  {
  }

  lemma {:induction false} RowCells(g: seq<string>, y: int, x: int, sp: Special, c: char)
    requires IsList(c)
    ensures forall q :: q in Cells(ScanRow(g, y, x, sp), c) <==>
      (q in Cells(sp, c) || (q.y == y && 0 <= q.x < x && GridCell(g, q.x, y) == c))
    decreases x
  {
    if x > 0 {
      RowCells(g, y, x - 1, sp, c);
      VisitCells(ScanRow(g, y, x - 1, sp), GridCell(g, x - 1, y), Pos(x - 1, y), c);
    }
  }

  lemma {:induction false} RowAscending(g: seq<string>, y: int, x: int, sp: Special, c: char)
    requires IsList(c) && Ascending(Cells(sp, c))
    requires forall q :: q in Cells(sp, c) ==> q.y < y
    ensures Ascending(Cells(ScanRow(g, y, x, sp), c))
    ensures forall q :: q in Cells(ScanRow(g, y, x, sp), c) ==> Before(q, Pos(x, y))
    decreases x
  {
    if x > 0 {
      RowAscending(g, y, x - 1, sp, c);
      var prev := Cells(ScanRow(g, y, x - 1, sp), c);
      VisitCells(ScanRow(g, y, x - 1, sp), GridCell(g, x - 1, y), Pos(x - 1, y), c);
      if GridCell(g, x - 1, y) == c {
        AscendingSnoc(prev, Pos(x - 1, y));
      }
    }
  }

  /** A position after every listed one extends an ascending list. */
  lemma AscendingSnoc(prev: seq<Pos>, p: Pos)
    requires Ascending(prev) && forall q :: q in prev ==> Before(q, p)
    ensures Ascending(prev + [p])
  {
    var r := prev + [p];
    forall i, j | 0 <= i < j < |r| ensures Before(r[i], r[j]) {
      assert r[i] == prev[i] && prev[i] in prev;
      if j < |prev| { assert r[j] == prev[j]; }
    }
  }

  lemma {:induction false} RowsAscending(g: seq<string>, w: int, h: int, c: char)
    requires IsList(c)
    ensures Ascending(Cells(ScanRows(g, w, h, NoSpecial), c))
    ensures forall q :: q in Cells(ScanRows(g, w, h, NoSpecial), c) ==> q.y < h
    decreases h
  {
    if h > 0 {
      RowsAscending(g, w, h - 1, c);
      RowAscending(g, h - 1, w, ScanRows(g, w, h - 1, NoSpecial), c);
    }
  }

  lemma {:induction false} RowsCells(g: seq<string>, w: int, h: int, c: char)
    requires IsList(c) && w >= 0
    ensures forall q :: q in Cells(ScanRows(g, w, h, NoSpecial), c) <==>
      (InGrid(w, h, q) && GridCell(g, q.x, q.y) == c)
    decreases h
  {
    if h > 0 {
      RowsCells(g, w, h - 1, c);
      RowCells(g, h - 1, w, ScanRows(g, w, h - 1, NoSpecial), c);
    }
  }

  /** Every list the scan fills holds exactly the cells showing its symbol,
      in row-major order: row by row from y = 0, each row from x = 0. */
  lemma ScanLists(g: seq<string>, w: int, h: int, c: char)
    requires IsList(c) && w >= 0
    ensures Ascending(Cells(ScanRows(g, w, h, NoSpecial), c))
    ensures forall q :: q in Cells(ScanRows(g, w, h, NoSpecial), c) <==>
      (InGrid(w, h, q) && GridCell(g, q.x, q.y) == c)
  {
    RowsCells(g, w, h, c);
    RowsAscending(g, w, h, c);
  }

  /** A list symbol never moves a marker, and a marker never touches a list. */
  lemma {:induction false} RowMarker(g: seq<string>, y: int, x: int, sp: Special, c: char)
    requires IsMarker(c)
    ensures var m := Marker(ScanRow(g, y, x, sp), c);
      (m == Marker(sp, c) && forall i :: 0 <= i < x ==> GridCell(g, i, y) != c) ||
      (m.y == y && 0 <= m.x < x && GridCell(g, m.x, y) == c &&
       forall i :: m.x < i < x ==> GridCell(g, i, y) != c)
    decreases x
  {
    if x > 0 {
      RowMarker(g, y, x - 1, sp, c);
    }
  }

  lemma {:induction false} RowsMarker(g: seq<string>, w: int, h: int, c: char)
    requires IsMarker(c) && w >= 0
    ensures var m := Marker(ScanRows(g, w, h, NoSpecial), c);
      (m == Pos(0, 0) && forall p :: InGrid(w, h, p) ==> GridCell(g, p.x, p.y) != c) ||
      (InGrid(w, h, m) && GridCell(g, m.x, m.y) == c &&
       forall p :: InGrid(w, h, p) && Before(m, p) ==> GridCell(g, p.x, p.y) != c)
    decreases h
  {
    if h > 0 {
      RowsMarker(g, w, h - 1, c);
      RowMarker(g, h - 1, w, ScanRows(g, w, h - 1, NoSpecial), c);
    }
  }

  /** The spawn and the exit are the LAST cell (row-major) showing 'P'
      resp. 'X'; where no cell shows it they stay at (0, 0). */
  lemma ScanMarkers(g: seq<string>, w: int, h: int, c: char)
    requires IsMarker(c) && w >= 0
    ensures (forall p :: InGrid(w, h, p) ==> GridCell(g, p.x, p.y) != c) ==>
      Marker(ScanRows(g, w, h, NoSpecial), c) == Pos(0, 0)
    ensures (exists p :: InGrid(w, h, p) && GridCell(g, p.x, p.y) == c) ==>
      var m := Marker(ScanRows(g, w, h, NoSpecial), c);
      InGrid(w, h, m) && GridCell(g, m.x, m.y) == c &&
      forall p :: InGrid(w, h, p) && Before(m, p) ==> GridCell(g, p.x, p.y) != c
  {
    RowsMarker(g, w, h, c);
  }

  /** The grid of the importer's built-in sample level: the player at
      (1, 1), one coin at (3, 1), one enemy at (2, 3), no exit. */
  lemma SampleGrid()
    ensures ScanRows(["#####", "#P.C#", "#...#", "#.E.#", "#####"], 5, 5, NoSpecial) ==
      Special(Pos(1, 1), Pos(0, 0), [Pos(2, 3)], [], [Pos(3, 1)], [], [])
  {
  }

  // ---------------------------------------------------------------- the whole import

  /** The import: None when a line threw or the grid size is negative (the
      array allocation throws); otherwise the scan state, whose grid lines,
      if any, are laid out and scanned. */
  function Import(text: string): Option<Scan> {
    match Run(Split(text, '\n'))
    case None => None
    case Some(st) =>
      if |st.gridLines| > 0 && (GridSize(st.cfg, st.gridLines).0 < 0 || GridSize(st.cfg, st.gridLines).1 < 0)
      then None
      else Some(st)
  }

  /** `HoudiniLevelData`; a string field never set is None (null). The
      float generation parameters are not part of this model. */
  class HoudiniLevelData {
    var levelName: Option<string>
    var levelId: Option<string>
    var version: Option<string>
    var formatVersion: Option<string>
    var gridWidth: int
    var gridHeight: int
    var houdiniSeed: int
    var roomCount: int
    var minRoomSize: int
    var maxRoomSize: int
    var cellTypes: seq<CellType>
    var grid: array2?<char>
    var playerSpawn: Pos
    var exitPosition: Pos
    var enemyPositions: seq<Pos>
    var enemyShooterPositions: seq<Pos>
    var coinPositions: seq<Pos>
    var healthPositions: seq<Pos>
    var breakablePositions: seq<Pos>

    constructor ()
      ensures Cfg() == NoConfig && Gen() == NoGenParams && cellTypes == [] && grid == null
      ensures Found() == NoSpecial
    {
      levelName, levelId, version, formatVersion := None, None, None, None;
      gridWidth, gridHeight := 0, 0;
      houdiniSeed, roomCount, minRoomSize, maxRoomSize := 0, 0, 0, 0;
      cellTypes := [];
      grid := null;
      playerSpawn, exitPosition := Pos(0, 0), Pos(0, 0);
      enemyPositions, enemyShooterPositions, coinPositions := [], [], [];
      healthPositions, breakablePositions := [], [];
    }

    function Cfg(): Config
      reads this`version, this`formatVersion, this`levelName, this`levelId, this`gridWidth, this`gridHeight
    {
      Config(version, formatVersion, levelName, levelId, gridWidth, gridHeight)
    }

    function Gen(): GenParams
      reads this`houdiniSeed, this`roomCount, this`minRoomSize, this`maxRoomSize
    {
      GenParams(houdiniSeed, roomCount, minRoomSize, maxRoomSize)
    }

    function Found(): Special
      reads this`playerSpawn, this`exitPosition, this`enemyPositions, this`enemyShooterPositions
      reads this`coinPositions, this`healthPositions, this`breakablePositions
    {
      Special(playerSpawn, exitPosition, enemyPositions, enemyShooterPositions,
              coinPositions, healthPositions, breakablePositions)
    }
  }

  /** `ParseCellType` on one line; false when it threw. */
  method ParseCellType(line: string, levelData: HoudiniLevelData) returns (ok: bool)
    modifies levelData`cellTypes
    ensures ok <==> !CellTypeLine(line).Throw?
    ensures CellTypeLine(line).Take? ==> levelData.cellTypes == Put(old(levelData.cellTypes), CellTypeLine(line).value)
    ensures !CellTypeLine(line).Take? ==> levelData.cellTypes == old(levelData.cellTypes)
  {
    var parts := Split(line, '=');
    if |parts| != 2 { return true; }
    var id := ParseInt32(parts[0]);
    if id.None? { return true; }
    var values := Split(parts[1], ',');
    if |values| != 4 { return true; }
    var symbol := if |values[0]| > 0 then values[0][0] else ' ';
    var name := values[1];
    var passable := ParseBool(values[2]);
    if passable.None? { return false; }
    var prefabIndex := ParseInt32(values[3]);
    if prefabIndex.None? { return false; }
    levelData.cellTypes := Put(levelData.cellTypes, CellType(id.value, symbol, name, passable.value, prefabIndex.value));
    return true;
  }

  /** `ParseLevelConfig` on one line; false when `int.Parse` threw. */
  method ParseLevelConfig(line: string, levelData: HoudiniLevelData) returns (ok: bool)
    modifies levelData`version, levelData`formatVersion, levelData`levelName, levelData`levelId
    modifies levelData`gridWidth, levelData`gridHeight
    ensures ok ==> ConfigLine(line, old(levelData.Cfg())) == Some(levelData.Cfg())
    ensures !ok ==> ConfigLine(line, old(levelData.Cfg())).None? && levelData.Cfg() == old(levelData.Cfg())
  {
    var parts := Split(line, '=');
    if |parts| != 2 { return true; }
    var key := Trim(parts[0]);
    var value := Trim(parts[1]);
    ok := true;
    if key == "VERSION" {
      levelData.version := Some(value);
    } else if key == "FORMAT_VERSION" {
      levelData.formatVersion := Some(value);
    } else if key == "LEVEL_NAME" {
      levelData.levelName := Some(value);
    } else if key == "LEVEL_ID" {
      levelData.levelId := Some(value);
    } else if key == "GRID_WIDTH" {
      var n := ParseInt32(value);
      if n.None? { return false; }
      levelData.gridWidth := n.value;
    } else if key == "GRID_HEIGHT" {
      var n := ParseInt32(value);
      if n.None? { return false; }
      levelData.gridHeight := n.value;
    }
  }

  /** `ParseGenerationParams` on one line: a value that does not parse is
      caught there and leaves the parameter as it was. */
  method ParseGenerationParams(line: string, levelData: HoudiniLevelData)
    modifies levelData`houdiniSeed, levelData`roomCount, levelData`minRoomSize, levelData`maxRoomSize
    ensures levelData.Gen() == GenLine(line, old(levelData.Gen()))
  {
    var parts := Split(line, '=');
    if |parts| != 2 { return; }
    var key := Trim(parts[0]);
    var n := ParseInt32(Trim(parts[1]));
    if n.None? { return; }
    if key == "HOUDINI_SEED" {
      levelData.houdiniSeed := n.value;
    } else if key == "ROOM_COUNT" {
      levelData.roomCount := n.value;
    } else if key == "MIN_ROOM_SIZE" {
      levelData.minRoomSize := n.value;
    } else if key == "MAX_ROOM_SIZE" {
      levelData.maxRoomSize := n.value;
    }
  }


  /** `ParseGrid`: sizes the grid (`GridSize`), fills it with '.', then
      copies every grid line's characters that fit. False when a size is
      negative, where allocating the array throws. */
  method ParseGrid(gridLines: seq<string>, levelData: HoudiniLevelData) returns (ok: bool)
    requires |gridLines| > 0
    modifies levelData`gridWidth, levelData`gridHeight, levelData`grid
    ensures var wh := GridSize(old(levelData.Cfg()), gridLines);
      ok <==> wh.0 >= 0 && wh.1 >= 0
    ensures ok ==> (levelData.gridWidth, levelData.gridHeight) == GridSize(old(levelData.Cfg()), gridLines)
    ensures ok ==> levelData.grid != null && fresh(levelData.grid)
    ensures ok ==> levelData.grid.Length0 == levelData.gridWidth && levelData.grid.Length1 == levelData.gridHeight
    ensures ok ==> forall x, y :: 0 <= x < levelData.gridWidth && 0 <= y < levelData.gridHeight ==>
      levelData.grid[x, y] == GridCell(gridLines, x, y)
  {
    if levelData.gridWidth == 0 || levelData.gridHeight == 0 {
      levelData.gridHeight := |gridLines|;
      levelData.gridWidth := |gridLines[0]|;
    }
    var w, h := levelData.gridWidth, levelData.gridHeight;
    if w < 0 || h < 0 { return false; }
    var g := new char[w, h];
    levelData.grid := g;
    var x := 0;
    while x < w
      modifies g
      invariant 0 <= x <= w
      invariant forall i, j :: 0 <= i < x && 0 <= j < h ==> g[i, j] == '.'
    {
      var y := 0;
      while y < h
        modifies g
        invariant 0 <= y <= h
        invariant forall i, j :: 0 <= i < x && 0 <= j < h ==> g[i, j] == '.'
        invariant forall j :: 0 <= j < y ==> g[x, j] == '.'
      {
        g[x, y] := '.';
        y := y + 1;
      }
      x := x + 1;
    }
    CopyLines(gridLines, g);
    return true;
  }

  /** The copy loop of `ParseGrid`, over a grid holding only '.'. */
  method CopyLines(gridLines: seq<string>, g: array2<char>)
    requires forall i, j :: 0 <= i < g.Length0 && 0 <= j < g.Length1 ==> g[i, j] == '.'
    modifies g
    ensures forall i, j :: 0 <= i < g.Length0 && 0 <= j < g.Length1 ==> g[i, j] == GridCell(gridLines, i, j)
  {
    var w, h := g.Length0, g.Length1;
    var y := 0;
    while y < Min(h, |gridLines|)
      invariant 0 <= y <= Min(h, |gridLines|)
      invariant forall i, j :: 0 <= i < w && 0 <= j < h ==>
        g[i, j] == if j < y then GridCell(gridLines, i, j) else '.'
    {
      var line := gridLines[y];
      var x := 0;
      while x < Min(w, |line|)
        invariant 0 <= x <= Min(w, |line|)
        invariant forall i, j :: 0 <= i < w && 0 <= j < h ==>
          g[i, j] == if j < y || (j == y && i < x) then GridCell(gridLines, i, j) else '.'
      {
        g[x, y] := line[x];
        x := x + 1;
      }
      y := y + 1;
    }
  }

  /** `ExtractSpecialPositions`: visits the grid row by row, each row left
      to right; `gridLines` are the lines the grid was laid out from. */
  method ExtractSpecialPositions(levelData: HoudiniLevelData, ghost gridLines: seq<string>)
    requires levelData.grid != null
    requires levelData.grid.Length0 == levelData.gridWidth && levelData.grid.Length1 == levelData.gridHeight
    requires forall x, y :: 0 <= x < levelData.gridWidth && 0 <= y < levelData.gridHeight ==>
      levelData.grid[x, y] == GridCell(gridLines, x, y)
    modifies levelData`playerSpawn, levelData`exitPosition, levelData`enemyPositions
    modifies levelData`enemyShooterPositions, levelData`coinPositions, levelData`healthPositions
    modifies levelData`breakablePositions
    ensures levelData.Found() == ScanRows(gridLines, levelData.gridWidth, levelData.gridHeight, old(levelData.Found()))
  {
    var g := levelData.grid;
    var w, h := levelData.gridWidth, levelData.gridHeight;
    ghost var start := levelData.Found();
    var y := 0;
    while y < h
      invariant 0 <= y <= h
      invariant levelData.Found() == ScanRows(gridLines, w, y, start)
    {
      var x := 0;
      while x < w
        invariant 0 <= x <= w
        invariant levelData.Found() == ScanRow(gridLines, y, x, ScanRows(gridLines, w, y, start))
      {
        var cell := g[x, y];
        var pos := Pos(x, y);
        if cell == 'P' {
          levelData.playerSpawn := pos;
        } else if cell == 'X' {
          levelData.exitPosition := pos;
        } else if cell == 'E' {
          levelData.enemyPositions := levelData.enemyPositions + [pos];
        } else if cell == 'S' {
          levelData.enemyShooterPositions := levelData.enemyShooterPositions + [pos];
        } else if cell == 'C' {
          levelData.coinPositions := levelData.coinPositions + [pos];
        } else if cell == 'H' {
          levelData.healthPositions := levelData.healthPositions + [pos];
        } else if cell == 'B' {
          levelData.breakablePositions := levelData.breakablePositions + [pos];
        }
        x := x + 1;
      }
      y := y + 1;
    }
  }

  /** One pass of `ImportFromText`'s loop; false when the line threw. */
  method ImportLine(line: string, levelData: HoudiniLevelData, currentSection: string, gridLines: seq<string>)
    returns (ok: bool, section: string, lines: seq<string>)
    modifies levelData`cellTypes, levelData`version, levelData`formatVersion, levelData`levelName
    modifies levelData`levelId, levelData`gridWidth, levelData`gridHeight
    modifies levelData`houdiniSeed, levelData`roomCount, levelData`minRoomSize, levelData`maxRoomSize
    ensures var st := Step(Scan(currentSection, old(levelData.cellTypes), old(levelData.Cfg()), old(levelData.Gen()), gridLines), line);
      ok <==> st.Some?
    ensures var st := Step(Scan(currentSection, old(levelData.cellTypes), old(levelData.Cfg()), old(levelData.Gen()), gridLines), line);
      ok ==> st.value == Scan(section, levelData.cellTypes, levelData.Cfg(), levelData.Gen(), lines)
  {
    ok, section, lines := true, currentSection, gridLines;
    var trimmedLine := Clean(line);
    if currentSection != "GRID_ASCII" && trimmedLine == "" {
    } else if IsHeader(trimmedLine) {
      section := HeaderName(trimmedLine);
    } else {
      ok, lines := DispatchLine(trimmedLine, levelData, currentSection, gridLines);
    }
  }

  /** The `switch` of `ImportFromText`'s loop. */
  method DispatchLine(t: string, levelData: HoudiniLevelData, currentSection: string, gridLines: seq<string>)
    returns (ok: bool, lines: seq<string>)
    modifies levelData`cellTypes, levelData`version, levelData`formatVersion, levelData`levelName
    modifies levelData`levelId, levelData`gridWidth, levelData`gridHeight
    modifies levelData`houdiniSeed, levelData`roomCount, levelData`minRoomSize, levelData`maxRoomSize
    ensures var st := Dispatch(Scan(currentSection, old(levelData.cellTypes), old(levelData.Cfg()), old(levelData.Gen()), gridLines), t);
      ok <==> st.Some?
    ensures var st := Dispatch(Scan(currentSection, old(levelData.cellTypes), old(levelData.Cfg()), old(levelData.Gen()), gridLines), t);
      ok ==> st.value == Scan(currentSection, levelData.cellTypes, levelData.Cfg(), levelData.Gen(), lines)
  {
    ok, lines := true, gridLines;
    if currentSection == "CELL_TYPES" {
      ok := DispatchCells(t, levelData, gridLines);
    } else if currentSection == "LEVEL_CONFIG" {
      ok := DispatchConfig(t, levelData, gridLines);
    } else if currentSection == "GENERATION_PARAMS" {
      ghost var st := Scan(currentSection, levelData.cellTypes, levelData.Cfg(), levelData.Gen(), gridLines);
      assert Dispatch(st, t) == Some(st.(gen := GenLine(t, st.gen)));
      ParseGenerationParams(t, levelData);
    } else if currentSection == "GRID_ASCII" {
      lines := gridLines + [t];
    }
  }

  /** The `CELL_TYPES` case of the switch. */
  method DispatchCells(t: string, levelData: HoudiniLevelData, gridLines: seq<string>) returns (ok: bool)
    modifies levelData`cellTypes
    ensures var st := Dispatch(Scan("CELL_TYPES", old(levelData.cellTypes), levelData.Cfg(), levelData.Gen(), gridLines), t);
      (ok <==> st.Some?) &&
      (ok ==> st.value == Scan("CELL_TYPES", levelData.cellTypes, levelData.Cfg(), levelData.Gen(), gridLines))
  {
    ghost var st := Scan("CELL_TYPES", levelData.cellTypes, levelData.Cfg(), levelData.Gen(), gridLines);
    assert Dispatch(st, t) == CellStep(st, t);
    ok := ParseCellType(t, levelData);
  }

  /** The `LEVEL_CONFIG` case of the switch. */
  method DispatchConfig(t: string, levelData: HoudiniLevelData, gridLines: seq<string>) returns (ok: bool)
    modifies levelData`version, levelData`formatVersion, levelData`levelName, levelData`levelId
    modifies levelData`gridWidth, levelData`gridHeight
    ensures var st := Dispatch(Scan("LEVEL_CONFIG", levelData.cellTypes, old(levelData.Cfg()), levelData.Gen(), gridLines), t);
      (ok <==> st.Some?) &&
      (ok ==> st.value == Scan("LEVEL_CONFIG", levelData.cellTypes, levelData.Cfg(), levelData.Gen(), gridLines))
  {
    ghost var st := Scan("LEVEL_CONFIG", levelData.cellTypes, levelData.Cfg(), levelData.Gen(), gridLines);
    assert Dispatch(st, t) == ConfigStep(st, t);
    ok := ParseLevelConfig(t, levelData);
  }

  /** What a successful import leaves in the data, given the scan state
      of the file: the parsed sections and, when the file has grid lines,
      the laid-out grid of `GridSize` and the special cells found in it. */
  ghost predicate Imported(d: HoudiniLevelData, st: Scan)
    reads d, d.grid
  {
    d.cellTypes == st.cells && d.Gen() == st.gen &&
    d.levelName == st.cfg.levelName && d.levelId == st.cfg.levelId &&
    d.version == st.cfg.version && d.formatVersion == st.cfg.formatVersion &&
    (|st.gridLines| == 0 ==> d.Cfg() == st.cfg && d.grid == null && d.Found() == NoSpecial) &&
    (|st.gridLines| > 0 ==>
      (d.gridWidth, d.gridHeight) == GridSize(st.cfg, st.gridLines) &&
      d.grid != null && d.grid.Length0 == d.gridWidth && d.grid.Length1 == d.gridHeight &&
      (forall x, y :: 0 <= x < d.gridWidth && 0 <= y < d.gridHeight ==>
        d.grid[x, y] == GridCell(st.gridLines, x, y)) &&
      d.Found() == ScanRows(st.gridLines, d.gridWidth, d.gridHeight, NoSpecial))
  }

  /** `ImportFromText`: null exactly when `Import` finds an exception;
      otherwise fresh data `Imported` from the file's scan state. */
  method ImportFromText(iniContent: string) returns (levelData: HoudiniLevelData?)
    ensures Import(iniContent).None? <==> levelData == null
    ensures levelData != null ==> fresh(levelData) && (levelData.grid == null || fresh(levelData.grid))
    ensures levelData != null ==> Imported(levelData, Import(iniContent).value)
  {
    var d := new HoudiniLevelData();
    var lines := Split(iniContent, '\n');
    var ok, section, gridLines := ReadSections(lines, d);
    if !ok { return null; }
    ghost var st := Scan(section, d.cellTypes, d.Cfg(), d.Gen(), gridLines);
    assert Run(lines) == Some(st);
    if |gridLines| > 0 {
      ok := LayOutGrid(gridLines, d);
      if !ok { return null; }
    }
    assert Import(iniContent) == Some(st);
    assert Imported(d, st);
    return d;
  }

  /** `ParseGrid` followed by `ExtractSpecialPositions` on data whose
      positions are still empty; false when the grid could not be made. */
  method LayOutGrid(gridLines: seq<string>, d: HoudiniLevelData) returns (ok: bool)
    requires |gridLines| > 0 && d.Found() == NoSpecial
    modifies d`gridWidth, d`gridHeight, d`grid
    modifies d`playerSpawn, d`exitPosition, d`enemyPositions
    modifies d`enemyShooterPositions, d`coinPositions, d`healthPositions, d`breakablePositions
    ensures var wh := GridSize(old(d.Cfg()), gridLines);
      ok <==> wh.0 >= 0 && wh.1 >= 0
    ensures ok ==> (d.gridWidth, d.gridHeight) == GridSize(old(d.Cfg()), gridLines)
    ensures ok ==> d.grid != null && fresh(d.grid)
    ensures ok ==> d.grid.Length0 == d.gridWidth && d.grid.Length1 == d.gridHeight
    ensures ok ==> forall x, y :: 0 <= x < d.gridWidth && 0 <= y < d.gridHeight ==>
      d.grid[x, y] == GridCell(gridLines, x, y)
    ensures ok ==> d.Found() == ScanRows(gridLines, d.gridWidth, d.gridHeight, NoSpecial)
  {
    ok := ParseGrid(gridLines, d);
    if ok {
      ExtractSpecialPositions(d, gridLines);
    }
  }

  /** The loop of `ImportFromText` over the lines; false when a line threw. */
  method ReadSections(lines: seq<string>, d: HoudiniLevelData) returns (ok: bool, section: string, gridLines: seq<string>)
    requires d.Cfg() == NoConfig && d.Gen() == NoGenParams && d.cellTypes == []
    modifies d`cellTypes, d`version, d`formatVersion, d`levelName
    modifies d`levelId, d`gridWidth, d`gridHeight
    modifies d`houdiniSeed, d`roomCount, d`minRoomSize, d`maxRoomSize
    ensures ok <==> Run(lines).Some?
    ensures ok ==> Run(lines) == Some(Scan(section, d.cellTypes, d.Cfg(), d.Gen(), gridLines))
  {
    var currentSection := "";
    section, gridLines := "", [];
    var i := 0;
    while i < |lines|
      invariant 0 <= i <= |lines|
      invariant Run(lines[..i]) == Some(Scan(currentSection, d.cellTypes, d.Cfg(), d.Gen(), gridLines))
    {
      assert lines[..i + 1][..i] == lines[..i];
      ok, currentSection, gridLines := ImportLine(lines[i], d, currentSection, gridLines);
      if !ok {
        RunStops(lines, i + 1);
        return false, currentSection, gridLines;
      }
      i := i + 1;
    }
    assert lines[..i] == lines;
    return true, currentSection, gridLines;
  }
}

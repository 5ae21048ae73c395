/** `LevelDataService`: the list of level files found among the game's
    resources, ordered by level number and version, and the index of the
    selected level; plus the validation of imported level data. */
module LevelDataService {
  import opened Wrappers
  import opened Text
  import LevelImporter
  import Exporter

  /** `LevelFileEntry` without its `TextAsset`. */
  datatype LevelFileEntry = LevelFileEntry(fileName: string, fullPath: string, levelNumber: int, version: string)

  // ---------------------------------------------------------------- file names

  /** `IsValidLevelFileName`. */
  predicate IsValidLevelFileName(fileName: string) {
    StartsWith(fileName, "LEVEL_") && Contains(fileName, "_v")
  }

  /** `ParseLevelFileName`: the file name splits on '_'; a second part
      that is an Int32 gives the level number (else 1), and a third part
      starting with 'v' gives the version without it (else "1.0.0"). */
  function ParseLevelFileName(fileName: string, fullPath: string): (entry: LevelFileEntry)
    ensures entry.fileName == fileName && entry.fullPath == fullPath
    ensures var parts := Split(fileName, '_');
      entry.levelNumber == if |parts| >= 2 && ParseInt32(parts[1]).Some? then ParseInt32(parts[1]).value else 1
    ensures var parts := Split(fileName, '_');
      entry.version == if |parts| >= 3 && StartsWith(parts[2], "v") then parts[2][1..] else "1.0.0"
  {
    var parts := Split(fileName, '_');
    var levelNumber := if |parts| >= 2 && ParseInt32(parts[1]).Some? then ParseInt32(parts[1]).value else 1;
    var version := if |parts| >= 3 && StartsWith(parts[2], "v") then parts[2][1..] else "1.0.0";
    LevelFileEntry(fileName, fullPath, levelNumber, version)
  }

  /** The example name the file-name format is documented with. */
  lemma ParseExample()
    ensures var e := ParseLevelFileName("LEVEL_0001_v1.0.0_v4.3", "");
      IsValidLevelFileName("LEVEL_0001_v1.0.0_v4.3") && e.levelNumber == 1 && e.version == "1.0.0"
  {
    var digits := ZeroPad(1, 4);
    ZeroPadOne();
    ParseDigits(digits);
    StemSplits(digits, "v1.0.0", "v4.3");
    StemValid(digits, "v1.0.0", "v4.3");
    ExampleStem();
  }

  lemma ExampleStem()
    ensures Join(["LEVEL", "0001", "v1.0.0", "v4.3"], '_') == "LEVEL_0001_v1.0.0_v4.3"
  {
    JoinFour("0001", "v1.0.0", "v4.3");
    assert "LEVEL_" + "0001" == "LEVEL_0001";
    assert "LEVEL_0001" + "_" + "v1.0.0" == "LEVEL_0001_v1.0.0";
    assert "LEVEL_0001_v1.0.0" + "_" + "v4.3" == "LEVEL_0001_v1.0.0_v4.3";
  }

  lemma ZeroPadOne()
    ensures ZeroPad(1, 4) == "0001"
  {
    assert Digits(1) == "1";
  }

  /** The names the exporter writes parse back: with a level version that
      starts with 'v' and holds no '_', the stem of
      `LEVEL_{n:04d}_{levelVersion}_{formatVersion}.ini` is a valid level
      file name whose level number is n and whose version is the level
      version without its 'v'. */
  lemma ParseExportedName(n: nat, levelVersion: string, formatVersion: string)
    requires n <= INT32_MAX
    requires StartsWith(levelVersion, "v") && '_' !in levelVersion && '_' !in formatVersion
    ensures var name := Exporter.LevelFileName(n, levelVersion, formatVersion);
      var stem := name[..|name| - 4];
      var e := ParseLevelFileName(stem, stem);
      IsValidLevelFileName(stem) && e.levelNumber == n && e.version == levelVersion[1..]
  {
    var name := Exporter.LevelFileName(n, levelVersion, formatVersion);
    var stem := name[..|name| - 4];
    var digits := ZeroPad(n, 4);
    ExportedStem(n, levelVersion, formatVersion);
    StemSplits(digits, levelVersion, formatVersion);
    ParseDigits(digits);
    StemValid(digits, levelVersion, formatVersion);
  }

  /** The four fields of an exported stem come back from splitting on '_'. */
  lemma StemSplits(digits: string, levelVersion: string, formatVersion: string)
    requires AllDigits(digits) && '_' !in levelVersion && '_' !in formatVersion
    ensures Split(Join(["LEVEL", digits, levelVersion, formatVersion], '_'), '_') == ["LEVEL", digits, levelVersion, formatVersion]
  {
    assert '_' !in digits by {
      assert forall k :: 0 <= k < |digits| ==> IsDigit(digits[k]);
    }
    SplitJoin(["LEVEL", digits, levelVersion, formatVersion], '_');
  }

  lemma StemValid(digits: string, levelVersion: string, formatVersion: string)
    requires StartsWith(levelVersion, "v")
    ensures IsValidLevelFileName(Join(["LEVEL", digits, levelVersion, formatVersion], '_'))
  {
    var stem := "LEVEL_" + digits + "_" + levelVersion + "_" + formatVersion;
    JoinFour(digits, levelVersion, formatVersion);
    var at := 6 + |digits|;
    assert stem[..6] == "LEVEL_";
    assert stem[at..at + 2] == "_v";
    assert OccursAt(stem, "_v", at);
  }

  lemma JoinFour(digits: string, levelVersion: string, formatVersion: string)
    ensures Join(["LEVEL", digits, levelVersion, formatVersion], '_') ==
      "LEVEL_" + digits + "_" + levelVersion + "_" + formatVersion
  {
    var parts := ["LEVEL", digits, levelVersion, formatVersion];
    assert parts[1..][1..][1..] == [formatVersion];
    assert Join(parts[1..][1..], '_') == levelVersion + "_" + formatVersion;
    assert Join(parts[1..], '_') == digits + "_" + (levelVersion + "_" + formatVersion);
  }

  /** The stem of an exported name is its four fields joined with '_'. */
  lemma ExportedStem(n: nat, levelVersion: string, formatVersion: string)
    ensures var name := Exporter.LevelFileName(n, levelVersion, formatVersion);
      name[..|name| - 4] == Join(["LEVEL", ZeroPad(n, 4), levelVersion, formatVersion], '_')
  {
    var name := Exporter.LevelFileName(n, levelVersion, formatVersion);
    var digits := ZeroPad(n, 4);
    assert name[..|name| - 4] == "LEVEL_" + digits + "_" + levelVersion + "_" + formatVersion;
    JoinFour(digits, levelVersion, formatVersion);
  }

  // ---------------------------------------------------------------- ordering

  /** `string.Compare(a, b, StringComparison.Ordinal) <= 0`. */
  predicate OrdinalLe(a: string, b: string)
    decreases |a|
  {
    if a == [] then true
    else if b == [] then false
    else if a[0] != b[0] then a[0] < b[0]
    else OrdinalLe(a[1..], b[1..])
  }

  lemma {:induction false} OrdinalTotal(a: string, b: string)
    ensures OrdinalLe(a, b) || OrdinalLe(b, a)
    decreases |a|
  {
    if a != [] && b != [] && a[0] == b[0] {
      OrdinalTotal(a[1..], b[1..]);
    }
  }

  lemma {:induction false} OrdinalTrans(a: string, b: string, c: string)
    requires OrdinalLe(a, b) && OrdinalLe(b, c)
    ensures OrdinalLe(a, c)
    decreases |a|
  {
    if a != [] && b != [] && c != [] && a[0] == b[0] && b[0] == c[0] {
      OrdinalTrans(a[1..], b[1..], c[1..]);
    }
  }

  /** The comparison `ScanForLevelFiles` sorts with: level number first,
      then the version, ordinally. */
  predicate EntryLe(a: LevelFileEntry, b: LevelFileEntry) {
    a.levelNumber < b.levelNumber || (a.levelNumber == b.levelNumber && OrdinalLe(a.version, b.version))
  }

  lemma EntryTotal(a: LevelFileEntry, b: LevelFileEntry)
    ensures EntryLe(a, b) || EntryLe(b, a)
  {
    OrdinalTotal(a.version, b.version);
  }

  lemma EntryTrans(a: LevelFileEntry, b: LevelFileEntry, c: LevelFileEntry)
    requires EntryLe(a, b) && EntryLe(b, c)
    ensures EntryLe(a, c)
  {
    if a.levelNumber == b.levelNumber == c.levelNumber {
      OrdinalTrans(a.version, b.version, c.version);
    }
  }

  predicate Sorted(s: seq<LevelFileEntry>) {
    forall i, j :: 0 <= i < j < |s| ==> EntryLe(s[i], s[j])
  }

  /** `e` placed before the first entry it does not follow. */
  function Insert(s: seq<LevelFileEntry>, e: LevelFileEntry): (r: seq<LevelFileEntry>)
    ensures multiset(r) == multiset(s) + multiset{e}
    ensures Sorted(s) ==> Sorted(r)
    decreases |s|
  {
    if s == [] then [e]
    else if EntryLe(e, s[0]) then
      FrontSorted(s, e);
      [e] + s
    else
      var rest := Insert(s[1..], e);
      assert s == [s[0]] + s[1..];
      AfterHeadSorted(s, e, rest);
      [s[0]] + rest
  }

  lemma FrontSorted(s: seq<LevelFileEntry>, e: LevelFileEntry)
    requires s != [] && EntryLe(e, s[0])
    ensures Sorted(s) ==> Sorted([e] + s)
  {
    if Sorted(s) {
      var r := [e] + s;
      forall i, j | 0 <= i < j < |r| ensures EntryLe(r[i], r[j]) {
        assert r[j] == s[j - 1];
        if i > 0 {
          assert r[i] == s[i - 1];
        } else if j > 1 {
          EntryTrans(e, s[0], s[j - 1]);
        }
      }
    }
  }

  /** Inserting after the head: the head precedes everything in the rest. */
  lemma AfterHeadSorted(s: seq<LevelFileEntry>, e: LevelFileEntry, rest: seq<LevelFileEntry>)
    requires s != [] && !EntryLe(e, s[0])
    requires multiset(rest) == multiset(s[1..]) + multiset{e}
    requires Sorted(s[1..]) ==> Sorted(rest)
    ensures Sorted(s) ==> Sorted([s[0]] + rest)
  {
    if Sorted(s) {
      EntryTotal(e, s[0]);
      assert Sorted(s[1..]);
      forall j | 0 <= j < |rest| ensures EntryLe(s[0], rest[j]) {
        assert rest[j] in multiset(rest);
        if rest[j] != e {
          assert rest[j] in multiset(s[1..]);
          var m :| 0 <= m < |s[1..]| && s[1..][m] == rest[j];
          assert s[m + 1] == rest[j];
        }
      }
      var r := [s[0]] + rest;
      forall i, j | 0 <= i < j < |r| ensures EntryLe(r[i], r[j]) {
        assert r[j] == rest[j - 1];
        if i > 0 {
          assert r[i] == rest[i - 1];
        }
      }
    }
  }

  /** `List.Sort` with that comparison. The library's algorithm is not
      stable and is not modelled: only its result, sorted and a
      permutation of the input, is. */
  function Sort(s: seq<LevelFileEntry>): (r: seq<LevelFileEntry>)
    ensures Sorted(r) && multiset(r) == multiset(s)
    decreases |s|
  {
    if s == [] then []
    else
      assert s == s[..|s| - 1] + [s[|s| - 1]];
      Insert(Sort(s[..|s| - 1]), s[|s| - 1])
  }

  // ---------------------------------------------------------------- the imported data

  /** `ValidateLevelData`: a grid exists, both sizes are positive and the
      spawn lies on the grid. */
  predicate ValidateLevelData(levelData: LevelImporter.HoudiniLevelData?)
    reads levelData
  {
    levelData != null && levelData.grid != null &&
    levelData.gridWidth > 0 && levelData.gridHeight > 0 &&
    0 <= levelData.playerSpawn.x < levelData.gridWidth &&
    0 <= levelData.playerSpawn.y < levelData.gridHeight
  }

  /** Data imported from a file with grid lines and a positive grid size
      always validates: the spawn is either a cell of the grid showing 'P'
      or, when none does, (0, 0). */
  lemma ImportedIsValid(d: LevelImporter.HoudiniLevelData, st: LevelImporter.Scan)
    requires LevelImporter.Imported(d, st) && |st.gridLines| > 0
    requires d.gridWidth > 0 && d.gridHeight > 0
    ensures ValidateLevelData(d)
  {
    LevelImporter.ScanMarkers(st.gridLines, d.gridWidth, d.gridHeight, 'P');
  }

  /** A grid-less import never validates. */
  lemma GridlessIsInvalid(d: LevelImporter.HoudiniLevelData, st: LevelImporter.Scan)
    requires LevelImporter.Imported(d, st) && |st.gridLines| == 0
    ensures !ValidateLevelData(d)
  {
  }

  // ---------------------------------------------------------------- the service

  /** The parsed entry of one asset name, as the resource scan builds it. */
  function AssetEntry(name: string): LevelFileEntry
  {
    ParseLevelFileName(name, "Resources/Levels/" + name)
  }

  /** The number of level file names among the assets, counted from the front. */
  function CountValid(assetNames: seq<string>): nat
  {
    if assetNames == [] then 0
    else (if IsValidLevelFileName(assetNames[0]) then 1 else 0) + CountValid(assetNames[1..])
  }

  lemma {:induction false} CountValidSnoc(names: seq<string>, name: string)
    ensures CountValid(names + [name]) == CountValid(names) + (if IsValidLevelFileName(name) then 1 else 0)
  {
    if names != [] {
      assert (names + [name])[1..] == names[1..] + [name];
      CountValidSnoc(names[1..], name);
    } else {
      assert [name][1..] == [];
    }
  }

  /** What a resource scan keeps: the level files among the assets, each
      with its path under "Resources/Levels/". Every valid asset name yields
      its parsed entry, no other entry appears, and there is one entry per
      valid name. */
  function Entries(assetNames: seq<string>): (r: seq<LevelFileEntry>)
    ensures |r| == CountValid(assetNames) <= |assetNames|
    ensures forall e :: e in r ==> IsValidLevelFileName(e.fileName) && e.fullPath == "Resources/Levels/" + e.fileName
    ensures forall e :: e in r <==>
      exists i :: 0 <= i < |assetNames| && IsValidLevelFileName(assetNames[i]) && e == AssetEntry(assetNames[i])
    decreases |assetNames|
  {
    if assetNames == [] then []
    else
      var init := assetNames[..|assetNames| - 1];
      var pre := Entries(init);
      var name := assetNames[|assetNames| - 1];
      assert assetNames == init + [name];
      CountValidSnoc(init, name);
      assert forall i :: 0 <= i < |init| ==> init[i] == assetNames[i];
      if IsValidLevelFileName(name) then pre + [AssetEntry(name)] else pre
  }

  class LevelDataService {
    var availableLevels: seq<LevelFileEntry>
    var selectedLevelIndex: int

    constructor ()
      ensures availableLevels == [] && selectedLevelIndex == 0
    {
      availableLevels := [];
      selectedLevelIndex := 0;
    }

    predicate InRange()
      reads this
    {
      0 <= selectedLevelIndex < |availableLevels|
    }

    /** `ScanForLevelFiles` over the game's resources (`ScanLevelsFromResources`),
      given the names of the text assets under "Levels"; the selection
      index is left as it was. */
    method ScanForLevelFiles(assetNames: seq<string>)
      modifies this
      ensures Sorted(availableLevels)
      ensures multiset(availableLevels) == multiset(Entries(assetNames))
      ensures selectedLevelIndex == old(selectedLevelIndex)
    {
      availableLevels := [];
      var i := 0;
      while i < |assetNames|
        invariant 0 <= i <= |assetNames|
        invariant availableLevels == Entries(assetNames[..i])
        invariant selectedLevelIndex == old(selectedLevelIndex)
      {
        assert assetNames[..i + 1][..i] == assetNames[..i];
        var name := assetNames[i];
        if IsValidLevelFileName(name) {
          var assetPath := "Resources/Levels/" + name;
          availableLevels := availableLevels + [ParseLevelFileName(name, assetPath)];
        }
        i := i + 1;
      }
      assert assetNames[..i] == assetNames;
      availableLevels := Sort(availableLevels);
    }

    /** `GetSelectedLevel`; None stands for the default entry returned
      when the index is out of range. */
    function GetSelectedLevel(): (e: Option<LevelFileEntry>)
      reads this
      ensures e.Some? <==> InRange()
      ensures e.Some? ==> e.value == availableLevels[selectedLevelIndex]
    {
      if 0 <= selectedLevelIndex < |availableLevels| then Some(availableLevels[selectedLevelIndex]) else None
    }

    /** `GetCurrentLevelNumber`: 0, the default entry's number, when
      nothing is selected. */
    function GetCurrentLevelNumber(): (n: int)
      reads this
      ensures InRange() ==> n == availableLevels[selectedLevelIndex].levelNumber
      ensures !InRange() ==> n == 0
    {
      match GetSelectedLevel()
      case None => 0
      case Some(e) => e.levelNumber
    }

    function GetTotalLevelCount(): (n: nat)
      reads this
      ensures n == |availableLevels|
    {
      |availableLevels|
    }

    /** `SelectLevelByNumber`: selects the first level with that number. */
    method SelectLevelByNumber(levelNumber: int) returns (found: bool)
      modifies this`selectedLevelIndex
      ensures found <==> exists i :: 0 <= i < |availableLevels| && availableLevels[i].levelNumber == levelNumber
      ensures found ==> InRange() && availableLevels[selectedLevelIndex].levelNumber == levelNumber
      ensures found ==> forall i :: 0 <= i < selectedLevelIndex ==> availableLevels[i].levelNumber != levelNumber
      ensures !found ==> selectedLevelIndex == old(selectedLevelIndex)
    {
      var index := 0;
      while index < |availableLevels| && availableLevels[index].levelNumber != levelNumber
        invariant 0 <= index <= |availableLevels|
        invariant forall i :: 0 <= i < index ==> availableLevels[i].levelNumber != levelNumber
      {
        index := index + 1;
      }
      if index < |availableLevels| {
        selectedLevelIndex := index;
        assert availableLevels[selectedLevelIndex] == availableLevels[index];
        return true;
      }
      return false;
    }

    /** `SelectLevelByNumberAndVersion`: the first level with both. */
    method SelectLevelByNumberAndVersion(levelNumber: int, version: string) returns (found: bool)
      modifies this`selectedLevelIndex
      ensures found <==> (exists i ::
        0 <= i < |availableLevels| && availableLevels[i].levelNumber == levelNumber && availableLevels[i].version == version)
      ensures found ==> (InRange() && availableLevels[selectedLevelIndex].levelNumber == levelNumber &&
        availableLevels[selectedLevelIndex].version == version)
      ensures found ==> forall i :: 0 <= i < selectedLevelIndex ==>
        !(availableLevels[i].levelNumber == levelNumber && availableLevels[i].version == version)
      ensures !found ==> selectedLevelIndex == old(selectedLevelIndex)
    {
      var index := 0;
      while index < |availableLevels| &&
            !(availableLevels[index].levelNumber == levelNumber && availableLevels[index].version == version)
        invariant 0 <= index <= |availableLevels|
        invariant forall i :: 0 <= i < index ==>
          !(availableLevels[i].levelNumber == levelNumber && availableLevels[i].version == version)
      {
        index := index + 1;
      }
      if index < |availableLevels| {
        selectedLevelIndex := index;
        assert availableLevels[selectedLevelIndex] == availableLevels[index];
        return true;
      }
      return false;
    }

    predicate HasNextLevel()
      reads this
    {
      selectedLevelIndex < |availableLevels| - 1
    }

    predicate HasPreviousLevel()
      reads this
    {
      selectedLevelIndex > 0
    }

    /** `SelectNextLevel`: one step forward when there is a next level. */
    method SelectNextLevel() returns (moved: bool)
      modifies this`selectedLevelIndex
      ensures moved <==> old(HasNextLevel())
      ensures selectedLevelIndex == old(selectedLevelIndex) + (if moved then 1 else 0)
      ensures old(InRange()) ==> InRange()
    {
      if HasNextLevel() {
        selectedLevelIndex := selectedLevelIndex + 1;
        return true;
      }
      return false;
    }

    /** `SelectPreviousLevel`: one step back when there is a previous level. */
    method SelectPreviousLevel() returns (moved: bool)
      modifies this`selectedLevelIndex
      ensures moved <==> old(HasPreviousLevel())
      ensures selectedLevelIndex == old(selectedLevelIndex) - (if moved then 1 else 0)
      ensures old(InRange()) ==> InRange()
    {
      if HasPreviousLevel() {
        selectedLevelIndex := selectedLevelIndex - 1;
        return true;
      }
      return false;
    }

    method ResetToFirstLevel()
      modifies this`selectedLevelIndex
      ensures selectedLevelIndex == if |availableLevels| > 0 then 0 else old(selectedLevelIndex)
      ensures |availableLevels| > 0 ==> InRange()
    {
      if |availableLevels| > 0 {
        selectedLevelIndex := 0;
      }
    }

    method SelectLastLevel()
      modifies this`selectedLevelIndex
      ensures selectedLevelIndex == if |availableLevels| > 0 then |availableLevels| - 1 else old(selectedLevelIndex)
      ensures |availableLevels| > 0 ==> InRange() && !HasNextLevel()
    {
      if |availableLevels| > 0 {
        selectedLevelIndex := |availableLevels| - 1;
      }
    }
  }

  /** From a selected level, `SelectNextLevel` reaches the last level and
      `SelectPreviousLevel` the first: HasNext fails exactly on the last
      index, HasPrevious exactly on the first. */
  lemma NavigationEnds(s: LevelDataService)
    requires s.InRange()
    ensures !s.HasNextLevel() <==> s.selectedLevelIndex == |s.availableLevels| - 1
    ensures !s.HasPreviousLevel() <==> s.selectedLevelIndex == 0
  {
  }
}

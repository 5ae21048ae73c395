/** `LevelSequencer`: the training curriculum's list of levels, the index
    of the current one and the number of completed passes over the list.
    Loading a level's file into the scene is not part of this model. */
module LevelSequencer {
  import opened Wrappers
  import opened Text
  import opened Rng
  import opened LevelDataService

  /** `Mathf.Clamp` on integers. */
  function Clamp(v: int, lo: int, hi: int): (r: int)
    requires lo <= hi
    ensures lo <= r <= hi
    ensures lo <= v <= hi ==> r == v
    ensures v < lo ==> r == lo
    ensures v > hi ==> r == hi
  {
    if v < lo then lo else if v > hi then hi else v
  }

  /** `LoadNextLevel`'s arithmetic on (index, cycles) for a list of n
      levels: one step forward, and one more cycle when it wraps to 0. */
  function Next(st: (int, int), n: int): (r: (int, int))
    requires n > 0 && st.0 >= 0
    ensures 0 <= r.0 < n
    ensures r.0 == 0 ==> r.1 == st.1 + 1
    ensures r.0 != 0 ==> r.1 == st.1
    ensures st.0 + 1 < n ==> r == (st.0 + 1, st.1)
    ensures st.0 + 1 == n ==> r == (0, st.1 + 1)
  {
    var i := (st.0 + 1) % n;
    (i, if i == 0 then st.1 + 1 else st.1)
  }

  /** k calls of `LoadNextLevel`. */
  function Steps(st: (int, int), n: int, k: nat): (r: (int, int))
    requires n > 0 && st.0 >= 0
    ensures r.0 >= 0
    decreases k
  {
    if k == 0 then st else Next(Steps(st, n, k - 1), n)
  }

  lemma {:induction false} StepsNoWrap(i: int, c: int, n: int, k: nat)
    requires 0 <= i && i + k < n
    ensures Steps((i, c), n, k) == (i + k, c)
    decreases k
  {
    if k > 0 {
      StepsNoWrap(i, c, n, k - 1);
    }
  }

  lemma {:induction false} StepsAdd(st: (int, int), n: int, a: nat, b: nat)
    requires n > 0 && st.0 >= 0
    ensures Steps(st, n, a + b) == Steps(Steps(st, n, a), n, b)
    decreases b
  {
    if b > 0 {
      StepsAdd(st, n, a, b - 1);
    }
  }

  /** A whole pass: from any index of a list of n levels, n calls of
      `LoadNextLevel` come back to the same index with exactly one more
      completed cycle. */
  lemma FullCycle(i: int, c: int, n: int)
    requires 0 <= i < n
    ensures Steps((i, c), n, n) == (i, c + 1)
  {
    var a := n - 1 - i;
    StepsNoWrap(i, c, n, a);
    StepsAdd((i, c), n, a, 1);
    assert Steps((i, c), n, a + 1) == Next((n - 1, c), n);
    assert Steps((i, c), n, a + 1) == (0, c + 1);
    StepsNoWrapFrom0(c + 1, n, i);
    StepsAdd((i, c), n, a + 1, i);
  }

  lemma StepsNoWrapFrom0(c: int, n: int, k: nat)
    requires k < n
    ensures Steps((0, c), n, k) == (k, c)
  {
    StepsNoWrap(0, c, n, k);
  }

  class LevelSequencer {
    var useMultiLevelSequence: bool
    var availableLevels: seq<LevelFileEntry>
    var startLevelIndex: int
    var currentLevelIndex: int
    var cyclesCompleted: int

    /** The serialized settings; the state starts at index 0, no cycles. */
    constructor (useMulti: bool, levels: seq<LevelFileEntry>, startIndex: int)
      ensures useMultiLevelSequence == useMulti && availableLevels == levels && startLevelIndex == startIndex
      ensures currentLevelIndex == 0 && cyclesCompleted == 0
      ensures Valid()
    {
      useMultiLevelSequence := useMulti;
      availableLevels := levels;
      startLevelIndex := startIndex;
      currentLevelIndex := 0;
      cyclesCompleted := 0;
    }

    /** The index and the cycle count never go negative. */
    predicate Valid()
      reads this
    {
      currentLevelIndex >= 0 && cyclesCompleted >= 0
    }

    predicate IsSequenceActive()
      reads this
    {
      useMultiLevelSequence && |availableLevels| > 0
    }

    /** `ValidateSetup`'s part on the sequencer's own state: no levels
      switch the sequence off. */
    method ValidateSetup()
      modifies this`useMultiLevelSequence
      ensures useMultiLevelSequence == (old(useMultiLevelSequence) && |availableLevels| > 0)
      ensures IsSequenceActive() == old(IsSequenceActive())
    {
      if |availableLevels| == 0 {
        useMultiLevelSequence := false;
      }
    }

    /** `InitializeSequence`: a non-negative argument, else the configured
      start index, clamped into the list; the cycle count restarts. */
    method InitializeSequence(startIndex: int)
      requires Valid()
      modifies this`currentLevelIndex, this`cyclesCompleted
      ensures Valid()
      ensures !IsSequenceActive() ==> currentLevelIndex == old(currentLevelIndex) && cyclesCompleted == old(cyclesCompleted)
      ensures IsSequenceActive() ==> cyclesCompleted == 0 && 0 <= currentLevelIndex < |availableLevels|
      ensures IsSequenceActive() ==>
        currentLevelIndex == Clamp(if startIndex >= 0 then startIndex else startLevelIndex, 0, |availableLevels| - 1)
    {
      if !useMultiLevelSequence || |availableLevels| == 0 {
        return;
      }
      if startIndex >= 0 {
        currentLevelIndex := Clamp(startIndex, 0, |availableLevels| - 1);
      } else {
        currentLevelIndex := Clamp(startLevelIndex, 0, |availableLevels| - 1);
      }
      cyclesCompleted := 0;
    }

    /** `LoadNextLevel`. The index is never negative, so C#'s remainder
      is Dafny's. */
    method LoadNextLevel()
      requires Valid()
      modifies this`currentLevelIndex, this`cyclesCompleted
      ensures Valid()
      ensures !IsSequenceActive() ==> currentLevelIndex == old(currentLevelIndex) && cyclesCompleted == old(cyclesCompleted)
      ensures IsSequenceActive() ==>
        (currentLevelIndex, cyclesCompleted) == Next((old(currentLevelIndex), old(cyclesCompleted)), |availableLevels|)
    {
      if !useMultiLevelSequence || |availableLevels| == 0 {
        return;
      }
      currentLevelIndex := (currentLevelIndex + 1) % |availableLevels|;
      if currentLevelIndex == 0 {
        cyclesCompleted := cyclesCompleted + 1;
      }
    }

    /** `LoadLevelByIndex`: an index outside the list is refused. */
    method LoadLevelByIndex(index: int) returns (loaded: bool)
      requires Valid()
      modifies this`currentLevelIndex
      ensures Valid()
      ensures loaded <==> IsSequenceActive() && 0 <= index < |availableLevels|
      ensures currentLevelIndex == if loaded then index else old(currentLevelIndex)
    {
      if !useMultiLevelSequence || |availableLevels| == 0 {
        return false;
      }
      if index < 0 || index >= |availableLevels| {
        return false;
      }
      currentLevelIndex := index;
      return true;
    }

    function GetTotalLevelsCount(): (n: nat)
      reads this
      ensures n == |availableLevels|
    {
      |availableLevels|
    }

    /** `GetCurrentLevelEntry`; None stands for `default`. */
    function GetCurrentLevelEntry(): (e: Option<LevelFileEntry>)
      reads this
      ensures e.Some? <==> 0 <= currentLevelIndex < |availableLevels|
      ensures e.Some? ==> e.value == availableLevels[currentLevelIndex]
    {
      if 0 <= currentLevelIndex < |availableLevels| then Some(availableLevels[currentLevelIndex]) else None
    }

    /** `GetCurrentLevelInfo`: "name (k/n)" with k the 1-based index. */
    function GetCurrentLevelInfo(): (info: string)
      requires Valid()
      reads this
      ensures currentLevelIndex < |availableLevels| ==>
        StartsWith(info, availableLevels[currentLevelIndex].fileName + " (")
      ensures currentLevelIndex >= |availableLevels| ==> info == "No level loaded"
    {
      if currentLevelIndex < |availableLevels| then
        var name := availableLevels[currentLevelIndex].fileName;
        var info := name + " (" + Digits(currentLevelIndex + 1) + "/" + Digits(|availableLevels|) + ")";
        assert info[..|name + " ("|] == name + " (";
        info
      else "No level loaded"
    }

    /** `AddLevelToSequence`: an entry without a text asset is ignored. */
    method AddLevelToSequence(levelEntry: LevelFileEntry, hasTextAsset: bool)
      modifies this`availableLevels
      ensures availableLevels == if hasTextAsset then old(availableLevels) + [levelEntry] else old(availableLevels)
    {
      if hasTextAsset {
        availableLevels := availableLevels + [levelEntry];
      }
    }

    /** `RemoveLevelFromSequence`: drops the entry at `index` and moves the
      current index back one when it was at or after it. */
    method RemoveLevelFromSequence(index: int)
      requires Valid()
      modifies this`availableLevels, this`currentLevelIndex
      ensures Valid()
      ensures !(0 <= index < old(|availableLevels|)) ==>
        availableLevels == old(availableLevels) && currentLevelIndex == old(currentLevelIndex)
      ensures 0 <= index < old(|availableLevels|) ==>
        availableLevels == old(availableLevels[..index] + availableLevels[index + 1..])
      ensures 0 <= index < old(|availableLevels|) ==>
        currentLevelIndex == if old(currentLevelIndex) >= index then
          (if old(currentLevelIndex) > 0 then old(currentLevelIndex) - 1 else 0) else old(currentLevelIndex)
      ensures old(currentLevelIndex < |availableLevels|) && |availableLevels| > 0 ==>
        currentLevelIndex < |availableLevels|
    {
      if index >= 0 && index < |availableLevels| {
        availableLevels := availableLevels[..index] + availableLevels[index + 1..];
        if currentLevelIndex >= index {
          currentLevelIndex := if currentLevelIndex - 1 > 0 then currentLevelIndex - 1 else 0;
        }
      }
    }

    /** `ShuffleLevelSequence`: for each i, swaps entry i with entry
      `Random.Range(i, count)`, draw i of the oracle; then restarts at 0.
      A list of at most one entry is left alone. */
    method ShuffleLevelSequence(raws: nat -> nat)
      requires Valid()
      modifies this`availableLevels, this`currentLevelIndex
      ensures Valid()
      ensures multiset(availableLevels) == multiset(old(availableLevels))
      ensures |old(availableLevels)| > 1 ==> currentLevelIndex == 0
      ensures |old(availableLevels)| <= 1 ==>
        availableLevels == old(availableLevels) && currentLevelIndex == old(currentLevelIndex)
    {
      if |availableLevels| > 1 {
        var i := 0;
        while i < |availableLevels|
          invariant 0 <= i <= |availableLevels|
          invariant |availableLevels| == |old(availableLevels)|
          invariant multiset(availableLevels) == multiset(old(availableLevels))
        {
          var temp := availableLevels[i];
          var randomIndex := UnityRange(i, |availableLevels|, raws(i));
          availableLevels := availableLevels[i := availableLevels[randomIndex]][randomIndex := temp];
          i := i + 1;
        }
        currentLevelIndex := 0;
      }
    }
  }

  /** The one-step index update `RemoveLevelFromSequence` applies keeps
      the current level when it was before the removed one, and keeps the
      same entry when it was after it. */
  lemma RemoveKeepsCurrent(levels: seq<LevelFileEntry>, current: int, index: int)
    requires 0 <= index < |levels| && 0 <= current < |levels| && current != index
    ensures var after := levels[..index] + levels[index + 1..];
      var c := if current >= index then (if current > 0 then current - 1 else 0) else current;
      0 <= c < |after| && after[c] == levels[current]
  {
  }
}

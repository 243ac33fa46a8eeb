/** Round and anomaly progression of the game loop (Assets/Scripts/LevelManager.cs).
    The counters are static in the source, so they survive scene loads; here they are
    the fields of the one LevelManager object. A scene load is the scene name a method
    returns; the random draws are parameters: `draw` stands for Random.value and
    `roll % n` for Random.Range(0, n). */
module LevelProgress {
  import opened Wrappers

  /** The rule of ProcessDoorChoice: the anomaly door is right in an anomaly scene,
      the normal door in the normal scene. */
  function IsCorrectChoice(sceneIsAnomaly: bool, choseAnomalyDoor: bool): (correct: bool)
    ensures correct <==> choseAnomalyDoor == sceneIsAnomaly
  {
    if sceneIsAnomaly then choseAnomalyDoor else !choseAnomalyDoor
  }

  ghost predicate Distinct(s: seq<int>) {
    forall i, j :: 0 <= i < j < |s| ==> s[i] != s[j]
  }

  ghost predicate AllBelow(s: seq<int>, n: int) {
    forall i :: 0 <= i < |s| ==> 0 <= s[i] < n
  }

  /** The indices 0 .. n-1 that `used` does not hold, in ascending order: the list
      GetRandomUnusedAnomalyScene builds before it draws. */
  function Unused(used: seq<int>, n: nat): (r: seq<int>)
    ensures forall x :: x in r <==> 0 <= x < n && x !in used
    ensures forall i :: 0 <= i < |r| ==> 0 <= r[i] < n
    ensures forall i, j :: 0 <= i < j < |r| ==> r[i] < r[j]
    ensures |r| <= n
  {
    if n == 0 then []
    else Unused(used, n - 1) + (if n - 1 in used then [] else [n - 1])
  }

  /** The condition under which LoadNextScene picks an anomaly scene. */
  function WillBeAnomaly(draw: real, anomalyChance: real, sceneCount: nat, usedCount: nat): (b: bool)
    ensures b ==> sceneCount > 0 && usedCount < sceneCount && draw < anomalyChance
  {
    draw < anomalyChance && sceneCount > 0 && usedCount < sceneCount
  }

  /** The loop of GetRandomUnusedAnomalyScene that collects every index not yet used. */
  method AvailableIndices(used: seq<int>, n: nat) returns (available: seq<int>)
    ensures available == Unused(used, n)
  {
    available := [];
    for i := 0 to n
      invariant available == Unused(used, i)
    {
      if i !in used {
        available := available + [i];
      }
    }
  }

  function SetOf(s: seq<int>): set<int> {
    set x | x in s
  }

  function Range(n: nat): set<int> {
    if n == 0 then {} else Range(n - 1) + {n - 1}
  }

  lemma {:induction false} DistinctSetSize(s: seq<int>)
    requires Distinct(s)
    ensures |SetOf(s)| == |s|
  {
    if s != [] {
      var init := s[..|s| - 1];
      assert Distinct(init);
      DistinctSetSize(init);
      assert SetOf(s) == SetOf(init) + {s[|s| - 1]};
      assert s[|s| - 1] !in SetOf(init);
    }
  }

  /** Range(n) holds exactly the n numbers 0 .. n-1. */
  lemma {:induction false} RangeSize(n: nat)
    ensures forall x :: x in Range(n) <==> 0 <= x < n
    ensures |Range(n)| == n
  {
    if n > 0 {
      RangeSize(n - 1);
      assert n - 1 !in Range(n - 1);
    }
  }

  /** A duplicate-free list of indices below n holds at most n of them: the used
      list can never outgrow the anomaly scene list. */
  lemma UsedListBounded(used: seq<int>, n: nat)
    requires Distinct(used) && AllBelow(used, n)
    ensures |used| <= n
  {
    DistinctSetSize(used);
    RangeSize(n);
    forall x | x in SetOf(used) ensures x in Range(n) {
      var i :| 0 <= i < |used| && used[i] == x;
    }
    SubsetSize(SetOf(used), Range(n));
  }

  lemma SubsetSize(a: set<int>, b: set<int>)
    requires a <= b
    ensures |a| <= |b|
  {
    assert b == a + (b - a);
  }

  /** While fewer indices are used than there are scenes, some index is still free,
      so the "everything used" branch of GetRandomUnusedAnomalyScene is not taken. */
  lemma UnusedNonEmpty(used: seq<int>, n: nat)
    requires Distinct(used) && |used| < n
    ensures |Unused(used, n)| > 0
  {
    if |Unused(used, n)| == 0 {
      RangeSize(n);
      forall x | x in Range(n) ensures x in SetOf(used) {
        assert x !in Unused(used, n);
      }
      SubsetSize(Range(n), SetOf(used));
      DistinctSetSize(used);
      assert false;
    }
  }

  /** Appending an index that is below n and not yet used keeps the used list valid. */
  lemma AppendFresh(used: seq<int>, x: int, n: nat)
    requires Distinct(used) && AllBelow(used, n)
    requires 0 <= x < n && x !in used
    ensures Distinct(used + [x]) && AllBelow(used + [x], n) && |used + [x]| <= n
  {
    var u := used + [x];
    forall i, j | 0 <= i < j < |u| ensures u[i] != u[j] {
      if j == |used| {
        assert u[i] == used[i];
      }
    }
    UsedListBounded(u, n);
  }

  /** With nothing used, the free list is 0, 1, ..., n-1. */
  lemma {:induction false} UnusedOfNothing(n: nat)
    ensures |Unused([], n)| == n
    ensures forall k :: 0 <= k < n ==> Unused([], n)[k] == k
  {
    if n > 0 {
      UnusedOfNothing(n - 1);
    }
  }

  /** Decimal digits of a natural number, as C# string interpolation prints it. */
  function DecimalString(n: nat): (s: string)
    ensures |s| > 0
    ensures forall i :: 0 <= i < |s| ==> '0' <= s[i] <= '9'
  {
    if n < 10 then [DigitChar(n)] else DecimalString(n / 10) + [DigitChar(n % 10)]
  }

  function DigitChar(d: nat): (c: char)
    requires d < 10
    ensures '0' <= c <= '9'
  {
    ['0', '1', '2', '3', '4', '5', '6', '7', '8', '9'][d]
  }

  function DigitValue(c: char): nat {
    if '0' <= c <= '9' then (c as int - '0' as int) else 0
  }

  /** Reads a string of decimal digits back as a number. */
  function ParseDecimal(s: string): nat {
    if s == [] then 0 else ParseDecimal(s[..|s| - 1]) * 10 + DigitValue(s[|s| - 1])
  }

  lemma {:induction false} DecimalRoundTrip(n: nat)
    ensures ParseDecimal(DecimalString(n)) == n
  {
    var s := DecimalString(n);
    if n < 10 {
      assert s[..|s| - 1] == [];
    } else {
      assert s[..|s| - 1] == DecimalString(n / 10);
      DecimalRoundTrip(n / 10);
    }
  }

  /** The round label of UpdateLevelUI: rounds are counted from 0 and shown from 1. */
  function LevelText(currentRound: nat): string {
    "Round " + DecimalString(currentRound + 1)
  }

  /** The round label starts with "Round " and names the 1-based round. */
  lemma LevelTextNamesRound(currentRound: nat)
    ensures |LevelText(currentRound)| > 6
    ensures LevelText(currentRound)[..6] == "Round "
    ensures ParseDecimal(LevelText(currentRound)[6..]) == currentRound + 1
  {
    assert LevelText(currentRound)[6..] == DecimalString(currentRound + 1);
    DecimalRoundTrip(currentRound + 1);
  }

  /** The anomaly status label of UpdateLevelUI. */
  function StatusText(currentSceneIsAnomaly: bool): (text: string)
    ensures text == "ANOMALY" <==> currentSceneIsAnomaly
    ensures text == "NORMAL" <==> !currentSceneIsAnomaly
  {
    if currentSceneIsAnomaly then "ANOMALY" else "NORMAL"
  }

  class LevelManager {
    const normalSceneName: string
    const anomalySceneNames: seq<string>
    const anomalyChance: real
    const winCondition: int

    var currentRound: int
    var currentSceneIsAnomaly: bool
    var correctChoices: int
    var wrongChoices: int
    var usedAnomalyIndices: seq<int>

    /** Round and correct count move together, counters are never negative, and the
        used list is a duplicate-free list of anomaly scene indices. */
    ghost predicate Valid()
      reads this
    {
      && currentRound == correctChoices
      && 0 <= correctChoices
      && 0 <= wrongChoices
      && Distinct(usedAnomalyIndices)
      && AllBelow(usedAnomalyIndices, |anomalySceneNames|)
      && |usedAnomalyIndices| <= |anomalySceneNames|
    }

    /** The inspector settings and the initial values of the static counters. */
    constructor (normalSceneName: string, anomalySceneNames: seq<string>, anomalyChance: real, winCondition: int)
      ensures Valid()
      ensures this.normalSceneName == normalSceneName && this.anomalySceneNames == anomalySceneNames
      ensures this.anomalyChance == anomalyChance && this.winCondition == winCondition
      ensures currentRound == 0 && correctChoices == 0 && wrongChoices == 0
      ensures !currentSceneIsAnomaly && usedAnomalyIndices == []
    {
      this.normalSceneName := normalSceneName;
      this.anomalySceneNames := anomalySceneNames;
      this.anomalyChance := anomalyChance;
      this.winCondition := winCondition;
      currentRound, correctChoices, wrongChoices := 0, 0, 0;
      currentSceneIsAnomaly := false;
      usedAnomalyIndices := [];
    }

    /** The normal scene clears the anomaly flag, a listed anomaly scene sets it, and
        any other scene leaves it as it was. */
    method DetermineCurrentSceneState(sceneName: string)
      requires Valid()
      modifies this
      ensures Valid()
      ensures sceneName == normalSceneName ==> !currentSceneIsAnomaly
      ensures sceneName != normalSceneName && sceneName in anomalySceneNames ==> currentSceneIsAnomaly
      ensures sceneName != normalSceneName && sceneName !in anomalySceneNames ==>
                currentSceneIsAnomaly == old(currentSceneIsAnomaly)
      ensures currentRound == old(currentRound) && correctChoices == old(correctChoices)
      ensures wrongChoices == old(wrongChoices) && usedAnomalyIndices == old(usedAnomalyIndices)
    {
      if sceneName == normalSceneName {
        currentSceneIsAnomaly := false;
      } else {
        var i := 0;
        while i < |anomalySceneNames|
          invariant 0 <= i <= |anomalySceneNames|
          invariant sceneName !in anomalySceneNames[..i]
          invariant currentSceneIsAnomaly == old(currentSceneIsAnomaly)
        {
          if anomalySceneNames[i] == sceneName {
            currentSceneIsAnomaly := true;
            return;
          }
          i := i + 1;
        }
        assert anomalySceneNames[..i] == anomalySceneNames;
      }
    }

    /** OnSceneLoaded: settle the anomaly flag for the new scene, then draw the two
        labels of UpdateLevelUI. */
    method OnSceneLoaded(sceneName: string) returns (levelText: string, statusText: string)
      requires Valid()
      modifies this
      ensures Valid()
      ensures sceneName == normalSceneName ==> !currentSceneIsAnomaly
      ensures sceneName != normalSceneName && sceneName in anomalySceneNames ==> currentSceneIsAnomaly
      ensures sceneName != normalSceneName && sceneName !in anomalySceneNames ==>
                currentSceneIsAnomaly == old(currentSceneIsAnomaly)
      ensures currentRound == old(currentRound) && correctChoices == old(correctChoices)
      ensures wrongChoices == old(wrongChoices) && usedAnomalyIndices == old(usedAnomalyIndices)
      ensures levelText == LevelText(currentRound) && statusText == StatusText(currentSceneIsAnomaly)
    {
      DetermineCurrentSceneState(sceneName);
      levelText := LevelText(currentRound);
      statusText := StatusText(currentSceneIsAnomaly);
    }

    /** Judges the player's door against the current scene and moves the game on.
        Returns the scene to load, or None when the win condition is reached. */
    method ProcessDoorChoice(choseAnomalyDoor: bool, draw: real, roll: nat) returns (load: Option<string>)
      requires Valid()
      modifies this
      ensures Valid()
      ensures currentSceneIsAnomaly == old(currentSceneIsAnomaly)
      ensures IsCorrectChoice(old(currentSceneIsAnomaly), choseAnomalyDoor) ==>
                && correctChoices == old(correctChoices) + 1
                && wrongChoices == old(wrongChoices)
                && (correctChoices >= winCondition ==> load == None && usedAnomalyIndices == old(usedAnomalyIndices))
                && (correctChoices < winCondition ==> load.Some? && NextSceneChosen(old(usedAnomalyIndices), draw, roll, load.value))
      ensures !IsCorrectChoice(old(currentSceneIsAnomaly), choseAnomalyDoor) ==>
                && wrongChoices == old(wrongChoices) + 1
                && correctChoices == 0 && usedAnomalyIndices == []
                && load == Some(normalSceneName)
    {
      var correctChoice: bool;
      if currentSceneIsAnomaly {
        correctChoice := choseAnomalyDoor;
      } else {
        correctChoice := !choseAnomalyDoor;
      }
      if correctChoice {
        load := HandleCorrectChoice(draw, roll);
      } else {
        var scene := HandleWrongChoice();
        load := Some(scene);
      }
    }

    /** What LoadNextScene does to the used list and which scene it names, in terms of
        the list before the call: the normal scene with the list unchanged, or the
        anomaly scene at a fresh index that is appended to the list. */
    ghost predicate NextSceneChosen(oldUsed: seq<int>, draw: real, roll: nat, scene: string)
      reads this
    {
      if WillBeAnomaly(draw, anomalyChance, |anomalySceneNames|, |oldUsed|) then
        && |usedAnomalyIndices| == |oldUsed| + 1
        && usedAnomalyIndices[..|oldUsed|] == oldUsed
        && var picked := usedAnomalyIndices[|oldUsed|];
           && picked !in oldUsed
           && 0 <= picked < |anomalySceneNames|
           && scene == anomalySceneNames[picked]
      else
        scene == normalSceneName && usedAnomalyIndices == oldUsed
    }

    method HandleCorrectChoice(draw: real, roll: nat) returns (load: Option<string>)
      requires Valid()
      modifies this
      ensures Valid()
      ensures currentSceneIsAnomaly == old(currentSceneIsAnomaly)
      ensures correctChoices == old(correctChoices) + 1 && wrongChoices == old(wrongChoices)
      ensures correctChoices >= winCondition ==> load == None && usedAnomalyIndices == old(usedAnomalyIndices)
      ensures correctChoices < winCondition ==> load.Some? && NextSceneChosen(old(usedAnomalyIndices), draw, roll, load.value)
    {
      correctChoices := correctChoices + 1;
      currentRound := currentRound + 1;
      if correctChoices >= winCondition {
        // WinGame only writes a log line.
        load := None;
        return;
      }
      var scene := LoadNextScene(draw, roll);
      load := Some(scene);
    }

    /** A wrong choice counts the mistake, wipes the progress and sends the player back
        to the normal scene. */
    method HandleWrongChoice() returns (load: string)
      requires Valid()
      modifies this
      ensures Valid()
      ensures currentSceneIsAnomaly == old(currentSceneIsAnomaly)
      ensures wrongChoices == old(wrongChoices) + 1
      ensures currentRound == 0 && correctChoices == 0 && usedAnomalyIndices == []
      ensures load == normalSceneName
    {
      wrongChoices := wrongChoices + 1;
      ResetProgress();
      load := normalSceneName;
    }

    method LoadNextScene(draw: real, roll: nat) returns (sceneToLoad: string)
      requires Valid()
      modifies this
      ensures Valid()
      ensures currentRound == old(currentRound) && correctChoices == old(correctChoices)
      ensures wrongChoices == old(wrongChoices) && currentSceneIsAnomaly == old(currentSceneIsAnomaly)
      ensures NextSceneChosen(old(usedAnomalyIndices), draw, roll, sceneToLoad)
    {
      var willBeAnomaly := draw < anomalyChance && |anomalySceneNames| > 0
                           && |usedAnomalyIndices| < |anomalySceneNames|;
      if willBeAnomaly {
        UnusedNonEmpty(usedAnomalyIndices, |anomalySceneNames|);
        sceneToLoad := GetRandomUnusedAnomalyScene(roll);
      } else {
        sceneToLoad := normalSceneName;
      }
    }

    /** Draws an anomaly scene that has not been used since the last reset and records
        it. When every index has been used, the list starts over and then holds only
        the new pick. */
    method GetRandomUnusedAnomalyScene(roll: nat) returns (scene: string)
      requires Valid() && |anomalySceneNames| > 0
      modifies this
      ensures Valid()
      ensures currentRound == old(currentRound) && correctChoices == old(correctChoices)
      ensures wrongChoices == old(wrongChoices) && currentSceneIsAnomaly == old(currentSceneIsAnomaly)
      ensures var free := Unused(old(usedAnomalyIndices), |anomalySceneNames|);
              if |free| > 0 then usedAnomalyIndices == old(usedAnomalyIndices) + [free[roll % |free|]]
              else usedAnomalyIndices == [roll % |anomalySceneNames|]
      ensures |usedAnomalyIndices| > 0
      ensures var picked := usedAnomalyIndices[|usedAnomalyIndices| - 1];
              0 <= picked < |anomalySceneNames| && scene == anomalySceneNames[picked]
    {
      var n := |anomalySceneNames|;
      var availableIndices := AvailableIndices(usedAnomalyIndices, n);
      if |availableIndices| == 0 {
        usedAnomalyIndices := [];
        for i := 0 to n
          invariant availableIndices == Unused([], i)
        {
          availableIndices := availableIndices + [i];
        }
        UnusedOfNothing(n);
      }
      var randomIndex := availableIndices[roll % |availableIndices|];
      assert randomIndex in availableIndices;
      AppendFresh(usedAnomalyIndices, randomIndex, n);
      usedAnomalyIndices := usedAnomalyIndices + [randomIndex];
      scene := anomalySceneNames[randomIndex];
    }

    method ResetProgress()
      requires Valid()
      modifies this
      ensures Valid()
      ensures currentRound == 0 && correctChoices == 0 && usedAnomalyIndices == []
      ensures wrongChoices == old(wrongChoices) && currentSceneIsAnomaly == old(currentSceneIsAnomaly)
    {
      currentRound := 0;
      correctChoices := 0;
      usedAnomalyIndices := [];
    }

    /** The full restart: progress and the mistake count go back to zero, and the normal
        scene is loaded. */
    method ResetGame() returns (load: string)
      requires Valid()
      modifies this
      ensures Valid()
      ensures currentRound == 0 && correctChoices == 0 && wrongChoices == 0 && usedAnomalyIndices == []
      ensures currentSceneIsAnomaly == old(currentSceneIsAnomaly)
      ensures load == normalSceneName
    {
      ResetProgress();
      wrongChoices := 0;
      load := normalSceneName;
    }
  }
}

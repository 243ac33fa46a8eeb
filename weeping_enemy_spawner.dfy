/** The trigger zone that places WeepingEnemies at spawn points
    (Assets/Scripts/WeepingEnemySpawner.cs). Spawn points are Transform references, an
    id or None for an unassigned slot; a spawned enemy is recorded as the id of the
    point it was created at. The engine's queries become parameters: `roll % n` stands
    for Random.Range(0, n) and `distances[i]` for Vector3.Distance from the player to
    spawn point i. */
module Spawning {
  import opened Wrappers

  datatype SpawnMode = Random | Sequential | All | Closest | Farthest

  datatype TriggerResult = Ignored | SpawnDelayed | SpawnedNow

  /** float.MaxValue, the starting minimum of GetClosestSpawnPoint. */
  const FloatMaxValue: real := 340282346638528859811704183484516925440.0

  /** `k` is what the first-minimum scan returns: the earliest point of least distance
      among those closer than float.MaxValue, or 0 when there is none. */
  ghost predicate IsFirstClosest(distances: seq<real>, k: nat) {
    && k < |distances|
    && (forall j :: 0 <= j < k ==> distances[j] > distances[k])
    && if exists j :: 0 <= j < |distances| && distances[j] < FloatMaxValue
       then distances[k] < FloatMaxValue && forall j :: 0 <= j < |distances| ==> distances[k] <= distances[j]
       else k == 0
  }

  /** `k` is what the first-maximum scan returns: the earliest point of greatest
      distance among those farther than 0, or 0 when there is none. */
  ghost predicate IsFirstFarthest(distances: seq<real>, k: nat) {
    && k < |distances|
    && (forall j :: 0 <= j < k ==> distances[j] < distances[k])
    && if exists j :: 0 <= j < |distances| && distances[j] > 0.0
       then distances[k] > 0.0 && forall j :: 0 <= j < |distances| ==> distances[k] >= distances[j]
       else k == 0
  }

  /** The loop of GetClosestSpawnPoint: strict `<` against a running minimum that
      starts at float.MaxValue, so ties go to the earliest point. */
  method ClosestIndex(distances: seq<real>) returns (closest: nat)
    requires |distances| > 0
    ensures IsFirstClosest(distances, closest)
  {
    closest := 0;
    var minDistance := FloatMaxValue;
    for i := 0 to |distances|
      invariant closest < |distances|
      invariant minDistance <= FloatMaxValue
      invariant minDistance < FloatMaxValue ==> closest < i && distances[closest] == minDistance
      invariant minDistance == FloatMaxValue ==> closest == 0
      invariant forall j :: 0 <= j < i ==> minDistance <= distances[j]
      invariant forall j :: 0 <= j < closest ==> distances[j] > minDistance
    {
      if distances[i] < minDistance {
        minDistance := distances[i];
        closest := i;
      }
    }
  }

  /** The loop of GetFarthestSpawnPoint: strict `>` against a running maximum that
      starts at 0, so ties go to the earliest point and all-zero distances give 0. */
  method FarthestIndex(distances: seq<real>) returns (farthest: nat)
    requires |distances| > 0
    ensures IsFirstFarthest(distances, farthest)
  {
    farthest := 0;
    var maxDistance := 0.0;
    for i := 0 to |distances|
      invariant farthest < |distances|
      invariant maxDistance >= 0.0
      invariant maxDistance > 0.0 ==> farthest < i && distances[farthest] == maxDistance
      invariant maxDistance == 0.0 ==> farthest == 0
      invariant forall j :: 0 <= j < i ==> maxDistance >= distances[j]
      invariant forall j :: 0 <= j < farthest ==> distances[j] < maxDistance
    {
      if distances[i] > maxDistance {
        maxDistance := distances[i];
        farthest := i;
      }
    }
  }

  /** The closest-point rule picks one point only: two indices that both satisfy it
      are the same. */
  lemma ClosestIsUnique(distances: seq<real>, a: nat, b: nat)
    requires IsFirstClosest(distances, a) && IsFirstClosest(distances, b)
    ensures a == b
  {
  }

  /** The farthest-point rule picks one point only. */
  lemma FarthestIsUnique(distances: seq<real>, a: nat, b: nat)
    requires IsFirstFarthest(distances, a) && IsFirstFarthest(distances, b)
    ensures a == b
  {
  }

  /** When every point is at distance 0 (the player stands on them all), the farthest
      point is the first one. */
  lemma FarthestOfZeroDistances(distances: seq<real>, k: nat)
    requires forall j :: 0 <= j < |distances| ==> distances[j] == 0.0
    requires IsFirstFarthest(distances, k)
    ensures k == 0
  {
  }

  /** The enemy a slot yields: its id when assigned, nothing when empty. */
  function Slot(point: Option<nat>): (ids: seq<nat>)
    ensures point.None? ==> ids == []
    ensures point.Some? ==> ids == [point.value]
  {
    if point.Some? then [point.value] else []
  }

  /** The ids of the assigned spawn points, in order: where SpawnAtAllPoints creates enemies. */
  function PresentIds(points: seq<Option<nat>>): (ids: seq<nat>)
    ensures |ids| <= |points|
  {
    if points == [] then []
    else PresentIds(points[..|points| - 1]) + Slot(points[|points| - 1])
  }

  /** SpawnAtAllPoints creates an enemy at exactly the assigned points, one for each
      point that is not unassigned, and so one per point when none is unassigned. */
  lemma {:induction false} PresentIdsMembers(points: seq<Option<nat>>)
    ensures forall x :: x in PresentIds(points) <==> Some(x) in points
    ensures |PresentIds(points)| == |points| - multiset(points)[None]
    ensures (forall i :: 0 <= i < |points| ==> points[i].Some?) ==> |PresentIds(points)| == |points|
  {
    if points != [] {
      var init := points[..|points| - 1];
      PresentIdsMembers(init);
      assert points == init + [points[|points| - 1]];
    }
    PresentIdsCount(points);
    if forall i :: 0 <= i < |points| ==> points[i].Some? {
      assert None !in points;
    }
  }

  /** One enemy per point that is not unassigned. */
  lemma {:induction false} PresentIdsCount(points: seq<Option<nat>>)
    ensures |PresentIds(points)| == |points| - multiset(points)[None]
  {
    if points != [] {
      var init, last := points[..|points| - 1], points[|points| - 1];
      PresentIdsCount(init);
      assert points == init + [last];
      assert multiset(points) == multiset(init) + multiset{last};
    } else {
      assert multiset(points) == multiset{};
    }
  }

  /** The enemy the point at index `i` yields; an index past the end yields none. */
  function SlotAt(points: seq<Option<nat>>, i: nat): (ids: seq<nat>)
    ensures i < |points| ==> ids == Slot(points[i])
    ensures i >= |points| ==> ids == []
  {
    if i < |points| then Slot(points[i]) else []
  }

  /** The ids of the assigned points among the picked indices, in pick order. */
  function PresentAt(points: seq<Option<nat>>, picks: seq<nat>): (ids: seq<nat>)
    ensures |ids| <= |picks|
  {
    if picks == [] then []
    else PresentAt(points, picks[..|picks| - 1]) + SlotAt(points, picks[|picks| - 1])
  }

  /** The slot each pick names, in pick order; an index past the end names no point. */
  function SlotsAt(points: seq<Option<nat>>, picks: seq<nat>): seq<Option<nat>>
  {
    if picks == [] then []
    else SlotsAt(points, picks[..|picks| - 1])
         + [if picks[|picks| - 1] < |points| then points[picks[|picks| - 1]] else None]
  }

  /** The picks create one enemy for each pick whose slot is assigned: the enemies are
      those SpawnAtAllPoints would create over the picked slots. */
  lemma {:induction false} PresentAtCount(points: seq<Option<nat>>, picks: seq<nat>)
    ensures |SlotsAt(points, picks)| == |picks|
    ensures PresentAt(points, picks) == PresentIds(SlotsAt(points, picks))
    ensures |PresentAt(points, picks)| == |picks| - multiset(SlotsAt(points, picks))[None]
  {
    if picks != [] {
      var init := picks[..|picks| - 1];
      PresentAtCount(points, init);
      var slots := SlotsAt(points, picks);
      assert slots[..|slots| - 1] == SlotsAt(points, init);
    }
    PresentIdsCount(SlotsAt(points, picks));
  }

  /** One more pick adds that point's enemy, if its slot is assigned, at the end. */
  lemma PresentAtSnoc(points: seq<Option<nat>>, picks: seq<nat>, pick: nat)
    requires pick < |points|
    ensures PresentAt(points, picks + [pick]) == PresentAt(points, picks) + Slot(points[pick])
  {
    assert (picks + [pick])[..|picks|] == picks;
  }

  /** When no slot is unassigned, the enemies spawned at the picks are exactly one per pick. */
  lemma {:induction false} PresentAtAllAssigned(points: seq<Option<nat>>, picks: seq<nat>)
    requires forall k :: 0 <= k < |picks| ==> picks[k] < |points|
    requires forall i :: 0 <= i < |points| ==> points[i].Some?
    ensures |PresentAt(points, picks)| == |picks|
    ensures forall k :: 0 <= k < |picks| ==> PresentAt(points, picks)[k] == points[picks[k]].value
  {
    if picks != [] {
      PresentAtAllAssigned(points, picks[..|picks| - 1]);
    }
  }

  class WeepingEnemySpawner {
    const hasPrefab: bool
    const spawnPoints: seq<Option<nat>>
    const spawnMode: SpawnMode
    const spawnOnce: bool
    const spawnDelay: real
    const spawnMultiple: bool
    const spawnCount: int
    const hasPlayer: bool

    var hasTriggered: bool
    var spawnedEnemies: seq<nat>
    var currentSpawnIndex: int

    /** The round-robin index is always a valid spawn point index (or 0). */
    ghost predicate Valid()
      reads this
    {
      0 <= currentSpawnIndex && (currentSpawnIndex == 0 || currentSpawnIndex < |spawnPoints|)
    }

    constructor (hasPrefab: bool, spawnPoints: seq<Option<nat>>, spawnMode: SpawnMode, spawnOnce: bool,
                 spawnDelay: real, spawnMultiple: bool, spawnCount: int, hasPlayer: bool)
      ensures Valid()
      ensures this.hasPrefab == hasPrefab && this.spawnPoints == spawnPoints && this.spawnMode == spawnMode
      ensures this.spawnOnce == spawnOnce && this.spawnDelay == spawnDelay
      ensures this.spawnMultiple == spawnMultiple && this.spawnCount == spawnCount && this.hasPlayer == hasPlayer
      ensures !hasTriggered && spawnedEnemies == [] && currentSpawnIndex == 0
    {
      this.hasPrefab := hasPrefab;
      this.spawnPoints := spawnPoints;
      this.spawnMode := spawnMode;
      this.spawnOnce := spawnOnce;
      this.spawnDelay := spawnDelay;
      this.spawnMultiple := spawnMultiple;
      this.spawnCount := spawnCount;
      this.hasPlayer := hasPlayer;
      hasTriggered := false;
      spawnedEnemies := [];
      currentSpawnIndex := 0;
    }

    /** How many times SpawnEnemies asks GetSpawnPoint for a point outside All mode. */
    function PickCount(): nat
    {
      if spawnMultiple then (if spawnCount > 0 then spawnCount else 0) else 1
    }

    /** What GetSpawnPoint returns when the round-robin index is `index`. */
    ghost predicate IsPick(index: int, roll: nat, distances: seq<real>, pick: nat)
      requires |spawnPoints| > 0 && |distances| == |spawnPoints|
    {
      if |spawnPoints| == 1 then pick == 0
      else match spawnMode
        case Random => pick == roll % |spawnPoints|
        case Sequential => pick == index
        case Closest => if hasPlayer then IsFirstClosest(distances, pick) else pick == 0
        case Farthest => if hasPlayer then IsFirstFarthest(distances, pick) else pick == 0
        case All => pick == 0
    }

    /** The round-robin index after one call to GetSpawnPoint: it advances modulo the
        number of points in Sequential mode with more than one point, else it stays. */
    function NextIndex(index: int): int
    {
      if spawnMode == Sequential && |spawnPoints| > 1 then (index + 1) % |spawnPoints| else index
    }

    /** The round-robin index after `k` calls to GetSpawnPoint starting from `index`. */
    function IndexAfter(index: int, k: nat): int
    {
      if k == 0 then index else NextIndex(IndexAfter(index, k - 1))
    }

    /** Pick after pick, each of `picks` is what GetSpawnPoint returns for its roll at
        the round-robin index reached from `start`. */
    ghost predicate PicksFollow(start: int, rolls: seq<nat>, distances: seq<real>, picks: seq<nat>)
      requires |spawnPoints| > 0 && |distances| == |spawnPoints| && |picks| <= |rolls|
    {
      if picks == [] then true
      else PicksFollow(start, rolls, distances, picks[..|picks| - 1])
           && picks[|picks| - 1] < |spawnPoints|
           && IsPick(IndexAfter(start, |picks| - 1), rolls[|picks| - 1], distances, picks[|picks| - 1])
    }

    /** A next pick that GetSpawnPoint could return extends a list of picks that follow. */
    lemma PicksFollowSnoc(start: int, rolls: seq<nat>, distances: seq<real>, picks: seq<nat>, pick: nat)
      requires |spawnPoints| > 0 && |distances| == |spawnPoints| && |picks| < |rolls|
      requires PicksFollow(start, rolls, distances, picks)
      requires pick < |spawnPoints| && IsPick(IndexAfter(start, |picks|), rolls[|picks|], distances, pick)
      ensures PicksFollow(start, rolls, distances, picks + [pick])
    {
      assert (picks + [pick])[..|picks|] == picks;
    }

    /** PicksFollow says, for every pick, what GetSpawnPoint's contract says of it. */
    lemma {:induction false} PicksFollowEach(start: int, rolls: seq<nat>, distances: seq<real>, picks: seq<nat>)
      requires |spawnPoints| > 0 && |distances| == |spawnPoints| && |picks| <= |rolls|
      requires PicksFollow(start, rolls, distances, picks)
      ensures forall k :: 0 <= k < |picks| ==> picks[k] < |spawnPoints|
      ensures forall k :: 0 <= k < |picks| ==> IsPick(IndexAfter(start, k), rolls[k], distances, picks[k])
    {
      if picks != [] {
        var init := picks[..|picks| - 1];
        PicksFollowEach(start, rolls, distances, init);
        forall k | 0 <= k < |picks|
          ensures picks[k] < |spawnPoints| && IsPick(IndexAfter(start, k), rolls[k], distances, picks[k])
        {
          if k < |init| {
            assert picks[k] == init[k];
          }
        }
      }
    }

    method GetSpawnPoint(roll: nat, distances: seq<real>) returns (pick: nat)
      requires Valid() && |spawnPoints| > 0 && |distances| == |spawnPoints|
      modifies this
      ensures Valid()
      ensures pick < |spawnPoints|
      ensures IsPick(old(currentSpawnIndex), roll, distances, pick)
      ensures currentSpawnIndex == NextIndex(old(currentSpawnIndex))
      ensures hasTriggered == old(hasTriggered) && spawnedEnemies == old(spawnedEnemies)
    {
      if |spawnPoints| == 1 {
        pick := 0;
        return;
      }
      match spawnMode {
        case Random =>
          pick := roll % |spawnPoints|;
        case Sequential =>
          pick := currentSpawnIndex;
          currentSpawnIndex := (currentSpawnIndex + 1) % |spawnPoints|;
        case Closest =>
          pick := GetClosestSpawnPoint(distances);
        case Farthest =>
          pick := GetFarthestSpawnPoint(distances);
        case All =>
          pick := 0;
      }
    }

    method GetClosestSpawnPoint(distances: seq<real>) returns (pick: nat)
      requires |spawnPoints| > 0 && |distances| == |spawnPoints|
      ensures hasPlayer ==> IsFirstClosest(distances, pick)
      ensures !hasPlayer ==> pick == 0
    {
      if !hasPlayer {
        return 0;
      }
      pick := ClosestIndex(distances);
    }

    method GetFarthestSpawnPoint(distances: seq<real>) returns (pick: nat)
      requires |spawnPoints| > 0 && |distances| == |spawnPoints|
      ensures hasPlayer ==> IsFirstFarthest(distances, pick)
      ensures !hasPlayer ==> pick == 0
    {
      if !hasPlayer {
        return 0;
      }
      pick := FarthestIndex(distances);
    }

    /** Creates an enemy at the point, unless the slot is unassigned. */
    method SpawnAtPoint(point: Option<nat>)
      modifies this
      ensures point.None? ==> spawnedEnemies == old(spawnedEnemies)
      ensures point.Some? ==> spawnedEnemies == old(spawnedEnemies) + [point.value]
      ensures hasTriggered == old(hasTriggered) && currentSpawnIndex == old(currentSpawnIndex)
    {
      if point.None? {
        return;
      }
      spawnedEnemies := spawnedEnemies + [point.value];
    }

    method SpawnAtAllPoints()
      modifies this
      ensures spawnedEnemies == old(spawnedEnemies) + PresentIds(spawnPoints)
      ensures hasTriggered == old(hasTriggered) && currentSpawnIndex == old(currentSpawnIndex)
    {
      for i := 0 to |spawnPoints|
        invariant spawnedEnemies == old(spawnedEnemies) + PresentIds(spawnPoints[..i])
        invariant hasTriggered == old(hasTriggered) && currentSpawnIndex == old(currentSpawnIndex)
      {
        assert spawnPoints[..i + 1][..i] == spawnPoints[..i];
        if spawnPoints[i] != None {
          SpawnAtPoint(spawnPoints[i]);
        }
      }
      assert spawnPoints[..|spawnPoints|] == spawnPoints;
    }

    /** What SpawnEnemies leaves, given the enemies and round-robin index before it:
        without a prefab or without spawn points nothing changes; in All mode the enemies
        are those of the assigned points; otherwise PickCount() picks, each what
        GetSpawnPoint returns at the index reached so far, and their enemies. */
    ghost predicate SpawnedFrom(before: seq<nat>, start: int, rolls: seq<nat>, distances: seq<real>,
                                picks: seq<nat>)
      reads this
    {
      if !hasPrefab || |spawnPoints| == 0 then
        spawnedEnemies == before && currentSpawnIndex == start && picks == []
      else if spawnMode == All then
        spawnedEnemies == PresentIds(spawnPoints) && currentSpawnIndex == start && picks == []
      else
        && |distances| == |spawnPoints| && |picks| == PickCount() && |picks| <= |rolls|
        && (forall k :: 0 <= k < |picks| ==> picks[k] < |spawnPoints|)
        && (forall k :: 0 <= k < |picks| ==> IsPick(IndexAfter(start, k), rolls[k], distances, picks[k]))
        && spawnedEnemies == PresentAt(spawnPoints, picks)
        && currentSpawnIndex == IndexAfter(start, |picks|)
    }

    /** Without a prefab or without spawn points nothing happens. Otherwise the earlier
        enemies are cleared and new ones are created: one per assigned point in All
        mode, else one per assigned point among the PickCount() picks. */
    method SpawnEnemies(rolls: seq<nat>, distances: seq<real>) returns (picks: seq<nat>)
      requires Valid() && |distances| == |spawnPoints| && |rolls| >= PickCount()
      modifies this
      ensures Valid()
      ensures hasTriggered == old(hasTriggered)
      ensures SpawnedFrom(old(spawnedEnemies), old(currentSpawnIndex), rolls, distances, picks)
    {
      picks := [];
      if !hasPrefab {
        return;
      }
      if |spawnPoints| == 0 {
        return;
      }
      ClearSpawnedEnemies();
      if spawnMode == All {
        SpawnAtAllPoints();
      } else {
        picks := SpawnPicks(rolls, distances);
      }
    }

    /** One pick of SpawnEnemies' loop: GetSpawnPoint, then SpawnAtPoint on its slot. */
    method SpawnNext(roll: nat, distances: seq<real>) returns (pick: nat)
      requires Valid() && |spawnPoints| > 0 && |distances| == |spawnPoints|
      modifies this
      ensures Valid() && pick < |spawnPoints|
      ensures IsPick(old(currentSpawnIndex), roll, distances, pick)
      ensures currentSpawnIndex == NextIndex(old(currentSpawnIndex))
      ensures spawnedEnemies == old(spawnedEnemies) + Slot(spawnPoints[pick])
      ensures hasTriggered == old(hasTriggered)
    {
      pick := GetSpawnPoint(roll, distances);
      SpawnAtPoint(spawnPoints[pick]);
    }

    /** The pick loop of SpawnEnemies: PickCount() calls to GetSpawnPoint, each followed
        by SpawnAtPoint on the chosen slot. */
    method SpawnPicks(rolls: seq<nat>, distances: seq<real>) returns (picks: seq<nat>)
      requires Valid() && |spawnPoints| > 0 && |distances| == |spawnPoints| && |rolls| >= PickCount()
      modifies this
      ensures Valid()
      ensures hasTriggered == old(hasTriggered)
      ensures |picks| == PickCount()
      ensures forall k :: 0 <= k < |picks| ==> picks[k] < |spawnPoints|
      ensures forall k :: 0 <= k < |picks| ==>
                IsPick(IndexAfter(old(currentSpawnIndex), k), rolls[k], distances, picks[k])
      ensures spawnedEnemies == old(spawnedEnemies) + PresentAt(spawnPoints, picks)
      ensures currentSpawnIndex == IndexAfter(old(currentSpawnIndex), |picks|)
    {
      picks := [];
      var count := PickCount();
      var i := 0;
      while i < count
        invariant 0 <= i && |picks| == i && i <= count
        invariant Valid()
        invariant hasTriggered == old(hasTriggered)
        invariant PicksFollow(old(currentSpawnIndex), rolls, distances, picks)
        invariant spawnedEnemies == old(spawnedEnemies) + PresentAt(spawnPoints, picks)
        invariant currentSpawnIndex == IndexAfter(old(currentSpawnIndex), i)
      {
        var pick := SpawnNext(rolls[i], distances);
        PresentAtSnoc(spawnPoints, picks, pick);
        PicksFollowSnoc(old(currentSpawnIndex), rolls, distances, picks, pick);
        picks := picks + [pick];
        i := i + 1;
      }
      PicksFollowEach(old(currentSpawnIndex), rolls, distances, picks);
    }

    /** The collider trigger: only the player counts, and a spawnOnce spawner that has
        fired stays quiet. With a positive delay the spawn is left for a later
        SpawnEnemies call. */
    method OnTriggerEnter(tag: string, hasController: bool, parentHasController: bool,
                          rolls: seq<nat>, distances: seq<real>)
      returns (result: TriggerResult, picks: seq<nat>)
      requires Valid() && |distances| == |spawnPoints| && |rolls| >= PickCount()
      modifies this
      ensures Valid()
      ensures var isPlayer := tag == "Player" || hasController || parentHasController;
              && (!isPlayer ==> result == Ignored)
              && (isPlayer && old(hasTriggered) && spawnOnce ==> result == Ignored)
              && (isPlayer && !(old(hasTriggered) && spawnOnce) ==>
                    hasTriggered && result == (if spawnDelay > 0.0 then SpawnDelayed else SpawnedNow))
      ensures result != SpawnedNow ==>
                spawnedEnemies == old(spawnedEnemies) && currentSpawnIndex == old(currentSpawnIndex) && picks == []
      ensures result == SpawnedNow ==>
                SpawnedFrom(old(spawnedEnemies), old(currentSpawnIndex), rolls, distances, picks)
      ensures result == Ignored ==> hasTriggered == old(hasTriggered)
    {
      result, picks := Ignored, [];
      var isPlayer := tag == "Player" || hasController || parentHasController;
      if !isPlayer {
        return;
      }
      if hasTriggered && spawnOnce {
        return;
      }
      hasTriggered := true;
      if spawnDelay > 0.0 {
        result := SpawnDelayed;
      } else {
        result := SpawnedNow;
        picks := SpawnEnemies(rolls, distances);
      }
    }

    /** Manual trigger: the same once-only gate, then an immediate spawn. */
    method TriggerSpawn(rolls: seq<nat>, distances: seq<real>) returns (fired: bool, picks: seq<nat>)
      requires Valid() && |distances| == |spawnPoints| && |rolls| >= PickCount()
      modifies this
      ensures Valid()
      ensures fired <==> !(old(hasTriggered) && spawnOnce)
      ensures fired ==> hasTriggered
                        && SpawnedFrom(old(spawnedEnemies), old(currentSpawnIndex), rolls, distances, picks)
      ensures !fired ==> hasTriggered == old(hasTriggered) && spawnedEnemies == old(spawnedEnemies)
                         && currentSpawnIndex == old(currentSpawnIndex) && picks == []
    {
      fired, picks := false, [];
      if hasTriggered && spawnOnce {
        return;
      }
      hasTriggered := true;
      fired := true;
      picks := SpawnEnemies(rolls, distances);
    }

    method ClearSpawnedEnemies()
      modifies this
      ensures spawnedEnemies == []
      ensures hasTriggered == old(hasTriggered) && currentSpawnIndex == old(currentSpawnIndex)
    {
      spawnedEnemies := [];
    }

    method ClearEnemies()
      modifies this
      ensures spawnedEnemies == []
      ensures hasTriggered == old(hasTriggered) && currentSpawnIndex == old(currentSpawnIndex)
    {
      ClearSpawnedEnemies();
    }

    /** Makes the spawner fire again and removes its enemies; the round-robin index stays. */
    method ResetSpawner()
      modifies this
      ensures !hasTriggered && spawnedEnemies == []
      ensures currentSpawnIndex == old(currentSpawnIndex)
    {
      hasTriggered := false;
      ClearSpawnedEnemies();
    }

    /** Re-enabling rearms the trigger and restarts the round robin; enemies stay. */
    method OnEnable()
      modifies this
      ensures Valid()
      ensures !hasTriggered && currentSpawnIndex == 0
      ensures spawnedEnemies == old(spawnedEnemies)
    {
      hasTriggered := false;
      currentSpawnIndex := 0;
    }
  }
}

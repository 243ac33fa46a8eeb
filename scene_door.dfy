/** The one-shot door the player walks through to give a verdict on the scene
    (Assets/Scripts/SceneDoor.cs). The door fires its events at once and tells the
    LevelManager 0.3 seconds later; that later call is the separate method
    NotifyLevelManager. */
module Doors {
  import opened Wrappers
  import LevelProgress

  datatype DoorType = Normal | Anomaly

  /** What a use of the door does, in order: animation trigger, PlaySound calls,
      UnityEvent invocations, the scheduled notification, or the error log line. */
  datatype DoorEvent =
    | OpenAnimation
    | EnterSound
    | DoorEntered
    | CorrectChoice
    | WrongChoice
    | WrongChoiceSound
    | NotifyScheduled
    | ManagerMissing

  /** The player test of OnTriggerEnter: the collider is tagged "Player", or it or one
      of its parents carries a PlayerController. */
  function IsPlayer(tag: string, hasController: bool, parentHasController: bool): bool
  {
    tag == "Player" || hasController || parentHasController
  }

  /** The verdict the door computes for its own events. It is the same rule that the
      LevelManager applies when it is notified. */
  function IsCorrect(isAnomalyScene: bool, choseAnomalyDoor: bool): (correct: bool)
    ensures correct == LevelProgress.IsCorrectChoice(isAnomalyScene, choseAnomalyDoor)
  {
    (isAnomalyScene && choseAnomalyDoor) || (!isAnomalyScene && !choseAnomalyDoor)
  }

  /** The events every use starts with: the animation, if any, the sound and the
      DoorEntered event. */
  function OpeningEvents(hasAnimator: bool): seq<DoorEvent> {
    (if hasAnimator then [OpenAnimation] else []) + [EnterSound, DoorEntered]
  }

  /** The events that follow a verdict: its UnityEvent, the extra sound of a wrong
      choice, and the scheduled notification. */
  function VerdictEvents(correct: bool): seq<DoorEvent> {
    (if correct then [CorrectChoice] else [WrongChoice, WrongChoiceSound]) + [NotifyScheduled]
  }

  /** The events of one use of the door. `sceneIsAnomaly` is the LevelManager's flag,
      or None when there is no LevelManager. */
  function UseEvents(doorType: DoorType, hasAnimator: bool, sceneIsAnomaly: Option<bool>): seq<DoorEvent> {
    OpeningEvents(hasAnimator)
    + match sceneIsAnomaly
      case None => [ManagerMissing]
      case Some(anomaly) => VerdictEvents(IsCorrect(anomaly, doorType == Anomaly))
  }

  /** The opening events hold DoorEntered once and no verdict, notification or error. */
  lemma OpeningCounts(hasAnimator: bool)
    ensures var m := multiset(OpeningEvents(hasAnimator));
            && m[CorrectChoice] == 0 && m[WrongChoice] == 0 && m[WrongChoiceSound] == 0
            && m[NotifyScheduled] == 0 && m[ManagerMissing] == 0 && m[DoorEntered] == 1
  {
    if hasAnimator {
      assert OpeningEvents(hasAnimator) == [OpenAnimation, EnterSound, DoorEntered];
    } else {
      assert OpeningEvents(hasAnimator) == [EnterSound, DoorEntered];
    }
  }

  /** The verdict events hold the one verdict, its sound when wrong, and one notification. */
  lemma VerdictCounts(correct: bool)
    ensures var m := multiset(VerdictEvents(correct));
            && m[CorrectChoice] == (if correct then 1 else 0)
            && m[WrongChoice] == (if correct then 0 else 1)
            && m[WrongChoiceSound] == m[WrongChoice]
            && m[NotifyScheduled] == 1 && m[ManagerMissing] == 0 && m[DoorEntered] == 0
  {
    if correct {
      assert VerdictEvents(correct) == [CorrectChoice, NotifyScheduled];
    } else {
      assert VerdictEvents(correct) == [WrongChoice, WrongChoiceSound, NotifyScheduled];
    }
  }

  /** With a LevelManager present, a use fires exactly one of the two verdict events,
      the right one for the scene, plays the wrong-choice sound only with the wrong
      verdict, and schedules exactly one notification. */
  lemma UseFiresOneVerdict(doorType: DoorType, hasAnimator: bool, anomaly: bool)
    ensures var m := multiset(UseEvents(doorType, hasAnimator, Some(anomaly)));
            && m[CorrectChoice] + m[WrongChoice] == 1
            && (m[CorrectChoice] == 1 <==> LevelProgress.IsCorrectChoice(anomaly, doorType == Anomaly))
            && m[WrongChoiceSound] == m[WrongChoice]
            && m[NotifyScheduled] == 1 && m[DoorEntered] == 1 && m[ManagerMissing] == 0
  {
    var correct := IsCorrect(anomaly, doorType == Anomaly);
    var opening, verdict := multiset(OpeningEvents(hasAnimator)), multiset(VerdictEvents(correct));
    OpeningCounts(hasAnimator);
    VerdictCounts(correct);
    assert multiset(UseEvents(doorType, hasAnimator, Some(anomaly))) == opening + verdict;
  }

  /** Without a LevelManager a use fires no verdict and schedules nothing. */
  lemma UseWithoutManager(doorType: DoorType, hasAnimator: bool)
    ensures var m := multiset(UseEvents(doorType, hasAnimator, None));
            && m[CorrectChoice] == 0 && m[WrongChoice] == 0 && m[WrongChoiceSound] == 0
            && m[NotifyScheduled] == 0 && m[ManagerMissing] == 1 && m[DoorEntered] == 1
  {
    OpeningCounts(hasAnimator);
    assert multiset(UseEvents(doorType, hasAnimator, None))
        == multiset(OpeningEvents(hasAnimator)) + multiset([ManagerMissing]);
  }

  class SceneDoor {
    const doorType: DoorType
    const hasAnimator: bool
    var hasBeenUsed: bool

    constructor (doorType: DoorType, hasAnimator: bool)
      ensures this.doorType == doorType && this.hasAnimator == hasAnimator
      ensures !hasBeenUsed
    {
      this.doorType := doorType;
      this.hasAnimator := hasAnimator;
      hasBeenUsed := false;
    }

    /** The LevelManager's anomaly flag as UseDoor reads it. */
    function ManagerView(manager: LevelProgress.LevelManager?): Option<bool>
      reads manager
    {
      if manager == null then None else Some(manager.currentSceneIsAnomaly)
    }

    /** A collider enters the door: only the player, and only on an unused door, uses it. */
    method OnTriggerEnter(tag: string, hasController: bool, parentHasController: bool,
                          manager: LevelProgress.LevelManager?)
      returns (events: seq<DoorEvent>)
      modifies this
      ensures IsPlayer(tag, hasController, parentHasController) && !old(hasBeenUsed) ==>
                hasBeenUsed && events == UseEvents(doorType, hasAnimator, ManagerView(manager))
      ensures !IsPlayer(tag, hasController, parentHasController) || old(hasBeenUsed) ==>
                hasBeenUsed == old(hasBeenUsed) && events == []
    {
      var isPlayer := tag == "Player" || hasController || parentHasController;
      events := [];
      if isPlayer && !hasBeenUsed {
        events := UseDoor(manager);
      }
    }

    /** Marks the door used and fires its events; a door already used does nothing. */
    method UseDoor(manager: LevelProgress.LevelManager?) returns (events: seq<DoorEvent>)
      modifies this
      ensures hasBeenUsed
      ensures old(hasBeenUsed) ==> events == []
      ensures !old(hasBeenUsed) ==> events == UseEvents(doorType, hasAnimator, ManagerView(manager))
    {
      events := [];
      if hasBeenUsed {
        return;
      }
      hasBeenUsed := true;
      if hasAnimator {
        events := events + [OpenAnimation];
      }
      events := events + [EnterSound, DoorEntered];
      if manager != null {
        var choseAnomalyDoor := doorType == Anomaly;
        var isCorrect := (manager.currentSceneIsAnomaly && choseAnomalyDoor)
                         || (!manager.currentSceneIsAnomaly && !choseAnomalyDoor);
        if isCorrect {
          events := events + [CorrectChoice];
        } else {
          events := events + [WrongChoice, WrongChoiceSound];
        }
        events := events + [NotifyScheduled];
      } else {
        events := events + [ManagerMissing];
      }
    }

    /** The delayed call: the LevelManager judges whether the anomaly door was taken. */
    method NotifyLevelManager(manager: LevelProgress.LevelManager?, draw: real, roll: nat)
      returns (load: Option<string>)
      requires manager != null ==> manager.Valid()
      modifies manager
      ensures manager != null ==> manager.Valid()
      ensures manager == null ==> load == None
      ensures manager != null ==> manager.currentSceneIsAnomaly == old(manager.currentSceneIsAnomaly)
      ensures manager != null ==>
                var correct := LevelProgress.IsCorrectChoice(old(manager.currentSceneIsAnomaly), doorType == Anomaly);
                && (correct ==> manager.correctChoices == old(manager.correctChoices) + 1
                                && manager.wrongChoices == old(manager.wrongChoices))
                && (correct && manager.correctChoices >= manager.winCondition ==>
                      load == None && manager.usedAnomalyIndices == old(manager.usedAnomalyIndices))
                && (correct && manager.correctChoices < manager.winCondition ==>
                      load.Some? && manager.NextSceneChosen(old(manager.usedAnomalyIndices), draw, roll, load.value))
                && (!correct ==> manager.wrongChoices == old(manager.wrongChoices) + 1
                                 && manager.correctChoices == 0 && manager.usedAnomalyIndices == []
                                 && load == Some(manager.normalSceneName))
    {
      load := None;
      if manager != null {
        load := manager.ProcessDoorChoice(doorType == Anomaly, draw, roll);
      }
    }

    /** Re-enabling the door after a scene load makes it usable again. */
    method OnEnable()
      modifies this
      ensures !hasBeenUsed
    {
      hasBeenUsed := false;
    }
  }

  /** A full passage through an unused door while the LevelManager is present: the
      verdict the door shows is the verdict the LevelManager records. */
  method PassThroughDoor(door: SceneDoor, manager: LevelProgress.LevelManager, draw: real, roll: nat)
    returns (events: seq<DoorEvent>, load: Option<string>)
    requires manager.Valid() && !door.hasBeenUsed
    modifies door, manager
    ensures manager.Valid() && door.hasBeenUsed
    ensures CorrectChoice in events <==> manager.correctChoices == old(manager.correctChoices) + 1
    ensures WrongChoice in events <==> manager.wrongChoices == old(manager.wrongChoices) + 1
  {
    events := door.OnTriggerEnter("Player", false, false, manager);
    UseFiresOneVerdict(door.doorType, door.hasAnimator, manager.currentSceneIsAnomaly);
    load := door.NotifyLevelManager(manager, draw, roll);
  }
}

/** A trigger volume that plays a clip when the player enters, leaves or stays in it
    (Assets/Scripts/TriggerSoundPlayer.cs). The clock Time.time is the parameter now and
    a collider is its tag. A delayed play is a coroutine; each started one is counted in
    pendingPlays and runs later as DelayedPlay. Each play (PlayOneShot together with the
    onSoundPlayed event) is counted in playCount. */
module TriggerSound {
  import UnityMath

  datatype TriggerType = OnEnter | OnExit | OnStay

  /** What one TryPlaySound call did. */
  datatype PlayOutcome = AlreadyPlayed | CoolingDown | MissingClip | Scheduled | Played

  /** A collider may trigger unless the tag filter is on and its tag differs. */
  function IsValidTarget(useTagFilter: bool, triggerTag: string, tag: string): bool
  {
    !(useTagFilter && tag != triggerTag)
  }

  /** Without the tag filter every collider may trigger; with it, exactly the colliders
      carrying the trigger tag. */
  lemma TagFilterAdmits(triggerTag: string, tag: string)
    ensures IsValidTarget(false, triggerTag, tag)
    ensures IsValidTarget(true, triggerTag, tag) <==> tag == triggerTag
  {
  }

  /** The gates of TryPlaySound, checked in order: play-once, cooldown, missing clip;
      a call that passes them all plays at once or, with a positive delay, schedules. */
  function TryPlayOutcome(playOnlyOnce: bool, hasPlayed: bool, now: real, lastPlayTime: real,
                          cooldown: real, hasClip: bool, delay: real): (o: PlayOutcome)
    ensures o == AlreadyPlayed <==> playOnlyOnce && hasPlayed
    ensures o == CoolingDown <==> !(playOnlyOnce && hasPlayed) && now - lastPlayTime < cooldown
    ensures o == MissingClip <==>
              !(playOnlyOnce && hasPlayed) && now - lastPlayTime >= cooldown && !hasClip
    ensures o in {Scheduled, Played} <==>
              !(playOnlyOnce && hasPlayed) && now - lastPlayTime >= cooldown && hasClip
    ensures o == Scheduled ==> delay > 0.0
    ensures o == Played ==> delay <= 0.0
  {
    if playOnlyOnce && hasPlayed then AlreadyPlayed
    else if now - lastPlayTime < cooldown then CoolingDown
    else if !hasClip then MissingClip
    else if delay > 0.0 then Scheduled
    else Played
  }

  /** Scheduling a delayed play leaves hasPlayed and lastPlayTime alone, so a later
      trigger before the delayed play still passes every gate and schedules again. */
  lemma SecondTriggerStillSchedules(playOnlyOnce: bool, hasPlayed: bool, first: real, second: real,
                                    lastPlayTime: real, cooldown: real, hasClip: bool, delay: real)
    requires TryPlayOutcome(playOnlyOnce, hasPlayed, first, lastPlayTime, cooldown, hasClip, delay) == Scheduled
    requires first <= second
    ensures TryPlayOutcome(playOnlyOnce, hasPlayed, second, lastPlayTime, cooldown, hasClip, delay) == Scheduled
  {
  }

  /** After a play, a play-once trigger refuses every later call. */
  lemma PlayOnceRefusesAfterPlay(now: real, lastPlayTime: real, cooldown: real, hasClip: bool, delay: real)
    ensures TryPlayOutcome(true, true, now, lastPlayTime, cooldown, hasClip, delay) == AlreadyPlayed
  {
  }

  class TriggerSoundPlayer {
    const useTagFilter: bool
    const triggerTag: string
    const triggerType: TriggerType
    const playOnlyOnce: bool
    const cooldown: real
    const delay: real

    /** Whether an AudioClip is assigned; the AudioClip property can change it. */
    var hasClip: bool
    var volume: real
    var hasPlayed: bool
    var lastPlayTime: real
    var isInsideTrigger: bool
    var pendingPlays: nat
    var playCount: nat

    /** The play state a fresh component starts from and ResetTrigger restores. */
    predicate IsInitialPlayState()
      reads this
    {
      !hasPlayed && lastPlayTime == -100.0
    }

    constructor (useTagFilter: bool, triggerTag: string, triggerType: TriggerType, playOnlyOnce: bool,
                 cooldown: real, delay: real, hasClip: bool, volume: real)
      ensures this.useTagFilter == useTagFilter && this.triggerTag == triggerTag
      ensures this.triggerType == triggerType && this.playOnlyOnce == playOnlyOnce
      ensures this.cooldown == cooldown && this.delay == delay
      ensures this.hasClip == hasClip && this.volume == volume
      ensures IsInitialPlayState() && !isInsideTrigger && pendingPlays == 0 && playCount == 0
    {
      this.useTagFilter := useTagFilter;
      this.triggerTag := triggerTag;
      this.triggerType := triggerType;
      this.playOnlyOnce := playOnlyOnce;
      this.cooldown := cooldown;
      this.delay := delay;
      this.hasClip := hasClip;
      this.volume := volume;
      hasPlayed := false;
      lastPlayTime := -100.0;
      isInsideTrigger := false;
      pendingPlays := 0;
      playCount := 0;
    }

    /** Plays the clip and records the play time. */
    method PlaySound(now: real)
      modifies this
      ensures hasPlayed && lastPlayTime == now && playCount == old(playCount) + 1
      ensures pendingPlays == old(pendingPlays) && isInsideTrigger == old(isInsideTrigger)
      ensures hasClip == old(hasClip) && volume == old(volume)
    {
      playCount := playCount + 1;
      hasPlayed := true;
      lastPlayTime := now;
    }

    /** The play state TryPlaySound leaves for its outcome, given the state before the
        call: a play records itself, a schedule adds a pending play, a refusal changes
        nothing. */
    ghost predicate PlayStateAfter(outcome: PlayOutcome, now: real, hadPlayed: bool, lastTime: real,
                                   plays: nat, pending: nat)
      reads this
    {
      match outcome
      case Played =>
        hasPlayed && lastPlayTime == now && playCount == plays + 1 && pendingPlays == pending
      case Scheduled =>
        hasPlayed == hadPlayed && lastPlayTime == lastTime && playCount == plays && pendingPlays == pending + 1
      case _ =>
        hasPlayed == hadPlayed && lastPlayTime == lastTime && playCount == plays && pendingPlays == pending
    }

    /** Passes the gates and then plays or schedules; a refused call changes nothing. */
    method TryPlaySound(now: real) returns (outcome: PlayOutcome)
      modifies this
      ensures outcome == TryPlayOutcome(playOnlyOnce, old(hasPlayed), now, old(lastPlayTime), cooldown, hasClip, delay)
      ensures PlayStateAfter(outcome, now, old(hasPlayed), old(lastPlayTime), old(playCount), old(pendingPlays))
      ensures isInsideTrigger == old(isInsideTrigger) && hasClip == old(hasClip) && volume == old(volume)
    {
      if playOnlyOnce && hasPlayed {
        return AlreadyPlayed;
      }
      if now - lastPlayTime < cooldown {
        return CoolingDown;
      }
      if !hasClip {
        return MissingClip;
      }
      if delay > 0.0 {
        pendingPlays := pendingPlays + 1;
        outcome := Scheduled;
      } else {
        PlaySound(now);
        outcome := Played;
      }
    }

    /** A scheduled play once its delay has passed; it plays without the gates. */
    method DelayedPlay(now: real)
      requires pendingPlays > 0
      modifies this
      ensures hasPlayed && lastPlayTime == now && playCount == old(playCount) + 1
      ensures pendingPlays == old(pendingPlays) - 1
      ensures isInsideTrigger == old(isInsideTrigger) && hasClip == old(hasClip) && volume == old(volume)
    {
      pendingPlays := pendingPlays - 1;
      PlaySound(now);
    }

    /** Makes the trigger playable again. */
    method ResetTrigger()
      modifies this
      ensures IsInitialPlayState()
      ensures isInsideTrigger == old(isInsideTrigger) && pendingPlays == old(pendingPlays)
      ensures playCount == old(playCount) && hasClip == old(hasClip) && volume == old(volume)
    {
      hasPlayed := false;
      lastPlayTime := -100.0;
    }

    /** Entering tries to play only for an OnEnter trigger and a valid collider. */
    method OnTriggerEnter(tag: string, now: real) returns (outcome: PlayOutcome, tried: bool)
      modifies this
      ensures tried <==> triggerType == OnEnter && IsValidTarget(useTagFilter, triggerTag, tag)
      ensures tried ==>
                outcome == TryPlayOutcome(playOnlyOnce, old(hasPlayed), now, old(lastPlayTime), cooldown, hasClip, delay)
                && PlayStateAfter(outcome, now, old(hasPlayed), old(lastPlayTime), old(playCount), old(pendingPlays))
      ensures !tried ==>
                hasPlayed == old(hasPlayed) && lastPlayTime == old(lastPlayTime)
                && playCount == old(playCount) && pendingPlays == old(pendingPlays)
      ensures isInsideTrigger == old(isInsideTrigger) && hasClip == old(hasClip) && volume == old(volume)
    {
      outcome, tried := AlreadyPlayed, false;
      if triggerType != OnEnter {
        return;
      }
      if !IsValidTarget(useTagFilter, triggerTag, tag) {
        return;
      }
      outcome := TryPlaySound(now);
      tried := true;
    }

    /** Leaving tries to play only for an OnExit trigger and a valid collider; whatever
        the trigger type, a collider with the trigger tag is no longer inside, unless an
        invalid collider on an OnExit trigger returned first. */
    method OnTriggerExit(tag: string, now: real) returns (outcome: PlayOutcome, tried: bool)
      modifies this
      ensures tried <==> triggerType == OnExit && IsValidTarget(useTagFilter, triggerTag, tag)
      ensures tried ==>
                outcome == TryPlayOutcome(playOnlyOnce, old(hasPlayed), now, old(lastPlayTime), cooldown, hasClip, delay)
                && PlayStateAfter(outcome, now, old(hasPlayed), old(lastPlayTime), old(playCount), old(pendingPlays))
      ensures !tried ==>
                hasPlayed == old(hasPlayed) && lastPlayTime == old(lastPlayTime)
                && playCount == old(playCount) && pendingPlays == old(pendingPlays)
      ensures triggerType == OnExit && !tried ==> isInsideTrigger == old(isInsideTrigger)
      ensures !(triggerType == OnExit && !tried) ==>
                isInsideTrigger == (if tag == triggerTag then false else old(isInsideTrigger))
      ensures hasClip == old(hasClip) && volume == old(volume)
    {
      outcome, tried := AlreadyPlayed, false;
      if triggerType == OnExit {
        if !IsValidTarget(useTagFilter, triggerTag, tag) {
          return;
        }
        outcome := TryPlaySound(now);
        tried := true;
      }
      if tag == triggerTag {
        isInsideTrigger := false;
      }
    }

    /** Staying marks the collider inside and tries to play, only for an OnStay trigger
        and a valid collider. */
    method OnTriggerStay(tag: string, now: real) returns (outcome: PlayOutcome, tried: bool)
      modifies this
      ensures tried <==> triggerType == OnStay && IsValidTarget(useTagFilter, triggerTag, tag)
      ensures tried ==>
                isInsideTrigger &&
                outcome == TryPlayOutcome(playOnlyOnce, old(hasPlayed), now, old(lastPlayTime), cooldown, hasClip, delay)
                && PlayStateAfter(outcome, now, old(hasPlayed), old(lastPlayTime), old(playCount), old(pendingPlays))
      ensures !tried ==>
                hasPlayed == old(hasPlayed) && lastPlayTime == old(lastPlayTime)
                && playCount == old(playCount) && pendingPlays == old(pendingPlays)
                && isInsideTrigger == old(isInsideTrigger)
      ensures hasClip == old(hasClip) && volume == old(volume)
    {
      outcome, tried := AlreadyPlayed, false;
      if triggerType != OnStay {
        return;
      }
      if !IsValidTarget(useTagFilter, triggerTag, tag) {
        return;
      }
      isInsideTrigger := true;
      outcome := TryPlaySound(now);
      tried := true;
    }

    /** The Volume setter keeps the volume a fraction. */
    method SetVolume(value: real)
      modifies this
      ensures volume == UnityMath.Clamp01(value) && 0.0 <= volume <= 1.0
      ensures 0.0 <= value <= 1.0 ==> volume == value
      ensures hasPlayed == old(hasPlayed) && lastPlayTime == old(lastPlayTime)
      ensures playCount == old(playCount) && pendingPlays == old(pendingPlays)
      ensures isInsideTrigger == old(isInsideTrigger) && hasClip == old(hasClip)
    {
      volume := UnityMath.Clamp01(value);
    }

    /** The AudioClip setter. */
    method SetClip(present: bool)
      modifies this
      ensures hasClip == present && volume == old(volume)
      ensures hasPlayed == old(hasPlayed) && lastPlayTime == old(lastPlayTime)
      ensures playCount == old(playCount) && pendingPlays == old(pendingPlays)
      ensures isInsideTrigger == old(isInsideTrigger)
    {
      hasClip := present;
    }

    /** Plays the clip outside all gates, without touching the play state. */
    method PlayManually()
      modifies this
      ensures playCount == (if hasClip then old(playCount) + 1 else old(playCount))
      ensures hasPlayed == old(hasPlayed) && lastPlayTime == old(lastPlayTime)
      ensures pendingPlays == old(pendingPlays) && isInsideTrigger == old(isInsideTrigger)
      ensures hasClip == old(hasClip) && volume == old(volume)
    {
      if hasClip {
        playCount := playCount + 1;
      }
    }
  }
}

/** The tutorial's typed-out hints (Assets/Scripts/TutorialManager.cs). The text on
    screen is the field text. The coroutine's timed waits are not modelled; what happens
    during them is given as the Enter presses that Update sees: presses[i] says whether
    Enter went down while the i-th letter of a hint was on screen. */
module Tutorial {

  /** The hints of the eleven tutorial steps, by step number. */
  const StepTexts: seq<string> := [
    "Welcome to the Tutorial!",
    "You can use the flashlight with the [F] key.",
    "Great! Now start walking with [WASD].",
    "Don't forget to escape from enemies!",
    "Use [Left Ctrl] to crouch.",
    "Hold [Left Shift] to sprint.",
    "Press [Space] to jump.",
    "The 'Red Door' is for anomalies. Enter it if you notice something is wrong.",
    "If there is no anomaly, you should go to the 'Blue Door'.",
    "Remember, you must enter the Blue Door in the first level!",
    "The flashlight recharges while it is turned off."
  ]

  /** The hint of a step: a non-empty text for steps 0 to 10, and "" for any other. */
  function GetStepText(step: int): (t: string)
    ensures 0 <= step <= 10 ==> |t| > 0 && t == StepTexts[step]
    ensures !(0 <= step <= 10) ==> t == ""
  {
    assert |StepTexts| == 11;
    if 0 <= step < |StepTexts| then StepTexts[step] else ""
  }

  const CompletionText: string := "Basic training completed!"
  const TutorialSceneName: string := "Level_0_Tutorial"

  class TutorialManager {
    var currentStep: nat
    var isTyping: bool
    var skipTyping: bool
    var skipWaiting: bool
    var currentFullText: string
    var text: string

    /** A fresh manager; Start clears the text. */
    constructor ()
      ensures currentStep == 0 && !isTyping && !skipTyping && !skipWaiting
      ensures currentFullText == "" && text == ""
    {
      currentStep := 0;
      isTyping := false;
      skipTyping := false;
      skipWaiting := false;
      currentFullText := "";
      text := "";
    }

    /** A frame: Enter completes the hint being typed, or else skips the wait. */
    method Update(enterPressed: bool)
      modifies this
      ensures enterPressed && old(isTyping) ==> skipTyping && skipWaiting == old(skipWaiting)
      ensures enterPressed && !old(isTyping) ==> skipWaiting && skipTyping == old(skipTyping)
      ensures !enterPressed ==> skipTyping == old(skipTyping) && skipWaiting == old(skipWaiting)
      ensures isTyping == old(isTyping) && text == old(text)
      ensures currentStep == old(currentStep) && currentFullText == old(currentFullText)
    {
      if enterPressed {
        if isTyping {
          skipTyping := true;
        } else {
          skipWaiting := true;
        }
      }
    }

    /** Types a hint letter by letter; an Enter press fills in the rest at once before
        the next letter. `frames` holds each text shown: frame k is the first k + 1
        letters, and the frames stop after the letter during which Enter first went down
        (or run to the end of the hint). The hint ends on screen either way. */
    method TypeText(target: string, presses: seq<bool>) returns (frames: seq<string>)
      modifies this
      ensures text == target && !isTyping
      ensures |frames| <= |target|
      ensures forall k :: 0 <= k < |frames| ==> frames[k] == target[..k + 1]
      ensures forall k :: 0 <= k < |frames| - 1 && k < |presses| ==> !presses[k]
      ensures |frames| < |target| ==> 0 < |frames| <= |presses| && presses[|frames| - 1]
      ensures skipTyping <==> 0 < |frames| <= |presses| && presses[|frames| - 1]
      ensures currentStep == old(currentStep) && currentFullText == old(currentFullText)
      ensures skipWaiting == old(skipWaiting)
    {
      isTyping := true;
      skipTyping := false;
      text := "";
      frames := [];
      var i := 0;
      while i < |target|
        invariant 0 <= i <= |target|
        invariant text == target[..i] && isTyping
        invariant |frames| == i
        invariant forall k :: 0 <= k < i ==> frames[k] == target[..k + 1]
        invariant forall k :: 0 <= k < i - 1 && k < |presses| ==> !presses[k]
        invariant skipTyping <==> 0 < i <= |presses| && presses[i - 1]
        invariant currentStep == old(currentStep) && currentFullText == old(currentFullText)
        invariant skipWaiting == old(skipWaiting)
      {
        if skipTyping {
          text := target;
          break;
        }
        text := text + [target[i]];
        assert text == target[..i + 1];
        frames := frames + [text];
        Update(i < |presses| && presses[i]);
        i := i + 1;
      }
      isTyping := false;
    }

    /** One pass of the step loop: the step's hint is typed out, the wait is reset, and
        the tutorial moves on to the next step. */
    method ShowStep(presses: seq<bool>)
      modifies this
      ensures currentStep == old(currentStep) + 1
      ensures currentFullText == GetStepText(old(currentStep)) && text == currentFullText
      ensures !isTyping && !skipWaiting
    {
      currentFullText := GetStepText(currentStep);
      var frames := TypeText(currentFullText, presses);
      skipWaiting := false;
      currentStep := currentStep + 1;
    }

    /** The step loop: each remaining step from currentStep to 10 shows its hint in
        order, once, then the completion message appears and the tutorial level is
        loaded again. `shown` lists the steps, stepPresses the Enter presses of each. */
    method AutoAdvance(stepPresses: seq<seq<bool>>) returns (shown: seq<nat>, load: string)
      modifies this
      ensures |shown| == (if old(currentStep) <= 10 then 11 - old(currentStep) else 0)
      ensures forall k :: 0 <= k < |shown| ==> shown[k] == old(currentStep) + k
      ensures forall k :: 0 <= k < |shown| ==> |GetStepText(shown[k])| > 0
      ensures currentStep == (if old(currentStep) <= 10 then 11 else old(currentStep))
      ensures |shown| > 0 ==> currentFullText == GetStepText(10) && !skipWaiting
      ensures text == CompletionText && load == TutorialSceneName
      ensures |shown| > 0 ==> !isTyping
      ensures |shown| == 0 ==> isTyping == old(isTyping)
    {
      shown := [];
      ghost var start := currentStep;
      while currentStep <= 10
        invariant currentStep == start + |shown|
        invariant start <= 10 ==> currentStep <= 11
        invariant start > 10 ==> shown == []
        invariant forall k :: 0 <= k < |shown| ==> shown[k] == start + k
        invariant |shown| > 0 ==> currentFullText == GetStepText(currentStep - 1) && !skipWaiting && !isTyping
        invariant |shown| == 0 ==> isTyping == old(isTyping)
        decreases 11 - currentStep
      {
        var presses := if |shown| < |stepPresses| then stepPresses[|shown|] else [];
        ShowStep(presses);
        shown := shown + [currentStep - 1];
      }
      text := CompletionText;
      load := TutorialSceneName;
    }
  }
}

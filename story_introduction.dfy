/** The once-per-session story shown on entering the tutorial level
    (Assets/Scripts/StoryIntroduction.cs). The static hasStoryPlayed flag lives in one
    StorySession object shared by every StoryIntroduction. The LevelManager is seen
    through its three public counters, or None when there is no LevelManager. The
    coroutine's waits and fades are not modelled: PlayStorySequence's part up to its
    first wait runs inside Start, the rest is PlayLines. */
module Story {
  import opened Wrappers
  import LevelProgress

  /** The LevelManager's public counters as the story check reads them. */
  datatype Counters = Counters(wrongChoices: int, correctChoices: int, currentRound: int)

  /** The counters of a live LevelManager. */
  function CountersOf(manager: LevelProgress.LevelManager): Counters
    reads manager
  {
    Counters(manager.wrongChoices, manager.correctChoices, manager.currentRound)
  }

  /** The story shows only when it has not played this session and the LevelManager,
      if there is one, records no choice and no round. */
  function ShouldShowStory(hasStoryPlayed: bool, manager: Option<Counters>): (show: bool)
    ensures hasStoryPlayed ==> !show
    ensures !hasStoryPlayed && manager.None? ==> show
    ensures !hasStoryPlayed && manager.Some? ==>
              (show <==> manager.value.wrongChoices <= 0 && manager.value.correctChoices <= 0
                         && manager.value.currentRound <= 0)
  {
    if hasStoryPlayed then false
    else match manager
      case None => true
      case Some(c) =>
        if c.wrongChoices > 0 || c.correctChoices > 0 then false
        else !(c.currentRound > 0)
  }

  /** A game that has just started, with a fresh LevelManager, shows the story; one with
      any recorded progress does not. */
  lemma FreshGameShowsStory(manager: LevelProgress.LevelManager)
    requires manager.Valid()
    ensures ShouldShowStory(false, Some(CountersOf(manager))) <==>
              manager.wrongChoices == 0 && manager.correctChoices == 0
  {
  }

  /** The static hasStoryPlayed flag: it lasts for the whole game session. */
  class StorySession {
    var hasStoryPlayed: bool

    constructor ()
      ensures !hasStoryPlayed
    {
      hasStoryPlayed := false;
    }

    /** Lets the story play again on the next entry. */
    method ResetStory()
      modifies this
      ensures !hasStoryPlayed
    {
      hasStoryPlayed := false;
    }
  }

  class StoryIntroduction {
    const storyLines: seq<string>
    const forceShowStory: bool

    var isPlaying: bool
    /** The story text on screen. */
    var text: string
    /** Whether the component has destroyed its GameObject. */
    var destroyed: bool

    constructor (storyLines: seq<string>, forceShowStory: bool)
      ensures this.storyLines == storyLines && this.forceShowStory == forceShowStory
      ensures !isPlaying && text == "" && !destroyed
    {
      this.storyLines := storyLines;
      this.forceShowStory := forceShowStory;
      isPlaying := false;
      text := "";
      destroyed := false;
    }

    /** Start: unless forced, a story that should not show destroys its object;
        otherwise the sequence starts and marks the story played before its first wait. */
    method Start(session: StorySession, manager: Option<Counters>) returns (shown: bool)
      modifies this, session
      ensures shown <==> forceShowStory || ShouldShowStory(old(session.hasStoryPlayed), manager)
      ensures shown ==> session.hasStoryPlayed && isPlaying && destroyed == old(destroyed)
      ensures !shown ==> session.hasStoryPlayed == old(session.hasStoryPlayed) && destroyed
                         && isPlaying == old(isPlaying)
      ensures text == old(text)
    {
      if !forceShowStory && !ShouldShowStory(session.hasStoryPlayed, manager) {
        destroyed := true;
        return false;
      }
      shown := true;
      isPlaying := true;
      session.hasStoryPlayed := true;
    }

    /** Types one line a character at a time; frames holds the text after each
        character, so frame k shows the first k + 1 characters. */
    method TypewriterEffect(line: string) returns (frames: seq<string>)
      modifies this
      ensures |frames| == |line|
      ensures forall k :: 0 <= k < |frames| ==> frames[k] == line[..k + 1]
      ensures text == line
      ensures isPlaying == old(isPlaying) && destroyed == old(destroyed)
    {
      text := "";
      frames := [];
      for i := 0 to |line|
        invariant text == line[..i]
        invariant |frames| == i
        invariant forall k :: 0 <= k < i ==> frames[k] == line[..k + 1]
        invariant isPlaying == old(isPlaying) && destroyed == old(destroyed)
      {
        text := text + [line[i]];
        assert text == line[..i + 1];
        frames := frames + [text];
      }
    }

    /** The rest of PlayStorySequence: each line is cleared and typed out in order, then
        the sequence ends and the object is destroyed. `shownLines` holds the text as each
        line finishes. */
    method PlayLines() returns (shownLines: seq<string>)
      modifies this
      ensures shownLines == storyLines
      ensures |storyLines| > 0 ==> text == storyLines[|storyLines| - 1]
      ensures |storyLines| == 0 ==> text == old(text)
      ensures !isPlaying && destroyed
    {
      shownLines := [];
      for i := 0 to |storyLines|
        invariant shownLines == storyLines[..i]
        invariant i > 0 ==> text == storyLines[i - 1]
        invariant i == 0 ==> text == old(text)
      {
        text := "";
        var frames := TypewriterEffect(storyLines[i]);
        shownLines := shownLines + [text];
      }
      isPlaying := false;
      destroyed := true;
    }
  }

  /** A second intro that is not forced never shows the story: either the first one
      showed it and marked the session, or the first was refused and the second, seeing
      the same session and the same LevelManager, is refused too. */
  method EnterTwice(session: StorySession, first: StoryIntroduction, second: StoryIntroduction,
                    manager: Option<Counters>)
    returns (firstShown: bool, secondShown: bool)
    requires !second.forceShowStory && first != second
    modifies session, first, second
    ensures !secondShown
  {
    firstShown := first.Start(session, manager);
    secondShown := second.Start(session, manager);
  }
}

/** The pause registry (Assets/Scripts/PauseManager.cs). Behaviour references are ids,
    None standing for a null entry; a scene load turns the entries of the behaviours it
    destroyed into None, as Unity's null comparison then sees them; `enabled` maps each behaviour to its
    `enabled` flag. Time.timeScale is the field timeScale. Resume re-enables the
    behaviours one frame later through a coroutine; each started coroutine is counted
    in pendingEnables and runs as a separate EnableScriptsNextFrame step. Panels and
    the cursor are not modelled. */
module Pausing {
  import opened Wrappers

  /** The ids of the non-null entries of a list. */
  function Ids(list: seq<Option<nat>>): (ids: set<nat>)
    ensures forall i :: 0 <= i < |list| && list[i].Some? ==> list[i].value in ids
  {
    set i | 0 <= i < |list| && list[i].Some? :: list[i].value
  }

  /** Appending one entry adds its id, if it has one, and nothing else. */
  lemma IdsSnoc(list: seq<Option<nat>>, b: Option<nat>)
    ensures Ids(list + [b]) == Ids(list) + (if b.Some? then {b.value} else {})
  {
    var l := list + [b];
    forall x | x in Ids(l) ensures x in Ids(list) + (if b.Some? then {b.value} else {}) {
      var i :| 0 <= i < |l| && l[i].Some? && l[i].value == x;
      if i < |list| {
        assert list[i] == l[i];
      }
    }
    forall x | x in Ids(list) ensures x in Ids(l) {
      var i :| 0 <= i < |list| && list[i].Some? && list[i].value == x;
      assert l[i] == list[i];
    }
    if b.Some? {
      assert l[|list|] == b;
    }
  }

  /** No behaviour appears twice among the non-null entries. */
  ghost predicate NoDuplicates(list: seq<Option<nat>>) {
    forall i, j :: 0 <= i < j < |list| && list[i].Some? ==> list[i] != list[j]
  }

  /** The enabled map after setting `enabled = value` on every non-null entry of
      `list`, in list order. */
  function WithEnabled(enabled: map<nat, bool>, list: seq<Option<nat>>, value: bool): (m: map<nat, bool>)
    ensures forall id :: id in m <==> id in enabled || id in Ids(list)
    ensures forall id :: id in Ids(list) ==> m[id] == value
    ensures forall id :: id in enabled && id !in Ids(list) ==> m[id] == enabled[id]
  {
    if list == [] then enabled
    else
      var init := list[..|list| - 1];
      assert list == init + [list[|list| - 1]];
      IdsSnoc(init, list[|list| - 1]);
      var m := WithEnabled(enabled, init, value);
      match list[|list| - 1]
      case None => m
      case Some(id) => m[id := value]
  }

  /** Setting the flag over one more entry sets it on that entry's behaviour, if any. */
  lemma WithEnabledSnoc(enabled: map<nat, bool>, list: seq<Option<nat>>, x: Option<nat>, value: bool)
    ensures WithEnabled(enabled, list + [x], value)
            == (if x.Some? then WithEnabled(enabled, list, value)[x.value := value] else WithEnabled(enabled, list, value))
  {
    assert (list + [x])[..|list|] == list;
  }

  /** The list after RegisterForPause's first loop: each non-null behaviour that is not
      yet listed is appended, in order. */
  function AddMissing(list: seq<Option<nat>>, behaviours: seq<Option<nat>>): (r: seq<Option<nat>>)
    ensures |list| <= |r| && r[..|list|] == list
    ensures forall k :: |list| <= k < |r| ==> r[k].Some?
    ensures Ids(r) == Ids(list) + Ids(behaviours)
    ensures NoDuplicates(list) ==> NoDuplicates(r)
  {
    if behaviours == [] then list
    else
      var init := behaviours[..|behaviours| - 1];
      var b := behaviours[|behaviours| - 1];
      assert behaviours == init + [b];
      IdsSnoc(init, b);
      var l := AddMissing(list, init);
      if b.Some? && b !in l then
        IdsSnoc(l, b);
        assert forall i :: 0 <= i < |l| ==> (l + [b])[i] == l[i];
        l + [b]
      else
        assert b.Some? ==> b.value in Ids(l);
        l
  }

  /** The list without its null entries, as RemoveAll(x => x == null) leaves it. */
  function WithoutNulls(list: seq<Option<nat>>): (r: seq<Option<nat>>)
    ensures forall k :: 0 <= k < |r| ==> r[k].Some?
    ensures Ids(r) == Ids(list)
    ensures |r| <= |list|
  {
    if list == [] then []
    else
      var init := list[..|list| - 1];
      assert list == init + [list[|list| - 1]];
      IdsSnoc(init, list[|list| - 1]);
      var r := WithoutNulls(init);
      if list[|list| - 1].Some? then
        IdsSnoc(r, list[|list| - 1]);
        r + [list[|list| - 1]]
      else r
  }

  /** The list as a scene load leaves it: each entry whose behaviour the load destroyed
      now compares equal to null, every other entry stays where it was. */
  function NullDestroyed(list: seq<Option<nat>>, destroyed: set<nat>): (r: seq<Option<nat>>)
    ensures |r| == |list|
    ensures forall k :: 0 <= k < |r| ==> r[k] == list[k] || r[k] == None
    ensures Ids(r) == Ids(list) - destroyed
  {
    if list == [] then []
    else
      var init := list[..|list| - 1];
      var last := list[|list| - 1];
      assert list == init + [last];
      IdsSnoc(init, last);
      var r := NullDestroyed(init, destroyed);
      var x := if last.Some? && last.value in destroyed then None else last;
      IdsSnoc(r, x);
      r + [x]
  }

  /** Removing nulls keeps a duplicate-free list duplicate-free. */
  lemma {:induction false} WithoutNullsNoDuplicates(list: seq<Option<nat>>)
    requires NoDuplicates(list)
    ensures NoDuplicates(WithoutNulls(list))
  {
    if list != [] {
      var init := list[..|list| - 1];
      var last := list[|list| - 1];
      assert NoDuplicates(init);
      WithoutNullsNoDuplicates(init);
      var r := WithoutNulls(init);
      if last.Some? {
        assert last.value !in Ids(init);
        forall i | 0 <= i < |r| ensures r[i] != last {
          assert r[i].value in Ids(r);
        }
        var r' := r + [last];
        forall i, j | 0 <= i < j < |r'| && r'[i].Some? ensures r'[i] != r'[j] {
          if j == |r| {
            assert r'[i] == r[i];
          }
        }
      }
    }
  }

  /** The registration loop of RegisterForPause: walks the behaviours in order and
      appends each non-null one that the list does not hold yet. */
  method AppendMissing(list: seq<Option<nat>>, behaviours: seq<Option<nat>>) returns (r: seq<Option<nat>>)
    ensures r == AddMissing(list, behaviours)
  {
    r := list;
    for i := 0 to |behaviours|
      invariant r == AddMissing(list, behaviours[..i])
    {
      assert behaviours[..i + 1] == behaviours[..i] + [behaviours[i]];
      if behaviours[i].Some? && behaviours[i] !in r {
        r := r + [behaviours[i]];
      }
    }
    assert behaviours[..|behaviours|] == behaviours;
  }

  /** The loop that sets `enabled` on every non-null entry of a list, in list order. */
  method ApplyEnabled(enabled: map<nat, bool>, list: seq<Option<nat>>, value: bool) returns (m: map<nat, bool>)
    ensures m == WithEnabled(enabled, list, value)
  {
    m := enabled;
    for i := 0 to |list|
      invariant m == WithEnabled(enabled, list[..i], value)
    {
      assert list[..i + 1] == list[..i] + [list[i]];
      WithEnabledSnoc(enabled, list[..i], list[i], value);
      if list[i].Some? {
        m := m[list[i].value := value];
      }
    }
    assert list[..|list|] == list;
  }

  class PauseManager {
    const mainMenuSceneName: string
    const disablePauseInMainMenu: bool

    var disableWhilePaused: seq<Option<nat>>
    var enabled: map<nat, bool>
    var isPaused: bool
    var canPause: bool
    var timeScale: real
    var pendingEnables: nat

    constructor (mainMenuSceneName: string, disablePauseInMainMenu: bool,
                 disableWhilePaused: seq<Option<nat>>, enabled: map<nat, bool>)
      ensures this.mainMenuSceneName == mainMenuSceneName
      ensures this.disablePauseInMainMenu == disablePauseInMainMenu
      ensures this.disableWhilePaused == disableWhilePaused && this.enabled == enabled
      ensures !isPaused && canPause && timeScale == 1.0 && pendingEnables == 0
    {
      this.mainMenuSceneName := mainMenuSceneName;
      this.disablePauseInMainMenu := disablePauseInMainMenu;
      this.disableWhilePaused := disableWhilePaused;
      this.enabled := enabled;
      isPaused := false;
      canPause := true;
      timeScale := 1.0;
      pendingEnables := 0;
    }

    /** Adds the given behaviours that are not null and not yet listed; when the game
        is paused, the given behaviours are switched off at once. A null array does
        nothing. */
    method RegisterForPause(behaviours: Option<seq<Option<nat>>>)
      modifies this
      ensures behaviours.None? ==>
                disableWhilePaused == old(disableWhilePaused) && enabled == old(enabled)
      ensures behaviours.Some? ==>
                && disableWhilePaused == AddMissing(old(disableWhilePaused), behaviours.value)
                && enabled == (if isPaused then WithEnabled(old(enabled), behaviours.value, false) else old(enabled))
      ensures isPaused == old(isPaused) && canPause == old(canPause)
      ensures timeScale == old(timeScale) && pendingEnables == old(pendingEnables)
    {
      if behaviours.None? {
        return;
      }
      disableWhilePaused := AppendMissing(disableWhilePaused, behaviours.value);
      if isPaused {
        enabled := ApplyEnabled(enabled, behaviours.value, false);
      }
    }

    /** Sets `enabled` to `value` on every non-null listed behaviour. */
    method SetListedEnabled(value: bool)
      modifies this
      ensures enabled == WithEnabled(old(enabled), disableWhilePaused, value)
      ensures disableWhilePaused == old(disableWhilePaused)
      ensures isPaused == old(isPaused) && canPause == old(canPause)
      ensures timeScale == old(timeScale) && pendingEnables == old(pendingEnables)
    {
      enabled := ApplyEnabled(enabled, disableWhilePaused, value);
    }

    /** Freezes time and switches the listed behaviours off; when paused already it
        does nothing. */
    method Pause()
      modifies this
      ensures old(isPaused) ==> enabled == old(enabled) && timeScale == old(timeScale)
      ensures !old(isPaused) ==> timeScale == 0.0 && enabled == WithEnabled(old(enabled), disableWhilePaused, false)
      ensures isPaused
      ensures disableWhilePaused == old(disableWhilePaused) && canPause == old(canPause)
      ensures pendingEnables == old(pendingEnables)
    {
      if isPaused {
        return;
      }
      isPaused := true;
      timeScale := 0.0;
      SetListedEnabled(false);
    }

    /** Restores time at once and leaves the listed behaviours to the coroutine of the
        next frame; when not paused it does nothing. */
    method Resume()
      modifies this
      ensures !isPaused
      ensures !old(isPaused) ==> timeScale == old(timeScale) && pendingEnables == old(pendingEnables)
      ensures old(isPaused) ==> timeScale == 1.0 && pendingEnables == old(pendingEnables) + 1
      ensures enabled == old(enabled)
      ensures disableWhilePaused == old(disableWhilePaused) && canPause == old(canPause)
    {
      if !isPaused {
        return;
      }
      isPaused := false;
      timeScale := 1.0;
      pendingEnables := pendingEnables + 1;
    }

    /** The frame after Resume: every non-null listed behaviour is switched back on.
        It runs whatever isPaused is by then. */
    method EnableScriptsNextFrame()
      requires pendingEnables > 0
      modifies this
      ensures pendingEnables == old(pendingEnables) - 1
      ensures enabled == WithEnabled(old(enabled), disableWhilePaused, true)
      ensures disableWhilePaused == old(disableWhilePaused)
      ensures isPaused == old(isPaused) && canPause == old(canPause) && timeScale == old(timeScale)
    {
      pendingEnables := pendingEnables - 1;
      SetListedEnabled(true);
    }

    /** Unconditionally unpauses, restores time and switches every non-null listed
        behaviour on. */
    method ForceResume()
      modifies this
      ensures !isPaused && timeScale == 1.0
      ensures enabled == WithEnabled(old(enabled), disableWhilePaused, true)
      ensures disableWhilePaused == old(disableWhilePaused) && canPause == old(canPause)
      ensures pendingEnables == old(pendingEnables)
    {
      isPaused := false;
      timeScale := 1.0;
      SetListedEnabled(true);
    }

    /** Opens the settings panel over the pause menu, pausing first when not paused. */
    method OpenSettings()
      modifies this
      ensures isPaused
      ensures old(isPaused) ==> enabled == old(enabled) && timeScale == old(timeScale)
      ensures !old(isPaused) ==> timeScale == 0.0 && enabled == WithEnabled(old(enabled), disableWhilePaused, false)
      ensures disableWhilePaused == old(disableWhilePaused) && canPause == old(canPause)
      ensures pendingEnables == old(pendingEnables)
    {
      if !isPaused {
        Pause();
      }
    }

    /** Leaving for the main menu: a forced resume, then the menu scene is loaded. */
    method BackToMenu() returns (load: string)
      modifies this
      ensures !isPaused && timeScale == 1.0
      ensures enabled == WithEnabled(old(enabled), disableWhilePaused, true)
      ensures disableWhilePaused == old(disableWhilePaused) && canPause == old(canPause)
      ensures pendingEnables == old(pendingEnables)
      ensures load == mainMenuSceneName
    {
      ForceResume();
      load := mainMenuSceneName;
    }

    /** After a scene load: the entries of the behaviours the load destroyed are null;
        the scene's player is listed if it is not already; the main menu disables
        pausing and force-resumes, any other scene enables pausing and drops the null
        entries. */
    method OnSceneLoaded(sceneName: string, player: Option<nat>, destroyed: set<nat>)
      modifies this
      ensures var survivors := NullDestroyed(old(disableWhilePaused), destroyed);
              var listed := if player.Some? && player !in survivors
                            then survivors + [player] else survivors;
              if disablePauseInMainMenu && sceneName == mainMenuSceneName then
                && !canPause && !isPaused && timeScale == 1.0
                && disableWhilePaused == listed
                && enabled == WithEnabled(old(enabled), listed, true)
              else
                && canPause && isPaused == old(isPaused) && timeScale == old(timeScale)
                && disableWhilePaused == WithoutNulls(listed)
                && enabled == old(enabled)
      ensures pendingEnables == old(pendingEnables)
      ensures Ids(disableWhilePaused)
              == (Ids(old(disableWhilePaused)) - destroyed) + (if player.Some? then {player.value} else {})
    {
      disableWhilePaused := NullDestroyed(disableWhilePaused, destroyed);
      if player.Some? && player !in disableWhilePaused {
        IdsSnoc(disableWhilePaused, player);
        disableWhilePaused := disableWhilePaused + [player];
      }
      assert player.Some? ==> player.value in Ids(disableWhilePaused);
      if disablePauseInMainMenu && sceneName == mainMenuSceneName {
        canPause := false;
        ForceResume();
        return;
      }
      canPause := true;
      disableWhilePaused := WithoutNulls(disableWhilePaused);
    }

    /** A frame: while pausing is allowed, the pause key toggles between Pause and Resume. */
    method Update(pausePressed: bool)
      modifies this
      ensures !old(canPause) || !pausePressed ==>
                isPaused == old(isPaused) && enabled == old(enabled) && timeScale == old(timeScale)
                && pendingEnables == old(pendingEnables)
      ensures old(canPause) && pausePressed && !old(isPaused) ==>
                && isPaused && timeScale == 0.0 && pendingEnables == old(pendingEnables)
                && enabled == WithEnabled(old(enabled), disableWhilePaused, false)
      ensures old(canPause) && pausePressed && old(isPaused) ==>
                && !isPaused && timeScale == 1.0 && pendingEnables == old(pendingEnables) + 1
                && enabled == old(enabled)
      ensures disableWhilePaused == old(disableWhilePaused) && canPause == old(canPause)
    {
      if !canPause {
        return;
      }
      if pausePressed {
        if !isPaused {
          Pause();
        } else {
          Resume();
        }
      }
    }
  }
}

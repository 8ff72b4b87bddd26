/**
 * The main menu's save-slot logic (MainMenuController.cs): which slot "Continue" picks,
 * what the slot buttons and labels show, and which call each button handler makes.
 *
 * `SaveManager.Instance` is a parameter `sm`, the slot store of the save manager, or
 * `null` when no save manager exists.  The buttons and labels wired in the inspector are
 * fields holding their state, `None` when nothing is wired.  Loading a slot or a scene is not carried out here:
 * a handler returns the call it makes, as a `MenuAction`.  Dates are unix seconds, and
 * their local-time formatting is kept as the number it formats.
 */
module MainMenuController {
  import opened Wrappers
  import SaveSystem
  import SaveManager

  /** A UGUI button: only `interactable` matters here. */
  datatype Button = Button(interactable: bool)

  /** What a label shows: a fixed text, or a formatted save time. */
  datatype LabelText = Plain(text: string) | SavedAt(unixTime: int) | ContinueFrom(slot: nat, unixTime: int)

  const EmptyText := "Empty"
  const NoSaveText := "Play \U{2022} No save found"

  /** A TextMeshPro label. */
  datatype Label = Label(text: LabelText)

  /** The call a button handler ends in. */
  datatype MenuAction = NoAction | LoadSlot(slot: int) | LoadLevel(name: string)

  /** What the save manager's store holds, or `None` when there is no save manager. */
  datatype Saves = Saves(files: SaveSystem.Files, dataDir: string)

  function SavesOf(sm: SaveSystem.SlotStore?): Option<Saves>
    reads sm
  {
    if sm == null then None else Some(Saves(sm.files, sm.persistentDataPath))
  }

  /** `hasSM && SaveManager.Instance.SlotExists(slot)`. */
  predicate SlotExists(s: Option<Saves>, slot: int)
  {
    s.Some? && SaveSystem.ReadSlot(s.value.files, s.value.dataDir, SaveManager.ClampSlot(slot)).Some?
  }

  /** `SaveManager.Instance.GetSlotSavedTime(slot)`; no time without a save manager. */
  function SlotTime(s: Option<Saves>, slot: int, files: SaveManager.FileCodec): Outcome<Option<int>>
  {
    if s.None? then Returned(None)
    else SaveManager.SavedTime(SaveSystem.ReadSlot(s.value.files, s.value.dataDir, SaveManager.ClampSlot(slot)), files)
  }

  /** The three slots' saved times, unless reading one of them throws. */
  function SlotTimes(s: Option<Saves>, files: SaveManager.FileCodec): (r: Outcome<seq<Option<int>>>)
    ensures r.Returned? ==> |r.value| == 3
  {
    var t1, t2, t3 := SlotTime(s, 1, files), SlotTime(s, 2, files), SlotTime(s, 3, files);
    if t1.Threw? || t2.Threw? || t3.Threw? then Threw else Returned([t1.value, t2.value, t3.value])
  }

  /** `t.HasValue && t.Value > latest`. */
  predicate Later(t: Option<int>, latest: int)
  {
    t.Some? && t.value > latest
  }

  /** One step of `GetMostRecentSlot`: slot `k`, with time `t`, against the best so far. */
  function Consider(best: (int, nat), t: Option<int>, k: nat): (int, nat)
  {
    if Later(t, best.0) then (t.value, k) else best
  }

  /**
   * The slot `GetMostRecentSlot` picks from the three saved times: 0 when none is later
   * than `DateTime.MinValue`; otherwise a slot with the greatest time, the lowest such slot
   * because only a strictly later time replaces the best so far.
   */
  function MostRecentSlot(ts: seq<Option<int>>): (slot: nat)
    requires |ts| == 3
    ensures slot <= 3
    ensures slot == 0 <==> forall k :: 0 <= k < 3 ==> !Later(ts[k], SaveManager.MinUnixTime)
    ensures slot > 0 ==> Later(ts[slot - 1], SaveManager.MinUnixTime)
    ensures slot > 0 ==> forall k :: 0 <= k < 3 ==> !Later(ts[k], ts[slot - 1].value)
    ensures slot > 0 ==> forall k :: 0 <= k < slot - 1 ==> !Later(ts[k], ts[slot - 1].value - 1)
  {
    Consider(Consider(Consider((SaveManager.MinUnixTime, 0), ts[0], 1), ts[1], 2), ts[2], 3).1
  }

  class MainMenuController {
    var disableLoadButtonsIfEmpty: bool
    const level1SceneName: string
    var playContinueLabel: Option<Label>
    var loadSlot1Button: Option<Button>
    var loadSlot2Button: Option<Button>
    var loadSlot3Button: Option<Button>
    var slot1Label: Option<Label>
    var slot2Label: Option<Label>
    var slot3Label: Option<Label>
    var deleteSlot1Button: Option<Button>
    var deleteSlot2Button: Option<Button>
    var deleteSlot3Button: Option<Button>

    /** The inspector defaults: load buttons of empty slots disabled, the first level "Level1", nothing wired. */
    constructor ()
      ensures disableLoadButtonsIfEmpty && level1SceneName == "Level1"
      ensures playContinueLabel == None && slot1Label == None && slot2Label == None && slot3Label == None
      ensures loadSlot1Button == None && loadSlot2Button == None && loadSlot3Button == None
      ensures deleteSlot1Button == None && deleteSlot2Button == None && deleteSlot3Button == None
    {
      disableLoadButtonsIfEmpty := true;
      level1SceneName := "Level1";
      playContinueLabel, slot1Label, slot2Label, slot3Label := None, None, None, None;
      loadSlot1Button, loadSlot2Button, loadSlot3Button := None, None, None;
      deleteSlot1Button, deleteSlot2Button, deleteSlot3Button := None, None, None;
    }

    /**
     * `GetMostRecentSlot`: 0 without a save manager; otherwise the three times are read
     * (an exception from any of them escapes) and the latest slot is kept.
     */
    method GetMostRecentSlot(sm: SaveSystem.SlotStore?, files: SaveManager.FileCodec) returns (r: Outcome<nat>)
      ensures sm == null ==> r == Returned(0)
      ensures r.Threw? <==> SlotTimes(SavesOf(sm), files).Threw?
      ensures r.Returned? ==> r.value == MostRecentSlot(SlotTimes(SavesOf(sm), files).value)
    {
      if sm == null {
        return Returned(0);
      }
      var latest := SaveManager.MinUnixTime;
      var slot: nat := 0;
      var t1 := SaveManager.GetSlotSavedTime(sm, 1, files);
      if t1.Threw? {
        return Threw;
      }
      var t2 := SaveManager.GetSlotSavedTime(sm, 2, files);
      if t2.Threw? {
        return Threw;
      }
      var t3 := SaveManager.GetSlotSavedTime(sm, 3, files);
      if t3.Threw? {
        return Threw;
      }
      if t1.value.Some? && t1.value.value > latest {
        latest, slot := t1.value.value, 1;
      }
      if t2.value.Some? && t2.value.value > latest {
        latest, slot := t2.value.value, 2;
      }
      if t3.value.Some? && t3.value.value > latest {
        latest, slot := t3.value.value, 3;
      }
      r := Returned(slot);
    }

    /**
     * `SetSlotUI`, returning the button and label it leaves: the load button is usable when
     * empty slots are not disabled or the slot exists; the label shows the saved time when
     * the slot exists and has one, and "Empty" otherwise.  Reading the time throws on an
     * unreadable file, after the button was set and with the label untouched.  Nothing is
     * wired in place of a missing button or label.
     */
    method SetSlotUI(slot: int, btn: Option<Button>, slotLabel: Option<Label>, sm: SaveSystem.SlotStore?,
                     files: SaveManager.FileCodec)
      returns (r: Outcome<()>, btn': Option<Button>, slotLabel': Option<Label>)
      ensures btn' == LoadButtonShown(btn, disableLoadButtonsIfEmpty, SavesOf(sm), slot)
      ensures r.Threw? <==> slotLabel.Some? && SlotTime(SavesOf(sm), slot, files).Threw?
      ensures r.Threw? ==> slotLabel' == slotLabel
      ensures r.Returned? ==> slotLabel' == SlotLabelShown(slotLabel, SavesOf(sm), slot, files)
    {
      var present := false;
      if sm != null {
        present := sm.Exists(SaveManager.ClampSlot(slot));
      }
      btn', slotLabel' := btn, slotLabel;
      if btn.Some? {
        btn' := Some(Button(!disableLoadButtonsIfEmpty || present));
      }
      if slotLabel.Some? {
        if sm != null {
          var t := SaveManager.GetSlotSavedTime(sm, slot, files);
          if t.Threw? {
            return Threw, btn', slotLabel';
          }
          slotLabel' := Some(Label(if present && t.value.Some? then SavedAt(t.value.value) else Plain(EmptyText)));
        } else {
          slotLabel' := Some(Label(Plain(EmptyText)));
        }
      }
      r := Returned(());
    }

    /**
     * `RefreshUI`: the continue label names the most recent slot and its time, or says there
     * is no save; each slot's load button and label show the slot; and a delete button is
     * usable exactly when there is a save manager and its slot exists.  An unreadable slot
     * file makes the refresh throw while the most recent slot is sought, before anything is
     * written.
     */
    method RefreshUI(sm: SaveSystem.SlotStore?, files: SaveManager.FileCodec) returns (r: Outcome<()>)
      modifies this
      ensures r.Threw? <==> SlotTimes(old(SavesOf(sm)), files).Threw?
      ensures r.Threw? ==> unchanged(this)
      ensures r.Returned? ==> playContinueLabel == ContinueLabelShown(old(playContinueLabel), SlotTimes(old(SavesOf(sm)), files).value)
      ensures r.Returned? ==> loadSlot1Button == LoadButtonShown(old(loadSlot1Button), old(disableLoadButtonsIfEmpty), old(SavesOf(sm)), 1)
      ensures r.Returned? ==> loadSlot2Button == LoadButtonShown(old(loadSlot2Button), old(disableLoadButtonsIfEmpty), old(SavesOf(sm)), 2)
      ensures r.Returned? ==> loadSlot3Button == LoadButtonShown(old(loadSlot3Button), old(disableLoadButtonsIfEmpty), old(SavesOf(sm)), 3)
      ensures r.Returned? ==> slot1Label == SlotLabelShown(old(slot1Label), old(SavesOf(sm)), 1, files)
      ensures r.Returned? ==> slot2Label == SlotLabelShown(old(slot2Label), old(SavesOf(sm)), 2, files)
      ensures r.Returned? ==> slot3Label == SlotLabelShown(old(slot3Label), old(SavesOf(sm)), 3, files)
      ensures r.Returned? ==> deleteSlot1Button == DeleteButtonShown(old(deleteSlot1Button), old(SavesOf(sm)), 1)
      ensures r.Returned? ==> deleteSlot2Button == DeleteButtonShown(old(deleteSlot2Button), old(SavesOf(sm)), 2)
      ensures r.Returned? ==> deleteSlot3Button == DeleteButtonShown(old(deleteSlot3Button), old(SavesOf(sm)), 3)
    {
      var pl;
      r, pl := RefreshContinue(sm, files);
      if r.Threw? {
        return;
      }
      var b1, l1, b2, l2, b3, l3 := RefreshSlots(sm, files);
      var d1, d2, d3 := RefreshDeleteButtons(sm);
      playContinueLabel, loadSlot1Button, slot1Label, loadSlot2Button, slot2Label, loadSlot3Button, slot3Label :=
        pl, b1, l1, b2, l2, b3, l3;
      deleteSlot1Button, deleteSlot2Button, deleteSlot3Button := d1, d2, d3;
      r := Returned(());
    }

    /**
     * The three `SetSlotUI` calls of `RefreshUI`, returning the buttons and labels they leave.
     * `RefreshUI` has read the three times without an exception first, so none of them throws.
     */
    method RefreshSlots(sm: SaveSystem.SlotStore?, files: SaveManager.FileCodec)
      returns (b1: Option<Button>, l1: Option<Label>, b2: Option<Button>, l2: Option<Label>,
               b3: Option<Button>, l3: Option<Label>)
      requires SlotTimes(SavesOf(sm), files).Returned?
      ensures b1 == LoadButtonShown(loadSlot1Button, disableLoadButtonsIfEmpty, SavesOf(sm), 1)
      ensures b2 == LoadButtonShown(loadSlot2Button, disableLoadButtonsIfEmpty, SavesOf(sm), 2)
      ensures b3 == LoadButtonShown(loadSlot3Button, disableLoadButtonsIfEmpty, SavesOf(sm), 3)
      ensures l1 == SlotLabelShown(slot1Label, SavesOf(sm), 1, files)
      ensures l2 == SlotLabelShown(slot2Label, SavesOf(sm), 2, files)
      ensures l3 == SlotLabelShown(slot3Label, SavesOf(sm), 3, files)
    {
      var r1, r2, r3;
      r1, b1, l1 := SetSlotUI(1, loadSlot1Button, slot1Label, sm, files);
      r2, b2, l2 := SetSlotUI(2, loadSlot2Button, slot2Label, sm, files);
      r3, b3, l3 := SetSlotUI(3, loadSlot3Button, slot3Label, sm, files);
      assert r1.Returned? && r2.Returned? && r3.Returned?;
    }

    /** The delete buttons of `RefreshUI`, returned: each usable exactly when its slot exists. */
    method RefreshDeleteButtons(sm: SaveSystem.SlotStore?) returns (d1: Option<Button>, d2: Option<Button>, d3: Option<Button>)
      ensures d1 == DeleteButtonShown(deleteSlot1Button, SavesOf(sm), 1)
      ensures d2 == DeleteButtonShown(deleteSlot2Button, SavesOf(sm), 2)
      ensures d3 == DeleteButtonShown(deleteSlot3Button, SavesOf(sm), 3)
    {
      d1, d2, d3 := deleteSlot1Button, deleteSlot2Button, deleteSlot3Button;
      if d1.Some? {
        d1 := Some(Button(SlotExists(SavesOf(sm), 1)));
      }
      if d2.Some? {
        d2 := Some(Button(SlotExists(SavesOf(sm), 2)));
      }
      if d3.Some? {
        d3 := Some(Button(SlotExists(SavesOf(sm), 3)));
      }
    }

    /**
     * The first part of `RefreshUI`: the most recent slot (none without a save manager),
     * and the continue label it leaves.
     */
    method RefreshContinue(sm: SaveSystem.SlotStore?, files: SaveManager.FileCodec) returns (r: Outcome<()>, pl: Option<Label>)
      ensures r.Threw? <==> SlotTimes(SavesOf(sm), files).Threw?
      ensures r.Returned? ==> pl == ContinueLabelShown(playContinueLabel, SlotTimes(SavesOf(sm), files).value)
    {
      var mostRecent: nat := 0;
      if sm != null {
        var m := GetMostRecentSlot(sm, files);
        if m.Threw? {
          return Threw, playContinueLabel;
        }
        mostRecent := m.value;
      }
      pl := RefreshContinueLabel(sm, files, mostRecent, playContinueLabel, SlotTimes(SavesOf(sm), files).value);
      r := Returned(());
    }

    /** The continue label of `RefreshUI`, once the most recent slot is known. */
    method RefreshContinueLabel(sm: SaveSystem.SlotStore?, files: SaveManager.FileCodec, mostRecent: nat,
                                lbl: Option<Label>, ghost ts: seq<Option<int>>)
      returns (lbl': Option<Label>)
      requires |ts| == 3 && mostRecent == MostRecentSlot(ts)
      requires SlotTimes(SavesOf(sm), files) == Returned(ts)
      ensures lbl' == ContinueLabelShown(lbl, ts)
    {
      lbl' := lbl;
      if lbl.Some? {
        var t: Outcome<Option<int>> := Returned(None);
        if mostRecent > 0 {
          t := SaveManager.GetSlotSavedTime(sm, mostRecent, files);
          assert t == Returned(ts[mostRecent - 1]);
        }
        if mostRecent > 0 && t.value.Some? {
          lbl' := Some(Label(ContinueFrom(mostRecent, t.value.value)));
        } else {
          lbl' := Some(Label(Plain(NoSaveText)));
        }
      }
    }

    /**
     * `TryLoadSlot` (the load-button handlers): load the slot when it exists, otherwise do
     * nothing.  `sm` is the save manager after the handler's bootstrap attempt.
     */
    method TryLoadSlot(slot: int, sm: SaveSystem.SlotStore?) returns (action: MenuAction)
      ensures action == (if SlotExists(SavesOf(sm), slot) then LoadSlot(slot) else NoAction)
    {
      if sm == null {
        return NoAction;
      }
      var found := sm.Exists(SaveManager.ClampSlot(slot));
      if found {
        action := LoadSlot(slot);
      } else {
        action := NoAction;
      }
    }

    /** `StartLevel1Fresh`: load the first level if the build list has it. */
    method StartLevel1Fresh(buildScenePaths: seq<string>) returns (action: MenuAction)
      ensures action == (if SaveManager.SceneInBuild(level1SceneName, buildScenePaths) then LoadLevel(level1SceneName) else NoAction)
    {
      var found := SaveManager.SceneExistsInBuildSettings(level1SceneName, buildScenePaths);
      if !found {
        return NoAction;
      }
      action := LoadLevel(level1SceneName);
    }

    /**
     * `OnClick_PlayContinue`: continue from the most recent slot when there is one,
     * otherwise start the first level fresh.
     */
    method OnClickPlayContinue(sm: SaveSystem.SlotStore?, files: SaveManager.FileCodec, buildScenePaths: seq<string>)
      returns (r: Outcome<MenuAction>)
      ensures r.Threw? <==> SlotTimes(SavesOf(sm), files).Threw?
      ensures r.Returned? ==> r.value == ContinueAction(
        MostRecentSlot(SlotTimes(SavesOf(sm), files).value),
        if SaveManager.SceneInBuild(level1SceneName, buildScenePaths) then LoadLevel(level1SceneName) else NoAction)
    {
      var slot := GetMostRecentSlot(sm, files);
      if slot.Threw? {
        return Threw;
      }
      if slot.value > 0 && sm != null {
        r := Returned(LoadSlot(slot.value));
      } else {
        var a := StartLevel1Fresh(buildScenePaths);
        r := Returned(a);
      }
    }
  }

  /** A load button after `SetSlotUI`, when it is wired; `disable` is `disableLoadButtonsIfEmpty`. */
  function LoadButtonShown(btn: Option<Button>, disable: bool, s: Option<Saves>, slot: int): (b: Option<Button>)
    ensures b.Some? <==> btn.Some?
    ensures b.Some? ==> (b.value.interactable <==> !disable || SlotExists(s, slot))
  {
    if btn.Some? then Some(Button(!disable || SlotExists(s, slot))) else None
  }

  /** A slot label after `SetSlotUI`, when it is wired and the slot's time could be read. */
  function SlotLabelShown(lbl: Option<Label>, s: Option<Saves>, slot: int, files: SaveManager.FileCodec): (l: Option<Label>)
    requires lbl.Some? ==> SlotTime(s, slot, files).Returned?
    ensures l.Some? <==> lbl.Some?
    ensures l.Some? ==> l.value.text == SlotLabel(SlotExists(s, slot), SlotTime(s, slot, files).value)
  {
    if lbl.Some? then Some(Label(SlotLabel(SlotExists(s, slot), SlotTime(s, slot, files).value))) else None
  }

  /** A delete button after `RefreshUI`, when it is wired: usable exactly when its slot exists. */
  function DeleteButtonShown(btn: Option<Button>, s: Option<Saves>, slot: int): (b: Option<Button>)
    ensures b.Some? <==> btn.Some?
    ensures b.Some? ==> (b.value.interactable <==> s.Some? && SlotExists(s, slot))
  {
    if btn.Some? then Some(Button(SlotExists(s, slot))) else None
  }

  /** The continue label after `RefreshUI`, when it is wired. */
  function ContinueLabelShown(lbl: Option<Label>, ts: seq<Option<int>>): (l: Option<Label>)
    requires |ts| == 3
    ensures l.Some? <==> lbl.Some?
    ensures l.Some? ==> l.value.text == ContinueLabel(ts)
  {
    if lbl.Some? then Some(Label(ContinueLabel(ts))) else None
  }

  /** A slot label: the saved time when the slot exists and has one, "Empty" otherwise. */
  function SlotLabel(present: bool, t: Option<int>): (l: LabelText)
    ensures l.SavedAt? <==> present && t.Some?
    ensures l.SavedAt? ==> l.unixTime == t.value
    ensures !l.SavedAt? ==> l == Plain(EmptyText)
  {
    if present && t.Some? then SavedAt(t.value) else Plain(EmptyText)
  }

  /** The continue label for the three saved times: the most recent slot and its time, or "no save". */
  function ContinueLabel(ts: seq<Option<int>>): (l: LabelText)
    requires |ts| == 3
    ensures MostRecentSlot(ts) == 0 <==> l == Plain(NoSaveText)
    ensures MostRecentSlot(ts) > 0 ==> l == ContinueFrom(MostRecentSlot(ts), ts[MostRecentSlot(ts) - 1].value)
  {
    var m := MostRecentSlot(ts);
    if m > 0 then ContinueFrom(m, ts[m - 1].value) else Plain(NoSaveText)
  }

  /** The continue handler's choice: the most recent slot, or the fresh start `onFresh`. */
  function ContinueAction(mostRecent: nat, onFresh: MenuAction): (a: MenuAction)
    ensures mostRecent > 0 ==> a == LoadSlot(mostRecent)
    ensures mostRecent == 0 ==> a == onFresh
  {
    if mostRecent > 0 then LoadSlot(mostRecent) else onFresh
  }

  /**
   * A slot whose file exists but is empty has no saved time, so its label reads "Empty";
   * a slot label shows a time only for a slot holding a save with that time.
   */
  lemma SlotLabelShowsSavedTime(files: SaveSystem.Files, dataDir: string, slot: int, codec: SaveManager.FileCodec)
    requires SaveManager.SavedTime(SaveSystem.ReadSlot(files, dataDir, slot), codec).Returned?
    ensures var t := SaveManager.SavedTime(SaveSystem.ReadSlot(files, dataDir, slot), codec).value;
      SlotLabel(SaveSystem.ReadSlot(files, dataDir, slot).Some?, t) == (if t.Some? then SavedAt(t.value) else Plain(EmptyText))
    ensures SaveSystem.ReadSlot(files, dataDir, slot) == Some("") ==>
      SlotLabel(true, SaveManager.SavedTime(SaveSystem.ReadSlot(files, dataDir, slot), codec).value) == Plain(EmptyText)
  {
  }

  /**
   * The choice on sample slots: nothing saved gives no slot; equal times go to the first
   * slot holding them; a later time wins over an earlier one, and of two equal latest times
   * the first; a save stamped at the minimum time itself does not count as saved.
   */
  lemma MostRecentSlotExamples()
    ensures MostRecentSlot([None, None, None]) == 0
    ensures MostRecentSlot([Some(7), Some(7), Some(7)]) == 1
    ensures MostRecentSlot([Some(5), Some(9), Some(9)]) == 2
    ensures MostRecentSlot([None, None, Some(SaveManager.MinUnixTime)]) == 0
  {
  }
}

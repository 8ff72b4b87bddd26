# numinous: save slots and puzzle rules, modelled in Dafny

This project models the parts of the Unity puzzle game *numinous* that carry logic of their own.

- **The save system.** It has four parts:
  - the slot store, one JSON file per save slot (`SaveSystem`);
  - the entity id registry (`SaveableEntity`);
  - the save coordinator, which captures every saveable entity's adapters into a versioned save file and restores such a file onto a live scene (`SaveManager`);
  - the transform, toggle, button-value and drawer adapters.
- **The main menu.** It decides which slot "Continue" picks, and what the slot buttons and labels show (`MainMenuController`).
- **The puzzle components:**
  - the doors with their code, item and puzzle conditions, in two copies;
  - the player's interactor with its code list, pickups, drawers and doors, in two copies;
  - the wrong-digit reset and the colour-to-digit assignment;
  - the pressure buttons, the puzzle-area trigger and the one-shot sound trigger;
  - the wall clock's hand angles.
- **The sprite exporter.** Only its two string helpers are modelled.

Each source file is one module.

- A class whose fields the game updates in place is a Dafny `class`, and its operations are methods with `modifies` clauses. Each method is proved against a specification function, and the properties the game relies on are lemmas about those functions.
- Pure code is functions and lemmas.
- Engine objects are small classes in `Engine` (transforms, rigidbodies, character controllers, toggles, audio sources, game objects, text labels). Gameplay components read by the core are in `Gameplay` (`ButtonStats`, `Button`, `DrawerPullout`).
- Sequence facts shared by several files are in `Collections`: order-keeping filters, counts, position-by-position matching, and the "last one wins" dictionary fill. Trigger contacts are in `Contacts`.

Foreign calls become parameters:

- JsonUtility is a pair of encode/decode function values, with a ghost round-trip predicate.
- `Guid.NewGuid` is a supplied token that must be fresh.
- Reflection's `GetNestedType("State")` is a table from adapter type name to state type name.
- `Random.Range` is a supplied stream of draws.
- `DateTime.Now`, `Time.deltaTime`, the input state, the raycast hits, the active scene and the build list are arguments.

The live scene of the coordinator is a value: a sequence of entities, each with its adapters in component order. A restore reports the `RestoreState` calls it makes as a trace of steps.

Behaviour worth knowing about the save coordinator (`Assets/Scripts/MenuScripts/SaveManager.cs`):

- **Duplicate ids and types: the last one wins.** The code fills its dictionaries with `d[key] = x`, so among live entities sharing an id, and among adapters sharing a type, the last one is used (`:179`, `:197`). `SaveManager.EntryLookupLastWins` and `SaveManager.ComponentLookupLastWins` state this.
- **The coordinator absorbs adapter failures.** The coordinator catches exceptions around `CaptureState` (`:124-139`), and around `FromJson` and `RestoreState` (`:210-228`). The adapters themselves catch nothing.
- **A failed save is logged, not signalled.** `SaveToSlot` catches any exception and logs it (`:34-45`). In the model nothing in the save path can throw, so `SaveManager.SaveToSlot` always writes.
- **Reading a saved time can throw.** `GetSlotSavedTime` has no `catch` (`:92-98`): an unparsable file, a null parse or a time outside the calendar escapes to its caller. `SaveManager.SavedTime` models this, and so do the menu's methods that read times.
- **Every load resets gameplay first.** The code resets gameplay state before anything else (`:53`), even for an empty slot or an unknown scene. `SaveManager.LoadResetsFirst` states this.
- **A missing State type is silent.** An adapter without a nested `State` type is skipped and counts nowhere (`:213-218`).

## Model

| member | source | states |
|---|---|---|
| Collections.Kept | Assets/Scripts/MenuScripts/SaveManager.cs:115-143 | the indices kept by an order-preserving filter: ascending, each satisfying the filter, and every element that satisfies the filter is included |
| Collections.CountAll | Assets/Scripts/PuzzleScripts/DoorController.cs:73-84 | a count of elements satisfying a predicate equals the length exactly when every element satisfies it (the puzzle door's `trueCount == puzzle.Count`) |
| Collections.MatchCountFull | Assets/Scripts/PuzzleScripts/DoorController.cs:39-51 | for two lists of the same length, the number of matching positions equals the length exactly when the lists are equal |
| Collections.LastIndexByCharacterised | Assets/Scripts/MenuScripts/SaveManager.cs:177-179 | the dictionary filled by `d[key(x)] = x` holds exactly the keys of the list, each mapped to an element with that key at or after every other element with that key (last wins) |
| Collections.LastIndexOfDistinct | Assets/Scripts/MenuScripts/SaveManager.cs:195-197 | when keys are distinct, that dictionary finds every element at its own index |
| Collections.BuildLastIndex | Assets/Scripts/MenuScripts/SaveManager.cs:195-197 | the loop that fills the dictionary computes the last-wins index map |
| SaveSystem.NatToString | Assets/Scripts/MenuScripts/SaveSystem.cs:11 | the decimal form of a natural number is non-empty and made of digits only |
| SaveSystem.NatToStringInjective | Assets/Scripts/MenuScripts/SaveSystem.cs:11 | different naturals are written differently |
| SaveSystem.SignShows | Assets/Scripts/MenuScripts/SaveSystem.cs:11 | the written form of an int starts with '-' exactly when the int is negative |
| SaveSystem.IntToStringInjective | Assets/Scripts/MenuScripts/SaveSystem.cs:11 | different ints give different slot-number texts |
| SaveSystem.GetSlotPath | Assets/Scripts/MenuScripts/SaveSystem.cs:9-12 | the path is the data directory, a separator when the directory does not end in one, then the file name `slot_<n>.json` |
| SaveSystem.SlotPathInjective | Assets/Scripts/MenuScripts/SaveSystem.cs:9-12 | the path `dir` combined with `"slot_" + n + ".json"` is different for different slots, whatever the data directory |
| SaveSystem.ReadSlot | Assets/Scripts/MenuScripts/SaveSystem.cs:22-26 | reading gives content exactly when the slot's file exists, and null otherwise |
| SaveSystem.WrittenSlot | Assets/Scripts/MenuScripts/SaveSystem.cs:14-20 | after a write, the files are the old ones plus the slot's file |
| SaveSystem.DeletedSlot | Assets/Scripts/MenuScripts/SaveSystem.cs:30-34 | after a delete, the files are the old ones minus the slot's file |
| SaveSystem.SlotStore.Write | Assets/Scripts/MenuScripts/SaveSystem.cs:14-20 | the store's files become the written-slot file system; `WriteAllText` replaces the whole content |
| SaveSystem.SlotStore.Read | Assets/Scripts/MenuScripts/SaveSystem.cs:22-26 | the result is the slot's content, or None when the file is absent |
| SaveSystem.SlotStore.Exists | Assets/Scripts/MenuScripts/SaveSystem.cs:28 | true exactly when a read would give content |
| SaveSystem.SlotStore.Delete | Assets/Scripts/MenuScripts/SaveSystem.cs:30-34 | the store's files lose the slot's file; deleting a missing file is a no-op |
| SaveSystem.ReadAfterWrite | Assets/Scripts/MenuScripts/SaveSystem.cs:14-26 | reading after `Write(slot, json)` gives exactly `json` |
| SaveSystem.SecondWriteReplaces | Assets/Scripts/MenuScripts/SaveSystem.cs:19 | two writes to one slot leave the same files as the second write alone |
| SaveSystem.DeleteEmpties | Assets/Scripts/MenuScripts/SaveSystem.cs:30-34 | after a delete the slot reads as empty; deleting an empty slot changes nothing |
| SaveSystem.OtherSlotsUntouched | Assets/Scripts/MenuScripts/SaveSystem.cs:9-34 | writing or deleting one slot leaves every other slot's content unchanged |
| SaveableEntity.SaveableEntity.UniqueId | Assets/Scripts/MenuScripts/SaveableEntity.cs:10 | the read-only property gives the stored id, which only `RegisterOrRefresh` changes |
| SaveableEntity.SaveableEntity.RegisterOrRefresh | Assets/Scripts/MenuScripts/SaveableEntity.cs:25-33 | the id is kept when set and unused, and otherwise replaced by the fresh GUID; the final id is non-empty, was unused before the call, and is added to `usedIds`, which only grows |
| SaveableEntity.NextId | Assets/Scripts/MenuScripts/SaveableEntity.cs:27-31 | the id left is the old one when it is non-empty and not in the used set, and the GUID otherwise; either way it was not in the used set |
| SaveableEntity.NextIdOwned | Assets/Scripts/MenuScripts/SaveableEntity.cs:27-32 | the corrected rule: an id owned by the entity itself is kept, and the id left is owned by that entity |
| SaveableEntity.Register | Assets/Scripts/MenuScripts/SaveableEntity.cs:25-33 | one call under either rule keeps the number of entities |
| SaveableEntity.Replay | Assets/Scripts/MenuScripts/SaveableEntity.cs:25-33 | a sequence of calls, in order, keeps the number of entities |
| SaveableEntity.TouchedIdsDistinct | Assets/Scripts/MenuScripts/SaveableEntity.cs:27-32 | with fresh GUIDs, after any sequence of calls under either rule, every entity touched owns its registered id, so no two touched entities share an id |
| SaveableEntity.SecondCallReplacesId | Assets/Scripts/MenuScripts/SaveableEntity.cs:27-32 | as written, a second call on the same entity replaces the id the first call registered |
| SaveableEntity.OwnerAwareIsStable | Assets/Scripts/MenuScripts/SaveableEntity.cs:27-32 | under the owner-aware rule, the id survives a second call on the same entity |
| TimeManager.HourAngle | Assets/Scripts/PuzzleScripts/TimeManager.cs:17 | the hour angle is in 0..330, a multiple of 30, and `(hour % 12)` twelfths of a full turn |
| TimeManager.MinuteAngle | Assets/Scripts/PuzzleScripts/TimeManager.cs:18 | the minute angle is in 0..354, a multiple of 6, and `minute` sixtieths of a full turn |
| TimeManager.SecondAngle | Assets/Scripts/PuzzleScripts/TimeManager.cs:19 | the second angle is in 0..354, a multiple of 6, and `second` sixtieths of a full turn |
| TimeManager.HourHandHasPeriodTwelve | Assets/Scripts/PuzzleScripts/TimeManager.cs:17 | hours h and h + 12 give the same hour angle |
| TimeManager.HandsOnMinuteMarks | Assets/Scripts/PuzzleScripts/TimeManager.cs:17-19 | all three angles are multiples of 6 degrees |
| TimeManager.MinuteAngleInjective | Assets/Scripts/PuzzleScripts/TimeManager.cs:18 | distinct minutes give distinct minute-hand angles |
| TimeManager.SecondAngleInjective | Assets/Scripts/PuzzleScripts/TimeManager.cs:19 | distinct seconds give distinct second-hand angles |
| ExportSpritesToPng.ReplaceChar | Assets/Scripts/Editor/ExportSpritesToPng.cs:205 | one-character `Replace` keeps the length and changes exactly the occurrences of `from` |
| ExportSpritesToPng.TrimStart | Assets/Scripts/Editor/ExportSpritesToPng.cs:205 | the result is a suffix of the input that does not start with white space, and everything cut was white space |
| ExportSpritesToPng.TrimEnd | Assets/Scripts/Editor/ExportSpritesToPng.cs:205 | the result is a prefix of the input that does not end with white space, and everything cut was white space |
| ExportSpritesToPng.Unseparated | Assets/Scripts/Editor/ExportSpritesToPng.cs:205 | after both replacements, no '/' or '\\' remains, the length is kept, and white space stays where it was |
| ExportSpritesToPng.TrimCharacterised | Assets/Scripts/Editor/ExportSpritesToPng.cs:205 | `Trim` keeps a contiguous middle that neither starts nor ends with white space, and cuts only white space on either side |
| ExportSpritesToPng.Sanitize | Assets/Scripts/Editor/ExportSpritesToPng.cs:202-206 | the sanitised name holds no path separator, has no white space at either end, and is no longer than the input |
| ExportSpritesToPng.SanitizeKeepsTheMiddle | Assets/Scripts/Editor/ExportSpritesToPng.cs:202-206 | the sanitised name is the separator-free name with only the surrounding white space removed |
| ExportSpritesToPng.EscapeCons | Assets/Scripts/Editor/ExportSpritesToPng.cs:210 | the two `Replace` passes together escape character by character |
| ExportSpritesToPng.UnescapeEscape | Assets/Scripts/Editor/ExportSpritesToPng.cs:208-211 | reading `Escape(s)` as a JSON string body gives back `s` |
| ExportSpritesToPng.EscapeLength | Assets/Scripts/Editor/ExportSpritesToPng.cs:208-211 | the escaped length is the input length plus the number of backslashes plus the number of quotes |
| ExportSpritesToPng.EscapeIdentity | Assets/Scripts/Editor/ExportSpritesToPng.cs:208-211 | a string without backslashes or quotes comes through unchanged |
| ExportSpritesToPng.QuotesFirstWouldNotRoundTrip | Assets/Scripts/Editor/ExportSpritesToPng.cs:210 | escaping quotes before backslashes would not round-trip a lone quote, so the order of the passes matters |
| ToggleSaveAdapter.ToggleSaveAdapter.CaptureState | Assets/Scripts/MenuScripts/ToggleSaveAdapter.cs:13-17 | null exactly when no toggle is assigned; otherwise the toggle's current `isOn` |
| ToggleSaveAdapter.ToggleSaveAdapter.RestoreState | Assets/Scripts/MenuScripts/ToggleSaveAdapter.cs:19-25 | `isOn` becomes the saved value; listeners hear the setter's change event when the value changed, then the explicit `Invoke` once more; with no toggle nothing changes |
| ToggleSaveAdapter.CaptureThenRestore | Assets/Scripts/MenuScripts/ToggleSaveAdapter.cs:13-25 | capture then restore keeps `isOn` and notifies listeners exactly once, with the value |
| ButtonStatsSaveAdapter.ButtonStatsSaveAdapter.CaptureState | Assets/Scripts/MenuScripts/ButtonStatsSaveAdapter.cs:10-15 | null exactly when there is no `ButtonStats`; otherwise its `buttonValue` |
| ButtonStatsSaveAdapter.ButtonStatsSaveAdapter.RestoreState | Assets/Scripts/MenuScripts/ButtonStatsSaveAdapter.cs:17-23 | `buttonValue` becomes the saved value; without `ButtonStats` nothing changes |
| ButtonStatsSaveAdapter.CaptureThenRestore | Assets/Scripts/MenuScripts/ButtonStatsSaveAdapter.cs:10-23 | capture then restore leaves `buttonValue` as it was |
| DrawerPulloutSaveAdapter.DrawerPulloutSaveAdapter.CaptureState | Assets/Scripts/MenuScripts/DrawerPulloutSaveAdapter.cs:17-29 | null exactly when there is no drawer; otherwise its four pull-out fields and the transform's position |
| DrawerPulloutSaveAdapter.DrawerPulloutSaveAdapter.RestoreState | Assets/Scripts/MenuScripts/DrawerPulloutSaveAdapter.cs:31-41 | all five values are written back verbatim, and the other stored fields of the model transform are not written; without a drawer nothing changes |
| DrawerPulloutSaveAdapter.CaptureThenRestore | Assets/Scripts/MenuScripts/DrawerPulloutSaveAdapter.cs:17-41 | capture then restore leaves the drawer and its transform as they were |
| TransformSaveAdapter.Captured | Assets/Scripts/MenuScripts/TransformSaveAdapter.cs:29-37 | the captured pose is local or world according to `useLocalSpace`, and the scale is always local |
| TransformSaveAdapter.ApplyCapturedIsIdentity | Assets/Scripts/MenuScripts/TransformSaveAdapter.cs:29-111 | writing back what was captured, in the same space, leaves the transform unchanged |
| TransformSaveAdapter.Posed | Assets/Scripts/MenuScripts/TransformSaveAdapter.cs:76-111 | the pose write of `ApplyNow`: capturing in the same space afterwards gives back the state written, and the other space's position and rotation fields of the model transform are not written |
| TransformSaveAdapter.TransformSaveAdapter.constructor | Assets/Scripts/MenuScripts/TransformSaveAdapter.cs:18-27 | the inspector defaults: world space, apply next frame, zero velocity, safe teleport; nothing pending |
| TransformSaveAdapter.TransformSaveAdapter.CaptureState | Assets/Scripts/MenuScripts/TransformSaveAdapter.cs:29-37 | the result is the captured state of the current transform |
| TransformSaveAdapter.TransformSaveAdapter.RestoreState | Assets/Scripts/MenuScripts/TransformSaveAdapter.cs:39-46 | with `applyNextFrame` the state is queued and nothing moves yet; otherwise it is applied at once |
| TransformSaveAdapter.TransformSaveAdapter.ApplyAfterOneFrame | Assets/Scripts/MenuScripts/TransformSaveAdapter.cs:48-55 | the oldest queued state is applied and leaves the queue |
| TransformSaveAdapter.TransformSaveAdapter.ApplyNow | Assets/Scripts/MenuScripts/TransformSaveAdapter.cs:57-123 | the pose and scale are written in the chosen space; at the write the controller is off (with safe teleport on) and the body kinematic; both flags end as they started; velocities are zeroed only when a rigidbody exists and zeroing is on |
| TransformSaveAdapter.TransformSaveAdapter.WritePose | Assets/Scripts/MenuScripts/TransformSaveAdapter.cs:76-112 | the transform becomes the posed one, and the components' flags at that moment are recorded |
| SaveManager.ClampSlot | Assets/Scripts/MenuScripts/SaveManager.cs:33 | the slot is in 1..3; an in-range slot is kept, a lower one gives 1 and a higher one gives 3 |
| SaveManager.ClampSlotNearest | Assets/Scripts/MenuScripts/SaveManager.cs:33-94 | clamping is idempotent, slot 4 becomes 3 and slot 0 becomes 1, and the clamped slot is the nearest valid one |
| SaveManager.Capture | Assets/Scripts/MenuScripts/SaveManager.cs:102-148 | the file has version "1.1", the active scene, the save time, and the entity records of the live scene |
| SaveManager.ComponentRecordsAreKept | Assets/Scripts/MenuScripts/SaveManager.cs:122-140 | an entity's records are exactly those of its adapters that captured a state, in adapter order, tagged with the adapter's type name; a null or throwing capture adds nothing and does not stop its siblings |
| SaveManager.ComponentRecordsEmpty | Assets/Scripts/MenuScripts/SaveManager.cs:117-142 | an entity yields records exactly when one of its adapters captured a state |
| SaveManager.EntityRecordsAreKept | Assets/Scripts/MenuScripts/SaveManager.cs:115-143 | the entries are exactly the entities with a captured adapter, in scene order, each with its id, name and records |
| SaveManager.EntriesNonEmpty | Assets/Scripts/MenuScripts/SaveManager.cs:142 | every saved entry has at least one component record |
| SaveManager.RestoreComponent | Assets/Scripts/MenuScripts/SaveManager.cs:201-229 | one record: a type the entity lacks counts as missing; a missing State type or a FromJson exception counts nowhere; a decoded state is handed to `RestoreState`, and counts as restored unless that throws |
| SaveManager.RestoreEntity | Assets/Scripts/MenuScripts/SaveManager.cs:194-229 | an entity's counts of restored and missing components, and the `RestoreState` calls made, follow the outcomes of its records |
| SaveManager.RestoreEntry | Assets/Scripts/MenuScripts/SaveManager.cs:185-231 | an entry with an unknown id counts as a missing entity; a found entity counts as restored when at least one record was |
| SaveManager.RestoreEntries | Assets/Scripts/MenuScripts/SaveManager.cs:176-232 | the four counters and the calls made over all entries are those of the restore plan of the file against the live scene |
| SaveManager.EntryLookupLastWins | Assets/Scripts/MenuScripts/SaveManager.cs:177-192 | an entry's entity is missing exactly when no live entity has its id; otherwise it is the last live entity with that id |
| SaveManager.ComponentLookupLastWins | Assets/Scripts/MenuScripts/SaveManager.cs:195-223 | a record's component is missing exactly when no adapter has its type; otherwise the last adapter of that type is used, and a restored record needed a state type, a decode and a restore that returned |
| SaveManager.TallyCounts | Assets/Scripts/MenuScripts/SaveManager.cs:183-232 | `missingEntities` is the number of entries with an absent id; missing plus restored entities is at most the entry count; restored plus missing components is at most the record count |
| SaveManager.OutcomeCountsDisjoint | Assets/Scripts/MenuScripts/SaveManager.cs:203-223 | no record counts as both restored and missing |
| SaveManager.CapturedRecordRestored | Assets/Scripts/MenuScripts/SaveManager.cs:129-223 | with distinct types and restorable states, an adapter's own record is restored onto that same adapter, with its captured state |
| SaveManager.ComponentsRoundTrip | Assets/Scripts/MenuScripts/SaveManager.cs:122-229 | an entity's own records, restored onto it, are all restored, none is missing, and each call gives an adapter its own state |
| SaveManager.EntityRoundTrip | Assets/Scripts/MenuScripts/SaveManager.cs:115-231 | with distinct ids, an entity's own entry finds that entity and restores all of its records |
| SaveManager.CaptureRestoreRoundTrip | Assets/Scripts/MenuScripts/SaveManager.cs:102-232 | capture then restore onto the same scene restores every entry and record and misses none, when ids and types are distinct and each state round-trips |
| SaveManager.LastIndexOf | Assets/Scripts/MenuScripts/SaveManager.cs:243 | the index of the last occurrence of a character, or -1 when there is none |
| SaveManager.FileNameWithoutExtension | Assets/Scripts/MenuScripts/SaveManager.cs:243 | the scene name read from a build path holds no directory separator |
| SaveManager.SceneExistsInBuildSettings | Assets/Scripts/MenuScripts/SaveManager.cs:238-248 | true exactly when some build path's file name matches the name, ignoring the case of ASCII letters |
| SaveManager.SceneInBuildIgnoresCase | Assets/Scripts/MenuScripts/SaveManager.cs:244 | a name and its ASCII upper-case form are found alike |
| SaveManager.SceneFoundByFileName | Assets/Scripts/MenuScripts/SaveManager.cs:238-248 | a build path `dir/Scene.unity` is found by `Scene` in any ASCII case |
| SaveManager.LoadResetsFirst | Assets/Scripts/MenuScripts/SaveManager.cs:48-174 | every load resets gameplay state first, even one that finds nothing; an absent or empty slot gives "no save"; a load that stops early makes no restore call; and a restore comes after a second reset |
| SaveManager.UnknownSceneStopsLoad | Assets/Scripts/MenuScripts/SaveManager.cs:154-161 | a recorded scene that is non-empty, not active and not in the build list stops the load with only the first reset |
| SaveManager.SaveThenLoadRoundTrip | Assets/Scripts/MenuScripts/SaveManager.cs:31-232 | saving a scene to any slot and loading that slot in the same scene restores every entry and record, none is missing, and each call gives an adapter its own state |
| SaveManager.SaveToSlot | Assets/Scripts/MenuScripts/SaveManager.cs:31-46 | the clamped slot holds the JSON of the captured file, and nothing else changes |
| SaveManager.LoadFromSlot | Assets/Scripts/MenuScripts/SaveManager.cs:48-81 | the outcome and step trace are the load plan of the clamped slot's content |
| SaveManager.LoadJson | Assets/Scripts/MenuScripts/SaveManager.cs:53-232 | from the text read, the outcome and step trace are the load plan: reset, stop on empty, parse exception, null or unknown scene, else swap scene, reset and restore |
| SaveManager.DeleteSlot | Assets/Scripts/MenuScripts/SaveManager.cs:83-88 | the clamped slot's file is removed |
| SaveManager.SlotExists | Assets/Scripts/MenuScripts/SaveManager.cs:90 | true exactly when the clamped slot's file exists |
| SaveManager.SavedTime | Assets/Scripts/MenuScripts/SaveManager.cs:92-98 | no time exactly for an absent or empty slot; a returned time is the parsed file's, and in the calendar range; an exception exactly when the text does not parse, parses to null, or holds an out-of-range time |
| SaveManager.GetSlotSavedTime | Assets/Scripts/MenuScripts/SaveManager.cs:92-98 | the result is the saved time of the clamped slot's content |
| SaveManager.SavedTimeAfterSave | Assets/Scripts/MenuScripts/SaveManager.cs:31-98 | after saving a file stamped within the calendar range, the slot's saved time is that stamp |
| MainMenuController.SlotTimes | Assets/Scripts/MenuScripts/MainMenuController.cs:234-236 | the three slots' times, unless reading one throws |
| MainMenuController.MostRecentSlot | Assets/Scripts/MenuScripts/MainMenuController.cs:233-241 | 0 exactly when no slot has a time after the minimum; otherwise a slot with the greatest time, and no earlier slot has that time (ties go to the lowest slot) |
| MainMenuController.MostRecentSlotExamples | Assets/Scripts/MenuScripts/MainMenuController.cs:238-240 | on samples: no saves give 0; equal times give slot 1; the later time wins and ties go to the first; a save at the minimum time does not count |
| MainMenuController.MainMenuController.constructor | Assets/Scripts/MenuScripts/MainMenuController.cs:11-33 | load buttons of empty slots disabled, first level "Level1", nothing wired |
| MainMenuController.MainMenuController.GetMostRecentSlot | Assets/Scripts/MenuScripts/MainMenuController.cs:229-242 | 0 without a save manager; throws exactly when reading a time throws; otherwise the most recent slot of the three times |
| MainMenuController.MainMenuController.SetSlotUI | Assets/Scripts/MenuScripts/MainMenuController.cs:209-227 | the load button is usable exactly when empty slots are not disabled or the slot exists; the label shows the slot's time or "Empty"; reading the time throws only with a label wired, leaving it untouched |
| MainMenuController.MainMenuController.RefreshUI | Assets/Scripts/MenuScripts/MainMenuController.cs:179-207 | throws, changing nothing, exactly when reading a time throws; otherwise the continue label, the three load buttons and labels, and the three delete buttons show the slots |
| MainMenuController.MainMenuController.RefreshSlots | Assets/Scripts/MenuScripts/MainMenuController.cs:199-201 | the three `SetSlotUI` calls give the shown buttons and labels |
| MainMenuController.MainMenuController.RefreshDeleteButtons | Assets/Scripts/MenuScripts/MainMenuController.cs:204-206 | each delete button is usable exactly when there is a save manager and its slot exists |
| MainMenuController.MainMenuController.RefreshContinue | Assets/Scripts/MenuScripts/MainMenuController.cs:181-197 | throws exactly when reading a time throws; otherwise the continue label for the three times |
| MainMenuController.MainMenuController.RefreshContinueLabel | Assets/Scripts/MenuScripts/MainMenuController.cs:186-197 | the continue label names the most recent slot and its time, or says no save was found |
| MainMenuController.MainMenuController.TryLoadSlot | Assets/Scripts/MenuScripts/MainMenuController.cs:146-163 | the handler loads the slot exactly when the slot exists, and does nothing otherwise |
| MainMenuController.MainMenuController.StartLevel1Fresh | Assets/Scripts/MenuScripts/MainMenuController.cs:165-177 | the first level is loaded exactly when the build list has it |
| MainMenuController.MainMenuController.OnClickPlayContinue | Assets/Scripts/MenuScripts/MainMenuController.cs:97-110 | throws exactly when reading a time throws; otherwise loads the most recent slot when there is one, and starts the first level fresh otherwise |
| MainMenuController.LoadButtonShown | Assets/Scripts/MenuScripts/MainMenuController.cs:211-213 | a wired load button is usable exactly when `!disableLoadButtonsIfEmpty` or the slot exists |
| MainMenuController.SlotLabelShown | Assets/Scripts/MenuScripts/MainMenuController.cs:215-226 | a wired label shows the slot label for the slot's presence and time |
| MainMenuController.DeleteButtonShown | Assets/Scripts/MenuScripts/MainMenuController.cs:204-206 | a wired delete button is usable exactly when there is a save manager and the slot exists |
| MainMenuController.ContinueLabelShown | Assets/Scripts/MenuScripts/MainMenuController.cs:186-197 | a wired continue label shows the continue text for the three times |
| MainMenuController.SlotLabel | Assets/Scripts/MenuScripts/MainMenuController.cs:217-224 | the label shows a time exactly when the slot exists and has one, and that time; "Empty" otherwise |
| MainMenuController.ContinueLabel | Assets/Scripts/MenuScripts/MainMenuController.cs:188-196 | "no save found" exactly when no slot is most recent; otherwise that slot and its time |
| MainMenuController.ContinueAction | Assets/Scripts/MenuScripts/MainMenuController.cs:99-109 | a positive slot loads that slot; slot 0 takes the fresh start |
| MainMenuController.SlotLabelShowsSavedTime | Assets/Scripts/MenuScripts/MainMenuController.cs:215-226 | a readable slot's label is its saved time or "Empty"; a slot whose file exists but is empty reads "Empty" |
| DoorController.DoorController.ActiveStates | Assets/Scripts/PuzzleScripts/DoorController.cs:73-75 | one `activeState` per puzzle element, in order |
| DoorController.EmptyCodeOpensOnNoNumbers | Assets/Scripts/PuzzleScripts/DoorController.cs:39-51 | an empty code unlocks exactly when no numbers are collected |
| DoorController.EmptyPuzzleNeverOpens | Assets/Scripts/PuzzleScripts/DoorController.cs:72-85 | a puzzle door with no elements never unlocks |
| DoorController.ItemDoorStaysOpen | Assets/Scripts/PuzzleScripts/DoorController.cs:56-69 | an item door stays satisfied when the inventory only grows |
| DoorController.ItemDoorCountsEntries | Assets/Scripts/PuzzleScripts/DoorController.cs:56 | the size check counts list entries: a key listed twice needs two inventory entries |
| DoorController.DoorController.constructor | Assets/Scripts/PuzzleScripts/DoorController.cs:8-20 | a 2.5-second timer, no interaction needed, none recorded, not moved |
| DoorController.DoorController.UnlockDoor | Assets/Scripts/PuzzleScripts/DoorController.cs:90-106 | the timer drops by the frame time; the door moves up by 5 × deltaTime exactly when the timer is then below 0 and the gate (`!interactToOpen` or `interacted`) is open |
| DoorController.UnlockAttempted | Assets/Scripts/PuzzleScripts/DoorController.cs:35-85 | the door's condition equals the counting checks of `Update`: a code door counts matching positions of equally long lists, an item door counts required items found in an inventory at least as long, a puzzle door counts the active elements of a non-empty puzzle |
| DoorController.DoorController.Update | Assets/Scripts/PuzzleScripts/DoorController.cs:29-88 | one `UnlockDoor` happens exactly when the door's condition holds: the same code, all items held with enough entries, or all of a non-empty set of puzzle elements active |
| DoorController.DoorController.CodeMatches | Assets/Scripts/PuzzleScripts/DoorController.cs:39-51 | true exactly when the collected numbers equal the code |
| DoorController.DoorController.ItemsHeld | Assets/Scripts/PuzzleScripts/DoorController.cs:56-69 | true exactly when the inventory has at least as many entries as required and holds each required item (in any order, extra allowed) |
| DoorController.DoorController.PuzzlePass | Assets/Scripts/PuzzleScripts/DoorController.cs:72-85 | the in-loop check calls `UnlockDoor` exactly once when all elements are active, and never otherwise |
| DoorControllerPuzzle33.StricterThanFirstCopy | Assets/Scripts/PuzzleScripts/Puzzle3.3/DoorController.cs:24-83 | whatever destroys this door also unlocks the first copy; code and puzzle doors agree exactly |
| DoorControllerPuzzle33.ItemDoorIsOrderSensitive | Assets/Scripts/PuzzleScripts/Puzzle3.3/DoorController.cs:49-64 | an extra item, or the right items in another order, block this item door but not the first copy's |
| DoorControllerPuzzle33.EmptyPuzzleNeverDestroyed | Assets/Scripts/PuzzleScripts/Puzzle3.3/DoorController.cs:66-79 | a puzzle door with no elements is never destroyed |
| DoorControllerPuzzle33.DoorController.constructor | Assets/Scripts/PuzzleScripts/Puzzle3.3/DoorController.cs:24-83 | a door not yet destroyed |
| DoorControllerPuzzle33.DoorController.ActiveStates | Assets/Scripts/PuzzleScripts/Puzzle3.3/DoorController.cs:67-69 | one `activeState` per puzzle element, in order |
| DoorControllerPuzzle33.DestroyCondition | Assets/Scripts/PuzzleScripts/Puzzle3.3/DoorController.cs:29-80 | the destroy condition equals the counting checks of `Update`: code and item doors count matching positions of equally long lists, a puzzle door counts the active elements of a non-empty puzzle |
| DoorControllerPuzzle33.DoorController.Update | Assets/Scripts/PuzzleScripts/Puzzle3.3/DoorController.cs:24-83 | the door is destroyed exactly when it already was or its condition holds: the same code, the exact item list, or all puzzle elements active |
| DoorControllerPuzzle33.DoorController.CodeMatches | Assets/Scripts/PuzzleScripts/Puzzle3.3/DoorController.cs:32-47 | true exactly when the collected numbers equal the code |
| DoorControllerPuzzle33.DoorController.ItemsMatch | Assets/Scripts/PuzzleScripts/Puzzle3.3/DoorController.cs:49-64 | true exactly when the inventory equals the item list, position by position |
| DoorControllerPuzzle33.DoorController.PuzzlePass | Assets/Scripts/PuzzleScripts/Puzzle3.3/DoorController.cs:66-79 | the door is destroyed exactly when all of a non-empty set of elements are active |
| Raycast.FirstKeypadValue | Assets/Scripts/PuzzleScripts/InteractorMain.cs:148-165 | none exactly when no hit is a tagged button with `ButtonStats`; otherwise the value of the first such hit |
| Raycast.Pickups | Assets/Scripts/PuzzleScripts/InteractorMain.cs:171-184 | one object per "Pickup" hit |
| Raycast.PickupsCharacterised | Assets/Scripts/PuzzleScripts/InteractorMain.cs:171-184 | an object is picked up exactly when some hit on it is tagged "Pickup" |
| Raycast.LastDrawerExists | Assets/Scripts/PuzzleScripts/InteractorMain.cs:190-203 | there is a last drawer exactly when some hit is a drawer |
| Raycast.DrawerSet | Assets/Scripts/PuzzleScripts/InteractorMain.cs:190-203 | every drawer hit's component is in the set |
| Raycast.DoorSet | Assets/Scripts/PuzzleScripts/InteractorMain.cs:215-228 | the set holds exactly the door hits' components |
| InteractorMain.Overflow | Assets/Scripts/PuzzleScripts/InteractorMain.cs:105-110 | a list within `codeCount` is kept and a longer one becomes its last number; it throws only for a negative `codeCount` and an empty list |
| InteractorMain.HoldAddsOnce | Assets/Scripts/PuzzleScripts/InteractorMain.cs:82-97 | over any run of frames with the key held, the code list ends as after the first frame |
| InteractorMain.LatchedKeeps | Assets/Scripts/PuzzleScripts/InteractorMain.cs:82-110 | with the latch closed, further held frames leave a list already within bounds unchanged |
| InteractorMain.NumberHasNoSeparator | Assets/Scripts/PuzzleScripts/InteractorMain.cs:121-125 | a written number holds no comma and no space |
| InteractorMain.Join | Assets/Scripts/PuzzleScripts/InteractorMain.cs:113-136 | the display is empty exactly for an empty list, a single number for a one-number list, and never ends in a space |
| InteractorMain.JoinComma | Assets/Scripts/PuzzleScripts/InteractorMain.cs:117-127 | the display holds a comma exactly when it shows two or more numbers |
| InteractorMain.SplitAtLastSeparator | Assets/Scripts/PuzzleScripts/InteractorMain.cs:121 | the text after the last ", " is determined |
| InteractorMain.JoinInjective | Assets/Scripts/PuzzleScripts/InteractorMain.cs:113-136 | different code lists are shown differently |
| InteractorMain.InteractorMain.constructor | Assets/Scripts/PuzzleScripts/InteractorMain.cs:11-24 | empty lists, no drawer, latch open |
| InteractorMain.InteractorMain.Start | Assets/Scripts/PuzzleScripts/InteractorMain.cs:41-44 | a code length of 0 becomes 3; any other is kept |
| InteractorMain.InteractorMain.HandleSequence | Assets/Scripts/PuzzleScripts/InteractorMain.cs:146-167 | the list gains the first keypad button's value, or nothing |
| InteractorMain.InteractorMain.HandlePickup | Assets/Scripts/PuzzleScripts/InteractorMain.cs:169-186 | the inventory gains every "Pickup" hit's object, in hit order |
| InteractorMain.InteractorMain.HandleDrawer | Assets/Scripts/PuzzleScripts/InteractorMain.cs:188-211 | with a drawer hit, the last one becomes `lastDrawer` and is the only one pulling out among those hit and the one held before; with none, nothing changes |
| InteractorMain.InteractorMain.PullOut | Assets/Scripts/PuzzleScripts/InteractorMain.cs:195-203 | the drawer pulls out and becomes `lastDrawer`; a different previous drawer stops |
| InteractorMain.InteractorMain.HandleDoors | Assets/Scripts/PuzzleScripts/InteractorMain.cs:213-229 | every door hit records the interaction |
| InteractorMain.InteractorMain.CodeToDisplay | Assets/Scripts/PuzzleScripts/InteractorMain.cs:115-127 | the loop builds the joined display text |
| InteractorMain.InteractorMain.Interact | Assets/Scripts/PuzzleScripts/InteractorMain.cs:75-93 | the held key's frame: keypad only with the latch open, then pickups, drawers, doors, and the latch closes; with no drawer hit, `lastDrawer` and its `pullingOut` are unchanged |
| InteractorMain.InteractorMain.Release | Assets/Scripts/PuzzleScripts/InteractorMain.cs:95-103 | the latch opens and the last drawer stops pulling out |
| InteractorMain.InteractorMain.ShowCode | Assets/Scripts/PuzzleScripts/InteractorMain.cs:105-136 | the overflow rule then the display; throws exactly when the rule does, changing neither |
| InteractorMain.InteractorMain.Update | Assets/Scripts/PuzzleScripts/InteractorMain.cs:67-144 | nothing while paused or unready; otherwise the held or released key's work, then the overflow rule and the display; a held key with no drawer hit leaves `lastDrawer` and its `pullingOut` as they were; a released key leaves every other drawer and every door as it was |
| InteractorMainPuzzle33.ClearOverflowBounds | Assets/Scripts/PuzzleScripts/Puzzle3.3/InteractorMain.cs:52-55 | after the rule, the list is within `codeCount`; a list within it is kept and a longer one emptied |
| InteractorMainPuzzle33.KeypadSeesOnlyFirstHit | Assets/Scripts/PuzzleScripts/Puzzle3.3/InteractorMain.cs:58-65 | a button behind another object enters nothing here, but does in the first copy |
| InteractorMainPuzzle33.InteractorMain.constructor | Assets/Scripts/PuzzleScripts/Puzzle3.3/InteractorMain.cs:18-21 | empty lists and no drawer |
| InteractorMainPuzzle33.InteractorMain.HandleKeypad | Assets/Scripts/PuzzleScripts/Puzzle3.3/InteractorMain.cs:58-65 | throws exactly for an empty hit array; otherwise the list gains the first hit's value when it is a keypad button |
| InteractorMainPuzzle33.InteractorMain.HandlePickup | Assets/Scripts/PuzzleScripts/Puzzle3.3/InteractorMain.cs:67-79 | the inventory gains every "Pickup" hit's object, in hit order |
| InteractorMainPuzzle33.InteractorMain.HandleDrawer | Assets/Scripts/PuzzleScripts/Puzzle3.3/InteractorMain.cs:81-93 | every drawer hit pulls out and the last becomes `lastDrawer` |
| InteractorMainPuzzle33.InteractorMain.LetGo | Assets/Scripts/PuzzleScripts/Puzzle3.3/InteractorMain.cs:47-50 | key-up: the last drawer pulled, if any, stops pulling out |
| InteractorMainPuzzle33.InteractorMain.Update | Assets/Scripts/PuzzleScripts/Puzzle3.3/InteractorMain.cs:24-56 | throws exactly on key-down with no hits; otherwise key-down adds the keypad and pickups, key-held pulls drawers, key-up lets go of `lastDrawer`, then overflow empties the list; every drawer hit or held ends pulling out exactly when key-held hit it and key-up did not let it go, and otherwise keeps its value; a throw changes no drawer |
| ResetOnWrongNumber.FirstMismatch | Assets/Scripts/PuzzleScripts/ResetOnWrongNumber.cs:17-23 | where the walk stops: none when every entered number matches the code; otherwise the first index that has no code number or a different one |
| ResetOnWrongNumber.NoMismatchIffPrefix | Assets/Scripts/PuzzleScripts/ResetOnWrongNumber.cs:17-23 | the walk finds nothing wrong exactly when the entered numbers are a prefix of the code |
| ResetOnWrongNumber.OutcomeOfWalk | Assets/Scripts/PuzzleScripts/ResetOnWrongNumber.cs:17-23 | it throws exactly when the whole code is entered and more follows; it resets exactly when a number within both lists is wrong |
| ResetOnWrongNumber.ResetOnWrongNumber.constructor | Assets/Scripts/PuzzleScripts/ResetOnWrongNumber.cs:10-13 | the interactor, door and transforms wired |
| ResetOnWrongNumber.ResetOnWrongNumber.ResetPuzzle | Assets/Scripts/PuzzleScripts/ResetOnWrongNumber.cs:26-31 | the list is cleared and the object moves to the start position |
| ResetOnWrongNumber.ResetOnWrongNumber.Update | Assets/Scripts/PuzzleScripts/ResetOnWrongNumber.cs:15-24 | a wrong number within the code resets once; a correct prefix changes nothing; running past the code with no error throws |
| ColorNumberSetter.FirstFresh | Assets/Scripts/PuzzleScripts/ColorNumberSetter.cs:52-57 | the first draw not yet used, with every earlier draw used |
| ColorNumberSetter.GenerateFresh | Assets/Scripts/PuzzleScripts/ColorNumberSetter.cs:50-62 | a returned digit is in 1..3 and was not used; the draws left are a suffix; no digit only when every draw was used |
| ColorNumberSetter.GenerateKeepsDistinct | Assets/Scripts/PuzzleScripts/ColorNumberSetter.cs:59 | appending the returned digit keeps the used list duplicate-free |
| ColorNumberSetter.ExhaustedNeverReturns | Assets/Scripts/PuzzleScripts/ColorNumberSetter.cs:54-57 | with all three digits used, no draw is fresh: the loop ends only while fewer than three are used |
| ColorNumberSetter.FreshDigitRemains | Assets/Scripts/PuzzleScripts/ColorNumberSetter.cs:52-57 | with fewer than three used, some digit in 1..3 is fresh |
| ColorNumberSetter.DigitsFrom | Assets/Scripts/PuzzleScripts/ColorNumberSetter.cs:21-35 | n calls return at most n digits |
| ColorNumberSetter.DigitsFromDistinct | Assets/Scripts/PuzzleScripts/ColorNumberSetter.cs:21-59 | the used list stays duplicate-free and in range over any number of calls |
| ColorNumberSetter.DigitsArePermutation | Assets/Scripts/PuzzleScripts/ColorNumberSetter.cs:21-35 | the blue, green and red digits are distinct and together are exactly {1, 2, 3} |
| ColorNumberSetter.ColorKeyLayout | Assets/Scripts/PuzzleScripts/ColorNumberSetter.cs:38-40 | for single digits the key has 28 characters, with each colour's digit at a fixed place |
| ColorNumberSetter.ColorKeyInjective | Assets/Scripts/PuzzleScripts/ColorNumberSetter.cs:38-40 | different assignments give different keys |
| ColorNumberSetter.ColorNumberSetter.constructor | Assets/Scripts/PuzzleScripts/ColorNumberSetter.cs:9-15 | the three groups and the key wired, nothing used |
| ColorNumberSetter.ColorNumberSetter.GenerateNumToUse | Assets/Scripts/PuzzleScripts/ColorNumberSetter.cs:50-62 | returns the first fresh draw and appends it to the used list, or no digit, changing nothing, when the draws run out |
| ColorNumberSetter.ColorNumberSetter.AssignGroup | Assets/Scripts/PuzzleScripts/ColorNumberSetter.cs:22-35 | every object of the group gets the value |
| ColorNumberSetter.ColorNumberSetter.Start | Assets/Scripts/PuzzleScripts/ColorNumberSetter.cs:17-42 | the used list is the digits drawn; with all three, the key shows them; each button holds its group's digit, a later group winning for an object listed twice |
| Contacts.LastMatchDecides | Assets/Scripts/PuzzleScripts/PortalButtons.cs:38-66 | over a run of trigger contacts, a set/clear latch keeps its value without a matching contact, and is otherwise set exactly when the last matching contact was an enter |
| Contacts.EnterThenExit | Assets/Scripts/PuzzleScripts/PortalButtons.cs:38-66 | a matching enter sets the flag and the matching exit clears it |
| PortalButtons.OnePressingTag | Assets/Scripts/PuzzleScripts/PortalButtons.cs:38-66 | each button tag has one pressing tag, only "ShadowButton" and "Button" are pressed, and the crossed pairs never press |
| PortalButtons.ActiveAfterContacts | Assets/Scripts/PuzzleScripts/PortalButtons.cs:38-66 | a button is active exactly when its last pressing contact was an enter, and keeps its state without one |
| PortalButtons.PressedFrom | Assets/Scripts/PuzzleScripts/PortalButtons.cs:12-20 | the pressed position is below the resting one, with the same x and z |
| PortalButtons.PortalButtons.constructor | Assets/Scripts/PuzzleScripts/PortalButtons.cs:10 | the button starts inactive |
| PortalButtons.PortalButtons.Start | Assets/Scripts/PuzzleScripts/PortalButtons.cs:12-20 | the resting position is the current one, and the pressed one is below it |
| PortalButtons.PortalButtons.Update | Assets/Scripts/PuzzleScripts/PortalButtons.cs:23-36 | the button sits at the pressed position exactly when active |
| PortalButtons.PortalButtons.OnTriggerEnter | Assets/Scripts/PuzzleScripts/PortalButtons.cs:38-51 | a pressing collider activates; any other leaves the state |
| PortalButtons.PortalButtons.OnTriggerExit | Assets/Scripts/PuzzleScripts/PortalButtons.cs:53-66 | a pressing collider leaving deactivates; any other leaves the state |
| PortalButtonsPuzzle33.PortalButtons.constructor | Assets/Scripts/PuzzleScripts/Puzzle3.3/PortalButtons.cs:4 | the button's own tag and parts wired |
| PortalButtonsPuzzle33.PortalButtons.Start | Assets/Scripts/PuzzleScripts/Puzzle3.3/PortalButtons.cs:9-14 | the resting position is the current one, and the pressed one is below it |
| PortalButtonsPuzzle33.PortalButtons.Update | Assets/Scripts/PuzzleScripts/Puzzle3.3/PortalButtons.cs:16-26 | the button sits at the pressed position exactly when the inherited `activeState` is set |
| PortalButtonsPuzzle33.PortalButtons.OnTriggerEnter | Assets/Scripts/PuzzleScripts/Puzzle3.3/PortalButtons.cs:28-39 | a pressing collider sets the inherited `activeState`; any other leaves it |
| PortalButtonsPuzzle33.PortalButtons.OnTriggerExit | Assets/Scripts/PuzzleScripts/Puzzle3.3/PortalButtons.cs:40-50 | a pressing collider leaving clears the inherited `activeState`; any other leaves it |
| PuzzleTrigger.ShownAfterContacts | Assets/Scripts/PuzzleScripts/Puzzle3.3/PuzzleTrigger.cs:7-34 | after `Start`, elements are shown exactly when the player's last contact was an enter, and hidden without one |
| PuzzleTrigger.PuzzleTrigger.constructor | Assets/Scripts/PuzzleScripts/Puzzle3.3/PuzzleTrigger.cs:7-13 | the element array wired |
| PuzzleTrigger.PuzzleTrigger.SetAll | Assets/Scripts/PuzzleScripts/Puzzle3.3/PuzzleTrigger.cs:9-12 | every element gets the value |
| PuzzleTrigger.PuzzleTrigger.Start | Assets/Scripts/PuzzleScripts/Puzzle3.3/PuzzleTrigger.cs:7-13 | every element is hidden |
| PuzzleTrigger.PuzzleTrigger.OnTriggerEnter | Assets/Scripts/PuzzleScripts/Puzzle3.3/PuzzleTrigger.cs:15-24 | the player shows every element; another collider changes nothing |
| PuzzleTrigger.PuzzleTrigger.OnTriggerExit | Assets/Scripts/PuzzleScripts/Puzzle3.3/PuzzleTrigger.cs:25-34 | the player hides every element; another collider changes nothing |
| SoundTrigger.MayPlayUnlessSpent | Assets/Scripts/PuzzleScripts/SoundTrigger.cs:11 | the gate is shut exactly for a one-shot trigger that has played |
| SoundTrigger.SoundTrigger.constructor | Assets/Scripts/PuzzleScripts/SoundTrigger.cs:7-8 | not played yet |
| SoundTrigger.SoundTrigger.OnTriggerEnter | Assets/Scripts/PuzzleScripts/SoundTrigger.cs:9-19 | with the gate open and the sound silent, it plays once and `hasPlayed` is set; otherwise nothing changes; `hasPlayed` never returns to false, and a one-shot trigger plays at most once |

## Left out

- I/O failures, directory creation and `Path.GetDirectoryName` are not modelled: the file system is a map from path to content, and `Write` always succeeds.
- JsonUtility, reflection and `Guid.NewGuid` are foreign calls. They are parameters: an encoder and decoder per format, a state-type table, and a fresh token.
- Scene loading, the frame waits of `LoadSceneAndRestore`, and `GameplayStateReset` are engine calls. They appear only as `LoadScene` and `ResetToGameplay` steps in the load trace.
- The restore pass runs on the entities given as present once the scene is ready. How the engine finds them (`FindObjectsByType`, `GetComponents`) is not modelled.
- `Debug.Log` output and audio (`interactAudio`, `soundToPlay`) are not modelled, except that `AudioSource.Play` starts the sound.
- SaveManager's `Awake` singleton and editor auto-load are engine lifecycle code. They are not modelled.
- `SaveManager.RestoreEntries`: the four C# counters are kept as one `Summary` value.
- `SaveManager.SaveToSlot`: the `catch` is not modelled, because nothing in the modelled save path throws.
- The `version` field is written but never read on load, so it has no effect on the model.
- `SaveableEntity.SaveableEntity.RegisterOrRefresh`: `SetDirty` is not modelled. Neither is the editor-only gating through `OnEnable`/`OnValidate` and `Application.isPlaying`.
- `TransformSaveAdapter.TransformSaveAdapter.ApplyAfterOneFrame`: the frame wait is a queue of pending states, resumed oldest first.
- Vectors and quaternions are opaque values. Floats are `real`, with no float rounding, so the pressure button's `y - 0.25` is exact.
- The DrawerPullout motion (`PulloutDrawer`) is float integration over frames. It is not modelled.
- The pickups' move below the map (`Translate`) is not modelled.
- `DoorController.DoorController.UnlockDoor` keeps `OpenDoor`'s translation as the distance lifted, without its direction.
- `MainMenuController`: local-time formatting (`ToLocalTime()`, `:g`) is kept as the unix time it formats.
- `MainMenuController`: buttons and labels are values held by the controller's fields, so two fields wired to one widget are not modelled.
- `MainMenuController`: `EnsureSaveManager`, the listener wiring, `OnDisable`, `ConfirmDelete` and its dialog are not modelled. The handlers take the save manager after any bootstrap attempt.
- `MainMenuController.MainMenuController.StartLevel1Fresh`: the cursor and `Time.timeScale` changes are not modelled.
- `InteractorMain`: the camera, the input system and the raycast are inputs to `Update`. The interactor's own fields are modelled.
- `Raycast.WellFormed`: every object tagged "Drawer" or "Door" is taken to carry the component the interactor reads without a null check. The scenes are built that way.
- Engine.Transform: world and local coordinates are kept as independent fields, so writing one pair does not move the other. The engine derives each from the other through the parent.
- DrawerPulloutSaveAdapter.DrawerPulloutSaveAdapter.RestoreState: its frame promises that the local pose keeps its value when `position` is written, which the engine does not, because the model transform keeps world and local coordinates independent.
- TransformSaveAdapter.TransformSaveAdapter.ApplyNow: a world-space write leaves the local pose as it was, and a local-space write leaves the world pose as it was. The engine would move the other pair; the model transform keeps them independent.
- TransformSaveAdapter.TransformSaveAdapter.WritePose: the same independence of world and local coordinates as `ApplyNow`.
- TransformSaveAdapter.Posed: the same independence of world and local coordinates as `ApplyNow`.
- ResetOnWrongNumber.ResetOnWrongNumber.ResetPuzzle: moving the player back by writing its `position` leaves its local pose as it was, by the same independence of world and local coordinates.
- PortalButtons.PortalButtons.Update: placing the button by writing its `position` leaves its local pose as it was, by the same independence of world and local coordinates.
- SaveManager.SceneExistsInBuildSettings: case folding is modelled for the ASCII letters only, and '/' is the only directory separator. `StringComparison.OrdinalIgnoreCase` folds every letter, and `Path.GetFileNameWithoutExtension` also splits on '\\' on Windows.
- `InteractorMainPuzzle33.InteractorMain.Update`: the two raycasts of one frame are taken to return the same hits.
- `ColorNumberSetter.ColorNumberSetter.GenerateNumToUse`: the draws are a finite stream. Where the source would loop forever, the stream runs out and the method returns no digit.
- `ColorNumberSetter.ColorNumberSetter.Start`: when the draws run out, the state at that point is stated. In the source that point is never reached, because the loop spins forever.
- `Gameplay.Button`: its renderer colour is not modelled.
- `SoundTrigger`: `playOnce` is an inspector setting. It stays fixed over the object's life.
- `GetComponent` results that are null (other than the adapters' documented null checks) would be exceptions in the source. They are excluded by construction.
- `Engine.Toggle.SetIsOn`: the UGUI setter notifies listeners only when the value changes. The model follows that rule.

## Findings

| source | as written | input that shows it | evidently intended | confidence | as-written member | corrected member |
|---|---|---|---|---|---|---|
| Assets/Scripts/MenuScripts/SaveableEntity.cs:27-32 | an id already in `usedIds` is replaced, and that includes the id this entity registered on an earlier call | any entity: the first `RegisterOrRefresh` adds its id to `usedIds`; the next `OnValidate` on the same entity finds it there and assigns a new GUID | an id is replaced only when it is empty or used by another entity, so it stays stable across repeated calls | not executed | SaveableEntity.SecondCallReplacesId | SaveableEntity.OwnerAwareIsStable |

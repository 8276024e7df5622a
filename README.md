# SaveTitan save-sync core in Dafny

SaveTitan keeps a game's save folder in step between the local machine and a
shared cloud folder. Each game is a *profile* with an id. A profile has a
local INI file holding its name, executable, local save folder, active save
slot and sync mode. It also has a *descriptor* at
`<cloud>/<id>/profile_info.savetitan`, which names its save slots and holds
the cross-host *checkout* field: the host that is playing right now.

This project models the engine and the profile, slot and config logic around
it. Each component is described in the system's own terms:

- **The three key/value stores** (`modules/io.py`): `io_profile`, `io_global`
  and `io_savetitan`. They are functions on `map<string, Ini.Config>`, with
  every branch and exception of the source: read, search, list, write and
  delete. The methods `Io.IoProfile`, `Io.IoGlobal` and `Io.IoSavetitan`
  update the fields of a `State.Disk` object.
- **Folder comparison**: `check_folder_mismatch` is the recursive predicate
  `Trees.MismatchAt`. It works on trees that are maps from relative path to
  file (bytes and mtime). The model proves which levels agree when nothing
  mismatches. It also proves a corrected variant exact, and gives an input the
  code as written gets wrong.
- **Backup and copies**: `make_backup_copy` and the `while True` retry loops
  of `copy_save_to_cloud` and `copy_save_to_local`. The statements of a pass
  are methods proved equal to the functions `Io.Pass` and `Io.Run`. The
  retry answers and the faults of each pass are given as a list of attempts.
- **`check_and_sync_saves` and `launch_game`** (`modules/sync.py`): methods
  that return an outcome.
  - The outcome is a status plus a trace of events: claim, release, pull,
    push, offer of the sync dialog with its "newer" label, and launch.
  - The checkout writes land in the descriptor store.
  - The trace is specified by ghost functions, and module `SyncProperties`
    proves the lock protocol and pull/push rules about them.
- **Save manager**: the new, load, delete and rename handlers of
  `components/save_manager.py`. They are methods of the class
  `SaveManager.SaveManagerDialog`, on the descriptor, the slot folders and
  the list of rows.
- **Config editor**: `ConfigEditor.Editor` holds the table rows and
  `initial_values`, and covers four operations:
  - JSON flattening into `a/b/0` keys (`Json.Flatten`, proved sound, complete
    and injective on slash-free documents);
  - section derivation;
  - row filling;
  - write-back and reset.
- **Config dialog**, from `components/config_dialog.py`:
  - profile validation and the import scan tallies;
  - the duplicate-name check of `save_profile_fields`;
  - `add_profile` with its id loop and `export_profile_info`;
  - the comma-encoded omit list.

External inputs are parameters:

- the host name, `os.path.exists` of files outside the model and `os.access`
  denials (`State.Env`);
- dialog answers;
- the ids `generate_id` returns and the order of directory listings.

Behaviours of the code that the model keeps:

- Neither the comparison nor the copies consult the omit list. The list is
  only written, at components/config_dialog.py:576.
- The retry loop lives inside the copy functions, not in their caller.
- The checkout is cleared after play whether or not the user uploads.
- `local_backup` copies the local folder into the cloud slot's `.bak`
  sibling.
- The entry count that decides a pull counts top-level entries only
  (modules/sync.py:85-86).

## Model

| member | source | states |
|---|---|---|
| Io.CheckPermissions | modules/io.py:26-40 | A missing path passes; an existing one passes exactly when the action is not denied. |
| Io.NetworkShareAccessible | modules/io.py:44-58 | False with no cloud root; otherwise exactly the read check on the root with backslashes doubled, which is the root itself when it has none. |
| Io.SharePathPlain | modules/io.py:51 | Doubling backslashes leaves a path without backslashes unchanged. |
| Io.BackslashesDoubled | modules/io.py:51 | A root written with a backslash is checked under a different name (`a\b` becomes `a\\b`). |
| Io.ProfileValue | modules/io.py:70-79 | Gives a value exactly when the profile file exists, is readable and has the option. |
| Io.ProfileSection | modules/io.py:81-90 | Gives a section exactly when the profile file exists, is readable and has the section. |
| Io.FieldOfSection | modules/io.py:70-90 | For a lower-case field, looking the field up in the dict of the whole section gives the same value as the field read. |
| Io.FindProfiles | modules/io.py:92-102 | Lists each id once, and lists exactly the readable profiles whose field equals the value ignoring ASCII case. |
| Io.CollectSection | modules/io.py:104-114 | Maps every readable profile that has the section to that section, and nothing else. |
| Io.ListProfiles | modules/io.py:115-116 | Lists each id once, and lists exactly the profile files `glob` reports, readable or not. |
| Io.ProfileRead | modules/io.py:68-116 | The read answer follows the branch chosen by which of id, section, field and value are given. |
| Io.ProfileWrite | modules/io.py:118-137 | Missing id, section or field raises `ValueError`. A denied existing file raises `PermissionError`. Otherwise the field reads back as the value (`None` stored as `""`), the file is created if needed, and every other profile is unchanged. Every other field keeps its value when the file can be read; a file that exists but cannot be read is rewritten with the new field alone, because `config.read` skips it. |
| Io.ProfileDelete | modules/io.py:139-149 | No id raises `ValueError` and a missing profile raises `FileNotFoundError`. A denied file raises `PermissionError`. Otherwise exactly that profile is removed. |
| Io.ProfileWriteThenRead | modules/io.py:70-79 | A successful write is read back by the branch naming the same profile, section and field. Also lines 118-137. |
| Io.IoProfile | modules/io.py:61-149 | Read leaves the store as it was. Write and delete install the result or raise its error with nothing changed. An unknown mode does nothing and returns `None`. |
| Io.GlobalRead | modules/io.py:160-166 | `ValueError` exactly when section or field is missing; otherwise a value exactly when the option exists. |
| Io.GlobalWrite | modules/io.py:168-178 | `ValueError` exactly when section or field is missing; otherwise the field reads back as the value and every other option is unchanged. |
| Io.IoGlobal | modules/io.py:152-181 | Read and write behave as above; any other mode raises `ValueError` and changes nothing. |
| Io.DescriptorRead | modules/io.py:191-210 | `ValueError` exactly without a cloud root; with a field, the value or `None`; without one, the section or `None`. |
| Io.DescriptorValue | modules/io.py:191-205 | An error exactly without a cloud root; otherwise the option of the descriptor at `<cloud>/<id>/profile_info.savetitan`. |
| Io.DescriptorWrite | modules/io.py:211-222 | `ValueError` exactly without a cloud root or a field. Otherwise the field reads back as the value and every other field and descriptor is unchanged. |
| Io.DescriptorDelete | modules/io.py:224-234 | Succeeds exactly when the option exists, else raises `ValueError`. On success only that option is gone and every other descriptor is unchanged. |
| Io.IoSavetitan | modules/io.py:184-236 | No cloud root raises `ValueError`; each mode installs its result or raises with nothing changed; an unknown mode raises `ValueError`. |
| Io.Backup | modules/io.py:335-349 | Only the backup folder changes. With a source that exists, is not the backup folder itself, and no fault, the backup succeeds, and a successful backup holds exactly the source's files. |
| Io.MakeBackupCopy | modules/io.py:326-349 | No slot path raises `TypeError` and an invalid side raises the "Invalid which_side argument" exception, each with nothing changed. Otherwise `save<N>.bak` gets the local folder or the cloud slot. |
| Io.Replace | modules/io.py:277-281 | Only the destination changes, and on success it equals the source. |
| Io.Pass | modules/io.py:272-285 | Only the destination and the backup change; no destination is a `TypeError`. A backed-up pass leaves the backup equal to the destination before the pass, and on success the destination equals the source. |
| Io.ReplaceFolder | modules/io.py:277-281 | The statements after the backup do what `Replace` describes. |
| Io.SyncAttempt | modules/io.py:272-285 | One pass of the loop body does what `Pass` describes. Also lines 304-317. |
| Io.ReplaceWithRetry | modules/io.py:271-290 | The loop does what `Run` describes: it repeats only on a failed pass answered with Retry. Also lines 303-322. |
| Io.CopySave | modules/io.py:261-322 | No slot path raises `TypeError` and an unreachable share returns with nothing changed; otherwise the loop runs to success or until the user gives up. |
| Io.CopySaveAsWritten | modules/io.py:261-290 | `copy_save_to_cloud` as written: the slot is backed up again on every pass. |
| Io.CopySaveToCloud | modules/io.py:261-290 | Corrected loop (see Findings): local folder into the cloud slot, with the backup kept once taken. Nothing changes when the share is unreachable. |
| Io.CopySaveToLocal | modules/io.py:294-322 | Corrected loop (see Findings): cloud slot into the local folder, with the backup kept once taken. Nothing changes when the share is unreachable. |
| Io.RunFrame | modules/io.py:271-290 | The loop touches only the destination and the backup folder. |
| Io.RunWithoutDestination | modules/io.py:266-273 | Without a destination path no pass succeeds. |
| Io.RunSyncedCopies | modules/io.py:278-284 | A loop ending in success leaves the destination equal to the source as it was. |
| Io.CleanPassSucceeds | modules/io.py:272-284 | A pass without a fault succeeds when the source exists and the three folders differ. |
| Io.CleanAttemptSyncs | modules/io.py:271-290 | The first pass without a fault ends the loop with the destination a copy of the source. |
| Io.PassPreserves | modules/io.py:272-285 | With the backup taken until one succeeds, the destination's pre-loop contents survive each pass, in place or in the backup. |
| Io.RunKeepsOriginal | modules/io.py:271-290 | The same survival holds for the whole loop from any pass on. |
| Io.CopyKeepsOriginal | modules/io.py:271-290 | From the start of the loop, the destination's original contents are in the destination or in the backup at the end. |
| Io.EmptyingPass | modules/io.py:275-278 | A copy that fails before its first file leaves the slot empty after backing it up. |
| Io.RetryOverwritesBackup | modules/io.py:271-290 | As written, two failing passes lose the cloud save both from the slot and from its backup. |
| Trees.Visible | modules/io.py:241 | What `dircmp` sees: exactly the files with no hidden name on their path, with their contents. |
| Trees.VisibleWellFormed | modules/io.py:241 | Hiding names keeps a tree well-formed. |
| Trees.DirBelowHeight | modules/io.py:251-253 | A directory is shorter than the tree's longest path, which bounds the recursion. |
| Trees.NoMismatchStep | modules/io.py:244-253 | No mismatch at a directory means its level agrees and no common subdirectory mismatches. |
| Trees.LevelsFromNoMismatch | modules/io.py:243-255 | No mismatch at a directory means every level reached through common subdirectories agrees. |
| Trees.NoMismatchFromLevels | modules/io.py:243-255 | If every level reached through common subdirectories agrees, there is no mismatch. |
| Trees.MismatchLevels | modules/io.py:240-257 | No mismatch exactly when, at every level reached through common subdirectories, both sides list the same names and every common file has the same bytes. |
| Trees.MismatchImpliesFixed | modules/io.py:243-255 | Every mismatch the source reports is also reported when file/directory clashes count. |
| Trees.SameDataNoClash | modules/io.py:243-255 | Trees with the same files and bytes never mismatch in the corrected comparison. |
| Trees.SameDataNoMismatch | modules/io.py:240-257 | Trees with the same files and bytes never mismatch in the source's comparison. |
| Trees.FixedListing | modules/io.py:244 | The corrected comparison finding nothing means both sides list the same names. |
| Trees.FixedHere | modules/io.py:244-249 | It also means no name is a file on one side and a directory on the other, and files in common have the same bytes. |
| Trees.FixedBelow | modules/io.py:251-253 | It also means no common subdirectory mismatches. |
| Trees.NoClashLeftFile | modules/io.py:243-255 | It also means every file on the left is on the right with the same bytes. |
| Trees.NoClashRightFile | modules/io.py:243-255 | It also means every file on the right is on the left. |
| Trees.NoClashSameData | modules/io.py:240-257 | For well-formed trees, the corrected comparison finding nothing means same files, same bytes. |
| Trees.FixedMismatchExact | modules/io.py:240-257 | For well-formed trees without hidden names, the corrected comparison finds nothing exactly when both hold the same files with the same bytes. |
| Trees.FileVersusDirectoryUnnoticed | modules/io.py:244 | A file `a` against a directory `a/` compares equal as written, though the data differ. |
| Trees.NoSelfMismatch | modules/io.py:240-257 | A tree never mismatches itself. |
| Trees.CopyNeverMismatches | modules/io.py:280-281 | A completed copy never raises "Mismatch in directory contents". Also lines 312-313. |
| Trees.Latest | modules/sync.py:103-116 | The newest file time, floored at 1900-01-01: at least the floor, no file newer, and attained by a file unless it is the floor. |
| Trees.LatestUnique | modules/sync.py:103-116 | Those three properties determine the time. |
| FileSystem.MakeDirs | modules/io.py:273 | `os.makedirs(exist_ok=True)`: the folder exists, keeping any files, and nothing else changes. |
| FileSystem.RmTree | modules/io.py:277 | `FileNotFoundError` exactly when missing; otherwise exactly that folder goes. |
| FileSystem.CopyTree | modules/io.py:278 | A missing source or an existing destination raises. Otherwise only the destination is added: a full copy without a fault, a part of the source with one. |
| Ini.Get | modules/io.py:76-79 | A value exactly when `has_option` holds. |
| Ini.Items | modules/io.py:87-88 | A section exactly when `has_section` holds. |
| Ini.Set | modules/io.py:132-135 | Adds the section if missing and sets the option (case-folded). Every other option and section is unchanged. |
| Ini.RemoveOption | modules/io.py:228-229 | The option is gone, and everything else is unchanged. |
| Text.SlotPathSpellings | modules/io.py:266 | The two spellings of the slot folder (`pid + "/save" + n` in io.py, `pid, "save" + n` at modules/sync.py:37) agree for an id without edge slashes. |
| Text.StripSavePrefix | components/save_manager.py:96 | Removing "save" from `save<digits>` gives the digits back. |
| Text.ParseIntToString | components/save_manager.py:59-60 | `int(str(n)) == n`, so the stored slot count reads back. |
| Text.RSplitHead | components/config_editor.py:236 | `rsplit('/', 1)[0]`: all of the key when it has no `/`, otherwise what precedes its last `/`. |
| Text.Basename | components/config_dialog.py:292 | `os.path.basename`: no `/` in the result, which is what follows the last `/`. |
| Sync.CheckoutOnlyChanges | modules/sync.py:44-65 | The checkout writes of a run touch only the checkout field of the profile's descriptor. They leave there the last value claimed or released. Also lines 139-143, 182. |
| Sync.ApplyCheckoutConcat | modules/sync.py:25-184 | Checkout writes compose along the event trace. |
| Sync.QuietEvents | modules/sync.py:67-135 | Comparing, pulling, pushing, offering and launching write no checkout. |
| Sync.WriteCheckout | modules/sync.py:62-65 | `io_savetitan("write", …, "checkout", v)` sets the field to `v`, or `""` for `None`. Also lines 139, 143, 182. |
| Sync.FilesIdentical | modules/sync.py:68-81 | The walk answers true exactly when every local file, at any depth, is in the slot at the same path with the same bytes. |
| Sync.LatestFileTime | modules/sync.py:103-116 | The max-tracking loop returns the newest file time from the 1900 floor. |
| Sync.LaunchSpec | modules/sync.py:158-184 | A launch never claims, pulls or offers; it pushes only on "Upload to Cloud". After a launch the trace ends with the checkout released. Nothing happens only when execute permission is denied. |
| Sync.WithoutSyncSpec | modules/sync.py:188-199 | Launching without sync starts the game and exits, or does nothing. |
| Sync.LaunchGame | modules/sync.py:158-184 | Does what `LaunchSpec` describes; the descriptors get its checkout writes, and the folders change only by a push, which runs the corrected `CopySaveToCloud`. |
| Sync.Upload | modules/sync.py:180 | The upload after play, through the corrected `CopySaveToCloud`, raises `TypeError` exactly when the slot path cannot be built. |
| Sync.LaunchWithoutSync | modules/sync.py:188-199 | Launching without sync for the profile it is given does what `WithoutSyncSpec` describes. |
| Sync.LaunchWithoutSyncAsWritten | modules/sync.py:191 | As written it raises `NameError` before doing anything. |
| Sync.ClaimCheckout | modules/sync.py:44-65 | Settles the checkout as the claim rule says, writing exactly the claim events. A declined contest writes nothing and ends the run. |
| Sync.Play | modules/sync.py:67-154 | Does what `PlaySpec` says; folders change only by a pull or a push, both through the corrected copy loops. |
| Sync.Compare | modules/sync.py:68-152 | Does what `CompareSpec` says, with the corrected copy loops. |
| Sync.Identical | modules/sync.py:84-99 | Does what `IdenticalSpec` says; the pull runs the corrected `CopySaveToLocal`. |
| Sync.LaunchAfter | modules/sync.py:94-95 | Launches after the given events, with the pull first when asked; the pull runs the corrected `CopySaveToLocal`. Also lines 146-147. |
| Sync.Diverged | modules/sync.py:130-152 | The sync dialog's buttons and its closing do what `DivergedSpec` says, with the corrected copy loops and the corrected `LaunchWithoutSync` for "No Sync". |
| Sync.NoSyncChosen | modules/sync.py:137-140 | Corrected call (see Findings): "No Sync" starts the game through `LaunchWithoutSync` and clears the checkout only when the start is refused. |
| Sync.DialogClosed | modules/sync.py:142-144 | Closing the dialog clears the checkout and exits. |
| Sync.CheckAndSyncSaves | modules/sync.py:25-154 | Does what `SyncSpec` says, with the corrected `LaunchWithoutSync` and copy loops: the descriptors get the trace's checkout writes, and the folders change only through a pull or a push. |
| Sync.ClaimThenPlay | modules/sync.py:43-154 | Settles the checkout, then compares and plays, through the corrected `Play`, unless the user declined. |
| SyncProperties.ThenReleased | modules/sync.py:94-95 | Events before a launch keep "released after launch". Also lines 146-147. |
| SyncProperties.LaunchReleased | modules/sync.py:177-182 | A launch returns with the checkout released last. |
| SyncProperties.DivergedReleased | modules/sync.py:137-150 | Every button and closing of the sync dialog ends with the checkout released. |
| SyncProperties.IdenticalReleased | modules/sync.py:84-99 | The identical branch ends with the checkout released. |
| SyncProperties.ReturnedPlayReleases | modules/sync.py:67-154 | Every play that started the game releases the checkout last. |
| SyncProperties.WithoutSyncOnlyLaunches | modules/sync.py:39-41 | Outside "Sync" mode a run at most launches and exits: no checkout, no comparison, no copy. |
| SyncProperties.DeclinedContestEndsRun | modules/sync.py:46-60 | A checkout held by another host, contest declined: exit with no event. Nothing is written, copied or launched. |
| SyncProperties.ClaimFirst | modules/sync.py:44-65 | An empty checkout, or an accepted contest, is claimed for this host first. A checkout this host holds is never claimed again. |
| SyncProperties.NoClaimInPlay | modules/sync.py:67-154 | Nothing after the lock step claims the checkout. |
| SyncProperties.NoClaimDiverged | modules/sync.py:137-150 | The sync dialog never claims the checkout. |
| SyncProperties.PullIdentical | modules/sync.py:84-99 | With identical files, a pull happens exactly when the slot has more top-level entries than the local folder. |
| SyncProperties.PullDiverged | modules/sync.py:146 | On divergence, a pull happens exactly on "Download". |
| SyncProperties.PullExactlyWhen | modules/sync.py:67-152 | A pull happens exactly when the slot is non-empty and either the files agree and the slot lists more entries, or they differ and the user chose "Download". |
| SyncProperties.NoOfferIdentical | modules/sync.py:84-99 | Identical files never show the sync dialog. |
| SyncProperties.OfferExactlyWhen | modules/sync.py:67-135 | The dialog shows exactly when the slot is non-empty and the local files are not all there unchanged. It labels the cloud "Newer" exactly when its newest time is strictly greater, so a tie labels local. |
| SyncProperties.OfferDiverged | modules/sync.py:122-135 | The diverged branch first shows the dialog with its label. |
| SyncProperties.PushIdentical | modules/sync.py:84-99 | The identical branch pushes only on "Upload to Cloud". |
| SyncProperties.PushDiverged | modules/sync.py:146-148 | The dialog's branches push only on "Upload to Cloud". |
| SyncProperties.PushPlay | modules/sync.py:67-154 | Play pushes only on "Upload to Cloud". |
| SyncProperties.PushOnlyOnRequest | modules/sync.py:25-184 | A run writes the slot only after the user asked for an upload. |
| SyncProperties.ReturnedRunClearsCheckout | modules/sync.py:25-184 | Every sync-mode run that launched the game and returned leaves the descriptor's checkout `""`. |
| SaveManager.NextSlotNumber | components/save_manager.py:59 | `int(saves) + 1`: `TypeError` exactly when `saves` is missing, `ValueError` on bad text, otherwise one more than the stored count. |
| SaveManager.NewSlotCounts | components/save_manager.py:59-63 | After adding slot n the count parses back to n, so the next slot is n+1. `save<n>` is named "Save n" and every other slot keeps its name. |
| SaveManager.LoadedSlotFolder | components/save_manager.py:65 | Once `save_slot` holds a slot key's number, the copies use the folder the new-slot handler created for that key. Also lines 96-98. |
| SaveManager.RenameKeepsNamesDistinct | components/save_manager.py:151-157 | A rename the check lets through keeps slot names distinct up to case. |
| SaveManager.SaveManagerDialog.constructor | components/save_manager.py:22-46 | Opening the dialog, with a cloud root, lists each slot of the descriptor's `saves` section once, under its key and with its name; a descriptor without that section lists nothing. |
| SaveManager.SaveManagerDialog.NewSave | components/save_manager.py:49-70 | No changes nothing. Yes with a bad count raises with nothing changed. Otherwise the count and the new slot's name are written, its folder is created and a row is appended; nothing else changes. |
| SaveManager.SaveManagerDialog.AddSlotFolder | components/save_manager.py:60-70 | Writes the count and the name, creates the folder and appends the row. |
| SaveManager.SaveManagerDialog.WriteDescriptor | components/save_manager.py:60-63 | Sets one field of this profile's descriptor. |
| SaveManager.SaveManagerDialog.PullSlot | components/save_manager.py:102 | A synced pull leaves the local folder equal to the slot folder. |
| SaveManager.SaveManagerDialog.PointAtSlot | components/save_manager.py:96-102 | A failed write of `save_slot` raises its error. In a readable profile file, `save_slot` reads back as the new slot and a synced pull leaves the local folder equal to that slot. In a file that cannot be read, the pull raises `TypeError` and leaves the folders as they were. |
| SaveManager.SaveManagerDialog.LoadSave | components/save_manager.py:73-104 | No selection or the loaded slot: no-op. Yes without a slot path raises `TypeError` with the profiles and folders unchanged. Otherwise, after the optional upload, `save_slot` is the key without "save". In a readable profile file it reads back and a synced pull leaves the local folder equal to the new slot. In a file that cannot be read the pull raises `TypeError`, because `save_slot` reads as `None`. |
| SaveManager.SaveManagerDialog.LoadSaveAsWritten | components/save_manager.py:94-102 | As written every load raises `TypeError`. On No it does so after `save_slot` already points at the new slot, whose files never arrive. |
| SaveManager.SaveManagerDialog.DeleteSave | components/save_manager.py:107-135 | The loaded slot, no selection or No: nothing changes. Otherwise the slot's name goes from the descriptor, then its folder and its row; each failure stops with the earlier steps kept. |
| SaveManager.SaveManagerDialog.RemoveSlot | components/save_manager.py:132-135 | Removes the folder then the row; a missing folder raises with nothing changed. |
| SaveManager.SaveManagerDialog.RenameSave | components/save_manager.py:138-159 | Cancelled, empty or taken ignoring ASCII case: nothing changes. A descriptor without a `saves` section raises `AttributeError`. Otherwise only the selected slot's name changes, in the descriptor and in its row. |
| Json.Find | components/config_editor.py:203-205 | The first member with the key, or none has it. |
| Json.FindDistinct | components/config_editor.py:203-205 | Without repeated keys every member is the one found under its key. |
| Json.Lookup | components/config_editor.py:355-356 | `d.get(k)`: a value exactly for a present key. |
| Json.Put | components/config_editor.py:212 | `out[k] = v`: the key maps to v and every other key is unchanged, keeping keys distinct. |
| Json.PutAllKeys | components/config_editor.py:199-215 | Every key assigned is present afterwards, and no other. |
| Json.PutAllFrom | components/config_editor.py:199-215 | Every entry comes from the start or from an assignment. |
| Json.PutAllDistinct | components/config_editor.py:199-215 | Assignments keep keys distinct. |
| Json.ChopSlashed | components/config_editor.py:205-212 | `name[:-1]` of the slashed steps is the steps joined by `/`. |
| Json.Flatten | components/config_editor.py:202-212 | The recursion fills `out` with the leaf assignments in document order. |
| Json.FlattenJson | components/config_editor.py:199-215 | Returns the flattened dict. |
| Json.LeavesSound | components/config_editor.py:202-212 | Every assignment stores a leaf under the name of a path reaching it. |
| Json.LeavesComplete | components/config_editor.py:202-212 | Every leaf is assigned under the name of its path. |
| Json.FlattenedSound | components/config_editor.py:199-215 | Containers make no entries; every value is a leaf reached by the path its key names. |
| Json.FlattenedComplete | components/config_editor.py:199-215 | Every leaf's path is a key. |
| Json.FlattenedDistinct | components/config_editor.py:199-215 | No flattened key repeats. |
| Json.KeyDetermines | components/config_editor.py:199-215 | In a slash-free document two leaves never share a key. |
| Json.FlattenedValue | components/config_editor.py:199-215 | In a slash-free document each leaf's key maps to that leaf. |
| Json.SectionOfLeaf | components/config_editor.py:236 | A leaf's section is the key of its container (its own key at the top level). |
| Json.SectionsAreParents | components/config_editor.py:236 | The section list is exactly the containers holding a leaf plus the top-level leaves. |
| Json.UpdateSets | components/config_editor.py:358-360 | After the assignment the keys lead to the new value. Also line 379. |
| Json.UpdateElsewhere | components/config_editor.py:379 | Every path leaving the assigned keys reads the same afterwards. |
| Json.UpdateSame | components/config_editor.py:379 | Assigning a path its own value leaves the document unchanged. |
| Json.CoerceRender | components/config_editor.py:362-377 | A string or number saved as its own text comes back unchanged. `true`, `false` and `null` come back as "True", "False" and "None". |
| ConfigEditor.RowsExact | components/config_editor.py:269-277 | (corrected prefix strip) a JSON row is exactly an entry one level below the section, with its value's text. |
| ConfigEditor.RowsDistinct | components/config_editor.py:271-277 | Distinct keys make distinct rows. |
| ConfigEditor.InitialKeys | components/config_editor.py:277-282 | Exactly the shown rows are recorded. Also line 262. |
| ConfigEditor.InitialValues | components/config_editor.py:277-282 | With distinct keys every row is recorded with its value. Also line 262. |
| ConfigEditor.ReplaceShowsGrandchild | components/config_editor.py:273 | As written, `a/a/x` shows as a second row `x` of section `a`. |
| ConfigEditor.RowNamesItsEntry | components/config_editor.py:271-277 | Each corrected row names its entry and shows that entry's value. |
| ConfigEditor.AsWrittenRowMisnamesEntry | components/config_editor.py:273 | As written, row `x` shows 2 though `a/x` holds 1. |
| ConfigEditor.BackupKeepsFirstVersion | components/config_editor.py:306-314 | A save copies the file to its backup only when none exists, so the backup keeps the first version. |
| ConfigEditor.SaveIniSets | components/config_editor.py:334-341 | The section is added if there is a row. Each row's option is set to its last value, and other sections and options are unchanged. |
| ConfigEditor.WriteRowEffect | components/config_editor.py:352-379 | A row outside the flattened keys changes nothing. Otherwise its keys lead to the coerced value: the text itself for a non-numeric original. Every other path is unchanged. |
| ConfigEditor.NavigateParent | components/config_editor.py:358-360 | A path that leads somewhere passes through an object at its last step. |
| ConfigEditor.SaveUneditedKeeps | components/config_editor.py:346-382 | Saving rows nobody edited writes the document back as read. |
| ConfigEditor.ListItemsNotSaved | components/config_editor.py:358-379 | Rows of a list section are never saved: the assignment into a list is a `TypeError`, unless refused first. |
| ConfigEditor.ValueRowNotSaved | components/config_editor.py:279-282 | The "Value" row of a top-level scalar is never written back. Also line 355. |
| ConfigEditor.RestoreLooksElsewhere | components/config_editor.py:306-309 | The restore path has the host name as an extra folder, so it never names the backup a save wrote. Also lines 418-422. |
| ConfigEditor.ResetUndoesEdits | components/config_editor.py:390-409 | Whatever was typed, a reset brings back the rows as filled. |
| ConfigEditor.Editor.constructor | components/config_editor.py:22-68 | Placeholders selected, empty table, no recorded values. |
| ConfigEditor.Editor.Populate | components/config_editor.py:240-282 | "Files": nothing. JSON: the section's rows, the "Value" row or its `TypeError`, each recorded. INI: one row per option, recorded. Bad JSON raises `ValueError`. JSON rows use the corrected `ChildRow` (see Findings). |
| ConfigEditor.Editor.IniRows | components/config_editor.py:259-262 | One row per option of the section, recorded. |
| ConfigEditor.Editor.JsonRows | components/config_editor.py:271-277 | Corrected prefix strip (see Findings): the rows one level below the section, recorded. |
| ConfigEditor.Editor.Save | components/config_editor.py:300-382 | A placeholder selected: nothing. Otherwise back up once and write the rows, INI or JSON. |
| ConfigEditor.Editor.WriteIni | components/config_editor.py:334-341 | The INI write-back loop. |
| ConfigEditor.Editor.WriteJson | components/config_editor.py:346-382 | Flatten, then write each row until one is refused or fails. |
| ConfigEditor.Editor.SaveRow | components/config_editor.py:352-379 | One row's write-back. |
| ConfigEditor.Editor.Descend | components/config_editor.py:358-360 | The walk down the document: `KeyError` on a missing key, `TypeError` on a non-dict. |
| ConfigEditor.Editor.Reset | components/config_editor.py:390-409 | Each row with a recorded value gets it back; the others are untouched. |
| ConfigDialog.Validate | components/config_dialog.py:363-384 | 1 exactly when the id is registered here, before the descriptor is looked at. 0 exactly for an unregistered id whose descriptor has `name`, `saves`, `executable_name` and `checkout`, and 2 otherwise. No cloud root is a `TypeError`. |
| ConfigDialog.ValidateAsWrittenRaises | components/config_dialog.py:372-382 | As written the code agrees with `Validate`, except that a missing descriptor section raises `TypeError` instead of giving 2. |
| ConfigDialog.MissingDescriptorRaises | components/config_dialog.py:373-374 | A folder without a descriptor makes the scan as written raise. |
| ConfigDialog.ScanCountsInvalid | components/config_dialog.py:398-405 | `invalid_profiles` is the number of folders validating to 2. |
| ConfigDialog.ScanCountsImportable | components/config_dialog.py:408-415 | One entry per folder validating to 0. |
| ConfigDialog.ScanListsImportable | components/config_dialog.py:408-415 | The entries are exactly `name - executable_name (id)` of the folders validating to 0. |
| ConfigDialog.Scan | components/config_dialog.py:387-415 | The scan loop builds that report, with the corrected `Validate` (see Findings). |
| ConfigDialog.Clash | components/config_dialog.py:752-757 | Stops exactly on another profile whose name matches ignoring ASCII case; keeping one's own name is allowed. A profile without a name reached first is a `KeyError`. |
| ConfigDialog.CheckNames | components/config_dialog.py:752-757 | The loop computes `Clash`. |
| ConfigDialog.ProfileWritesEffect | components/config_dialog.py:759-762 | A run of profile writes fails only with `PermissionError` on a denied file, and other profiles are untouched. Otherwise each field holds its last value when the file can be read. When it cannot, the file holds the last field alone. |
| ConfigDialog.ProfileWritesUnreadable | components/config_dialog.py:759-762 | A run of writes that goes through leaves a profile file that cannot be read holding the last field alone, because each write starts from an empty config. |
| ConfigDialog.ProfileWritesKeep | components/config_dialog.py:759-762 | Fields the run does not name keep their values, except in a file that cannot be read but may be written, where the run loses them. |
| ConfigDialog.DescriptorWritesEffect | components/config_dialog.py:765-766 | With a cloud root, descriptor writes succeed (the cloud folder of the profile is taken to exist). Each field reads back its last value, and unnamed fields and other descriptors are untouched. |
| ConfigDialog.DuplicateWritesNothing | components/config_dialog.py:742-757 | With `order` listing exactly the profiles read: a save blocked by another profile's name writes nothing. A registered profile whose new name no other readable profile has is not blocked. |
| ConfigDialog.TakenNameWritesNothing | components/config_dialog.py:742-757 | With `order` listing exactly the profiles read: when another readable profile has the new name ignoring ASCII case, nothing is written and the save does not go through. |
| ConfigDialog.TakenClashes | components/config_dialog.py:752-757 | A loop over every profile read never ends clean when another profile has the name. |
| ConfigDialog.ClashFreeAll | components/config_dialog.py:752-757 | A clean loop means no other listed profile has the name, ignoring ASCII case. |
| ConfigDialog.WriteCheckedUnclear | components/config_dialog.py:752-766 | After a clash or a `KeyError` in the name check, nothing is written. |
| ConfigDialog.SaveFieldsWrites | components/config_dialog.py:759-766 | A save that goes through writes the four profile fields, then the descriptor's name and executable base name. |
| ConfigDialog.EditedFieldsRead | components/config_dialog.py:759-762 | The four fields read back from a readable profile. A file that cannot be read keeps only `sync_mode`. Other profiles are untouched. |
| ConfigDialog.RenamedDescriptorRead | components/config_dialog.py:765-766 | The name and executable base name read back from the descriptor, and other descriptors are untouched. |
| ConfigDialog.SaveProfileFields | components/config_dialog.py:733-766 | Given the ids of exactly the profiles read, it does what `SaveFields` says to the profile files and descriptors. |
| ConfigDialog.Admitted | components/config_dialog.py:229-251 | The submission taken is one of those given and passes the screening. |
| ConfigDialog.ReadSubmissions | components/config_dialog.py:229-251 | The dialog loop stops at the first submission that passes. |
| ConfigDialog.ScreenOne | components/config_dialog.py:238-251 | A submission passes exactly when every field is filled, the executable exists, the folder is a directory, and no more than the tolerated number of readable profiles already have the name, ignoring ASCII case. |
| ConfigDialog.AcceptedNameIsNew | components/config_dialog.py:249 | With the intended test, no readable profile has an accepted name, ignoring case. |
| ConfigDialog.SecondNameAccepted | components/config_dialog.py:249 | As written, `game` is accepted beside an existing `Game`; the intended test refuses it. |
| ConfigDialog.FirstFree | components/config_dialog.py:256-259 | The first candidate id not taken, all before it taken. |
| ConfigDialog.GenerateId | components/config_dialog.py:256-259 | The id loop returns that candidate. |
| ConfigDialog.FirstIdUsed | components/config_dialog.py:258 | As written the first id drawn is always kept, since no profile holds `profile_id`. |
| ConfigDialog.UsedIdKept | components/config_dialog.py:258 | As written an id already in use is kept; as intended the next one is drawn. |
| ConfigDialog.InitialDescriptor | components/config_dialog.py:278-290 | The new descriptor has the name, `save_slot` 1, `saves` 1, the sync mode, the executable name, an empty checkout and `save1` = "Save 1"; other descriptors are unchanged. |
| ConfigDialog.InitialProfileSection | components/config_dialog.py:278-288 | The six profile fields read back from the descriptor. |
| ConfigDialog.ExportProfileInfo | components/config_dialog.py:264-290 | Nothing when the share is unreachable; otherwise both folders and that descriptor. |
| ConfigDialog.AddProfileAsWritten | components/config_dialog.py:203-303 | As written a profile is never added: no cloud folder or a cancel changes nothing. Otherwise a `TypeError` follows the export: the profile folder is made, then either nothing else or the `save1` folder and the exported descriptor, and nothing else changes. |
| ConfigDialog.AddProfile | components/config_dialog.py:203-312 | The profile gets a name no profile has and an id no profile uses. Its folder is made, then either nothing more or the `save1` folder and the exported descriptor, with no other folder or descriptor changed. Its file is written as listed; it is added exactly when those writes succeed. |
| ConfigDialog.CreateProfileFolder | components/config_dialog.py:261-292 | The profile folder is made. Then either nothing else changes or exactly the `save1` folder and the exported descriptor are added. |
| ConfigDialog.WriteProfileFields | components/config_dialog.py:305-306 | The profile fields are written one by one. |
| ConfigDialog.AddedProfileRead | components/config_dialog.py:294-306 | The name, folders, slot 1 of 1 and sync mode read back from a readable profile. An existing file that cannot be read keeps only `sync_mode`. Other profiles are untouched. |
| ConfigDialog.OmitListPieces | components/config_dialog.py:554-555 | No listed entry holds a comma. |
| ConfigDialog.OmitListRoundTrip | components/config_dialog.py:555 | A comma-free list joined and read back is itself, but the lone empty entry reads back as no entries. Also line 576. |
| ConfigDialog.OmitAddition | components/config_dialog.py:563-581 | No file chosen: nothing. No local save folder: `TypeError`. Outside the save folder: a warning. Otherwise the file is written into the profile's list and other profiles are untouched. |
| ConfigDialog.OmitAddAppends | components/config_dialog.py:572-576 | A comma-free path is read back appended after the earlier entries. |
| ConfigDialog.FirstIndex | components/config_dialog.py:595 | The first occurrence's index. |
| ConfigDialog.RemoveFirst | components/config_dialog.py:595 | `list.remove`: only the first occurrence goes. |
| ConfigDialog.OmitRemoval | components/config_dialog.py:583-600 | Nothing without a selection, a confirmation or a listed entry. Otherwise the list is written and other profiles are untouched. |
| ConfigDialog.OmitRemoveDrops | components/config_dialog.py:591-596 | The list reads back without the first occurrence; a lone empty entry left reads back as none. |
| ConfigDialog.OmitAdd | components/config_dialog.py:563-581 | Does what `OmitAddition` says on the store. |
| ConfigDialog.OmitRemove | components/config_dialog.py:583-600 | Does what `OmitRemoval` says on the store. |
| ConfigDialog.OmitDialog | components/config_dialog.py:536-561 | Opens exactly with a cloud folder configured and existing, and lists comma-free entries. |

## Left out

- The PyQt dialogs, list and table widgets, fonts, the progress bar and
  message boxes are left out. Every dialog answer is a parameter (`Confirm`,
  `Answers`, `Submission`, selections).
- Integration with the host system:
  - `subprocess.Popen` and `sys.exit` become `Launch` events and the
    `Exited` status.
  - `socket.gethostname`, `os.access` and the existence of executables are
    fields of `State.Env`.
  - File modification times are integers, and `datetime` formatting of the
    times is not modelled.
- `generate_id` randomness: the ids it returns are the parameter `cands`.
  The order of `glob`, `os.scandir` and `os.listdir` results is a parameter
  or left open.
- File formats:
  - No real file I/O; the on-disk INI and JSON formats are not modelled.
  - ConfigParser interpolation, whitespace stripping and the DEFAULT section
    are not modelled.
  - JSON numbers are integers; `float` parsing and `is_integer` in the
    editor are not modelled, and a text of digits with one `.` is modelled
    as refused.
- Logging:
  - The `invalid_profiles.log` writes of `validate_profile` are not
    modelled.
  - The sync loops' `print` messages are not modelled.
- `os.path.normpath`/`abspath` is not modelled, in the omit-list dialog or
  in the editor's backup path (components/config_editor.py:307): paths are
  taken as already normalised, so `.` and `..` segments are not collapsed.
- ConfigDialog.OmitAddAppends: stated only for a path without a comma. A
  comma splits the stored entry, which the model computes but no lemma
  describes.
- ConfigDialog.AddProfile:
  - It leaves out the watched-folder registration of
    components/config_dialog.py:302-303, whose six-argument call raises as
    written.
  - It does not model the table refresh of lines 308-311.
- ConfigDialog.CreateProfileFolder: does not say which of its two outcomes
  happens, because that depends on the share check after the folder is made.
- ConfigEditor.RestoreLooksElsewhere: `restore_backup` (lines 412-442) is
  modelled only through the path it looks at, and the copy back is not
  modelled. As written, line 419 also uses `socket`, which the module never
  imports.
- The handlers not named as core are left out:
  - `handle_item_changed`, the filter box and the add-folders dialog of the
    config editor;
  - import and delete of profiles in the config dialog, and the shortcut
    creation;
  - `savetitan.py`, `savetitan-cmd.py`, `modules/paths.py`,
    `modules/misc.py` and `modules/notifications.py`.
- Sync.LatestFileTime: gives the newest time from the 1900 floor. Times
  before 1900 are not distinguished from the floor, as in the source. The
  floor is 1900-01-01 UTC (`Trees.Floor`), while modules/sync.py:103-104
  compares naive local times, so in the source the floor moves with the
  time zone.
- ParseInt: accepts a sign and decimal digits only. Python's `int` also accepts single
  underscores between digits and surrounding whitespace, so
  `NextSlotNumber` raises `ValueError` on a count such as `1_0` that the
  source reads as 10.
- Concurrency across hosts is not modelled: the checkout is a field that one
  run at a time reads and writes.
- CopySaveToCloud: runs the corrected retry loop of modules/io.py:271-290,
  which takes the backup on the first pass only (see Findings). As written,
  the loop backs up again on every pass, so a second failing pass overwrites
  the backup with the emptied slot; `CopySaveAsWritten` models that loop.
- CopySaveToLocal: the same corrected loop, for modules/io.py:294-322; as
  written it backs up again on every pass (`CopySaveAsWritten`).
- Upload: the push after play runs the corrected `CopySaveToCloud`, not the
  loop as written, and its contract states only the error it returns.
- LaunchGame: its push runs the corrected `CopySaveToCloud`. Its contract
  says the folders change only by a push, but not what they hold after one;
  `CopySaveToCloud` states that.
- Play: pulls and pushes through the corrected `CopySaveToLocal` and
  `CopySaveToCloud`.
- Compare: reaches the copies through the corrected loops.
- Identical: the pull runs the corrected `CopySaveToLocal`.
- LaunchAfter: the pull runs the corrected `CopySaveToLocal`.
- Diverged: "Download" and "Upload to Cloud" run the corrected copy loops.
  "No Sync" launches through the corrected `LaunchWithoutSync`. As written,
  modules/sync.py:138 calls the function at line 191, which raises
  `NameError` (`LaunchWithoutSyncAsWritten`).
- NoSyncChosen: launches through the corrected `LaunchWithoutSync`. As
  written, the call raises `NameError` and nothing launches.
- CheckAndSyncSaves: a profile outside Sync mode launches through the
  corrected `LaunchWithoutSync`. As written, modules/sync.py:40 raises
  `NameError`. The copies use the corrected loops.
- ClaimThenPlay: composes the corrected `Play`.
- Populate: fills JSON rows with the corrected `ChildRow`. As written, line
  273's `replace` also shows deeper keys; for `a/x` = 1 and `a/a/x` = 2 it
  shows two rows named `x` (`RowsAsWritten`).
- JsonRows: the corrected prefix strip, not line 273's `replace`
  (`ChildRowAsWritten`).
- Scan: uses the corrected `Validate`, so a cloud folder without a
  descriptor is counted as invalid. As written, components/config_dialog.py:373-374
  raises `TypeError` and the scan stops (`MissingDescriptorRaises`).
- DescriptorWrite: never fails once a cloud root and a field are given. The
  source's `open(…, 'w')` raises `FileNotFoundError` when `<cloud>/<pid>`
  is missing and `OSError` when the share cannot be reached; the model takes
  the profile's cloud folder to exist whenever a descriptor is written.
- IoSavetitan: inherits `DescriptorWrite`'s missing failure on a write, and
  the gaps of `DescriptorRead`, `DescriptorWrite` and `DescriptorDelete` on a
  descriptor that cannot be read.
- DescriptorRead: the descriptor is taken to be readable. `config.read`
  (modules/io.py:197-198) skips a `profile_info.savetitan` it cannot open, so
  in the source every read of such a file gives `None`; here it gives the
  file's contents. The descriptor store carries no read or write permission
  at all. `ClaimCheckout`, `WriteCheckout`, `Validate` and `Scan` inherit
  this, so an unreadable descriptor's `checkout` is never `None` in the lock
  logic of modules/sync.py.
- DescriptorValue: inherits the readable descriptor of `DescriptorRead`. Where
  the source reads `None`, it gives the stored option.
- DescriptorWrite: a descriptor that may be written but not read is rewritten,
  in the source, with the new field alone (the claim and release writes of
  modules/sync.py:62, 139, 143 and 182 among them). Here every other field is
  kept. A write-protected descriptor also never raises `PermissionError`.
- DescriptorDelete: on a descriptor that cannot be read the source raises
  `ValueError`, since no option is found; here the option is removed.
- WriteCheckout: the checkout write never fails on a missing cloud folder.
- ClaimCheckout: a claim write never fails, where the source raises on a
  missing `<cloud>/<pid>` folder.
- DescriptorWritesEffect: a run of descriptor writes always succeeds with a
  cloud root; a missing cloud folder of the profile is not modelled.
- Lower: folds only the ASCII letters A-Z. Python's `str.lower` and
  ConfigParser's `optionxform` fold all of Unicode, so names such as
  `ÉPOQUE` and `époque` count as different here. The members below inherit
  this.
- OptionKey: option names are folded with `Lower`, ASCII only.
- FindProfiles: the case-insensitive match of modules/io.py:100 is ASCII
  only.
- RenameSave: the clash test of components/save_manager.py:152-153 is
  ASCII only.
- Clash: the name test of components/config_dialog.py:754 is ASCII only.
- ScreenOne: counting same-name profiles at components/config_dialog.py:249
  folds case ASCII only.
- Tree: a folder is the map from its file paths to file contents, so an
  empty directory cannot be represented. The source counts empty folders
  both in the `os.listdir` test of modules/sync.py:67 and in the top-level
  counts of lines 85-86; a slot with an extra empty folder is pulled there
  but not here (`PullIdentical`).
- RmTree: raises only `FileNotFoundError`. Permission and lock faults of
  `shutil.rmtree` are not modelled.
- MakeDirs: folders are independent entries of `FileSystem.Fs`, keyed by the
  path string the program builds, and nesting between them is not
  represented. So making `<folder>/save1` does not also make `<folder>`, and
  removing `<cloud>/<pid>` would not remove `<cloud>/<pid>/save1`.
- MakeDirs: never raises. `PermissionError` and `OSError` from
  `os.makedirs` are not modelled.
- SaveManagerDialog.constructor: requires a cloud root. Without one,
  components/save_manager.py:27 raises `TypeError` in `os.path.join(None, …)`
  before the dialog opens; that outcome is not modelled.

## Findings

| source | as written | input that shows it | evidently intended | confidence | as-written member | corrected member |
|---|---|---|---|---|---|---|
| modules/sync.py:191 | `launch_game_without_sync` reads `profile_id`, which is defined nowhere in the module | any profile not in "Sync" mode, or "No Sync" in the sync dialog | read the executable of the profile it is given | not executed | Sync.LaunchWithoutSyncAsWritten | Sync.LaunchWithoutSync |
| components/save_manager.py:94-102 | `copy_save_to_cloud(profile_id, True)` and `copy_save_to_local(profile_id, True)` pass two arguments to one-parameter functions | loading any slot other than the active one | call the copies with the profile id only | not executed | SaveManager.SaveManagerDialog.LoadSaveAsWritten | SaveManager.SaveManagerDialog.LoadSave |
| modules/io.py:271-290 | the `while True` loop backs the slot up again on every pass, after a failed pass has emptied it | two passes whose copy fails before the first file, answered Retry then Abort | keep the first backup once taken | not executed | Io.RetryOverwritesBackup | Io.CopyKeepsOriginal |
| components/config_dialog.py:249 | a new profile is refused only when more than one profile has the name (`> 1`) | adding `game` while profile `Game` exists | refuse when any profile has the name | not executed | ConfigDialog.SecondNameAccepted | ConfigDialog.AcceptedNameIsNew |
| components/config_dialog.py:372-382 | `field in profile_data` on `None` raises `TypeError` when the descriptor or its section is missing; the `FileNotFoundError` handler never runs | a cloud subfolder `abc123` without `profile_info.savetitan` | code 2 for a missing descriptor | not executed | ConfigDialog.MissingDescriptorRaises | ConfigDialog.Validate |
| modules/io.py:243-255 | `common_funny` names are not checked, so a file on one side and a directory on the other pass | file `a` against directory `a` holding `x` | report a mismatch whenever the trees hold different data | not executed | Trees.FileVersusDirectoryUnnoticed | Trees.FixedMismatchExact |
| components/config_editor.py:273 | `key.replace(section, '')`, with `section` already ending in `/` (line 268), removes every occurrence, not only the prefix | keys `a/x` = 1 and `a/a/x` = 2, section `a` | strip the leading `section/` only | not executed | ConfigEditor.AsWrittenRowMisnamesEntry | ConfigEditor.RowNamesItsEntry |
| components/config_dialog.py:302 | `io_profile` is called with six arguments where it takes five | adding any profile with a reachable cloud folder | register the watched folders, then write the profile file | not executed | ConfigDialog.AddProfileAsWritten | ConfigDialog.AddProfile |
| components/config_dialog.py:258 | the id loop asks for a `profile_id` field, which no profile file holds, so it never rejects an id in use | `generate_id` returning `abc123` while profile `abc123` exists | draw again while the id's profile file exists | not executed | ConfigDialog.UsedIdKept | ConfigDialog.AddProfile |

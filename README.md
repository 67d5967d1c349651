# Ludusavi GUI state machine, in Dafny

This project models the message-driven core of Ludusavi's graphical front end
(`src/gui.rs`). Ludusavi backs up and restores save-game data. It uses a
manifest of known games and a list of configured search roots. The GUI keeps:

- an operation guard (`operation`): which of backup, backup preview, restore
  or restore preview is running, if any;
- a modal dialog (`modalTheme`): an error, or a confirmation before a real
  backup or restore;
- two independent result logs, one per screen, each with a `totalGames`
  counter;
- the editable list of roots (`config.roots`), kept in step with the root
  editor's widget rows;
- the process's working directory, as an abstract field.

Each message is one sequential transition of class `Gui.App`, with one method
per message (`OnIdle`, `OnBackupStart`, …) and a dispatcher `Update`. The
concurrency of the original lives in the commands that `update` returns. Here
an accepted start returns the batch of tasks it dispatches as a list of tags:
`ScanTask(kind, game)` for each manifest key, then `IdleTask`. The idle task
is in the same batch as the scans. The model claims nothing about the order in
which the runtime delivers their messages.

The object invariant `App.Valid()` holds after construction and is preserved
by every message handler and by drawing:

- each log's counter equals its number of entries;
- every logged game found at least one file or registry key;
- the root editor has exactly one row per configured root.

Each per-message method (`OnIdle`, `OnBackupStart`, …) states the whole new
state as an update of the old one (`State() == old(State()).(…)`), so
"nothing else changes" is part of its contract. `PressModalButton` does the
same for every button of every dialog. `Update` instead states properties
that hold across all messages. Facts visible from these contracts:

- A start received while an operation runs changes nothing and dispatches
  nothing.
- `OnIdle` sets the guard, the dialog and the working directory to fixed
  values, so a second `Idle` changes nothing.
- Only the backup kinds move the working directory (to the application
  directory). Only `Idle` moves it back.
- A step with an empty result is dropped. A non-empty one is appended at the
  end of its own screen's log and counted. There is no check for a game that
  is already in the log.

Collaborators are inputs. `Environment` holds the results of
`path::absolute`, `path::normalize`, `path::is_dir` and
`prepare_backup_target` as functions. `game_file_restoration_target` is a
function parameter. The start-up loads of the configuration and the manifest
are given as `Result` values.

The model follows `src/gui.rs` in these points, which a reader might expect
to be otherwise:

- Logs are not de-duplicated by game name. The counter counts every
  non-empty step, not distinct names.
- The `Idle` task is dispatched in the same batch as the scans, not after
  they complete.
- A failed restore-source check still clears the restore log, because the log
  is cleared before the check.
- A failed backup-target check shows whatever error `prepare_backup_target`
  returned.

Strings are ordered by Rust's `Ord for String`, which compares UTF-8 bytes
lexicographically. That order is the same as comparing code points
lexicographically, and `StringOrder.Le` defines it on Dafny's `char`.

## Model

| member | source | states |
|---|---|---|
| GameListing.SortedListingSpec | src/gui.rs:159-168 | Listing a set of files or keys in sorted order yields every element exactly once, strictly ascending. |
| GameListing.RestoredTargets | src/gui.rs:159-167 | Mapping the sorted files through the restoration target drops the failures, so the result is never longer than the input. |
| GameListing.RestoredTargetsAppend | src/gui.rs:159-163 | The mapping keeps file order: the lines of two runs of files joined are the lines of the first run followed by those of the second. |
| GameListing.RestoredTargetsKeepsSuccesses | src/gui.rs:160-163 | Every file whose restoration target succeeds has that target shown. |
| GameListing.RestoredTargetsKeepAll | src/gui.rs:160-163 | When every file has a restoration target, no file is dropped. |
| GameListing.RestoredTargetsComeFromFiles | src/gui.rs:160-163 | Every line a restore log shows for its files is the restoration target of one of the entry's files. |
| GameListing.ExpectedLinesShape | src/gui.rs:156-170 | An entry's lines are its sorted files and then its sorted registry keys. When not restoring the count is files plus keys; when restoring it is at most that. The keys always come last, in sorted order. |
| GameListing.EntryLines | src/gui.rs:156-170 | The two loops of the entry view build exactly the expected lines: files, mapped and filtered when restoring, then keys. |
| GameListing.EntryBodies | src/gui.rs:207-215 | The fold over a log's entries yields, for each entry in log order, exactly its expected lines. |
| GameListing.InsertByName | src/gui.rs:206 | Inserting one entry into the partly sorted log adds exactly that entry: the multiset grows by it. |
| GameListing.InsertKeepsSorted | src/gui.rs:206 | Inserting into a log sorted by name keeps it sorted by name. |
| GameListing.SortedByName | src/gui.rs:206 | Sorting the log by name gives a permutation of the entries, ordered by name. |
| GameListing.SortedByNameIsStable | src/gui.rs:206 | The sort is stable: entries with the same name keep their relative order. |
| GameListing.SortedByNameKeepsLog | src/gui.rs:205-206 | Sorting keeps the number of entries, so the counter still matches, and keeps every entry non-empty. |
| GameListing.GameList.View | src/gui.rs:205-217 | Drawing a log sorts its entries in place by name. It then yields the expected lines of each entry, in the new order. |
| Gui.DispatchScans | src/gui.rs:568-590 | An accepted start dispatches exactly one scan task per manifest key, in manifest order, followed by one idle task in the same batch. |
| Gui.ModalButtons | src/gui.rs:84-124 | An error dialog offers only OK, which sends Idle. A backup confirmation offers Continue (BackupStart) and Cancel (Idle). A restore confirmation offers Continue (RestoreStart) and Cancel (Idle). Every dialog has a button that sends Idle. |
| Gui.App.View | src/gui.rs:763-777 | The dialog is drawn whenever one is set, with its buttons. Otherwise the current screen is drawn, and input is allowed exactly when no operation runs. |
| Gui.BackupScreenComponent.constructor | src/gui.rs:296-308 | A new backup screen has an empty log, a zero counter and exactly one default editor row per configured root. |
| Gui.RestoreScreenComponent.constructor | src/gui.rs:400-408 | A new restore screen has an empty log and a zero counter. |
| Gui.App.constructor | src/gui.rs:496-526 | On a failed load, start-up falls back to the default configuration or an empty manifest and opens an error dialog. When both loads fail, the manifest's error is shown. The working directory is recorded, no operation runs, and the invariant holds. |
| Gui.App.OnIdle | src/gui.rs:534-539 | Clears the guard and the dialog and restores the original working directory. Nothing else changes. |
| Gui.App.OnConfirmBackupStart | src/gui.rs:540-543 | Only opens the backup confirmation dialog. |
| Gui.App.OnConfirmRestoreStart | src/gui.rs:544-547 | Only opens the restore confirmation dialog. |
| Gui.App.OnBackupStart | src/gui.rs:548-591 | While an operation runs: no change and no tasks. Otherwise the backup log and counter are cleared and the dialog closed. If the target check fails, an error dialog carries its error, the guard stays clear and nothing is dispatched. If it passes, the configuration is saved, the guard becomes Backup, the working directory becomes the application directory, and the scan batch is dispatched. |
| Gui.App.OnPreviewBackupStart | src/gui.rs:592-622 | While an operation runs: no change and no tasks. Otherwise the configuration is saved, the guard becomes PreviewBackup, the backup log is cleared, the working directory becomes the application directory and the scan batch is dispatched. The dialog is untouched. |
| Gui.App.OnRestoreStart | src/gui.rs:623-662 | While an operation runs: no change and no tasks. Otherwise the restore log is cleared and the dialog closed. If the normalized source is not a directory, the dialog shows RestorationSourceInvalid with that path, the guard stays clear and nothing is dispatched. Otherwise the configuration is saved, the guard becomes Restore and the batch is dispatched. The working directory never changes. |
| Gui.App.OnPreviewRestoreStart | src/gui.rs:663-697 | Same as a restore, with guard PreviewRestore, except that the dialog is only touched when the source check fails. |
| Gui.App.OnBackupStep | src/gui.rs:698-708 | A result with no files and no keys changes nothing. Otherwise the backup counter grows by exactly one and one entry (name, files, keys) is appended at the end of the backup log. The restore log is untouched. |
| Gui.App.OnRestoreStep | src/gui.rs:709-719 | The same for the restore log; the backup log is untouched. |
| Gui.App.OnEditedBackupTarget | src/gui.rs:720-723 | Only the backup target path changes. |
| Gui.App.OnEditedRestoreSource | src/gui.rs:724-727 | Only the restore source path changes. |
| Gui.App.OnEditedRootPath | src/gui.rs:728-731 | Only the path of root `index` changes. Its store and all other roots keep their values. |
| Gui.App.OnEditedRootStore | src/gui.rs:732-735 | Only the store of root `index` changes. Its path and all other roots keep their values. |
| Gui.App.OnAddRoot | src/gui.rs:736-746 | Appends a root with an empty path and the other-store kind, and one default editor row. The row count still matches the root count. |
| Gui.App.OnRemoveRoot | src/gui.rs:747-751 | For an index in range, removes index `index` from both the roots and the editor rows. The rest keep their relative order. |
| Gui.App.OnSwitchScreenToBackup | src/gui.rs:752-755 | Only the current screen changes, to the backup screen. |
| Gui.App.OnSwitchScreenToRestore | src/gui.rs:756-759 | Only the current screen changes, to the restore screen. |
| Gui.App.Update | src/gui.rs:532-761 | Properties that hold across all messages. A start while an operation runs changes nothing. Tasks come only from an accepted start, which sets the guard to its kind. The guard changes only on an accepted start or on Idle. Only Idle and the two backup starts move the working directory. Each log changes only through its own screen's starts and steps. |
| Gui.App.Render | src/gui.rs:763-777 | Drawing shows the dialog when one is set and then changes nothing. Otherwise it sorts the current screen's log in place and yields each entry's lines, with restore targets on the restore screen. The invariant is kept. |
| Gui.App.PressModalButton | src/gui.rs:92-104 | A dialog button that sends Idle closes the dialog, clears the guard and restores the working directory. Continue on a confirmation while an operation runs changes nothing, so the dialog stays open. When no operation runs, Continue on a backup confirmation has exactly the effect of a backup start: on a failed target check an error dialog with its error and a cleared backup log; otherwise the saved configuration, the Backup guard, the application directory, a cleared log and the scan batch. Continue on a restore confirmation likewise matches a restore start, keyed on whether the normalized source is a directory. |

## Left out

- Widget construction and layout, the `style` module, `title` and `run_gui`: presentation only. The screens' start buttons always send their message. `allowInput` only selects the disabled look, so the guard is what refuses a start.
- Asynchronous execution of `Command::perform` and `Command::batch`: tasks are returned as tags. The roots snapshot, the backup path, the restore source and the Steam id that each task captures are not part of the tag.
- The bodies of `scan_game_for_backup`, `back_up_game`, `scan_game_for_restoration` and `restore_game`: their results reach the model only as the `ScanInfo` of a step message.
- `prepare_backup_target`, `game_file_restoration_target` and the path helpers `absolute`, `normalize`, `is_dir` and `exists`: their bodies are not visible, so they are given as functions.
- `Config::load`, `Manifest::load` and `Config::default`: given as results and as a default value. That `Manifest::load` may change the configuration it borrows mutably is not modelled.
- `Config::save`: modelled only as the `persisted` field, which records the configuration last saved.
- `Translator` and all text: dialogs keep only their button captions, and the error text is not modelled.
- `std::env::set_current_dir` and `current_dir`: process I/O, kept as the abstract `workingDir` field. A failing `unwrap` there is not modelled.
- The manifest's game metadata: the manifest is the sequence of its keys in iteration order.
- The crate's error enum: every variant other than `RestorationSourceInvalid` is one opaque `Reported` value.
- `RootEditor::view`: the per-row messages it emits are not modelled. Only the row count and order matter here.
- Gui.App.OnBackupStep: the counter is an unbounded `nat`, so `usize` overflow of `total_games += 1` is not modelled.
- Gui.App.OnRestoreStep: the counter is an unbounded `nat`, so `usize` overflow of `total_games += 1` is not modelled.
- Gui.App.OnRemoveRoot: an out-of-range index makes `Vec::remove` panic. The method requires the index to be in range instead of modelling the panic. The same holds for `OnEditedRootPath` and `OnEditedRootStore`, whose indexing panics.

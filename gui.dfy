/** The GUI's state machine: the messages the window sends, the state they
    change, the tasks an accepted start dispatches, the modal dialog's
    buttons and the choice between modal and screen when drawing. */
module Gui {
  import opened Wrappers
  import opened Prelude
  import opened GameListing

  /** The kind of bulk operation in flight. */
  datatype OngoingOperation = Backup | PreviewBackup | Restore | PreviewRestore

  datatype Screen = Backup | Restore

  datatype ModalTheme = Error(variant: Prelude.Error) | ConfirmBackup | ConfirmRestore

  datatype Message =
    | Idle
    | ConfirmBackupStart
    | BackupStart
    | ConfirmRestoreStart
    | RestoreStart
    | PreviewBackupStart
    | PreviewRestoreStart
    | BackupStep(game: string, info: ScanInfo)
    | RestoreStep(game: string, info: ScanInfo)
    | EditedBackupTarget(text: string)
    | EditedRestoreSource(text: string)
    | EditedRootPath(index: nat, path: string)
    | EditedRootStore(index: nat, store: Store)
    | AddRoot
    | RemoveRoot(index: nat)
    | SwitchScreenToRestore
    | SwitchScreenToBackup
  {
    /** The four messages that try to start an operation. */
    predicate IsStart() {
      BackupStart? || PreviewBackupStart? || RestoreStart? || PreviewRestoreStart?
    }

    /** The operation a start message asks for. */
    function StartKind(): OngoingOperation
      requires IsStart()
    {
      match this
      case BackupStart => OngoingOperation.Backup
      case PreviewBackupStart => PreviewBackup
      case RestoreStart => OngoingOperation.Restore
      case PreviewRestoreStart => PreviewRestore
    }

    /** The message addresses a root the configuration has. */
    predicate IndexInRange(rootCount: nat) {
      (EditedRootPath? || EditedRootStore? || RemoveRoot?) ==> index < rootCount
    }
  }

  /** A task handed to the runtime by a start. Each scan task scans one game
      and comes back as a step message; the idle task comes back as `Idle`.
      The runtime runs the tasks of one batch concurrently, so the order in
      which their messages arrive is not fixed. */
  datatype Task = ScanTask(kind: OngoingOperation, game: string) | IdleTask

  /** The batch an accepted start dispatches: one scan task per manifest
      key, in manifest order, then one idle task. */
  predicate IsScanBatch(commands: seq<Task>, kind: OngoingOperation, manifest: seq<string>) {
    && |commands| == |manifest| + 1
    && (forall i :: 0 <= i < |manifest| ==> commands[i] == ScanTask(kind, manifest[i]))
    && commands[|manifest|] == IdleTask
  }

  /** The loop every start runs over the manifest keys to build its batch. */
  method DispatchScans(kind: OngoingOperation, manifest: seq<string>) returns (commands: seq<Task>)
    ensures IsScanBatch(commands, kind, manifest)
  {
    commands := [];
    for i := 0 to |manifest|
      invariant |commands| == i
      invariant forall j :: 0 <= j < i ==> commands[j] == ScanTask(kind, manifest[j])
    {
      commands := commands + [ScanTask(kind, manifest[i])];
    }
    commands := commands + [IdleTask];
  }

  /** The calls the GUI makes to the rest of the crate and to the file
      system, given as their results. */
  datatype Environment = Environment(
    absolute: string -> string,
    normalize: string -> string,
    isDir: string -> bool,
    prepareBackupTarget: string -> Result<(), Prelude.Error>)

  datatype ButtonLabel = Okay | Continue | Cancel

  datatype ModalButton = ModalButton(caption: ButtonLabel, onPress: Message)

  /** The buttons of the modal dialog and the message each one sends. */
  function ModalButtons(theme: ModalTheme): (buttons: seq<ModalButton>)
    ensures theme.Error? ==> buttons == [ModalButton(Okay, Idle)]
    ensures !theme.Error? ==> |buttons| == 2 && buttons[0].caption == Continue
                              && buttons[1] == ModalButton(Cancel, Idle)
    ensures theme.ConfirmBackup? ==> buttons[0].onPress == BackupStart
    ensures theme.ConfirmRestore? ==> buttons[0].onPress == RestoreStart
    ensures exists b :: b in buttons && b.onPress == Idle
  {
    var positive := ModalButton(
      if theme.Error? then Okay else Continue,
      match theme
      case Error(_) => Idle
      case ConfirmBackup => BackupStart
      case ConfirmRestore => RestoreStart);
    if theme.Error? then [positive] else [positive, ModalButton(Cancel, Idle)]
  }

  /** What the window draws: the modal dialog, or a screen whose start
      buttons are drawn enabled or disabled. */
  datatype AppView =
    | ModalView(theme: ModalTheme, buttons: seq<ModalButton>)
    | ScreenView(screen: Screen, allowInput: bool)

  /** The widget state of one row of the root editor: its remove button and
      its path input. Only the count and order of rows matter here. */
  datatype EditorRow = EditorRow(removePressed: bool, pathFocused: bool)

  const DefaultRow := EditorRow(false, false)

  class BackupScreenComponent {
    var totalGames: nat
    const log: GameList
    var rows: seq<EditorRow>

    /** A fresh backup screen whose root editor has one row per configured
        root. */
    constructor (config: Config)
      ensures totalGames == 0 && fresh(log) && log.entries == []
      ensures |rows| == |config.roots|
      ensures forall i :: 0 <= i < |rows| ==> rows[i] == DefaultRow
    {
      var padded: seq<EditorRow> := [];
      while |padded| < |config.roots|
        invariant |padded| <= |config.roots|
        invariant forall i :: 0 <= i < |padded| ==> padded[i] == DefaultRow
      {
        padded := padded + [DefaultRow];
      }
      totalGames := 0;
      log := new GameList();
      rows := padded;
    }
  }

  class RestoreScreenComponent {
    var totalGames: nat
    const log: GameList

    constructor ()
      ensures totalGames == 0 && fresh(log) && log.entries == []
    {
      totalGames := 0;
      log := new GameList();
    }
  }

  /** Everything an update can change, as one value. */
  datatype AppState = AppState(
    config: Config,
    persisted: Option<Config>,
    operation: Option<OngoingOperation>,
    screen: Screen,
    modalTheme: Option<ModalTheme>,
    workingDir: string,
    backupTotal: nat,
    backupEntries: seq<GameListEntry>,
    rows: seq<EditorRow>,
    restoreTotal: nat,
    restoreEntries: seq<GameListEntry>)

  class App {
    const manifest: seq<string>
    const originalWorkingDir: string
    const appDir: string
    const backupScreen: BackupScreenComponent
    const restoreScreen: RestoreScreenComponent
    var config: Config
    /** The configuration last written by `Config::save`, if any. */
    var persisted: Option<Config>
    var operation: Option<OngoingOperation>
    var screen: Screen
    var modalTheme: Option<ModalTheme>
    /** The process's current working directory. */
    var workingDir: string

    /** Each log's counter equals its number of entries, every logged game
        found something, and the root editor has one row per root. */
    ghost predicate Valid()
      reads this, backupScreen, backupScreen.log, restoreScreen, restoreScreen.log
    {
      && backupScreen.log != restoreScreen.log
      && backupScreen.totalGames == |backupScreen.log.entries|
      && AllHaveFindings(backupScreen.log.entries)
      && restoreScreen.totalGames == |restoreScreen.log.entries|
      && AllHaveFindings(restoreScreen.log.entries)
      && |backupScreen.rows| == |config.roots|
    }

    ghost function State(): AppState
      reads this, backupScreen, backupScreen.log, restoreScreen, restoreScreen.log
    {
      AppState(config, persisted, operation, screen, modalTheme, workingDir,
               backupScreen.totalGames, backupScreen.log.entries, backupScreen.rows,
               restoreScreen.totalGames, restoreScreen.log.entries)
    }

    /** Start-up: a failed configuration load falls back to `defaultConfig`,
        a failed manifest load to an empty manifest, and each failure opens
        an error dialog; when both fail, the manifest's error is shown. */
    constructor (configLoad: Result<Config, Prelude.Error>, defaultConfig: Config,
                 manifestLoad: Result<seq<string>, Prelude.Error>, currentDir: string, appDir: string)
      ensures Valid()
      ensures fresh(backupScreen) && fresh(backupScreen.log) && fresh(restoreScreen) && fresh(restoreScreen.log)
      ensures config == (if configLoad.Success? then configLoad.value else defaultConfig)
      ensures manifest == (if manifestLoad.Success? then manifestLoad.value else [])
      ensures modalTheme == (if manifestLoad.Failure? then Some(Error(manifestLoad.error))
                             else if configLoad.Failure? then Some(Error(configLoad.error))
                             else None)
      ensures operation == None && screen == Screen.Backup && persisted == None
      ensures originalWorkingDir == currentDir && workingDir == currentDir && this.appDir == appDir
      ensures backupScreen.totalGames == 0 && backupScreen.log.entries == []
      ensures restoreScreen.totalGames == 0 && restoreScreen.log.entries == []
      ensures forall i :: 0 <= i < |backupScreen.rows| ==> backupScreen.rows[i] == DefaultRow
    {
      var modal: Option<ModalTheme> := None;
      var loaded: Config;
      match configLoad {
        case Success(c) => loaded := c;
        case Failure(e) =>
          modal := Some(Error(e));
          loaded := defaultConfig;
      }
      var games: seq<string>;
      match manifestLoad {
        case Success(m) => games := m;
        case Failure(e) =>
          modal := Some(Error(e));
          games := [];
      }
      backupScreen := new BackupScreenComponent(loaded);
      restoreScreen := new RestoreScreenComponent();
      config := loaded;
      manifest := games;
      originalWorkingDir := currentDir;
      workingDir := currentDir;
      this.appDir := appDir;
      modalTheme := modal;
      operation := None;
      screen := Screen.Backup;
      persisted := None;
    }

    /** The modal dialog whenever one is set; otherwise the current screen,
        whose start buttons are enabled exactly when no operation runs. */
    function View(): (v: AppView)
      reads this
      ensures v.ModalView? <==> modalTheme.Some?
      ensures v.ModalView? ==> v.theme == modalTheme.value && v.buttons == ModalButtons(v.theme)
      ensures v.ScreenView? ==> v.screen == screen && (v.allowInput <==> operation.None?)
    {
      match modalTheme
      case Some(m) => ModalView(m, ModalButtons(m))
      case None => ScreenView(screen, operation.None?)
    }

    /** The end of an operation, or the dismissal of a dialog. */
    method OnIdle()
      requires Valid()
      modifies this
      ensures Valid()
      ensures State() == old(State()).(operation := None, modalTheme := None, workingDir := originalWorkingDir)
    {
      operation := None;
      modalTheme := None;
      workingDir := originalWorkingDir;
    }

    method OnConfirmBackupStart()
      requires Valid()
      modifies this
      ensures Valid()
      ensures State() == old(State()).(modalTheme := Some(ConfirmBackup))
    {
      modalTheme := Some(ConfirmBackup);
    }

    method OnConfirmRestoreStart()
      requires Valid()
      modifies this
      ensures Valid()
      ensures State() == old(State()).(modalTheme := Some(ConfirmRestore))
    {
      modalTheme := Some(ConfirmRestore);
    }

    /** A real backup: refused while an operation runs; otherwise clears the
        backup log and closes the dialog, then either reports why the backup
        target cannot be used or saves the configuration, marks the backup
        as running, moves to the application directory and dispatches one
        scan per game. */
    method OnBackupStart(env: Environment) returns (commands: seq<Task>)
      requires Valid()
      modifies this, backupScreen, backupScreen.log
      ensures Valid()
      ensures old(operation).Some? ==> State() == old(State()) && commands == []
      ensures var prepared := env.prepareBackupTarget(env.absolute(old(config).backupPath));
        old(operation).None? && prepared.Failure? ==>
          && State() == old(State()).(modalTheme := Some(Error(prepared.error)),
                                      backupTotal := 0, backupEntries := [])
          && commands == []
      ensures var prepared := env.prepareBackupTarget(env.absolute(old(config).backupPath));
        old(operation).None? && prepared.Success? ==>
          && State() == old(State()).(persisted := Some(old(config)), operation := Some(OngoingOperation.Backup),
                                      modalTheme := None, workingDir := appDir,
                                      backupTotal := 0, backupEntries := [])
          && IsScanBatch(commands, OngoingOperation.Backup, manifest)
    {
      if operation.Some? {
        return [];
      }
      backupScreen.totalGames := 0;
      backupScreen.log.entries := [];
      modalTheme := None;

      var backupPath := env.absolute(config.backupPath);
      var prepared := env.prepareBackupTarget(backupPath);
      if prepared.Failure? {
        modalTheme := Some(Error(prepared.error));
        return [];
      }

      persisted := Some(config);
      operation := Some(OngoingOperation.Backup);
      workingDir := appDir;
      commands := DispatchScans(OngoingOperation.Backup, manifest);
    }

    /** A backup preview: no target check and no dialog change. */
    method OnPreviewBackupStart() returns (commands: seq<Task>)
      requires Valid()
      modifies this, backupScreen, backupScreen.log
      ensures Valid()
      ensures old(operation).Some? ==> State() == old(State()) && commands == []
      ensures old(operation).None? ==>
        && State() == old(State()).(persisted := Some(old(config)), operation := Some(PreviewBackup),
                                    workingDir := appDir, backupTotal := 0, backupEntries := [])
        && IsScanBatch(commands, PreviewBackup, manifest)
    {
      if operation.Some? {
        return [];
      }
      persisted := Some(config);
      operation := Some(PreviewBackup);
      backupScreen.totalGames := 0;
      backupScreen.log.entries := [];

      workingDir := appDir;
      commands := DispatchScans(PreviewBackup, manifest);
    }

    /** A real restore: refused while an operation runs; otherwise clears the
        restore log and closes the dialog, then either reports that the
        normalized restore source is not a directory or saves the
        configuration, marks the restore as running and dispatches one scan
        per game. The working directory is left alone. */
    method OnRestoreStart(env: Environment) returns (commands: seq<Task>)
      requires Valid()
      modifies this, restoreScreen, restoreScreen.log
      ensures Valid()
      ensures old(operation).Some? ==> State() == old(State()) && commands == []
      ensures var source := env.normalize(old(config).restorePath);
        old(operation).None? && !env.isDir(source) ==>
          && State() == old(State()).(modalTheme := Some(Error(RestorationSourceInvalid(source))),
                                      restoreTotal := 0, restoreEntries := [])
          && commands == []
      ensures var source := env.normalize(old(config).restorePath);
        old(operation).None? && env.isDir(source) ==>
          && State() == old(State()).(persisted := Some(old(config)), operation := Some(OngoingOperation.Restore),
                                      modalTheme := None, restoreTotal := 0, restoreEntries := [])
          && IsScanBatch(commands, OngoingOperation.Restore, manifest)
    {
      if operation.Some? {
        return [];
      }
      restoreScreen.totalGames := 0;
      restoreScreen.log.entries := [];
      modalTheme := None;

      var restorePath := env.normalize(config.restorePath);
      if !env.isDir(restorePath) {
        modalTheme := Some(Error(RestorationSourceInvalid(restorePath)));
        return [];
      }

      persisted := Some(config);
      operation := Some(OngoingOperation.Restore);
      commands := DispatchScans(OngoingOperation.Restore, manifest);
    }

    /** A restore preview: like a restore, except that the dialog is left as
        it is unless the source check fails. */
    method OnPreviewRestoreStart(env: Environment) returns (commands: seq<Task>)
      requires Valid()
      modifies this, restoreScreen, restoreScreen.log
      ensures Valid()
      ensures old(operation).Some? ==> State() == old(State()) && commands == []
      ensures var source := env.normalize(old(config).restorePath);
        old(operation).None? && !env.isDir(source) ==>
          && State() == old(State()).(modalTheme := Some(Error(RestorationSourceInvalid(source))),
                                      restoreTotal := 0, restoreEntries := [])
          && commands == []
      ensures var source := env.normalize(old(config).restorePath);
        old(operation).None? && env.isDir(source) ==>
          && State() == old(State()).(persisted := Some(old(config)), operation := Some(PreviewRestore),
                                      restoreTotal := 0, restoreEntries := [])
          && IsScanBatch(commands, PreviewRestore, manifest)
    {
      if operation.Some? {
        return [];
      }
      restoreScreen.totalGames := 0;
      restoreScreen.log.entries := [];

      var restorePath := env.normalize(config.restorePath);
      if !env.isDir(restorePath) {
        modalTheme := Some(Error(RestorationSourceInvalid(restorePath)));
        return [];
      }

      persisted := Some(config);
      operation := Some(PreviewRestore);
      commands := DispatchScans(PreviewRestore, manifest);
    }

    /** One game's backup scan came back: logged, and counted, only when it
        found something; no check for a game already in the log. */
    method OnBackupStep(game: string, info: ScanInfo)
      requires Valid()
      modifies backupScreen, backupScreen.log
      ensures Valid()
      ensures !info.HasFindings() ==> State() == old(State())
      ensures info.HasFindings() ==>
        State() == old(State()).(backupTotal := old(backupScreen.totalGames) + 1,
                                 backupEntries := old(backupScreen.log.entries)
                                   + [GameListEntry(game, info.foundFiles, info.foundRegistryKeys)])
    {
      if info.HasFindings() {
        backupScreen.totalGames := backupScreen.totalGames + 1;
        backupScreen.log.entries := backupScreen.log.entries
          + [GameListEntry(game, info.foundFiles, info.foundRegistryKeys)];
      }
    }

    /** One game's restore scan came back; the restore screen's counterpart
        of OnBackupStep. */
    method OnRestoreStep(game: string, info: ScanInfo)
      requires Valid()
      modifies restoreScreen, restoreScreen.log
      ensures Valid()
      ensures !info.HasFindings() ==> State() == old(State())
      ensures info.HasFindings() ==>
        State() == old(State()).(restoreTotal := old(restoreScreen.totalGames) + 1,
                                 restoreEntries := old(restoreScreen.log.entries)
                                   + [GameListEntry(game, info.foundFiles, info.foundRegistryKeys)])
    {
      if info.HasFindings() {
        restoreScreen.totalGames := restoreScreen.totalGames + 1;
        restoreScreen.log.entries := restoreScreen.log.entries
          + [GameListEntry(game, info.foundFiles, info.foundRegistryKeys)];
      }
    }

    method OnEditedBackupTarget(text: string)
      requires Valid()
      modifies this
      ensures Valid()
      ensures State() == old(State()).(config := old(config).(backupPath := text))
    {
      config := config.(backupPath := text);
    }

    method OnEditedRestoreSource(text: string)
      requires Valid()
      modifies this
      ensures Valid()
      ensures State() == old(State()).(config := old(config).(restorePath := text))
    {
      config := config.(restorePath := text);
    }

    /** Replaces the path of root `index`; its store and every other root
        stay as they were. */
    method OnEditedRootPath(index: nat, path: string)
      requires Valid()
      requires index < |config.roots|
      modifies this
      ensures Valid()
      ensures State() == old(State()).(config := old(config).(
        roots := old(config.roots)[index := RootsConfig(path, old(config.roots[index].store))]))
    {
      config := config.(roots := config.roots[index := config.roots[index].(path := path)]);
    }

    /** Replaces the store of root `index`; its path and every other root
        stay as they were. */
    method OnEditedRootStore(index: nat, store: Store)
      requires Valid()
      requires index < |config.roots|
      modifies this
      ensures Valid()
      ensures State() == old(State()).(config := old(config).(
        roots := old(config.roots)[index := RootsConfig(old(config.roots[index].path), store)]))
    {
      config := config.(roots := config.roots[index := config.roots[index].(store := store)]);
    }

    /** Appends an empty root of the other-store kind, and an editor row for
        it. */
    method OnAddRoot()
      requires Valid()
      modifies this, backupScreen
      ensures Valid()
      ensures State() == old(State()).(
        rows := old(backupScreen.rows) + [DefaultRow],
        config := old(config).(roots := old(config.roots) + [RootsConfig("", Other)]))
    {
      backupScreen.rows := backupScreen.rows + [DefaultRow];
      config := config.(roots := config.roots + [RootsConfig("", Other)]);
    }

    /** Removes root `index` and its editor row; the others keep their
        order and move down by one from `index` on. */
    method OnRemoveRoot(index: nat)
      requires Valid()
      requires index < |config.roots|
      modifies this, backupScreen
      ensures Valid()
      ensures State() == old(State()).(
        rows := old(backupScreen.rows[..index] + backupScreen.rows[index + 1..]),
        config := old(config).(roots := old(config.roots[..index] + config.roots[index + 1..])))
    {
      backupScreen.rows := backupScreen.rows[..index] + backupScreen.rows[index + 1..];
      config := config.(roots := config.roots[..index] + config.roots[index + 1..]);
    }

    method OnSwitchScreenToBackup()
      requires Valid()
      modifies this
      ensures Valid()
      ensures State() == old(State()).(screen := Screen.Backup)
    {
      screen := Screen.Backup;
    }

    method OnSwitchScreenToRestore()
      requires Valid()
      modifies this
      ensures Valid()
      ensures State() == old(State()).(screen := Screen.Restore)
    {
      screen := Screen.Restore;
    }

    /** One message, handled by the method for its kind. A start is refused
        without any change while an operation runs; tasks are dispatched
        only by an accepted start; the guard changes only through an
        accepted start or `Idle`; only the backup kinds and `Idle` move the
        working directory; each log changes only through its own screen's
        starts and steps. */
    method Update(msg: Message, env: Environment) returns (commands: seq<Task>)
      requires Valid()
      requires msg.IndexInRange(|config.roots|)
      modifies this, backupScreen, backupScreen.log, restoreScreen, restoreScreen.log
      ensures Valid()
      ensures msg.IsStart() && old(operation).Some? ==> State() == old(State()) && commands == []
      ensures commands != [] ==>
        && msg.IsStart() && old(operation).None?
        && operation == Some(msg.StartKind())
        && IsScanBatch(commands, msg.StartKind(), manifest)
      ensures operation != old(operation) ==> msg.Idle? || (msg.IsStart() && old(operation).None?)
      ensures workingDir != old(workingDir) ==> msg.Idle? || msg.BackupStart? || msg.PreviewBackupStart?
      ensures backupScreen.log.entries != old(backupScreen.log.entries) ==>
        msg.BackupStart? || msg.PreviewBackupStart? || msg.BackupStep?
      ensures restoreScreen.log.entries != old(restoreScreen.log.entries) ==>
        msg.RestoreStart? || msg.PreviewRestoreStart? || msg.RestoreStep?
    {
      commands := [];
      match msg {
        case Idle => OnIdle();
        case ConfirmBackupStart => OnConfirmBackupStart();
        case BackupStart => commands := OnBackupStart(env);
        case ConfirmRestoreStart => OnConfirmRestoreStart();
        case RestoreStart => commands := OnRestoreStart(env);
        case PreviewBackupStart => commands := OnPreviewBackupStart();
        case PreviewRestoreStart => commands := OnPreviewRestoreStart(env);
        case BackupStep(game, info) => OnBackupStep(game, info);
        case RestoreStep(game, info) => OnRestoreStep(game, info);
        case EditedBackupTarget(text) => OnEditedBackupTarget(text);
        case EditedRestoreSource(text) => OnEditedRestoreSource(text);
        case EditedRootPath(index, path) => OnEditedRootPath(index, path);
        case EditedRootStore(index, store) => OnEditedRootStore(index, store);
        case AddRoot => OnAddRoot();
        case RemoveRoot(index) => OnRemoveRoot(index);
        case SwitchScreenToBackup => OnSwitchScreenToBackup();
        case SwitchScreenToRestore => OnSwitchScreenToRestore();
      }
    }

    /** Drawing the window. With a dialog open only the dialog is drawn;
        otherwise the current screen is drawn, which sorts that screen's log
        by name in place and lays out the lines of each entry (restore
        targets on the restore screen). */
    method Render(target: string -> Result<string, Prelude.Error>) returns (view: AppView, bodies: seq<seq<string>>)
      requires Valid()
      modifies backupScreen.log, restoreScreen.log
      ensures Valid()
      ensures view == View()
      ensures view.ModalView? ==> State() == old(State()) && bodies == []
      ensures view.ScreenView? && screen == Screen.Backup ==>
        && State() == old(State()).(backupEntries := SortedByName(old(backupScreen.log.entries)))
        && |bodies| == |backupScreen.log.entries|
        && forall i :: 0 <= i < |bodies| ==> bodies[i] == ExpectedLines(backupScreen.log.entries[i], false, target)
      ensures view.ScreenView? && screen == Screen.Restore ==>
        && State() == old(State()).(restoreEntries := SortedByName(old(restoreScreen.log.entries)))
        && |bodies| == |restoreScreen.log.entries|
        && forall i :: 0 <= i < |bodies| ==> bodies[i] == ExpectedLines(restoreScreen.log.entries[i], true, target)
    {
      view := View();
      if modalTheme.Some? {
        return view, [];
      }
      match screen {
        case Backup =>
          SortedByNameKeepsLog(backupScreen.log.entries);
          bodies := backupScreen.log.View(false, target);
        case Restore =>
          SortedByNameKeepsLog(restoreScreen.log.entries);
          bodies := restoreScreen.log.View(true, target);
      }
    }

    /** Pressing button `k` of the open dialog. A button that sends `Idle`
        (OK, Cancel) closes the dialog, clears the guard and restores the
        working directory. Continue on a confirmation while an operation
        runs changes nothing, so the dialog stays open; while none runs it
        has exactly the effect of OnBackupStart or OnRestoreStart: the
        target or source check decides between an error dialog and the
        start of the confirmed operation. */
    method PressModalButton(k: nat, env: Environment) returns (commands: seq<Task>)
      requires Valid()
      requires modalTheme.Some? && k < |ModalButtons(modalTheme.value)|
      modifies this, backupScreen, backupScreen.log, restoreScreen, restoreScreen.log
      ensures Valid()
      ensures ModalButtons(old(modalTheme).value)[k].onPress == Idle ==>
        && State() == old(State()).(operation := None, modalTheme := None, workingDir := originalWorkingDir)
        && commands == []
      ensures k == 0 && !old(modalTheme).value.Error? && old(operation).Some? ==>
        State() == old(State()) && commands == []
      ensures var prepared := env.prepareBackupTarget(env.absolute(old(config).backupPath));
        k == 0 && old(modalTheme) == Some(ConfirmBackup) && old(operation).None? && prepared.Failure? ==>
          && State() == old(State()).(modalTheme := Some(Error(prepared.error)),
                                      backupTotal := 0, backupEntries := [])
          && commands == []
      ensures var prepared := env.prepareBackupTarget(env.absolute(old(config).backupPath));
        k == 0 && old(modalTheme) == Some(ConfirmBackup) && old(operation).None? && prepared.Success? ==>
          && State() == old(State()).(persisted := Some(old(config)), operation := Some(OngoingOperation.Backup),
                                      modalTheme := None, workingDir := appDir,
                                      backupTotal := 0, backupEntries := [])
          && IsScanBatch(commands, OngoingOperation.Backup, manifest)
      ensures var source := env.normalize(old(config).restorePath);
        k == 0 && old(modalTheme) == Some(ConfirmRestore) && old(operation).None? && !env.isDir(source) ==>
          && State() == old(State()).(modalTheme := Some(Error(RestorationSourceInvalid(source))),
                                      restoreTotal := 0, restoreEntries := [])
          && commands == []
      ensures var source := env.normalize(old(config).restorePath);
        k == 0 && old(modalTheme) == Some(ConfirmRestore) && old(operation).None? && env.isDir(source) ==>
          && State() == old(State()).(persisted := Some(old(config)), operation := Some(OngoingOperation.Restore),
                                      modalTheme := None, restoreTotal := 0, restoreEntries := [])
          && IsScanBatch(commands, OngoingOperation.Restore, manifest)
    {
      var msg := ModalButtons(modalTheme.value)[k].onPress;
      match msg {
        case Idle =>
          OnIdle();
          commands := [];
        case BackupStart =>
          commands := OnBackupStart(env);
        case RestoreStart =>
          commands := OnRestoreStart(env);
        case _ =>
          assert false;
      }
    }
  }
}

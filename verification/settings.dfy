/** The converter's persisted settings (conversion quality and save-location policy), the
    defaults used when the settings file is missing or incomplete, and the part of the main
    window's state those settings drive: the save-location label and the folder that a click
    on it opens. */
module Settings {

  import opened Options

  const DefaultQuality: int := 75
  const DefaultLocationType: string := "subfolder"
  /** Name of the folder, next to the source images, that converted files go to by default. */
  const DefaultFolderName: string := "변환된 이미지"

  /** The three save-location policies the settings dialog can produce. */
  const Original: string := "original"
  const Subfolder: string := "subfolder"
  const Custom: string := "custom"

  /** A complete settings record: what the settings dialog returns and what is written to disk. */
  datatype SettingsRecord = SettingsRecord(quality: int, locationType: string, locationPath: string)

  /** The parsed settings file, key by key; a key absent from the JSON object is `None`. */
  datatype SettingsFile = SettingsFile(
    quality: Option<int>,
    locationType: Option<string>,
    locationPath: Option<string>)

  /** The record written as JSON, read back key by key. */
  function AsFile(s: SettingsRecord): SettingsFile {
    SettingsFile(Some(s.quality), Some(s.locationType), Some(s.locationPath))
  }

  /** `load_settings`: the parsed file, or the default record when the file is absent or
      cannot be read or parsed (`None`). */
  function LoadSettings(file: Option<SettingsFile>): SettingsFile {
    match file
    case Some(f) => f
    case None => AsFile(SettingsRecord(DefaultQuality, DefaultLocationType, DefaultFolderName))
  }

  /** The main window's state that the model keeps. */
  datatype AppState = AppState(
    quality: int,              // conversion_quality
    locationType: string,      // save_location_type
    locationPath: string,      // save_location_path
    currentSaveFolder: string, // current_save_folder: what a click on the save label opens
    saveLabel: string)         // text of the save-location label

  const LabelPrefix: string := "저장 위치: "
  const OriginalFolderLabel: string := "원본 폴더"

  /** `updateSaveLocationLabel`: label text and save folder follow the policy; an unknown
      policy leaves both as they were. */
  function UpdateSaveLocationLabel(app: AppState): (r: AppState)
    ensures r.quality == app.quality && r.locationType == app.locationType
    ensures r.locationPath == app.locationPath
    ensures app.locationType == Original ==> r.currentSaveFolder == ""
    ensures app.locationType in {Subfolder, Custom} ==> r.currentSaveFolder == app.locationPath
    ensures app.locationType !in {Original, Subfolder, Custom} ==> r == app
  {
    if app.locationType == Original then
      app.(saveLabel := LabelPrefix + OriginalFolderLabel, currentSaveFolder := "")
    else if app.locationType == Subfolder then
      app.(saveLabel := LabelPrefix + OriginalFolderLabel + "/" + app.locationPath,
           currentSaveFolder := app.locationPath)
    else if app.locationType == Custom then
      app.(saveLabel := LabelPrefix + app.locationPath, currentSaveFolder := app.locationPath)
    else app
  }

  /** Refreshing the label twice is the same as refreshing it once. */
  lemma UpdateSaveLocationLabelIdempotent(app: AppState)
    ensures UpdateSaveLocationLabel(UpdateSaveLocationLabel(app)) == UpdateSaveLocationLabel(app)
  {
  }

  /** `setupUi`: each setting is taken from the loaded file, falling back key by key to its
      default; the save folder starts empty and the label starts blank before being refreshed. */
  function InitialState(file: Option<SettingsFile>): (r: AppState)
    ensures r.quality == LoadSettings(file).quality.GetOr(DefaultQuality)
    ensures r.locationType == LoadSettings(file).locationType.GetOr(DefaultLocationType)
    ensures r.locationPath == LoadSettings(file).locationPath.GetOr(DefaultFolderName)
  {
    var settings := LoadSettings(file);
    var app := AppState(
      settings.quality.GetOr(DefaultQuality),
      settings.locationType.GetOr(DefaultLocationType),
      settings.locationPath.GetOr(DefaultFolderName),
      "", "");
    UpdateSaveLocationLabel(app)
  }

  /** With no readable settings file the window starts with quality 75, the default subfolder
      policy and folder name, and that folder as the one the label opens. */
  lemma InitialStateWithoutFile()
    ensures InitialState(None) == AppState(
      75, "subfolder", "변환된 이미지", "변환된 이미지", "저장 위치: 원본 폴더/변환된 이미지")
  {
  }

  /** A settings file that has every key is used as it is, whatever the policy. */
  lemma InitialStateFromCompleteFile(s: SettingsRecord)
    ensures InitialState(Some(AsFile(s))).quality == s.quality
    ensures InitialState(Some(AsFile(s))).locationType == s.locationType
    ensures InitialState(Some(AsFile(s))).locationPath == s.locationPath
  {
  }

  /** `save_current_settings`: the record written holds exactly the three settings. */
  function SaveCurrentSettings(app: AppState): (r: SettingsRecord)
    ensures InitialState(Some(AsFile(r))).quality == app.quality
    ensures InitialState(Some(AsFile(r))).locationType == app.locationType
    ensures InitialState(Some(AsFile(r))).locationPath == app.locationPath
  {
    SettingsRecord(app.quality, app.locationType, app.locationPath)
  }

  /** What the next start finds after `save_settings` tried to write a record. `save_settings`
      turns every write error into `False`, and `save_current_settings` ignores that value. */
  datatype SaveOutcome =
    | Persisted   // written, and the next start reads this very file
    | NotWritten  // the file could not be opened: the earlier file is untouched
    | Truncated   // opened for writing, which empties it, then the dump failed: it no longer parses
    | Lost        // written to a folder the next start does not read the settings from

  /** `save_settings` followed by the next start's read: the file that start finds. */
  function SaveSettings(r: SettingsRecord, before: Option<SettingsFile>, outcome: SaveOutcome)
    : (next: Option<SettingsFile>)
    ensures outcome == Persisted ==> next == Some(AsFile(r))
    ensures outcome == NotWritten ==> next == before
    ensures outcome in {Truncated, Lost} ==> next == None
  {
    match outcome
    case Persisted => Some(AsFile(r))
    case NotWritten => before
    case Truncated => None
    case Lost => None
  }

  /** Saving on close and starting again restores the window exactly when the write reached
      the next start and the label had been refreshed for a known policy (which every settings
      change does). A write that could not open the file leaves the start the earlier file
      gives, and a truncated or lost file leaves the defaults. */
  lemma RestartRestoresState(app: AppState, before: Option<SettingsFile>, outcome: SaveOutcome)
    ensures (outcome == Persisted && app.locationType in {Original, Subfolder, Custom}
             && app == UpdateSaveLocationLabel(app)) ==>
      InitialState(SaveSettings(SaveCurrentSettings(app), before, outcome)) == app
    ensures outcome == NotWritten ==>
      InitialState(SaveSettings(SaveCurrentSettings(app), before, outcome)) == InitialState(before)
    ensures outcome in {Truncated, Lost} ==>
      InitialState(SaveSettings(SaveCurrentSettings(app), before, outcome)) == InitialState(None)
  {
  }
}

/** The settings dialog: a quality slider, three mutually exclusive save-location radio
    buttons, a subfolder-name field and a custom-folder field; what it shows when opened,
    how the user's edits change it, and the settings record it returns on "save". */
module SettingsDialog {

  import opened Options
  import opened Settings

  const SliderMin: int := 0
  const SliderMax: int := 100

  /** Qt passes slider values as a 32-bit C `int`; PyQt5 raises `OverflowError` for a Python
      int outside this range instead of passing it on. */
  const CIntMin: int := -0x8000_0000
  const CIntMax: int := 0x7fff_ffff

  predicate FitsCInt(v: int) {
    CIntMin <= v <= CIntMax
  }

  /** A value Qt accepts as a C `int` argument. */
  type CInt = v: int | FitsCInt(v)

  /** A value the quality slider can hold. */
  type Percent = q: int | SliderMin <= q <= SliderMax

  /** `QSlider.setValue`: a value outside the slider's range is moved to the nearer end. */
  function Clamp(v: CInt): (r: Percent)
    ensures SliderMin <= v <= SliderMax ==> r == v
    ensures v < SliderMin ==> r == SliderMin
    ensures v > SliderMax ==> r == SliderMax
  {
    if v < SliderMin then SliderMin else if v > SliderMax then SliderMax else v
  }

  /** The three radio buttons. */
  datatype Choice = OriginalRadio | SubfolderRadio | CustomRadio

  /** The dialog's widgets; the radio buttons share one group, so at most one is checked. */
  datatype Dialog = Dialog(
    slider: Percent,
    checked: Option<Choice>,
    subfolderText: string,
    customText: string)

  function ChoiceFor(locationType: string): Option<Choice> {
    if locationType == Settings.Original then Some(OriginalRadio)
    else if locationType == Settings.Subfolder then Some(SubfolderRadio)
    else if locationType == Settings.Custom then Some(CustomRadio)
    else None
  }

  /** `SettingsDialog.__init__`: the slider shows the quality, each text field shows the path
      only when it belongs to the field's policy, and an unknown policy checks "subfolder". */
  function NewDialog(quality: CInt, locationType: string, locationPath: string): (d: Dialog)
    ensures d.checked.Some?
    ensures d.slider == Clamp(quality)
    ensures ChoiceFor(locationType).Some? ==> d.checked == ChoiceFor(locationType)
    ensures ChoiceFor(locationType).None? ==> d.checked == Some(SubfolderRadio)
    ensures locationType == Settings.Subfolder ==> d.subfolderText == locationPath
    ensures locationType != Settings.Subfolder ==> d.subfolderText == DefaultFolderName
    ensures locationType == Settings.Custom ==> d.customText == locationPath
    ensures locationType != Settings.Custom ==> d.customText == ""
  {
    Dialog(
      Clamp(quality),
      if ChoiceFor(locationType).Some? then ChoiceFor(locationType) else Some(SubfolderRadio),
      if locationType == Settings.Subfolder then locationPath else DefaultFolderName,
      if locationType == Settings.Custom then locationPath else "")
  }

  /** `showSettingsDialog`: a dialog built with its default arguments, then set to the
      window's current quality and policy. Setting a quality that is no C `int` raises, and the
      handler around the whole function catches it: then no dialog opens. */
  function ShowSettingsDialog(app: AppState): (d: Option<Dialog>)
    ensures d.None? <==> !FitsCInt(app.quality)
    ensures d.Some? ==> d.value == NewDialog(app.quality, app.locationType, app.locationPath)
  {
    if !FitsCInt(app.quality) then None
    else
      var d := NewDialog(DefaultQuality, DefaultLocationType, DefaultFolderName);
      var d := d.(slider := Clamp(app.quality));
      Some(
        if app.locationType == Settings.Original then d.(checked := Some(OriginalRadio))
        else if app.locationType == Settings.Subfolder then
          d.(checked := Some(SubfolderRadio), subfolderText := app.locationPath)
        else if app.locationType == Settings.Custom then
          d.(checked := Some(CustomRadio), customText := app.locationPath)
        else d)
  }

  /** One thing the user can do in the open dialog. */
  datatype Edit =
    | MoveSlider(value: CInt)
    | Click(choice: Choice)
    | TypeSubfolder(text: string)
    | TypeCustom(text: string)
    | Browse(folder: string)   // the folder the directory picker returned, "" when cancelled

  /** `browseSaveFolder`: a chosen folder fills the custom field and checks its radio button. */
  function BrowseSaveFolder(d: Dialog, folder: string): (r: Dialog)
    ensures folder == "" ==> r == d
    ensures folder != "" ==> r.customText == folder && r.checked == Some(CustomRadio)
    ensures r.slider == d.slider && r.subfolderText == d.subfolderText
  {
    if folder != "" then d.(customText := folder, checked := Some(CustomRadio)) else d
  }

  function ApplyEdit(d: Dialog, e: Edit): Dialog {
    match e
    case MoveSlider(v) => d.(slider := Clamp(v))
    case Click(c) => d.(checked := Some(c))
    case TypeSubfolder(t) => d.(subfolderText := t)
    case TypeCustom(t) => d.(customText := t)
    case Browse(f) => BrowseSaveFolder(d, f)
  }

  function ApplyEdits(d: Dialog, edits: seq<Edit>): Dialog
    decreases |edits|
  {
    if |edits| == 0 then d else ApplyEdits(ApplyEdit(d, edits[0]), edits[1..])
  }

  /** Once a radio button is checked, no edit leaves the group without a checked button. */
  lemma {:induction false} EditsKeepAChoice(d: Dialog, edits: seq<Edit>)
    requires d.checked.Some?
    ensures ApplyEdits(d, edits).checked.Some?
    decreases |edits|
  {
    if |edits| > 0 {
      EditsKeepAChoice(ApplyEdit(d, edits[0]), edits[1..]);
    }
  }

  /** `getSettings`: the slider's quality, the checked policy, and the path from the field that
      belongs to it; "original" carries no path, and with nothing checked the policy is empty. */
  function GetSettings(d: Dialog): (r: SettingsRecord)
    ensures SliderMin <= r.quality <= SliderMax && r.quality == d.slider
    ensures d.checked == Some(OriginalRadio) ==> r.locationType == Settings.Original && r.locationPath == ""
    ensures d.checked == Some(SubfolderRadio) ==> r.locationType == Settings.Subfolder && r.locationPath == d.subfolderText
    ensures d.checked == Some(CustomRadio) ==> r.locationType == Settings.Custom && r.locationPath == d.customText
    ensures d.checked == None ==> r.locationType == "" && r.locationPath == ""
  {
    var locationType :=
      match d.checked
      case Some(OriginalRadio) => Settings.Original
      case Some(SubfolderRadio) => Settings.Subfolder
      case Some(CustomRadio) => Settings.Custom
      case None => "";
    var locationPath :=
      match d.checked
      case Some(SubfolderRadio) => d.subfolderText
      case Some(CustomRadio) => d.customText
      case _ => "";
    SettingsRecord(d.slider, locationType, locationPath)
  }

  /** Whatever the user does between opening the dialog and saving, the settings returned name
      one of the three policies and a quality within the slider's range. */
  lemma DialogYieldsKnownPolicy(app: AppState, edits: seq<Edit>)
    ensures ShowSettingsDialog(app).Some? ==>
      GetSettings(ApplyEdits(ShowSettingsDialog(app).value, edits)).locationType
        in {Settings.Original, Settings.Subfolder, Settings.Custom}
    ensures ShowSettingsDialog(app).Some? ==>
      SliderMin <= GetSettings(ApplyEdits(ShowSettingsDialog(app).value, edits)).quality <= SliderMax
  {
    if ShowSettingsDialog(app).Some? {
      EditsKeepAChoice(ShowSettingsDialog(app).value, edits);
    }
  }

  /** Accepting the dialog: the window takes the returned settings and refreshes its label;
      the record then saved is exactly what the dialog returned. */
  function AcceptSettings(app: AppState, d: Dialog): (r: AppState)
    ensures SaveCurrentSettings(r) == GetSettings(d)
    ensures r == UpdateSaveLocationLabel(r)
  {
    var s := GetSettings(d);
    UpdateSaveLocationLabel(app.(quality := s.quality, locationType := s.locationType,
                                 locationPath := s.locationPath))
  }

  /** Opening the dialog and pressing "save" without touching anything; when the dialog cannot
      open, the window keeps its settings. */
  function SaveUntouched(app: AppState): (r: AppState)
    ensures ShowSettingsDialog(app).Some? ==> r == AcceptSettings(app, ShowSettingsDialog(app).value)
    ensures ShowSettingsDialog(app).None? ==> r == app
  {
    match ShowSettingsDialog(app)
    case None => app
    case Some(d) => AcceptSettings(app, d)
  }

  /** Saving the dialog untouched keeps the quality when it is in the slider's range and the
      policy when it is one of the three; the path survives except for "original", which has
      none. A quality that is no C `int` leaves everything as it was. */
  lemma AcceptUnchanged(app: AppState)
    ensures !FitsCInt(app.quality) ==> SaveUntouched(app) == app
    ensures FitsCInt(app.quality) ==> SaveUntouched(app).quality == Clamp(app.quality)
    ensures FitsCInt(app.quality) && app.locationType in {Settings.Original, Settings.Subfolder, Settings.Custom} ==>
      SaveUntouched(app).locationType == app.locationType
    ensures FitsCInt(app.quality) && app.locationType in {Settings.Subfolder, Settings.Custom} ==>
      SaveUntouched(app).locationPath == app.locationPath
    ensures FitsCInt(app.quality) && app.locationType !in {Settings.Original, Settings.Subfolder, Settings.Custom} ==>
      SaveUntouched(app).locationType == Settings.Subfolder &&
      SaveUntouched(app).locationPath == DefaultFolderName
  {
  }

  /** A saved quality of 2^31, one past the largest C `int`, opens no dialog and changes nothing. */
  lemma QualityPastCIntOpensNoDialog(app: AppState)
    requires app.quality == 0x8000_0000
    ensures ShowSettingsDialog(app) == None
    ensures SaveUntouched(app) == app
  {
  }
}

/** What a round through the settings dialog does to the next conversion batch: saving the
    dialog untouched leaves every output target where it was. */
module RoundTrips {

  import opened Settings
  import opened SettingsDialog
  import opened Conversion

  /** Saving the dialog untouched sends every image to the same directory under the same
      name: the path of "original" is ignored by `makeFolder`, and a policy the window does
      not know already behaved as the default subfolder. */
  lemma ReopenedKeepsTargets(app: AppState, makedirs: string -> bool, filename: string)
    ensures WindowFolderMaker(SaveUntouched(app), makedirs)(filename)
         == WindowFolderMaker(app, makedirs)(filename)
  {
  }

  /** Saving the dialog untouched keeps the converter's quality option whenever the quality
      was one the slider can show. */
  lemma ReopenedKeepsQuality(app: AppState)
    requires SliderMin <= app.quality <= SliderMax
    ensures QualityOption(SaveUntouched(app).quality) == QualityOption(app.quality)
  {
  }
}

# Image2WebpConverter core, modelled in Dafny

Image2WebpConverter is a desktop tool. It converts JPEG, PNG and GIF images to WebP by running
Google's `cwebp` encoder once per image. Everything except a few string, path and record
functions in `ImageToWebp.py` is Qt user interface. This project models those functions:

- **Settings** (`settings.dfy`):
  - the record saved to `settings.json` and how it is read back;
  - the defaults used when the file is missing, unreadable or lacks a key;
  - the part of the main window's state the settings drive: the save-location label, and the
    folder a click on that label opens.
- **Settings dialog** (`settings_dialog.dfy`):
  - the quality slider, which takes a 32-bit C `int` and clamps it to 0..100; a window quality
    outside the C `int` range makes `setValue` raise, so the dialog does not open;
  - the three mutually exclusive save-location radio buttons and the two text fields;
  - what the dialog shows when opened, how the user's edits change it, and the record
    `getSettings` returns.
- **One conversion batch** (`conversion.dfy`), as `convert_files` and `makeFolder` do it:
  - the case-insensitive extension allow-list (`.jpg`, `.jpeg`, `.png`, `.gif`), applied with
    `os.path.splitext` semantics;
  - the split of the input into images and unsupported files, each list in input order;
  - the output directory under each save policy (`original`, `subfolder`, `custom`, or any
    other value), with the fall-back to the source directory when the directory cannot be
    created;
  - the quoted output path `변환된_<stem>.webp`;
  - the `cwebp` command line for each image;
  - the progress count, the status message and the folder the save label opens afterwards.
- **Round trips through the dialog** (`roundtrips.dfy`): opening the dialog and saving it
  untouched leaves every output target where it was.

Supporting modules:

- `posix_path.dfy`: Python's `posixpath` `basename`, `dirname`, `join` and `splitext`, written
  out with `str.rfind`.
- `decimal.dfy`: `str(int)` and its inverse.
- `shell_words.dfy`: a reader that splits a command line into words at spaces outside double
  quotes, the word splitting the command's quoting relies on. It reads `$`, backquotes and
  backslashes literally, unlike `/bin/sh`.
- `seqs.dfy`: order-preserving filtering.
- `options.dfy`: an `Option` type.

The file system and the encoder are parameters:

- `os.makedirs(d, exist_ok=True)` is an oracle `makedirs: string -> bool`. It is true when the
  directory exists afterwards.
- `subprocess.call` becomes the log of command lines the batch runs.
- The parsed settings file is `Option<SettingsFile>`. `None` means the file is missing, cannot
  be read or does not parse. A key the JSON object lacks is `None` in its field.

Paths follow Python's POSIX rules with `/` as the separator. The tool also runs on Windows,
where `ntpath` accepts `\` as well; that variant is not modelled.

`convert_files` builds the command in two branches, one for GIF sources and one for all
others. The two branches are character-for-character the same template, so the model has one
`Command` function, and `CommandWords` holds for every source.

## Model

| member | source | states |
|---|---|---|
| Seqs.FilterConcat | ImageToWebp.py:1006-1012 | Filtering a concatenation is the concatenation of the filtered parts, so each list keeps the input's relative order |
| Seqs.FilterRejectSplit | ImageToWebp.py:1006-1012 | The elements that pass a test and those that fail it together hold every element of the input exactly once: their multisets add up to the input's |
| Seqs.FilterKeeps | ImageToWebp.py:1006-1012 | Every element that passes the test is kept |
| Seqs.RejectKeeps | ImageToWebp.py:1006-1012 | Every element that fails the test is kept by the other list |
| PosixPath.Basename | ImageToWebp.py:1129 | The basename has no separator, and the head before it followed by the basename gives back the path |
| PosixPath.Dirname | ImageToWebp.py:1133 | The dirname is a prefix of the head. A head of separators only is kept whole. Otherwise the dirname is non-empty, does not end with a separator, and only separators follow it in the head |
| PosixPath.Join | ImageToWebp.py:1136 | An absolute second part replaces the first; otherwise the result is the first part, then nothing or one `/`, then the second part |
| PosixPath.JoinThenSplit | ImageToWebp.py:1162 | For a name without a separator, `basename(join(d, name))` is the name, and `dirname` of it is `d` when `d` has no trailing separator |
| PosixPath.SplitExt | ImageToWebp.py:1008 | Root followed by extension is the path. The extension is empty, or a dot followed by neither a separator nor another dot |
| PosixPath.SplitExtOfConcat | ImageToWebp.py:1163 | `splitext` after a directory prefix cuts where it cuts the bare name; the prefix goes to the root |
| Decimal.IntToStringRoundTrip | ImageToWebp.py:1000 | Parsing the decimal rendering of any integer gives the integer back |
| Decimal.IntToStringInjective | ImageToWebp.py:1000 | Different qualities render as different strings |
| Decimal.NatToStringValue | ImageToWebp.py:1095 | The digits rendered for a count have the count as their value |
| ShellWords.QuotedWord | ImageToWebp.py:1071 | A double-quoted word without quotes, followed by a space, reads as that word, then the rest |
| ShellWords.PlainWord | ImageToWebp.py:1071 | A non-empty word without quotes or spaces, followed by a space, reads as that word, then the rest |
| ShellWords.LastQuotedWord | ImageToWebp.py:1071 | A double-quoted word at the end of the line reads as that word alone |
| Settings.InitialState | ImageToWebp.py:566-574 | Each setting comes from the loaded file, falling back key by key to 75, `subfolder` and `변환된 이미지` |
| Settings.InitialStateWithoutFile | ImageToWebp.py:73-92 | With no readable file, the window starts with quality 75, the `subfolder` policy and folder `변환된 이미지`, labelled `저장 위치: 원본 폴더/변환된 이미지` |
| Settings.InitialStateFromCompleteFile | ImageToWebp.py:569-571 | A file with all three keys is used as written, whatever the policy |
| Settings.UpdateSaveLocationLabel | ImageToWebp.py:921-930 | The save folder becomes `""` for `original` and the path for `subfolder` and `custom`. An unknown policy changes nothing. The settings are kept |
| Settings.UpdateSaveLocationLabelIdempotent | ImageToWebp.py:921-930 | Refreshing the label twice is the same as refreshing it once |
| Settings.SaveCurrentSettings | ImageToWebp.py:912-919 | Reading back the record written restores the quality, the policy and the path |
| Settings.SaveSettings | ImageToWebp.py:96-103 | The file the next start finds: the record written when the write persisted, the earlier file when it could not be opened, and no readable file when it was emptied and not completed or written where the next start does not look |
| Settings.RestartRestoresState | ImageToWebp.py:15-103 | When the write persisted, a known policy with a refreshed label is restored exactly at the next start. A failed open gives the start the earlier file gives, and a truncated or lost file gives the default start |
| SettingsDialog.Clamp | ImageToWebp.py:221-223 | For any C `int`, the slider keeps a value in 0..100 and moves any other value to the nearer end |
| SettingsDialog.NewDialog | ImageToWebp.py:221-431 | The new dialog shows the clamped quality. A known policy checks its own button, and any other policy checks "subfolder". The subfolder field starts with the path only for `subfolder`, otherwise with `변환된 이미지`. The custom field starts with the path only for `custom`, otherwise empty |
| SettingsDialog.ShowSettingsDialog | ImageToWebp.py:943-983 | No dialog opens exactly when the window's quality is outside the C `int` range, where `setValue` raises and the handler catches it. Otherwise a default dialog updated with the window's settings is the same as a dialog built from those settings |
| SettingsDialog.BrowseSaveFolder | ImageToWebp.py:487-491 | A chosen folder fills the custom field and checks `custom`. A cancelled choice changes nothing. The slider and subfolder field are kept |
| SettingsDialog.EditsKeepAChoice | ImageToWebp.py:423-431 | Once a radio button is checked, no sequence of edits leaves the group with none checked |
| SettingsDialog.GetSettings | ImageToWebp.py:493-513 | The quality is the slider value, in 0..100. The policy is the checked button's. The path is `""` for `original`, the subfolder text for `subfolder` and the custom text for `custom`. With no button checked, policy and path are both `""` |
| SettingsDialog.DialogYieldsKnownPolicy | ImageToWebp.py:493-513 | Whenever the dialog opens, whatever the user does in it, the settings returned name one of the three policies and a quality in 0..100 |
| SettingsDialog.AcceptSettings | ImageToWebp.py:967-979 | The record saved after accepting is exactly what the dialog returned, and the label is then up to date |
| SettingsDialog.SaveUntouched | ImageToWebp.py:943-983 | Opening the dialog and saving it untouched accepts the dialog shown. When no dialog opens, the window keeps all its settings |
| SettingsDialog.AcceptUnchanged | ImageToWebp.py:943-983 | A quality outside the C `int` range leaves the window unchanged. Otherwise saving the dialog untouched clamps the quality and keeps a known policy. It keeps the path for `subfolder` and `custom`. An unknown policy becomes `subfolder` with `변환된 이미지` |
| SettingsDialog.QualityPastCIntOpensNoDialog | ImageToWebp.py:949 | A window quality of 2^31 opens no dialog, and saving leaves the window as it was |
| RoundTrips.ReopenedKeepsTargets | ImageToWebp.py:943-983 | Saving the dialog untouched gives every image the same output directory and file name as before |
| RoundTrips.ReopenedKeepsQuality | ImageToWebp.py:949 | Saving the dialog untouched keeps the `-q` option whenever the quality was in 0..100 |
| Conversion.IsImageFileIff | ImageToWebp.py:1008 | A file is accepted exactly when its basename ends in a supported extension, in any case, after something other than dots |
| Conversion.UpperCaseAccepted | ImageToWebp.py:1008 | `A.PNG` is accepted |
| Conversion.WebpRejected | ImageToWebp.py:1008 | `a.webp` is not accepted |
| Conversion.NoExtensionRejected | ImageToWebp.py:1008 | `noext` is not accepted |
| Conversion.DotFileRejected | ImageToWebp.py:1008 | `.png` is not accepted, because a leading dot does not start an extension |
| Conversion.PartitionFiles | ImageToWebp.py:1006-1012 | The images are the accepted files and the unsupported list the others, each in input order. An input is in a list exactly when the test says so |
| Conversion.OutputBaseName | ImageToWebp.py:1129-1163 | The converted file's name has no separator and is not absolute |
| Conversion.PrefixedRoot | ImageToWebp.py:1163 | `splitext` of `변환된_` plus a name cuts at the name's last dot, even a leading one, because the prefix makes the part before it non-empty |
| Conversion.OutputFileNameShape | ImageToWebp.py:1162-1163 | The output path is the chosen directory joined with `변환된_`, the source name up to its last dot and `.webp`, all in double quotes |
| Conversion.OutputNameParts | ImageToWebp.py:1162-1164 | The output path starts and ends with `"`. Inside the quotes, its basename is `변환된_` plus the stem plus `.webp`, and its directory is the chosen one when that has no trailing separator |
| Conversion.OutputDirectory | ImageToWebp.py:1131-1160 | The directory is `dirname(src)` for `original`, `join(dirname(src), path)` for `subfolder`, `path` for `custom`, and `join(dirname(src), "변환된 이미지")` otherwise. It is `dirname(src)` whenever creating the wanted directory fails. It is always the source directory or one that was created |
| Conversion.MakeFolder | ImageToWebp.py:1127-1164 | The target directory is the policy's directory, and the output name is that directory joined with `변환된_`, the source name up to its last dot and `.webp`, in double quotes |
| Conversion.AbsoluteSubfolderIsCustom | ImageToWebp.py:1134-1136 | A `subfolder` path that is absolute puts the output exactly where `custom` with that path would |
| Conversion.CommandHasQualityOption | ImageToWebp.py:1068-1073 | Every command contains ` -q <quality>` |
| Conversion.CommandWords | ImageToWebp.py:1068-1076 | For paths without double quotes, the double-quote-and-space reader splits the command into the encoder, the source, `-q`, the quality, `-o` and the output path, for GIF and other sources alike |
| Conversion.CountMessageInjective | ImageToWebp.py:1095 | Batches of different sizes never show the same "converted N files" message |
| Conversion.SingleNameShape | ImageToWebp.py:1092 | The single-image message names the converted file. The command's opening quote is left in front of it exactly when the chosen directory is empty |
| Conversion.WindowSingleName | ImageToWebp.py:1091-1092 | The same, for the target the window's settings pick |
| Conversion.CommandsForIndex | ImageToWebp.py:1066-1076 | The command log has one command per image, and the k-th is the command for the k-th image |
| Conversion.RunConversions | ImageToWebp.py:1066-1083 | The loop logs the commands in image order and leaves the progress at the number of images. It keeps the last image's directory and output name |
| Conversion.ConvertFiles | ImageToWebp.py:998-1096 | The batch holds the partition and one command per image, in order, each with the quality option and the image's target (the log `CommandsFor` describes). Progress value and maximum are the image count. With no image there are no commands and the warning shows, and the window is unchanged. With one image the status carries that image's output name, which the message shows; with more it gives the count. A non-empty last output directory becomes the folder the label opens |
| Conversion.ConvertImages | ImageToWebp.py:1000-1096 | For a non-empty image list: one command per image in order, progress at the image count, the single-image status holding that image's output name or the count for more, and the last non-empty output directory as the folder the label opens |

## Left out

- Qt widgets are not modelled: construction, style sheets, palettes, title-bar dragging, dialog centring, status icons, the drop-label texts, the `settingsLabel` text and the `QTimer` resets. They are presentation with no logic to state.
- Dismissing the dialog with cancel is not modelled. It changes nothing.
- A quality outside the C `int` range follows PyQt5's default, where `setValue` raises `OverflowError`. A build with sip's overflow checks turned off would instead cut the value to 32 bits before the slider clamps it; that is not modelled. The error message printed by the handler is output only.
- `open_folder`, `open_save_folder`, `is_macos` and the choice of `cwebp_path` (`ImageToWebp.py:21-56`, `933-941`) are not modelled. They are operating-system calls and platform detection; the encoder's path is a parameter.
- The JSON file is not read or written. Reading is modelled from an already-parsed `Option<SettingsFile>`, and writing as the record produced together with a `SaveOutcome` parameter saying what the next start finds. `save_settings` swallows every write error and `save_current_settings` ignores its result, so the model gives no signal of a failed save either.
- Settings.RestartRestoresState: which `SaveOutcome` occurs is a parameter, not derived. `SETTINGS_FILE` lies beside `__file__` (`ImageToWebp.py:15`). `build.py` bundles the program with PyInstaller's `--onefile`, which unpacks into a fresh temporary folder at each start, so there a write is `Lost` and the next start takes the defaults. The packaging is not part of this model.
- A settings value of the wrong JSON type, such as a string quality, is not modelled. The model's fields are typed.
- `os.makedirs` is an oracle of the directory alone. It cannot model a directory that can be created for one image and not the next, or that `os.makedirs("")` always fails.
- Conversion.CommandWords: describes the command only as the double-quote-and-space reader splits it. `/bin/sh`, which runs the command on macOS (`shell=True`), still expands `$`, backquotes and backslashes inside double quotes, so a path holding one of them is not shown to reach the encoder as one literal word. The requires excludes only double quotes, the one character that would end the quoted run for the reader itself.
- `str.lower` is modelled on ASCII letters only. A few non-ASCII characters lower-case to text that contains an ASCII letter, but never to that letter alone: `İ` (U+0130), for one, becomes `i` followed by the combining dot U+0307. The extra character keeps such an extension off the allow-list. The one character that lower-cases to a single ASCII letter, the Kelvin sign U+212A, gives `k`, which no supported extension contains. So the accept test is unaffected.
- Windows path rules (`ntpath`) are not modelled; `/` is the only separator.
- `select_files`, the file-dialog filter and the drag-and-drop handlers only deliver a list of paths, which `ConvertFiles` takes as input.
- `main.py` and `build.py` are not part of this model. The first is an older Tk front end, the second a packaging script.
- Conversion.ConvertFiles: takes the window's `makeFolder` as a function parameter (`WindowFolderMaker` of the settings and the `makedirs` oracle) instead of computing targets itself, so its contract names targets through that parameter.

# Folder renamer: a verified model

A model of the renaming core of "Renombrador Universal de Carpetas", a console tool and a tkinter
front end. Both normalise the names of the folders directly inside one directory. The model covers:

- **the normaliser** `normalize_folder_name`, present in both front ends with the same pipeline. The
  two copies differ only in the options used when none are passed: the console copy falls back to
  its built-in defaults, which is what the console's preview and rename get when no options were
  chosen in the menu (the model passes `Defaults` there); the graphical copy falls back to the
  window's switches, which no modelled caller relies on. It runs a fixed pipeline driven by six
  switches: lower-case, strip accents (NFD, then drop the marks), turn
  whitespace runs into `_`, replace by `_` every character outside a class the switches build
  (ASCII letters; digits when `preserve_numbers`; `.` when `preserve_dots`, which is off by default;
  then `_` when `replace_spaces` is on, or whitespace when it is off), collapse `_` runs, strip `_`
  from both ends, and fall back to `unnamed_folder` (module `Normalizer`, with the string operations
  in `Text`);
- **the console front end**: the options menu, the read-only preview and the renaming pass. The
  renaming pass judges each folder against the directory as the earlier renames left it (module
  `Console`);
- **the graphical front end** (module `Gui`). A window object keeps the six switches, the chosen
  directory and `preview_data`. The preview builds that list in one pass; the rename commits the list
  later as it stands, without checking any target again;
- **the shared batch semantics** (module `Batch`): classification into unchanged, pending or
  conflict; the live pass and the snapshot commit as functions over the directory; their summaries;
  and when the two passes agree;
- **the directory** as the program sees it through `pathlib` (module `FileSystem`): its child entries
  by kind, whether it exists, is a directory and can be listed, and which renames the system refuses;
- **a Spanish stand-in for the Unicode tables** (module `Spanish`), the documented examples computed
  through the model (module `WorkedCases`), and small directories on which the two passes differ
  (module `Scenarios`).

The Unicode steps (`str.lower` and NFD-then-drop-Mn) are parameters of type `UnicodeSteps`. The
properties that depend on them assume parts of `Faithful(u)`, each a fact of the Unicode tables:
lower-casing leaves no ASCII capital, even after accent stripping (`LowerLeavesNoUpper`); on ASCII
letters, digits, `.`, `_` and whitespace, `lower` is ASCII lower-casing (`LowerIsAscii`); accent
stripping leaves those characters alone except EN QUAD and EM QUAD, which NFD rewrites to EN SPACE
and EM SPACE, and never outputs either quad (`MarksKeepAscii`). `Spanish.Table` meets all three.

## Model

| member | source | states |
|---|---|---|
| Normalizer.Allowed | rename_folders.py:76-90 | every ASCII letter is in the class, and with `replace_spaces` on no whitespace is |
| Normalizer.Sanitize | rename_folders.py:93-95 | a character is kept or becomes `_`, and it is kept exactly when it is in the class or is `_` |
| Normalizer.UnicodeFold | rename_folders.py:64-74 | with both switches off the name passes through; with `lowercase` on no ASCII capital is left; with `remove_accents` on no quad is left |
| Normalizer.Substitute | rename_folders.py:85-95 | the substitutions never lengthen the name |
| Normalizer.Normalize | rename_folders.py:44-107 | the result is never empty, is `unnamed_folder` for the empty input, neither starts nor ends with `_` and holds no `__` |
| Normalizer.Tidy | rename_folders.py:97-101 | after `re.sub(r'_+', '_')` and `strip('_')` there is no `__` and no `_` at either end, and every character is `_` or comes from the input |
| Normalizer.NormalizeDrawsFrom | rename_folders.py:97-105 | the result is the fallback name, or each of its characters is `_` or a character of the substituted string |
| Normalizer.SubstituteCharset | rename_folders.py:76-95 | with `remove_special` on, the substituted string holds only characters of the allowed class and `_` |
| Normalizer.NormalizeCharset | rename_folders.py:76-105 | with `remove_special` on, every character of the result is in the allowed class or is `_` |
| Normalizer.SubstituteHasNoSpace | rename_folders.py:85-95 | with `replace_spaces` on, no whitespace survives the substitution |
| Normalizer.NormalizeHasNoSpace | rename_folders.py:85-105 | with `replace_spaces` on, the result holds no whitespace |
| Normalizer.SubstituteKeepsNoUpper | rename_folders.py:85-95 | the substitutions introduce no capital letter |
| Normalizer.NormalizeHasNoUpper | rename_folders.py:64-66 | with `lowercase` on, and `lower` leaving no ASCII capital, the result holds no ASCII capital |
| Normalizer.SubstituteKeepsNoQuad | rename_folders.py:85-95 | the substitutions introduce no EN QUAD or EM QUAD |
| Normalizer.NormalizeHasNoQuad | rename_folders.py:68-74 | with `remove_accents` on, the result holds no EN QUAD or EM QUAD, since NFD never outputs them |
| Normalizer.NormalFormIsFixed | rename_folders_gui.py:548 | a name already in normal form for the options is its own normalisation, so it is left unchanged |
| Normalizer.NormalizeIsLowerSafe | rename_folders.py:76-95 | with `remove_special` on, the result holds only ASCII letters, digits, `.`, `_` and whitespace |
| Normalizer.NormalizeIsNormalForm | rename_folders.py:44-107 | with `remove_special` on, the result is in normal form, for any Unicode steps meeting `Faithful` as the real tables do |
| Normalizer.NormalizeIdempotent | rename_folders.py:44-107 | with `remove_special` on, normalising twice gives what normalising once gives, for any Unicode steps meeting `Faithful` |
| Normalizer.LowerKeeps | rename_folders.py:65-66 | `lower` leaves alone a string of ASCII letters, digits, `.`, `_` and whitespace with no capital |
| Text.ReplaceRuns | rename_folders.py:98 | replacing each run of class characters by one `_` never lengthens the string |
| Text.ReplaceRunsChars | rename_folders.py:86-88 | every character after run replacement is `_` or a character of the input outside the replaced class |
| Text.CollapsedHasNoDoubleUnderscore | rename_folders.py:98 | collapsing `_` runs leaves no `__`, and after a run the rest cannot start with `_` |
| Text.ReplaceRunsPointwise | rename_folders.py:86-88 | where no two class characters are adjacent, each becomes `_` and every other character stays |
| Text.ReplaceRunsIdentity | rename_folders.py:98 | a string whose class characters are lone `_` is left as it is |
| Text.ReplaceRunsAppend | rename_folders.py:98 | run replacement works piecewise: the second piece starts inside a run when the first ends in one |
| Text.LeadingEndRun | rename_folders.py:101 | every character before the first kept one is a stripped character |
| Text.TrailingStartRun | rename_folders.py:101 | every character after the last kept one is a stripped character |
| Text.Strip | rename_folders.py:101 | the stripped string neither starts nor ends with a stripped character |
| Text.StripFacts | rename_folders.py:101 | `strip` empties exactly a string made only of stripped characters, keeps characters of the input, introduces no `__`, and leaves alone a string whose ends are not stripped |
| Text.StripPadded | rename_folders.py:185 | `strip` removes exactly the padding around a core whose ends are not stripped characters |
| Spanish.TableIsFaithful | rename_folders.py:64-74 | the Spanish table meets every assumption the normaliser's lemmas make about the Unicode steps |
| WorkedCases.FotosVacaciones | rename_folders.py:132 | "Fotos Vacaciones (2024)" becomes "fotos_vacaciones_2024" with the defaults |
| WorkedCases.MusicaRockRoll | rename_folders.py:133 | "Música - Rock & Roll" becomes "musica_rock_roll" with the defaults |
| WorkedCases.CarpetaYear | rename_folders_gui.py:529-530 | "carpeta (2024)" becomes "carpeta_2024" with the defaults |
| WorkedCases.VersionDots | rename_folders_gui.py:532-536 | "version 2.1" becomes "version_2_1" with the defaults and "version_2.1" once dots are kept |
| WorkedCases.AccentedVowels | rename_folders_gui.py:523-524 | "ñáéíóú" becomes "naeiou" with the defaults |
| WorkedCases.TestNames | rename_folders.py:64-66 | with the defaults, lower-casing makes "Test" and "TEST" both "test" |
| WorkedCases.MiCarpeta | rename_folders_gui.py:550-553 | "Mi Carpeta" becomes "mi_carpeta", and "mi_carpeta" is already normal |
| Console.Toggle | rename_folders.py:187-198 | a menu toggle flips its one switch and leaves the other five alone |
| Console.ToggleInvolutive | rename_folders.py:187-198 | choosing the same entry twice gives back the options as they were |
| Console.ParseChoice | rename_folders.py:185-206 | a line of whitespace only, or an empty line, is not a choice |
| Console.RunMenu | rename_folders.py:163-207 | the menu returns options only if entry 8 was read, and returns nothing only if entry 9 was read |
| Console.ParseChoicePadded | rename_folders.py:185 | a choice surrounded by whitespace means what the choice alone means |
| Console.MenuToggles | rename_folders.py:185-198 | entries 1 to 6, with or without whitespace around them, flip their switch and the menu goes on reading |
| Console.MenuContinues | rename_folders.py:201-202 | entry 8 returns the options as they stand |
| Console.MenuGoesBack | rename_folders.py:203-204 | entry 9 leaves the menu with nothing chosen |
| Console.MenuFlag | rename_folders.py:152-206 | when the menu returns options, each switch is its starting value flipped once per time its entry was read before the menu ended |
| Console.ShowOptionsMenu | rename_folders.py:152-206 | the menu loop starting from the defaults ends as the menu semantics over the lines typed says: chosen options, cancelled, or input exhausted |
| Console.PreviewChanges | rename_folders.py:324-385 | fails exactly when the directory cannot be listed; otherwise counts the pending changes and the conflicts of the preview, which together are at most the number of folders, and renames nothing |
| Console.ProcessFolder | rename_folders.py:276-306 | one folder: skipped when unchanged, a conflict when the target exists now, otherwise renamed or failed, with the directory changed only by that rename |
| Console.RenameFolders | rename_folders.py:238-322 | fails for a missing path, a non-directory or a failed listing and changes nothing; otherwise the directory and the counters are those of the live pass, and the counters add up to the number of folders |
| Console.RenameEach | rename_folders.py:275-306 | the loop ends with the directory and the counters of the live pass over the listed folders |
| Batch.Classify | rename_folders_gui.py:292-320 | a folder's verdict records its name and normal form; it changes exactly when the two differ, and it is a conflict exactly when it changes onto a name that exists now |
| Batch.Preview | rename_folders_gui.py:291-321 | one verdict per folder, each judged against the same directory, before any rename |
| Batch.PreviewSummary | rename_folders_gui.py:290-330 | each preview item records the name, its normal form, whether it changes, and whether it changes onto an existing name; the "unchanged" line equals the total minus changes minus conflicts |
| Batch.PreviewPartition | rename_folders_gui.py:323-327 | pending, conflicting and unchanged items partition a coherent preview |
| Batch.Bump | rename_folders_gui.py:440-454 | each outcome raises exactly one counter by one: renamed for a rename, unchanged for a skip, errors otherwise |
| Batch.TallyOf | rename_folders.py:308-313 | renamed, unchanged and error counters add up to the number processed |
| Batch.Step | rename_folders_gui.py:439-455 | a commit step skips exactly an unchanged item, reports a changing conflict as such, renames a pending item exactly when the system lets it and otherwise fails it, and changes the directory only by a rename |
| Batch.Commit | rename_folders_gui.py:439-455 | the snapshot commit keeps the items as they are and gives one outcome per item |
| Batch.Live | rename_folders.py:275-306 | the live pass gives one verdict and one outcome per folder |
| Batch.CommitTally | rename_folders_gui.py:439-466 | committing a coherent snapshot skips exactly the unchanged items, counts every snapshot conflict as an error, and renames or counts as an error each pending item |
| Batch.CommitFrame | rename_folders_gui.py:439-457 | an entry that no changing item leaves or takes is untouched by the commit |
| Batch.CommitKeepsFiles | rename_folders_gui.py:439-457 | the commit moves only directories: every file stays, none is created and the number of entries is kept |
| Batch.LiveItems | rename_folders.py:275-292 | the live pass's verdicts are coherent and each records the folder, its normal form and whether it changes |
| Batch.LiveIsCommitOfItsItems | rename_folders.py:275-306 | the live pass is the commit of the verdicts it reached on the way |
| Batch.LiveTally | rename_folders.py:275-316 | over a listing, the live counters add up to the number of folders, the unchanged counter is the number of folders already normal, files stay and the number of entries is kept |
| Batch.LiveFrame | rename_folders.py:275-306 | a name that no changing folder leaves or takes is untouched by the live pass |
| Batch.UnchangedCountsNormalNames | rename_folders.py:282-285 | the unchanged count is the number of distinct folders whose name is its own normal form |
| Batch.LiveMatchesSnapshot | rename_folders_gui.py:439-457 | when changing folders have pairwise different targets, none of which is another changing folder's name, the live pass and the snapshot commit give the same verdicts, outcomes and directory |
| Batch.LiveMatchesSnapshotIdempotent | rename_folders_gui.py:439-457 | for an idempotent normaliser, distinct targets alone make the two passes agree |
| FileSystem.PathExists | rename_folders.py:289 | every child, folder or file, exists, and so do `.` and `..`; no other name does |
| FileSystem.Directory.Exists | rename_folders.py:289 | on the directory as it is now, every child exists, and no other name does except `.` and `..` |
| FileSystem.Move | rename_folders.py:294 | the renamed entry is under the new name, the old name is gone, and every other entry is as it was |
| FileSystem.Directory.ListFolders | rename_folders.py:256-263 | a listing succeeds exactly for a listable directory and then lists each child directory once and nothing else |
| FileSystem.Directory.Rename | rename_folders.py:294-306 | the rename goes through exactly when the source is there, the system does not refuse it and the target is free; otherwise nothing changes |
| Gui.RenamerWindow.constructor | rename_folders_gui.py:22-43 | before the opening call to `use_current_directory()`, a new window has every switch on except `preserve_dots`, no directory and an empty preview |
| Gui.RenamerWindow.GetOptions | rename_folders_gui.py:183-192 | the options record holds the six switches as the window has them now |
| Gui.RenamerWindow.ShowPreview | rename_folders_gui.py:254-341 | with no directory, a missing one, a non-directory, an unlistable one or no child folders, the previous preview stays; otherwise the preview is replaced by one item per folder judged against the directory now, and the counters are its pending changes and conflicts |
| Gui.RenamerWindow.ClassifyFolders | rename_folders_gui.py:280-321 | the loop leaves `preview_data` equal to the preview of the folders and counts its pending items and conflicts |
| Gui.RenamerWindow.StartRenameProcess | rename_folders_gui.py:389-420 | the rename starts exactly when there is a preview with a pending item and the user confirms; then the directory and counters are those of the snapshot commit, otherwise nothing changes |
| Gui.RenamerWindow.RenameFoldersThread | rename_folders_gui.py:422-466 | the loop leaves the directory and the counters of committing `preview_data` as it stands |
| Gui.CommitItem | rename_folders_gui.py:440-455 | one committed item: skipped, a conflict on the preview's word alone, or renamed or failed |
| Scenarios.NormalNameIsUnchanged | rename_folders_gui.py:548 | a folder whose name is in normal form is judged "Sin cambios", with no conflict |
| Scenarios.LiveAgreesWithSnapshot | rename_folders.py:275-306 | with `remove_special` on and distinct targets, the console and the graphical front end give the same verdicts, outcomes and directory |
| Scenarios.CaseClash | rename_folders_gui.py:290-321 | with "Test" and "TEST" both normalising to "test", the live pass reports the second as a conflict, while the snapshot judged both free and then fails on the second rename |
| Scenarios.DefaultCaseClash | rename_folders_gui.py:439-457 | with the defaults, "Test" and "TEST" end as renamed and conflict on the console but as renamed and failed in the graphical front end, both leaving "test" and "TEST" |
| Scenarios.TargetTaken | rename_folders_gui.py:550-554 | when "Mi Carpeta" and "mi_carpeta" both exist, both passes give a conflict for the first and leave the second unchanged, and neither renames anything |
| Scenarios.DefaultTargetTaken | rename_folders_gui.py:550-554 | with the default options, both passes give conflict then unchanged and leave the directory as it was |

## Left out

- The Unicode tables behind `str.lower`, `unicodedata.normalize('NFD', ...)` and the Mn category are parameters (`UnicodeSteps`). The lemmas that need them assume the parts of `Faithful` they use, and the Spanish table covers only ASCII, the Spanish letters and the two quads.
- Folder names the system cannot decode are left out. On POSIX such a name reaches Python with lone surrogates (U+DC80 to U+DCFF), which line 95 of rename_folders.py replaces by `_`; a Dafny `string` cannot hold a lone surrogate.
- Normalizer.NormalizeIdempotent: stated only with `remove_special` on. With it off, any character survives, and whether a second `lower` and NFD pass leaves it alone depends on Unicode tables the model does not assume.
- The help text claims "ñáéíóú" → "naeio" (rename_folders_gui.py:524), and so does the welcome screen for the longer example (rename_folders.py:131). The pipeline as written keeps the final "u", which `WorkedCases.AccentedVowels` shows for the accented word alone.
- The type check in `normalize_folder_name` for a non-string argument is left out: the model's names are strings.
- Exceptions are not modelled by kind. A rename the system refuses (permissions, locks, any `OSError`) is a name in `Directory.refused`, and a failed listing is `Access.Unlistable`. `exists()` always answers in the model. On some Python versions it raises on a stat error other than "not found" (no permission on a parent, a name too long). The model leaves that out. The source then counts that folder neither as a change nor as a conflict in `preview_changes` (rename_folders.py:356-374), as an error in `rename_folders` (rename_folders.py:289, 304-306), and in `show_preview` it stops the preview half-way, leaving in `preview_data` the folders judged before that one (rename_folders_gui.py:281, 300, 339).
- A rename onto an existing name always fails (Windows semantics). On POSIX, renaming a directory over an empty directory succeeds; that case is not modelled.
- Case-insensitive file systems are not modelled: "Test" and "test" are different names.
- Path handling (`Path.resolve`, `folder.parent / name`, `get_exe_directory`, `resource_path`) is replaced by one `Directory` object holding the children by name.
- The order of `iterdir()` is whatever order the system yields. `ListFolders` picks an arbitrary order and every property holds for any listing.
- The graphical front end's threading (`threading.Thread`, `root.after`), its widgets, its status line and its message boxes are left out. The confirmation dialog is the `confirmed` parameter of `StartRenameProcess`. The automatic refresh after the commit (`update_preview`) is not modelled.
- Gui.RenamerWindow.constructor: the window's opening `use_current_directory()` (rename_folders_gui.py:40, 148, 172-181), which picks the program's own folder as the directory and then builds the preview through `update_preview()`, is not modelled. The constructor stops before it; a caller gets the opened window's state by setting the directory to that folder and calling `ShowPreview`.
- Console.ShowOptionsMenu: the lines typed are a parameter, and running out of them (end of input) is `InputExhausted`. Entry 7 (`show_example_transformation`) only prints, and it reads one more line before returning; the model keeps that one consumed line and leaves the printed examples out.
- Printing, `clear_screen`, the welcome and help screens, `main`'s outer menu and its confirmation prompt, and `pause_and_exit` are left out: they only display text or chain the modelled operations.
- `compilar_universal.py` (the build script) is not part of this model.

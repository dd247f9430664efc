/**
 * The graphical front end's renaming logic: the window keeps the six option switches, the chosen
 * directory and the preview list; the preview is built in one pass and the rename later commits that
 * list as it stands, against the directory it was taken from.
 */
module Gui {
  import opened Normalizer
  import opened FileSystem
  import opened Batch

  class RenamerWindow {
    var lowercase: bool
    var removeAccents: bool
    var replaceSpaces: bool
    var removeSpecial: bool
    var preserveNumbers: bool
    var preserveDots: bool
    /** The Unicode steps the normaliser uses. */
    const unicode: UnicodeSteps
    /** The directory field; `null` while it is empty. */
    var directory: Directory?
    /** `preview_data`: one item per listed folder of the last preview. */
    var previewData: seq<PreviewItem>
    /** The directory whose folders the items of `previewData` point to. */
    var previewDir: Directory?

    /** The preview is coherent and, once it has items, knows the directory they came from. */
    predicate Valid()
      reads this
    {
      Coherent(previewData) && (previewData != [] ==> previewDir != null)
    }

    /**
     * A new window as `__init__` leaves it before its opening `use_current_directory()`: every switch on
     * except `preserve_dots`, no directory and an empty preview.
     */
    constructor(unicode: UnicodeSteps)
      ensures GetOptions() == Defaults
      ensures this.unicode == unicode && directory == null
      ensures previewData == [] && previewDir == null
      ensures Valid()
    {
      lowercase, removeAccents, replaceSpaces := true, true, true;
      removeSpecial, preserveNumbers, preserveDots := true, true, false;
      this.unicode := unicode;
      directory := null;
      previewData := [];
      previewDir := null;
    }

    /** `get_options()`: the six switches as an options record. */
    function GetOptions(): (o: Options)
      reads this
      ensures o.lowercase == lowercase && o.removeAccents == removeAccents && o.replaceSpaces == replaceSpaces
      ensures o.removeSpecial == removeSpecial && o.preserveNumbers == preserveNumbers && o.preserveDots == preserveDots
    {
      Options(lowercase, removeAccents, replaceSpaces, removeSpecial, preserveNumbers, preserveDots)
    }

    /**
     * `show_preview()`: with a listable directory that has child directories, replaces the preview by
     * one item per folder, judged against the directory as it is now, and reports the two counters
     * of the summary; in every other case the previous preview stays as it was.
     */
    method ShowPreview() returns (folders: seq<string>, changes: nat, conflicts: nat)
      requires Valid()
      modifies this`previewData, this`previewDir
      ensures Valid()
      ensures directory == null || directory.access != Listable ==> folders == []
      ensures directory != null && directory.access == Listable ==> IsListing(directory.entries, folders)
      ensures folders == [] ==> previewData == old(previewData) && previewDir == old(previewDir)
      ensures folders != [] ==> previewDir == directory
      ensures folders != [] ==> previewData == Preview(directory.entries, folders, Rule(GetOptions(), unicode))
      ensures changes == Pending(Preview(if directory == null then map[] else directory.entries,
                                         folders, Rule(GetOptions(), unicode)))
      ensures conflicts == Conflicts(Preview(if directory == null then map[] else directory.entries,
                                             folders, Rule(GetOptions(), unicode)))
      ensures changes + conflicts <= |folders|
    {
      folders, changes, conflicts := [], 0, 0;
      var dir := directory;
      if dir == null {
        return;
      }
      if dir.access == Missing || dir.access == NotADirectory {
        return;
      }
      var listed;
      listed, folders := dir.ListFolders();
      if !listed || folders == [] {
        folders := [];
        return;
      }
      var options := GetOptions();
      var rule := Rule(options, unicode);
      previewDir := dir;
      changes, conflicts := ClassifyFolders(dir, folders, rule);
      PreviewSummary(dir.entries, folders, rule);
    }

    /**
     * The loop of `show_preview()`: empties `preview_data`, appends one item per folder and counts the
     * changes and the conflicts of the summary.
     */
    method ClassifyFolders(dir: Directory, folders: seq<string>, rule: string -> string)
      returns (changes: nat, conflicts: nat)
      modifies this`previewData
      ensures previewData == Preview(dir.entries, folders, rule)
      ensures changes == Pending(previewData) && conflicts == Conflicts(previewData)
    {
      changes, conflicts := 0, 0;
      previewData := [];
      var i := 0;
      while i < |folders|
        invariant 0 <= i <= |folders|
        invariant previewData == Preview(dir.entries, folders[..i], rule)
        invariant changes == Pending(previewData) && conflicts == Conflicts(previewData)
      {
        var originalName := folders[i];
        var newName := rule(originalName);
        var willChange := originalName != newName;
        var hasConflict := false;
        if willChange {
          hasConflict := dir.Exists(newName);
          if hasConflict {
            conflicts := conflicts + 1;
          } else {
            changes := changes + 1;
          }
        }
        var item := PreviewItem(originalName, newName, willChange, hasConflict);
        CountAppend(previewData, item, IsPending);
        CountAppend(previewData, item, IsConflict);
        assert item == Classify(dir.entries, originalName, rule);
        PreviewExtend(dir.entries, folders, i, rule);
        previewData := previewData + [item];
        i := i + 1;
      }
      assert folders[..|folders|] == folders;
    }

    /**
     * `start_rename_process()`: nothing happens without a preview, without a pending item or without
     * the user's confirmation; otherwise the preview is committed as it stands.
     */
    method StartRenameProcess(confirmed: bool) returns (started: bool, tally: Tally)
      requires Valid()
      modifies previewDir
      ensures started <==> previewData != [] && Pending(previewData) > 0 && confirmed
      ensures !started ==> tally == Tally(0, 0, 0)
      ensures !started && previewDir != null ==> previewDir.entries == old(previewDir.entries)
      ensures started ==> previewDir.entries == Commit(old(previewDir.entries), previewDir.refused, previewData).final
      ensures started ==> tally == TallyOf(Commit(old(previewDir.entries), previewDir.refused, previewData).outcomes)
      ensures tally.renamed + tally.skipped + tally.errors == if started then |previewData| else 0
    {
      if previewData == [] {
        return false, Tally(0, 0, 0);
      }
      var changes := Pending(previewData);
      if changes == 0 {
        return false, Tally(0, 0, 0);
      }
      if !confirmed {
        return false, Tally(0, 0, 0);
      }
      tally := RenameFoldersThread();
      started := true;
    }

    /**
     * `rename_folders_thread()`: walks the preview in order; an unchanged item is skipped, an item the
     * preview marked as a conflict is an error without any new check, and any other item is renamed or
     * counted as an error when the rename fails.
     */
    method RenameFoldersThread() returns (tally: Tally)
      requires previewDir != null
      modifies previewDir
      ensures previewDir.entries == Commit(old(previewDir.entries), previewDir.refused, previewData).final
      ensures tally == TallyOf(Commit(old(previewDir.entries), previewDir.refused, previewData).outcomes)
    {
      var dir := previewDir;
      ghost var e0 := dir.entries;
      ghost var outcomes: seq<Outcome> := [];
      tally := Tally(0, 0, 0);
      var i := 0;
      while i < |previewData|
        invariant 0 <= i <= |previewData|
        invariant Commit(e0, dir.refused, previewData[..i]) == Run(previewData[..i], outcomes, dir.entries)
        invariant tally == TallyOf(outcomes)
      {
        ghost var before := dir.entries;
        var outcome := CommitItem(dir, previewData[i]);
        CommitStep(e0, dir.refused, previewData, i, outcomes, before, outcome, dir.entries);
        tally := Bump(tally, outcome);
        outcomes := outcomes + [outcome];
        i := i + 1;
      }
      assert previewData[..|previewData|] == previewData;
    }
  }

  /** One round of the commit loop, trusting the item's own verdict. */
  method CommitItem(dir: Directory, item: PreviewItem) returns (outcome: Outcome)
    modifies dir
    ensures (outcome, dir.entries) == Step(old(dir.entries), dir.refused, item)
  {
    if !item.willChange {
      return Skipped;
    }
    if item.hasConflict {
      return Conflict;
    }
    var moved := dir.Rename(item.originalName, item.newName);
    outcome := if moved then Renamed else Failed;
  }
}

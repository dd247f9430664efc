/**
 * The batch workflow shared by both front ends: each listed folder is classified (unchanged, pending
 * rename, conflict) and then committed (skipped, renamed, conflict, failed). The console renames while it
 * classifies, so each check sees the renames made before it ("live"); the graphical front end classifies
 * everything first and commits that snapshot without checking again.
 */
module Batch {
  import opened FileSystem

  /** One line of the preview: `original_name`, `new_name`, `will_change`, `has_conflict`. */
  datatype PreviewItem = PreviewItem(originalName: string, newName: string, willChange: bool, hasConflict: bool)

  /** What happened to one folder during a commit. */
  datatype Outcome = Skipped | Conflict | Renamed | Failed

  /** A pass over the folders: the items it judged, what happened to each, and the directory afterwards. */
  datatype Run = Run(items: seq<PreviewItem>, outcomes: seq<Outcome>, final: Entries)

  /** The three counters of the summary: renamed, unchanged, errors and conflicts. */
  datatype Tally = Tally(renamed: nat, skipped: nat, errors: nat)

  /**
   * A folder judged against the directory as it is now, `rule` being the normaliser with the chosen
   * options: a conflict only for a changing name whose target exists.
   */
  function Classify(e: Entries, name: string, rule: string -> string): (item: PreviewItem)
    ensures item.originalName == name && item.newName == rule(name)
    ensures item.willChange <==> rule(name) != name
    ensures item.hasConflict <==> item.willChange && PathExists(e, item.newName)
  {
    var newName := rule(name);
    PreviewItem(name, newName, name != newName, name != newName && PathExists(e, newName))
  }

  /** Every folder judged against the same directory: the snapshot the graphical front end keeps. */
  function Preview(e: Entries, names: seq<string>, rule: string -> string): (items: seq<PreviewItem>)
    ensures |items| == |names|
    ensures forall i :: 0 <= i < |names| ==> items[i] == Classify(e, names[i], rule)
  {
    seq(|names|, i requires 0 <= i < |names| => Classify(e, names[i], rule))
  }

  /** Only a changing item can be in conflict. */
  predicate Coherent(items: seq<PreviewItem>) {
    forall i :: 0 <= i < |items| ==> items[i].hasConflict ==> items[i].willChange
  }

  /** One step of a commit: unchanged items are skipped, conflicts are left alone, anything else is attempted. */
  function Step(e: Entries, refused: set<string>, item: PreviewItem): (r: (Outcome, Entries))
    ensures r.0 == Skipped <==> IsUnchanged(item)
    ensures item.willChange && IsConflict(item) ==> r.0 == Conflict
    ensures r.0 == Renamed <==> IsPending(item) && CanRename(e, refused, item.originalName, item.newName)
    ensures IsPending(item) && !CanRename(e, refused, item.originalName, item.newName) ==> r.0 == Failed
    ensures r.0 != Renamed ==> r.1 == e
    ensures r.0 == Renamed ==> item.originalName in e && r.1 == Move(e, item.originalName, item.newName)
  {
    if !item.willChange then (Skipped, e)
    else if item.hasConflict then (Conflict, e)
    else if CanRename(e, refused, item.originalName, item.newName) then
      (Renamed, Move(e, item.originalName, item.newName))
    else (Failed, e)
  }

  /** The snapshot commit: the items' own verdicts are trusted and never checked again. */
  function Commit(e: Entries, refused: set<string>, items: seq<PreviewItem>): (r: Run)
    ensures r.items == items && |r.outcomes| == |items|
  {
    if items == [] then Run([], [], e)
    else
      var prev := Commit(e, refused, items[..|items| - 1]);
      var (out, next) := Step(prev.final, refused, items[|items| - 1]);
      Run(items, prev.outcomes + [out], next)
  }

  /** The live pass: each folder is classified against the directory left by the folders before it. */
  function Live(e: Entries, refused: set<string>, names: seq<string>, rule: string -> string): (r: Run)
    ensures |r.items| == |names| && |r.outcomes| == |names|
  {
    if names == [] then Run([], [], e)
    else
      var prev := Live(e, refused, names[..|names| - 1], rule);
      var item := Classify(prev.final, names[|names| - 1], rule);
      var (out, next) := Step(prev.final, refused, item);
      Run(prev.items + [item], prev.outcomes + [out], next)
  }

  /** Counts one more outcome: a conflict and a failure both count as an error. */
  function Bump(t: Tally, out: Outcome): (r: Tally)
    ensures r.renamed + r.skipped + r.errors == t.renamed + t.skipped + t.errors + 1
    ensures r.renamed >= t.renamed && r.skipped >= t.skipped && r.errors >= t.errors
    ensures r.renamed > t.renamed <==> out == Renamed
    ensures r.skipped > t.skipped <==> out == Skipped
  {
    match out
    case Renamed => t.(renamed := t.renamed + 1)
    case Skipped => t.(skipped := t.skipped + 1)
    case _ => t.(errors := t.errors + 1)
  }

  /** The three counters after the given outcomes; each outcome bumps exactly one, so they add up to the count. */
  function TallyOf(outs: seq<Outcome>): (t: Tally)
    ensures t.renamed + t.skipped + t.errors == |outs|
  {
    if outs == [] then Tally(0, 0, 0) else Bump(TallyOf(outs[..|outs| - 1]), outs[|outs| - 1])
  }

  /** How many items satisfy `p`. */
  function Count(items: seq<PreviewItem>, p: PreviewItem -> bool): nat {
    if items == [] then 0
    else Count(items[..|items| - 1], p) + (if p(items[|items| - 1]) then 1 else 0)
  }

  predicate IsPending(item: PreviewItem) {
    item.willChange && !item.hasConflict
  }

  predicate IsConflict(item: PreviewItem) {
    item.hasConflict
  }

  predicate IsUnchanged(item: PreviewItem) {
    !item.willChange
  }

  function Pending(items: seq<PreviewItem>): nat {
    Count(items, IsPending)
  }

  function Conflicts(items: seq<PreviewItem>): nat {
    Count(items, IsConflict)
  }

  function Unchanged(items: seq<PreviewItem>): nat {
    Count(items, IsUnchanged)
  }

  /** The tally of one more outcome is the old tally bumped by it. */
  lemma TallyExtend(outs: seq<Outcome>, out: Outcome)
    ensures TallyOf(outs + [out]) == Bump(TallyOf(outs), out)
  {
    assert (outs + [out])[..|outs|] == outs;
  }

  /** The live pass over one more folder is the pass so far followed by one classify-and-step. */
  lemma LiveExtend(e: Entries, refused: set<string>, names: seq<string>, i: nat, rule: string -> string)
    requires i < |names|
    ensures Live(e, refused, names[..i + 1], rule)
         == var prev := Live(e, refused, names[..i], rule);
            var item := Classify(prev.final, names[i], rule);
            var step := Step(prev.final, refused, item);
            Run(prev.items + [item], prev.outcomes + [step.0], step.1)
  {
    assert names[..i + 1][..i] == names[..i];
  }

  /** One more round of the live pass: the folder is judged against the directory the pass so far left. */
  lemma LiveStep(e: Entries, refused: set<string>, names: seq<string>, i: nat, rule: string -> string,
                 items: seq<PreviewItem>, outs: seq<Outcome>, before: Entries, out: Outcome, after: Entries)
    requires i < |names|
    requires Live(e, refused, names[..i], rule) == Run(items, outs, before)
    requires (out, after) == Step(before, refused, Classify(before, names[i], rule))
    ensures Live(e, refused, names[..i + 1], rule) == Run(items + [Classify(before, names[i], rule)], outs + [out], after)
    ensures TallyOf(outs + [out]) == Bump(TallyOf(outs), out)
  {
    LiveExtend(e, refused, names, i, rule);
    TallyExtend(outs, out);
  }

  /** One more round of a commit: the next item takes one step from the directory the commit so far left. */
  lemma CommitStep(e: Entries, refused: set<string>, items: seq<PreviewItem>, i: nat,
                   outs: seq<Outcome>, before: Entries, out: Outcome, after: Entries)
    requires i < |items|
    requires Commit(e, refused, items[..i]) == Run(items[..i], outs, before)
    requires (out, after) == Step(before, refused, items[i])
    ensures Commit(e, refused, items[..i + 1]) == Run(items[..i + 1], outs + [out], after)
    ensures TallyOf(outs + [out]) == Bump(TallyOf(outs), out)
  {
    assert items[..i + 1][..i] == items[..i];
    TallyExtend(outs, out);
  }

  /** Counting after an append adds the new item. */
  lemma CountAppend(items: seq<PreviewItem>, x: PreviewItem, p: PreviewItem -> bool)
    ensures Count(items + [x], p) == Count(items, p) + (if p(x) then 1 else 0)
  {
    assert (items + [x])[..|items|] == items;
  }

  /** Pending, conflicting and unchanged items partition a coherent preview. */
  lemma {:induction false} PreviewPartition(items: seq<PreviewItem>)
    requires Coherent(items)
    ensures Pending(items) + Conflicts(items) + Unchanged(items) == |items|
  {
    if items != [] {
      PreviewPartition(items[..|items| - 1]);
    }
  }

  /**
   * A preview is coherent, its items say whether the name changes and whether the target already
   * exists, and its summary's "unchanged" line (total minus changes minus conflicts) counts exactly the
   * folders whose name is already normal.
   */
  lemma PreviewSummary(e: Entries, names: seq<string>, rule: string -> string)
    ensures Coherent(Preview(e, names, rule))
    ensures forall i :: 0 <= i < |names| ==>
      && Preview(e, names, rule)[i].originalName == names[i]
      && Preview(e, names, rule)[i].newName == rule(names[i])
      && (Preview(e, names, rule)[i].willChange <==> names[i] != rule(names[i]))
      && (Preview(e, names, rule)[i].hasConflict <==>
            names[i] != rule(names[i]) && PathExists(e, rule(names[i])))
    ensures Pending(Preview(e, names, rule)) + Conflicts(Preview(e, names, rule)) <= |names|
    ensures Unchanged(Preview(e, names, rule))
         == |names| - Pending(Preview(e, names, rule)) - Conflicts(Preview(e, names, rule))
  {
    PreviewPartition(Preview(e, names, rule));
  }

  /**
   * A commit of a coherent snapshot skips exactly the unchanged items, reports every snapshot conflict
   * as an error, and attempts every pending item, each either renamed or counted as an error.
   */
  lemma {:induction false} CommitTally(e: Entries, refused: set<string>, items: seq<PreviewItem>)
    requires Coherent(items)
    ensures TallyOf(Commit(e, refused, items).outcomes).skipped == Unchanged(items)
    ensures TallyOf(Commit(e, refused, items).outcomes).renamed <= Pending(items)
    ensures TallyOf(Commit(e, refused, items).outcomes).errors
         == Conflicts(items) + Pending(items) - TallyOf(Commit(e, refused, items).outcomes).renamed
  {
    if items != [] {
      var m := |items| - 1;
      var init, last := items[..m], items[m];
      assert Coherent(init) by {
        forall i | 0 <= i < m ensures init[i].hasConflict ==> init[i].willChange {
          assert init[i] == items[i];
        }
      }
      CommitTally(e, refused, init);
      var prev := Commit(e, refused, init);
      var outs := Commit(e, refused, items).outcomes;
      var out := Step(prev.final, refused, last).0;
      assert outs == prev.outcomes + [out];
      TallyExtend(prev.outcomes, out);
      assert items[..m] == init;
      assert Unchanged(items) == Unchanged(init) + (if IsUnchanged(last) then 1 else 0);
      assert Pending(items) == Pending(init) + (if IsPending(last) then 1 else 0);
      assert Conflicts(items) == Conflicts(init) + (if IsConflict(last) then 1 else 0);
      BumpKeepsTally(TallyOf(prev.outcomes), out, last, Unchanged(init), Pending(init), Conflicts(init));
    }
  }

  /** The counting step of `CommitTally`: bumping by a step's outcome keeps the three relations. */
  lemma BumpKeepsTally(t: Tally, out: Outcome, last: PreviewItem, unchangedCount: nat, pendingCount: nat, conflictCount: nat)
    requires t.skipped == unchangedCount && t.renamed <= pendingCount && t.errors == conflictCount + pendingCount - t.renamed
    requires last.hasConflict ==> last.willChange
    requires out == Skipped <==> IsUnchanged(last)
    requires last.willChange && IsConflict(last) ==> out == Conflict
    requires IsPending(last) ==> out in {Renamed, Failed}
    ensures Bump(t, out).skipped == unchangedCount + (if IsUnchanged(last) then 1 else 0)
    ensures Bump(t, out).renamed <= pendingCount + (if IsPending(last) then 1 else 0)
    ensures Bump(t, out).errors
         == conflictCount + (if IsConflict(last) then 1 else 0) + pendingCount + (if IsPending(last) then 1 else 0)
            - Bump(t, out).renamed
  {
  }

  /** An entry that is neither the source nor the target of a changing item is the same after the commit. */
  lemma {:induction false} CommitFrame(e: Entries, refused: set<string>, items: seq<PreviewItem>, k: string)
    requires forall i :: 0 <= i < |items| && items[i].willChange ==> k != items[i].originalName && k != items[i].newName
    ensures k in Commit(e, refused, items).final <==> k in e
    ensures k in e ==> Commit(e, refused, items).final[k] == e[k]
  {
    if items != [] {
      CommitFrame(e, refused, items[..|items| - 1], k);
    }
  }

  /** The kinds of entries a step keeps: files stay files, and only a directory ever moves. */
  ghost predicate SameFiles(e: Entries, f: Entries) {
    forall k :: (k in e && e[k] == File) <==> (k in f && f[k] == File)
  }

  /**
   * When every folder the items name was a directory, the commit leaves every file where it was, creates
   * no file and keeps the number of entries: a rename moves one directory to a free name.
   */
  lemma {:induction false} CommitKeepsFiles(e: Entries, refused: set<string>, items: seq<PreviewItem>)
    requires forall i :: 0 <= i < |items| ==> items[i].originalName !in e || e[items[i].originalName] == Dir
    ensures SameFiles(e, Commit(e, refused, items).final)
    ensures |Commit(e, refused, items).final| == |e|
  {
    if items != [] {
      CommitKeepsFiles(e, refused, items[..|items| - 1]);
      var prev := Commit(e, refused, items[..|items| - 1]).final;
      StepKeepsFiles(e, prev, refused, items[|items| - 1]);
    }
  }

  lemma StepKeepsFiles(e: Entries, prev: Entries, refused: set<string>, item: PreviewItem)
    requires SameFiles(e, prev) && |prev| == |e|
    requires item.originalName !in e || e[item.originalName] == Dir
    ensures SameFiles(e, Step(prev, refused, item).1) && |Step(prev, refused, item).1| == |e|
  {
    if item.willChange && !item.hasConflict && CanRename(prev, refused, item.originalName, item.newName) {
      var from, to := item.originalName, item.newName;
      assert prev[from] == Dir;
      var rest := prev - {from};
      assert rest.Keys == prev.Keys - {from};
      assert |rest| == |prev| - 1;
      assert to !in rest;
    }
  }

  /** The live pass is the commit of the items it judged on the way. */
  lemma {:induction false} LiveIsCommitOfItsItems(e: Entries, refused: set<string>, names: seq<string>, rule: string -> string)
    ensures Commit(e, refused, Live(e, refused, names, rule).items) == Live(e, refused, names, rule)
  {
    if names != [] {
      var init := names[..|names| - 1];
      LiveIsCommitOfItsItems(e, refused, init, rule);
      var items := Live(e, refused, names, rule).items;
      assert items[..|items| - 1] == Live(e, refused, init, rule).items;
    }
  }

  /** The live items are coherent and each says whether its folder's name changes. */
  lemma {:induction false} LiveItems(e: Entries, refused: set<string>, names: seq<string>, rule: string -> string)
    ensures Coherent(Live(e, refused, names, rule).items)
    ensures forall i :: 0 <= i < |names| ==>
      && Live(e, refused, names, rule).items[i].originalName == names[i]
      && Live(e, refused, names, rule).items[i].newName == rule(names[i])
      && (Live(e, refused, names, rule).items[i].willChange <==> names[i] != rule(names[i]))
  {
    if names != [] {
      var m := |names| - 1;
      LiveItems(e, refused, names[..m], rule);
      var prev := Live(e, refused, names[..m], rule);
      var items := Live(e, refused, names, rule).items;
      assert items == prev.items + [Classify(prev.final, names[m], rule)];
      forall i | 0 <= i < |names|
        ensures items[i].originalName == names[i] && items[i].newName == rule(names[i])
        ensures items[i].willChange <==> names[i] != rule(names[i])
        ensures items[i].hasConflict ==> items[i].willChange
      {
        if i < m {
          assert items[i] == prev.items[i];
          assert names[..m][i] == names[i];
        }
      }
    }
  }

  /**
   * The live pass over a listing: the counters add up to the number of folders, unchanged folders are
   * skipped, files stay and the number of entries is kept.
   */
  lemma LiveTally(e: Entries, refused: set<string>, names: seq<string>, rule: string -> string)
    requires IsListing(e, names)
    ensures TallyOf(Live(e, refused, names, rule).outcomes).renamed
          + TallyOf(Live(e, refused, names, rule).outcomes).skipped
          + TallyOf(Live(e, refused, names, rule).outcomes).errors == |names|
    ensures TallyOf(Live(e, refused, names, rule).outcomes).skipped == |set n | n in names && rule(n) == n|
    ensures SameFiles(e, Live(e, refused, names, rule).final)
    ensures |Live(e, refused, names, rule).final| == |e|
  {
    var r := Live(e, refused, names, rule);
    LiveItems(e, refused, names, rule);
    LiveIsCommitOfItsItems(e, refused, names, rule);
    CommitTally(e, refused, r.items);
    CommitKeepsFiles(e, refused, r.items);
    UnchangedCountsNormalNames(r.items, names, rule);
  }

  /** A name that no changing folder leaves or takes is the same after the live pass. */
  lemma LiveFrame(e: Entries, refused: set<string>, names: seq<string>, rule: string -> string, k: string)
    requires forall i :: 0 <= i < |names| && rule(names[i]) != names[i] ==> k != names[i] && k != rule(names[i])
    ensures k in Live(e, refused, names, rule).final <==> k in e
    ensures k in e ==> Live(e, refused, names, rule).final[k] == e[k]
  {
    LiveItems(e, refused, names, rule);
    LiveIsCommitOfItsItems(e, refused, names, rule);
    CommitFrame(e, refused, Live(e, refused, names, rule).items, k);
  }

  /** No two folders that change are sent to the same new name. */
  predicate DistinctTargets(names: seq<string>, rule: string -> string) {
    forall i, j ::
      0 <= i < |names| && 0 <= j < |names| && i != j &&
      rule(names[i]) != names[i] && rule(names[j]) != names[j] ==>
        rule(names[i]) != rule(names[j])
  }

  /** No folder that changes is sent to the current name of another folder that changes. */
  predicate NoTargetIsRenamed(names: seq<string>, rule: string -> string) {
    forall i, j ::
      0 <= i < |names| && 0 <= j < |names| && i != j &&
      rule(names[i]) != names[i] && rule(names[j]) != names[j] ==>
        rule(names[i]) != names[j]
  }

  /**
   * Changing folders whose targets are pairwise different and are not the name of another changing
   * folder give the same verdicts, the same outcomes and the same directory whether the pass is live or
   * commits a snapshot taken beforehand.
   */
  lemma {:induction false} LiveMatchesSnapshot(e: Entries, refused: set<string>, names: seq<string>, rule: string -> string)
    requires DistinctTargets(names, rule) && NoTargetIsRenamed(names, rule)
    ensures Live(e, refused, names, rule) == Commit(e, refused, Preview(e, names, rule))
  {
    if names != [] {
      var m := |names| - 1;
      var init, last := names[..m], names[m];
      assert forall i :: 0 <= i < m ==> init[i] == names[i];
      LiveMatchesSnapshot(e, refused, init, rule);
      var prev := Live(e, refused, init, rule);
      var snap := Preview(e, names, rule);
      PreviewPrefix(e, names, rule);
      SameVerdict(e, refused, names, rule);
      var item := Classify(prev.final, last, rule);
      assert item == snap[m];
      var step := Step(prev.final, refused, item);
      assert Live(e, refused, names, rule) == Run(prev.items + [item], prev.outcomes + [step.0], step.1);
      assert Commit(e, refused, snap) == Run(snap, prev.outcomes + [step.0], step.1);
    }
  }

  lemma PreviewPrefix(e: Entries, names: seq<string>, rule: string -> string)
    requires names != []
    ensures Preview(e, names, rule)[..|names| - 1] == Preview(e, names[..|names| - 1], rule)
    ensures Preview(e, names, rule) == Preview(e, names[..|names| - 1], rule) + [Classify(e, names[|names| - 1], rule)]
  {
    var m := |names| - 1;
    assert forall i :: 0 <= i < m ==> names[..m][i] == names[i];
  }

  /** The preview of one more folder is the preview so far followed by that folder's item. */
  lemma PreviewExtend(e: Entries, names: seq<string>, i: nat, rule: string -> string)
    requires i < |names|
    ensures Preview(e, names[..i + 1], rule) == Preview(e, names[..i], rule) + [Classify(e, names[i], rule)]
  {
    PreviewPrefix(e, names[..i + 1], rule);
    assert names[..i + 1][..i] == names[..i];
  }

  /** The last folder gets the same verdict from the live pass as from the snapshot. */
  lemma SameVerdict(e: Entries, refused: set<string>, names: seq<string>, rule: string -> string)
    requires names != []
    requires DistinctTargets(names, rule) && NoTargetIsRenamed(names, rule)
    ensures Classify(Live(e, refused, names[..|names| - 1], rule).final, names[|names| - 1], rule)
         == Classify(e, names[|names| - 1], rule)
  {
    var m := |names| - 1;
    var init, last := names[..m], names[m];
    var t := rule(last);
    if t != last {
      forall i | 0 <= i < m && rule(init[i]) != init[i]
        ensures t != init[i] && t != rule(init[i])
      {
        assert init[i] == names[i];
      }
      LiveFrame(e, refused, init, rule, t);
    }
  }

  /**
   * For a normaliser that is idempotent, distinct targets of the changing folders are enough: a target
   * is in normal form, so it cannot be the name of a folder that changes.
   */
  lemma LiveMatchesSnapshotIdempotent(e: Entries, refused: set<string>, names: seq<string>, rule: string -> string)
    requires forall n :: rule(rule(n)) == rule(n)
    requires DistinctTargets(names, rule)
    ensures Live(e, refused, names, rule) == Commit(e, refused, Preview(e, names, rule))
  {
    forall i, j | 0 <= i < |names| && 0 <= j < |names| && i != j
      && rule(names[i]) != names[i] && rule(names[j]) != names[j]
      ensures rule(names[i]) != names[j]
    {
      assert rule(rule(names[i])) == rule(names[i]);
    }
    LiveMatchesSnapshot(e, refused, names, rule);
  }

  lemma {:induction false} UnchangedCountsNormalNames(items: seq<PreviewItem>, names: seq<string>, rule: string -> string)
    requires |items| == |names|
    requires forall i, j :: 0 <= i < j < |names| ==> names[i] != names[j]
    requires forall i :: 0 <= i < |names| ==> (items[i].willChange <==> names[i] != rule(names[i]))
    ensures Unchanged(items) == |set n | n in names && rule(n) == n|
  {
    if names != [] {
      var m := |names| - 1;
      var init, last := names[..m], names[m];
      assert forall i :: 0 <= i < m ==> items[..m][i] == items[i] && init[i] == names[i];
      UnchangedCountsNormalNames(items[..m], init, rule);
      assert last !in init by {
        forall i | 0 <= i < m ensures init[i] != last {
          assert init[i] == names[i];
        }
      }
      assert names == init + [last];
      NormalNamesExtend(init, last, rule);
    }
  }

  /** One more distinct name adds one to the count of normal names exactly when it is normal. */
  lemma NormalNamesExtend(init: seq<string>, last: string, rule: string -> string)
    requires last !in init
    ensures |set n | n in init + [last] && rule(n) == n|
         == |set n | n in init && rule(n) == n| + (if rule(last) == last then 1 else 0)
  {
    var before := set n | n in init && rule(n) == n;
    var after := set n | n in init + [last] && rule(n) == n;
    if rule(last) == last {
      assert after == before + {last};
    } else {
      assert after == before;
    }
  }

}

/**
 * The console front end: the options menu, the read-only preview and the live renaming pass over one
 * directory.
 */
module Console {
  import opened Text
  import opened Normalizer
  import opened FileSystem
  import opened Batch

  // ---------------------------------------------------------------------------------------------
  // The options menu

  /** The six switches, in the order of menu entries 1 to 6. */
  datatype Flag = Lowercase | RemoveAccents | ReplaceSpaces | RemoveSpecial | PreserveNumbers | PreserveDots

  function Get(o: Options, f: Flag): bool {
    match f
    case Lowercase => o.lowercase
    case RemoveAccents => o.removeAccents
    case ReplaceSpaces => o.replaceSpaces
    case RemoveSpecial => o.removeSpecial
    case PreserveNumbers => o.preserveNumbers
    case PreserveDots => o.preserveDots
  }

  /** `options[key] = not options[key]`: flips the one switch and leaves the other five alone. */
  function Toggle(o: Options, f: Flag): (r: Options)
    ensures Get(r, f) == !Get(o, f)
    ensures forall g :: g != f ==> Get(r, g) == Get(o, g)
  {
    match f
    case Lowercase => o.(lowercase := !o.lowercase)
    case RemoveAccents => o.(removeAccents := !o.removeAccents)
    case ReplaceSpaces => o.(replaceSpaces := !o.replaceSpaces)
    case RemoveSpecial => o.(removeSpecial := !o.removeSpecial)
    case PreserveNumbers => o.(preserveNumbers := !o.preserveNumbers)
    case PreserveDots => o.(preserveDots := !o.preserveDots)
  }

  /** Two option records with the same six switches are the same record. */
  lemma SameFlagsSameOptions(a: Options, b: Options)
    requires forall f :: Get(a, f) == Get(b, f)
    ensures a == b
  {
    assert Get(a, Lowercase) == Get(b, Lowercase);
    assert Get(a, RemoveAccents) == Get(b, RemoveAccents);
    assert Get(a, ReplaceSpaces) == Get(b, ReplaceSpaces);
    assert Get(a, RemoveSpecial) == Get(b, RemoveSpecial);
    assert Get(a, PreserveNumbers) == Get(b, PreserveNumbers);
    assert Get(a, PreserveDots) == Get(b, PreserveDots);
  }

  /** Choosing the same entry twice gives back the options as they were. */
  lemma ToggleInvolutive(o: Options, f: Flag)
    ensures Toggle(Toggle(o, f), f) == o
  {
    SameFlagsSameOptions(Toggle(Toggle(o, f), f), o);
  }

  /** What one line typed at the menu asks for. */
  datatype Command = ToggleFlag(flag: Flag) | ShowExamples | Continue | Back | Invalid

  /** What a one-character choice asks for. */
  function CommandOf(c: char): Command {
    match c
    case '1' => ToggleFlag(Lowercase)
    case '2' => ToggleFlag(RemoveAccents)
    case '3' => ToggleFlag(ReplaceSpaces)
    case '4' => ToggleFlag(RemoveSpecial)
    case '5' => ToggleFlag(PreserveNumbers)
    case '6' => ToggleFlag(PreserveDots)
    case '7' => ShowExamples
    case '8' => Continue
    case '9' => Back
    case _ => Invalid
  }

  /** The menu's reading of `input(...).strip()`: only the single characters '1' to '9' are choices. */
  function ParseChoice(line: string): (cmd: Command)
    ensures (forall i :: 0 <= i < |line| ==> IsSpace(line[i])) ==> cmd == Invalid
  {
    StripFacts(line, IsSpace);
    var choice := Strip(line, IsSpace);
    if |choice| == 1 then CommandOf(choice[0]) else Invalid
  }

  /** A choice surrounded by whitespace means what the choice alone means. */
  lemma ParseChoicePadded(pre: string, choice: char, post: string)
    requires forall i :: 0 <= i < |pre| ==> IsSpace(pre[i])
    requires forall i :: 0 <= i < |post| ==> IsSpace(post[i])
    requires !IsSpace(choice)
    ensures ParseChoice(pre + [choice] + post) == CommandOf(choice)
  {
    StripPadded(pre, [choice], post, IsSpace);
  }

  /** How the menu ends: options chosen with '8', '9' (the caller gets `None`), or input running out. */
  datatype MenuResult = Chosen(options: Options) | Cancelled | InputExhausted

  /** The menu's reading of each line typed, in order. */
  function Parse(lines: seq<string>): (cmds: seq<Command>)
    ensures |cmds| == |lines|
  {
    if lines == [] then [] else [ParseChoice(lines[0])] + Parse(lines[1..])
  }

  /** Reading one more line in front reads that line first. */
  lemma ParseCons(line: string, rest: seq<string>)
    ensures Parse([line] + rest) == [ParseChoice(line)] + Parse(rest)
  {
    assert ([line] + rest)[1..] == rest;
  }

  /**
   * The menu loop over the commands read, starting from the options `o`. Entry 7 shows the examples
   * and then waits for one more line, whatever it holds, before the menu comes back.
   */
  function RunMenu(o: Options, cmds: seq<Command>): (res: MenuResult)
    ensures res.Chosen? ==> Continue in cmds
    ensures res == Cancelled ==> Back in cmds
    decreases |cmds|
  {
    if cmds == [] then InputExhausted
    else
      match cmds[0]
      case ToggleFlag(f) => RunMenu(Toggle(o, f), cmds[1..])
      case ShowExamples => RunMenu(o, if |cmds| >= 2 then cmds[2..] else [])
      case Continue => Chosen(o)
      case Back => Cancelled
      case Invalid => RunMenu(o, cmds[1..])
  }

  /** The menu entry of each switch. */
  function EntryOf(f: Flag): char {
    match f
    case Lowercase => '1'
    case RemoveAccents => '2'
    case ReplaceSpaces => '3'
    case RemoveSpecial => '4'
    case PreserveNumbers => '5'
    case PreserveDots => '6'
  }

  /** Typing a switch's entry, with whitespace around it or not, flips that switch, and the menu goes on. */
  lemma MenuToggles(o: Options, f: Flag, pre: string, post: string, rest: seq<string>)
    requires forall i :: 0 <= i < |pre| ==> IsSpace(pre[i])
    requires forall i :: 0 <= i < |post| ==> IsSpace(post[i])
    ensures RunMenu(o, Parse([pre + [EntryOf(f)] + post] + rest)) == RunMenu(Toggle(o, f), Parse(rest))
  {
    var line := pre + [EntryOf(f)] + post;
    assert ParseChoice(line) == ToggleFlag(f) by {
      ParseChoicePadded(pre, EntryOf(f), post);
    }
    ParseCons(line, rest);
    var cmds := [ToggleFlag(f)] + Parse(rest);
    assert cmds[0] == ToggleFlag(f) && cmds[1..] == Parse(rest);
  }

  /** '8', with whitespace around it or not, returns the options as they stand. */
  lemma MenuContinues(o: Options, pre: string, post: string, rest: seq<string>)
    requires forall i :: 0 <= i < |pre| ==> IsSpace(pre[i])
    requires forall i :: 0 <= i < |post| ==> IsSpace(post[i])
    ensures RunMenu(o, Parse([pre + "8" + post] + rest)) == Chosen(o)
  {
    var line := pre + "8" + post;
    assert ParseChoice(line) == Continue by {
      ParseChoicePadded(pre, '8', post);
    }
    ParseCons(line, rest);
  }

  /** '9', with whitespace around it or not, leaves the menu with nothing chosen. */
  lemma MenuGoesBack(o: Options, pre: string, post: string, rest: seq<string>)
    requires forall i :: 0 <= i < |pre| ==> IsSpace(pre[i])
    requires forall i :: 0 <= i < |post| ==> IsSpace(post[i])
    ensures RunMenu(o, Parse([pre + "9" + post] + rest)) == Cancelled
  {
    var line := pre + "9" + post;
    assert ParseChoice(line) == Back by {
      ParseChoicePadded(pre, '9', post);
    }
    ParseCons(line, rest);
  }

  /** How many times the menu flips `f` before it ends. */
  function Flips(cmds: seq<Command>, f: Flag): nat
    decreases |cmds|
  {
    if cmds == [] then 0
    else
      match cmds[0]
      case ToggleFlag(g) => (if g == f then 1 else 0) + Flips(cmds[1..], f)
      case ShowExamples => Flips(if |cmds| >= 2 then cmds[2..] else [], f)
      case Continue => 0
      case Back => 0
      case Invalid => Flips(cmds[1..], f)
  }

  /** A proof step for `MenuFlag`: one more flip changes the parity. */
  lemma OddSuccessor(n: nat)
    ensures ((n + 1) % 2 == 1) == (n % 2 != 1)
  {
  }

  /** A chosen switch is the starting one flipped once for each flip of it the menu read. */
  lemma {:induction false} MenuFlag(o: Options, cmds: seq<Command>, f: Flag)
    requires RunMenu(o, cmds).Chosen?
    ensures Get(RunMenu(o, cmds).options, f) == (Get(o, f) != (Flips(cmds, f) % 2 == 1))
    decreases |cmds|
  {
    var c := cmds[0];
    if c.ToggleFlag? {
      var o', rest := Toggle(o, c.flag), cmds[1..];
      var n := Flips(rest, f);
      assert RunMenu(o, cmds) == RunMenu(o', rest);
      MenuFlag(o', rest, f);
      if c.flag == f {
        assert Flips(cmds, f) == n + 1;
        OddSuccessor(n);
      } else {
        assert Flips(cmds, f) == n;
      }
    } else if c.ShowExamples? {
      var rest := if |cmds| >= 2 then cmds[2..] else [];
      assert RunMenu(o, cmds) == RunMenu(o, rest);
      assert Flips(cmds, f) == Flips(rest, f);
      MenuFlag(o, rest, f);
    } else if c.Invalid? {
      assert RunMenu(o, cmds) == RunMenu(o, cmds[1..]);
      assert Flips(cmds, f) == Flips(cmds[1..], f);
      MenuFlag(o, cmds[1..], f);
    } else {
      assert c.Continue? || c.Back?;
      assert RunMenu(o, cmds) == Chosen(o);
      assert Flips(cmds, f) == 0;
    }
  }

  /** One round of the menu: what the first command does to the rest of the run. */
  lemma MenuStep(o: Options, cmds: seq<Command>)
    requires cmds != []
    ensures cmds[0].ToggleFlag? ==> RunMenu(o, cmds) == RunMenu(Toggle(o, cmds[0].flag), cmds[1..])
    ensures cmds[0].ShowExamples? ==> RunMenu(o, cmds) == if |cmds| >= 2 then RunMenu(o, cmds[2..]) else InputExhausted
    ensures cmds[0].Invalid? ==> RunMenu(o, cmds) == RunMenu(o, cmds[1..])
    ensures cmds[0].Continue? ==> RunMenu(o, cmds) == Chosen(o)
    ensures cmds[0].Back? ==> RunMenu(o, cmds) == Cancelled
  {
  }

  /** `show_options_menu()`: starts from the defaults and reads one line per round until 8 or 9. */
  method ShowOptionsMenu(lines: seq<string>) returns (r: MenuResult)
    ensures r == RunMenu(Defaults, Parse(lines))
  {
    var options := Defaults;
    var i := 0;
    ghost var outcome := RunMenu(Defaults, Parse(lines));
    while i < |lines|
      invariant 0 <= i <= |lines|
      invariant RunMenu(options, Parse(lines[i..])) == outcome
      decreases |lines| - i
    {
      var choice := ParseChoice(lines[i]);
      match choice
      case ToggleFlag(f) =>
        MenuAdvance(options, lines, i);
        options := Toggle(options, f);
        i := i + 1;
      case ShowExamples =>
        MenuAdvance(options, lines, i);
        if i + 1 < |lines| {
          i := i + 2;
        } else {
          return InputExhausted;
        }
      case Continue =>
        MenuAdvance(options, lines, i);
        return Chosen(options);
      case Back =>
        MenuAdvance(options, lines, i);
        return Cancelled;
      case Invalid =>
        MenuAdvance(options, lines, i);
        i := i + 1;
    }
    assert lines[i..] == [];
    return InputExhausted;
  }

  /** One round of the menu loop at line `i`: where the run goes on from, or how it ends. */
  lemma MenuAdvance(o: Options, lines: seq<string>, i: nat)
    requires i < |lines|
    ensures var c := ParseChoice(lines[i]);
      && (c.ToggleFlag? ==> RunMenu(o, Parse(lines[i..])) == RunMenu(Toggle(o, c.flag), Parse(lines[i + 1..])))
      && (c.ShowExamples? && i + 1 < |lines| ==> RunMenu(o, Parse(lines[i..])) == RunMenu(o, Parse(lines[i + 2..])))
      && (c.ShowExamples? && i + 1 == |lines| ==> RunMenu(o, Parse(lines[i..])) == InputExhausted)
      && (c.Continue? ==> RunMenu(o, Parse(lines[i..])) == Chosen(o))
      && (c.Back? ==> RunMenu(o, Parse(lines[i..])) == Cancelled)
      && (c.Invalid? ==> RunMenu(o, Parse(lines[i..])) == RunMenu(o, Parse(lines[i + 1..])))
  {
    ParseNext(lines, i);
    MenuStep(o, Parse(lines[i..]));
  }

  /** The commands from line `i` on: the reading of line `i`, then those from the next line, or the one after. */
  lemma ParseNext(lines: seq<string>, i: nat)
    requires i < |lines|
    ensures Parse(lines[i..])[0] == ParseChoice(lines[i])
    ensures Parse(lines[i..])[1..] == Parse(lines[i + 1..])
    ensures i + 1 < |lines| ==> Parse(lines[i..])[2..] == Parse(lines[i + 2..])
  {
    ParseHead(lines[i..]);
    assert lines[i..][0] == lines[i] && lines[i..][1..] == lines[i + 1..];
    if i + 1 < |lines| {
      ParseHead(lines[i + 1..]);
      assert lines[i + 1..][1..] == lines[i + 2..];
    }
  }

  /** The first command is the reading of the first line, and the others are those of the rest. */
  lemma ParseHead(lines: seq<string>)
    requires lines != []
    ensures Parse(lines)[0] == ParseChoice(lines[0])
    ensures Parse(lines)[1..] == Parse(lines[1..])
  {
    var rest := Parse(lines[1..]);
    assert Parse(lines) == [ParseChoice(lines[0])] + rest;
    assert ([ParseChoice(lines[0])] + rest)[1..] == rest;
  }

  // ---------------------------------------------------------------------------------------------
  // The batch passes

  /**
   * `preview_changes(path, options)`: lists the child directories and counts the names that would
   * change and the changes whose target already exists, renaming nothing.
   */
  method PreviewChanges(dir: Directory, o: Options, u: UnicodeSteps)
    returns (ok: bool, folders: seq<string>, changes: nat, conflicts: nat)
    ensures ok <==> dir.access == Listable
    ensures ok ==> IsListing(dir.entries, folders)
    ensures changes == Pending(Preview(dir.entries, folders, Rule(o, u)))
    ensures conflicts == Conflicts(Preview(dir.entries, folders, Rule(o, u)))
    ensures changes + conflicts <= |folders|
    ensures !ok ==> folders == []
  {
    if dir.access == Missing || dir.access == NotADirectory {
      return false, [], 0, 0;
    }
    ok, folders := dir.ListFolders();
    if !ok {
      return false, [], 0, 0;
    }
    changes, conflicts := 0, 0;
    var rule := Rule(o, u);
    ghost var seen: seq<PreviewItem> := [];
    var i := 0;
    while i < |folders|
      invariant 0 <= i <= |folders|
      invariant seen == Preview(dir.entries, folders[..i], rule)
      invariant changes == Pending(seen) && conflicts == Conflicts(seen)
    {
      var originalName := folders[i];
      var newName := rule(originalName);
      ghost var item := Classify(dir.entries, originalName, rule);
      CountAppend(seen, item, IsPending);
      CountAppend(seen, item, IsConflict);
      PreviewExtend(dir.entries, folders, i, rule);
      if originalName != newName {
        if dir.Exists(newName) {
          conflicts := conflicts + 1;
        } else {
          changes := changes + 1;
        }
      }
      seen := seen + [item];
      i := i + 1;
    }
    assert folders[..|folders|] == folders;
    PreviewSummary(dir.entries, folders, rule);
  }

  /**
   * One round of the loop in `rename_folders`: an unchanged name is skipped, a target that exists now is a
   * conflict, and otherwise the rename is attempted and either goes through or fails.
   */
  method ProcessFolder(dir: Directory, originalName: string, rule: string -> string) returns (outcome: Outcome)
    modifies dir
    ensures (outcome, dir.entries) == Step(old(dir.entries), dir.refused, Classify(old(dir.entries), originalName, rule))
  {
    var newName := rule(originalName);
    if originalName == newName {
      return Skipped;
    }
    if dir.Exists(newName) {
      return Conflict;
    }
    var moved := dir.Rename(originalName, newName);
    outcome := if moved then Renamed else Failed;
  }

  /**
   * `rename_folders(path, options)`: fails for a missing path, a path that is not a directory or a
   * listing that fails, and otherwise renames folder by folder, checking each target against the
   * directory as the earlier renames left it.
   */
  method RenameFolders(dir: Directory, o: Options, u: UnicodeSteps)
    returns (ok: bool, folders: seq<string>, tally: Tally)
    modifies dir
    ensures ok <==> dir.access == Listable
    ensures !ok ==> dir.entries == old(dir.entries) && folders == [] && tally == Tally(0, 0, 0)
    ensures ok ==> IsListing(old(dir.entries), folders)
    ensures ok ==> dir.entries == Live(old(dir.entries), dir.refused, folders, Rule(o, u)).final
    ensures ok ==> tally == TallyOf(Live(old(dir.entries), dir.refused, folders, Rule(o, u)).outcomes)
    ensures tally.renamed + tally.skipped + tally.errors == |folders|
  {
    if dir.access == Missing || dir.access == NotADirectory {
      return false, [], Tally(0, 0, 0);
    }
    ok, folders := dir.ListFolders();
    if !ok {
      return false, [], Tally(0, 0, 0);
    }
    if folders == [] {
      return true, [], Tally(0, 0, 0);
    }
    tally := RenameEach(dir, folders, Rule(o, u));
  }

  /**
   * The loop of `rename_folders` over the listed folders, with its three counters: each folder is
   * judged against the directory as the folders before it left it.
   */
  method RenameEach(dir: Directory, folders: seq<string>, rule: string -> string) returns (tally: Tally)
    modifies dir
    ensures dir.entries == Live(old(dir.entries), dir.refused, folders, rule).final
    ensures tally == TallyOf(Live(old(dir.entries), dir.refused, folders, rule).outcomes)
  {
    ghost var e0 := dir.entries;
    ghost var items: seq<PreviewItem> := [];
    ghost var outcomes: seq<Outcome> := [];
    tally := Tally(0, 0, 0);
    var i := 0;
    while i < |folders|
      invariant 0 <= i <= |folders|
      invariant Live(e0, dir.refused, folders[..i], rule) == Run(items, outcomes, dir.entries)
      invariant tally == TallyOf(outcomes)
    {
      ghost var before := dir.entries;
      var outcome := ProcessFolder(dir, folders[i], rule);
      LiveStep(e0, dir.refused, folders, i, rule, items, outcomes, before, outcome, dir.entries);
      tally := Bump(tally, outcome);
      items := items + [Classify(before, folders[i], rule)];
      outcomes := outcomes + [outcome];
      i := i + 1;
    }
    assert folders[..|folders|] == folders;
  }
}

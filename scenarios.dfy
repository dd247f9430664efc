/**
 * The two batch passes side by side on the normaliser itself: when they agree, and two small
 * directories on which a live pass and a committed snapshot judge folders differently or equally.
 */
module Scenarios {
  import opened Normalizer
  import opened FileSystem
  import opened Batch
  import Spanish
  import WorkedCases

  /** A name already in normal form maps to itself and is judged "Sin cambios": no change, no conflict. */
  lemma NormalNameIsUnchanged(e: Entries, s: string, o: Options, u: UnicodeSteps)
    requires IsNormalForm(s, o, u)
    ensures Classify(e, s, Rule(o, u)) == PreviewItem(s, s, false, false)
  {
    NormalFormIsFixed(s, o, u);
  }

  /**
   * When `remove_special` is on and no two changing folders share a target, the console's live pass and
   * the graphical front end's committed preview give the same verdicts, outcomes and directory.
   */
  lemma LiveAgreesWithSnapshot(e: Entries, refused: set<string>, names: seq<string>, o: Options, u: UnicodeSteps)
    requires Faithful(u)
    requires o.removeSpecial
    requires DistinctTargets(names, Rule(o, u))
    ensures Live(e, refused, names, Rule(o, u)) == Commit(e, refused, Preview(e, names, Rule(o, u)))
  {
    var rule := Rule(o, u);
    forall n ensures rule(rule(n)) == rule(n) {
      NormalizeIdempotent(n, o, u);
    }
    LiveMatchesSnapshotIdempotent(e, refused, names, rule);
  }

  const Clash: Entries := map["Test" := Dir, "TEST" := Dir]

  /**
   * Two folders with the same target, "Test" and "TEST": the live pass renames the first and then sees
   * the target taken, a conflict; the snapshot judged both free, so the second rename is attempted and
   * fails. Both end with "test" and "TEST".
   */
  lemma CaseClash(rule: string -> string)
    requires rule("Test") == "test" && rule("TEST") == "test"
    ensures Live(Clash, {}, ["Test", "TEST"], rule).outcomes == [Renamed, Conflict]
    ensures Commit(Clash, {}, Preview(Clash, ["Test", "TEST"], rule)).outcomes == [Renamed, Failed]
    ensures Live(Clash, {}, ["Test", "TEST"], rule).final == map["TEST" := Dir, "test" := Dir]
    ensures Commit(Clash, {}, Preview(Clash, ["Test", "TEST"], rule)).final == map["TEST" := Dir, "test" := Dir]
  {
    var names := ["Test", "TEST"];
    assert names[..1] == ["Test"] && names[..0] == [];
    var first := Move(Clash, "Test", "test");
    assert first == map["TEST" := Dir, "test" := Dir];
    assert Live(Clash, {}, names[..1], rule) == Run([PreviewItem("Test", "test", true, false)], [Renamed], first);
    var snap := Preview(Clash, names, rule);
    assert snap == [PreviewItem("Test", "test", true, false), PreviewItem("TEST", "test", true, false)];
    assert snap[..1] == [snap[0]] && snap[..0] == [];
    assert Commit(Clash, {}, snap[..1]) == Run(snap[..1], [Renamed], first);
  }

  /** With the default options and the Spanish table, "Test" and "TEST" collide as above. */
  lemma DefaultCaseClash()
    ensures Live(Clash, {}, ["Test", "TEST"], Rule(Defaults, Spanish.Table)).outcomes == [Renamed, Conflict]
    ensures Commit(Clash, {}, Preview(Clash, ["Test", "TEST"], Rule(Defaults, Spanish.Table))).outcomes
         == [Renamed, Failed]
    ensures Live(Clash, {}, ["Test", "TEST"], Rule(Defaults, Spanish.Table)).final == map["TEST" := Dir, "test" := Dir]
    ensures Commit(Clash, {}, Preview(Clash, ["Test", "TEST"], Rule(Defaults, Spanish.Table))).final
         == map["TEST" := Dir, "test" := Dir]
  {
    WorkedCases.TestNames();
    CaseClash(Rule(Defaults, Spanish.Table));
  }

  const Taken: Entries := map["Mi Carpeta" := Dir, "mi_carpeta" := Dir]

  /**
   * A folder whose target is already there: "Mi Carpeta" is a conflict and the normal "mi_carpeta" is
   * skipped, on both passes, and the directory is left as it was.
   */
  lemma TargetTaken(rule: string -> string)
    requires rule("Mi Carpeta") == "mi_carpeta" && rule("mi_carpeta") == "mi_carpeta"
    ensures Live(Taken, {}, ["Mi Carpeta", "mi_carpeta"], rule).outcomes == [Conflict, Skipped]
    ensures Live(Taken, {}, ["Mi Carpeta", "mi_carpeta"], rule).final == Taken
    ensures Commit(Taken, {}, Preview(Taken, ["Mi Carpeta", "mi_carpeta"], rule)).outcomes == [Conflict, Skipped]
    ensures Commit(Taken, {}, Preview(Taken, ["Mi Carpeta", "mi_carpeta"], rule)).final == Taken
  {
    var names := ["Mi Carpeta", "mi_carpeta"];
    assert names[..1] == ["Mi Carpeta"] && names[..0] == [];
    assert Live(Taken, {}, names[..1], rule) == Run([PreviewItem("Mi Carpeta", "mi_carpeta", true, true)], [Conflict], Taken);
    var snap := Preview(Taken, names, rule);
    assert snap == [PreviewItem("Mi Carpeta", "mi_carpeta", true, true), PreviewItem("mi_carpeta", "mi_carpeta", false, false)];
    assert snap[..1] == [snap[0]] && snap[..0] == [];
    assert Commit(Taken, {}, snap[..1]) == Run(snap[..1], [Conflict], Taken);
  }

  /** With the default options and the Spanish table: nothing is renamed on either pass. */
  lemma DefaultTargetTaken()
    ensures Live(Taken, {}, ["Mi Carpeta", "mi_carpeta"], Rule(Defaults, Spanish.Table)).outcomes == [Conflict, Skipped]
    ensures Live(Taken, {}, ["Mi Carpeta", "mi_carpeta"], Rule(Defaults, Spanish.Table)).final == Taken
    ensures Commit(Taken, {}, Preview(Taken, ["Mi Carpeta", "mi_carpeta"], Rule(Defaults, Spanish.Table))).outcomes
         == [Conflict, Skipped]
    ensures Commit(Taken, {}, Preview(Taken, ["Mi Carpeta", "mi_carpeta"], Rule(Defaults, Spanish.Table))).final
         == Taken
  {
    WorkedCases.MiCarpeta();
    TargetTaken(Rule(Defaults, Spanish.Table));
  }
}

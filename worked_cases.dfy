/**
 * The documented renaming examples, computed through the model with the Spanish table standing in
 * for the Unicode steps. Each example is split into its stages (fold, substitute, collapse, strip) so
 * that no single proof has to evaluate the whole pipeline on a literal string.
 */
module WorkedCases {
  import opened Text
  import opened Normalizer
  import opened Spanish

  /** Lower-casing then accent stripping of one character under the Spanish table. */
  function FoldChar(c: char, o: Options): char {
    var l := if o.lowercase then LowerChar(c) else c;
    if o.removeAccents then StripChar(l) else l
  }

  /** A whitespace character turned into '_' and then sanitised, as the substitution step does when no two are adjacent. */
  function SubstChar(c: char, o: Options): char {
    Sanitize(if IsSpace(c) then '_' else c, o)
  }

  lemma FoldIs(x: string, o: Options, e: string)
    requires |e| == |x| && forall i :: 0 <= i < |x| ==> e[i] == FoldChar(x[i], o)
    ensures UnicodeFold(x, o, Table) == e
  {
    var l := if o.lowercase then Lower(x) else x;
    assert forall i :: 0 <= i < |x| ==> l[i] == if o.lowercase then LowerChar(x[i]) else x[i];
    var f := UnicodeFold(x, o, Table);
    assert f == if o.removeAccents then StripMarks(l) else l;
    forall i | 0 <= i < |x| ensures f[i] == e[i] {
      if o.removeAccents {
        assert StripMarks(l)[i] == StripChar(l[i]);
      }
    }
  }

  lemma SubstituteIs(s: string, o: Options, e: string)
    requires o.replaceSpaces && o.removeSpecial
    requires forall i :: 0 <= i < |s| - 1 ==> !(IsSpace(s[i]) && IsSpace(s[i + 1]))
    requires |e| == |s| && forall i :: 0 <= i < |s| ==> e[i] == SubstChar(s[i], o)
    ensures Substitute(s, o) == e
  {
    ReplaceRunsPointwise(s, IsSpace, false);
    var spaced := ReplaceRuns(s, IsSpace, false);
    var m := MapChars(spaced, c => Sanitize(c, o));
    assert forall i :: 0 <= i < |s| ==> m[i] == e[i];
  }

  /** A run of '_' between a piece ending in '_' and a piece not starting with one disappears. */
  lemma {:induction false} CollapseGap(a: string, run: string, c: string)
    requires a != [] && a[|a| - 1] == '_' && NoDoubleUnderscore(a)
    requires forall i :: 0 <= i < |run| ==> run[i] == '_'
    requires c == [] || c[0] != '_'
    ensures ReplaceRuns(a + run + c, IsUnderscore, false) == a + ReplaceRuns(c, IsUnderscore, false)
  {
    var x := run + c;
    assert a + run + c == a + x;
    ReplaceRunsAppend(a, x, IsUnderscore, false);
    ReplaceRunsIdentity(a, IsUnderscore, false);
    ReplaceRunsAppend(run, c, IsUnderscore, true);
    SkipRun(run);
    if c != [] {
      assert ReplaceRuns(c, IsUnderscore, true) == [c[0]] + ReplaceRuns(c[1..], IsUnderscore, false);
    }
  }

  lemma {:induction false} SkipRun(run: string)
    requires forall i :: 0 <= i < |run| ==> run[i] == '_'
    ensures ReplaceRuns(run, IsUnderscore, true) == []
    ensures run == [] || IsUnderscore(run[|run| - 1])
  {
    if run != [] {
      SkipRun(run[1..]);
    }
  }

  lemma CollapseOne(a: string, run: string, c: string)
    requires a != [] && a[|a| - 1] == '_' && NoDoubleUnderscore(a)
    requires forall i :: 0 <= i < |run| ==> run[i] == '_'
    requires (c == [] || c[0] != '_') && NoDoubleUnderscore(c)
    ensures ReplaceRuns(a + run + c, IsUnderscore, false) == a + c
  {
    CollapseGap(a, run, c);
    ReplaceRunsIdentity(c, IsUnderscore, false);
  }

  lemma CollapseTwo(a: string, r1: string, b: string, r2: string, c: string)
    requires a != [] && a[|a| - 1] == '_' && NoDoubleUnderscore(a)
    requires b != [] && b[0] != '_' && b[|b| - 1] == '_' && NoDoubleUnderscore(b)
    requires forall i :: 0 <= i < |r1| ==> r1[i] == '_'
    requires forall i :: 0 <= i < |r2| ==> r2[i] == '_'
    requires (c == [] || c[0] != '_') && NoDoubleUnderscore(c)
    ensures ReplaceRuns(a + r1 + (b + r2 + c), IsUnderscore, false) == a + (b + c)
  {
    var tail := b + r2 + c;
    CollapseOne(b, r2, c);
    assert tail[0] == b[0];
    CollapseGap(a, r1, tail);
  }

  lemma NormalizeIs(x: string, o: Options, substituted: string, collapsed: string, e: string)
    requires x != []
    requires Substitute(UnicodeFold(x, o, Table), o) == substituted
    requires ReplaceRuns(substituted, IsUnderscore, false) == collapsed
    requires Strip(collapsed, IsUnderscore) == e && e != []
    ensures Normalize(x, o, Table) == e
  {
  }

  const DotsOn := Defaults.(preserveDots := true)

  lemma FotosFold() ensures UnicodeFold("Fotos Vacaciones (2024)", Defaults, Table) == "fotos vacaciones (2024)" {
    FoldIs("Fotos Vacaciones (2024)", Defaults, "fotos vacaciones (2024)");
  }

  lemma FotosSubstitute() ensures Substitute("fotos vacaciones (2024)", Defaults) == "fotos_vacaciones__2024_" {
    SubstituteIs("fotos vacaciones (2024)", Defaults, "fotos_vacaciones__2024_");
  }

  lemma FotosSteps() ensures Substitute(UnicodeFold("Fotos Vacaciones (2024)", Defaults, Table), Defaults) == "fotos_vacaciones__2024_" {
    FotosFold();
    FotosSubstitute();
  }

  lemma FotosCollapse() ensures ReplaceRuns("fotos_vacaciones__2024_", IsUnderscore, false) == "fotos_vacaciones_2024_" {
    assert "fotos_vacaciones__2024_" == "fotos_vacaciones_" + "_" + "2024_";
    assert "fotos_vacaciones_" + "2024_" == "fotos_vacaciones_2024_";
    CollapseOne("fotos_vacaciones_", "_", "2024_");
  }

  lemma FotosStrip() ensures Strip("fotos_vacaciones_2024_", IsUnderscore) == "fotos_vacaciones_2024" {
    assert "fotos_vacaciones_2024_" == [] + "fotos_vacaciones_2024" + "_";
    StripPadded([], "fotos_vacaciones_2024", "_", IsUnderscore);
  }

  /** "Fotos Vacaciones (2024)" becomes "fotos_vacaciones_2024" with the defaults. */
  lemma FotosVacaciones()
    ensures Normalize("Fotos Vacaciones (2024)", Defaults, Table) == "fotos_vacaciones_2024"
  {
    FotosSteps();
    FotosCollapse();
    FotosStrip();
    NormalizeIs("Fotos Vacaciones (2024)", Defaults, "fotos_vacaciones__2024_", "fotos_vacaciones_2024_", "fotos_vacaciones_2024");
  }

  lemma MusicaFold() ensures UnicodeFold("Música - Rock & Roll", Defaults, Table) == "musica - rock & roll" {
    FoldIs("Música - Rock & Roll", Defaults, "musica - rock & roll");
  }

  lemma MusicaSubstitute() ensures Substitute("musica - rock & roll", Defaults) == "musica___rock___roll" {
    SubstituteIs("musica - rock & roll", Defaults, "musica___rock___roll");
  }

  lemma MusicaSteps() ensures Substitute(UnicodeFold("Música - Rock & Roll", Defaults, Table), Defaults) == "musica___rock___roll" {
    MusicaFold();
    MusicaSubstitute();
  }

  lemma MusicaCollapse() ensures ReplaceRuns("musica___rock___roll", IsUnderscore, false) == "musica_rock_roll" {
    assert "musica___rock___roll" == "musica_" + "__" + ("rock_" + "__" + "roll");
    assert "musica_" + ("rock_" + "roll") == "musica_rock_roll";
    CollapseTwo("musica_", "__", "rock_", "__", "roll");
  }

  lemma MusicaStrip() ensures Strip("musica_rock_roll", IsUnderscore) == "musica_rock_roll" {
    StripFacts("musica_rock_roll", IsUnderscore);
  }

  /** "Música - Rock & Roll" becomes "musica_rock_roll" with the defaults. */
  lemma MusicaRockRoll()
    ensures Normalize("Música - Rock & Roll", Defaults, Table) == "musica_rock_roll"
  {
    MusicaSteps();
    MusicaCollapse();
    MusicaStrip();
    NormalizeIs("Música - Rock & Roll", Defaults, "musica___rock___roll", "musica_rock_roll", "musica_rock_roll");
  }

  lemma CarpetaFold() ensures UnicodeFold("carpeta (2024)", Defaults, Table) == "carpeta (2024)" {
    FoldIs("carpeta (2024)", Defaults, "carpeta (2024)");
  }

  lemma CarpetaSubstitute() ensures Substitute("carpeta (2024)", Defaults) == "carpeta__2024_" {
    SubstituteIs("carpeta (2024)", Defaults, "carpeta__2024_");
  }

  lemma CarpetaSteps() ensures Substitute(UnicodeFold("carpeta (2024)", Defaults, Table), Defaults) == "carpeta__2024_" {
    CarpetaFold();
    CarpetaSubstitute();
  }

  lemma CarpetaCollapse() ensures ReplaceRuns("carpeta__2024_", IsUnderscore, false) == "carpeta_2024_" {
    assert "carpeta__2024_" == "carpeta_" + "_" + "2024_";
    assert "carpeta_" + "2024_" == "carpeta_2024_";
    CollapseOne("carpeta_", "_", "2024_");
  }

  lemma CarpetaStrip() ensures Strip("carpeta_2024_", IsUnderscore) == "carpeta_2024" {
    assert "carpeta_2024_" == [] + "carpeta_2024" + "_";
    StripPadded([], "carpeta_2024", "_", IsUnderscore);
  }

  /** "carpeta (2024)" becomes "carpeta_2024" with the defaults. */
  lemma CarpetaYear()
    ensures Normalize("carpeta (2024)", Defaults, Table) == "carpeta_2024"
  {
    CarpetaSteps();
    CarpetaCollapse();
    CarpetaStrip();
    NormalizeIs("carpeta (2024)", Defaults, "carpeta__2024_", "carpeta_2024_", "carpeta_2024");
  }

  lemma VersionSteps(o: Options, e: string)
    requires o == Defaults || o == DotsOn
    requires e == if o.preserveDots then "version_2.1" else "version_2_1"
    ensures Substitute(UnicodeFold("version 2.1", o, Table), o) == e
  {
    VersionFold(o);
    VersionSubstitute(o, e);
  }

  lemma VersionSubstitute(o: Options, e: string)
    requires o == Defaults || o == DotsOn
    requires e == if o.preserveDots then "version_2.1" else "version_2_1"
    ensures Substitute("version 2.1", o) == e
  {
    SubstituteIs("version 2.1", o, e);
  }

  lemma VersionFold(o: Options)
    requires o == Defaults || o == DotsOn
    ensures UnicodeFold("version 2.1", o, Table) == "version 2.1"
  {
    FoldIs("version 2.1", o, "version 2.1");
  }

  lemma VersionTidy(e: string)
    requires e == "version_2_1" || e == "version_2.1"
    ensures ReplaceRuns(e, IsUnderscore, false) == e
    ensures Strip(e, IsUnderscore) == e
  {
    ReplaceRunsIdentity(e, IsUnderscore, false);
    StripFacts(e, IsUnderscore);
  }

  /** "version 2.1" becomes "version_2_1" with the defaults, and "version_2.1" once dots are kept. */
  lemma VersionDots()
    ensures Normalize("version 2.1", Defaults, Table) == "version_2_1"
    ensures Normalize("version 2.1", DotsOn, Table) == "version_2.1"
  {
    VersionSteps(Defaults, "version_2_1");
    VersionSteps(DotsOn, "version_2.1");
    VersionTidy("version_2_1");
    VersionTidy("version_2.1");
    NormalizeIs("version 2.1", Defaults, "version_2_1", "version_2_1", "version_2_1");
    NormalizeIs("version 2.1", DotsOn, "version_2.1", "version_2.1", "version_2.1");
  }

  lemma TestSteps(x: string)
    requires x == "Test" || x == "TEST"
    ensures Substitute(UnicodeFold(x, Defaults, Table), Defaults) == "test"
  {
    TestFold(x);
    TestSubstitute();
  }

  lemma TestFold(x: string)
    requires x == "Test" || x == "TEST"
    ensures UnicodeFold(x, Defaults, Table) == "test"
  {
    FoldIs(x, Defaults, "test");
  }

  lemma TestSubstitute() ensures Substitute("test", Defaults) == "test" {
    SubstituteIs("test", Defaults, "test");
  }

  /** "Test" and "TEST" both become "test": two folders competing for one name. */
  lemma TestNames()
    ensures Normalize("Test", Defaults, Table) == "test"
    ensures Normalize("TEST", Defaults, Table) == "test"
  {
    TestSteps("Test");
    TestSteps("TEST");
    ReplaceRunsIdentity("test", IsUnderscore, false);
    StripFacts("test", IsUnderscore);
    NormalizeIs("Test", Defaults, "test", "test", "test");
    NormalizeIs("TEST", Defaults, "test", "test", "test");
  }

  lemma MiCarpetaSteps()
    ensures Substitute(UnicodeFold("Mi Carpeta", Defaults, Table), Defaults) == "mi_carpeta"
  {
    MiCarpetaFold();
    MiCarpetaSubstitute();
  }

  lemma MiCarpetaSubstitute() ensures Substitute("mi carpeta", Defaults) == "mi_carpeta" {
    SubstituteIs("mi carpeta", Defaults, "mi_carpeta");
  }

  lemma MiCarpetaFold() ensures UnicodeFold("Mi Carpeta", Defaults, Table) == "mi carpeta" {
    FoldIs("Mi Carpeta", Defaults, "mi carpeta");
  }

  lemma NormalCarpetaSteps()
    ensures Substitute(UnicodeFold("mi_carpeta", Defaults, Table), Defaults) == "mi_carpeta"
  {
    NormalCarpetaFold();
    NormalCarpetaSubstitute();
  }

  lemma NormalCarpetaSubstitute() ensures Substitute("mi_carpeta", Defaults) == "mi_carpeta" {
    SubstituteIs("mi_carpeta", Defaults, "mi_carpeta");
  }

  lemma NormalCarpetaFold() ensures UnicodeFold("mi_carpeta", Defaults, Table) == "mi_carpeta" {
    FoldIs("mi_carpeta", Defaults, "mi_carpeta");
  }

  lemma MiCarpetaTidy()
    ensures ReplaceRuns("mi_carpeta", IsUnderscore, false) == "mi_carpeta"
    ensures Strip("mi_carpeta", IsUnderscore) == "mi_carpeta"
  {
    ReplaceRunsIdentity("mi_carpeta", IsUnderscore, false);
    StripFacts("mi_carpeta", IsUnderscore);
  }

  /** "Mi Carpeta" becomes "mi_carpeta", and "mi_carpeta" is already normal. */
  lemma MiCarpeta()
    ensures Normalize("Mi Carpeta", Defaults, Table) == "mi_carpeta"
    ensures Normalize("mi_carpeta", Defaults, Table) == "mi_carpeta"
  {
    MiCarpetaSteps();
    NormalCarpetaSteps();
    MiCarpetaTidy();
    NormalizeIs("Mi Carpeta", Defaults, "mi_carpeta", "mi_carpeta", "mi_carpeta");
    NormalizeIs("mi_carpeta", Defaults, "mi_carpeta", "mi_carpeta", "mi_carpeta");
  }

  lemma AccentSteps()
    ensures Substitute(UnicodeFold("ñáéíóú", Defaults, Table), Defaults) == "naeiou"
  {
    AccentFold();
    AccentSubstitute();
  }

  lemma AccentFold() ensures UnicodeFold("ñáéíóú", Defaults, Table) == "naeiou" {
    FoldIs("ñáéíóú", Defaults, "naeiou");
  }

  lemma AccentSubstitute() ensures Substitute("naeiou", Defaults) == "naeiou" {
    SubstituteIs("naeiou", Defaults, "naeiou");
  }

  /**
   * "ñáéíóú" becomes "naeiou" with the defaults: every accented letter keeps its base letter, the 'u'
   * of 'ú' included.
   */
  lemma AccentedVowels()
    ensures Normalize("ñáéíóú", Defaults, Table) == "naeiou"
  {
    AccentSteps();
    ReplaceRunsIdentity("naeiou", IsUnderscore, false);
    StripFacts("naeiou", IsUnderscore);
    NormalizeIs("ñáéíóú", Defaults, "naeiou", "naeiou", "naeiou");
  }
}

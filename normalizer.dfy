/**
 * The folder-name normaliser (`normalize_folder_name`, present in both front ends with the same
 * pipeline; they differ only in the options used when none are passed): a fixed pipeline over one
 * string driven by six switches.
 */
module Normalizer {
  import opened Text

  /** The six switches of the options dictionary. */
  datatype Options = Options(
    lowercase: bool,
    removeAccents: bool,
    replaceSpaces: bool,
    removeSpecial: bool,
    preserveNumbers: bool,
    preserveDots: bool)

  /** The defaults: every switch on except `preserve_dots`. */
  const Defaults := Options(
    lowercase := true,
    removeAccents := true,
    replaceSpaces := true,
    removeSpecial := true,
    preserveNumbers := true,
    preserveDots := false)

  /** The name used when the input is empty or nothing survives the pipeline. */
  const Fallback: string := "unnamed_folder"

  /**
   * The two Unicode-table steps, which the model does not spell out: `str.lower()`, and canonical
   * decomposition (NFD) followed by dropping every character of general category Mn.
   */
  datatype UnicodeSteps = UnicodeSteps(lower: string -> string, stripMarks: string -> string)

  /** The regular-expression class the pipeline keeps: `a-zA-Z`, then `0-9`, `\.`, and `_` or `\s`. */
  predicate Allowed(c: char, o: Options)
    ensures Allowed(c, o) ==> c as int < 128 || IsSpace(c)
    ensures IsAsciiLetter(c) ==> Allowed(c, o)
    ensures o.replaceSpaces && IsSpace(c) ==> !Allowed(c, o)
  {
    || IsAsciiLetter(c)
    || (o.preserveNumbers && IsDigit(c))
    || (o.preserveDots && c == '.')
    || (if o.replaceSpaces then c == '_' else IsSpace(c))
  }

  /** What `re.sub('[^' + allowed + ']', '_', name)` does to one character. */
  function Sanitize(c: char, o: Options): (r: char)
    ensures r == c || r == '_'
    ensures r == c <==> Allowed(c, o) || c == '_'
  {
    if Allowed(c, o) then c else '_'
  }

  /** Lower-casing and accent stripping, each when its switch is on. */
  function UnicodeFold(name: string, o: Options, u: UnicodeSteps): (r: string)
    ensures !o.lowercase && !o.removeAccents ==> r == name
    ensures o.lowercase && LowerLeavesNoUpper(u) ==> NoAsciiUpper(r)
    ensures o.removeAccents && MarksKeepAscii(u) ==> NoQuad(r)
  {
    var lowered := if o.lowercase then u.lower(name) else name;
    if o.removeAccents then u.stripMarks(lowered) else lowered
  }

  /** Whitespace runs to '_' (when `replace_spaces`), then characters outside the class to '_' (when `remove_special`). */
  function Substitute(s: string, o: Options): (r: string)
    ensures |r| <= |s|
  {
    var spaced := if o.replaceSpaces then ReplaceRuns(s, IsSpace, false) else s;
    if o.removeSpecial then MapChars(spaced, c => Sanitize(c, o)) else spaced
  }

  /** `re.sub(r'_+', '_', s).strip('_')`. */
  function Tidy(s: string): (r: string)
    ensures r == [] || (r[0] != '_' && r[|r| - 1] != '_')
    ensures NoDoubleUnderscore(r)
    ensures forall i :: 0 <= i < |r| ==> r[i] == '_' || r[i] in s
  {
    CollapsedHasNoDoubleUnderscore(s, false);
    ReplaceRunsChars(s, IsUnderscore, false);
    StripFacts(ReplaceRuns(s, IsUnderscore, false), IsUnderscore);
    Strip(ReplaceRuns(s, IsUnderscore, false), IsUnderscore)
  }

  /** `normalize_folder_name(name, options)`: never empty, no '_' at either end, no "__". */
  function Normalize(name: string, o: Options, u: UnicodeSteps): (r: string)
    ensures name == [] ==> r == Fallback
    ensures r != []
    ensures r[0] != '_' && r[|r| - 1] != '_'
    ensures NoDoubleUnderscore(r)
  {
    if name == [] then Fallback
    else
      var t := Tidy(Substitute(UnicodeFold(name, o, u), o));
      if t == [] then Fallback else t
  }

  /** The normaliser with the options fixed, as the batch passes apply it to each folder name. */
  function Rule(o: Options, u: UnicodeSteps): string -> string {
    n => Normalize(n, o, u)
  }

  /** The characters of the fallback name: ASCII letters and '_'. */
  lemma FallbackChars()
    ensures forall i :: 0 <= i < |Fallback| ==> IsAsciiLetter(Fallback[i]) || Fallback[i] == '_'
  {
    var f := Fallback;
    assert f == ['u', 'n', 'n', 'a', 'm', 'e', 'd', '_', 'f', 'o', 'l', 'd', 'e', 'r'];
  }

  /**
   * The result is the fallback name, or each of its characters is '_' or a character of the
   * substituted string.
   */
  lemma NormalizeDrawsFrom(name: string, o: Options, u: UnicodeSteps)
    ensures var r := Normalize(name, o, u);
      || r == Fallback
      || forall i :: 0 <= i < |r| ==> r[i] == '_' || r[i] in Substitute(UnicodeFold(name, o, u), o)
  {
  }

  /** With `remove_special` on, the substituted string holds only characters of the class and '_'. */
  lemma SubstituteCharset(s: string, o: Options)
    requires o.removeSpecial
    ensures forall i :: 0 <= i < |Substitute(s, o)| ==> Allowed(Substitute(s, o)[i], o) || Substitute(s, o)[i] == '_'
  {
  }

  /**
   * With `remove_special` on, every character of the result is in the allowed class or is the
   * replacement '_' (which can appear even when `replace_spaces` is off).
   */
  lemma NormalizeCharset(name: string, o: Options, u: UnicodeSteps)
    requires o.removeSpecial
    ensures forall i :: 0 <= i < |Normalize(name, o, u)| ==>
      Allowed(Normalize(name, o, u)[i], o) || Normalize(name, o, u)[i] == '_'
  {
    FallbackChars();
    NormalizeDrawsFrom(name, o, u);
    SubstituteCharset(UnicodeFold(name, o, u), o);
  }

  /** With `replace_spaces` on, the substituted string holds no whitespace. */
  lemma SubstituteHasNoSpace(s: string, o: Options)
    requires o.replaceSpaces
    ensures NoSpace(Substitute(s, o))
  {
    var spaced := ReplaceRuns(s, IsSpace, false);
    ReplaceRunsChars(s, IsSpace, false);
    if o.removeSpecial {
      var r := Substitute(s, o);
      forall i | 0 <= i < |r| ensures !IsSpace(r[i]) {
        assert r[i] == Sanitize(spaced[i], o);
      }
    }
  }

  /** With `replace_spaces` on, the result holds no whitespace. */
  lemma NormalizeHasNoSpace(name: string, o: Options, u: UnicodeSteps)
    requires o.replaceSpaces
    ensures NoSpace(Normalize(name, o, u))
  {
    FallbackChars();
    NormalizeDrawsFrom(name, o, u);
    SubstituteHasNoSpace(UnicodeFold(name, o, u), o);
  }

  /**
   * Each character is an ASCII letter, digit, '.', '_' or whitespace: `lower` treats these as ASCII
   * lower-casing does, and NFD neither decomposes nor drops any of them.
   */
  predicate LowerSafe(s: string) {
    forall i :: 0 <= i < |s| ==> IsAsciiLetter(s[i]) || IsDigit(s[i]) || s[i] == '.' || s[i] == '_' || IsSpace(s[i])
  }

  function AsciiLowerChar(c: char): char {
    if IsAsciiUpper(c) then (c as int + 32) as char else c
  }

  /**
   * No EN QUAD (U+2000) and no EM QUAD (U+2001). These two spaces are the only whitespace characters
   * with a canonical decomposition (to U+2002 and U+2003), so NFD rewrites them and never outputs them.
   */
  predicate NoQuad(s: string) {
    forall i :: 0 <= i < |s| ==> s[i] != '\U{2000}' && s[i] != '\U{2001}'
  }

  /** Lower-casing leaves no ASCII capital, and neither does accent stripping after it. */
  ghost predicate LowerLeavesNoUpper(u: UnicodeSteps) {
    && (forall s :: NoAsciiUpper(u.lower(s)))
    && (forall s :: NoAsciiUpper(u.stripMarks(u.lower(s))))
  }

  /** On ASCII letters, digits, '.', '_' and whitespace, `lower` is ASCII lower-casing. */
  ghost predicate LowerIsAscii(u: UnicodeSteps) {
    forall s :: LowerSafe(s) ==> u.lower(s) == MapChars(s, AsciiLowerChar)
  }

  /**
   * Accent stripping changes no ASCII letter, digit, '.', '_' or whitespace other than the two quads,
   * and its output holds no quad.
   */
  ghost predicate MarksKeepAscii(u: UnicodeSteps) {
    && (forall s :: LowerSafe(s) && NoQuad(s) ==> u.stripMarks(s) == s)
    && (forall s :: NoQuad(u.stripMarks(s)))
  }

  /** Everything the lemmas below assume of the Unicode steps; the real Unicode tables meet all of it. */
  ghost predicate Faithful(u: UnicodeSteps) {
    LowerLeavesNoUpper(u) && LowerIsAscii(u) && MarksKeepAscii(u)
  }

  /** Substitution introduces no capital letter: it only writes '_'. */
  lemma SubstituteKeepsNoUpper(s: string, o: Options)
    requires NoAsciiUpper(s)
    ensures NoAsciiUpper(Substitute(s, o))
  {
    var spaced := if o.replaceSpaces then ReplaceRuns(s, IsSpace, false) else s;
    ReplaceRunsChars(s, IsSpace, false);
    assert NoAsciiUpper(spaced);
    if o.removeSpecial {
      var r := Substitute(s, o);
      forall i | 0 <= i < |r| ensures !IsAsciiUpper(r[i]) {
        assert r[i] == Sanitize(spaced[i], o);
      }
    }
  }

  /** With `lowercase` on, the result holds no ASCII capital letter. */
  lemma NormalizeHasNoUpper(name: string, o: Options, u: UnicodeSteps)
    requires o.lowercase && LowerLeavesNoUpper(u)
    ensures NoAsciiUpper(Normalize(name, o, u))
  {
    FallbackChars();
    NormalizeDrawsFrom(name, o, u);
    var folded := UnicodeFold(name, o, u);
    assert NoAsciiUpper(folded);
    SubstituteKeepsNoUpper(folded, o);
  }

  /** Substitution introduces no quad: it only writes '_'. */
  lemma SubstituteKeepsNoQuad(s: string, o: Options)
    requires NoQuad(s)
    ensures NoQuad(Substitute(s, o))
  {
    var spaced := if o.replaceSpaces then ReplaceRuns(s, IsSpace, false) else s;
    ReplaceRunsChars(s, IsSpace, false);
    assert NoQuad(spaced);
    if o.removeSpecial {
      var r := Substitute(s, o);
      forall i | 0 <= i < |r| ensures r[i] != '\U{2000}' && r[i] != '\U{2001}' {
        assert r[i] == Sanitize(spaced[i], o);
      }
    }
  }

  /** With `remove_accents` on, the result holds no quad, since NFD never outputs one. */
  lemma NormalizeHasNoQuad(name: string, o: Options, u: UnicodeSteps)
    requires o.removeAccents && MarksKeepAscii(u)
    ensures NoQuad(Normalize(name, o, u))
  {
    FallbackChars();
    NormalizeDrawsFrom(name, o, u);
    var folded := UnicodeFold(name, o, u);
    assert NoQuad(folded);
    SubstituteKeepsNoQuad(folded, o);
  }

  /** A name in normal form for `o` (and for the Unicode steps `u`). */
  ghost predicate IsNormalForm(s: string, o: Options, u: UnicodeSteps) {
    && s != []
    && s[0] != '_' && s[|s| - 1] != '_'
    && NoDoubleUnderscore(s)
    && (o.lowercase ==> u.lower(s) == s)
    && (o.removeAccents ==> u.stripMarks(s) == s)
    && (o.replaceSpaces ==> NoSpace(s))
    && (o.removeSpecial ==> forall i :: 0 <= i < |s| ==> Allowed(s[i], o) || s[i] == '_')
  }

  /** A name already in normal form is its own normalisation: the renamer leaves it "Sin cambios". */
  lemma NormalFormIsFixed(s: string, o: Options, u: UnicodeSteps)
    requires IsNormalForm(s, o, u)
    ensures Normalize(s, o, u) == s
  {
    assert UnicodeFold(s, o, u) == s;
    var spaced := if o.replaceSpaces then ReplaceRuns(s, IsSpace, false) else s;
    if o.replaceSpaces {
      ReplaceRunsIdentity(s, IsSpace, false);
    }
    assert spaced == s;
    if o.removeSpecial {
      var m := MapChars(s, c => Sanitize(c, o));
      assert forall i :: 0 <= i < |s| ==> m[i] == s[i];
      assert m == s;
    }
    assert Substitute(s, o) == s;
    ReplaceRunsIdentity(s, IsUnderscore, false);
    StripFacts(s, IsUnderscore);
    assert Tidy(s) == s;
  }

  /** `lower` leaves alone a string of ASCII letters, digits, '.', '_' and whitespace with no capital. */
  lemma LowerKeeps(s: string, u: UnicodeSteps)
    requires LowerIsAscii(u) && LowerSafe(s) && NoAsciiUpper(s)
    ensures u.lower(s) == s
  {
    var m := MapChars(s, AsciiLowerChar);
    forall i | 0 <= i < |s| ensures m[i] == s[i] {
      assert m[i] == AsciiLowerChar(s[i]) && !IsAsciiUpper(s[i]);
    }
    assert m == s;
  }

  /** Every character of the result is in the class or is '_', so `lower` sees only ASCII and whitespace. */
  lemma NormalizeIsLowerSafe(name: string, o: Options, u: UnicodeSteps)
    requires o.removeSpecial
    ensures LowerSafe(Normalize(name, o, u))
  {
    NormalizeCharset(name, o, u);
  }

  /** With `remove_special` on, the result is in normal form. */
  lemma NormalizeIsNormalForm(name: string, o: Options, u: UnicodeSteps)
    requires Faithful(u)
    requires o.removeSpecial
    ensures IsNormalForm(Normalize(name, o, u), o, u)
  {
    var r := Normalize(name, o, u);
    NormalizeCharset(name, o, u);
    NormalizeIsLowerSafe(name, o, u);
    if o.lowercase {
      NormalizeHasNoUpper(name, o, u);
      LowerKeeps(r, u);
    }
    if o.replaceSpaces {
      NormalizeHasNoSpace(name, o, u);
    }
    if o.removeAccents {
      NormalizeHasNoQuad(name, o, u);
    }
  }

  /** With `remove_special` on, normalising twice gives what normalising once gives. */
  lemma NormalizeIdempotent(name: string, o: Options, u: UnicodeSteps)
    requires Faithful(u)
    requires o.removeSpecial
    ensures Normalize(Normalize(name, o, u), o, u) == Normalize(name, o, u)
  {
    NormalizeIsNormalForm(name, o, u);
    NormalFormIsFixed(Normalize(name, o, u), o, u);
  }
}

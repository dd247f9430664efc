/**
 * A small stand-in for the Unicode tables, exact on ASCII and on the Spanish letters: lower-casing of
 * A-Z and of the accented capitals, and NFD-with-marks-dropped of the accented letters and of EN QUAD
 * and EM QUAD, which decompose to EN SPACE and EM SPACE. It shows that `Faithful` can be met and
 * fixes the documented examples.
 */
module Spanish {
  import opened Text
  import opened Normalizer

  function LowerChar(c: char): char {
    if IsAsciiUpper(c) then (c as int + 32) as char
    else if c == 'Á' then 'á'
    else if c == 'É' then 'é'
    else if c == 'Í' then 'í'
    else if c == 'Ó' then 'ó'
    else if c == 'Ú' then 'ú'
    else if c == 'Ü' then 'ü'
    else if c == 'Ñ' then 'ñ'
    else c
  }

  /** The base letter left once the combining mark of the decomposition is dropped. */
  function StripChar(c: char): char {
    if c == 'á' then 'a'
    else if c == 'é' then 'e'
    else if c == 'í' then 'i'
    else if c == 'ó' then 'o'
    else if c == 'ú' || c == 'ü' then 'u'
    else if c == 'ñ' then 'n'
    else if c == 'Á' then 'A'
    else if c == 'É' then 'E'
    else if c == 'Í' then 'I'
    else if c == 'Ó' then 'O'
    else if c == 'Ú' || c == 'Ü' then 'U'
    else if c == 'Ñ' then 'N'
    else if c == '\U{2000}' then '\U{2002}'
    else if c == '\U{2001}' then '\U{2003}'
    else c
  }

  function Lower(s: string): string {
    MapChars(s, LowerChar)
  }

  function StripMarks(s: string): string {
    MapChars(s, StripChar)
  }

  const Table := UnicodeSteps(Lower, StripMarks)

  /** The table meets every assumption the normaliser's lemmas make about the Unicode steps. */
  lemma TableIsFaithful()
    ensures Faithful(Table)
  {
    forall s ensures NoAsciiUpper(Lower(s)) {
      assert forall i :: 0 <= i < |s| ==> Lower(s)[i] == LowerChar(s[i]);
    }
    forall s ensures NoAsciiUpper(StripMarks(Lower(s))) {
      assert forall i :: 0 <= i < |s| ==> StripMarks(Lower(s))[i] == StripChar(LowerChar(s[i]));
    }
    forall s | LowerSafe(s) ensures Lower(s) == MapChars(s, AsciiLowerChar) {
      forall i | 0 <= i < |s| ensures Lower(s)[i] == MapChars(s, AsciiLowerChar)[i] {
        assert IsAsciiLetter(s[i]) || IsDigit(s[i]) || s[i] == '.' || s[i] == '_' || IsSpace(s[i]);
        assert Lower(s)[i] == LowerChar(s[i]);
        assert MapChars(s, AsciiLowerChar)[i] == AsciiLowerChar(s[i]);
      }
    }
    forall s | LowerSafe(s) && NoQuad(s) ensures StripMarks(s) == s {
      forall i | 0 <= i < |s| ensures StripMarks(s)[i] == s[i] {
        assert IsAsciiLetter(s[i]) || IsDigit(s[i]) || s[i] == '.' || s[i] == '_' || IsSpace(s[i]);
        assert StripMarks(s)[i] == StripChar(s[i]);
      }
    }
    forall s ensures NoQuad(StripMarks(s)) {
      assert forall i :: 0 <= i < |s| ==> StripMarks(s)[i] == StripChar(s[i]);
    }
  }
}

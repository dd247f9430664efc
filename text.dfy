/** Character classes and the regular-expression and `str` operations the renamer uses. */
module Text {

  /** Python's `str.isspace()`: the characters `\s` matches in a str pattern and that `str.strip()` removes. */
  predicate IsSpace(c: char) {
    || ('\t' <= c <= '\r')
    || ('\U{1C}' <= c <= '\U{1F}')
    || c == ' '
    || c == '\U{85}'
    || c == '\U{A0}'
    || c == '\U{1680}'
    || ('\U{2000}' <= c <= '\U{200A}')
    || c == '\U{2028}'
    || c == '\U{2029}'
    || c == '\U{202F}'
    || c == '\U{205F}'
    || c == '\U{3000}'
  }

  predicate IsUnderscore(c: char) {
    c == '_'
  }

  predicate IsAsciiUpper(c: char) {
    'A' <= c <= 'Z'
  }

  predicate IsAsciiLetter(c: char) {
    'a' <= c <= 'z' || IsAsciiUpper(c)
  }

  predicate IsDigit(c: char) {
    '0' <= c <= '9'
  }

  predicate NoAsciiUpper(s: string) {
    forall i :: 0 <= i < |s| ==> !IsAsciiUpper(s[i])
  }

  predicate NoSpace(s: string) {
    forall i :: 0 <= i < |s| ==> !IsSpace(s[i])
  }

  /** No two adjacent underscores: what `re.sub(r'_+', '_', s)` leaves behind. */
  predicate NoDoubleUnderscore(s: string) {
    forall i :: 0 <= i < |s| - 1 ==> !(s[i] == '_' && s[i + 1] == '_')
  }

  /** Applies `f` to every character. */
  function MapChars(s: string, f: char -> char): (r: string)
    ensures |r| == |s|
  {
    seq(|s|, i requires 0 <= i < |s| => f(s[i]))
  }

  /**
   * `re.sub(P + '+', '_', s)` for a character class P given as the predicate `p`:
   * every maximal run of characters satisfying `p` becomes one '_'.
   * `inRun` says that the character just before `s` was already part of a run.
   */
  function ReplaceRuns(s: string, p: char -> bool, inRun: bool): (r: string)
    ensures |r| <= |s|
  {
    if s == [] then []
    else if p(s[0]) then (if inRun then [] else ['_']) + ReplaceRuns(s[1..], p, true)
    else [s[0]] + ReplaceRuns(s[1..], p, false)
  }

  /** Every character of the result is the replacement '_' or a character of `s` outside the class. */
  lemma {:induction false} ReplaceRunsChars(s: string, p: char -> bool, inRun: bool)
    ensures forall i :: 0 <= i < |ReplaceRuns(s, p, inRun)| ==>
      ReplaceRuns(s, p, inRun)[i] == '_' || (ReplaceRuns(s, p, inRun)[i] in s && !p(ReplaceRuns(s, p, inRun)[i]))
  {
    if s != [] {
      ReplaceRunsChars(s[1..], p, p(s[0]));
      var t := ReplaceRuns(s[1..], p, p(s[0]));
      var r := ReplaceRuns(s, p, inRun);
      assert r == (if p(s[0]) then (if inRun then [] else ['_']) else [s[0]]) + t;
      forall i | 0 <= i < |r| ensures r[i] == '_' || (r[i] in s && !p(r[i])) {
        var k := |r| - |t|;
        if i >= k {
          assert r[i] == t[i - k];
          if r[i] != '_' {
            assert r[i] in s[1..];
          }
        }
      }
    }
  }

  /** Replacing runs of '_' by one '_' leaves no "__", and after a run it cannot start with '_'. */
  lemma {:induction false} CollapsedHasNoDoubleUnderscore(s: string, inRun: bool)
    ensures NoDoubleUnderscore(ReplaceRuns(s, IsUnderscore, inRun))
    ensures inRun ==> ReplaceRuns(s, IsUnderscore, inRun) == [] || ReplaceRuns(s, IsUnderscore, inRun)[0] != '_'
  {
    if s != [] {
      var tail := ReplaceRuns(s[1..], IsUnderscore, IsUnderscore(s[0]));
      CollapsedHasNoDoubleUnderscore(s[1..], IsUnderscore(s[0]));
      var r := ReplaceRuns(s, IsUnderscore, inRun);
      if IsUnderscore(s[0]) {
        assert r == (if inRun then [] else ['_']) + tail;
      } else {
        assert r == [s[0]] + tail;
      }
    }
  }

  /**
   * Where no two `p`-characters are adjacent (and none follows a run), each `p`-character simply
   * becomes '_' and everything else stays.
   */
  lemma {:induction false} ReplaceRunsPointwise(s: string, p: char -> bool, inRun: bool)
    requires forall i :: 0 <= i < |s| - 1 ==> !(p(s[i]) && p(s[i + 1]))
    requires inRun ==> s == [] || !p(s[0])
    ensures |ReplaceRuns(s, p, inRun)| == |s|
    ensures forall i :: 0 <= i < |s| ==> ReplaceRuns(s, p, inRun)[i] == if p(s[i]) then '_' else s[i]
  {
    if s != [] {
      var t := s[1..];
      assert forall i :: 0 <= i < |t| - 1 ==> !(p(t[i]) && p(t[i + 1])) by {
        forall i | 0 <= i < |t| - 1 ensures !(p(t[i]) && p(t[i + 1])) {
          assert t[i] == s[i + 1] && t[i + 1] == s[i + 2];
        }
      }
      if |s| > 1 {
        assert p(s[0]) ==> !p(t[0]);
      }
      ReplaceRunsPointwise(t, p, p(s[0]));
      var r := ReplaceRuns(s, p, inRun);
      assert r == [if p(s[0]) then '_' else s[0]] + ReplaceRuns(t, p, p(s[0]));
      forall i | 0 <= i < |s| ensures r[i] == if p(s[i]) then '_' else s[i] {
        if i > 0 { assert s[i] == t[i - 1]; }
      }
    }
  }

  /** A string in which every `p`-character is a lone '_' is left as it is. */
  lemma ReplaceRunsIdentity(s: string, p: char -> bool, inRun: bool)
    requires forall i :: 0 <= i < |s| && p(s[i]) ==> s[i] == '_'
    requires forall i :: 0 <= i < |s| - 1 ==> !(p(s[i]) && p(s[i + 1]))
    requires inRun ==> s == [] || !p(s[0])
    ensures ReplaceRuns(s, p, inRun) == s
  {
    ReplaceRunsPointwise(s, p, inRun);
  }

  /** One step of run replacement on a string given as its first character and the rest. */
  lemma ReplaceRunsCons(c: char, t: string, p: char -> bool, inRun: bool)
    ensures ReplaceRuns([c] + t, p, inRun)
         == (if p(c) then (if inRun then [] else ['_']) else [c]) + ReplaceRuns(t, p, p(c))
  {
    assert ([c] + t)[0] == c && ([c] + t)[1..] == t;
  }

  /** Run replacement works piecewise: the second piece starts inside a run when the first ends in one. */
  lemma {:induction false} ReplaceRunsAppend(a: string, b: string, p: char -> bool, inRun: bool)
    ensures ReplaceRuns(a + b, p, inRun)
         == ReplaceRuns(a, p, inRun) + ReplaceRuns(b, p, if a == [] then inRun else p(a[|a| - 1]))
  {
    if a != [] {
      var c, rest := a[0], a[1..];
      var head := if p(c) then (if inRun then [] else ['_']) else [c];
      var last := if rest == [] then p(c) else p(rest[|rest| - 1]);
      calc {
        ReplaceRuns(a + b, p, inRun);
        == { assert a + b == [c] + (rest + b); ReplaceRunsCons(c, rest + b, p, inRun); }
        head + ReplaceRuns(rest + b, p, p(c));
        == { ReplaceRunsAppend(rest, b, p, p(c)); }
        head + (ReplaceRuns(rest, p, p(c)) + ReplaceRuns(b, p, last));
        ==
        (head + ReplaceRuns(rest, p, p(c))) + ReplaceRuns(b, p, last);
        == { assert a == [c] + rest; ReplaceRunsCons(c, rest, p, inRun); }
        ReplaceRuns(a, p, inRun) + ReplaceRuns(b, p, last);
      }
      if rest != [] {
        assert rest[|rest| - 1] == a[|a| - 1];
      }
    } else {
      assert a + b == b;
    }
  }

  /** Padding made of `p`-characters on both sides of a string whose ends are not `p` is what `Strip` removes. */
  lemma StripPadded(pre: string, s: string, post: string, p: char -> bool)
    requires forall i :: 0 <= i < |pre| ==> p(pre[i])
    requires forall i :: 0 <= i < |post| ==> p(post[i])
    requires s != [] && !p(s[0]) && !p(s[|s| - 1])
    ensures Strip(pre + s + post, p) == s
  {
    var w := pre + s + post;
    var m, n := |pre|, |pre| + |s|;
    assert w[m] == s[0] && w[n - 1] == s[|s| - 1];
    assert forall i :: 0 <= i < m ==> w[i] == pre[i];
    assert forall i :: n <= i < |w| ==> w[i] == post[i - n];
    var a := LeadingEnd(w, p, 0);
    var b := TrailingStart(w, p, |w|);
    LeadingEndRun(w, p, 0);
    TrailingStartRun(w, p, |w|);
    assert a == m;
    assert b == n;
    assert w[m..n] == s;
  }

  /** End of the run of `p`-characters that starts at `i`: the first index from `i` on whose character is not `p`. */
  function LeadingEnd(s: string, p: char -> bool, i: nat): (k: nat)
    requires i <= |s|
    ensures i <= k <= |s|
    ensures k < |s| ==> !p(s[k])
    decreases |s| - i
  {
    if i == |s| || !p(s[i]) then i else LeadingEnd(s, p, i + 1)
  }

  /** Every character from `i` up to `LeadingEnd` satisfies `p`. */
  lemma {:induction false} LeadingEndRun(s: string, p: char -> bool, i: nat)
    requires i <= |s|
    ensures forall j :: i <= j < LeadingEnd(s, p, i) ==> p(s[j])
    decreases |s| - i
  {
    if i < |s| && p(s[i]) {
      LeadingEndRun(s, p, i + 1);
    }
  }

  /** Start of the run of `p`-characters that ends just before `j`. */
  function TrailingStart(s: string, p: char -> bool, j: nat): (k: nat)
    requires j <= |s|
    ensures k <= j
    ensures 0 < k ==> !p(s[k - 1])
  {
    if j == 0 || !p(s[j - 1]) then j else TrailingStart(s, p, j - 1)
  }

  /** Every character from `TrailingStart` up to `j` satisfies `p`. */
  lemma {:induction false} TrailingStartRun(s: string, p: char -> bool, j: nat)
    requires j <= |s|
    ensures forall i :: TrailingStart(s, p, j) <= i < j ==> p(s[i])
  {
    if j > 0 && p(s[j - 1]) {
      TrailingStartRun(s, p, j - 1);
    }
  }

  /**
   * Python's `s.strip(chars)` (and `s.strip()` with `p` = whitespace): drops the leading and trailing
   * characters that satisfy `p`; what is left neither starts nor ends with one.
   */
  function Strip(s: string, p: char -> bool): (r: string)
    ensures r == [] || (!p(r[0]) && !p(r[|r| - 1]))
  {
    var a := LeadingEnd(s, p, 0);
    if a == |s| then []
    else
      TrailingStartRun(s, p, |s|);
      s[a..TrailingStart(s, p, |s|)]
  }

  /**
   * `Strip` removes only characters satisfying `p`: it empties exactly a string made of them, keeps the
   * middle as it is (so no "__" appears) and leaves alone a string whose ends are not `p`.
   */
  lemma StripFacts(s: string, p: char -> bool)
    ensures Strip(s, p) == [] <==> forall i :: 0 <= i < |s| ==> p(s[i])
    ensures forall i :: 0 <= i < |Strip(s, p)| ==> Strip(s, p)[i] in s
    ensures NoDoubleUnderscore(s) ==> NoDoubleUnderscore(Strip(s, p))
    ensures s != [] && !p(s[0]) && !p(s[|s| - 1]) ==> Strip(s, p) == s
  {
    LeadingEndRun(s, p, 0);
    if LeadingEnd(s, p, 0) < |s| {
      StripMiddle(s, p);
      StripKeepsChars(s, p);
      if !p(s[0]) && !p(s[|s| - 1]) {
        assert LeadingEnd(s, p, 0) == 0;
        assert TrailingStart(s, p, |s|) == |s|;
        assert s[0..|s|] == s;
      }
    }
  }

  /** Each character `Strip` keeps is the character at the same place past the leading run. */
  lemma StripKeepsChars(s: string, p: char -> bool)
    requires LeadingEnd(s, p, 0) < |s|
    ensures forall i :: 0 <= i < |Strip(s, p)| ==> Strip(s, p)[i] in s
    ensures NoDoubleUnderscore(s) ==> NoDoubleUnderscore(Strip(s, p))
  {
    var a := LeadingEnd(s, p, 0);
    StripMiddle(s, p);
    var r := s[a..TrailingStart(s, p, |s|)];
    assert forall i :: 0 <= i < |r| ==> r[i] == s[a + i];
  }

  /** When something is left, what `Strip` keeps is the slice between the two runs, and it is not empty. */
  lemma StripMiddle(s: string, p: char -> bool)
    requires LeadingEnd(s, p, 0) < |s|
    ensures LeadingEnd(s, p, 0) < TrailingStart(s, p, |s|)
    ensures Strip(s, p) == s[LeadingEnd(s, p, 0)..TrailingStart(s, p, |s|)]
  {
    var a := LeadingEnd(s, p, 0);
    assert !p(s[a]);
    TrailingStartRun(s, p, |s|);
  }
}

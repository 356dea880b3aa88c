/** The string operations the bot relies on, with Python's meaning:
    `str.endswith`, `str.strip()` and `str.split()` (both without arguments,
    so on runs of whitespace), built on `str.isspace` for one character. */
module Text {

  /** Python's `str.isspace` for a single character: tab, line feed, vertical
      tab, form feed, carriage return, the four information separators
      U+001C..U+001F, space, NEL, no-break space, and the Unicode space,
      line and paragraph separators. */
  predicate IsSpace(c: char) {
    var n := c as int;
    || n == 0x20
    || 0x09 <= n <= 0x0D
    || 0x1C <= n <= 0x1F
    || n == 0x85
    || n == 0xA0
    || n == 0x1680
    || 0x2000 <= n <= 0x200A
    || n == 0x2028
    || n == 0x2029
    || n == 0x202F
    || n == 0x205F
    || n == 0x3000
  }

  predicate AllSpace(s: string) {
    forall i :: 0 <= i < |s| ==> IsSpace(s[i])
  }

  predicate NoSpace(s: string) {
    forall i :: 0 <= i < |s| ==> !IsSpace(s[i])
  }

  // ---------------------------------------------------------------- endswith

  /** `s.endswith(suffix)`; the empty suffix ends every string. */
  predicate EndsWith(s: string, suffix: string) {
    |suffix| <= |s| && s[|s| - |suffix|..] == suffix
  }

  /** `endswith` agrees with the algebraic notion of a suffix. */
  lemma EndsWithIffSuffix(s: string, suffix: string)
    ensures EndsWith(s, suffix) <==> exists p :: p + suffix == s
  {
    if EndsWith(s, suffix) {
      var p := s[..|s| - |suffix|];
      assert p + suffix == s;
    }
    if exists p :: p + suffix == s {
      var p :| p + suffix == s;
      assert s[|p|..] == suffix;
    }
  }

  // ------------------------------------------------------------------- strip

  /** Drops the leading whitespace. */
  function StripStart(s: string): (r: string)
    ensures |r| <= |s| && r == s[|s| - |r|..]
    ensures AllSpace(s[..|s| - |r|])
    ensures r == [] || !IsSpace(r[0])
    decreases |s|
  {
    if |s| > 0 && IsSpace(s[0]) then
      var r := StripStart(s[1..]);
      assert s[..|s| - |r|] == [s[0]] + s[1..][..|s| - 1 - |r|];
      r
    else
      s
  }

  /** Drops the trailing whitespace. */
  function StripEnd(s: string): (r: string)
    ensures |r| <= |s| && r == s[..|r|]
    ensures AllSpace(s[|r|..])
    ensures r == [] || !IsSpace(r[|r| - 1])
    decreases |s|
  {
    if |s| > 0 && IsSpace(s[|s| - 1]) then
      var r := StripEnd(s[..|s| - 1]);
      assert s[|r|..] == s[..|s| - 1][|r|..] + [s[|s| - 1]];
      r
    else
      s
  }

  /** `r` is `s` with the whitespace run `s[..a]` removed in front and the
      whitespace run after `r` removed behind, and `r` neither starts nor
      ends with whitespace. */
  ghost predicate StrippedAt(s: string, r: string, a: int) {
    && 0 <= a && a + |r| <= |s|
    && r == s[a..a + |r|]
    && AllSpace(s[..a])
    && AllSpace(s[a + |r|..])
    && (r == [] || (!IsSpace(r[0]) && !IsSpace(r[|r| - 1])))
  }

  /** Python's `s.strip()`. */
  function Strip(s: string): (r: string)
    ensures exists a :: StrippedAt(s, r, a)
  {
    var t := StripStart(s);
    var r := StripEnd(t);
    var a := |s| - |t|;
    assert s[a + |r|..] == t[|r|..];
    assert r == s[a..a + |r|];
    assert StrippedAt(s, r, a);
    r
  }

  /** Whitespace cannot be the whole of a non-empty stripped string: if
      `StrippedAt(s, r, a)` holds, then `r` is empty exactly when `s` is all
      whitespace. */
  lemma StrippedEmptyIffAllSpace(s: string, r: string, a: int)
    requires StrippedAt(s, r, a)
    ensures r == [] <==> AllSpace(s)
  {
  }

  /** Every character before index `a` is whitespace. */
  lemma SpaceBefore(s: string, a: int)
    requires 0 <= a <= |s| && AllSpace(s[..a])
    ensures forall i :: 0 <= i < a ==> IsSpace(s[i])
  {
  }

  /** Every character from index `e` on is whitespace. */
  lemma SpaceFrom(s: string, e: int)
    requires 0 <= e <= |s| && AllSpace(s[e..])
    ensures forall i :: e <= i < |s| ==> IsSpace(s[i])
  {
  }

  /** `StrippedAt` describes one string only, so it is a definition of
      `strip` independent of how `Strip` computes it. */
  lemma StrippedAtIsStrip(s: string, r: string, a: int)
    requires StrippedAt(s, r, a)
    ensures r == Strip(s)
  {
    var r' := Strip(s);
    var a' :| StrippedAt(s, r', a');
    StrippedEmptyIffAllSpace(s, r, a);
    StrippedEmptyIffAllSpace(s, r', a');
    SpaceBefore(s, a);
    SpaceBefore(s, a');
    SpaceFrom(s, a + |r|);
    SpaceFrom(s, a' + |r'|);
    if r != [] && r' != [] {
      // Both starts are the first non-space index of s, both ends the last.
      assert s[a] == r[0] && s[a'] == r'[0];
      assert s[a + |r| - 1] == r[|r| - 1] && s[a' + |r'| - 1] == r'[|r'| - 1];
      assert a == a' && |r| == |r'|;
    }
  }

  // ------------------------------------------------------------------- split

  /** Length of the leading run of non-whitespace characters. */
  function WordLen(s: string): (n: nat)
    ensures n <= |s| && NoSpace(s[..n])
    ensures n == |s| || IsSpace(s[n])
    ensures |s| > 0 && !IsSpace(s[0]) ==> n >= 1
  {
    if |s| == 0 || IsSpace(s[0]) then 0
    else
      var n := 1 + WordLen(s[1..]);
      assert s[..n] == [s[0]] + s[1..][..n - 1];
      n
  }

  /** `w` is a maximal run of non-whitespace in `s` starting at index `a`:
      whitespace or an end of `s` on either side. */
  ghost predicate RunAt(s: string, a: int, w: string) {
    && 0 <= a && a + |w| <= |s|
    && w != [] && NoSpace(w)
    && s[a..a + |w|] == w
    && (a == 0 || IsSpace(s[a - 1]))
    && (a + |w| == |s| || IsSpace(s[a + |w|]))
  }

  ghost predicate IsRun(s: string, w: string) {
    exists a :: RunAt(s, a, w)
  }

  /** A leading space starts no run, so the runs are those of the rest. */
  lemma RunsAfterSpace(s: string, w: string)
    requires |s| > 0 && IsSpace(s[0])
    ensures IsRun(s, w) <==> IsRun(s[1..], w)
  {
    var t := s[1..];
    if IsRun(s, w) {
      var a :| RunAt(s, a, w);
      assert a != 0 by { assert w[0] == s[a]; }
      assert t[a - 1..a - 1 + |w|] == s[a..a + |w|];
      assert RunAt(t, a - 1, w);
    }
    if IsRun(t, w) {
      var a :| RunAt(t, a, w);
      assert s[a + 1..a + 1 + |w|] == t[a..a + |w|];
      assert RunAt(s, a + 1, w);
    }
  }

  /** The facts about a leading word `s[..n]` that the lemmas below share. */
  ghost predicate LeadingWord(s: string, n: int) {
    0 < n <= |s| && NoSpace(s[..n]) && (n == |s| || IsSpace(s[n]))
  }

  /** A run at index 0 is the leading word. */
  lemma RunAtStart(s: string, n: nat, w: string)
    requires LeadingWord(s, n) && RunAt(s, 0, w)
    ensures w == s[..n]
  {
    forall m | 0 <= m < n ensures !IsSpace(s[m]) {
      assert s[m] == s[..n][m];
    }
    forall i | 0 <= i < |w| ensures !IsSpace(s[i]) {
      assert s[i] == w[i];
    }
    assert |w| == n;
  }

  /** Any other run lies after the leading word's terminating space. */
  lemma RunPastStart(s: string, n: nat, a: int, w: string)
    requires LeadingWord(s, n) && RunAt(s, a, w) && a != 0
    ensures a > n && RunAt(s[n..], a - n, w)
  {
    var t := s[n..];
    assert IsSpace(s[a - 1]);
    assert a - 1 >= n by {
      forall m | 0 <= m < n ensures !IsSpace(s[m]) {
        assert s[m] == s[..n][m];
      }
    }
    assert t[a - n..a - n + |w|] == s[a..a + |w|];
  }

  /** A run of the rest is a run of the whole. */
  lemma RunOfRest(s: string, n: nat, a: int, w: string)
    requires LeadingWord(s, n) && RunAt(s[n..], a, w)
    ensures RunAt(s, n + a, w)
  {
    var t := s[n..];
    assert a != 0 by { assert w[0] == t[a]; }
    assert s[n + a..n + a + |w|] == t[a..a + |w|];
  }

  /** After a leading word `s[..n]`, the runs are that word and the runs of
      the rest. */
  lemma RunsAfterWord(s: string, n: nat, w: string)
    requires LeadingWord(s, n)
    ensures IsRun(s, w) <==> w == s[..n] || IsRun(s[n..], w)
  {
    if IsRun(s, w) {
      var a :| RunAt(s, a, w);
      if a == 0 {
        RunAtStart(s, n, w);
      } else {
        RunPastStart(s, n, a, w);
      }
    }
    if w == s[..n] {
      assert RunAt(s, 0, w);
    }
    if IsRun(s[n..], w) {
      var a :| RunAt(s[n..], a, w);
      RunOfRest(s, n, a, w);
    }
  }

  /** Python's `s.split()`: the maximal runs of non-whitespace, in order.
      There are none exactly when `s` is all whitespace. */
  function Words(s: string): (ws: seq<string>)
    ensures forall k :: 0 <= k < |ws| ==> ws[k] != [] && NoSpace(ws[k])
    ensures ws == [] <==> AllSpace(s)
    decreases |s|
  {
    if |s| == 0 then []
    else if IsSpace(s[0]) then
      assert AllSpace(s) <==> AllSpace(s[1..]) by {
        if AllSpace(s[1..]) {
          forall i | 0 <= i < |s| ensures IsSpace(s[i]) {
            if i > 0 { assert s[i] == s[1..][i - 1]; }
          }
        }
      }
      Words(s[1..])
    else
      var n := WordLen(s);
      [s[..n]] + Words(s[n..])
  }

  /** The words of `s` are precisely its maximal runs of non-whitespace. */
  lemma {:induction false} WordsAreRuns(s: string)
    ensures forall w :: w in Words(s) <==> IsRun(s, w)
    decreases |s|
  {
    if |s| > 0 {
      if IsSpace(s[0]) {
        WordsAreRuns(s[1..]);
        forall w ensures IsRun(s, w) <==> IsRun(s[1..], w) {
          RunsAfterSpace(s, w);
        }
      } else {
        var n := WordLen(s);
        WordsAreRuns(s[n..]);
        assert Words(s) == [s[..n]] + Words(s[n..]);
        forall w ensures IsRun(s, w) <==> w == s[..n] || IsRun(s[n..], w) {
          RunsAfterWord(s, n, w);
        }
      }
    }
  }

  /** A non-space character at `i`, a space at `j`, a non-space character
      at `k`, in that order. */
  ghost predicate TwoWordsAt(s: string, i: int, j: int, k: int) {
    0 <= i < j < k < |s| && !IsSpace(s[i]) && IsSpace(s[j]) && !IsSpace(s[k])
  }

  /** The shape of a text holding at least two words, stated without
      splitting it. */
  ghost predicate HasTwoWords(s: string) {
    exists i, j, k :: TwoWordsAt(s, i, j, k)
  }

  /** A leading space neither makes nor breaks the two-word shape. */
  lemma TwoWordsDropSpace(s: string)
    requires |s| > 0 && IsSpace(s[0])
    ensures HasTwoWords(s) <==> HasTwoWords(s[1..])
  {
    var t := s[1..];
    if HasTwoWords(t) {
      var i, j, k :| TwoWordsAt(t, i, j, k);
      assert TwoWordsAt(s, i + 1, j + 1, k + 1);
    }
    if HasTwoWords(s) {
      var i, j, k :| TwoWordsAt(s, i, j, k);
      assert TwoWordsAt(t, i - 1, j - 1, k - 1);
    }
  }

  /** After a leading word of length `n`, the two-word shape means some
      non-space character follows the word. */
  lemma TwoWordsAfterWord(s: string, n: nat)
    requires 0 < n <= |s| && NoSpace(s[..n]) && (n == |s| || IsSpace(s[n]))
    ensures HasTwoWords(s) <==> !AllSpace(s[n..])
  {
    var rest := s[n..];
    if !AllSpace(rest) {
      var k :| 0 <= k < |rest| && !IsSpace(rest[k]);
      assert k > 0;
      assert s[0] == s[..n][0];
      assert TwoWordsAt(s, 0, n, n + k);
    }
    if HasTwoWords(s) {
      var i, j, k :| TwoWordsAt(s, i, j, k);
      assert j >= n by {
        forall m | 0 <= m < n ensures !IsSpace(s[m]) {
          assert s[m] == s[..n][m];
        }
      }
      assert !IsSpace(rest[k - n]);
    }
  }

  /** `len(s.split()) >= 2` holds exactly when `s` has the two-word shape. */
  lemma {:induction false} TwoWordsIff(s: string)
    ensures |Words(s)| >= 2 <==> HasTwoWords(s)
    decreases |s|
  {
    if |s| == 0 {
    } else if IsSpace(s[0]) {
      TwoWordsIff(s[1..]);
      TwoWordsDropSpace(s);
    } else {
      var n := WordLen(s);
      assert Words(s) == [s[..n]] + Words(s[n..]);
      TwoWordsAfterWord(s, n);
    }
  }

  /** The two-word shape inside a slice is the shape in the whole string. */
  lemma TwoWordsWiden(s: string, a: int, e: int)
    requires 0 <= a <= e <= |s| && HasTwoWords(s[a..e])
    ensures HasTwoWords(s)
  {
    var i, j, k :| TwoWordsAt(s[a..e], i, j, k);
    assert TwoWordsAt(s, a + i, a + j, a + k);
  }

  /** With only whitespace outside `s[a..e]`, the two-word shape of `s` lies
      inside the slice. */
  lemma TwoWordsNarrow(s: string, a: int, e: int)
    requires 0 <= a <= e <= |s| && HasTwoWords(s)
    requires forall m :: 0 <= m < a ==> IsSpace(s[m])
    requires forall m :: e <= m < |s| ==> IsSpace(s[m])
    ensures HasTwoWords(s[a..e])
  {
    var i, j, k :| TwoWordsAt(s, i, j, k);
    assert a <= i && k < e;
    assert TwoWordsAt(s[a..e], i - a, j - a, k - a);
  }

  lemma StrippedKeepsTwoWords(s: string, r: string, a: int)
    requires StrippedAt(s, r, a)
    ensures HasTwoWords(r) <==> HasTwoWords(s)
  {
    var e := a + |r|;
    assert r == s[a..e];
    if HasTwoWords(s) {
      SpaceBefore(s, a);
      SpaceFrom(s, e);
      TwoWordsNarrow(s, a, e);
    }
    if HasTwoWords(r) {
      TwoWordsWiden(s, a, e);
    }
  }

  /** Stripping first, as the bot does before splitting, does not change
      whether a text has two words. */
  lemma StripKeepsTwoWords(s: string)
    ensures HasTwoWords(Strip(s)) <==> HasTwoWords(s)
  {
    var r := Strip(s);
    var a :| StrippedAt(s, r, a);
    StrippedKeepsTwoWords(s, r, a);
  }

  /** `len(s.strip().split()) >= 2`, as a shape of `s` itself. */
  lemma StrippedWordsIff(s: string)
    ensures |Words(Strip(s))| >= 2 <==> HasTwoWords(s)
  {
    TwoWordsIff(Strip(s));
    StripKeepsTwoWords(s);
  }
}

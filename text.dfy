/** Python `str` operations the parser relies on, over sequences of
    characters: `in`, `strip()`, `split()`, `' '.join(...)`, `replace(kw, '')`,
    `isdigit()`/`int()` on ASCII digits, and the `\d` and `\s` regex classes. */
module Text {

  /** The regex class `\d`, restricted to ASCII digits. */
  predicate IsDigit(c: char) {
    '0' <= c <= '9'
  }

  /** Python's `str.isspace()`, which is also the regex class `\s` and the
      separator set of `str.split()` and `str.strip()`. */
  predicate IsSpace(c: char) {
    || c in {'\t', '\n', '\U{000B}', '\U{000C}', '\r', '\U{001C}', '\U{001D}', '\U{001E}', '\U{001F}', ' '}
    || c in {'\U{0085}', '\U{00A0}', '\U{1680}', '\U{2028}', '\U{2029}', '\U{202F}', '\U{205F}', '\U{3000}'}
    || ('\U{2000}' <= c <= '\U{200A}')
  }

  predicate AllDigits(s: string) {
    forall k :: 0 <= k < |s| ==> IsDigit(s[k])
  }

  predicate NoSpace(s: string) {
    forall k :: 0 <= k < |s| ==> !IsSpace(s[k])
  }

  predicate OccursAt(s: string, sub: string, i: int) {
    0 <= i && i + |sub| <= |s| && s[i..i + |sub|] == sub
  }

  /** Python's `sub in s`. */
  predicate Contains(s: string, sub: string) {
    exists i | 0 <= i <= |s| - |sub| :: OccursAt(s, sub, i)
  }

  /** A string occurs in any text that has it as a factor. */
  lemma ContainsFactor(a: string, w: string, b: string)
    ensures Contains(a + w + b, w)
  {
    assert (a + w + b)[|a|..|a| + |w|] == w;
    assert OccursAt(a + w + b, w, |a|);
  }

  /** A text containing a+w+b contains w. */
  lemma ContainsInner(s: string, a: string, w: string, b: string)
    requires Contains(s, a + w + b)
    ensures Contains(s, w)
  {
    var u := a + w + b;
    var i :| 0 <= i <= |s| - |u| && OccursAt(s, u, i);
    forall k | 0 <= k < |w|
      ensures s[i + |a| + k] == w[k]
    {
      assert s[i + |a| + k] == s[i..i + |u|][|a| + k];
      assert u[|a| + k] == w[k];
    }
    assert s[i + |a|..i + |a| + |w|] == w;
    assert OccursAt(s, w, i + |a|);
  }

  /** A text missing one of w's characters does not contain w. */
  lemma NotContainsWithout(s: string, w: string, j: nat)
    requires j < |w| && w[j] !in s
    ensures !Contains(s, w)
  {
    forall i | 0 <= i <= |s| - |w|
      ensures !OccursAt(s, w, i)
    {
      assert s[i + j] in s;
      assert s[i..i + |w|][j] == s[i + j];
    }
  }

  /** Python's `str.isdigit()` on ASCII text: non-empty and all digits. */
  predicate IsDigitString(s: string) {
    |s| > 0 && AllDigits(s)
  }

  /** Python's `int(s)` for a string of ASCII digits. */
  function DigitsValue(s: string): (n: nat)
    requires AllDigits(s)
  {
    if s == [] then 0 else DigitsValue(s[..|s| - 1]) * 10 + (s[|s| - 1] as int - '0' as int)
  }

  /** The value of a two-digit string. */
  lemma DigitsValuePair(a: char, b: char)
    requires IsDigit(a) && IsDigit(b)
    ensures DigitsValue([a, b]) == (a as int - '0' as int) * 10 + (b as int - '0' as int)
  {
    assert [a][..0] == [];
    assert DigitsValue([a]) == DigitsValue([]) * 10 + (a as int - '0' as int);
    assert [a, b][..1] == [a];
  }

  /** The end of the maximal run of digits that starts at i (i itself when s[i] is no digit). */
  function DigitRunEnd(s: string, i: nat): (j: nat)
    requires i <= |s|
    ensures i <= j <= |s|
    ensures forall k :: i <= k < j ==> IsDigit(s[k])
    ensures j < |s| ==> !IsDigit(s[j])
    decreases |s| - i
  {
    if i < |s| && IsDigit(s[i]) then DigitRunEnd(s, i + 1) else i
  }

  /** A run of digits from i to j that is not followed by a digit is the maximal run at i. */
  lemma {:induction false} DigitRunEndIs(s: string, i: nat, j: nat)
    requires i <= j <= |s|
    requires forall k :: i <= k < j ==> IsDigit(s[k])
    requires j == |s| || !IsDigit(s[j])
    ensures DigitRunEnd(s, i) == j
    decreases j - i
  {
    if i < j {
      DigitRunEndIs(s, i + 1, j);
    }
  }

  /** The end of the run of whitespace that starts at i (regex `\s*`). */
  function SpaceRunEnd(s: string, i: nat): (j: nat)
    requires i <= |s|
    ensures i <= j <= |s|
    ensures forall k :: i <= k < j ==> IsSpace(s[k])
    ensures j < |s| ==> !IsSpace(s[j])
    decreases |s| - i
  {
    if i < |s| && IsSpace(s[i]) then SpaceRunEnd(s, i + 1) else i
  }

  predicate HasAt(s: string, i: nat, w: string) {
    i + |w| <= |s| && s[i..i + |w|] == w
  }

  /** Python's `str.lstrip()`. */
  function TrimLeft(s: string): (r: string)
    ensures |r| <= |s| && r == s[|s| - |r|..]
    ensures r == [] || !IsSpace(r[0])
    ensures forall k :: 0 <= k < |s| - |r| ==> IsSpace(s[k])
  {
    if |s| > 0 && IsSpace(s[0]) then TrimLeft(s[1..]) else s
  }

  /** Python's `str.rstrip()`. */
  function TrimRight(s: string): (r: string)
    ensures |r| <= |s| && r == s[..|r|]
    ensures r == [] || !IsSpace(r[|r| - 1])
    ensures forall k :: |r| <= k < |s| ==> IsSpace(s[k])
  {
    if |s| > 0 && IsSpace(s[|s| - 1]) then TrimRight(s[..|s| - 1]) else s
  }

  /** Python's `str.strip()`: drops the whitespace at both ends and nothing else. */
  function Strip(s: string): (r: string)
    ensures |r| <= |s|
    ensures r == [] || (!IsSpace(r[0]) && !IsSpace(r[|r| - 1]))
    ensures r == TrimRight(TrimLeft(s))
  {
    TrimRight(TrimLeft(s))
  }

  /** A text without whitespace at either end is its own strip. */
  lemma StripUnchanged(s: string)
    requires s == [] || (!IsSpace(s[0]) && !IsSpace(s[|s| - 1]))
    ensures Strip(s) == s
  {
  }

  /** Dropping a first character at which w does not start keeps the occurrences of w. */
  lemma ContainsDropFirst(s: string, w: string)
    requires |s| > 0 && !OccursAt(s, w, 0)
    ensures Contains(s, w) <==> Contains(s[1..], w)
  {
    if Contains(s, w) {
      var j :| 0 <= j <= |s| - |w| && OccursAt(s, w, j);
      assert s[1..][j - 1..j - 1 + |w|] == s[j..j + |w|];
      assert OccursAt(s[1..], w, j - 1);
    }
    if Contains(s[1..], w) {
      var j :| 0 <= j <= |s[1..]| - |w| && OccursAt(s[1..], w, j);
      assert s[1..][j..j + |w|] == s[j + 1..j + 1 + |w|];
      assert OccursAt(s, w, j + 1);
    }
  }

  /** Dropping a last character at which w does not end keeps the occurrences of w. */
  lemma ContainsDropLast(s: string, w: string)
    requires |s| > 0 && !OccursAt(s, w, |s| - |w|)
    ensures Contains(s, w) <==> Contains(s[..|s| - 1], w)
  {
    var t := s[..|s| - 1];
    if Contains(s, w) {
      var j :| 0 <= j <= |s| - |w| && OccursAt(s, w, j);
      assert t[j..j + |w|] == s[j..j + |w|];
      assert OccursAt(t, w, j);
    }
    if Contains(t, w) {
      var j :| 0 <= j <= |t| - |w| && OccursAt(t, w, j);
      assert t[j..j + |w|] == s[j..j + |w|];
      assert OccursAt(s, w, j);
    }
  }

  lemma {:induction false} TrimLeftKeepsWord(s: string, w: string)
    requires |w| > 0 && !IsSpace(w[0])
    ensures Contains(TrimLeft(s), w) <==> Contains(s, w)
    decreases |s|
  {
    if |s| > 0 && IsSpace(s[0]) {
      assert !OccursAt(s, w, 0) by {
        if |w| <= |s| { assert s[0..|w|][0] == s[0]; }
      }
      ContainsDropFirst(s, w);
      TrimLeftKeepsWord(s[1..], w);
    }
  }

  lemma {:induction false} TrimRightKeepsWord(s: string, w: string)
    requires |w| > 0 && !IsSpace(w[|w| - 1])
    ensures Contains(TrimRight(s), w) <==> Contains(s, w)
    decreases |s|
  {
    if |s| > 0 && IsSpace(s[|s| - 1]) {
      assert !OccursAt(s, w, |s| - |w|) by {
        if |w| <= |s| { assert s[|s| - |w|..|s|][|w| - 1] == s[|s| - 1]; }
      }
      ContainsDropLast(s, w);
      TrimRightKeepsWord(s[..|s| - 1], w);
    }
  }

  /** Stripping keeps every occurrence of a word that neither starts nor ends with whitespace. */
  lemma StripKeepsWord(s: string, w: string)
    requires |w| > 0 && !IsSpace(w[0]) && !IsSpace(w[|w| - 1])
    ensures Contains(Strip(s), w) <==> Contains(s, w)
  {
    TrimLeftKeepsWord(s, w);
    TrimRightKeepsWord(TrimLeft(s), w);
  }

  /** Python's `s.replace(kw, '')`: drops the non-overlapping occurrences of kw, left to right. */
  function RemoveAll(s: string, kw: string): (r: string)
    requires |kw| > 0
    ensures |r| <= |s|
    decreases |s|
  {
    if |s| == 0 then []
    else if HasAt(s, 0, kw) then RemoveAll(s[|kw|..], kw)
    else [s[0]] + RemoveAll(s[1..], kw)
  }

  /** The maximal non-whitespace prefix of s. */
  function Token(s: string): (t: string)
    ensures |t| <= |s| && t == s[..|t|] && NoSpace(t)
    ensures |t| < |s| ==> IsSpace(s[|t|])
    ensures |s| > 0 && !IsSpace(s[0]) ==> |t| > 0
  {
    if |s| > 0 && !IsSpace(s[0]) then [s[0]] + Token(s[1..]) else []
  }

  /** Python's `s.split()`: the maximal whitespace-free runs of s, in order. */
  function Split(s: string): (ws: seq<string>)
    decreases |s|
  {
    var t := TrimLeft(s);
    if t == [] then []
    else
      var w := Token(t);
      [w] + Split(t[|w|..])
  }

  /** The words of a split are non-empty and hold no whitespace. */
  lemma {:induction false} SplitWords(s: string)
    ensures forall k :: 0 <= k < |Split(s)| ==> |Split(s)[k]| > 0 && NoSpace(Split(s)[k])
    decreases |s|
  {
    var t := TrimLeft(s);
    if t != [] {
      var w := Token(t);
      var rest := t[|w|..];
      SplitWords(rest);
      SplitHead(s);
      WordsCons(w, Split(rest));
    }
  }

  /** A non-empty whitespace-free word in front of such words. */
  lemma WordsCons(w: string, ws: seq<string>)
    requires |w| > 0 && NoSpace(w)
    requires forall k :: 0 <= k < |ws| ==> |ws[k]| > 0 && NoSpace(ws[k])
    ensures forall k :: 0 <= k < |[w] + ws| ==> |([w] + ws)[k]| > 0 && NoSpace(([w] + ws)[k])
  {
    forall k | 0 <= k < |[w] + ws|
      ensures |([w] + ws)[k]| > 0 && NoSpace(([w] + ws)[k])
    {
      if k > 0 {
        assert ([w] + ws)[k] == ws[k - 1];
      }
    }
  }

  /** The split of text with a word is its first word followed by the split of the rest. */
  lemma SplitHead(s: string)
    requires TrimLeft(s) != []
    ensures var t := TrimLeft(s);
            |Token(t)| > 0 && Split(s) == [Token(t)] + Split(t[|Token(t)|..])
  {
    assert !IsSpace(TrimLeft(s)[0]);
  }

  /** Python's `' '.join(ws)`. */
  function JoinSpace(ws: seq<string>): string {
    if ws == [] then []
    else if |ws| == 1 then ws[0]
    else ws[0] + " " + JoinSpace(ws[1..])
  }

  /** Text whose only whitespace characters are single spaces between words. */
  predicate Normalized(s: string) {
    && (s == [] || (!IsSpace(s[0]) && !IsSpace(s[|s| - 1])))
    && (forall k :: 0 <= k < |s| && IsSpace(s[k]) ==> s[k] == ' ')
    && (forall k :: 0 <= k < |s| - 1 ==> !(IsSpace(s[k]) && IsSpace(s[k + 1])))
  }

  /** Joining non-empty, whitespace-free words with single spaces gives normalized text. */
  lemma {:induction false} JoinNormalized(ws: seq<string>)
    requires forall k :: 0 <= k < |ws| ==> |ws[k]| > 0 && NoSpace(ws[k])
    ensures Normalized(JoinSpace(ws))
    ensures |ws| > 0 ==> |JoinSpace(ws)| > 0
  {
    if |ws| > 1 {
      JoinNormalized(ws[1..]);
      var w, rest := ws[0], JoinSpace(ws[1..]);
      var s := w + " " + rest;
      assert s == JoinSpace(ws);
      forall k | 0 <= k < |s| - 1
        ensures !(IsSpace(s[k]) && IsSpace(s[k + 1]))
      {
        if k < |w| {
          assert s[k] == w[k];
        } else if k == |w| {
          assert s[k + 1] == rest[0];
        } else {
          assert s[k] == rest[k - |w| - 1] && s[k + 1] == rest[k - |w|];
        }
      }
      forall k | 0 <= k < |s|
        ensures IsSpace(s[k]) ==> s[k] == ' '
      {
        if k < |w| {
          assert s[k] == w[k];
        } else if k > |w| {
          assert s[k] == rest[k - |w| - 1];
        }
      }
      assert s[|s| - 1] == rest[|rest| - 1];
    }
  }

  lemma JoinCons(w: string, ws: seq<string>)
    requires ws != []
    ensures JoinSpace([w] + ws) == w + " " + JoinSpace(ws)
  {
    assert ([w] + ws)[1..] == ws;
  }

  lemma TrimLeftShortens(s: string)
    requires |s| > 0 && IsSpace(s[0])
    ensures |TrimLeft(s)| < |s|
  {
    assert TrimLeft(s) == TrimLeft(s[1..]);
  }

  /** One step of Split: the first token, then the split of what follows it. */
  lemma SplitStep(s: string) returns (w: string, rest: string)
    requires TrimLeft(s) != []
    ensures Split(s) == [w] + Split(rest)
    ensures |w| + |rest| == |TrimLeft(s)| && |w| > 0
    ensures rest == [] || |TrimLeft(rest)| < |rest|
  {
    var t := TrimLeft(s);
    w := Token(t);
    rest := t[|w|..];
    if rest != [] {
      TrimLeftShortens(rest);
    }
  }

  /** The split words plus the single spaces between them fit in the text. */
  lemma {:induction false} JoinSplitLength(s: string)
    ensures |JoinSpace(Split(s))| <= |TrimLeft(s)|
    decreases |s|
  {
    if TrimLeft(s) != [] {
      var w, rest := SplitStep(s);
      var ws := Split(rest);
      JoinSplitLength(rest);
      if ws != [] {
        JoinCons(w, ws);
      } else {
        assert JoinSpace([w]) == w;
      }
    }
  }
}

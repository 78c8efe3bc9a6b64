/**
 * The subset of Python's `str` methods that the bot relies on, with Python's
 * semantics: `isspace`, `split()` with no separator, `" ".join`, `strip`,
 * `rstrip`, `startswith`, `find`, `rfind`, `in`, `replace`, slicing with
 * negative and out-of-range bounds, and ASCII versions of `casefold`,
 * `isupper` and `capitalize`.
 */
module PyStr {

  /** Python's `str.isspace()` character set (used by `split()` and `strip()` with no argument). */
  predicate IsSpace(c: char) {
    c == ' ' || ('\t' <= c <= '\r') || ('\U{1C}' <= c <= '\U{1F}')
    || c == '\U{85}' || c == '\U{A0}' || c == '\U{1680}'
    || ('\U{2000}' <= c <= '\U{200A}') || c == '\U{2028}' || c == '\U{2029}'
    || c == '\U{202F}' || c == '\U{205F}' || c == '\U{3000}'
  }

  /** A non-empty run of non-whitespace characters, as `split()` returns them. */
  predicate IsWord(w: string) {
    |w| > 0 && forall k :: 0 <= k < |w| ==> !IsSpace(w[k])
  }

  predicate AllWords(ws: seq<string>) {
    forall k :: 0 <= k < |ws| ==> IsWord(ws[k])
  }

  /** The end of the run of non-whitespace characters of `s` that starts at `i`. */
  function WordEnd(s: string, i: nat): (j: nat)
    requires i <= |s|
    ensures i <= j <= |s|
    ensures forall k :: i <= k < j ==> !IsSpace(s[k])
    ensures j == |s| || IsSpace(s[j])
    decreases |s| - i
  {
    if i == |s| || IsSpace(s[i]) then i else WordEnd(s, i + 1)
  }

  /** `s.split()`: the maximal runs of non-whitespace characters, in order. */
  function Words(s: string): (ws: seq<string>)
    ensures AllWords(ws)
    decreases |s|
  {
    if s == [] then []
    else if IsSpace(s[0]) then Words(s[1..])
    else
      var j := WordEnd(s, 0);
      [s[..j]] + Words(s[j..])
  }

  /** `" ".join(ws)`. */
  function JoinSpace(ws: seq<string>): string {
    if ws == [] then []
    else if |ws| == 1 then ws[0]
    else ws[0] + " " + JoinSpace(ws[1..])
  }

  lemma WordsOfWordThen(w: string, t: string)
    requires IsWord(w)
    requires t == [] || IsSpace(t[0])
    ensures Words(w + t) == [w] + Words(t)
  {
    var s := w + t;
    var j := WordEnd(s, 0);
    assert forall k :: 0 <= k < |w| ==> s[k] == w[k];
    assert t != [] ==> s[|w|] == t[0];
    assert j == |w|;
    assert s[..j] == w && s[j..] == t;
  }

  /** Splitting a single-space join of words gives the words back. */
  lemma {:induction false} WordsOfJoinSpace(ws: seq<string>)
    requires AllWords(ws)
    ensures Words(JoinSpace(ws)) == ws
  {
    if |ws| == 0 {
    } else if |ws| == 1 {
      WordsOfWordThen(ws[0], []);
      assert ws[0] + [] == ws[0];
    } else {
      var rest := JoinSpace(ws[1..]);
      assert AllWords(ws[1..]);
      WordsOfJoinSpace(ws[1..]);
      assert JoinSpace(ws) == ws[0] + (" " + rest);
      WordsOfWordThen(ws[0], " " + rest);
      assert (" " + rest)[1..] == rest;
      assert [ws[0]] + ws[1..] == ws;
    }
  }

  /** The single-space join of words has no whitespace at either end, and each
      whitespace character in it is a lone `' '`. */
  lemma {:induction false} JoinSpaceShape(ws: seq<string>)
    requires AllWords(ws)
    ensures var r := JoinSpace(ws);
      (|ws| > 0 <==> |r| > 0)
      && (|r| > 0 ==> !IsSpace(r[0]) && !IsSpace(r[|r| - 1]))
      && (forall i :: 0 <= i < |r| && IsSpace(r[i]) ==> r[i] == ' ')
      && (forall i :: 0 <= i < |r| - 1 ==> !(IsSpace(r[i]) && IsSpace(r[i + 1])))
  {
    if |ws| == 0 {
    } else if |ws| == 1 {
    } else {
      var w := ws[0];
      assert AllWords(ws[1..]);
      JoinSpaceShape(ws[1..]);
      var rest := JoinSpace(ws[1..]);
      var r := JoinSpace(ws);
      assert r == w + " " + rest;
      assert |rest| > 0;
      assert r[|r| - 1] == rest[|rest| - 1];
      assert forall i :: 0 <= i < |w| ==> r[i] == w[i];
      assert r[|w|] == ' ' && r[|w| + 1] == rest[0];
      assert forall i :: |w| < i < |r| ==> r[i] == rest[i - |w| - 1];
    }
  }

  /** `s.lstrip()`. */
  function LStrip(s: string): (r: string)
    ensures |r| <= |s| && r == s[|s| - |r|..]
    ensures r == [] || !IsSpace(r[0])
    ensures forall k :: 0 <= k < |s| - |r| ==> IsSpace(s[k])
  {
    if s == [] || !IsSpace(s[0]) then s else LStrip(s[1..])
  }

  /** `s.rstrip()`. */
  function RStrip(s: string): (r: string)
    ensures |r| <= |s| && r == s[..|r|]
    ensures r == [] || !IsSpace(r[|r| - 1])
    ensures forall k :: |r| <= k < |s| ==> IsSpace(s[k])
  {
    if s == [] || !IsSpace(s[|s| - 1]) then s else RStrip(s[..|s| - 1])
  }

  /** `s.strip()`. */
  function Strip(s: string): (r: string)
    ensures r == [] || (!IsSpace(r[0]) && !IsSpace(r[|r| - 1]))
  {
    RStrip(LStrip(s))
  }

  /** `s.rstrip(c)` for a single character `c`. */
  function RStripChar(s: string, c: char): (r: string)
    ensures |r| <= |s| && r == s[..|r|]
    ensures r == [] || r[|r| - 1] != c
    ensures forall k :: |r| <= k < |s| ==> s[k] == c
  {
    if s == [] || s[|s| - 1] != c then s else RStripChar(s[..|s| - 1], c)
  }

  /** `sub` occurs in `s` at index `i`. */
  predicate OccursAt(s: string, sub: string, i: int) {
    0 <= i <= |s| - |sub| && s[i..i + |sub|] == sub
  }

  /** `s.find(sub, i)` for `0 <= i`: the first index at or after `i` where `sub` occurs, or -1. */
  function FindFrom(s: string, sub: string, i: nat): (r: int)
    ensures r == -1 || (i <= r && OccursAt(s, sub, r))
    ensures forall k :: i <= k && (r == -1 || k < r) ==> !OccursAt(s, sub, k)
    decreases |s| - i
  {
    if i + |sub| > |s| then -1
    else if s[i..i + |sub|] == sub then i
    else FindFrom(s, sub, i + 1)
  }

  /** `s.find(sub)`: the first index where `sub` occurs, or -1. */
  function Find(s: string, sub: string): (r: int)
    ensures r == -1 || OccursAt(s, sub, r)
    ensures forall k :: 0 <= k && (r == -1 || k < r) ==> !OccursAt(s, sub, k)
  {
    FindFrom(s, sub, 0)
  }

  /** `s.rfind(c)` for a one-character string: the last index of `c`, or -1. */
  function RFindChar(s: string, c: char): (r: int)
    ensures -1 <= r < |s|
    ensures r >= 0 ==> s[r] == c
    ensures forall k :: r < k < |s| ==> s[k] != c
  {
    if s == [] then -1
    else if s[|s| - 1] == c then |s| - 1
    else RFindChar(s[..|s| - 1], c)
  }

  /** `s.startswith(p)`. */
  predicate StartsWith(s: string, p: string) {
    |p| <= |s| && s[..|p|] == p
  }

  /** `old in s` is `s.find(old) != -1`. */
  predicate Contains(s: string, sub: string) {
    Find(s, sub) != -1
  }

  /** `s.replace(old, new, 1)`. */
  function ReplaceFirst(s: string, target: string, replacement: string): string {
    var i := Find(s, target);
    if i == -1 then s else s[..i] + replacement + s[i + |target|..]
  }

  /** `s.replace(c, t)` for a one-character `c`: every `c` becomes `t`. */
  function ReplaceChar(s: string, c: char, t: string): (r: string)
    ensures c !in t ==> c !in r
    ensures c !in s ==> r == s
    ensures |s| > 0 && s[0] != c ==> |r| > 0 && r[0] == s[0]
    ensures |s| > 0 && s[|s| - 1] != c ==> |r| > 0 && r[|r| - 1] == s[|s| - 1]
    ensures forall x :: x in r && x !in t ==> x in s
  {
    if s == [] then []
    else (if s[0] == c then t else [s[0]]) + ReplaceChar(s[1..], c, t)
  }

  /** `s.split(c)` for a one-character separator: the pieces between the separators, empty ones included. */
  function Split(s: string, c: char): (r: seq<string>)
    ensures |r| > 0
    ensures forall i :: 0 <= i < |r| ==> c !in r[i]
  {
    if s == [] then [[]]
    else
      var init, last := Split(s[..|s| - 1], c), s[|s| - 1];
      if last == c then init + [[]]
      else init[..|init| - 1] + [init[|init| - 1] + [last]]
  }

  /** `c.join(ws)`. */
  function JoinWith(ws: seq<string>, c: char): string {
    if ws == [] then []
    else if |ws| == 1 then ws[0]
    else JoinWith(ws[..|ws| - 1], c) + [c] + ws[|ws| - 1]
  }

  /** Joining the pieces of a split with the separator gives the string back. */
  lemma {:induction false} JoinWithSplit(s: string, c: char)
    ensures JoinWith(Split(s, c), c) == s
  {
    if s != [] {
      var n := |s| - 1;
      JoinWithSplit(s[..n], c);
      if s[n] == c {
        JoinWithEmptyLast(Split(s[..n], c), c);
      } else {
        JoinWithExtendLast(Split(s[..n], c), c, s[n]);
      }
      assert s == s[..n] + [s[n]];
    }
  }

  /** A new empty last piece adds one separator to the joined string. */
  lemma JoinWithEmptyLast(ws: seq<string>, c: char)
    requires |ws| > 0
    ensures JoinWith(ws + [[]], c) == JoinWith(ws, c) + [c]
  {
    assert (ws + [[]])[..|ws|] == ws;
  }

  /** A character added to the last piece is added to the end of the joined string. */
  lemma JoinWithExtendLast(ws: seq<string>, c: char, x: char)
    requires |ws| > 0
    ensures JoinWith(ws[..|ws| - 1] + [ws[|ws| - 1] + [x]], c) == JoinWith(ws, c) + [x]
  {
    var n := |ws| - 1;
    var r := ws[..n] + [ws[n] + [x]];
    if n > 0 {
      assert r[..n] == ws[..n];
      assert JoinWith(r, c) == JoinWith(ws[..n], c) + [c] + (ws[n] + [x]);
    }
  }

  /** A string without the separator splits into itself alone. */
  lemma {:induction false} SplitWithout(w: string, c: char)
    requires c !in w
    ensures Split(w, c) == [w]
  {
    if w != [] {
      SplitWithout(w[..|w| - 1], c);
      assert w == w[..|w| - 1] + [w[|w| - 1]];
    }
  }

  /** Splitting `j + [c] + w` splits `j` and adds `w` as the last piece when `w` has no separator. */
  lemma {:induction false} SplitSeparatorThen(j: string, c: char, w: string)
    requires c !in w
    ensures Split(j + [c] + w, c) == Split(j, c) + [w]
  {
    var s := j + [c] + w;
    if w == [] {
      assert s[..|s| - 1] == j;
    } else {
      var w' := w[..|w| - 1];
      assert c !in w';
      SplitSeparatorThen(j, c, w');
      assert s[..|s| - 1] == j + [c] + w';
      assert w == w' + [w[|w| - 1]];
    }
  }

  /** Splitting a join of pieces without the separator gives the pieces back. */
  lemma {:induction false} SplitJoinWith(ws: seq<string>, c: char)
    requires |ws| > 0
    requires forall i :: 0 <= i < |ws| ==> c !in ws[i]
    ensures Split(JoinWith(ws, c), c) == ws
  {
    if |ws| == 1 {
      SplitWithout(ws[0], c);
    } else {
      var n := |ws| - 1;
      SplitJoinWith(ws[..n], c);
      SplitSeparatorThen(JoinWith(ws[..n], c), c, ws[n]);
      assert ws[..n] + [ws[n]] == ws;
    }
  }

  /** Python's clamping of a slice bound against a length `n` (negative bounds count from the end). */
  function SliceBound(i: int, n: nat): (r: nat)
    ensures r <= n
    ensures 0 <= i <= n ==> r == i
  {
    if i < 0 then (if i + n < 0 then 0 else i + n)
    else if i > n then n
    else i
  }

  /** `s[start:stop]` with Python's slice semantics. */
  function Slice(s: string, start: int, stop: int): (r: string)
    ensures 0 <= start <= stop <= |s| ==> r == s[start..stop]
    ensures |r| <= |s|
  {
    var a, b := SliceBound(start, |s|), SliceBound(stop, |s|);
    if a < b then s[a..b] else []
  }

  predicate IsAsciiUpper(c: char) { 'A' <= c <= 'Z' }
  predicate IsAsciiLower(c: char) { 'a' <= c <= 'z' }

  function LowerChar(c: char): (d: char)
    ensures !IsAsciiUpper(d)
  {
    if IsAsciiUpper(c) then (c as int + 32) as char else c
  }

  function UpperChar(c: char): (d: char)
    ensures !IsAsciiLower(d)
  {
    if IsAsciiLower(c) then (c as int - 32) as char else c
  }

  /** `s.casefold()` on ASCII letters (other characters are left as they are). */
  function CaseFold(s: string): (r: string)
    ensures |r| == |s|
    ensures forall k :: 0 <= k < |r| ==> r[k] == LowerChar(s[k])
  {
    seq(|s|, k requires 0 <= k < |s| => LowerChar(s[k]))
  }

  /** `s.isupper()` on ASCII letters: some letter is cased and none is lower-case. */
  predicate IsUpper(s: string) {
    (exists k :: 0 <= k < |s| && IsAsciiUpper(s[k]))
    && (forall k :: 0 <= k < |s| ==> !IsAsciiLower(s[k]))
  }

  /** `s.capitalize()` on ASCII letters: the first character upper-case, the rest lower-case. */
  function Capitalize(s: string): (r: string)
    ensures |r| == |s|
    ensures |s| > 0 ==> r[0] == UpperChar(s[0])
    ensures forall k :: 1 <= k < |r| ==> r[k] == LowerChar(s[k])
  {
    if s == [] then [] else [UpperChar(s[0])] + CaseFold(s[1..])
  }

  predicate IsDigit(c: char) { '0' <= c <= '9' }

  function DigitChar(d: nat): (c: char)
    requires d < 10
    ensures IsDigit(c)
  {
    ('0' as int + d) as char
  }

  /** `str(n)` for a non-negative integer: its decimal digits, without leading zeros. */
  function NatToString(n: nat): (s: string)
    ensures |s| > 0 && forall k :: 0 <= k < |s| ==> IsDigit(s[k])
    ensures n > 0 ==> s[0] != '0'
    decreases n
  {
    if n < 10 then [DigitChar(n)] else NatToString(n / 10) + [DigitChar(n % 10)]
  }

  /** `int(s)` for a string of decimal digits. */
  function DecimalValue(s: string): nat
    requires forall k :: 0 <= k < |s| ==> IsDigit(s[k])
  {
    if s == [] then 0
    else
      assert IsDigit(s[|s| - 1]);
      DecimalValue(s[..|s| - 1]) * 10 + (s[|s| - 1] as int - '0' as int)
  }

  /** `int(str(n)) == n`. */
  lemma {:induction false} DecimalValueOfNatToString(n: nat)
    ensures DecimalValue(NatToString(n)) == n
    decreases n
  {
    if n >= 10 {
      DecimalValueOfNatToString(n / 10);
      var s := NatToString(n);
      assert s[..|s| - 1] == NatToString(n / 10);
    }
  }
}

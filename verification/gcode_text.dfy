/**
  * The text handling the extension does with regular expressions and string
  * methods, written out with the same matching rules: `\s` is JavaScript's white
  * space, `/…/i` compares ASCII letters without regard to case, `exec` finds the
  * leftmost match, a `+` run is as long as possible, and `replace(/…/g, '')`
  * removes non-overlapping matches from left to right.
  */
module GcodeText {
  import opened Common
  import opened JsNumber

  // ---------------------------------------------------------------- characters

  /** JavaScript's `\s` (and the characters `trim` removes): white space and line terminators. */
  predicate IsSpace(c: char) {
    var n := c as int;
    n == 0x09 || n == 0x0A || n == 0x0B || n == 0x0C || n == 0x0D || n == 0x20 ||
    n == 0xA0 || n == 0x1680 || (0x2000 <= n <= 0x200A) || n == 0x2028 || n == 0x2029 ||
    n == 0x202F || n == 0x205F || n == 0x3000 || n == 0xFEFF
  }

  /** The characters `.` does not match: JavaScript's line terminators. */
  predicate IsLineTerminator(c: char) {
    var n := c as int;
    n == 0x0A || n == 0x0D || n == 0x2028 || n == 0x2029
  }

  /** The regular-expression class `[\.\+\-\d]` of numeric fields. */
  predicate IsNumChar(c: char) {
    c == '.' || c == '+' || c == '-' || IsDigit(c)
  }

  /** Case folding of the `i` flag for the ASCII letters every pattern here is written in. */
  function Upper(c: char): char {
    if 'a' <= c <= 'z' then (c as int - 32) as char else c
  }

  predicate NoSpace(s: string) {
    forall i :: 0 <= i < |s| ==> !IsSpace(s[i])
  }

  /** `sub` can be obtained from `s` by deleting characters. */
  predicate IsSubsequence(sub: string, s: string)
    decreases |s|
  {
    if sub == [] then true
    else if s == [] then false
    else if sub[0] == s[0] then IsSubsequence(sub[1..], s[1..])
    else IsSubsequence(sub, s[1..])
  }

  // ---------------------------------------------------------------- trimming

  function TrimStart(s: string): (r: string)
    ensures |r| <= |s| && r == s[|s| - |r|..]
    ensures r == [] || !IsSpace(r[0])
    ensures forall i :: 0 <= i < |s| - |r| ==> IsSpace(s[i])
  {
    if |s| > 0 && IsSpace(s[0]) then TrimStart(s[1..]) else s
  }

  function TrimEnd(s: string): (r: string)
    ensures |r| <= |s| && r == s[..|r|]
    ensures r == [] || !IsSpace(r[|r| - 1])
    ensures forall i :: |r| <= i < |s| ==> IsSpace(s[i])
  {
    if |s| > 0 && IsSpace(s[|s| - 1]) then TrimEnd(s[..|s| - 1]) else s
  }

  /** `String.prototype.trim`. */
  function Trim(s: string): (r: string)
    ensures r == [] || (!IsSpace(r[0]) && !IsSpace(r[|r| - 1]))
  {
    TrimEnd(TrimStart(s))
  }

  /** A string without white space is its own trim. */
  lemma TrimNoSpace(s: string)
    requires NoSpace(s)
    ensures Trim(s) == s
  {
  }

  // ---------------------------------------------------------------- comments

  /** Length of the run of white space that starts `s`. */
  function SpaceRun(s: string): (n: nat)
    ensures n <= |s|
    ensures forall i :: 0 <= i < n ==> IsSpace(s[i])
    ensures n < |s| ==> !IsSpace(s[n])
  {
    if |s| > 0 && IsSpace(s[0]) then 1 + SpaceRun(s[1..]) else 0
  }

  /** Length of the prefix of `s` that `.*` matches (no line terminator). */
  function LineRun(s: string): (n: nat)
    ensures n <= |s|
    ensures forall i :: 0 <= i < n ==> !IsLineTerminator(s[i])
    ensures n < |s| ==> IsLineTerminator(s[n])
  {
    if |s| > 0 && !IsLineTerminator(s[0]) then 1 + LineRun(s[1..]) else 0
  }

  /** JavaScript's `s.indexOf(c)`: the first position of `c`, or -1. */
  function IndexOfChar(s: string, c: char): (k: int)
    ensures -1 <= k < |s|
    ensures k >= 0 ==> s[k] == c && c !in s[..k]
    ensures k == -1 <==> c !in s
  {
    if s == [] then -1
    else if s[0] == c then 0
    else
      var k := IndexOfChar(s[1..], c);
      assert s[1..][..k + 1] == s[1..k + 2] by {
        if k >= 0 { assert k + 2 <= |s|; }
      }
      if k < 0 then -1 else k + 1
  }

  /** `replace(/\s*\([^\)]*\)/g, '')`: drops every `(`…`)` comment and the white space before it. */
  function DropParenComments(s: string): (r: string)
    ensures IsSubsequence(r, s)
    ensures forall i, j :: 0 <= i < j < |r| ==> !(r[i] == '(' && r[j] == ')')
    decreases |s|
  {
    if s == [] then []
    else
      var w := SpaceRun(s);
      if w < |s| && s[w] == '(' && ')' in s[w + 1..] then
        var close := w + 1 + IndexOfChar(s[w + 1..], ')');
        var r := DropParenComments(s[close + 1..]);
        SubsequenceOfSuffix(r, s, close + 1);
        r
      else
        var rest := DropParenComments(s[1..]);
        var r := [s[0]] + rest;
        assert r[1..] == rest;
        if s[0] == '(' then
          assert ')' !in s[1..];
          SubsequenceKeepsAbsence(rest, s[1..], ')');
          r
        else
          r
  }

  // `replace(/\s*;.*/g, '')`: drops each `;` comment up to the end of its line.
  function DropSemicolonComments(s: string): (r: string)
    ensures IsSubsequence(r, s)
    ensures ';' !in r
    decreases |s|
  {
    if s == [] then []
    else
      var w := SpaceRun(s);
      if w < |s| && s[w] == ';' then
        var stop := w + 1 + LineRun(s[w + 1..]);
        var r := DropSemicolonComments(s[stop..]);
        SubsequenceOfSuffix(r, s, stop);
        r
      else
        var rest := DropSemicolonComments(s[1..]);
        var r := [s[0]] + rest;
        assert s[0] != ';';
        assert r[1..] == rest;
        r
  }

  /** `replace(/\s+/g, '')`: drops all white space. */
  function RemoveSpaces(s: string): (r: string)
    ensures NoSpace(r)
    ensures IsSubsequence(r, s)
  {
    if s == [] then []
    else if IsSpace(s[0]) then RemoveSpaces(s[1..])
    else
      var r := [s[0]] + RemoveSpaces(s[1..]);
      assert r[1..] == RemoveSpaces(s[1..]);
      r
  }

  /** `stripComments(line)`: the line without comments and without any white space. */
  function StripComments(line: string): (r: string)
    ensures NoSpace(r)
    ensures ';' !in r
    ensures forall i, j :: 0 <= i < j < |r| ==> !(r[i] == '(' && r[j] == ')')
    ensures IsSubsequence(r, line)
  {
    var a := DropParenComments(line);
    var b := DropSemicolonComments(a);
    var r := RemoveSpaces(b);
    SubsequenceKeepsOrderFree(b, a);
    SubsequenceKeepsOrderFree(r, b);
    SubsequenceKeepsAbsence(r, b, ';');
    SubsequenceTransitive(r, b, a);
    SubsequenceTransitive(r, a, line);
    r
  }

  /** A line with no `(` and no `;` loses only its white space. */
  lemma {:induction false} StripCommentsPlain(line: string)
    requires '(' !in line && ';' !in line
    ensures StripComments(line) == RemoveSpaces(line)
  {
    DropParenPlain(line);
    DropSemicolonPlain(line);
  }

  lemma {:induction false} DropParenPlain(s: string)
    requires '(' !in s
    ensures DropParenComments(s) == s
    decreases |s|
  {
    if s != [] {
      DropParenPlain(s[1..]);
    }
  }

  lemma {:induction false} DropSemicolonPlain(s: string)
    requires ';' !in s
    ensures DropSemicolonComments(s) == s
    decreases |s|
  {
    if s != [] {
      var w := SpaceRun(s);
      assert w < |s| ==> s[w] != ';';
      DropSemicolonPlain(s[1..]);
    }
  }

  // ---------------------------------------------------------------- subsequences

  lemma {:induction false} SubsequenceReflexive(s: string)
    ensures IsSubsequence(s, s)
    decreases |s|
  {
    if s != [] {
      SubsequenceReflexive(s[1..]);
    }
  }

  lemma {:induction false} SubsequenceOfSuffix(r: string, s: string, k: nat)
    requires k <= |s| && IsSubsequence(r, s[k..])
    ensures IsSubsequence(r, s)
    decreases k
  {
    if k > 0 {
      assert s[1..][k - 1..] == s[k..];
      SubsequenceOfSuffix(r, s[1..], k - 1);
      SubsequenceOfTail(r, s);
    }
  }

  lemma {:induction false} SubsequenceDropFirst(r: string, s: string)
    requires r != [] && IsSubsequence(r, s)
    ensures IsSubsequence(r[1..], s)
    decreases |s|, 1
  {
    if r[0] == s[0] {
      SubsequenceOfTail(r[1..], s);
    } else {
      SubsequenceDropFirst(r, s[1..]);
      SubsequenceOfTail(r[1..], s);
    }
  }

  lemma {:induction false} SubsequenceOfTail(r: string, s: string)
    requires s != [] && IsSubsequence(r, s[1..])
    ensures IsSubsequence(r, s)
    decreases |s|, 0
  {
    if r != [] && r[0] == s[0] {
      SubsequenceDropFirst(r, s[1..]);
    }
  }

  lemma {:induction false} SubsequenceKeepsAbsence(r: string, s: string, c: char)
    requires IsSubsequence(r, s) && c !in s
    ensures c !in r
    decreases |s|
  {
    if r != [] {
      if r[0] == s[0] {
        SubsequenceKeepsAbsence(r[1..], s[1..], c);
        assert r == [r[0]] + r[1..];
      } else {
        SubsequenceKeepsAbsence(r, s[1..], c);
      }
    }
  }

  lemma {:induction false} SubsequenceTransitive(a: string, b: string, c: string)
    requires IsSubsequence(a, b) && IsSubsequence(b, c)
    ensures IsSubsequence(a, c)
    decreases |c|
  {
    if a != [] {
      if b[0] == c[0] {
        if a[0] == b[0] {
          SubsequenceTransitive(a[1..], b[1..], c[1..]);
        } else {
          SubsequenceTransitive(a, b[1..], c[1..]);
          SubsequenceOfTail(a, c);
        }
      } else {
        SubsequenceTransitive(a, b, c[1..]);
        SubsequenceOfTail(a, c);
      }
    }
  }

  /** A character pair `(` before `)` in a subsequence is one in the original too. */
  lemma {:induction false} SubsequenceKeepsOrderFree(r: string, s: string)
    requires IsSubsequence(r, s)
    requires forall i, j :: 0 <= i < j < |s| ==> !(s[i] == '(' && s[j] == ')')
    ensures forall i, j :: 0 <= i < j < |r| ==> !(r[i] == '(' && r[j] == ')')
    decreases |s|
  {
    if r != [] {
      if r[0] == s[0] {
        SubsequenceKeepsOrderFree(r[1..], s[1..]);
        if r[0] == '(' {
          assert ')' !in s[1..] by {
            forall j | 0 <= j < |s[1..]| ensures s[1..][j] != ')' {
              assert s[1 + j] == s[1..][j];
            }
          }
          SubsequenceKeepsAbsence(r[1..], s[1..], ')');
        }
        forall i, j | 0 <= i < j < |r| ensures !(r[i] == '(' && r[j] == ')') {
          if i > 0 {
            assert r[i] == r[1..][i - 1] && r[j] == r[1..][j - 1];
          } else if r[0] == '(' {
            assert r[j] == r[1..][j - 1];
          }
        }
      } else {
        SubsequenceKeepsOrderFree(r, s[1..]);
      }
    }
  }

  // ---------------------------------------------------------------- case-insensitive matching

  /** `key` (upper case) occurs at the start of `s`, letters compared without case. */
  predicate StartsWithCI(s: string, key: string) {
    |key| <= |s| && forall k :: 0 <= k < |key| ==> Upper(s[k]) == key[k]
  }

  /** `/key/i.test(s)`. */
  predicate ContainsCI(s: string, key: string) {
    exists i :: 0 <= i <= |s| && StartsWithCI(s[i..], key)
  }

  /** The maximal run of `[\.\+\-\d]` characters that starts `s`. */
  function NumRun(s: string): (r: string)
    ensures r <= s
    ensures forall k :: 0 <= k < |r| ==> IsNumChar(r[k])
    ensures |r| < |s| ==> !IsNumChar(s[|r|])
  {
    if |s| > 0 && IsNumChar(s[0]) then [s[0]] + NumRun(s[1..]) else []
  }

  /** `/key([\.\+\-\d]+)/i` matches at position `i` of `s`. */
  predicate ParamAt(s: string, key: string, i: int) {
    0 <= i && i + |key| < |s| && StartsWithCI(s[i..], key) && IsNumChar(s[i + |key|])
  }

  /** `k` is the position of the leftmost match of `/key([\\.\\+\\-\\d]+)/i` in `s`. */
  predicate LeftmostParam(s: string, key: string, k: int) {
    ParamAt(s, key, k) && forall j :: 0 <= j < k ==> !ParamAt(s, key, j)
  }

  /** The numeric field that follows `key` at position `k` of `s`. */
  function FieldAfter(s: string, key: string, k: int): string {
    if 0 <= k && k + |key| <= |s| then NumRun(s[k + |key|..]) else []
  }

  /** The position of the leftmost match of `/key([\.\+\-\d]+)/i` at or after `from`, or -1. */
  function ParamIndexFrom(s: string, key: string, from: nat): (k: int)
    ensures k == -1 || (from <= k && ParamAt(s, key, k))
    ensures forall j :: from <= j && (k == -1 || j < k) ==> !ParamAt(s, key, j)
    decreases |s| - from
  {
    if from + |key| >= |s| then -1
    else if ParamAt(s, key, from) then from
    else ParamIndexFrom(s, key, from + 1)
  }

  /**
    * `/key([\.\+\-\d]+)/gi.exec(s)` followed by `parseFloat` of the captured field:
    * the number after the leftmost occurrence of the letter(s) `key` that a numeric
    * character follows, or None when there is none.
    */
  function Param(s: string, key: string): (r: Option<real>)
    ensures r.None? <==> forall j :: !ParamAt(s, key, j)
    ensures r.Some? ==> exists k :: LeftmostParam(s, key, k) && r.value == ParseFloat(FieldAfter(s, key, k))
  {
    var k := ParamIndexFrom(s, key, 0);
    if k < 0 then None
    else
      assert LeftmostParam(s, key, k);
      Some(ParseFloat(FieldAfter(s, key, k)))
  }

  // ---------------------------------------------------------------- motion words

  /** The motion modes the compensation pass recognises (its `modalMotion`). */
  datatype Motion = Rapid | Linear | ArcCW | ArcCCW | ProbeMove(variant: char) | CancelCycle

  function MotionOfDigit(d: char): Motion
    requires '0' <= d <= '3'
  {
    if d == '0' then Rapid else if d == '1' then Linear else if d == '2' then ArcCW else ArcCCW
  }

  /**
    * `/(G0?[0123](?![0-9])|G38\.\d|G80)/i` anchored at the start of `t`, alternatives tried
    * in order and `0?` first with the `0`; the normalised word (`G00` is `G0`) as a Motion.
    */
  function MotionAt(t: string): (r: Option<Motion>)
    ensures r.Some? ==> |t| >= 2 && Upper(t[0]) == 'G'
  {
    if |t| < 2 || Upper(t[0]) != 'G' then None
    else if |t| >= 3 && t[1] == '0' && '0' <= t[2] <= '3' && (|t| == 3 || !IsDigit(t[3])) then
      Some(MotionOfDigit(t[2]))
    else if '0' <= t[1] <= '3' && (|t| == 2 || !IsDigit(t[2])) then
      Some(MotionOfDigit(t[1]))
    else if |t| >= 5 && t[1] == '3' && t[2] == '8' && t[3] == '.' && IsDigit(t[4]) then
      Some(ProbeMove(t[4]))
    else if |t| >= 3 && t[1] == '8' && t[2] == '0' then
      Some(CancelCycle)
    else None
  }

  /** The position of the leftmost match of the motion pattern at or after `from`, or -1. */
  function MotionIndexFrom(s: string, from: nat): (k: int)
    requires from <= |s|
    ensures k == -1 || (from <= k <= |s| && MotionAt(s[k..]).Some?)
    ensures forall j :: from <= j <= |s| && (k == -1 || j < k) ==> MotionAt(s[j..]).None?
    decreases |s| - from
  {
    if from == |s| then -1
    else if MotionAt(s[from..]).Some? then from
    else MotionIndexFrom(s, from + 1)
  }

  /** The motion word of `s`, if any: the leftmost match of the motion pattern. */
  function FindMotion(s: string): (r: Option<Motion>)
    ensures r.None? <==> forall j :: 0 <= j <= |s| ==> MotionAt(s[j..]).None?
    ensures r.Some? ==>
      exists j :: 0 <= j <= |s| && MotionAt(s[j..]) == r && (forall k :: 0 <= k < j ==> MotionAt(s[k..]).None?)
  {
    var k := MotionIndexFrom(s, 0);
    if k < 0 then None else MotionAt(s[k..])
  }

  // ---------------------------------------------------------------- pass-through words

  /** `/(G10|G92|G4|G53|G5[4-9]|M\d+)/i` anchored at the start of `t`. */
  predicate PassThroughAt(t: string) {
    StartsWithCI(t, "G10") || StartsWithCI(t, "G92") || StartsWithCI(t, "G4") ||
    StartsWithCI(t, "G53") || (StartsWithCI(t, "G5") && |t| >= 3 && '4' <= t[2] <= '9') ||
    (|t| >= 2 && Upper(t[0]) == 'M' && IsDigit(t[1]))
  }

  /** The line holds a word the compensation pass copies through unchanged. */
  predicate PassThrough(s: string) {
    exists i :: 0 <= i <= |s| && PassThroughAt(s[i..])
  }

  // ---------------------------------------------------------------- coordinate removal

  predicate IsAxisLetter(c: char) {
    Upper(c) == 'X' || Upper(c) == 'Y' || Upper(c) == 'Z'
  }

  /** `s.replace(/([XYZ])([\.\+\-\d]+)/gi, '')`: every coordinate word removed. */
  function RemoveCoords(s: string): (r: string)
    ensures IsSubsequence(r, s)
    decreases |s|
  {
    if s == [] then []
    else if IsAxisLetter(s[0]) && |s| >= 2 && IsNumChar(s[1]) then
      var r := RemoveCoords(s[1 + |NumRun(s[1..])|..]);
      SubsequenceOfSuffix(r, s, 1 + |NumRun(s[1..])|);
      r
    else
      var r := [s[0]] + RemoveCoords(s[1..]);
      assert r[1..] == RemoveCoords(s[1..]);
      r
  }

  /** A line with no X, Y or Z letter keeps all its text. */
  lemma {:induction false} RemoveCoordsNoAxis(s: string)
    requires forall k :: 0 <= k < |s| ==> !IsAxisLetter(s[k])
    ensures RemoveCoords(s) == s
  {
    if s != [] {
      RemoveCoordsNoAxis(s[1..]);
    }
  }

  // ---------------------------------------------------------------- lines

  /** `s.split(sep)`: the pieces between separators, at least one. */
  function Split(s: string, sep: char): (parts: seq<string>)
    ensures |parts| > 0
    ensures forall k :: 0 <= k < |parts| ==> sep !in parts[k]
    decreases |s|
  {
    var k := IndexOfChar(s, sep);
    if k < 0 then [s]
    else [s[..k]] + Split(s[k + 1..], sep)
  }

  /** `parts.join(sep)`. */
  function Join(parts: seq<string>, sep: char): string {
    if parts == [] then []
    else if |parts| == 1 then parts[0]
    else parts[0] + [sep] + Join(parts[1..], sep)
  }

  /** Splitting on a separator and joining with it gives back the text. */
  lemma {:induction false} JoinSplit(s: string, sep: char)
    ensures Join(Split(s, sep), sep) == s
    decreases |s|
  {
    var k := IndexOfChar(s, sep);
    if k >= 0 {
      JoinSplit(s[k + 1..], sep);
      assert s == s[..k] + [sep] + s[k + 1..];
    }
  }

  /** `pat` occurs in `s` at position `j`. */
  predicate OccursAt(s: string, pat: string, j: int) {
    0 <= j && j + |pat| <= |s| && s[j..j + |pat|] == pat
  }

  /** The first position at or after `from` where `pat` occurs in `s`, or -1 (`s.indexOf(pat, from)`). */
  function IndexOfFrom(s: string, pat: string, from: nat): (k: int)
    ensures k == -1 || (from <= k && OccursAt(s, pat, k))
    ensures forall j :: from <= j && (k == -1 || j < k) ==> !OccursAt(s, pat, j)
    decreases |s| - from
  {
    if from + |pat| > |s| then -1
    else if OccursAt(s, pat, from) then from
    else IndexOfFrom(s, pat, from + 1)
  }
}

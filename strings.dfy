/**
 * The JavaScript string operations the source relies on: case mapping,
 * `indexOf`/`includes`, `replace`, `Array.prototype.join` and the decimal
 * rendering of a non-negative integer inside a template literal.
 */
module Strings {
  import opened Wrappers

  /** `c.toLowerCase()` on the ASCII letters; every other character is kept. */
  function LowerChar(c: char): (r: char)
    ensures 'A' <= c <= 'Z' ==> 'a' <= r <= 'z' && r as int == c as int + 32
    ensures !('A' <= c <= 'Z') ==> r == c
  {
    if 'A' <= c <= 'Z' then (c as int + 32) as char else c
  }

  /** `c.toUpperCase()` on the ASCII letters; every other character is kept. */
  function UpperChar(c: char): (r: char)
    ensures 'a' <= c <= 'z' ==> 'A' <= r <= 'Z' && r as int == c as int - 32
    ensures !('a' <= c <= 'z') ==> r == c
  {
    if 'a' <= c <= 'z' then (c as int - 32) as char else c
  }

  /** `s.toLowerCase()`, character by character. */
  function Lower(s: string): (r: string)
    ensures |r| == |s|
    ensures forall i :: 0 <= i < |s| ==> r[i] == LowerChar(s[i])
  {
    seq(|s|, i requires 0 <= i < |s| => LowerChar(s[i]))
  }

  /** `s.toUpperCase()`, character by character. */
  function Upper(s: string): (r: string)
    ensures |r| == |s|
    ensures forall i :: 0 <= i < |s| ==> r[i] == UpperChar(s[i])
  {
    seq(|s|, i requires 0 <= i < |s| => UpperChar(s[i]))
  }

  /** `pat` occurs in `s` starting at index `i`. */
  predicate OccursAt(s: string, pat: string, i: nat) {
    i + |pat| <= |s| && s[i..i + |pat|] == pat
  }

  lemma OccursAtTail(s: string, pat: string, k: nat)
    requires |s| > 0
    ensures OccursAt(s[1..], pat, k) <==> OccursAt(s, pat, k + 1)
  {
    if k + 1 + |pat| <= |s| {
      assert s[1..][k..k + |pat|] == s[k + 1..k + 1 + |pat|];
    }
  }

  /** `s.indexOf(pat)`: the first index at which `pat` occurs, `None` for -1. */
  function IndexOf(s: string, pat: string): (r: Option<nat>)
    ensures r.Some? ==> OccursAt(s, pat, r.value)
    ensures r.Some? ==> forall j: nat :: j < r.value ==> !OccursAt(s, pat, j)
    ensures r.None? ==> forall j: nat :: !OccursAt(s, pat, j)
    decreases |s|
  {
    if OccursAt(s, pat, 0) then Some(0)
    else if |s| == 0 then None
    else
      match IndexOf(s[1..], pat)
      case None =>
        assert forall j: nat :: !OccursAt(s, pat, j) by {
          forall j: nat ensures !OccursAt(s, pat, j) {
            if j > 0 { OccursAtTail(s, pat, j - 1); }
          }
        }
        None
      case Some(k) =>
        OccursAtTail(s, pat, k);
        assert forall j: nat :: j < k + 1 ==> !OccursAt(s, pat, j) by {
          forall j: nat | j < k + 1 ensures !OccursAt(s, pat, j) {
            if j > 0 { OccursAtTail(s, pat, j - 1); }
          }
        }
        Some(k + 1)
  }

  /** `s.includes(sub)`. */
  predicate Includes(s: string, sub: string) {
    IndexOf(s, sub).Some?
  }

  /** `s.includes(sub)` holds exactly when `sub` occurs somewhere in `s`. */
  lemma IncludesIff(s: string, sub: string)
    ensures Includes(s, sub) <==> exists i: nat :: OccursAt(s, sub, i)
  {
  }

  /** `s.replace(pat, rep)` with a string pattern: only the first occurrence is replaced. */
  function ReplaceFirst(s: string, pat: string, rep: string): (r: string)
    ensures IndexOf(s, pat).None? ==> r == s
    ensures IndexOf(s, pat).Some? ==>
      var i := IndexOf(s, pat).value;
      r == s[..i] + rep + s[i + |pat|..]
  {
    match IndexOf(s, pat)
    case None => s
    case Some(i) => s[..i] + rep + s[i + |pat|..]
  }

  /** `s.replace(/x/g, y)` for a single character `x`: every occurrence is replaced. */
  function ReplaceAllChar(s: string, from: char, to: char): (r: string)
    ensures |r| == |s|
    ensures forall i :: 0 <= i < |s| ==> r[i] == (if s[i] == from then to else s[i])
    ensures from != to ==> from !in r
  {
    seq(|s|, i requires 0 <= i < |s| => if s[i] == from then to else s[i])
  }

  /** `parts.join(sep)`: it begins with the first part. */
  function Join(parts: seq<string>, sep: string): (r: string)
    ensures |parts| > 0 ==> |parts[0]| <= |r| && r[..|parts[0]|] == parts[0]
    decreases |parts|
  {
    if |parts| == 0 then ""
    else if |parts| == 1 then parts[0]
    else parts[0] + sep + Join(parts[1..], sep)
  }

  /** An occurrence with none before it is what `IndexOf` finds. */
  lemma IndexOfIs(s: string, pat: string, i: nat)
    requires OccursAt(s, pat, i)
    requires forall j: nat :: j < i ==> !OccursAt(s, pat, j)
    ensures IndexOf(s, pat) == Some(i)
  {
  }

  /** A first occurrence inside `a` stays the first occurrence in `a + b`. */
  lemma IndexOfPrefix(a: string, b: string, pat: string)
    requires IndexOf(a, pat).Some?
    ensures IndexOf(a + b, pat) == IndexOf(a, pat)
  {
    var i := IndexOf(a, pat).value;
    assert OccursAt(a, pat, i);
    assert (a + b)[i..i + |pat|] == a[i..i + |pat|];
    forall j: nat | j < i ensures !OccursAt(a + b, pat, j) {
      assert !OccursAt(a, pat, j);
      assert (a + b)[j..j + |pat|] == a[j..j + |pat|];
    }
    IndexOfIs(a + b, pat, i);
  }

  /** No occurrence starts before the separator when `a` has none and the pattern lacks the separator. */
  lemma SeparatorBlocks(a: string, sep: char, b: string, pat: string, j: nat)
    requires IndexOf(a, pat).None? && sep !in pat && j <= |a|
    ensures !OccursAt(a + [sep] + b, pat, j)
  {
    var s := a + [sep] + b;
    if j + |pat| <= |a| {
      assert !OccursAt(a, pat, j);
      assert s[j..j + |pat|] == a[j..j + |pat|];
    } else if j + |pat| <= |s| {
      assert s[j..j + |pat|][|a| - j] == sep;
    }
  }

  /** Past the separator, occurrences are those of `b`, shifted. */
  lemma OccursAfterSeparator(a: string, sep: char, b: string, pat: string, j: nat)
    ensures OccursAt(a + [sep] + b, pat, |a| + 1 + j) <==> OccursAt(b, pat, j)
  {
    var s := a + [sep] + b;
    if |a| + 1 + j + |pat| <= |s| {
      assert s[|a| + 1 + j..|a| + 1 + j + |pat|] == b[j..j + |pat|];
    }
  }

  /** No occurrence anywhere means `IndexOf` finds none. */
  lemma IndexOfNone(s: string, pat: string)
    requires forall j: nat :: !OccursAt(s, pat, j)
    ensures IndexOf(s, pat).None?
  {
  }

  /** The search passes a separator the pattern does not contain and finds the first occurrence in `b`. */
  lemma IndexOfAfterSeparator(a: string, sep: char, b: string, pat: string, k: nat)
    requires IndexOf(a, pat).None? && sep !in pat && IndexOf(b, pat) == Some(k)
    ensures IndexOf(a + [sep] + b, pat) == Some(|a| + 1 + k)
  {
    OccursAfterSeparator(a, sep, b, pat, k);
    forall j: nat | j < |a| + 1 + k ensures !OccursAt(a + [sep] + b, pat, j) {
      if j <= |a| {
        SeparatorBlocks(a, sep, b, pat, j);
      } else {
        OccursAfterSeparator(a, sep, b, pat, j - |a| - 1);
      }
    }
    IndexOfIs(a + [sep] + b, pat, |a| + 1 + k);
  }

  /** With no occurrence in `a` or `b`, there is none across a separator the pattern lacks. */
  lemma IndexOfAcrossSeparatorNone(a: string, sep: char, b: string, pat: string)
    requires IndexOf(a, pat).None? && sep !in pat && IndexOf(b, pat).None?
    ensures IndexOf(a + [sep] + b, pat).None?
  {
    forall j: nat ensures !OccursAt(a + [sep] + b, pat, j) {
      if j <= |a| {
        SeparatorBlocks(a, sep, b, pat, j);
      } else {
        OccursAfterSeparator(a, sep, b, pat, j - |a| - 1);
      }
    }
    IndexOfNone(a + [sep] + b, pat);
  }

  /** The parts after `replace` on their join: the first part containing `pat` has it replaced. */
  function ReplaceInFirstPart(parts: seq<string>, pat: string, rep: string): (r: seq<string>)
    ensures |r| == |parts|
  {
    if |parts| == 0 then []
    else if Includes(parts[0], pat) then [ReplaceFirst(parts[0], pat, rep)] + parts[1..]
    else [parts[0]] + ReplaceInFirstPart(parts[1..], pat, rep)
  }

  /** When the first part contains the pattern, `replace` acts inside it. */
  lemma ReplaceFirstInHead(a: string, sep: char, rest: string, pat: string, rep: string)
    requires Includes(a, pat)
    ensures ReplaceFirst(a + [sep] + rest, pat, rep) == ReplaceFirst(a, pat, rep) + [sep] + rest
  {
    IndexOfPrefix(a, [sep] + rest, pat);
    assert a + [sep] + rest == a + ([sep] + rest);
    var i := IndexOf(a, pat).value;
    assert (a + ([sep] + rest))[..i] == a[..i];
    assert (a + ([sep] + rest))[i + |pat|..] == a[i + |pat|..] + [sep] + rest;
  }

  /** `replace` splices `rep` in at the first occurrence. */
  lemma ReplaceFirstAt(s: string, pat: string, rep: string, i: nat)
    requires IndexOf(s, pat) == Some(i)
    ensures i + |pat| <= |s| && ReplaceFirst(s, pat, rep) == s[..i] + rep + s[i + |pat|..]
  {
  }

  /** Replacing a stretch of the tail behind a separator, written on the whole string or on the tail. */
  lemma SpliceBehindSeparator(a: string, sep: char, rest: string, rep: string, k: nat, n: nat)
    requires k + n <= |rest|
    ensures (a + [sep] + rest)[..|a| + 1 + k] + rep + (a + [sep] + rest)[|a| + 1 + k + n..]
            == a + [sep] + (rest[..k] + rep + rest[k + n..])
  {
    var whole := a + [sep] + rest;
    assert whole[..|a| + 1 + k] == a + [sep] + rest[..k];
    assert whole[|a| + 1 + k + n..] == rest[k + n..];
  }

  /** An occurrence found at `k` in `rest` is the one `replace` acts on in the whole. */
  lemma ReplaceBehindSeparator(a: string, sep: char, rest: string, pat: string, rep: string, k: nat)
    requires IndexOf(a, pat).None? && sep !in pat && IndexOf(rest, pat) == Some(k)
    ensures ReplaceFirst(a + [sep] + rest, pat, rep) == a + [sep] + ReplaceFirst(rest, pat, rep)
  {
    IndexOfAfterSeparator(a, sep, rest, pat, k);
    ReplaceFirstAt(a + [sep] + rest, pat, rep, |a| + 1 + k);
    ReplaceFirstAt(rest, pat, rep, k);
    SpliceBehindSeparator(a, sep, rest, rep, k, |pat|);
  }

  /** When the first part lacks the pattern, `replace` acts behind the separator. */
  lemma ReplaceFirstPastHead(a: string, sep: char, rest: string, pat: string, rep: string)
    requires !Includes(a, pat) && sep !in pat
    ensures ReplaceFirst(a + [sep] + rest, pat, rep) == a + [sep] + ReplaceFirst(rest, pat, rep)
  {
    if IndexOf(rest, pat).Some? {
      ReplaceBehindSeparator(a, sep, rest, pat, rep, IndexOf(rest, pat).value);
    } else {
      IndexOfAcrossSeparatorNone(a, sep, rest, pat);
    }
  }

  /**
   * A `replace` on a join acts inside the first part that contains the
   * pattern, as long as the pattern does not contain the separator.
   */
  lemma {:induction false} ReplaceFirstJoin(parts: seq<string>, sep: char, pat: string, rep: string)
    requires |pat| > 0 && sep !in pat
    ensures ReplaceFirst(Join(parts, [sep]), pat, rep) == Join(ReplaceInFirstPart(parts, pat, rep), [sep])
    decreases |parts|
  {
    if |parts| == 0 {
      assert !OccursAt("", pat, 0);
    } else if |parts| == 1 {
      assert parts[1..] == [];
    } else {
      var a := parts[0];
      var rest := Join(parts[1..], [sep]);
      assert Join(parts, [sep]) == a + [sep] + rest;
      var r := ReplaceInFirstPart(parts, pat, rep);
      if Includes(a, pat) {
        ReplaceFirstInHead(a, sep, rest, pat, rep);
        assert r[1..] == parts[1..];
        assert Join(r, [sep]) == r[0] + [sep] + Join(r[1..], [sep]);
      } else {
        ReplaceFirstPastHead(a, sep, rest, pat, rep);
        ReplaceFirstJoin(parts[1..], sep, pat, rep);
        assert r[1..] == ReplaceInFirstPart(parts[1..], pat, rep);
        assert Join(r, [sep]) == r[0] + [sep] + Join(r[1..], [sep]);
      }
    }
  }

  /** Replacing every separator of a join whose parts do not contain it joins the parts with the new one. */
  lemma {:induction false} ReplaceSeparator(parts: seq<string>, from: char, to: char)
    requires forall i :: 0 <= i < |parts| ==> from !in parts[i]
    ensures ReplaceAllChar(Join(parts, [from]), from, to) == Join(parts, [to])
    decreases |parts|
  {
    if |parts| == 1 {
      assert ReplaceAllChar(parts[0], from, to) == parts[0];
    } else if |parts| > 1 {
      ReplaceSeparator(parts[1..], from, to);
      var rest := Join(parts[1..], [from]);
      var whole := parts[0] + [from] + rest;
      assert Join(parts, [from]) == whole;
      var r := ReplaceAllChar(whole, from, to);
      var expected := parts[0] + [to] + ReplaceAllChar(rest, from, to);
      forall i | 0 <= i < |r| ensures r[i] == expected[i] {
        if i > |parts[0]| {
          assert whole[i] == rest[i - |parts[0]| - 1];
        }
      }
      assert r == expected;
    }
  }

  /** Splits `s` at every occurrence of the character `sep` (`s.split(sep)`). */
  function Split(s: string, sep: char): (r: seq<string>)
    ensures |r| >= 1
    decreases |s|
  {
    if |s| == 0 then [""]
    else
      var rest := Split(s[1..], sep);
      if s[0] == sep then [""] + rest
      else [[s[0]] + rest[0]] + rest[1..]
  }

  /** Splitting a string that has no separator in it gives the string itself. */
  lemma {:induction false} SplitNoSep(s: string, sep: char)
    requires sep !in s
    ensures Split(s, sep) == [s]
    decreases |s|
  {
    if |s| > 0 {
      SplitNoSep(s[1..], sep);
      assert [s[0]] + s[1..] == s;
    }
  }

  /** Splitting `a + [sep] + b` where `a` has no separator. */
  lemma {:induction false} SplitAfterPart(a: string, sep: char, b: string)
    requires sep !in a
    ensures Split(a + [sep] + b, sep) == [a] + Split(b, sep)
    decreases |a|
  {
    if |a| == 0 {
      assert a + [sep] + b == [sep] + b;
      assert ([sep] + b)[1..] == b;
    } else {
      assert (a + [sep] + b)[1..] == a[1..] + [sep] + b;
      SplitAfterPart(a[1..], sep, b);
      assert [a[0]] + a[1..] == a;
    }
  }

  /** `split` undoes `join` when no part contains the separator and there is at least one part. */
  lemma {:induction false} SplitJoin(parts: seq<string>, sep: char)
    requires |parts| >= 1
    requires forall i :: 0 <= i < |parts| ==> sep !in parts[i]
    ensures Split(Join(parts, [sep]), sep) == parts
    decreases |parts|
  {
    if |parts| == 1 {
      SplitNoSep(parts[0], sep);
    } else {
      SplitJoin(parts[1..], sep);
      SplitAfterPart(parts[0], sep, Join(parts[1..], [sep]));
      assert [parts[0]] + parts[1..] == parts;
    }
  }

  predicate IsDigit(c: char) {
    '0' <= c <= '9'
  }

  function DigitChar(d: nat): (c: char)
    requires d < 10
    ensures IsDigit(c) && c as int - '0' as int == d
  {
    ('0' as int + d) as char
  }

  /** The decimal numeral of `n` as JavaScript prints a non-negative integer. */
  function NatToString(n: nat): (r: string)
    ensures |r| >= 1
    ensures forall i :: 0 <= i < |r| ==> IsDigit(r[i])
    ensures r[0] == '0' ==> n == 0
    decreases n
  {
    if n < 10 then [DigitChar(n)] else NatToString(n / 10) + [DigitChar(n % 10)]
  }

  /** The value of a string of decimal digits. */
  function DecimalValue(s: string): nat
    requires forall i :: 0 <= i < |s| ==> IsDigit(s[i])
  {
    if |s| == 0 then 0
    else
      assert IsDigit(s[|s| - 1]);
      DecimalValue(s[..|s| - 1]) * 10 + (s[|s| - 1] as int - '0' as int)
  }

  /** Reading back a printed number gives the number: the rendering loses nothing. */
  lemma {:induction false} DecimalRoundTrip(n: nat)
    ensures DecimalValue(NatToString(n)) == n
    decreases n
  {
    var r := NatToString(n);
    if n >= 10 {
      DecimalRoundTrip(n / 10);
      assert r[..|r| - 1] == NatToString(n / 10);
    }
  }
}

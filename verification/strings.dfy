/**
 * The string primitives of JavaScript and Python that the modelled code
 * relies on: prefix and suffix tests, `indexOf`, `replace` with a string
 * pattern (first occurrence only), `split` on one character, `join`, and
 * the decimal rendering of a natural number.
 */
module Strings {
  import opened Wrappers

  /** `s.startsWith(p)` (JavaScript) and `s.startswith(p)` (Python). */
  predicate StartsWith(s: string, p: string) {
    |p| <= |s| && s[..|p|] == p
  }

  /** `s.endsWith(p)` (JavaScript) and `s.endswith(p)` (Python). */
  predicate EndsWith(s: string, p: string) {
    |p| <= |s| && s[|s| - |p|..] == p
  }

  /** `p` occurs in `s` starting at index `i`. */
  predicate OccursAt(s: string, p: string, i: nat) {
    i + |p| <= |s| && s[i..i + |p|] == p
  }

  /** The first occurrence of `p` in `s` at or after `from`. */
  function IndexOfFrom(s: string, p: string, from: nat): (r: Option<nat>)
    requires from <= |s|
    ensures r.Some? ==> from <= r.value && OccursAt(s, p, r.value)
    ensures r.Some? ==> forall j :: from <= j < r.value ==> !OccursAt(s, p, j)
    ensures r.None? ==> forall j :: from <= j <= |s| ==> !OccursAt(s, p, j)
    decreases |s| - from
  {
    if OccursAt(s, p, from) then Some(from)
    else if from == |s| then None
    else IndexOfFrom(s, p, from + 1)
  }

  /** `s.indexOf(p)`: the first index at which `p` occurs, if any. */
  function IndexOf(s: string, p: string): (r: Option<nat>)
    ensures r.Some? ==> OccursAt(s, p, r.value)
    ensures r.Some? ==> forall j :: 0 <= j < r.value ==> !OccursAt(s, p, j)
    ensures r.None? ==> forall j :: 0 <= j <= |s| ==> !OccursAt(s, p, j)
  {
    IndexOfFrom(s, p, 0)
  }

  /**
   * `s.replace(p, r)` with a string pattern: only the FIRST occurrence of
   * `p` is replaced; without an occurrence `s` is returned unchanged.
   */
  function ReplaceFirst(s: string, p: string, r: string): string {
    match IndexOf(s, p)
    case None => s
    case Some(i) => s[..i] + r + s[i + |p|..]
  }

  /** What `ReplaceFirst` does, stated through occurrences rather than `IndexOf`. */
  lemma ReplaceFirstSpec(s: string, p: string, r: string)
    ensures (forall j :: 0 <= j <= |s| ==> !OccursAt(s, p, j)) ==> ReplaceFirst(s, p, r) == s
    ensures forall i: nat :: OccursAt(s, p, i) && (forall j :: 0 <= j < i ==> !OccursAt(s, p, j)) ==>
              ReplaceFirst(s, p, r) == s[..i] + r + s[i + |p|..]
  {
    match IndexOf(s, p)
    case None =>
    case Some(k) =>
      forall i: nat | OccursAt(s, p, i) && (forall j :: 0 <= j < i ==> !OccursAt(s, p, j))
        ensures i == k
      {
      }
  }

  /** Removing the first occurrence of `p` from `p + t` gives back `t`. */
  lemma RemoveLeadingOccurrence(p: string, t: string)
    ensures ReplaceFirst(p + t, p, "") == t
  {
    var s := p + t;
    assert OccursAt(s, p, 0) by { assert s[..|p|] == p; }
    ReplaceFirstSpec(s, p, "");
    assert s[|p|..] == t;
  }

  /** Without an occurrence of `p`, `ReplaceFirst` changes nothing. */
  lemma ReplaceFirstAbsent(s: string, p: string, r: string)
    requires forall j :: 0 <= j <= |s| ==> !OccursAt(s, p, j)
    ensures ReplaceFirst(s, p, r) == s
  {
    ReplaceFirstSpec(s, p, r);
  }

  /** The last index at which `c` occurs in `s` (`str.rfind`), if any. */
  function LastIndexOf(s: string, c: char): (r: Option<nat>)
    ensures r.Some? ==> r.value < |s| && s[r.value] == c
    ensures r.Some? ==> forall j :: r.value < j < |s| ==> s[j] != c
    ensures r.None? <==> c !in s
  {
    if |s| == 0 then None
    else if s[|s| - 1] == c then Some(|s| - 1)
    else
      var r := LastIndexOf(s[..|s| - 1], c);
      assert s == s[..|s| - 1] + [s[|s| - 1]];
      r
  }

  /** `p` occurs nowhere in `s`. */
  predicate Free(s: string, p: string) {
    forall j :: 0 <= j <= |s| ==> !OccursAt(s, p, j)
  }

  /**
   * `s.split(c)` for a one-character separator, in JavaScript and in
   * Python alike: the maximal runs between separators, empty runs kept.
   */
  function Split(s: string, c: char): (parts: seq<string>)
    ensures |parts| >= 1
    ensures forall i :: 0 <= i < |parts| ==> c !in parts[i]
    decreases |s|
  {
    if |s| == 0 then [""]
    else
      var rest := Split(s[1..], c);
      if s[0] == c then [""] + rest
      else [[s[0]] + rest[0]] + rest[1..]
  }

  /** `sep.join(parts)` (Python) and `parts.join(sep)` (JavaScript). */
  function Join(parts: seq<string>, sep: string): string {
    if |parts| == 0 then ""
    else if |parts| == 1 then parts[0]
    else parts[0] + sep + Join(parts[1..], sep)
  }

  /** Joining the pieces of a split with the separator gives back the input. */
  lemma {:induction false} JoinSplit(s: string, c: char)
    ensures Join(Split(s, c), [c]) == s
    decreases |s|
  {
    if |s| > 0 {
      var rest := Split(s[1..], c);
      JoinSplit(s[1..], c);
      if s[0] == c {
        assert Split(s, c) == [""] + rest;
        assert ([""] + rest)[1..] == rest;
      } else {
        var parts := [[s[0]] + rest[0]] + rest[1..];
        assert Split(s, c) == parts;
        if |rest| == 1 {
          assert Join(rest, [c]) == rest[0];
        } else {
          assert parts[1..] == rest[1..];
          assert Join(rest, [c]) == rest[0] + [c] + Join(rest[1..], [c]);
        }
        assert s == [s[0]] + s[1..];
      }
    }
  }

  /** Splitting a join of separator-free pieces gives back the pieces. */
  lemma {:induction false} SplitJoin(parts: seq<string>, c: char)
    requires |parts| >= 1
    requires forall i :: 0 <= i < |parts| ==> c !in parts[i]
    ensures Split(Join(parts, [c]), c) == parts
    decreases |parts|, |parts[0]|
  {
    var head := parts[0];
    if |head| == 0 {
      if |parts| == 1 {
        assert Join(parts, [c]) == "";
      } else {
        var tail := Join(parts[1..], [c]);
        assert Join(parts, [c]) == [c] + tail;
        SplitJoin(parts[1..], c);
        assert ([c] + tail)[1..] == tail;
        assert parts == [""] + parts[1..];
      }
    } else {
      var shorter := [head[1..]] + parts[1..];
      assert forall i :: 0 <= i < |shorter| ==> c !in shorter[i] by {
        forall i | 0 <= i < |shorter| ensures c !in shorter[i] {
          if i == 0 {
            assert forall k :: 0 <= k < |head[1..]| ==> head[1..][k] == head[k + 1];
          } else {
            assert shorter[i] == parts[i];
          }
        }
      }
      SplitJoin(shorter, c);
      var s := Join(parts, [c]);
      assert s == [head[0]] + Join(shorter, [c]) by {
        if |parts| == 1 {
          assert head == [head[0]] + head[1..];
        } else {
          assert shorter[1..] == parts[1..];
          assert head == [head[0]] + head[1..];
        }
      }
      assert s[0] == head[0] && s[1..] == Join(shorter, [c]);
      assert head[0] != c by { assert head[0] in head; }
      var rest := Split(s[1..], c);
      assert rest == shorter;
      assert [[head[0]] + rest[0]] + rest[1..] == parts by {
        assert [head[0]] + head[1..] == head;
      }
    }
  }

  /** A string splits into one piece exactly when it holds no separator. */
  lemma {:induction false} SplitSingle(s: string, c: char)
    ensures |Split(s, c)| == 1 <==> c !in s
    decreases |s|
  {
    if |s| > 0 {
      SplitSingle(s[1..], c);
      assert s == [s[0]] + s[1..];
    }
  }

  /** The first piece of a split is the text before the first separator, or all of it. */
  lemma {:induction false} SplitHead(t: string, c: char)
    ensures StartsWith(t, Split(t, c)[0])
    ensures |Split(t, c)[0]| == |t| || t[|Split(t, c)[0]|] == c
    decreases |t|
  {
    if |t| > 0 && t[0] != c {
      SplitHead(t[1..], c);
      var h := Split(t[1..], c)[0];
      assert Split(t, c)[0] == [t[0]] + h;
      assert t == [t[0]] + t[1..];
    }
  }

  /** Splitting at the first separator: the text before it, then the pieces of the text after it. */
  lemma SplitAtFirst(s: string, c: char, i: nat)
    requires i < |s| && s[i] == c && c !in s[..i]
    ensures Split(s, c) == [s[..i]] + Split(s[i + 1..], c)
  {
    var after := Split(s[i + 1..], c);
    var parts := [s[..i]] + after;
    JoinSplit(s[i + 1..], c);
    assert parts[1..] == after;
    assert Join(parts, [c]) == s[..i] + [c] + s[i + 1..];
    assert s == s[..i] + [c] + s[i + 1..];
    SplitJoin(parts, c);
  }

  /** A join of two or more pieces ends with the separator and the last piece. */
  lemma {:induction false} JoinLast(parts: seq<string>, sep: string)
    requires |parts| >= 2
    ensures Join(parts, sep) == Join(parts[..|parts| - 1], sep) + sep + parts[|parts| - 1]
    decreases |parts|
  {
    if |parts| > 2 {
      JoinLast(parts[1..], sep);
      assert parts[1..][..|parts| - 2] == parts[..|parts| - 1][1..];
    }
  }

  /** The character for a decimal digit. */
  function DigitChar(d: nat): (ch: char)
    requires d < 10
    ensures '0' <= ch <= '9'
  {
    ('0' as int + d) as char
  }

  /** All characters are decimal digits. */
  predicate AllDigits(s: string) {
    forall i :: 0 <= i < |s| ==> '0' <= s[i] <= '9'
  }

  /** The decimal rendering of `n` (`str(n)` in Python, `${n}` in JavaScript). */
  function NatToString(n: nat): (r: string)
    ensures |r| >= 1 && AllDigits(r)
  {
    if n < 10 then [DigitChar(n)] else NatToString(n / 10) + [DigitChar(n % 10)]
  }

  /** The value of a string of decimal digits. */
  function ParseNat(s: string): nat
    requires AllDigits(s)
  {
    if |s| == 0 then 0
    else ParseNat(s[..|s| - 1]) * 10 + (s[|s| - 1] as int - '0' as int)
  }

  /** Reading back the decimal rendering gives the number: the rendering is injective. */
  lemma {:induction false} ParseNatToString(n: nat)
    ensures ParseNat(NatToString(n)) == n
  {
    if n >= 10 {
      var s := NatToString(n);
      assert s[..|s| - 1] == NatToString(n / 10);
      ParseNatToString(n / 10);
    }
  }

  /** Distinct numbers render to distinct strings. */
  lemma NatToStringInjective(m: nat, n: nat)
    requires NatToString(m) == NatToString(n)
    ensures m == n
  {
    ParseNatToString(m);
    ParseNatToString(n);
  }
}

/** String helpers with Python's meaning: `sep.join(xs)`, `s.split(sep)`,
    `sub in s`, ASCII `str.lower()` and `str(n)` for a natural number. */
module Strings {
  import opened Wrappers

  /** `sep` occurs in `s` at index `i`. */
  predicate OccursAt(s: string, sep: string, i: int)
  {
    0 <= i && i + |sep| <= |s| && s[i..i + |sep|] == sep
  }

  /** Index of the first occurrence of `sep` in `s` at or after `from`. */
  function FindFrom(s: string, sep: string, from: nat): (r: Option<nat>)
    decreases |s| - from
    ensures r.Some? ==> from <= r.value && OccursAt(s, sep, r.value)
    ensures r.Some? ==> forall j :: from <= j < r.value ==> !OccursAt(s, sep, j)
    ensures r.None? ==> forall j :: from <= j ==> !OccursAt(s, sep, j)
  {
    if from + |sep| > |s| then None
    else if s[from..from + |sep|] == sep then Some(from)
    else FindFrom(s, sep, from + 1)
  }

  /** Index of the first occurrence of `sep` in `s` (Python's `s.find(sep)`). */
  function Find(s: string, sep: string): Option<nat>
  {
    FindFrom(s, sep, 0)
  }

  /** Python's substring test `sub in s`. */
  predicate Contains(s: string, sub: string)
  {
    Find(s, sub).Some?
  }

  lemma ContainsIff(s: string, sub: string)
    ensures Contains(s, sub) <==> exists i :: OccursAt(s, sub, i)
  {
  }

  /** Python's `sep.join(xs)`. */
  function Join(xs: seq<string>, sep: string): string
  {
    if |xs| == 0 then ""
    else if |xs| == 1 then xs[0]
    else xs[0] + sep + Join(xs[1..], sep)
  }

  /** Python's `s.split(sep)` for a non-empty separator: the pieces between the
      non-overlapping occurrences of `sep`, scanning left to right. */
  function Split(s: string, sep: string): (r: seq<string>)
    requires sep != ""
    ensures |r| >= 1
    decreases |s|
  {
    match Find(s, sep)
    case None => [s]
    case Some(i) => [s[..i]] + Split(s[i + |sep|..], sep)
  }

  /** Joining the pieces of a split with the same separator gives back the string. */
  lemma {:induction false} JoinSplit(s: string, sep: string)
    requires sep != ""
    ensures Join(Split(s, sep), sep) == s
    decreases |s|
  {
    match Find(s, sep)
    case None =>
    case Some(i) =>
      var head, rest := s[..i], s[i + |sep|..];
      var pieces := Split(rest, sep);
      var all := [head] + pieces;
      assert Split(s, sep) == all;
      assert all[0] == head && all[1..] == pieces;
      JoinSplit(rest, sep);
      assert Join(all, sep) == head + sep + rest;
      assert s[i..i + |sep|] == sep;
      assert s == head + s[i..i + |sep|] + rest;
  }

  /** No piece of a split contains the separator. */
  lemma {:induction false} SplitPiecesFree(s: string, sep: string)
    requires sep != ""
    ensures forall p :: p in Split(s, sep) ==> !Contains(p, sep)
    decreases |s|
  {
    match Find(s, sep)
    case None =>
    case Some(i) =>
      var rest := s[i + |sep|..];
      SplitPiecesFree(rest, sep);
      var head := s[..i];
      forall j
        ensures !OccursAt(head, sep, j)
      {
        if 0 <= j && j + |sep| <= |head| {
          assert head[j..j + |sep|] == s[j..j + |sep|];
          assert !OccursAt(s, sep, j);
        }
      }
      ContainsIff(head, sep);
      assert Split(s, sep) == [head] + Split(rest, sep);
  }

  /** `sep` has no proper non-empty prefix that is also its suffix, so two
      occurrences can never overlap (true of " ", "\n" and "OR"). */
  predicate BorderFree(sep: string)
  {
    forall k :: 0 < k < |sep| ==> sep[k..] != sep[..|sep| - k]
  }

  /** A border-free separator found at the end of `x` cannot start inside `x`
      unless `x` itself contains it. */
  lemma NoStraddle(x: string, sep: string, tail: string, j: int)
    requires BorderFree(sep) && !Contains(x, sep)
    requires 0 <= j < |x|
    ensures !OccursAt(x + sep + tail, sep, j)
  {
    var s := x + sep + tail;
    var m := |sep|;
    if j + m <= |x| {
      assert x[j..j + m] == s[j..j + m];
      ContainsIff(x, sep);
      assert !OccursAt(x, sep, j);
    } else {
      var k := |x| - j;
      assert s[|x|..j + m] == sep[..m - k];
      assert sep[k..] != sep[..m - k];
      assert s[j..j + m][k..] == s[|x|..j + m];
    }
  }

  /** The first piece of `x + sep + tail` is `x` when `x` does not contain
      the border-free `sep`. */
  lemma SplitFirstPiece(x: string, sep: string, tail: string)
    requires sep != "" && BorderFree(sep) && !Contains(x, sep)
    ensures Split(x + sep + tail, sep) == [x] + Split(tail, sep)
  {
    var s := x + sep + tail;
    assert OccursAt(s, sep, |x|) by {
      assert s[|x|..|x| + |sep|] == sep;
    }
    forall j | 0 <= j < |x|
      ensures !OccursAt(s, sep, j)
    {
      NoStraddle(x, sep, tail, j);
    }
    assert Find(s, sep) == Some(|x|);
    assert s[..|x|] == x;
    assert s[|x| + |sep|..] == tail;
  }

  /** Splitting a join gives back the pieces, when the separator is border-free
      and occurs in none of them. */
  lemma {:induction false} SplitJoin(xs: seq<string>, sep: string)
    requires sep != "" && BorderFree(sep) && |xs| >= 1
    requires forall x :: x in xs ==> !Contains(x, sep)
    ensures Split(Join(xs, sep), sep) == xs
    decreases |xs|
  {
    if |xs| == 1 {
      assert xs[0] in xs;
      assert Find(xs[0], sep) == None;
      assert Join(xs, sep) == xs[0];
    } else {
      assert Join(xs, sep) == xs[0] + sep + Join(xs[1..], sep);
      SplitFirstPiece(xs[0], sep, Join(xs[1..], sep));
      SplitJoin(xs[1..], sep);
      assert xs == [xs[0]] + xs[1..];
    }
  }

  /** A string none of whose characters is `c` does not contain `[c]`. */
  lemma NoCharNotContained(s: string, c: char)
    requires c !in s
    ensures !Contains(s, [c])
  {
    ContainsIff(s, [c]);
    forall i
      ensures !OccursAt(s, [c], i)
    {
      if 0 <= i && i + 1 <= |s| {
        assert s[i..i + 1][0] == s[i];
      }
    }
  }

  /** Python's `str.lower()` on ASCII letters; other characters are unchanged. */
  function LowerChar(c: char): char
  {
    if 'A' <= c <= 'Z' then (c as int + 32) as char else c
  }

  function Lower(s: string): string
  {
    seq(|s|, i requires 0 <= i < |s| => LowerChar(s[i]))
  }

  function DigitChar(d: nat): char
    requires d < 10
  {
    "0123456789"[d]
  }

  function DigitValue(c: char): nat
  {
    if '0' <= c <= '9' then c as nat - '0' as nat else 0
  }

  /** Python's `str(n)` for a natural number: its decimal digits. */
  function NatToString(n: nat): (r: string)
    ensures |r| >= 1
    decreases n
  {
    if n < 10 then [DigitChar(n)] else NatToString(n / 10) + [DigitChar(n % 10)]
  }

  /** Decimal digits back to their number (the inverse of NatToString). */
  function ParseNat(s: string): nat
  {
    if s == "" then 0 else ParseNat(s[..|s| - 1]) * 10 + DigitValue(s[|s| - 1])
  }

  lemma {:induction false} ParseNatToString(n: nat)
    ensures ParseNat(NatToString(n)) == n
    decreases n
  {
    var s := NatToString(n);
    if n < 10 {
      assert s[..|s| - 1] == "";
    } else {
      ParseNatToString(n / 10);
      assert s[..|s| - 1] == NatToString(n / 10);
    }
  }
}

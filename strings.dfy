/** The few PHP string functions the core relies on. */
module Strings {

  /** `needle` occurs in `s` starting at position `i`. */
  predicate OccursAt(s: string, needle: string, i: nat) {
    i + |needle| <= |s| && s[i..i + |needle|] == needle
  }

  /** Phramework's `Util::startsWith`: a plain prefix test. */
  predicate StartsWith(s: string, prefix: string) {
    |prefix| <= |s| && s[..|prefix|] == prefix
  }

  /**
   * PHP's `str_replace` with one search string: every non-overlapping
   * occurrence, scanning from the left, is replaced; an empty search
   * string leaves the subject unchanged.
   */
  function ReplaceAll(s: string, search: string, replacement: string): (r: string)
    decreases |s|
  {
    if |search| == 0 || |s| < |search| then s
    else if s[..|search|] == search then replacement + ReplaceAll(s[|search|..], search, replacement)
    else [s[0]] + ReplaceAll(s[1..], search, replacement)
  }

  /** Replacing a string that does not occur changes nothing. */
  lemma {:induction false} ReplaceAllAbsent(s: string, search: string, replacement: string)
    requires forall i :: 0 <= i < |s| ==> !OccursAt(s, search, i)
    ensures ReplaceAll(s, search, replacement) == s
    decreases |s|
  {
    if |search| == 0 || |s| < |search| {
    } else {
      assert !OccursAt(s, search, 0);
      forall i | 0 <= i < |s[1..]|
        ensures !OccursAt(s[1..], search, i)
      {
        assert !OccursAt(s, search, i + 1);
        if i + |search| <= |s[1..]| {
          assert s[1..][i..i + |search|] == s[i + 1..i + 1 + |search|];
        }
      }
      ReplaceAllAbsent(s[1..], search, replacement);
    }
  }

  /** A prefix in which no occurrence of the search string starts is kept as it is. */
  lemma {:induction false} ReplaceAllKeepsPrefix(a: string, b: string, search: string, replacement: string)
    requires |search| > 0
    requires forall i :: 0 <= i < |a| ==> !OccursAt(a + b, search, i)
    ensures ReplaceAll(a + b, search, replacement) == a + ReplaceAll(b, search, replacement)
    decreases |a|
  {
    if |a| > 0 {
      var s := a + b;
      assert !OccursAt(s, search, 0);
      if |s| < |search| {
        // then a + b is too short for any occurrence, so b is too
        assert |b| < |search|;
        assert ReplaceAll(b, search, replacement) == b;
      } else {
        assert s[..|search|] != search;
        assert s[1..] == a[1..] + b;
        forall i | 0 <= i < |a[1..]|
          ensures !OccursAt(a[1..] + b, search, i)
        {
          assert !OccursAt(s, search, i + 1);
          if i + |search| <= |a[1..] + b| {
            assert (a[1..] + b)[i..i + |search|] == s[i + 1..i + 1 + |search|];
          }
        }
        ReplaceAllKeepsPrefix(a[1..], b, search, replacement);
        assert ReplaceAll(s, search, replacement) == [s[0]] + ReplaceAll(s[1..], search, replacement);
        assert a == [a[0]] + a[1..];
      }
    } else {
      assert a + b == b;
    }
  }

  /** `s` ends with `suffix`. */
  predicate EndsWith(s: string, suffix: string) {
    |suffix| <= |s| && s[|s| - |suffix|..] == suffix
  }

  /** PHP's `rtrim($s, c)`: drops every trailing `c`. */
  function TrimRight(s: string, c: char): (r: string)
    ensures StartsWith(s, r)
    ensures |r| == 0 || r[|r| - 1] != c
  {
    if |s| > 0 && s[|s| - 1] == c then TrimRight(s[..|s| - 1], c) else s
  }

  /** Only `c`s are dropped: everything after the kept prefix is `c`. */
  lemma {:induction false} TrimRightDropsOnly(s: string, c: char)
    ensures forall k :: |TrimRight(s, c)| <= k < |s| ==> s[k] == c
  {
    if |s| > 0 && s[|s| - 1] == c {
      TrimRightDropsOnly(s[..|s| - 1], c);
    }
  }

  /** PHP's `ltrim($s, c)`: drops every leading `c`. */
  function TrimLeft(s: string, c: char): (r: string)
    ensures EndsWith(s, r)
    ensures |r| == 0 || r[0] != c
  {
    if |s| > 0 && s[0] == c then TrimLeft(s[1..], c) else s
  }

  /** Only `c`s are dropped: everything before the kept suffix is `c`. */
  lemma {:induction false} TrimLeftDropsOnly(s: string, c: char)
    ensures forall k :: 0 <= k < |s| - |TrimLeft(s, c)| ==> s[k] == c
  {
    if |s| > 0 && s[0] == c {
      TrimLeftDropsOnly(s[1..], c);
    }
  }

  /** PHP's `trim($s, c)`. */
  function Trim(s: string, c: char): string {
    TrimLeft(TrimRight(s, c), c)
  }
}

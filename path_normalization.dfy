/**
 * The rewrite that turns the output path of a playlist entry into the
 * "Windows-formatted" form stored in its `path` field. It is two chained
 * string replacements:
 *   1. a global regular-expression replacement of every backslash-slash pair
 *      by a single backslash, scanning left to right without overlaps;
 *   2. a replacement with a plain string pattern, which in JavaScript rewrites
 *      only the FIRST remaining forward slash into a backslash.
 * Later forward slashes survive step 2: "/u/a.bin" becomes "\u/a.bin".
 */
module PathNormalization {

  /** Number of times the character `c` occurs in `s`. */
  function Occurrences(c: char, s: string): nat {
    multiset(s)[c]
  }

  /** `s` holds a backslash immediately followed by a forward slash at index `i`. */
  predicate EscapedSlashAt(s: string, i: int) {
    0 <= i < |s| - 1 && s[i] == '\\' && s[i + 1] == '/'
  }

  ghost predicate ContainsEscapedSlash(s: string) {
    exists i :: EscapedSlashAt(s, i)
  }

  /**
   * Reference count: the number of indices at which a backslash-slash pair
   * starts, found by sliding a window one character at a time (so it would
   * also count overlapping pairs, if the pattern could overlap itself).
   */
  function OccurrenceCount(s: string): nat {
    if |s| < 2 then 0
    else (if EscapedSlashAt(s, 0) then 1 else 0) + OccurrenceCount(s[1..])
  }

  // ---------------------------------------------------------------------------
  // Step 1: replace(/\\\//g, '\\')
  // ---------------------------------------------------------------------------

  /**
   * The global regular-expression replacement of step 1. After a match the scan
   * resumes behind the matched pair, so matches never overlap. Because the pair
   * cannot overlap itself, every occurrence in the input is replaced: the result
   * is shorter by exactly the number of occurrences.
   */
  function ReplaceEscapedSlashes(s: string): (r: string)
    ensures |r| == |s| - OccurrenceCount(s)
  {
    if |s| < 2 then s
    else if s[0] == '\\' && s[1] == '/' then "\\" + ReplaceEscapedSlashes(s[2..])
    else [s[0]] + ReplaceEscapedSlashes(s[1..])
  }

  /**
   * `r` is `s` with some backslash-slash pairs collapsed to a single backslash
   * and nothing else changed: same characters, same order.
   */
  ghost predicate CollapsesEscapedSlashes(s: string, r: string)
    decreases |s|
  {
    if s == [] then r == []
    else
      || (r != [] && r[0] == s[0] && CollapsesEscapedSlashes(s[1..], r[1..]))
      || (EscapedSlashAt(s, 0) && r != [] && r[0] == '\\' && CollapsesEscapedSlashes(s[2..], r[1..]))
  }

  /** Step 1 only collapses backslash-slash pairs; every other character is kept in order. */
  lemma {:induction false} ReplaceEscapedSlashesOnlyCollapses(s: string)
    ensures CollapsesEscapedSlashes(s, ReplaceEscapedSlashes(s))
  {
    var r := ReplaceEscapedSlashes(s);
    if |s| < 2 {
      if s != [] {
        assert r[1..] == [] == s[1..];
      }
    } else if s[0] == '\\' && s[1] == '/' {
      ReplaceEscapedSlashesOnlyCollapses(s[2..]);
      assert r[1..] == ReplaceEscapedSlashes(s[2..]);
    } else {
      ReplaceEscapedSlashesOnlyCollapses(s[1..]);
      assert r[1..] == ReplaceEscapedSlashes(s[1..]);
    }
  }

  /**
   * Step 1 is the one way of collapsing that collapses every pair: any
   * collapsing is at least as long as step 1's result, and one exactly as
   * short as it is step 1's result.
   */
  lemma {:induction false} CollapsingEveryPairIsStep1(s: string, r: string)
    requires CollapsesEscapedSlashes(s, r)
    ensures |r| >= |s| - OccurrenceCount(s)
    ensures |r| == |s| - OccurrenceCount(s) ==> r == ReplaceEscapedSlashes(s)
    decreases |s|
  {
    if s == [] {
    } else if |s| == 1 {
      assert r != [] && r[0] == s[0] && CollapsesEscapedSlashes(s[1..], r[1..]);
      assert r == [r[0]] + r[1..];
    } else if EscapedSlashAt(s, 0) {
      OccurrenceCountAfterPair(s);
      if r != [] && r[0] == s[0] && CollapsesEscapedSlashes(s[1..], r[1..]) {
        // Keeping the backslash leaves the slash to be kept as well: one pair stays.
        CollapsingEveryPairIsStep1(s[1..], r[1..]);
        assert !EscapedSlashAt(s[1..], 0);
        assert OccurrenceCount(s[1..]) == OccurrenceCount(s[1..][1..]);
        assert s[1..][1..] == s[2..];
      } else {
        assert r != [] && r[0] == '\\' && CollapsesEscapedSlashes(s[2..], r[1..]);
        CollapsingEveryPairIsStep1(s[2..], r[1..]);
        assert r == [r[0]] + r[1..];
      }
    } else {
      assert r != [] && r[0] == s[0] && CollapsesEscapedSlashes(s[1..], r[1..]);
      CollapsingEveryPairIsStep1(s[1..], r[1..]);
      assert r == [r[0]] + r[1..];
    }
  }

  /** A pair at the front counts once, and the slash it ends with cannot start another. */
  lemma OccurrenceCountAfterPair(s: string)
    requires EscapedSlashAt(s, 0)
    ensures OccurrenceCount(s) == 1 + OccurrenceCount(s[2..])
  {
    assert !EscapedSlashAt(s[1..], 0);
    assert s[1..][1..] == s[2..];
  }

  /** Counting a character distributes over concatenation. */
  lemma OccurrencesConcat(c: char, a: string, b: string)
    ensures Occurrences(c, a + b) == Occurrences(c, a) + Occurrences(c, b)
  {
    assert multiset(a + b) == multiset(a) + multiset(b);
  }

  /** Each replacement of step 1 removes one forward slash: the count of '/' drops by the number of pairs. */
  lemma {:induction false} ReplaceEscapedSlashesSlashCount(s: string)
    ensures Occurrences('/', ReplaceEscapedSlashes(s)) == Occurrences('/', s) - OccurrenceCount(s)
  {
    if |s| < 2 {
    } else if s[0] == '\\' && s[1] == '/' {
      var t := s[2..];
      ReplaceEscapedSlashesSlashCount(t);
      OccurrenceCountAfterPair(s);
      assert s == "\\/" + t;
      OccurrencesConcat('/', "\\/", t);
      OccurrencesConcat('/', "\\", ReplaceEscapedSlashes(t));
      assert multiset("\\/") == multiset{'\\', '/'};
    } else {
      var t := s[1..];
      ReplaceEscapedSlashesSlashCount(t);
      assert s == [s[0]] + t;
      OccurrencesConcat('/', [s[0]], t);
      OccurrencesConcat('/', [s[0]], ReplaceEscapedSlashes(t));
    }
  }

  /** Step 1 removes nothing but forward slashes: the count of every other character is unchanged. */
  lemma {:induction false} ReplaceEscapedSlashesKeepsOthers(s: string, c: char)
    requires c != '/'
    ensures Occurrences(c, ReplaceEscapedSlashes(s)) == Occurrences(c, s)
  {
    if |s| < 2 {
    } else if s[0] == '\\' && s[1] == '/' {
      var t := s[2..];
      ReplaceEscapedSlashesKeepsOthers(t, c);
      assert s == "\\/" + t;
      OccurrencesConcat(c, "\\/", t);
      OccurrencesConcat(c, "\\", ReplaceEscapedSlashes(t));
      assert multiset("\\/") == multiset{'\\', '/'};
    } else {
      var t := s[1..];
      ReplaceEscapedSlashesKeepsOthers(t, c);
      assert s == [s[0]] + t;
      OccurrencesConcat(c, [s[0]], t);
      OccurrencesConcat(c, [s[0]], ReplaceEscapedSlashes(t));
    }
  }

  /** There is something to replace exactly when a backslash-slash pair occurs somewhere. */
  lemma {:induction false} OccurrenceCountPositiveIff(s: string)
    ensures OccurrenceCount(s) > 0 <==> ContainsEscapedSlash(s)
  {
    if |s| < 2 {
    } else if EscapedSlashAt(s, 0) {
    } else {
      OccurrenceCountPositiveIff(s[1..]);
      if ContainsEscapedSlash(s) {
        var i :| EscapedSlashAt(s, i);
        assert i > 0;
        assert s[1..][i - 1] == s[i] && s[1..][i] == s[i + 1];
        assert EscapedSlashAt(s[1..], i - 1);
      }
      if ContainsEscapedSlash(s[1..]) {
        var i :| EscapedSlashAt(s[1..], i);
        assert s[1..][i] == s[i + 1] && s[1..][i + 1] == s[i + 2];
        assert EscapedSlashAt(s, i + 1);
      }
    }
  }

  /** Step 1 leaves a string unchanged if and only if it holds no backslash-slash pair. */
  lemma ReplaceEscapedSlashesFixedIff(s: string)
    ensures ReplaceEscapedSlashes(s) == s <==> !ContainsEscapedSlash(s)
  {
    OccurrenceCountPositiveIff(s);
    if OccurrenceCount(s) == 0 {
      NoOccurrenceUnchanged(s);
    }
  }

  lemma {:induction false} NoOccurrenceUnchanged(s: string)
    requires OccurrenceCount(s) == 0
    ensures ReplaceEscapedSlashes(s) == s
  {
    if |s| >= 2 {
      NoOccurrenceUnchanged(s[1..]);
      assert s == [s[0]] + s[1..];
    }
  }

  /** Step 1 is not idempotent: collapsing one pair can expose a new one. */
  lemma ReplaceEscapedSlashesNotIdempotent()
    ensures ReplaceEscapedSlashes("\\//") == "\\/"
    ensures ReplaceEscapedSlashes(ReplaceEscapedSlashes("\\//")) != ReplaceEscapedSlashes("\\//")
  {
    assert "\\//"[2..] == "/";
    assert "\\/"[2..] == "";
  }

  // ---------------------------------------------------------------------------
  // Step 2: replace('/', '\\')
  // ---------------------------------------------------------------------------

  /** Replacement with a string pattern: only the first forward slash becomes a backslash. */
  function ReplaceFirstSlash(s: string): (r: string)
    ensures |r| == |s|
    ensures '/' !in s ==> r == s
  {
    if s == [] then s
    else if s[0] == '/' then "\\" + s[1..]
    else [s[0]] + ReplaceFirstSlash(s[1..])
  }

  /**
   * Where the first forward slash sits at index `i`, exactly that character
   * becomes a backslash; everything before and after it, later slashes
   * included, is kept.
   */
  lemma {:induction false} ReplaceFirstSlashAt(s: string, i: nat)
    requires i < |s| && s[i] == '/' && '/' !in s[..i]
    ensures ReplaceFirstSlash(s) == s[..i] + "\\" + s[i + 1..]
  {
    if i > 0 {
      assert s[0] in s[..i];
      assert s[1..][..i - 1] == s[..i][1..];
      ReplaceFirstSlashAt(s[1..], i - 1);
      assert s[1..][i..] == s[i + 1..];
    }
  }

  /**
   * Step 2 removes one forward slash, if there is any, and puts one backslash
   * in its place; the count of every other character `c` is unchanged.
   */
  lemma {:induction false} ReplaceFirstSlashCounts(s: string, c: char)
    ensures c == '/' ==> Occurrences(c, ReplaceFirstSlash(s)) == if '/' in s then Occurrences(c, s) - 1 else Occurrences(c, s)
    ensures c == '\\' ==> Occurrences(c, ReplaceFirstSlash(s)) == if '/' in s then Occurrences(c, s) + 1 else Occurrences(c, s)
    ensures c != '/' && c != '\\' ==> Occurrences(c, ReplaceFirstSlash(s)) == Occurrences(c, s)
  {
    var r := ReplaceFirstSlash(s);
    if s == [] {
    } else if s[0] == '/' {
      assert s == ['/'] + s[1..];
      assert multiset(s) == multiset{'/'} + multiset(s[1..]);
      assert multiset(r) == multiset{'\\'} + multiset(s[1..]);
    } else {
      ReplaceFirstSlashCounts(s[1..], c);
      assert s == [s[0]] + s[1..];
      assert '/' in s <==> '/' in s[1..];
      assert multiset(s) == multiset{s[0]} + multiset(s[1..]);
      assert multiset(r) == multiset{s[0]} + multiset(ReplaceFirstSlash(s[1..]));
    }
  }

  // ---------------------------------------------------------------------------
  // Both steps
  // ---------------------------------------------------------------------------

  /** The path normalisation applied to every output path: step 1, then step 2. */
  function NormalizeOutputPath(s: string): (r: string)
    ensures |r| == |s| - OccurrenceCount(s)
  {
    ReplaceFirstSlash(ReplaceEscapedSlashes(s))
  }

  /**
   * After both steps there is one forward slash fewer than after step 1 when
   * step 1 left any, and otherwise the same number; in terms of the input,
   * the pairs collapsed by step 1 and the first slash after it are gone.
   */
  lemma NormalizedSlashCount(s: string)
    ensures var mid := ReplaceEscapedSlashes(s);
      Occurrences('/', NormalizeOutputPath(s)) == if '/' in mid then Occurrences('/', mid) - 1 else Occurrences('/', mid)
    ensures var left := Occurrences('/', s) - OccurrenceCount(s);
      Occurrences('/', NormalizeOutputPath(s)) == if left > 0 then left - 1 else 0
  {
    var mid := ReplaceEscapedSlashes(s);
    ReplaceFirstSlashCounts(mid, '/');
    ReplaceEscapedSlashesSlashCount(s);
  }

  /**
   * The output is free of forward slashes exactly when step 1 left at most one:
   * the two steps together do NOT convert every forward slash.
   */
  lemma NormalizedHasNoSlashIff(s: string)
    ensures '/' !in NormalizeOutputPath(s) <==> Occurrences('/', ReplaceEscapedSlashes(s)) <= 1
  {
    var mid := ReplaceEscapedSlashes(s);
    ReplaceFirstSlashCounts(mid, '/');
  }

  /** A path without backslashes holds no backslash-slash pair, so step 1 leaves it alone. */
  lemma NoBackslashUnchanged(s: string)
    requires '\\' !in s
    ensures ReplaceEscapedSlashes(s) == s
  {
    forall i | 0 <= i < |s| - 1
      ensures !EscapedSlashAt(s, i)
    {
      assert s[i] in s;
    }
    ReplaceEscapedSlashesFixedIff(s);
  }

  /**
   * A path that starts with a slash and holds no backslash, such as a POSIX
   * absolute path, gets only its leading slash converted: "/u/a.bin" becomes
   * "\u/a.bin", and every later slash stays.
   */
  lemma PosixAbsolutePathKeepsLaterSlashes(rest: string)
    requires '\\' !in rest
    ensures NormalizeOutputPath("/" + rest) == "\\" + rest
    ensures Occurrences('/', NormalizeOutputPath("/" + rest)) == Occurrences('/', rest)
  {
    var s := "/" + rest;
    assert '\\' !in s;
    NoBackslashUnchanged(s);
    assert ReplaceFirstSlash(s) == "\\" + rest by {
      assert s[1..] == rest;
    }
    OccurrencesConcat('/', "\\", rest);
  }
}

/**
 * The PHP string built-ins the logger relies on, as pure functions:
 * `strpos` (first occurrence), `strtr` with an array of pairs
 * (single pass, longest key first, replaced text never rescanned) and
 * `str_replace("\n", '', ...)`.
 */
module Text {
  import opened Wrappers

  /** `needle` occurs in `hay` starting at index `i`. */
  predicate OccursAt(hay: string, needle: string, i: nat)
  {
    i + |needle| <= |hay| && hay[i..i + |needle|] == needle
  }

  /** The first occurrence of `needle` in `hay` at or after index `i`. */
  function FindFrom(hay: string, needle: string, i: nat): (r: Option<nat>)
    requires i <= |hay|
    ensures r.Some? ==> i <= r.value && OccursAt(hay, needle, r.value)
    ensures r.Some? ==> forall j: nat :: i <= j < r.value ==> !OccursAt(hay, needle, j)
    ensures r.None? ==> forall j: nat :: i <= j ==> !OccursAt(hay, needle, j)
    decreases |hay| - i
  {
    if OccursAt(hay, needle, i) then Some(i)
    else if i == |hay| then None
    else FindFrom(hay, needle, i + 1)
  }

  /**
   * PHP `strpos($hay, $needle)`: the index of the first occurrence, or
   * nothing (PHP's `false`). An empty needle is found at 0, as in PHP 8.
   */
  function FindFirst(hay: string, needle: string): (r: Option<nat>)
    ensures r.Some? <==> exists j: nat :: OccursAt(hay, needle, j)
    ensures r.Some? ==> OccursAt(hay, needle, r.value)
    ensures r.Some? ==> forall j: nat :: j < r.value ==> !OccursAt(hay, needle, j)
  {
    FindFrom(hay, needle, 0)
  }

  /**
   * The length of the longest key of `pairs` that is a non-empty prefix of
   * `t` no longer than `n`, or 0 when there is none. Since two keys of the
   * same length that both prefix `t` are equal, trying the lengths from `n`
   * downwards and looking each prefix up is the same as trying the keys
   * longest first.
   */
  function LongestKey(t: string, pairs: map<string, string>, n: nat): (r: nat)
    requires n <= |t|
    ensures r <= n
    ensures r > 0 ==> t[..r] in pairs
    ensures forall m :: r < m <= n ==> t[..m] !in pairs
    decreases n
  {
    if n == 0 then 0
    else if t[..n] in pairs then n
    else LongestKey(t, pairs, n - 1)
  }

  /**
   * PHP `strtr($s, $pairs)`: one left-to-right pass; at each position the
   * longest key that starts there is replaced by its value and scanning
   * resumes after the key; where no key starts, the character is kept.
   * Empty keys are ignored.
   */
  function Translate(s: string, pairs: map<string, string>): (r: string)
    ensures pairs == map[] ==> r == s
    decreases |s|
  {
    if s == [] then []
    else
      var n := LongestKey(s, pairs, |s|);
      if n == 0 then [s[0]] + Translate(s[1..], pairs)
      else pairs[s[..n]] + Translate(s[n..], pairs)
  }

  /** A key found at the front is replaced by its value, and the value is not scanned again. */
  lemma TranslateKey(k: string, rest: string, pairs: map<string, string>)
    requires k != [] && k in pairs
    requires forall n :: |k| < n <= |k + rest| ==> (k + rest)[..n] !in pairs
    ensures Translate(k + rest, pairs) == pairs[k] + Translate(rest, pairs)
  {
    var s := k + rest;
    assert s[..|k|] == k;
    var n := LongestKey(s, pairs, |s|);
    assert n == |k|;
    assert s[n..] == rest;
  }

  /** Where no key is a prefix of the text, its first character is copied and scanning moves on by one. */
  lemma TranslateNoKeyAt(s: string, pairs: map<string, string>)
    requires s != []
    requires forall n :: 0 < n <= |s| ==> s[..n] !in pairs
    ensures Translate(s, pairs) == [s[0]] + Translate(s[1..], pairs)
  {
    var n := LongestKey(s, pairs, |s|);
    assert n == 0;
  }

  /**
   * When every key opens with the character `c`, a character other than `c`
   * is copied and scanning moves on by one.
   */
  lemma TranslateLiteralChar(s: string, pairs: map<string, string>, c: char)
    requires forall k | k in pairs :: k != [] && k[0] == c
    requires s != [] && s[0] != c
    ensures Translate(s, pairs) == [s[0]] + Translate(s[1..], pairs)
  {
    var n := LongestKey(s, pairs, |s|);
    assert n == 0;
  }

  /**
   * When every key opens with the character `c`, a stretch of text without
   * `c` is copied unchanged in front of the translation of what follows.
   */
  lemma {:induction false} TranslateLiteral(a: string, b: string, pairs: map<string, string>, c: char)
    requires forall k | k in pairs :: k != [] && k[0] == c
    requires c !in a
    ensures Translate(a + b, pairs) == a + Translate(b, pairs)
    decreases |a|
  {
    if a == [] {
      assert a + b == b;
    } else {
      var s := a + b;
      assert s[0] == a[0] && s[1..] == a[1..] + b;
      TranslateLiteralChar(s, pairs, c);
      assert c !in a[1..] by {
        assert forall i :: 0 <= i < |a[1..]| ==> a[1..][i] == a[i + 1];
      }
      TranslateLiteral(a[1..], b, pairs, c);
      assert [a[0]] + a[1..] == a;
    }
  }

  /**
   * PHP `str_replace("\n", '', $s)`: every newline is removed (not replaced
   * by a space) and every other character is kept.
   */
  function StripNewlines(s: string): (r: string)
    ensures '\n' !in r
    ensures multiset(r) == multiset(s)['\n' := 0]
    ensures |r| <= |s|
  {
    if s == [] then []
    else
      assert s == [s[0]] + s[1..];
      (if s[0] == '\n' then [] else [s[0]]) + StripNewlines(s[1..])
  }

  /** Stripping works piecewise, so the characters that remain keep their order. */
  lemma {:induction false} StripNewlinesConcat(a: string, b: string)
    ensures StripNewlines(a + b) == StripNewlines(a) + StripNewlines(b)
    decreases |a|
  {
    if a != [] {
      assert (a + b)[0] == a[0];
      assert (a + b)[1..] == a[1..] + b;
      StripNewlinesConcat(a[1..], b);
      var head := if a[0] == '\n' then [] else [a[0]];
      assert StripNewlines(a + b) == head + StripNewlines(a[1..] + b);
      assert StripNewlines(a) == head + StripNewlines(a[1..]);
      assert head + (StripNewlines(a[1..]) + StripNewlines(b)) == (head + StripNewlines(a[1..])) + StripNewlines(b);
    } else {
      assert a + b == b;
    }
  }

  /** Text without newlines passes through unchanged, so stripping is idempotent. */
  lemma {:induction false} StripNewlinesKeeps(s: string)
    requires '\n' !in s
    ensures StripNewlines(s) == s
    decreases |s|
  {
    if s != [] {
      StripNewlinesKeeps(s[1..]);
    }
  }
}

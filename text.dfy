/**
 * The pieces of Python's string handling that the device-control core relies on:
 * the character classes behind `\d`, `\w` and `\s` in `re` patterns, `str.strip()`,
 * `str.lower()`, string comparison (code-point lexicographic order), `list.sort()`
 * and `list.remove()` on lists of strings, and `int()` of an ASCII digit string.
 *
 * `\d`, `\w` and `lower()` are modelled on ASCII only; whitespace is the complete
 * set of characters for which `str.isspace()` holds.
 */
module Text {

  // ---------------------------------------------------------------- characters

  /** `\d`, restricted to ASCII digits. */
  predicate IsDigit(c: char) {
    '0' <= c <= '9'
  }

  /** `\w`, restricted to ASCII letters, digits and the underscore. */
  predicate IsWordChar(c: char) {
    'a' <= c <= 'z' || 'A' <= c <= 'Z' || IsDigit(c) || c == '_'
  }

  /** `str.isspace()`, which is also what `\s` and `str.strip()` use. */
  predicate IsSpace(c: char) {
    || '\t' <= c <= '\r'
    || '\U{1C}' <= c <= '\U{1F}'
    || c == ' ' || c == '\U{85}' || c == '\U{A0}' || c == '\U{1680}'
    || '\U{2000}' <= c <= '\U{200A}'
    || c == '\U{2028}' || c == '\U{2029}' || c == '\U{202F}' || c == '\U{205F}'
    || c == '\U{3000}'
  }

  /** The whitespace `int()` skips around its digits. CPython maps every non-ASCII
      whitespace character to ' ' and then skips ASCII whitespace only, so the separators
      U+001C to U+001F, which `str.isspace()` counts, stay and make `int()` fail. */
  predicate IsIntSpace(c: char) {
    IsSpace(c) && !('\U{1C}' <= c <= '\U{1F}')
  }

  /** Every character of `s` is in the class `space`. */
  predicate AllIn(space: char -> bool, s: string) {
    forall i :: 0 <= i < |s| ==> space(s[i])
  }

  predicate AllDigits(s: string) {
    forall i :: 0 <= i < |s| ==> IsDigit(s[i])
  }

  predicate AllWordChars(s: string) {
    forall i :: 0 <= i < |s| ==> IsWordChar(s[i])
  }

  // ---------------------------------------------------------------- lower, strip

  function LowerChar(c: char): char {
    if 'A' <= c <= 'Z' then (c as int + 32) as char else c
  }

  /** `str.lower()` on ASCII letters; every other character is kept. */
  function Lower(s: string): string {
    seq(|s|, i requires 0 <= i < |s| => LowerChar(s[i]))
  }

  function TrimStart(space: char -> bool, s: string): string {
    if |s| > 0 && space(s[0]) then TrimStart(space, s[1..]) else s
  }

  function TrimEnd(space: char -> bool, s: string): string {
    if |s| > 0 && space(s[|s| - 1]) then TrimEnd(space, s[..|s| - 1]) else s
  }

  /** Removes the characters of the class `space` from both ends. */
  function StripBy(space: char -> bool, s: string): (r: string)
    ensures r == [] || (!space(r[0]) && !space(r[|r| - 1]))
    ensures |r| <= |s|
  {
    TrimStartFacts(space, s);
    TrimEndKeepsStart(space, TrimStart(space, s));
    TrimEnd(space, TrimStart(space, s))
  }

  /** `str.strip()` with no argument. */
  function Strip(s: string): (r: string)
    ensures r == [] || (!IsSpace(r[0]) && !IsSpace(r[|r| - 1]))
    ensures |r| <= |s|
  {
    StripBy(IsSpace, s)
  }

  lemma TrimStartFacts(space: char -> bool, s: string)
    ensures |TrimStart(space, s)| <= |s|
    ensures TrimStart(space, s) == [] || !space(TrimStart(space, s)[0])
    ensures TrimStart(space, s) == s[|s| - |TrimStart(space, s)|..]
  {
  }

  lemma {:induction false} TrimEndKeepsStart(space: char -> bool, s: string)
    requires s == [] || !space(s[0])
    ensures var r := TrimEnd(space, s); r == [] || (!space(r[0]) && !space(r[|r| - 1]))
    ensures |TrimEnd(space, s)| <= |s|
    ensures TrimEnd(space, s) == s[..|TrimEnd(space, s)|]
    decreases |s|
  {
    if |s| > 0 && space(s[|s| - 1]) {
      TrimEndKeepsStart(space, s[..|s| - 1]);
    }
  }

  /** Leading whitespace goes as a whole block: trimming `s + t` trims `s` first. */
  lemma {:induction false} TrimStartAppend(space: char -> bool, s: string, t: string)
    ensures TrimStart(space, s + t) == if AllIn(space, s) then TrimStart(space, t) else TrimStart(space, s) + t
    decreases |s|
  {
    if |s| == 0 {
      assert s + t == t;
    } else {
      assert (s + t)[0] == s[0];
      if space(s[0]) {
        assert (s + t)[1..] == s[1..] + t;
        assert AllIn(space, s) <==> AllIn(space, s[1..]) by {
          if AllIn(space, s[1..]) {
            forall i | 0 <= i < |s| ensures space(s[i]) {
              if i > 0 { assert s[i] == s[1..][i - 1]; }
            }
          }
        }
        TrimStartAppend(space, s[1..], t);
      }
    }
  }

  lemma {:induction false} TrimEndPadding(space: char -> bool, s: string, post: string)
    requires AllIn(space, post)
    ensures TrimEnd(space, s + post) == TrimEnd(space, s)
    decreases |post|
  {
    if |post| > 0 {
      var p := post[..|post| - 1];
      assert (s + post)[..|s + post| - 1] == s + p;
      TrimEndPadding(space, s, p);
    } else {
      assert s + post == s;
    }
  }

  lemma TrimStartAllSpace(space: char -> bool, s: string)
    requires AllIn(space, s)
    ensures TrimStart(space, s) == []
    decreases |s|
  {
  }

  /** Stripping ignores any padding of the stripped class around its argument. */
  lemma StripPadding(space: char -> bool, pre: string, s: string, post: string)
    requires AllIn(space, pre) && AllIn(space, post)
    ensures StripBy(space, pre + s + post) == StripBy(space, s)
  {
    assert pre + s + post == pre + (s + post);
    TrimStartAppend(space, pre, s + post);
    TrimStartAppend(space, s, post);
    if AllIn(space, s) {
      TrimStartAllSpace(space, s);
      TrimStartAllSpace(space, post);
      assert AllIn(space, s + post);
      TrimStartAllSpace(space, s + post);
    } else {
      TrimEndPadding(space, TrimStart(space, s), post);
    }
  }

  lemma {:induction false} TrimStartLower(s: string)
    ensures Lower(TrimStart(IsSpace, s)) == TrimStart(IsSpace, Lower(s))
    decreases |s|
  {
    if |s| > 0 {
      assert Lower(s)[0] == LowerChar(s[0]);
      assert Lower(s)[1..] == Lower(s[1..]);
      TrimStartLower(s[1..]);
    }
  }

  lemma {:induction false} TrimEndLower(s: string)
    ensures Lower(TrimEnd(IsSpace, s)) == TrimEnd(IsSpace, Lower(s))
    decreases |s|
  {
    if |s| > 0 {
      assert Lower(s)[|s| - 1] == LowerChar(s[|s| - 1]);
      assert Lower(s)[..|s| - 1] == Lower(s[..|s| - 1]);
      TrimEndLower(s[..|s| - 1]);
    }
  }

  /** Lower-casing does not change which characters are whitespace, so it commutes with strip. */
  lemma LowerStrip(s: string)
    ensures Lower(Strip(s)) == Strip(Lower(s))
  {
    TrimStartLower(s);
    TrimEndLower(TrimStart(IsSpace, s));
  }

  lemma StripIdempotent(s: string)
    ensures Strip(Strip(s)) == Strip(s)
  {
    var r := Strip(s);
    if r != [] {
      assert TrimStart(IsSpace, r) == r;
      assert TrimEnd(IsSpace, r) == r;
    }
  }

  lemma LowerIdempotent(s: string)
    ensures Lower(Lower(s)) == Lower(s)
  {
  }

  // ---------------------------------------------------------------- string order

  /** Python's `a < b` on `str`: lexicographic by code point, a proper prefix first. */
  predicate Less(a: string, b: string)
    decreases |a|
  {
    if a == [] then b != []
    else b != [] && (a[0] < b[0] || (a[0] == b[0] && Less(a[1..], b[1..])))
  }

  predicate LessEq(a: string, b: string) {
    a == b || Less(a, b)
  }

  lemma {:induction false} LessIrreflexive(a: string)
    ensures !Less(a, a)
    decreases |a|
  {
    if a != [] {
      LessIrreflexive(a[1..]);
    }
  }

  lemma {:induction false} LessAsymmetric(a: string, b: string)
    ensures Less(a, b) ==> !Less(b, a)
    decreases |a|
  {
    if a != [] && b != [] && a[0] == b[0] {
      LessAsymmetric(a[1..], b[1..]);
    }
  }

  lemma {:induction false} LessTransitive(a: string, b: string, c: string)
    requires Less(a, b) && Less(b, c)
    ensures Less(a, c)
    decreases |a|
  {
    if a != [] && a[0] == b[0] && b[0] == c[0] {
      LessTransitive(a[1..], b[1..], c[1..]);
    }
  }

  lemma {:induction false} LessTotal(a: string, b: string)
    ensures a == b || Less(a, b) || Less(b, a)
    decreases |a|
  {
    if a != [] && b != [] && a[0] == b[0] {
      LessTotal(a[1..], b[1..]);
      if a[1..] == b[1..] {
        assert a == [a[0]] + a[1..] && b == [b[0]] + b[1..];
      }
    }
  }

  lemma LessEqTransitive(a: string, b: string, c: string)
    requires LessEq(a, b) && LessEq(b, c)
    ensures LessEq(a, c)
  {
    if a != b && b != c {
      LessTransitive(a, b, c);
    }
  }

  lemma LessEqAntisymmetric(a: string, b: string)
    requires LessEq(a, b) && LessEq(b, a)
    ensures a == b
  {
    LessAsymmetric(a, b);
  }

  // ---------------------------------------------------------------- sorted lists of strings

  predicate Ascending(s: seq<string>) {
    forall i, j :: 0 <= i < j < |s| ==> LessEq(s[i], s[j])
  }

  /** Sorted ascending and free of duplicates. */
  predicate StrictlyAscending(s: seq<string>) {
    forall i, j :: 0 <= i < j < |s| ==> Less(s[i], s[j])
  }

  function Insert(x: string, s: seq<string>): seq<string> {
    if s == [] then [x]
    else if LessEq(x, s[0]) then [x] + s
    else [s[0]] + Insert(x, s[1..])
  }

  lemma {:induction false} InsertMultiset(x: string, s: seq<string>)
    ensures multiset(Insert(x, s)) == multiset(s) + multiset{x}
    decreases |s|
  {
    if s != [] {
      assert s == [s[0]] + s[1..];
      if !LessEq(x, s[0]) {
        InsertMultiset(x, s[1..]);
      }
    }
  }

  /** Every element of `s` is at least `lo`. */
  predicate AtLeast(lo: string, s: seq<string>) {
    forall k :: 0 <= k < |s| ==> LessEq(lo, s[k])
  }

  /** Every element of `s` is strictly above `lo`. */
  predicate Above(lo: string, s: seq<string>) {
    forall k :: 0 <= k < |s| ==> Less(lo, s[k])
  }

  /** A list is ascending exactly when its head is a lower bound of an ascending tail. */
  lemma AscendingCons(s: seq<string>)
    requires s != []
    ensures Ascending(s) <==> AtLeast(s[0], s[1..]) && Ascending(s[1..])
  {
    var t := s[1..];
    if AtLeast(s[0], t) && Ascending(t) {
      forall i, j | 0 <= i < j < |s| ensures LessEq(s[i], s[j]) {
        assert s[j] == t[j - 1];
        if i > 0 {
          assert s[i] == t[i - 1];
        }
      }
    }
    if Ascending(s) {
      forall k | 0 <= k < |t| ensures LessEq(s[0], t[k]) {
        assert t[k] == s[k + 1];
      }
      forall i, j | 0 <= i < j < |t| ensures LessEq(t[i], t[j]) {
        assert t[i] == s[i + 1] && t[j] == s[j + 1];
      }
    }
  }

  /** A list is strictly ascending exactly when its head is below a strictly ascending tail. */
  lemma StrictlyAscendingCons(s: seq<string>)
    requires s != []
    ensures StrictlyAscending(s) <==> Above(s[0], s[1..]) && StrictlyAscending(s[1..])
  {
    var t := s[1..];
    if Above(s[0], t) && StrictlyAscending(t) {
      forall i, j | 0 <= i < j < |s| ensures Less(s[i], s[j]) {
        assert s[j] == t[j - 1];
        if i > 0 {
          assert s[i] == t[i - 1];
        }
      }
    }
    if StrictlyAscending(s) {
      forall k | 0 <= k < |t| ensures Less(s[0], t[k]) {
        assert t[k] == s[k + 1];
      }
      forall i, j | 0 <= i < j < |t| ensures Less(t[i], t[j]) {
        assert t[i] == s[i + 1] && t[j] == s[j + 1];
      }
    }
  }

  /** Inserting a value no smaller than `lo` keeps `lo` a lower bound. */
  lemma {:induction false} InsertLowerBound(lo: string, x: string, s: seq<string>)
    requires LessEq(lo, x) && AtLeast(lo, s)
    ensures AtLeast(lo, Insert(x, s))
    decreases |s|
  {
    if s != [] && !LessEq(x, s[0]) {
      assert AtLeast(lo, s[1..]) by {
        forall k | 0 <= k < |s[1..]| ensures LessEq(lo, s[1..][k]) {
          assert s[1..][k] == s[k + 1];
        }
      }
      InsertLowerBound(lo, x, s[1..]);
      var r := [s[0]] + Insert(x, s[1..]);
      forall k | 0 <= k < |r| ensures LessEq(lo, r[k]) {
        if k > 0 {
          assert r[k] == Insert(x, s[1..])[k - 1];
        }
      }
    } else if s != [] {
      var r := [x] + s;
      forall k | 0 <= k < |r| ensures LessEq(lo, r[k]) {
        if k > 0 {
          assert r[k] == s[k - 1];
        }
      }
    }
  }

  lemma {:induction false} InsertAscending(x: string, s: seq<string>)
    requires Ascending(s)
    ensures Ascending(Insert(x, s))
    decreases |s|
  {
    if s == [] {
    } else if LessEq(x, s[0]) {
      AscendingCons(s);
      forall k | 0 <= k < |s| ensures LessEq(x, s[k]) {
        if k > 0 {
          assert s[k] == s[1..][k - 1];
          LessEqTransitive(x, s[0], s[k]);
        }
      }
      var r := [x] + s;
      assert r[1..] == s;
      AscendingCons(r);
    } else {
      LessTotal(x, s[0]);
      AscendingCons(s);
      InsertAscending(x, s[1..]);
      InsertLowerBound(s[0], x, s[1..]);
      var r := [s[0]] + Insert(x, s[1..]);
      assert r[1..] == Insert(x, s[1..]);
      AscendingCons(r);
    }
  }

  /** Python's `list.sort()` on a list of strings (an insertion sort as reference). */
  function Sort(s: seq<string>): seq<string> {
    if s == [] then [] else Insert(s[0], Sort(s[1..]))
  }

  /** `sort()` leaves the list ascending and holding the same elements. */
  lemma {:induction false} SortFacts(s: seq<string>)
    ensures Ascending(Sort(s))
    ensures multiset(Sort(s)) == multiset(s)
    decreases |s|
  {
    if s != [] {
      var tail := Sort(s[1..]);
      SortFacts(s[1..]);
      InsertMultiset(s[0], tail);
      InsertAscending(s[0], tail);
      assert Sort(s) == Insert(s[0], tail);
      assert multiset(s) == multiset{s[0]} + multiset(s[1..]) by {
        assert s == [s[0]] + s[1..];
      }
    }
  }

  /** A sorted arrangement of a multiset of strings is unique. */
  lemma {:induction false} AscendingUnique(a: seq<string>, b: seq<string>)
    requires Ascending(a) && Ascending(b)
    requires multiset(a) == multiset(b)
    ensures a == b
    decreases |a|
  {
    if a != [] {
      assert a == [a[0]] + a[1..];
      assert b != [] by {
        assert a[0] in multiset(b);
      }
      assert b == [b[0]] + b[1..];
      AscendingCons(a);
      AscendingCons(b);
      assert LessEq(b[0], a[0]) by {
        assert a[0] in multiset(b);
        var j :| 0 <= j < |b| && b[j] == a[0];
        if j > 0 {
          assert b[j] == b[1..][j - 1];
        }
      }
      assert LessEq(a[0], b[0]) by {
        assert b[0] in multiset(a);
        var i :| 0 <= i < |a| && a[i] == b[0];
        if i > 0 {
          assert a[i] == a[1..][i - 1];
        }
      }
      LessEqAntisymmetric(a[0], b[0]);
      assert multiset(a[1..]) == multiset(b[1..]) by {
        assert multiset(a) == multiset{a[0]} + multiset(a[1..]);
        assert multiset(b) == multiset{b[0]} + multiset(b[1..]);
        assert multiset(a[1..]) == multiset(a) - multiset{a[0]};
        assert multiset(b[1..]) == multiset(b) - multiset{b[0]};
      }
      AscendingUnique(a[1..], b[1..]);
    }
  }

  lemma RepeatedCount<T>(s: seq<T>, i: nat, j: nat)
    requires i < j < |s| && s[i] == s[j]
    ensures multiset(s)[s[i]] >= 2
  {
    var x := s[i];
    assert s == s[..i] + [x] + s[i + 1..j] + [x] + s[j + 1..];
    assert multiset(s) == multiset(s[..i]) + multiset{x} + multiset(s[i + 1..j]) + multiset{x} + multiset(s[j + 1..]);
  }

  /** Sorted, and every value occurs once: then the order is strict. */
  lemma AscendingDistinct(s: seq<string>)
    requires Ascending(s)
    requires forall x :: multiset(s)[x] <= 1
    ensures StrictlyAscending(s)
  {
    forall i, j | 0 <= i < j < |s| ensures Less(s[i], s[j]) {
      if s[i] == s[j] {
        RepeatedCount(s, i, j);
        assert false;
      }
    }
  }

  lemma StrictlyAscendingCounts(s: seq<string>)
    requires StrictlyAscending(s)
    ensures forall x :: multiset(s)[x] <= 1
    decreases |s|
  {
    if s != [] {
      StrictlyAscendingCounts(s[1..]);
      assert s == [s[0]] + s[1..];
      if s[0] in s[1..] {
        var k :| 0 <= k < |s[1..]| && s[1..][k] == s[0];
        assert Less(s[0], s[k + 1]);
        LessIrreflexive(s[0]);
      }
    }
  }

  /** Python's `list.remove(x)`: drop the first element equal to `x`; a no-op here when absent. */
  function RemoveFirst<T(==)>(s: seq<T>, x: T): (r: seq<T>)
    ensures multiset(r) == multiset(s) - multiset{x}
    ensures x in s ==> |r| == |s| - 1
  {
    if s == [] then []
    else if s[0] == x then (assert s == [s[0]] + s[1..]; s[1..])
    else (assert s == [s[0]] + s[1..]; [s[0]] + RemoveFirst(s[1..], x))
  }

  /** Removing an element keeps a strict lower bound. */
  lemma {:induction false} RemoveFirstAbove(lo: string, s: seq<string>, x: string)
    requires Above(lo, s)
    ensures Above(lo, RemoveFirst(s, x))
    decreases |s|
  {
    if s != [] {
      var t := s[1..];
      assert Above(lo, t) by {
        forall k | 0 <= k < |t| ensures Less(lo, t[k]) {
          assert t[k] == s[k + 1];
        }
      }
      if s[0] != x {
        RemoveFirstAbove(lo, t, x);
        var r := [s[0]] + RemoveFirst(t, x);
        forall k | 0 <= k < |r| ensures Less(lo, r[k]) {
          if k > 0 {
            assert r[k] == RemoveFirst(t, x)[k - 1];
          }
        }
      }
    }
  }

  /** `list.remove(x)` on a list kept sorted and free of duplicates keeps it so. */
  lemma {:induction false} RemoveFirstSubsequence(s: seq<string>, x: string)
    requires StrictlyAscending(s)
    ensures StrictlyAscending(RemoveFirst(s, x))
    decreases |s|
  {
    if s != [] {
      StrictlyAscendingCons(s);
      if s[0] != x {
        RemoveFirstSubsequence(s[1..], x);
        RemoveFirstAbove(s[0], s[1..], x);
        var r := [s[0]] + RemoveFirst(s[1..], x);
        assert r[1..] == RemoveFirst(s[1..], x);
        StrictlyAscendingCons(r);
      }
    }
  }

  lemma StrictlyAscendingIsAscending(s: seq<string>)
    requires StrictlyAscending(s)
    ensures Ascending(s)
  {
  }

  // ---------------------------------------------------------------- decimal numbers

  function DigitValue(c: char): nat
    requires IsDigit(c)
  {
    c as int - '0' as int
  }

  /** `int(s)` for a non-empty string of ASCII digits. */
  function DigitsValue(s: string): nat
    requires AllDigits(s)
  {
    if s == [] then 0 else DigitsValue(s[..|s| - 1]) * 10 + DigitValue(s[|s| - 1])
  }

  function DigitChar(d: nat): (c: char)
    requires d < 10
    ensures IsDigit(c) && DigitValue(c) == d
  {
    ('0' as int + d) as char
  }

  /** `str(n)` for a natural number. */
  function NatToString(n: nat): string
  {
    if n < 10 then [DigitChar(n)] else NatToString(n / 10) + [DigitChar(n % 10)]
  }

  /** Writing a number in decimal and reading it back with `int()` gives the number. */
  lemma {:induction false} NatToStringRoundTrip(n: nat)
    ensures var s := NatToString(n); s != [] && AllDigits(s) && DigitsValue(s) == n
  {
    if n >= 10 {
      NatToStringRoundTrip(n / 10);
      var s := NatToString(n);
      assert s[..|s| - 1] == NatToString(n / 10);
    }
  }
}

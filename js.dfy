/** The slice of JavaScript's built-in behaviour that the route handlers rely on:
    String.prototype.indexOf, Array.prototype.map / indexOf / filter / find /
    splice / join, the coercion of an array to a number through the decimal
    strings of its elements, String.prototype.trim and String.prototype.split
    with a one-character separator. Strings are sequences of code points. */
module Js {

  /** A value that may be `undefined`. */
  datatype Option<T> = None | Some(value: T)

  // ---------------------------------------------------------------------------
  // String.prototype.indexOf

  /** `t` occurs in `s` starting at position `k`. */
  predicate OccursAt(s: string, t: string, k: int) {
    0 <= k && k + |t| <= |s| && s[k..k + |t|] == t
  }

  /** `s.indexOf(t, k)` for a start position `k` inside the string. */
  function IndexOfFrom(s: string, t: string, k: nat): (r: int)
    ensures r == -1 || (k <= r && OccursAt(s, t, r))
    ensures r == -1 ==> forall j :: k <= j ==> !OccursAt(s, t, j)
    ensures r >= 0 ==> forall j :: k <= j < r ==> !OccursAt(s, t, j)
    decreases |s| - k
  {
    if k + |t| > |s| then -1
    else if s[k..k + |t|] == t then k
    else IndexOfFrom(s, t, k + 1)
  }

  /** `s.indexOf(t)`: the first position where `t` occurs in `s`, or -1. */
  function StringIndexOf(s: string, t: string): (r: int)
    ensures r == -1 <==> forall j :: !OccursAt(s, t, j)
    ensures r >= 0 ==> OccursAt(s, t, r) && forall j :: 0 <= j < r ==> !OccursAt(s, t, j)
    ensures OccursAt(s, t, 0) ==> r == 0
  {
    IndexOfFrom(s, t, 0)
  }

  /** A string is found at position 0 of itself, so `s.indexOf(s)` is 0. */
  lemma IndexOfSelf(s: string)
    ensures StringIndexOf(s, s) == 0
  {
    assert OccursAt(s, s, 0);
  }

  // ---------------------------------------------------------------------------
  // Array.prototype.map, indexOf, filter, find

  /** `s.map(f)`. */
  function Map<T, U>(s: seq<T>, f: T -> U): seq<U>
  {
    seq(|s|, i requires 0 <= i < |s| => f(s[i]))
  }

  /** `s.indexOf(x)` with strict equality: the first index holding `x`, or -1. */
  function ArrayIndexOf<T(==)>(s: seq<T>, x: T): (r: int)
    ensures -1 <= r < |s|
    ensures r == -1 <==> x !in s
    ensures 0 <= r ==> s[r] == x && x !in s[..r]
  {
    if |s| == 0 then -1
    else if s[0] == x then 0
    else
      var k := ArrayIndexOf(s[1..], x);
      if k == -1 then -1
      else
        assert s[..k + 1] == [s[0]] + s[1..][..k];
        k + 1
  }

  /** `s.filter(keep)`: the elements that pass, in their original order. */
  function Filter<T>(s: seq<T>, keep: T -> bool): (r: seq<T>)
    ensures |r| <= |s|
    ensures forall i :: 0 <= i < |r| ==> r[i] in s && keep(r[i])
    ensures forall i :: 0 <= i < |s| && keep(s[i]) ==> s[i] in r
    ensures (forall i :: 0 <= i < |s| ==> keep(s[i])) ==> r == s
  {
    if |s| == 0 then []
    else
      assert s == [s[0]] + s[1..];
      if keep(s[0]) then [s[0]] + Filter(s[1..], keep)
      else Filter(s[1..], keep)
  }

  /** The filter repeats no element more often than `s` holds it. */
  lemma {:induction false} FilterSubMultiset<T>(s: seq<T>, keep: T -> bool)
    ensures multiset(Filter(s, keep)) <= multiset(s)
  {
    if |s| > 0 {
      assert s == [s[0]] + s[1..];
      FilterSubMultiset(s[1..], keep);
    }
  }

  /** Filtering distributes over concatenation. With the one-element cases
      (an element is kept exactly when it passes) this pins the filter down:
      the passing elements, each as often as in `s`, in their order in `s`. */
  lemma {:induction false} FilterAppend<T>(a: seq<T>, b: seq<T>, keep: T -> bool)
    ensures Filter(a + b, keep) == Filter(a, keep) + Filter(b, keep)
  {
    if |a| > 0 {
      assert (a + b)[0] == a[0] && (a + b)[1..] == a[1..] + b;
      FilterAppend(a[1..], b, keep);
    } else {
      assert a + b == b;
    }
  }

  /** A one-element array keeps its element exactly when it passes. */
  lemma FilterSingleton<T>(x: T, keep: T -> bool)
    ensures Filter([x], keep) == if keep(x) then [x] else []
  {
    assert [x][1..] == [];
  }

  /** `s.find(p)`: the first element satisfying `p`, or `undefined`. */
  function Find<T>(s: seq<T>, p: T -> bool): (r: Option<T>)
    ensures r.None? <==> forall i :: 0 <= i < |s| ==> !p(s[i])
    ensures r.Some? ==> r.value in s && p(r.value)
    ensures r.Some? ==> exists i :: 0 <= i < |s| && s[i] == r.value && forall j :: 0 <= j < i ==> !p(s[j])
  {
    if |s| == 0 then None
    else if p(s[0]) then Some(s[0])
    else
      var r := Find(s[1..], p);
      if r.Some? then
        ghost var i :| 0 <= i < |s[1..]| && s[1..][i] == r.value && forall j :: 0 <= j < i ==> !p(s[1..][j]);
        assert s[i + 1] == r.value && forall j :: 0 <= j < i + 1 ==> !p(s[j]);
        r
      else r
  }

  // ---------------------------------------------------------------------------
  // Numbers and Array.prototype.splice

  /** The integral JavaScript numbers the handlers compute, and NaN. */
  datatype JsNumber = Finite(n: int) | NaN

  /** A decimal digit. */
  predicate IsDigit(c: char) {
    '0' <= c <= '9'
  }

  predicate AllDigits(s: string) {
    forall i :: 0 <= i < |s| ==> IsDigit(s[i])
  }

  /** The decimal digits of `n`, most significant first. */
  function Digits(n: nat): (s: string)
    ensures |s| >= 1 && AllDigits(s)
  {
    var last := [(48 + n % 10) as char];
    if n < 10 then last else Digits(n / 10) + last
  }

  /** The number a string of decimal digits denotes. */
  function DigitsValue(s: string): nat
    requires AllDigits(s)
  {
    if |s| == 0 then 0 else 10 * DigitsValue(s[..|s| - 1]) + (s[|s| - 1] as int - 48)
  }

  /** Reading the digits of `n` back gives `n`. */
  lemma {:induction false} DigitsRoundTrip(n: nat)
    ensures DigitsValue(Digits(n)) == n
  {
    var s := Digits(n);
    if n < 10 {
      assert s[..|s| - 1] == [];
    } else {
      assert s[..|s| - 1] == Digits(n / 10);
      DigitsRoundTrip(n / 10);
    }
  }

  /** ToString of an integral number (Number::toString in radix 10): a minus
      sign for a negative number, then the digits of its magnitude. */
  function NumberToString(x: int): (s: string)
    ensures |s| >= 1 && (s[0] == '-' || IsDigit(s[0]))
  {
    if x < 0 then "-" + Digits(-x) else Digits(x)
  }

  /** ToNumber of a string, for the literal forms of an integer: the empty
      string is 0, an optional sign followed by decimal digits is that
      integer, and any other string is NaN. */
  function StringToNumber(s: string): JsNumber {
    if |s| == 0 then Finite(0)
    else if (s[0] == '-' || s[0] == '+') && |s| >= 2 && AllDigits(s[1..]) then
      var magnitude: int := DigitsValue(s[1..]);
      Finite(if s[0] == '-' then -magnitude else magnitude)
    else if AllDigits(s) then Finite(DigitsValue(s))
    else NaN
  }

  /** ToNumber reads the decimal form of an integer back as that integer. */
  lemma NumberRoundTrip(x: int)
    ensures StringToNumber(NumberToString(x)) == Finite(x)
  {
    var s := NumberToString(x);
    if x < 0 {
      assert s[1..] == Digits(-x);
      DigitsRoundTrip(-x);
    } else {
      DigitsRoundTrip(x);
    }
  }

  /** A string holding a comma is no numeric literal: ToNumber gives NaN. */
  lemma CommaIsNaN(s: string)
    requires ',' in s
    ensures StringToNumber(s) == NaN
  {
    var k :| 0 <= k < |s| && s[k] == ',';
    assert !AllDigits(s) by { assert !IsDigit(s[k]); }
    if k > 0 {
      assert s[1..][k - 1] == ',';
    }
  }

  /** `Number(xs)` for an array of integers. ToPrimitive turns the array into
      `xs.join(",")` of the elements' decimal forms, and ToNumber reads that
      string: the empty array is 0, one element is that element, and two or
      more elements give a string with a comma, which is NaN. */
  function ArrayToNumber(xs: seq<int>): (r: JsNumber)
    ensures r.NaN? <==> |xs| >= 2
    ensures |xs| == 0 ==> r == Finite(0)
    ensures |xs| == 1 ==> r == Finite(xs[0])
  {
    var pieces := Map(xs, NumberToString);
    var text := Join(pieces, ',');
    if |xs| == 1 then
      NumberRoundTrip(xs[0]);
      StringToNumber(text)
    else if |xs| >= 2 then
      assert text[|pieces[0]|] == ',' by { assert (pieces[0] + [','])[|pieces[0]|] == ','; }
      CommaIsNaN(text);
      StringToNumber(text)
    else
      StringToNumber(text)
  }

  /** ECMAScript's ToIntegerOrInfinity on the values above: NaN becomes 0. */
  function ToIntegerOrInfinity(x: JsNumber): int
  {
    match x
    case NaN => 0
    case Finite(n) => n
  }

  /** The position `a.splice(start, ...)` starts at, for an array of length
      `len`: a negative start counts from the end and is clamped at 0, a
      start past the end is clamped at `len`. */
  function SpliceStart(start: JsNumber, len: nat): (k: nat)
    ensures k <= len
  {
    var rel := ToIntegerOrInfinity(start);
    if rel < 0 then (if len + rel < 0 then 0 else len + rel)
    else if rel > len then len
    else rel
  }

  /** The array that `a.splice(start, 1)` leaves behind. */
  function SpliceOne<T>(s: seq<T>, start: JsNumber): (r: seq<T>)
    ensures var k := SpliceStart(start, |s|);
            k < |s| ==> |r| == |s| - 1 && forall i {:trigger r[i]} :: 0 <= i < |r| ==> r[i] == (if i < k then s[i] else s[i + 1])
    ensures SpliceStart(start, |s|) == |s| ==> r == s
  {
    var k := SpliceStart(start, |s|);
    if k < |s| then s[..k] + s[k + 1..] else s
  }

  /** `a.splice(i, 1)` with an index inside the array removes exactly `a[i]`. */
  lemma SpliceOneAtIndex<T>(s: seq<T>, i: int)
    requires 0 <= i < |s|
    ensures SpliceOne(s, Finite(i)) == s[..i] + s[i + 1..]
    ensures |SpliceOne(s, Finite(i))| == |s| - 1
  {
  }

  /** `a.splice(-1, 1)` removes the last element, and leaves `[]` alone. */
  lemma SpliceOneAtMinusOne<T>(s: seq<T>)
    ensures SpliceOne(s, Finite(-1)) == if |s| == 0 then s else s[..|s| - 1]
  {
  }

  /** `a.splice(NaN, 1)` starts at 0: it removes the first element. */
  lemma SpliceOneAtNaN<T>(s: seq<T>)
    ensures SpliceOne(s, NaN) == if |s| == 0 then s else s[1..]
  {
  }

  /** The start `a.splice(xs, 1)` uses when `xs` is an array of two or more
      numbers is 0, whatever the numbers are. */
  lemma ArrayStartOfManyIsZero(xs: seq<int>)
    requires |xs| >= 2
    ensures ArrayToNumber(xs) == NaN
    ensures forall len: nat :: SpliceStart(ArrayToNumber(xs), len) == 0
  {
  }

  // ---------------------------------------------------------------------------
  // String.prototype.trim

  /** ECMAScript's WhiteSpace and LineTerminator code points, which `trim`
      removes: TAB, LF, VT, FF, CR, ZWNBSP, LS, PS and the space separators. */
  predicate IsJsWhiteSpace(c: char) {
    var n := c as int;
    n == 0x09 || n == 0x0A || n == 0x0B || n == 0x0C || n == 0x0D ||
    n == 0x20 || n == 0xA0 || n == 0x1680 || (0x2000 <= n <= 0x200A) ||
    n == 0x2028 || n == 0x2029 || n == 0x202F || n == 0x205F ||
    n == 0x3000 || n == 0xFEFF
  }

  /** The index of the first character at or after `j` that is not white
      space, or `|s|` when there is none. */
  function SkipSpaceFrom(s: string, j: nat): (n: nat)
    requires j <= |s|
    ensures j <= n <= |s|
    ensures n == |s| || !IsJsWhiteSpace(s[n])
    decreases |s| - j
  {
    if j < |s| && IsJsWhiteSpace(s[j]) then SkipSpaceFrom(s, j + 1) else j
  }

  /** The characters `SkipSpaceFrom` passes over are white space. */
  lemma {:induction false} SkippedAreSpace(s: string, j: nat, k: int)
    requires j <= |s| && j <= k < SkipSpaceFrom(s, j)
    ensures IsJsWhiteSpace(s[k])
    decreases |s| - j
  {
    if k > j {
      SkippedAreSpace(s, j + 1, k);
    }
  }

  /** Scanning down from `j` to no lower than `lo`: the index just past the
      last character that is not white space, or `lo` when there is none. */
  function SkipSpaceBack(s: string, lo: nat, j: nat): (e: nat)
    requires lo <= j <= |s|
    ensures lo <= e <= j
    ensures e == lo || !IsJsWhiteSpace(s[e - 1])
  {
    if j > lo && IsJsWhiteSpace(s[j - 1]) then SkipSpaceBack(s, lo, j - 1) else j
  }

  /** The characters `SkipSpaceBack` passes over are white space. */
  lemma {:induction false} SkippedBackAreSpace(s: string, lo: nat, j: nat, k: int)
    requires lo <= j <= |s| && SkipSpaceBack(s, lo, j) <= k < j
    ensures IsJsWhiteSpace(s[k])
  {
    if k < j - 1 {
      SkippedBackAreSpace(s, lo, j - 1, k);
    }
  }

  /** The backward scan of a suffix is the backward scan of the whole string
      stopped at the suffix's start, shifted. */
  lemma {:induction false} SkipSpaceBackOfSuffix(s: string, i: nat, j: nat)
    requires i <= j <= |s|
    ensures SkipSpaceBack(s[i..], 0, j - i) == SkipSpaceBack(s, i, j) - i
  {
    if j > i {
      assert s[i..][j - i - 1] == s[j - 1];
      SkipSpaceBackOfSuffix(s, i, j - 1);
    }
  }

  /** `s.trimStart()`: `s` without its leading white space. */
  function TrimStart(s: string): (r: string)
    ensures |r| <= |s| && r == s[|s| - |r|..]
    ensures r == [] || !IsJsWhiteSpace(r[0])
    ensures forall i :: 0 <= i < |s| - |r| ==> IsJsWhiteSpace(s[i])
  {
    var n := SkipSpaceFrom(s, 0);
    forall i | 0 <= i < n ensures IsJsWhiteSpace(s[i]) {
      SkippedAreSpace(s, 0, i);
    }
    s[n..]
  }

  /** `s.trimEnd()`: `s` without its trailing white space. */
  function TrimEnd(s: string): (r: string)
    ensures |r| <= |s| && r == s[..|r|]
    ensures r == [] || !IsJsWhiteSpace(r[|r| - 1])
    ensures forall i :: |r| <= i < |s| ==> IsJsWhiteSpace(s[i])
  {
    var e := SkipSpaceBack(s, 0, |s|);
    forall i | e <= i < |s| ensures IsJsWhiteSpace(s[i]) {
      SkippedBackAreSpace(s, 0, |s|, i);
    }
    s[..e]
  }

  /** `s.trim()`: the part of `s` between its leading and its trailing white
      space; it begins and ends with a non-space. */
  function Trim(s: string): (r: string)
    ensures |r| <= |s|
    ensures r == [] || (!IsJsWhiteSpace(r[0]) && !IsJsWhiteSpace(r[|r| - 1]))
  {
    var i := SkipSpaceFrom(s, 0);
    s[i..SkipSpaceBack(s, i, |s|)]
  }

  /** Trimming both ends at once is trimming the start and then the end. */
  lemma TrimIsTrimEndOfTrimStart(s: string)
    ensures Trim(s) == TrimEnd(TrimStart(s))
  {
    var i := SkipSpaceFrom(s, 0);
    SkipSpaceBackOfSuffix(s, i, |s|);
    assert TrimStart(s) == s[i..];
  }

  /** `s.trim()` is a substring of `s`, and everything of `s` before it and
      after it is white space: only white space is removed. */
  lemma TrimKeepsContent(s: string)
    ensures var i := SkipSpaceFrom(s, 0); i + |Trim(s)| <= |s| && Trim(s) == s[i..i + |Trim(s)|]
    ensures var i := SkipSpaceFrom(s, 0); forall k :: 0 <= k < i ==> IsJsWhiteSpace(s[k])
    ensures var i := SkipSpaceFrom(s, 0); forall k :: i + |Trim(s)| <= k < |s| ==> IsJsWhiteSpace(s[k])
  {
    var i := SkipSpaceFrom(s, 0);
    forall k | 0 <= k < i ensures IsJsWhiteSpace(s[k]) {
      SkippedAreSpace(s, 0, k);
    }
    forall k | i + |Trim(s)| <= k < |s| ensures IsJsWhiteSpace(s[k]) {
      SkippedBackAreSpace(s, i, |s|, k);
    }
  }

  /** Every character of `s` that is not white space is kept by `trim`, at
      its place relative to the others. */
  lemma TrimKeepsNonSpace(s: string, k: int)
    requires 0 <= k < |s| && !IsJsWhiteSpace(s[k])
    ensures var i := SkipSpaceFrom(s, 0); i <= k < i + |Trim(s)| && Trim(s)[k - i] == s[k]
  {
    var i := SkipSpaceFrom(s, 0);
    if k < i {
      SkippedAreSpace(s, 0, k);
    }
    if k >= SkipSpaceBack(s, i, |s|) {
      SkippedBackAreSpace(s, i, |s|, k);
    }
  }

  /** `trim` adds no character: one absent from `s` is absent from `s.trim()`. */
  lemma TrimAddsNothing(s: string, c: char)
    requires c !in s
    ensures c !in Trim(s)
  {
    TrimKeepsContent(s);
  }

  // ---------------------------------------------------------------------------
  // String.prototype.split with a one-character separator, and its inverse join

  /** The number of occurrences of `c` in `s`. */
  function Count(s: string, c: char): nat {
    if |s| == 0 then 0 else (if s[0] == c then 1 else 0) + Count(s[1..], c)
  }

  lemma {:induction false} CountAppend(a: string, b: string, c: char)
    ensures Count(a + b, c) == Count(a, c) + Count(b, c)
  {
    if |a| > 0 {
      assert (a + b)[1..] == a[1..] + b;
      CountAppend(a[1..], b, c);
    } else {
      assert a + b == b;
    }
  }

  lemma {:induction false} CountAbsent(s: string, c: char)
    requires c !in s
    ensures Count(s, c) == 0
  {
    if |s| > 0 {
      CountAbsent(s[1..], c);
    }
  }

  /** `pieces.join(sep)`. */
  function Join(pieces: seq<string>, sep: char): (r: string)
    ensures |pieces| == 1 ==> r == pieces[0]
    ensures |pieces| > 1 ==> pieces[0] + [sep] <= r
  {
    if |pieces| == 0 then []
    else if |pieces| == 1 then pieces[0]
    else pieces[0] + [sep] + Join(pieces[1..], sep)
  }

  /** `s.split(sep)`: the pieces between the separators. There is one piece
      more than there are separators (so `"".split(",")` is `[""]`), no piece
      holds the separator, and joining the pieces gives `s` back. */
  function Split(s: string, sep: char): (r: seq<string>)
    ensures |r| == Count(s, sep) + 1
    ensures forall i :: 0 <= i < |r| ==> sep !in r[i]
    ensures Join(r, sep) == s
    decreases |s|
  {
    var k := ArrayIndexOf(s, sep);
    if k < 0 then
      CountAbsent(s, sep);
      [s]
    else
      var head, tail := s[..k], s[k + 1..];
      var rest := Split(tail, sep);
      assert s == head + [sep] + tail;
      CountAppend(head + [sep], tail, sep);
      CountAppend(head, [sep], sep);
      CountAbsent(head, sep);
      assert Count([sep], sep) == 1 by { assert [sep][1..] == []; }
      var r := [head] + rest;
      assert r[1..] == rest;
      r
  }

  /** Splitting the join of separator-free pieces gives the pieces back. */
  lemma {:induction false} SplitJoin(pieces: seq<string>, sep: char)
    requires |pieces| > 0
    requires forall i :: 0 <= i < |pieces| ==> sep !in pieces[i]
    ensures Split(Join(pieces, sep), sep) == pieces
  {
    if |pieces| == 1 {
      assert ArrayIndexOf(pieces[0], sep) == -1;
    } else {
      var head, tail := pieces[0], Join(pieces[1..], sep);
      var s := head + [sep] + tail;
      assert s == Join(pieces, sep);
      var k := ArrayIndexOf(s, sep);
      assert s[|head|] == sep;
      assert s[..k] == head && s[k + 1..] == tail;
      SplitJoin(pieces[1..], sep);
    }
  }
}

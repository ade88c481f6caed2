/** The few Python string built-ins the shop relies on, written out: `str.split(sep)`,
    `sep.join(parts)`, `str.strip()`, `str.lower()`, `str.startswith(p)`, `str(n)`
    for an integer and `int(s)`. Strings are sequences of Unicode code points, as
    Python's are. */
module PyStr {
  import opened Wrappers

  // ---------------------------------------------------------------------------
  // str.isspace / str.strip

  /** The code points for which Python's `str.isspace()` holds; `str.strip()` with
      no argument removes exactly these from both ends. */
  predicate IsSpace(c: char) {
    var n := c as int;
    || (0x09 <= n <= 0x0D) || (0x1C <= n <= 0x20)
    || n == 0x85 || n == 0xA0 || n == 0x1680
    || (0x2000 <= n <= 0x200A) || n == 0x2028 || n == 0x2029
    || n == 0x202F || n == 0x205F || n == 0x3000
  }

  /** No whitespace at either end (what `strip()` leaves). */
  predicate Trimmed(s: string) {
    s == [] || (!IsSpace(s[0]) && !IsSpace(s[|s| - 1]))
  }

  function LStrip(s: string): (r: string)
    ensures r == [] || !IsSpace(r[0])
    ensures |r| <= |s| && r == s[|s| - |r|..]
    ensures forall k :: 0 <= k < |s| - |r| ==> IsSpace(s[k])
  {
    if |s| > 0 && IsSpace(s[0]) then LStrip(s[1..]) else s
  }

  function RStrip(s: string): (r: string)
    ensures r == [] || !IsSpace(r[|r| - 1])
    ensures |r| <= |s| && r == s[..|r|]
    ensures forall k :: |r| <= k < |s| ==> IsSpace(s[k])
  {
    if |s| > 0 && IsSpace(s[|s| - 1]) then RStrip(s[..|s| - 1]) else s
  }

  /** `r` is the slice `s[i..j]` and only whitespace lies outside it. */
  predicate SliceBetweenSpaces(s: string, r: string, i: int, j: int) {
    && 0 <= i <= j <= |s| && r == s[i..j]
    && (forall k :: 0 <= k < i ==> IsSpace(s[k]))
    && (forall k :: j <= k < |s| ==> IsSpace(s[k]))
  }

  /** Python's `s.strip()`: the longest slice of `s` with no whitespace at its ends,
      obtained by dropping only whitespace. */
  function Strip(s: string): (r: string)
    ensures Trimmed(r)
    ensures |r| <= |s|
    ensures exists i, j :: SliceBetweenSpaces(s, r, i, j)
  {
    var l := LStrip(s);
    var r := RStrip(l);
    SpaceTrimmedSlice(s, l, r);
    r
  }

  /** Dropping whitespace from the front and then from the back leaves a slice
      with no whitespace at its ends and only whitespace outside it. */
  lemma SpaceTrimmedSlice(s: string, l: string, r: string)
    requires |l| <= |s| && l == s[|s| - |l|..] && (l == [] || !IsSpace(l[0]))
    requires forall k :: 0 <= k < |s| - |l| ==> IsSpace(s[k])
    requires |r| <= |l| && r == l[..|r|] && (r == [] || !IsSpace(r[|r| - 1]))
    requires forall k :: |r| <= k < |l| ==> IsSpace(l[k])
    ensures Trimmed(r) && |r| <= |s|
    ensures exists i, j :: SliceBetweenSpaces(s, r, i, j)
  {
    assert r == [] || r[0] == l[0];
    var i := |s| - |l|;
    assert r == s[i..i + |r|];
    forall k | i + |r| <= k < |s| ensures IsSpace(s[k]) {
      assert s[k] == l[k - i];
    }
    assert SliceBetweenSpaces(s, r, i, i + |r|);
  }

  /** Stripping a string that already has no whitespace at its ends changes nothing. */
  lemma StripTrimmed(s: string)
    requires Trimmed(s)
    ensures Strip(s) == s
  {
  }

  /** `strip()` only removes characters. */
  lemma StripSubMultiset(s: string)
    ensures multiset(Strip(s)) <= multiset(s)
  {
    var l := LStrip(s);
    InnerSubMultiset(s, l, RStrip(l));
  }

  /** A prefix of a suffix uses only characters of the whole. */
  lemma InnerSubMultiset(s: string, l: string, r: string)
    requires |l| <= |s| && l == s[|s| - |l|..]
    requires |r| <= |l| && r == l[..|r|]
    ensures multiset(r) <= multiset(s)
  {
    var k := |s| - |l|;
    assert s == s[..k] + l;
    assert l == r + l[|r|..];
    assert multiset(s) == multiset(s[..k]) + multiset(r) + multiset(l[|r|..]);
  }

  /** `strip()` yields "" exactly when the string is all whitespace. */
  lemma {:induction false} StripEmptyIff(s: string)
    ensures Strip(s) == [] <==> forall k :: 0 <= k < |s| ==> IsSpace(s[k])
  {
  }

  // ---------------------------------------------------------------------------
  // str.split / str.join

  /** Python's `s.split(sep)` for a non-empty separator: scan left to right and cut
      at every non-overlapping occurrence of `sep`. Never empty: `"".split(sep)` is
      `[""]`. */
  function Split(s: string, sep: string): (r: seq<string>)
    requires sep != []
    ensures |r| >= 1
    decreases |s|
  {
    if |s| < |sep| then [s]
    else if s[..|sep|] == sep then [[]] + Split(s[|sep|..], sep)
    else PrependToFirst(s[0], Split(s[1..], sep))
  }

  /** Put `x` in front of the first piece. */
  function PrependToFirst(x: char, pieces: seq<string>): (r: seq<string>)
    requires |pieces| >= 1
    ensures |r| == |pieces| && r[0] == [x] + pieces[0] && r[1..] == pieces[1..]
  {
    [[x] + pieces[0]] + pieces[1..]
  }

  lemma PrependToFirstAppend(x: char, a: seq<string>, b: seq<string>)
    requires |a| >= 1
    ensures PrependToFirst(x, a + b) == PrependToFirst(x, a) + b
  {
    assert (a + b)[1..] == a[1..] + b;
  }

  /** Python's `sep.join(parts)`; `sep.join([])` is "". */
  function Join(parts: seq<string>, sep: string): string {
    if |parts| == 0 then []
    else if |parts| == 1 then parts[0]
    else parts[0] + sep + Join(parts[1..], sep)
  }

  /** `sub` occurs somewhere in `s` (Python's `sub in s`). */
  ghost predicate Contains(s: string, sub: string) {
    exists i :: OccursAt(s, sub, i)
  }

  predicate OccursAt(s: string, sub: string, i: int) {
    0 <= i && i + |sub| <= |s| && s[i..i + |sub|] == sub
  }

  predicate StartsWith(s: string, prefix: string) {
    |prefix| <= |s| && s[..|prefix|] == prefix
  }

  /** The first piece of a split is a prefix of the string. */
  lemma {:induction false} SplitFirstPrefix(s: string, sep: string)
    requires sep != []
    ensures StartsWith(s, Split(s, sep)[0])
    decreases |s|
  {
    if |s| < |sep| || s[..|sep|] == sep {
    } else {
      SplitFirstPrefix(s[1..], sep);
      var w := Split(s[1..], sep)[0];
      assert s[..|w| + 1] == [s[0]] + s[1..][..|w|];
    }
  }

  /** The first piece of a split on one character ends where the string ends or
      just before an occurrence of that character. */
  lemma {:induction false} SplitFirstEnds(s: string, c: char)
    ensures |Split(s, [c])[0]| <= |s|
    ensures |Split(s, [c])[0]| == |s| || s[|Split(s, [c])[0]|] == c
    decreases |s|
  {
    if |s| < 1 || s[..1] == [c] {
    } else {
      SplitFirstEnds(s[1..], c);
    }
  }

  /** Joining the pieces of a split with the same separator gives the string back. */
  lemma {:induction false} JoinSplit(s: string, sep: string)
    requires sep != []
    ensures Join(Split(s, sep), sep) == s
    decreases |s|
  {
    if |s| < |sep| {
    } else if s[..|sep|] == sep {
      JoinSplit(s[|sep|..], sep);
      JoinEmptyFirst(Split(s[|sep|..], sep), sep);
      assert s == s[..|sep|] + s[|sep|..];
    } else {
      JoinSplit(s[1..], sep);
      JoinPrepend(s[0], Split(s[1..], sep), sep);
      assert s == [s[0]] + s[1..];
    }
  }

  lemma JoinEmptyFirst(t: seq<string>, sep: string)
    requires |t| >= 1
    ensures Join([[]] + t, sep) == sep + Join(t, sep)
  {
    assert ([[]] + t)[1..] == t;
  }

  lemma JoinPrepend(x: char, t: seq<string>, sep: string)
    requires |t| >= 1
    ensures Join(PrependToFirst(x, t), sep) == [x] + Join(t, sep)
  {
    var r := PrependToFirst(x, t);
    if |t| > 1 {
      assert Join(r, sep) == ([x] + t[0]) + sep + Join(t[1..], sep);
    }
  }

  /** A string that does not contain the separator splits into itself alone. */
  lemma {:induction false} SplitWithoutSep(s: string, sep: string)
    requires sep != [] && !Contains(s, sep)
    ensures Split(s, sep) == [s]
    decreases |s|
  {
    if |s| < |sep| {
    } else {
      assert !OccursAt(s, sep, 0);
      forall i | OccursAt(s[1..], sep, i) ensures OccursAt(s, sep, i + 1) {
        assert s[i + 1..i + 1 + |sep|] == s[1..][i..i + |sep|];
      }
      SplitWithoutSep(s[1..], sep);
      assert [s[0]] + s[1..] == s;
    }
  }

  /** For one character, `Contains` is plain membership. */
  lemma ContainsChar(s: string, c: char)
    ensures Contains(s, [c]) <==> c in s
  {
    if c in s {
      var i :| 0 <= i < |s| && s[i] == c;
      assert s[i..i + 1] == [c];
      assert OccursAt(s, [c], i);
    }
    if Contains(s, [c]) {
      var i :| OccursAt(s, [c], i);
      assert s[i] == s[i..i + 1][0];
    }
  }

  /** One step of a split on one character. */
  lemma SplitCons(x: char, rest: string, c: char)
    ensures Split([x] + rest, [c]) ==
      if x == c then [[]] + Split(rest, [c]) else PrependToFirst(x, Split(rest, [c]))
  {
    var s := [x] + rest;
    assert s[..1] == [x];
    assert s[1..] == rest;
  }

  /** Splitting on one character distributes over an occurrence of that character. */
  lemma {:induction false} SplitAppend(a: string, c: char, b: string)
    ensures Split(a + [c] + b, [c]) == Split(a, [c]) + Split(b, [c])
    decreases |a|
  {
    if a == [] {
      assert a + [c] + b == [c] + b;
      SplitCons(c, b, c);
    } else {
      SplitAppend(a[1..], c, b);
      SplitAppendStep(a[0], a[1..], c, b);
      assert [a[0]] + a[1..] == a;
    }
  }

  /** The inductive step of `SplitAppend`: one more character in front. */
  lemma SplitAppendStep(x: char, a: string, c: char, b: string)
    requires Split(a + [c] + b, [c]) == Split(a, [c]) + Split(b, [c])
    ensures Split([x] + a + [c] + b, [c]) == Split([x] + a, [c]) + Split(b, [c])
  {
    assert [x] + a + [c] + b == [x] + (a + [c] + b);
    if x == c {
      SplitAppendSep(x, a, c, b);
    } else {
      SplitAppendOther(x, a, c, b);
    }
  }

  lemma SplitAppendSep(x: char, a: string, c: char, b: string)
    requires x == c
    requires Split(a + [c] + b, [c]) == Split(a, [c]) + Split(b, [c])
    ensures Split([x] + (a + [c] + b), [c]) == Split([x] + a, [c]) + Split(b, [c])
  {
    SplitCons(x, a + [c] + b, c);
    SplitCons(x, a, c);
    SeqConsAppend([], Split(a, [c]), Split(b, [c]));
  }

  lemma SplitAppendOther(x: char, a: string, c: char, b: string)
    requires x != c
    requires Split(a + [c] + b, [c]) == Split(a, [c]) + Split(b, [c])
    ensures Split([x] + (a + [c] + b), [c]) == Split([x] + a, [c]) + Split(b, [c])
  {
    SplitCons(x, a + [c] + b, c);
    SplitCons(x, a, c);
    PrependToFirstAppend(x, Split(a, [c]), Split(b, [c]));
  }

  lemma SeqConsAppend<T>(h: T, ta: seq<T>, tb: seq<T>)
    ensures [h] + (ta + tb) == ([h] + ta) + tb
  {
  }

  /** Joining pieces free of the separator character and splitting again gives the
      pieces back. */
  lemma {:induction false} SplitJoin(parts: seq<string>, c: char)
    requires |parts| >= 1
    requires forall k :: 0 <= k < |parts| ==> c !in parts[k]
    ensures Split(Join(parts, [c]), [c]) == parts
    decreases |parts|
  {
    ContainsChar(parts[0], c);
    SplitWithoutSep(parts[0], [c]);
    if |parts| > 1 {
      SplitJoin(parts[1..], c);
      SplitAppend(parts[0], c, Join(parts[1..], [c]));
      assert [parts[0]] + parts[1..] == parts;
    }
  }

  /** No piece of a split on one character contains that character. */
  lemma {:induction false} SplitPiecesFree(s: string, c: char)
    ensures forall k :: 0 <= k < |Split(s, [c])| ==> c !in Split(s, [c])[k]
    decreases |s|
  {
    if |s| < 1 {
    } else if s[..1] == [c] {
      SplitPiecesFree(s[1..], c);
    } else {
      SplitPiecesFree(s[1..], c);
      assert s[0] != c by { assert s[..1] == [s[0]]; }
    }
  }

  // ---------------------------------------------------------------------------
  // str.lower

  /** `str.lower()` on ASCII letters and the basic Cyrillic block (Ѐ..Я); every other
      code point is left as it is. */
  function LowerChar(c: char): (r: char) {
    var n := c as int;
    if 'A' <= c <= 'Z' then (n + 0x20) as char
    else if 0x0410 <= n <= 0x042F then (n + 0x20) as char
    else if 0x0400 <= n <= 0x040F then (n + 0x50) as char
    else c
  }

  function Lower(s: string): (r: string)
    ensures |r| == |s|
    ensures forall k :: 0 <= k < |s| ==> r[k] == LowerChar(s[k])
  {
    seq(|s|, k requires 0 <= k < |s| => LowerChar(s[k]))
  }

  // ---------------------------------------------------------------------------
  // str(n) / int(s)

  predicate IsDigit(c: char) { '0' as int <= c as int <= '9' as int }

  function DigitChar(d: nat): (c: char)
    requires d < 10
    ensures IsDigit(c) && c as int - '0' as int == d
  {
    ('0' as int + d) as char
  }

  /** Python's `str(n)` for n >= 0: the decimal digits, no leading zeros. */
  function NatToString(n: nat): (r: string)
    ensures |r| >= 1 && forall k :: 0 <= k < |r| ==> IsDigit(r[k])
  {
    if n < 10 then [DigitChar(n)] else NatToString(n / 10) + [DigitChar(n % 10)]
  }

  /** Python's `str(n)` for any integer. */
  function IntToString(n: int): (r: string)
    ensures |r| >= 1 && forall k :: 0 <= k < |r| ==> IsDigit(r[k]) || (k == 0 && r[k] == '-')
  {
    if n < 0 then "-" + NatToString(-n) else NatToString(n)
  }

  predicate AllDigits(s: string) {
    |s| >= 1 && forall k :: 0 <= k < |s| ==> IsDigit(s[k])
  }

  function DigitsValue(s: string): nat
    requires forall k :: 0 <= k < |s| ==> IsDigit(s[k])
  {
    if s == [] then 0
    else
      assert IsDigit(s[|s| - 1]);
      DigitsValue(s[..|s| - 1]) * 10 + (s[|s| - 1] as int - '0' as int)
  }

  /** Python's `int(s)` on an optional minus sign followed by decimal digits; any
      other text raises `ValueError`, which is `None` here. */
  function ParseInt(s: string): Option<int> {
    if |s| >= 1 && s[0] == '-' then
      if AllDigits(s[1..]) then Some(-(DigitsValue(s[1..]) as int)) else None
    else if AllDigits(s) then Some(DigitsValue(s))
    else None
  }

  lemma {:induction false} NatToStringValue(n: nat)
    ensures DigitsValue(NatToString(n)) == n
  {
    if n >= 10 {
      NatToStringValue(n / 10);
      var s := NatToString(n);
      assert s[..|s| - 1] == NatToString(n / 10);
    }
  }

  /** `int(str(n)) == n`. */
  lemma ParseIntToString(n: int)
    ensures ParseInt(IntToString(n)) == Some(n)
  {
    var s := IntToString(n);
    if n < 0 {
      assert s[1..] == NatToString(-n);
      NatToStringValue(-n);
    } else {
      NatToStringValue(n);
    }
  }
}

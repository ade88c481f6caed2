/** A product's stock is one newline-delimited string. This module holds what the
    shop does with that string: the displayed unit count, the claim of one unit
    (the string part of `get_stock_item`), and the text restock. */
module Stock {
  import opened Wrappers
  import opened PyStr

  /** `product_type`: 'file' is a file product, anything else is treated as text. */
  datatype Kind = Text | File

  const NL: string := "\n"

  /** The displayed unit count: a file product has one unit when its stock is
      non-empty; a text product has `len(stock.split('\n'))` units, or none when the
      stock is empty. The string is not stripped first, so a trailing newline is
      counted as one more unit. */
  function StockCount(kind: Kind, stock: string): (n: nat)
    ensures n == 0 <==> stock == []
    ensures kind == File ==> n <= 1
    ensures kind == Text && stock != [] ==> n == multiset(stock)['\n'] + 1
  {
    SplitLength(stock, '\n');
    if stock == [] then 0
    else match kind
      case File => 1
      case Text => |Split(stock, NL)|
  }

  /** A split on one character has one piece more than there are occurrences. */
  lemma {:induction false} SplitLength(s: string, c: char)
    ensures |Split(s, [c])| == multiset(s)[c] + 1
    decreases |s|
  {
    if s != [] {
      assert s == [s[0]] + s[1..];
      SplitCons(s[0], s[1..], c);
      SplitLength(s[1..], c);
      assert multiset(s) == multiset{s[0]} + multiset(s[1..]);
    }
  }

  /** A unit handed out by a claim, and the stock left behind. */
  datatype Claimed = Claimed(item: string, rest: string)

  /** The string part of `get_stock_item`: nothing for an empty stock or one whose
      stripped form is empty; otherwise the first line of the stripped stock, with
      the remaining lines joined back by newlines. What it promises is stated by
      ClaimSpec. */
  function Claim(stock: string): Option<Claimed> {
    if stock == [] then None
    else
      var lines := Split(Strip(stock), NL);
      if lines[0] == [] then None
      else Some(Claimed(lines[0], Join(lines[1..], NL)))
  }

  /** A claim yields nothing exactly when the stripped stock is empty. Otherwise the
      unit is a non-empty single line, it and the stock left rebuild the stripped
      stock around one newline (or it is the whole stripped stock when that has a
      single line), and the count of the stock left is one less. */
  lemma ClaimSpec(stock: string)
    ensures Claim(stock).None? <==> Strip(stock) == []
    ensures Claim(stock).Some? ==> var c := Claim(stock).value;
      && c.item != [] && '\n' !in c.item && !IsSpace(c.item[0])
      && ('\n' in Strip(stock) ==> c.item + NL + c.rest == Strip(stock))
      && ('\n' !in Strip(stock) ==> c.item == Strip(stock) && c.rest == [])
      && StockCount(Text, c.rest) + 1 == StockCount(Text, Strip(stock))
  {
    var t := Strip(stock);
    if t != [] {
      FirstLine(t);
      NoNewlineInLines(t);
      if '\n' in t {
        ManyLines(t);
      } else {
        OneLine(t);
      }
    }
  }

  /** The first line of a non-empty stripped stock is not empty and starts with its
      first character. */
  lemma FirstLine(t: string)
    requires Trimmed(t) && t != []
    ensures Split(t, NL)[0] != [] && Split(t, NL)[0][0] == t[0]
  {
    assert t == [t[0]] + t[1..];
    SplitCons(t[0], t[1..], '\n');
  }

  lemma NoNewlineInLines(t: string)
    ensures forall k :: 0 <= k < |Split(t, NL)| ==> '\n' !in Split(t, NL)[k]
  {
    SplitPiecesFree(t, '\n');
  }

  /** A stock with no newline is one line. */
  lemma OneLine(t: string)
    requires '\n' !in t
    ensures Split(t, NL) == [t]
  {
    ContainsChar(t, '\n');
    SplitWithoutSep(t, NL);
  }

  /** A stock with a newline and none at its end: the first line, a newline and the
      other lines rejoined give it back, and the rejoined lines count one less. */
  lemma ManyLines(t: string)
    requires Trimmed(t) && t != [] && '\n' in t
    ensures var lines := Split(t, NL);
      && |lines| >= 2
      && lines[0] + NL + Join(lines[1..], NL) == t
      && StockCount(Text, Join(lines[1..], NL)) + 1 == StockCount(Text, t)
  {
    var lines := Split(t, NL);
    SplitLength(t, '\n');
    assert |lines| >= 2;
    JoinSplit(t, NL);
    assert Join(lines, NL) == lines[0] + NL + Join(lines[1..], NL);
    SplitLastNotEmpty(t, '\n');
    var rest := Join(lines[1..], NL);
    JoinNonEmpty(lines[1..]);
    NoNewlineInLines(t);
    SplitJoin(lines[1..], '\n');
    assert Split(rest, NL) == lines[1..];
  }

  /** When the last character is not the separator, the last piece is not empty. */
  lemma {:induction false} SplitLastNotEmpty(s: string, c: char)
    requires s != [] && s[|s| - 1] != c
    ensures Split(s, [c])[|Split(s, [c])| - 1] != []
    decreases |s|
  {
    assert s == [s[0]] + s[1..];
    SplitCons(s[0], s[1..], c);
    if |s| > 1 {
      SplitLastNotEmpty(s[1..], c);
    }
  }

  /** Joined pieces are non-empty when the last piece is. */
  lemma {:induction false} JoinNonEmpty(parts: seq<string>)
    requires |parts| >= 1 && parts[|parts| - 1] != []
    ensures Join(parts, NL) != []
    decreases |parts|
  {
    if |parts| > 1 {
      JoinNonEmpty(parts[1..]);
    }
  }

  /** Text restock (`old + "\n" + text`, or the text alone when there is no stock). */
  function Restock(current: string, text: string): string {
    if current != [] then current + NL + text else text
  }

  /** A text restock appends the new lines after the current ones, and the count the
      admin is shown is the current count plus the pieces of the new text. */
  lemma RestockLines(current: string, text: string)
    ensures Split(Restock(current, text), NL) == (if current == [] then [] else Split(current, NL)) + Split(text, NL)
    ensures |Split(Restock(current, text), NL)| == StockCount(Text, current) + |Split(text, NL)|
  {
    if current != [] {
      SplitAppend(current, '\n', text);
    }
  }

  // ---------------------------------------------------------------------------
  // Successive claims

  /** A unit as the admin is expected to enter it: one non-empty line with no
      whitespace at its ends. */
  predicate CleanUnit(u: string) {
    u != [] && '\n' !in u && Trimmed(u)
  }

  predicate AllClean(units: seq<string>) {
    forall k :: 0 <= k < |units| ==> CleanUnit(units[k])
  }

  lemma {:induction false} JoinAppend(a: seq<string>, b: seq<string>)
    requires |a| >= 1 && |b| >= 1
    ensures Join(a + b, NL) == Join(a, NL) + NL + Join(b, NL)
    decreases |a|
  {
    if |a| == 1 {
      assert (a + b)[1..] == b;
    } else {
      assert (a + b)[1..] == a[1..] + b;
      JoinAppend(a[1..], b);
    }
  }

  /** Clean units joined by newlines form a stock that `strip()` leaves alone and
      that starts with the first unit. */
  lemma {:induction false} JoinCleanTrimmed(units: seq<string>)
    requires |units| >= 1 && AllClean(units)
    ensures Join(units, NL) != [] && Trimmed(Join(units, NL))
    ensures Join(units, NL)[0] == units[0][0]
    decreases |units|
  {
    if |units| > 1 {
      JoinCleanTrimmed(units[1..]);
      var j := Join(units[1..], NL);
      assert Join(units, NL) == units[0] + NL + j;
      assert Join(units, NL)[|Join(units, NL)| - 1] == j[|j| - 1];
    }
  }

  /** Claiming from clean units gives the first one and leaves the others. */
  lemma ClaimJoin(units: seq<string>)
    requires |units| >= 1 && AllClean(units)
    ensures Claim(Join(units, NL)) == Some(Claimed(units[0], Join(units[1..], NL)))
  {
    var t := Join(units, NL);
    JoinCleanTrimmed(units);
    StripTrimmed(t);
    SplitJoin(units, '\n');
  }

  /** The outcome of `n` successive claims on one product: what each call returned
      and the stock left at the end. */
  datatype Run = Run(results: seq<Option<string>>, left: string)

  function ClaimRun(stock: string, n: nat): (r: Run)
    ensures |r.results| == n
    decreases n
  {
    if n == 0 then Run([], stock)
    else match Claim(stock)
      case None => var r := ClaimRun(stock, n - 1); Run([None] + r.results, r.left)
      case Some(c) => var r := ClaimRun(c.rest, n - 1); Run([Some(c.item)] + r.results, r.left)
  }

  function Min(a: nat, b: nat): nat { if a <= b then a else b }

  /** `n` claims on the stock made of `units` hand out the first `min(n, units)`
      units in the order they were entered and then find nothing; the stock left is
      the units not handed out. */
  ghost predicate FifoRun(units: seq<string>, n: nat) {
    FifoResult(units, n, ClaimRun(Join(units, NL), n))
  }

  /** `r` is what `n` first-in-first-out claims on `units` give. */
  predicate FifoResult(units: seq<string>, n: nat, r: Run) {
    && |r.results| == n
    && (forall i :: 0 <= i < n ==> r.results[i] == if i < |units| then Some(units[i]) else None)
    && r.left == Join(units[Min(n, |units|)..], NL)
  }

  lemma FifoResultCons(units: seq<string>, n: nat, r': Run)
    requires |units| >= 1 && n >= 1
    requires FifoResult(units[1..], n - 1, r')
    ensures FifoResult(units, n, Run([Some(units[0])] + r'.results, r'.left))
  {
    var r := Run([Some(units[0])] + r'.results, r'.left);
    assert units[1..][Min(n - 1, |units| - 1)..] == units[Min(n, |units|)..];
    forall i | 0 <= i < n
      ensures r.results[i] == if i < |units| then Some(units[i]) else None
    {
      if i > 0 { assert r.results[i] == r'.results[i - 1]; }
    }
  }

  /** FIFO: claims on a stock of clean units hand them out in the order they were
      entered, each exactly once, and after the last one every claim finds nothing. */
  lemma {:induction false} ClaimRunFifo(units: seq<string>, n: nat)
    requires AllClean(units)
    ensures FifoRun(units, n)
    decreases n, 1
  {
    if n == 0 {
      ClaimRunNone(units);
    } else if units == [] {
      ClaimRunEmpty(n);
    } else {
      ClaimRunStep(units, n);
    }
  }

  lemma ClaimRunNone(units: seq<string>)
    ensures FifoRun(units, 0)
  {
  }

  /** Claims on an empty stock all find nothing. */
  lemma {:induction false} ClaimRunEmpty(n: nat)
    ensures FifoRun([], n)
    decreases n
  {
    if n > 0 {
      ClaimRunEmpty(n - 1);
      var r := ClaimRun([], n);
      assert r.results == [None] + ClaimRun([], n - 1).results;
    }
  }

  /** The first claim hands out the first unit; the rest of the run is the run on
      the remaining units. */
  lemma {:induction false} ClaimRunStep(units: seq<string>, n: nat)
    requires AllClean(units) && |units| >= 1 && n >= 1
    ensures FifoRun(units, n)
    decreases n, 0
  {
    assert AllClean(units[1..]);
    ClaimRunFifo(units[1..], n - 1);
    ClaimJoin(units);
    var r' := ClaimRun(Join(units[1..], NL), n - 1);
    assert ClaimRun(Join(units, NL), n) == Run([Some(units[0])] + r'.results, r'.left);
    FifoResultCons(units, n, r');
  }

  /** A text restock of clean units after clean units gives the stock of all of
      them, old ones first. */
  lemma RestockJoin(current: seq<string>, added: seq<string>)
    requires AllClean(current) && AllClean(added) && |added| >= 1
    ensures Restock(Join(current, NL), Join(added, NL)) == Join(current + added, NL)
  {
    if current == [] {
      assert current + added == added;
    } else {
      JoinCleanTrimmed(current);
      JoinAppend(current, added);
    }
  }

  function Successes(results: seq<Option<string>>): nat {
    if results == [] then 0 else (if results[0].Some? then 1 else 0) + Successes(results[1..])
  }

  /** The displayed count never under-reports: however many claims are made, no
      more units come out than the count shows. It can over-report, since the
      count does not strip ("K1\n" shows 2 and yields one unit). */
  lemma {:induction false} ClaimRunBound(stock: string, n: nat)
    ensures Successes(ClaimRun(stock, n).results) <= StockCount(Text, stock)
    decreases n, 1
  {
    if n > 0 {
      if Claim(stock).None? {
        ClaimRunBoundMiss(stock, n);
      } else {
        ClaimRunBoundHit(stock, n);
      }
    }
  }

  lemma {:induction false} ClaimRunBoundMiss(stock: string, n: nat)
    requires n > 0 && Claim(stock).None?
    ensures Successes(ClaimRun(stock, n).results) <= StockCount(Text, stock)
    decreases n, 0
  {
    ClaimRunBound(stock, n - 1);
    SuccessesPrepend(None, ClaimRun(stock, n - 1).results);
  }

  lemma {:induction false} ClaimRunBoundHit(stock: string, n: nat)
    requires n > 0 && Claim(stock).Some?
    ensures Successes(ClaimRun(stock, n).results) <= StockCount(Text, stock)
    decreases n, 0
  {
    var c := Claim(stock).value;
    ClaimRunBound(c.rest, n - 1);
    SuccessesPrepend(Some(c.item), ClaimRun(c.rest, n - 1).results);
    ClaimCount(stock);
  }

  lemma SuccessesPrepend(x: Option<string>, rs: seq<Option<string>>)
    ensures Successes([x] + rs) == (if x.Some? then 1 else 0) + Successes(rs)
  {
    assert ([x] + rs)[1..] == rs;
  }

  /** Each successful claim lowers the displayed count by at least one. */
  lemma ClaimCount(stock: string)
    requires Claim(stock).Some?
    ensures StockCount(Text, Claim(stock).value.rest) + 1 <= StockCount(Text, stock)
  {
    ClaimSpec(stock);
    StripCount(stock);
  }

  /** Stripping never raises the displayed count. */
  lemma StripCount(stock: string)
    ensures StockCount(Text, Strip(stock)) <= StockCount(Text, stock)
  {
    StripSubMultiset(stock);
  }

  /** The count over-reports a stock that ends in a newline: it shows one unit more
      than the stock holds, while the claims hand out exactly what they would
      without the newline. */
  lemma TrailingNewlineOvercounts(units: seq<string>, n: nat)
    requires |units| >= 1 && AllClean(units)
    ensures StockCount(Text, Join(units, NL) + NL) == |units| + 1
    ensures ClaimRun(Join(units, NL) + NL, n).results == ClaimRun(Join(units, NL), n).results
  {
    var j := Join(units, NL);
    JoinCleanTrimmed(units);
    SplitJoin(units, '\n');
    SplitLength(j, '\n');
    assert multiset(j + NL) == multiset(j) + multiset(NL);
    if n > 0 {
      StripTrailingSpace(j, '\n');
      StripTrimmed(j);
      assert Claim(j + NL) == Claim(j);
    }
  }

  /** Whitespace after a stripped string is stripped away again. */
  lemma StripTrailingSpace(t: string, c: char)
    requires Trimmed(t) && t != [] && IsSpace(c)
    ensures Strip(t + [c]) == t
  {
    var u := t + [c];
    assert LStrip(u) == u by { assert u[0] == t[0]; }
    assert u[..|u| - 1] == t;
    assert RStrip(u) == RStrip(t);
  }
}

/**
 What the rest of the model shares: options, maps that only grow, the order of strings, sorting
 by a string key, decimal numerals, and cutting a list into pieces.

 Rust compares strings by their UTF-8 bytes, which is the order of their code points;
 `AtMost` is that order.
 */
module Text {

  datatype Option<+T> = None | Some(value: T)

  /** Nothing in m is lost or replaced in m'. */
  ghost predicate Grows<K(!new), V>(m: map<K, V>, m': map<K, V>) {
    forall k :: k in m ==> k in m' && m'[k] == m[k]
  }

  /** a comes no later than b in the order of code points. */
  predicate AtMost(a: string, b: string) {
    if a == "" then true
    else if b == "" then false
    else if a[0] == b[0] then AtMost(a[1..], b[1..])
    else a[0] < b[0]
  }

  lemma AtMostTotal(a: string, b: string)
    ensures AtMost(a, b) || AtMost(b, a)
  {}

  lemma AtMostAntisymmetric(a: string, b: string)
    requires AtMost(a, b) && AtMost(b, a)
    ensures a == b
  {
    if a != "" && b != "" {
      AtMostAntisymmetric(a[1..], b[1..]);
      assert a == [a[0]] + a[1..] && b == [b[0]] + b[1..];
    }
  }

  lemma AtMostTransitive(a: string, b: string, c: string)
    requires AtMost(a, b) && AtMost(b, c)
    ensures AtMost(a, c)
  {}

  /** The first place where a and b differ, a having the smaller character there. */
  predicate SmallerAt(a: string, b: string, i: nat) {
    i < |a| && i < |b| && a[..i] == b[..i] && a[i] < b[i]
  }

  /** The order spelled out: a begins b, or has the smaller character where they first differ. */
  lemma {:induction false} AtMostMeans(a: string, b: string)
    ensures AtMost(a, b) <==> a <= b || exists i: nat :: SmallerAt(a, b, i)
  {
    if a != "" && b != "" {
      var x, y := a[1..], b[1..];
      assert a == [a[0]] + x && b == [b[0]] + y;
      AtMostMeans(x, y);
      if a[0] == b[0] {
        assert a <= b <==> x <= y;
        forall i: nat ensures SmallerAt(x, y, i) <==> SmallerAt(a, b, i + 1) {
          if i < |x| && i < |y| { assert a[..i + 1] == [a[0]] + x[..i] && b[..i + 1] == [b[0]] + y[..i]; }
        }
        if i: nat :| SmallerAt(a, b, i) { assert SmallerAt(x, y, i - 1); }
      } else {
        forall i: nat ensures SmallerAt(a, b, i) <==> i == 0 && a[0] < b[0] {
          if i > 0 && i < |a| && i < |b| { assert a[..i][0] == a[0] && b[..i][0] == b[0]; }
        }
        assert SmallerAt(a, b, 0) <==> a[0] < b[0];
      }
    }
  }

  predicate Before(a: string, b: string) {
    AtMost(a, b) && a != b
  }

  lemma BeforeTransitive(a: string, b: string, c: string)
    requires Before(a, b) && Before(b, c)
    ensures Before(a, c)
  {
    AtMostTransitive(a, b, c);
    if a == c {
      AtMostAntisymmetric(a, b);
    }
  }

  /** Strictly ascending: sorted and without repetition. */
  predicate Ascending(s: seq<string>) {
    forall i, j :: 0 <= i < j < |s| ==> Before(s[i], s[j])
  }

  lemma SomeElement(s: seq<string>)
    ensures s != [] ==> exists x :: x in s
  {
    if s != [] { assert s[0] in s; }
  }

  /** An ascending sequence is determined by the set of its elements. */
  lemma {:induction false} AscendingUnique(a: seq<string>, b: seq<string>)
    requires Ascending(a) && Ascending(b)
    requires forall x :: x in a <==> x in b
    ensures a == b
  {
    if a == [] {
      SomeElement(b);
    } else {
      assert a[0] in b && b[0] in a by { assert b != [] by { assert a[0] in b; } }
      var j :| 0 <= j < |b| && b[j] == a[0];
      var i :| 0 <= i < |a| && a[i] == b[0];
      if i > 0 || j > 0 {
        AtMostAntisymmetric(a[0], b[0]);
      }
      assert a == [a[0]] + a[1..] && b == [b[0]] + b[1..];
      forall x ensures x in a[1..] <==> x in b[1..] {
        assert x in a <==> x in b;
        assert x in a <==> x == a[0] || x in a[1..];
        assert x in b <==> x == b[0] || x in b[1..];
      }
      AscendingUnique(a[1..], b[1..]);
    }
  }

  /** Insert x into an ascending sequence, dropping it when already there. */
  function InsertOnce(x: string, s: seq<string>): (r: seq<string>)
    requires Ascending(s)
    ensures Ascending(r)
    ensures forall y :: y in r <==> y == x || y in s
  {
    if s == [] then [x]
    else if x == s[0] then s
    else if AtMost(x, s[0]) then
      BeforeAll(x, s);
      [x] + s
    else
      AtMostTotal(x, s[0]);
      var tail := InsertOnce(x, s[1..]);
      assert forall y :: y in tail ==> Before(s[0], y);
      [s[0]] + tail
  }

  lemma BeforeAll(x: string, s: seq<string>)
    requires Ascending(s) && s != [] && Before(x, s[0])
    ensures forall i :: 0 <= i < |s| ==> Before(x, s[i])
  {
    forall i | 0 <= i < |s| ensures Before(x, s[i]) {
      if i > 0 { BeforeTransitive(x, s[0], s[i]); }
    }
  }

  /** `values.sort(); values.dedup()`. */
  function SortedDedup(s: seq<string>): (r: seq<string>)
    ensures Ascending(r)
    ensures forall y :: y in r <==> y in s
  {
    if s == [] then [] else InsertOnce(s[0], SortedDedup(s[1..]))
  }

  /** The first occurrences in s, in order: what a `seen` set keeps. */
  function FirstOccurrences(s: seq<string>): (r: seq<string>)
    ensures forall y :: y in r <==> y in s
  {
    if s == [] then []
    else
      var front, last := FirstOccurrences(s[..|s| - 1]), s[|s| - 1];
      assert s == s[..|s| - 1] + [last];
      if last in front then front else front + [last]
  }

  /** Each element kept is new where it is taken from, and before it come the elements seen before that place. */
  lemma {:induction false} FirstOccurrencesOrder(s: seq<string>, k: nat) returns (i: nat)
    requires k < |FirstOccurrences(s)|
    ensures i < |s| && s[i] == FirstOccurrences(s)[k] && s[i] !in s[..i]
    ensures forall y :: y in FirstOccurrences(s)[..k] <==> y in s[..i]
  {
    var t := s[..|s| - 1];
    var front := FirstOccurrences(t);
    if k < |front| {
      i := FirstOccurrencesOrder(t, k);
      assert t[..i] == s[..i];
      assert FirstOccurrences(s)[..k] == front[..k];
    } else {
      i := |s| - 1;
      assert FirstOccurrences(s)[..k] == front;
    }
  }

  /* ----- decimal numerals ----- */

  function Digit(d: nat): char
    requires d < 10
  {
    ['0', '1', '2', '3', '4', '5', '6', '7', '8', '9'][d]
  }

  predicate IsDigit(c: char) { '0' <= c <= '9' }

  function Decimal(n: nat): (s: string)
    ensures |s| > 0 && forall i :: 0 <= i < |s| ==> IsDigit(s[i])
  {
    if n < 10 then [Digit(n)] else Decimal(n / 10) + [Digit(n % 10)]
  }

  function DigitValue(c: char): nat
    requires IsDigit(c)
  {
    c as int - '0' as int
  }

  /** The number that decimal digits denote. */
  function Evaluate(s: string): nat
    requires forall i :: 0 <= i < |s| ==> IsDigit(s[i])
  {
    if s == "" then 0 else 10 * Evaluate(s[..|s| - 1]) + DigitValue(s[|s| - 1])
  }

  lemma DigitDenotes(d: nat)
    requires d < 10
    ensures DigitValue(Digit(d)) == d && (Digit(d) == '0' <==> d == 0)
  {}

  /** A numeral denotes its number, in base ten and with no leading zero. */
  lemma {:induction false} DecimalDenotes(n: nat)
    ensures Evaluate(Decimal(n)) == n
    ensures Decimal(n)[0] == '0' <==> n == 0
  {
    hide Digit, DigitValue;
    DigitDenotes(n % 10);
    var s := Decimal(n);
    if n < 10 {
      assert s[..0] == "";
    } else {
      DecimalDenotes(n / 10);
      assert s[..|s| - 1] == Decimal(n / 10);
    }
  }

  /** `format!("{n:04}")`: at least four digits. */
  function Padded4(n: nat): (s: string)
    ensures |s| >= 4 && forall i :: 0 <= i < |s| ==> IsDigit(s[i])
  {
    var d := Decimal(n);
    if |d| >= 4 then d else seq(4 - |d|, i => '0') + d
  }

  lemma {:induction false} LeadingZeros(k: nat, s: string)
    requires forall i :: 0 <= i < |s| ==> IsDigit(s[i])
    ensures var padded := seq(k, i => '0') + s;
            (forall i :: 0 <= i < |padded| ==> IsDigit(padded[i])) && Evaluate(padded) == Evaluate(s)
    decreases k + |s|
  {
    var padded := seq(k, i => '0') + s;
    if s != "" {
      LeadingZeros(k, s[..|s| - 1]);
      assert padded[..|padded| - 1] == seq(k, i => '0') + s[..|s| - 1];
    } else if k > 0 {
      LeadingZeros(k - 1, s);
      assert padded[..k - 1] == seq(k - 1, i => '0') + s;
    }
  }

  /** Padding keeps the number, and only brings a numeral up to four digits. */
  lemma Padded4Denotes(n: nat)
    ensures Evaluate(Padded4(n)) == n
    ensures |Padded4(n)| == 4 || Padded4(n)[0] != '0'
  {
    DecimalDenotes(n);
    var d := Decimal(n);
    if |d| < 4 { LeadingZeros(4 - |d|, d); }
  }

  /* ----- how many pieces a list is cut into ----- */

  function ChunksOf(n: nat, size: nat): nat
    requires size > 0
  {
    if n == 0 then 0 else if n <= size then 1 else 1 + ChunksOf(n - size, size)
  }

  /** `n.div_ceil(size)`: the fewest pieces of that size that hold n objects. */
  lemma {:induction false} ChunksOfRoundsUp(n: nat, size: nat)
    requires size > 0
    ensures n <= ChunksOf(n, size) * size < n + size
    ensures ChunksOf(n, size) == (n + size - 1) / size
  {
    if n > size {
      ChunksOfRoundsUp(n - size, size);
      var c := ChunksOf(n - size, size);
      assert (c + 1) * size == c * size + size;
    }
    QuotientIs(n + size - 1, ChunksOf(n, size), size);
  }

  lemma QuotientIs(x: nat, c: nat, size: nat)
    requires size > 0 && c * size <= x < c * size + size
    ensures x / size == c
  {
    var q := x / size;
    assert q * size <= x < q * size + size;
    assert (q + 1) * size == q * size + size && (c + 1) * size == c * size + size;
    TimesGrows(q + 1, c, size);
    TimesGrows(c + 1, q, size);
  }

  lemma TimesGrows(a: nat, b: nat, size: nat)
    ensures a <= b ==> a * size <= b * size
  {
    if a <= b { assert b * size == a * size + (b - a) * size; }
  }

  /** Piece k exists exactly when k full pieces do not use up the list. */
  lemma {:induction false} PieceExists(n: nat, size: nat, k: nat)
    requires size > 0
    ensures k < ChunksOf(n, size) <==> k * size < n
  {
    if k > 0 && n > size {
      PieceExists(n - size, size, k - 1);
      assert k * size == (k - 1) * size + size;
    } else if k > 0 {
      assert k * size >= size;
    }
  }
}

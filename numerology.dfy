/** Numerology derived from a birth date string: the life-path number and the
    Pythagoras digit-frequency matrix with its eight lines, five saturation
    bands, missing and dominant digits, and the 3x3 text grid. */
module Numerology {
  import opened Text

  /** A digit-count dict such as `{1: 2, 2: 1, ..., 9: 0}`. */
  type Counts = map<int, int>

  /** `counts.get(d, 0)` */
  function CountOf(counts: Counts, d: int): int {
    if d in counts then counts[d] else 0
  }

  // ------------------------------------------------------------------
  // Life path

  /** What one character adds to `sum(int(ch) for ch in s if ch.isdigit())`. */
  function CharDigit(c: char): nat {
    if IsAsciiDigit(c) then DigitValue(c) else 0
  }

  /** The sum of the digit characters of `s`, accumulated left to right. */
  function DigitSum(s: string): nat {
    if s == [] then 0 else DigitSum(s[..|s| - 1]) + CharDigit(s[|s| - 1])
  }

  /** `sum(int(c) for c in str(n))`: one reduction step. */
  function DecimalDigitSum(n: nat): (r: nat)
    ensures r <= n
    ensures n > 9 ==> r < n
    ensures n > 0 ==> r > 0
  {
    if n < 10 then n else n % 10 + DecimalDigitSum(n / 10)
  }

  /** The meaning of the inner `reduce` loop: keep digit-summing until the value
      is 11, 22 or at most 9. */
  function Reduce(n: nat): (r: nat)
    ensures r <= 9 || r == 11 || r == 22
    ensures r == 0 <==> n == 0
    decreases n
  {
    if n == 11 || n == 22 || n <= 9 then n else Reduce(DecimalDigitSum(n))
  }

  /** The life-path number of a date string. */
  function LifePath(s: string): nat {
    Reduce(DigitSum(s))
  }

  /** `calc_life_path_ddmmyyyy`: sum the digits, then reduce in a loop. */
  method CalcLifePath(dateStr: string) returns (r: nat)
    ensures r == LifePath(dateStr)
  {
    var s: nat := 0;
    for i := 0 to |dateStr|
      invariant s == DigitSum(dateStr[..i])
    {
      assert dateStr[..i + 1][..i] == dateStr[..i];
      if IsAsciiDigit(dateStr[i]) {
        s := s + DigitValue(dateStr[i]);
      }
    }
    assert dateStr[..|dateStr|] == dateStr;
    var n: nat := s;
    while n != 11 && n != 22 && n > 9
      invariant Reduce(n) == Reduce(s)
      decreases n
    {
      n := DecimalDigitSum(n);
    }
    r := n;
  }

  lemma {:induction false} DigitSumAppend(a: string, b: string)
    ensures DigitSum(a + b) == DigitSum(a) + DigitSum(b)
    decreases |b|
  {
    if b == [] {
      assert a + b == a;
    } else {
      var b' := b[..|b| - 1];
      assert (a + b)[..|a + b| - 1] == a + b';
      DigitSumAppend(a, b');
    }
  }

  /** The digit sum depends only on the multiset of characters. */
  lemma {:induction false} DigitSumPermutation(s: string, t: string)
    requires multiset(s) == multiset(t)
    ensures DigitSum(s) == DigitSum(t)
    decreases |s|
  {
    if s == [] {
      assert |t| == |multiset(t)| == 0;
    } else {
      var x := s[|s| - 1];
      var s' := s[..|s| - 1];
      assert s == s' + [x];
      assert x in multiset(t);
      var i :| 0 <= i < |t| && t[i] == x;
      var t' := t[..i] + t[i + 1..];
      assert t == t[..i] + [x] + t[i + 1..];
      assert multiset(t) == multiset(t[..i]) + multiset{x} + multiset(t[i + 1..]);
      assert multiset(s) == multiset(s') + multiset{x};
      assert multiset(t') == multiset(t[..i]) + multiset(t[i + 1..]);
      forall y ensures multiset(s')[y] == multiset(t')[y] {
        assert multiset(s)[y] == multiset(s')[y] + multiset{x}[y];
        assert multiset(t)[y] == multiset(t[..i])[y] + multiset{x}[y] + multiset(t[i + 1..])[y];
      }
      assert multiset(s') == multiset(t');
      DigitSumPermutation(s', t');
      DigitSumAppend(s', [x]);
      DigitSumAppend(t[..i], [x]);
      DigitSumAppend(t[..i] + [x], t[i + 1..]);
      DigitSumAppend(t[..i], t[i + 1..]);
      assert [x][..0] == [];
    }
  }

  /** The life path is invariant under any rearrangement of the characters. */
  lemma LifePathPermutation(s: string, t: string)
    requires multiset(s) == multiset(t)
    ensures LifePath(s) == LifePath(t)
  {
    DigitSumPermutation(s, t);
  }

  lemma {:induction false} DigitSumPositive(s: string, i: nat)
    requires i < |s| && IsAsciiDigit(s[i]) && s[i] != '0'
    ensures DigitSum(s) > 0
    decreases |s|
  {
    if i < |s| - 1 {
      DigitSumPositive(s[..|s| - 1], i);
    }
  }

  lemma {:induction false} DigitSumZero(s: string)
    requires forall i :: 0 <= i < |s| && IsAsciiDigit(s[i]) ==> s[i] == '0'
    ensures DigitSum(s) == 0
    decreases |s|
  {
    if s != [] {
      DigitSumZero(s[..|s| - 1]);
    }
  }

  /** A string with a nonzero digit has a life path in {1..9, 11, 22};
      a string without one has life path 0. */
  lemma LifePathRange(s: string)
    ensures (exists i :: 0 <= i < |s| && IsAsciiDigit(s[i]) && s[i] != '0') ==>
              (1 <= LifePath(s) <= 9 || LifePath(s) == 11 || LifePath(s) == 22)
    ensures (forall i :: 0 <= i < |s| && IsAsciiDigit(s[i]) ==> s[i] == '0') ==> LifePath(s) == 0
  {
    if exists i :: 0 <= i < |s| && IsAsciiDigit(s[i]) && s[i] != '0' {
      var i :| 0 <= i < |s| && IsAsciiDigit(s[i]) && s[i] != '0';
      DigitSumPositive(s, i);
    } else {
      DigitSumZero(s);
    }
  }

  /** 2+1+0+9+1+9+9+9 = 40, and 4+0 = 4. */
  lemma LifePathExample()
    ensures LifePath("21.09.1999") == 4
  {
    assert DigitSum("2") == 2;
    assert "21"[..1] == "2";
    assert DigitSum("21") == 3;
    assert "21."[..2] == "21";
    assert DigitSum("21.") == 3;
    assert "21.0"[..3] == "21.";
    assert DigitSum("21.0") == 3;
    assert "21.09"[..4] == "21.0";
    assert DigitSum("21.09") == 12;
    assert "21.09."[..5] == "21.09";
    assert DigitSum("21.09.") == 12;
    assert "21.09.1"[..6] == "21.09.";
    assert DigitSum("21.09.1") == 13;
    assert "21.09.19"[..7] == "21.09.1";
    assert DigitSum("21.09.19") == 22;
    assert "21.09.199"[..8] == "21.09.19";
    assert DigitSum("21.09.199") == 31;
    assert "21.09.1999"[..9] == "21.09.199";
    assert DigitSum("21.09.1999") == 40;
  }

  // ------------------------------------------------------------------
  // Pythagoras matrix

  const Digits: set<int> := {1, 2, 3, 4, 5, 6, 7, 8, 9}

  /** The specification of `pythagoras_counts`: keys 1..9, each mapped to the
      number of occurrences of that digit character. */
  function CountsOf(s: string): (r: Counts)
    ensures r.Keys == Digits
    ensures forall d :: 1 <= d <= 9 ==> r[d] == multiset(s)[DigitChar(d)]
  {
    map d | d in Digits :: multiset(s)[DigitChar(d)]
  }

  /** `pythagoras_counts`: start from zeros and increment in place per digit. */
  method PythagorasCounts(dateStr: string) returns (counts: Counts)
    ensures counts == CountsOf(dateStr)
  {
    counts := map d | d in Digits :: 0;
    for i := 0 to |dateStr|
      invariant counts.Keys == Digits
      invariant forall d :: 1 <= d <= 9 ==> counts[d] == multiset(dateStr[..i])[DigitChar(d)]
    {
      var ch := dateStr[i];
      CountsStep(dateStr, i);
      if IsAsciiDigit(ch) && DigitValue(ch) != 0 {
        var d := DigitValue(ch);
        counts := counts[d := counts[d] + 1];
      }
    }
    assert dateStr[..|dateStr|] == dateStr;
  }

  /** One more character adds one to the count of the digit it is, and nothing
      to the others. */
  lemma CountsStep(s: string, i: nat)
    requires i < |s|
    ensures forall d :: 1 <= d <= 9 ==>
      multiset(s[..i + 1])[DigitChar(d)]
        == multiset(s[..i])[DigitChar(d)] + (if IsAsciiDigit(s[i]) && DigitValue(s[i]) == d then 1 else 0)
  {
    assert s[..i + 1] == s[..i] + [s[i]];
  }

  /** One of the eight lines of the matrix: a name and a triple of digits. */
  datatype Line = Line(name: string, a: int, b: int, c: int)

  /** Rows 1-4-7, 2-5-8, 3-6-9; columns 1-2-3, 4-5-6, 7-8-9; diagonals 1-5-9, 3-5-7. */
  const MatrixLines: seq<Line> := [
    Line("row_147", 1, 4, 7), Line("row_258", 2, 5, 8), Line("row_369", 3, 6, 9),
    Line("col_123", 1, 2, 3), Line("col_456", 4, 5, 6), Line("col_789", 7, 8, 9),
    Line("diag_159", 1, 5, 9), Line("diag_357", 3, 5, 7)
  ]

  function LineTotal(counts: Counts, l: Line): int {
    CountOf(counts, l.a) + CountOf(counts, l.b) + CountOf(counts, l.c)
  }

  /** `pythagoras_lines`: every named line total is the sum of its three digit
      counts, a digit absent from the dict counting as 0. */
  function PythagorasLines(counts: Counts): (r: map<string, int>)
    ensures forall k :: 0 <= k < |MatrixLines| ==>
              MatrixLines[k].name in r && r[MatrixLines[k].name] == LineTotal(counts, MatrixLines[k])
  {
    map[
      "row_147" := CountOf(counts, 1) + CountOf(counts, 4) + CountOf(counts, 7),
      "row_258" := CountOf(counts, 2) + CountOf(counts, 5) + CountOf(counts, 8),
      "row_369" := CountOf(counts, 3) + CountOf(counts, 6) + CountOf(counts, 9),
      "col_123" := CountOf(counts, 1) + CountOf(counts, 2) + CountOf(counts, 3),
      "col_456" := CountOf(counts, 4) + CountOf(counts, 5) + CountOf(counts, 6),
      "col_789" := CountOf(counts, 7) + CountOf(counts, 8) + CountOf(counts, 9),
      "diag_159" := CountOf(counts, 1) + CountOf(counts, 5) + CountOf(counts, 9),
      "diag_357" := CountOf(counts, 3) + CountOf(counts, 5) + CountOf(counts, 7)
    ]
  }

  function TotalCount(counts: Counts): int {
    CountOf(counts, 1) + CountOf(counts, 2) + CountOf(counts, 3) + CountOf(counts, 4) + CountOf(counts, 5)
    + CountOf(counts, 6) + CountOf(counts, 7) + CountOf(counts, 8) + CountOf(counts, 9)
  }

  /** The rows partition the digits 1..9, and so do the columns: both add up to
      the total count. */
  lemma RowsAndColumnsBalance(counts: Counts)
    ensures var r := PythagorasLines(counts);
            r["row_147"] + r["row_258"] + r["row_369"] == TotalCount(counts)
            && r["col_123"] + r["col_456"] + r["col_789"] == TotalCount(counts)
  {
  }

  /** For the counts of a date, a line total counts the occurrences of its three digit characters. */
  lemma LineTotalOfDate(s: string, k: nat)
    requires k < |MatrixLines|
    ensures var l := MatrixLines[k];
            PythagorasLines(CountsOf(s))[l.name]
            == multiset(s)[DigitChar(l.a)] + multiset(s)[DigitChar(l.b)] + multiset(s)[DigitChar(l.c)]
  {
  }

  /** `digit_tier`: five bands, <=0, 1, 2, 3 and >=4. */
  function DigitTier(count: int): (r: nat)
    ensures r <= 4
    ensures r == 0 <==> count <= 0
    ensures r == 4 <==> count >= 4
    ensures 0 < count < 4 ==> r == count
  {
    if count <= 0 then 0
    else if count == 1 then 1
    else if count == 2 then 2
    else if count == 3 then 3
    else 4
  }

  lemma DigitTierMonotone(a: int, b: int)
    requires a <= b
    ensures DigitTier(a) <= DigitTier(b)
  {
  }

  const SaturationPhrases: seq<string> := [
    "пусто → зона для роста",
    "тонкая линия → гибкий потенциал",
    "сбалансировано → стабильная опора",
    "выражено → заметная сила",
    "перенасыщено → важно направлять экологично"
  ]

  /** `_saturation_phrase`: the phrase of the total's band. */
  function SaturationPhrase(total: int): (r: string)
    ensures r == SaturationPhrases[DigitTier(total)]
  {
    if total <= 0 then "пусто → зона для роста"
    else if total == 1 then "тонкая линия → гибкий потенциал"
    else if total == 2 then "сбалансировано → стабильная опора"
    else if total == 3 then "выражено → заметная сила"
    else "перенасыщено → важно направлять экологично"
  }

  /** The five phrases are distinct: two totals share a phrase exactly when they share a band. */
  lemma SaturationBands(a: int, b: int)
    ensures SaturationPhrase(a) == SaturationPhrase(b) <==> DigitTier(a) == DigitTier(b)
  {
    var p := SaturationPhrases;
    assert p[0][0] != p[1][0] && p[0][0] != p[2][0] && p[0][0] != p[3][0] && p[0][1] != p[4][1];
    assert p[1][0] != p[2][0] && p[1][0] != p[3][0] && p[1][0] != p[4][0];
    assert p[2][0] != p[3][0] && p[2][0] != p[4][0];
    assert p[3][0] != p[4][0];
  }

  // ------------------------------------------------------------------
  // Missing and dominant digits

  datatype MatrixMeta = MatrixMeta(missing: seq<int>, dominant: seq<int>)

  /** `[d for d in range(lo, 10) if counts.get(d, 0) == 0]` */
  function MissingFrom(counts: Counts, lo: int): (r: seq<int>)
    requires 1 <= lo <= 10
    ensures forall x :: x in r <==> lo <= x <= 9 && CountOf(counts, x) == 0
    ensures forall i :: 0 <= i < |r| ==> lo <= r[i] <= 9
    ensures forall i, j :: 0 <= i < j < |r| ==> r[i] < r[j]
    decreases 10 - lo
  {
    if lo == 10 then []
    else
      var rest := MissingFrom(counts, lo + 1);
      if CountOf(counts, lo) == 0 then [lo] + rest else rest
  }

  /** `[d for d in range(lo, 10) if counts.get(d, 0) >= 3]` */
  function HeavyFrom(counts: Counts, lo: int): (r: seq<int>)
    requires 1 <= lo <= 10
    ensures forall x :: x in r <==> lo <= x <= 9 && CountOf(counts, x) >= 3
    ensures forall i :: 0 <= i < |r| ==> lo <= r[i] <= 9
    ensures forall i, j :: 0 <= i < j < |r| ==> r[i] < r[j]
    decreases 10 - lo
  {
    if lo == 10 then []
    else
      var rest := HeavyFrom(counts, lo + 1);
      if CountOf(counts, lo) >= 3 then [lo] + rest else rest
  }

  /** The sort key `(-counts.get(x, 0), x)` compared with `<=`. */
  predicate KeyLe(counts: Counts, x: int, y: int) {
    CountOf(counts, x) > CountOf(counts, y) || (CountOf(counts, x) == CountOf(counts, y) && x <= y)
  }

  predicate SortedByKey(counts: Counts, xs: seq<int>) {
    forall i, j :: 0 <= i < j < |xs| ==> KeyLe(counts, xs[i], xs[j])
  }

  function InsertByKey(counts: Counts, x: int, xs: seq<int>): (r: seq<int>)
    requires SortedByKey(counts, xs)
    ensures multiset(r) == multiset(xs) + multiset{x}
    ensures SortedByKey(counts, r)
  {
    if xs == [] then [x]
    else if KeyLe(counts, x, xs[0]) then [x] + xs
    else
      var rest := InsertByKey(counts, x, xs[1..]);
      assert xs == [xs[0]] + xs[1..];
      assert forall y :: y in multiset(rest) ==> KeyLe(counts, xs[0], y) by {
        forall y | y in multiset(rest) ensures KeyLe(counts, xs[0], y) {
          assert y == x || y in xs[1..];
        }
      }
      [xs[0]] + rest
  }

  /** `sorted(xs, key=lambda x: (-counts.get(x, 0), x))`, as an insertion sort. */
  function SortByKey(counts: Counts, xs: seq<int>): (r: seq<int>)
    ensures multiset(r) == multiset(xs)
    ensures SortedByKey(counts, r)
  {
    if xs == [] then []
    else
      assert xs == [xs[0]] + xs[1..];
      InsertByKey(counts, xs[0], SortByKey(counts, xs[1..]))
  }

  /** `extended_matrix_meta`: `missing` is the ascending list of digits with count 0,
      `dominant` the digits with count >= 3, by descending count then ascending
      digit, each once; no digit is in both. */
  function ExtendedMatrixMeta(counts: Counts): (r: MatrixMeta)
    ensures forall x :: x in r.missing <==> 1 <= x <= 9 && CountOf(counts, x) == 0
    ensures forall x :: x in r.dominant <==> 1 <= x <= 9 && CountOf(counts, x) >= 3
    ensures SortedByKey(counts, r.dominant)
  {
    var heavy := HeavyFrom(counts, 1);
    SortKeepsDistinct(counts, heavy);
    MatrixMeta(MissingFrom(counts, 1), SortByKey(counts, heavy))
  }

  /** `missing` is strictly ascending and `dominant` holds each digit once. */
  lemma MetaNoDuplicates(counts: Counts)
    ensures var r := ExtendedMatrixMeta(counts);
            (forall i, j :: 0 <= i < j < |r.missing| ==> r.missing[i] < r.missing[j])
            && (forall x :: multiset(r.dominant)[x] <= 1)
  {
    SortKeepsDistinct(counts, HeavyFrom(counts, 1));
  }

  /** No digit is both missing and dominant. */
  lemma MissingDominantDisjoint(counts: Counts, x: int)
    ensures !(x in ExtendedMatrixMeta(counts).missing && x in ExtendedMatrixMeta(counts).dominant)
  {
  }

  /** Sorting a strictly ascending list keeps exactly its elements, each once. */
  lemma SortKeepsDistinct(counts: Counts, xs: seq<int>)
    requires forall i, j :: 0 <= i < j < |xs| ==> xs[i] < xs[j]
    ensures forall x :: x in SortByKey(counts, xs) <==> x in xs
    ensures forall x :: multiset(SortByKey(counts, xs))[x] <= 1
  {
    var r := SortByKey(counts, xs);
    forall x ensures (x in r <==> x in xs) && multiset(r)[x] <= 1 {
      assert x in r <==> x in multiset(r);
      assert x in xs <==> x in multiset(xs);
      DistinctCount(xs, x);
    }
  }

  lemma {:induction false} DistinctCount(xs: seq<int>, x: int)
    requires forall i, j :: 0 <= i < j < |xs| ==> xs[i] < xs[j]
    ensures multiset(xs)[x] <= 1
  {
    if xs != [] {
      assert xs == [xs[0]] + xs[1..];
      DistinctCount(xs[1..], x);
      if x == xs[0] {
        assert x !in xs[1..];
      }
    }
  }

  function DigitsFrom(lo: int): seq<int>
    requires 1 <= lo <= 10
    decreases 10 - lo
  {
    if lo == 10 then [] else [lo] + DigitsFrom(lo + 1)
  }

  lemma {:induction false} MissingAllZero(counts: Counts, lo: int)
    requires 1 <= lo <= 10
    requires forall d :: d in counts ==> counts[d] == 0
    ensures MissingFrom(counts, lo) == DigitsFrom(lo)
    ensures HeavyFrom(counts, lo) == []
    decreases 10 - lo
  {
    if lo < 10 {
      MissingAllZero(counts, lo + 1);
    }
  }

  lemma DigitsFromOne()
    ensures DigitsFrom(1) == [1, 2, 3, 4, 5, 6, 7, 8, 9]
  {
  }

  /** All counts zero: every digit is missing and none is dominant. */
  lemma AllZeroMeta(counts: Counts)
    requires forall d :: d in counts ==> counts[d] == 0
    ensures ExtendedMatrixMeta(counts).missing == [1, 2, 3, 4, 5, 6, 7, 8, 9]
    ensures ExtendedMatrixMeta(counts).dominant == []
  {
    MissingAllZero(counts, 1);
    DigitsFromOne();
  }

  /** All counts zero: every line total is 0, in the lowest band. */
  lemma AllZeroLines(counts: Counts, k: nat)
    requires forall d :: d in counts ==> counts[d] == 0
    requires k < |MatrixLines|
    ensures PythagorasLines(counts)[MatrixLines[k].name] == 0
    ensures SaturationPhrase(PythagorasLines(counts)[MatrixLines[k].name]) == SaturationPhrases[0]
  {
  }

  // ------------------------------------------------------------------
  // The 3x3 grid

  function Repeat(c: char, n: nat): (r: string)
    ensures |r| == n && forall i :: 0 <= i < n ==> r[i] == c
  {
    if n == 0 then [] else [c] + Repeat(c, n - 1)
  }

  /** `cell(n)`: the digit repeated as often as it occurs, or a dash. */
  function GridCell(counts: Counts, n: int): (r: string)
    requires 1 <= n <= 9
    ensures CountOf(counts, n) > 0 ==> |r| == CountOf(counts, n) && forall i :: 0 <= i < |r| ==> r[i] == DigitChar(n)
    ensures CountOf(counts, n) <= 0 ==> r == "—"
  {
    var c := CountOf(counts, n);
    if c > 0 then Repeat(DigitChar(n), c) else "—"
  }

  /** `f"{s:<7}"`: left-aligned, padded with spaces to at least the width. */
  function PadRight(s: string, width: nat): (r: string)
    ensures |r| == (if |s| < width then width else |s|)
    ensures s <= r && forall i :: |s| <= i < |r| ==> r[i] == ' '
  {
    if |s| < width then s + Repeat(' ', width - |s|) else s
  }

  function GridRow(counts: Counts, a: int, b: int, c: int): string
    requires 1 <= a <= 9 && 1 <= b <= 9 && 1 <= c <= 9
  {
    PadRight(GridCell(counts, a), 7) + " | " + PadRight(GridCell(counts, b), 7) + " | " + PadRight(GridCell(counts, c), 7)
  }

  /** `render_pythagoras_grid` */
  function RenderGrid(counts: Counts): string {
    GridRow(counts, 1, 4, 7) + "\n" + GridRow(counts, 2, 5, 8) + "\n" + GridRow(counts, 3, 6, 9)
  }

  lemma NoNewlineInRow(counts: Counts, a: int, b: int, c: int)
    requires 1 <= a <= 9 && 1 <= b <= 9 && 1 <= c <= 9
    ensures '\n' !in GridRow(counts, a, b, c)
  {
    var ca, cb, cc := GridCell(counts, a), GridCell(counts, b), GridCell(counts, c);
    assert '\n' !in ca && '\n' !in cb && '\n' !in cc;
  }

  lemma SplitThree(r1: string, r2: string, r3: string)
    requires '\n' !in r1 && '\n' !in r2 && '\n' !in r3
    ensures SplitOn(r1 + "\n" + r2 + "\n" + r3, '\n') == [r1, r2, r3]
  {
    SplitOnNoSep(r3, '\n');
    SplitOnJoin(r2, r3, '\n');
    assert r1 + "\n" + r2 + "\n" + r3 == r1 + ['\n'] + (r2 + ['\n'] + r3);
    SplitOnJoin(r1, r2 + ['\n'] + r3, '\n');
  }

  /** The grid has exactly three lines: the rows 1-4-7, 2-5-8 and 3-6-9. */
  lemma GridLines(counts: Counts)
    ensures SplitOn(RenderGrid(counts), '\n')
            == [GridRow(counts, 1, 4, 7), GridRow(counts, 2, 5, 8), GridRow(counts, 3, 6, 9)]
  {
    NoNewlineInRow(counts, 1, 4, 7);
    NoNewlineInRow(counts, 2, 5, 8);
    NoNewlineInRow(counts, 3, 6, 9);
    SplitThree(GridRow(counts, 1, 4, 7), GridRow(counts, 2, 5, 8), GridRow(counts, 3, 6, 9));
  }
}

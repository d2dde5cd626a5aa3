/**
 * Ratio strings and proportional shares (settlement.js, `parseRatios` and
 * `calculateDistribution`). A ratio string such as "4:3:2:1" lists integer
 * weights, the best rank first; a pool is split in proportion to them, each
 * share rounded half-up on its own.
 */
module Ratios {
  import opened JsText

  /** One segment of a ratio string: `parseInt(r.trim())`, NaN read as 0. */
  function SegmentValue(piece: string): int {
    var n := ParseInt(Trim(piece));
    if n.NaN? then 0 else n.value
  }

  /** Helper: a segment's value from its trimmed text. */
  lemma SegmentValueOf(piece: string, trimmed: string, v: int)
    requires Trim(piece) == trimmed && ParseInt(trimmed) == Int(v)
    ensures SegmentValue(piece) == v
  {
  }

  /** `pieces.map(r => parseInt(r.trim()) || 0)` */
  function SegmentValues(pieces: seq<string>): (values: seq<int>)
    ensures |values| == |pieces|
  {
    if pieces == [] then [] else [SegmentValue(pieces[0])] + SegmentValues(pieces[1..])
  }

  /** Mapping works piece by piece, so it distributes over concatenation. */
  lemma {:induction false} SegmentValuesAppend(xs: seq<string>, ys: seq<string>)
    ensures SegmentValues(xs + ys) == SegmentValues(xs) + SegmentValues(ys)
  {
    if xs == [] {
      assert xs + ys == ys;
    } else {
      assert (xs + ys)[1..] == xs[1..] + ys;
      SegmentValuesAppend(xs[1..], ys);
    }
  }

  /** `xs.filter(x => x > 0)` */
  function Positives(xs: seq<int>): (ys: seq<int>)
    ensures |ys| <= |xs|
    ensures forall k :: 0 <= k < |ys| ==> ys[k] > 0
  {
    if xs == [] then []
    else if xs[0] > 0 then [xs[0]] + Positives(xs[1..])
    else Positives(xs[1..])
  }

  /** `parseRatios(s)`: the positive integers among the colon-separated
      segments, in the order they appear. */
  function ParseRatios(s: string): (ratios: seq<int>)
    ensures forall k :: 0 <= k < |ratios| ==> ratios[k] > 0
    ensures |ratios| <= |Split(s, ':')|
  {
    Positives(SegmentValues(Split(s, ':')))
  }

  /** Filtering keeps the order: it distributes over concatenation. */
  lemma {:induction false} PositivesAppend(a: seq<int>, b: seq<int>)
    ensures Positives(a + b) == Positives(a) + Positives(b)
  {
    if a != [] {
      assert (a + b)[0] == a[0];
      assert (a + b)[1..] == a[1..] + b;
      PositivesAppend(a[1..], b);
    } else {
      assert a + b == b;
    }
  }

  /** Filtering drops nothing from a list of positive numbers. */
  lemma {:induction false} PositivesOfPositive(xs: seq<int>)
    requires forall k :: 0 <= k < |xs| ==> xs[k] > 0
    ensures Positives(xs) == xs
  {
    if xs != [] {
      PositivesOfPositive(xs[1..]);
    }
  }

  /** Filtering keeps nothing exactly when no number is positive. */
  lemma {:induction false} PositivesEmpty(xs: seq<int>)
    ensures Positives(xs) == [] <==> forall k :: 0 <= k < |xs| ==> xs[k] <= 0
  {
    if xs != [] {
      PositivesEmpty(xs[1..]);
      if forall k :: 0 <= k < |xs[1..]| ==> xs[1..][k] <= 0 {
        forall k | 1 <= k < |xs|
          ensures xs[k] <= 0
        {
          assert xs[k] == xs[1..][k - 1];
        }
      }
    }
  }

  /** A segment with no colon contributes its value when that is positive,
      and nothing when it is zero, negative or not a number. */
  lemma ParseRatiosSegment(s: string)
    requires ':' !in s
    ensures ParseRatios(s) == if SegmentValue(s) > 0 then [SegmentValue(s)] else []
  {
    assert Split(s, ':') == [s] by { SplitNoSeparator(s, ':'); }
  }

  /** Helper: text without the separator is a single piece. */
  lemma {:induction false} SplitNoSeparator(s: string, sep: char)
    requires sep !in s
    ensures Split(s, sep) == [s]
  {
    if s != [] {
      SplitNoSeparator(s[1..], sep);
      assert [s[0]] + s[1..] == s;
    }
  }

  /** Parsing works segment by segment and keeps the input order: the ratios
      of `s:t` are those of `s` followed by those of `t`. */
  lemma ParseRatiosAppend(s: string, t: string)
    ensures ParseRatios(s + ":" + t) == ParseRatios(s) + ParseRatios(t)
  {
    SplitAppend(s, t, ':');
    assert s + ":" + t == s + [':'] + t;
    SegmentValuesAppend(Split(s, ':'), Split(t, ':'));
    PositivesAppend(SegmentValues(Split(s, ':')), SegmentValues(Split(t, ':')));
  }

  /** The ratio string that lists `ratios`, as "4:3:2:1" lists [4, 3, 2, 1]. */
  function RatioText(ratios: seq<nat>): string {
    if ratios == [] then ""
    else if |ratios| == 1 then Decimal(ratios[0])
    else Decimal(ratios[0]) + ":" + RatioText(ratios[1..])
  }

  /** Helper: a numeral is one segment, and it reads back as its number. */
  lemma NumeralSegment(n: nat)
    ensures ':' !in Decimal(n)
    ensures SegmentValue(Decimal(n)) == n
  {
    NumeralFacts(n);
    assert DigitValue(':') >= 10;
  }

  /** Helper: the empty string has no ratios. */
  lemma ParseRatiosEmpty()
    ensures ParseRatios("") == []
  {
    assert Split("", ':') == [""];
    assert Trim("") == "";
    assert ParseInt("") == NaN;
    assert SegmentValue("") == 0;
    assert SegmentValues([""]) == [0];
  }

  /** Helper: a non-empty list is its head followed by its tail. */
  lemma HeadTail(xs: seq<nat>)
    requires xs != []
    ensures xs == [xs[0]] + xs[1..]
  {
  }

  /** Helper: a positive numeral alone parses to that one ratio. */
  lemma ParseRatiosNumeral(n: nat)
    requires n > 0
    ensures ParseRatios(Decimal(n)) == [n]
  {
    NumeralSegment(n);
    ParseRatiosSegment(Decimal(n));
  }

  /** Helper: a positive numeral in front contributes its ratio first. */
  lemma ParseRatiosCons(n: nat, rest: string)
    requires n > 0
    ensures ParseRatios(Decimal(n) + ":" + rest) == [n] + ParseRatios(rest)
  {
    ParseRatiosNumeral(n);
    ParseRatiosAppend(Decimal(n), rest);
  }

  /** Writing positive ratios out and parsing them back gives them again. */
  lemma {:induction false} ParseRatiosText(ratios: seq<nat>)
    requires forall k :: 0 <= k < |ratios| ==> ratios[k] > 0
    ensures ParseRatios(RatioText(ratios)) == ratios
  {
    if ratios == [] {
      ParseRatiosEmpty();
    } else if |ratios| == 1 {
      ParseRatiosNumeral(ratios[0]);
    } else {
      ParseRatiosText(ratios[1..]);
      ParseRatiosCons(ratios[0], RatioText(ratios[1..]));
      HeadTail(ratios);
    }
  }

  /** The default reward ratios of a new game. */
  lemma ParseRewardDefault()
    ensures ParseRatios("4:3:2:1") == [4, 3, 2, 1]
  {
    ParseRatiosText([4, 3, 2, 1]);
    DefaultRatioTexts();
  }

  /** The default penalty ratios of a new game. */
  lemma ParsePenaltyDefault()
    ensures ParseRatios("2:3:5") == [2, 3, 5]
  {
    ParseRatiosText([2, 3, 5]);
    DefaultRatioTexts();
  }

  /** Helper: the default ratio strings list the default ratios. */
  lemma DefaultRatioTexts()
    ensures RatioText([4, 3, 2, 1]) == "4:3:2:1"
    ensures RatioText([2, 3, 5]) == "2:3:5"
  {
    assert Decimal(4) == "4" && Decimal(3) == "3" && Decimal(2) == "2";
    assert Decimal(1) == "1" && Decimal(5) == "5";
  }

  /** Segments are trimmed and read up to the first non-digit; zero, negative
      and non-numeric segments are dropped. */
  lemma ParseRatiosMixed()
    ensures ParseRatios(" 4:0:-2:x: 3abc") == [4, 3]
  {
    MixedTexts();
    ParseRatiosAppend(" 4", "0:-2:x: 3abc");
    MixedTail();
    PieceFour();
  }

  /** Helper: after the first segment only the 3 of "3abc" is kept. */
  lemma MixedTail()
    ensures ParseRatios("0:-2:x: 3abc") == [3]
  {
    MixedTexts();
    ParseRatiosAppend("0", "-2:x: 3abc");
    ParseRatiosAppend("-2", "x: 3abc");
    MixedLastTwo();
    PieceZero();
    PieceMinusTwo();
  }

  /** Helper: a segment that is not a number is dropped. */
  lemma MixedLastTwo()
    ensures ParseRatios("x: 3abc") == [3]
  {
    MixedTexts();
    ParseRatiosAppend("x", " 3abc");
    PieceLetter();
    PieceThree();
  }

  /** Helper: where the colons of the mixed example are. */
  lemma MixedTexts()
    ensures " 4:0:-2:x: 3abc" == " 4" + ":" + "0:-2:x: 3abc"
    ensures "0:-2:x: 3abc" == "0" + ":" + "-2:x: 3abc"
    ensures "-2:x: 3abc" == "-2" + ":" + "x: 3abc"
    ensures "x: 3abc" == "x" + ":" + " 3abc"
  {
  }

  lemma PieceFour()
    ensures ParseRatios(" 4") == [4]
  {
    assert ':' !in " 4";
    ParseRatiosSegment(" 4");
    SegmentFour();
  }

  lemma PieceZero()
    ensures ParseRatios("0") == []
  {
    assert ':' !in "0";
    ParseRatiosSegment("0");
    SegmentZero();
  }

  lemma PieceMinusTwo()
    ensures ParseRatios("-2") == []
  {
    assert ':' !in "-2";
    ParseRatiosSegment("-2");
    SegmentMinusTwo();
  }

  lemma PieceLetter()
    ensures ParseRatios("x") == []
  {
    assert ':' !in "x";
    ParseRatiosSegment("x");
    SegmentLetter();
  }

  lemma PieceThree()
    ensures ParseRatios(" 3abc") == [3]
  {
    assert ':' !in " 3abc";
    ParseRatiosSegment(" 3abc");
    SegmentThree();
  }

  lemma SegmentFour()
    ensures SegmentValue(" 4") == 4
  {
    NumeralFacts(4);
    assert Decimal(4) == "4";
    assert " 4" == [' '] + "4";
    TrimSkipsSpace(' ', "4");
    SegmentValueOf(" 4", "4", 4);
  }

  lemma SegmentZero()
    ensures SegmentValue("0") == 0
  {
    NumeralFacts(0);
    assert Decimal(0) == "0";
    SegmentValueOf("0", "0", 0);
  }

  lemma SegmentMinusTwo()
    ensures SegmentValue("-2") == -2
  {
    ParseMinusTwo();
    assert Trim("-2") == "-2";
  }

  lemma ParseMinusTwo()
    ensures ParseInt("-2") == Int(-2)
  {
    ParseIntDecimal(2, "");
    assert Decimal(2) == "2";
    assert "-" + (Decimal(2) + "") == "-2";
  }

  lemma SegmentLetter()
    ensures SegmentValue("x") == 0
  {
    assert Trim("x") == "x";
    assert ParseInt("x") == NaN;
  }

  lemma SegmentThree()
    ensures SegmentValue(" 3abc") == 3
  {
    TrimThree();
    ParseThree();
    SegmentValueOf(" 3abc", "3abc", 3);
  }

  lemma TrimThree()
    ensures Trim(" 3abc") == "3abc"
  {
    assert !IsSpace('3') && !IsSpace('c');
    TrimFixesTrimmed("3abc");
    assert " 3abc" == [' '] + "3abc";
    TrimSkipsSpace(' ', "3abc");
  }

  lemma ParseThree()
    ensures ParseInt("3abc") == Int(3)
  {
    assert Decimal(3) == "3";
    assert Decimal(3) + "abc" == "3abc";
    assert DigitValue('a') >= 10;
    ParseIntDecimal(3, "abc");
  }

  /** The sum of a list. */
  function Sum(xs: seq<int>): int {
    if xs == [] then 0 else xs[0] + Sum(xs[1..])
  }

  lemma {:induction false} SumPositive(xs: seq<int>)
    requires xs != [] && forall k :: 0 <= k < |xs| ==> xs[k] > 0
    ensures Sum(xs) >= xs[0] > 0
  {
    if |xs| > 1 {
      SumPositive(xs[1..]);
    }
  }

  /** Helper: every member of a list of positive numbers is at most its sum. */
  lemma {:induction false} SumBoundsMember(xs: seq<int>, k: nat)
    requires k < |xs| && forall j :: 0 <= j < |xs| ==> xs[j] > 0
    ensures xs[k] <= Sum(xs)
  {
    if k == 0 {
      SumPositive(xs);
    } else {
      SumBoundsMember(xs[1..], k - 1);
    }
  }

  /** The shares of `pool` for weights `ratios` out of `total`:
      `Math.round(pool * ratio / total)` for each ratio. */
  function Shares(pool: int, ratios: seq<int>, total: int): (shares: seq<int>)
    requires total > 0
    ensures |shares| == |ratios|
  {
    if ratios == [] then []
    else [RoundDiv(pool * ratios[0], total)] + Shares(pool, ratios[1..], total)
  }

  /** `calculateDistribution(pool, ratios)`: no share at all when no ratio is
      positive, otherwise one share per positive ratio, in order. */
  function Distribution(pool: int, ratios: seq<int>): (shares: seq<int>)
    ensures |shares| == |Positives(ratios)|
  {
    var valid := Positives(ratios);
    if valid == [] then []
    else
      SumPositive(valid);
      Shares(pool, valid, Sum(valid))
  }

  /** Helper: the share at index `k` is the rounded quotient for that ratio. */
  lemma {:induction false} SharesAt(pool: int, ratios: seq<int>, total: int, k: nat)
    requires total > 0 && k < |ratios|
    ensures Shares(pool, ratios, total)[k] == RoundDiv(pool * ratios[k], total)
  {
    if k > 0 {
      SharesAt(pool, ratios[1..], total, k - 1);
    }
  }

  /** Each share is the integer nearest to `pool * ratio / sum`, where `ratio`
      is the `k`-th positive ratio and `sum` the sum of all positive ratios;
      a half is rounded up. */
  lemma DistributionNearest(pool: int, ratios: seq<int>, k: nat)
    requires k < |Distribution(pool, ratios)|
    ensures var valid := Positives(ratios);
      var total, share := Sum(valid), Distribution(pool, ratios)[k];
      total > 0 && 2 * total * share - total <= 2 * (pool * valid[k]) < 2 * total * share + total
  {
    var valid := Positives(ratios);
    SumPositive(valid);
    assert Distribution(pool, ratios) == Shares(pool, valid, Sum(valid));
    SharesAt(pool, valid, Sum(valid), k);
  }

  /** Helper: `x * y <= x * z` for a non-negative `x` and `y <= z`. */
  lemma MulMonotone(x: int, y: int, z: int)
    requires x >= 0 && y <= z
    ensures x * y <= x * z
  {
    assert x * z - x * y == x * (z - y);
  }

  /** Helper: a rounded quotient `q` of `a / total`, where `a = pool * r` and
      `0 < r <= total`, lies between 0 and the pool. */
  lemma RoundedShareBounds(pool: int, r: int, total: int, a: int, q: int)
    requires pool >= 0 && 0 < r <= total && a == pool * r
    requires 2 * total * q - total <= 2 * a < 2 * total * q + total
    ensures 0 <= q <= pool
  {
    MulMonotone(pool, r, total);
    MulMonotone(pool, 0, r);
    assert a <= total * pool && 0 <= a;
    if q > pool {
      MulMonotone(2 * total, pool + 1, q);
      assert false;
    }
    if q < 0 {
      MulMonotone(2 * total, q, -1);
      assert false;
    }
  }

  /** A share of a non-negative pool lies between 0 and the pool. */
  lemma ShareWithinPool(pool: int, ratios: seq<int>, k: nat)
    requires pool >= 0 && k < |Distribution(pool, ratios)|
    ensures 0 <= Distribution(pool, ratios)[k] <= pool
  {
    var valid := Positives(ratios);
    DistributionNearest(pool, ratios, k);
    SumBoundsMember(valid, k);
    RoundedShareBounds(pool, valid[k], Sum(valid), pool * valid[k], Distribution(pool, ratios)[k]);
  }

  /** Helper: adding two bracketed quantities. */
  lemma AddBrackets(t: int, a: int, b: int, x: int, y: int, m: int)
    requires t > 0 && m >= 0
    requires 2 * t * a - t <= 2 * x < 2 * t * a + t
    requires 2 * t * b - m * t <= 2 * y
    requires m > 0 ==> 2 * y < 2 * t * b + m * t
    requires m == 0 ==> b == 0 && y == 0
    ensures 2 * t * (a + b) - (m + 1) * t <= 2 * (x + y) < 2 * t * (a + b) + (m + 1) * t
  {
    Distribute(2 * t, a, b);
    assert (m + 1) * t == m * t + t;
    if m == 0 {
      assert 2 * t * b == 0 && m * t == 0;
    }
  }

  /** Helper: multiplication distributes over addition. */
  lemma Distribute(p: int, a: int, b: int)
    ensures p * (a + b) == p * a + p * b
  {
  }

  /** Helper: the rounding errors add up. Each share is off by at most half a
      unit from `pool * ratio / total`. */
  lemma {:induction false} SharesSum(pool: int, ratios: seq<int>, total: int)
    requires total > 0
    ensures var n, s := |ratios|, Sum(Shares(pool, ratios, total));
      2 * total * s - n * total <= 2 * (pool * Sum(ratios)) &&
      (n > 0 ==> 2 * (pool * Sum(ratios)) < 2 * total * s + n * total)
  {
    if ratios != [] {
      var rest := ratios[1..];
      var first := RoundDiv(pool * ratios[0], total);
      assert Shares(pool, ratios, total) == [first] + Shares(pool, rest, total);
      SharesSum(pool, rest, total);
      Distribute(pool, ratios[0], Sum(rest));
      AddBrackets(total, first, Sum(Shares(pool, rest, total)), pool * ratios[0], pool * Sum(rest), |rest|);
    }
  }

  /** Helper: a positive factor keeps the sign of a product. */
  lemma PositiveFactor(t: int, x: int)
    requires t > 0
    ensures t * x <= 0 ==> x <= 0
    ensures t * x < 0 ==> x < 0
  {
    if x > 0 {
      MulMonotone(t, 1, x);
    } else if x == 0 {
      assert t * x == 0;
    }
  }

  /** Helper: dividing a bracket by a positive factor. */
  lemma DivideBracket(t: int, s: int, p: int, n: int)
    requires t > 0 && n > 0
    requires 2 * t * s - n * t <= 2 * (p * t) < 2 * t * s + n * t
    ensures -n < 2 * (s - p) <= n
  {
    assert t * (2 * s - n - 2 * p) == 2 * t * s - n * t - 2 * (p * t);
    assert t * (2 * p - 2 * s - n) == 2 * (p * t) - 2 * t * s - n * t;
    PositiveFactor(t, 2 * s - n - 2 * p);
    PositiveFactor(t, 2 * p - 2 * s - n);
  }

  /** The shares are not corrected for rounding: with `n` recipients their
      total lies within `n / 2` of the pool. */
  lemma DistributionResidue(pool: int, ratios: seq<int>)
    requires Distribution(pool, ratios) != []
    ensures var n, s := |Distribution(pool, ratios)|, Sum(Distribution(pool, ratios));
      -n < 2 * (s - pool) <= n
  {
    var valid := Positives(ratios);
    var total := Sum(valid);
    SumPositive(valid);
    SharesSum(pool, valid, total);
    assert pool * total == total * pool;
    DivideBracket(total, Sum(Distribution(pool, ratios)), pool, |valid|);
  }

  /** Parsed ratios are all positive, so every one of them gets a share. */
  lemma DistributionOfParsed(pool: int, s: string)
    ensures |Distribution(pool, ParseRatios(s))| == |ParseRatios(s)|
    ensures Distribution(pool, ParseRatios(s)) == [] <==> ParseRatios(s) == []
  {
    PositivesOfPositive(ParseRatios(s));
  }

  /** Worked example: 1000 over "4:3:2:1" splits exactly. */
  lemma DistributionExact()
    ensures Distribution(1000, [4, 3, 2, 1]) == [400, 300, 200, 100]
  {
    PositivesOfPositive([4, 3, 2, 1]);
    assert Sum([4, 3, 2, 1]) == 10;
    assert Shares(1000, [4, 3, 2, 1], 10) == [400, 300, 200, 100];
  }

  /** Worked example: 720 over "4:3:2:1". */
  lemma DistributionOfSevenHundredTwenty()
    ensures Distribution(720, [4, 3, 2, 1]) == [288, 216, 144, 72]
  {
    PositivesOfPositive([4, 3, 2, 1]);
    assert Sum([4, 3, 2, 1]) == 10;
    assert Shares(720, [4, 3, 2, 1], 10) == [288, 216, 144, 72];
  }

  /** Worked example: 100 over 1:1:1 leaves a residue of 1 that nobody
      receives. */
  lemma DistributionResidueExample()
    ensures Distribution(100, [1, 1, 1]) == [33, 33, 33]
  {
    PositivesOfPositive([1, 1, 1]);
    assert Sum([1, 1, 1]) == 3;
    assert Shares(100, [1, 1, 1], 3) == [33, 33, 33];
  }

  /** Worked example: no positive ratio, no share. */
  lemma DistributionNone()
    ensures Distribution(500, [0, -3]) == []
  {
    assert Positives([0, -3]) == [];
  }

  /** `calculateDistribution` gives no share exactly when no ratio is
      positive. */
  lemma DistributionEmpty(pool: int, ratios: seq<int>)
    ensures Distribution(pool, ratios) == [] <==> forall k :: 0 <= k < |ratios| ==> ratios[k] <= 0
  {
    PositivesEmpty(ratios);
  }
}

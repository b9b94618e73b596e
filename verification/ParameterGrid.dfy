/** The parameter grid of the strategy lab: seven sanitised lists, seven nested loops, an early return at the
    combination limit, and an id per combination. Numbers are held in millionths, the precision to which the
    program rounds them; an interval is held as its length in seconds. */
module ParameterGrid {
  import opened Multiples
  import opened Options
  import opened Rounding
  import opened Sorting

  const DEFAULT_MAX_COMBINATIONS := 50
  const MAX_COMBINATIONS_LIMIT := 100

  /** A missing limit means the default; otherwise the floor, kept between one and the hard limit. */
  function NormalizeMaxCombinations(value: Option<real>): (r: int)
    ensures 1 <= r <= MAX_COMBINATIONS_LIMIT && (value.None? ==> r == DEFAULT_MAX_COMBINATIONS)
    ensures value.Some? ==> (value.value < r as real ==> r == 1)
    ensures value.Some? ==> (value.value >= r as real + 1.0 ==> r == MAX_COMBINATIONS_LIMIT)
  {
    match value
    case None => DEFAULT_MAX_COMBINATIONS
    case Some(v) => MaxInt(1, MinInt(MAX_COMBINATIONS_LIMIT, v.Floor))
  }

  // ----- sanitising

  /** A number rounded to six decimals, in millionths. */
  function Micro(v: real): int { HalfAway(v * 1000000.0) }

  function Millionths(values: seq<real>): seq<int> {
    if values == [] then [] else Millionths(values[..|values| - 1]) + [Micro(values[|values| - 1])]
  }

  function Itself(x: int): int { x }

  /** The accepted values, rounded to six decimals, without repeats, ascending. */
  function SanitizedNumbers(values: seq<real>, accepts: real -> bool): seq<int> {
    SortBy(Unique(Millionths(Filter(values, accepts))), Itself)
  }

  method SanitizeNumberList(values: seq<real>, accepts: real -> bool) returns (list: seq<int>, rejected: seq<real>)
    ensures list == SanitizedNumbers(values, accepts)
    ensures |rejected| + |Filter(values, accepts)| == |values|
  {
    hide SortBy, Unique, Micro;
    var accepted: seq<int> := [];
    rejected := [];
    for k := 0 to |values|
      invariant accepted == Millionths(Filter(values[..k], accepts))
      invariant |rejected| + |Filter(values[..k], accepts)| == k
    {
      assert values[..k + 1][..k] == values[..k];
      if accepts(values[k]) {
        var before := Filter(values[..k], accepts);
        assert (before + [values[k]])[..|before|] == before;
        accepted := accepted + [Micro(values[k])];
      } else {
        rejected := rejected + [values[k]];
      }
    }
    assert values[..|values|] == values;
    list := SortBy(Unique(accepted), Itself);
  }

  lemma DistinctAppend(s: seq<int>, x: int)
    requires Distinct(s) && x !in s
    ensures Distinct(s + [x])
  {
  }

  lemma DistinctInit(s: seq<int>)
    requires Distinct(s) && s != []
    ensures Distinct(s[..|s| - 1]) && s[|s| - 1] !in s[..|s| - 1]
  {
  }

  lemma {:induction false} InsertStaysDistinct(s: seq<int>, x: int)
    requires Distinct(s) && x !in s
    ensures Distinct(Insert(s, x, Itself))
    ensures forall y :: y in Insert(s, x, Itself) <==> y in s || y == x
  {
    hide Distinct;
    if s == [] || s[|s| - 1] <= x {
      DistinctAppend(s, x);
    } else {
      var m := |s| - 1;
      DistinctInit(s);
      assert s == s[..m] + [s[m]];
      InsertStaysDistinct(s[..m], x);
      DistinctAppend(Insert(s[..m], x, Itself), s[m]);
    }
  }

  lemma {:induction false} SortStaysDistinct(s: seq<int>)
    requires Distinct(s)
    ensures Distinct(SortBy(s, Itself))
  {
    if s != [] {
      var m := |s| - 1;
      SortStaysDistinct(s[..m]);
      SortMembers(s[..m], Itself);
      forall i | 0 <= i < m
        ensures s[i] != s[m]
      {
      }
      InsertStaysDistinct(SortBy(s[..m], Itself), s[m]);
    }
  }

  lemma SanitizedIsDistinct(values: seq<real>, accepts: real -> bool)
    ensures Distinct(SanitizedNumbers(values, accepts))
    ensures SortedBy(SanitizedNumbers(values, accepts), Itself)
  {
    hide SortBy, Unique, Millionths;
    UniqueIsDistinct(Millionths(Filter(values, accepts)));
    SortStaysDistinct(Unique(Millionths(Filter(values, accepts))));
    SortSorts(Unique(Millionths(Filter(values, accepts))), Itself);
  }

  // ----- all combinations

  /** The combinations that extend a prefix by one value from each list, in loop order. */
  function Under(prefix: seq<int>, lists: seq<seq<int>>): seq<seq<int>>
    decreases |lists|, 0, 0
  {
    if lists == [] then [prefix] else UnderEach(prefix, lists, |lists[0]|)
  }

  /** Those whose next value is among the first `n` of the first list. */
  function UnderEach(prefix: seq<int>, lists: seq<seq<int>>, n: nat): seq<seq<int>>
    requires lists != [] && n <= |lists[0]|
    decreases |lists| - 1, 1, n
  {
    if n == 0 then [] else UnderEach(prefix, lists, n - 1) + Under(prefix + [lists[0][n - 1]], lists[1..])
  }

  /** `grid` is what the loops have pushed: everything before the innermost open prefix, then what that prefix has
      got so far; and all of it is the beginning of the whole enumeration. */
  ghost predicate Inside(whole: seq<seq<int>>, base: seq<seq<int>>, prefix: seq<int>, lists: seq<seq<int>>) {
    base + Under(prefix, lists) <= whole
  }

  lemma {:induction false} UnderEachIsPrefix(prefix: seq<int>, lists: seq<seq<int>>, n: nat, m: nat)
    requires lists != [] && n <= m <= |lists[0]|
    ensures UnderEach(prefix, lists, n) <= UnderEach(prefix, lists, m)
    decreases m
  {
    if n < m {
      UnderEachIsPrefix(prefix, lists, n, m - 1);
    }
  }

  /** Going one loop deeper stays inside the enumeration. */
  lemma Deeper(whole: seq<seq<int>>, base: seq<seq<int>>, prefix: seq<int>, lists: seq<seq<int>>, i: nat,
               grid: seq<seq<int>>)
    requires lists != [] && i < |lists[0]| && Inside(whole, base, prefix, lists)
    requires grid == base + UnderEach(prefix, lists, i)
    ensures Inside(whole, grid, prefix + [lists[0][i]], lists[1..])
    ensures grid + Under(prefix + [lists[0][i]], lists[1..]) == base + UnderEach(prefix, lists, i + 1)
  {
    UnderEachIsPrefix(prefix, lists, i + 1, |lists[0]|);
    assert grid + Under(prefix + [lists[0][i]], lists[1..]) == base + UnderEach(prefix, lists, i + 1);
  }

  lemma Enters(prefix: seq<int>, lists: seq<seq<int>>, grid: seq<seq<int>>)
    requires lists != []
    ensures grid == grid + UnderEach(prefix, lists, 0)
    ensures Under(prefix, lists) == UnderEach(prefix, lists, |lists[0]|)
  {
    assert grid + [] == grid;
  }

  lemma Pushed(whole: seq<seq<int>>, grid: seq<seq<int>>, tuple: seq<int>)
    requires Inside(whole, grid, tuple, [])
    ensures grid + [tuple] <= whole && grid + Under(tuple, []) == grid + [tuple]
  {
  }

  lemma FullEnough(whole: seq<seq<int>>, grid: seq<seq<int>>, n: nat)
    requires grid <= whole && |grid| == n
    ensures grid == Take(whole, n)
  {
  }

  /** Ready to run the next loop: it has begun at `base` and pushed the combinations of its first `i` values. */
  ghost predicate Looping(whole: seq<seq<int>>, base: seq<seq<int>>, prefix: seq<int>, lists: seq<seq<int>>, i: nat,
                          grid: seq<seq<int>>)
  {
    lists != [] && i <= |lists[0]| && Inside(whole, base, prefix, lists) && grid == base + UnderEach(prefix, lists, i)
  }

  lemma LoopStarts(whole: seq<seq<int>>, base: seq<seq<int>>, prefix: seq<int>, lists: seq<seq<int>>)
    requires lists != [] && Inside(whole, base, prefix, lists)
    ensures Looping(whole, base, prefix, lists, 0, base)
  {
    assert base + [] == base;
  }

  /** Entering the loop below with the next value, and coming back when it is done. */
  lemma LoopStep(whole: seq<seq<int>>, base: seq<seq<int>>, prefix: seq<int>, lists: seq<seq<int>>, i: nat,
                 grid: seq<seq<int>>)
    requires Looping(whole, base, prefix, lists, i, grid) && i < |lists[0]| && |lists| > 1
    ensures Looping(whole, grid, prefix + [lists[0][i]], lists[1..], 0, grid)
    ensures forall next :: Looping(whole, grid, prefix + [lists[0][i]], lists[1..], |lists[1]|, next) ==>
              Looping(whole, base, prefix, lists, i + 1, next)
  {
    hide UnderEach, Inside;
    var head := prefix + [lists[0][i]];
    Deeper(whole, base, prefix, lists, i, grid);
    LoopStarts(whole, grid, head, lists[1..]);
    Enters(head, lists[1..], grid);
  }

  lemma LastLoopStep(whole: seq<seq<int>>, base: seq<seq<int>>, prefix: seq<int>, lists: seq<seq<int>>, i: nat,
                     grid: seq<seq<int>>)
    requires Looping(whole, base, prefix, lists, i, grid) && i < |lists[0]| && |lists| == 1
    ensures Looping(whole, base, prefix, lists, i + 1, grid + [prefix + [lists[0][i]]])
    ensures grid + [prefix + [lists[0][i]]] <= whole
  {
    hide UnderEach, Inside;
    assert lists[1..] == [];
    Deeper(whole, base, prefix, lists, i, grid);
    Pushed(whole, grid, prefix + [lists[0][i]]);
  }

  lemma LoopsDone(whole: seq<seq<int>>, lists: seq<seq<int>>, grid: seq<seq<int>>)
    requires lists != [] && whole == Under([], lists) && Looping(whole, [], [], lists, |lists[0]|, grid)
    ensures grid == whole
  {
  }

  /** The seven nested loops with their early return: the first `maxCombinations` combinations in loop order. */
  method BuildGrid(lists: seq<seq<int>>, maxCombinations: nat) returns (grid: seq<seq<int>>)
    requires |lists| == 7 && maxCombinations >= 1
    ensures grid == Take(Under([], lists), maxCombinations)
  {
    hide Under, Looping, Take;
    var intervals, minEdgeBps, maxSpread, lookbacks := lists[0], lists[1], lists[2], lists[3];
    var minConfidence, feesBps, slippageBps := lists[4], lists[5], lists[6];
    ghost var whole := Under([], lists);
    grid := [];
    WholeInside(whole, lists);
    LoopStarts(whole, [], [], lists);
    for i0 := 0 to |intervals|
      invariant Looping(whole, [], [], lists, i0, grid) && |grid| < maxCombinations
    {
      ghost var b1 := grid;
      var p1 := [intervals[i0]];
      Tail(lists, 0);
      assert [] + [lists[0][i0]] == p1;
      LoopStep(whole, [], [], lists, i0, grid);
      for i1 := 0 to |minEdgeBps|
        invariant Looping(whole, b1, p1, lists[1..], i1, grid) && |grid| < maxCombinations
      {
        ghost var b2 := grid;
        var p2 := p1 + [minEdgeBps[i1]];
        Tail(lists, 1);
        LoopStep(whole, b1, p1, lists[1..], i1, grid);
        for i2 := 0 to |maxSpread|
          invariant Looping(whole, b2, p2, lists[2..], i2, grid) && |grid| < maxCombinations
        {
          ghost var b3 := grid;
          var p3 := p2 + [maxSpread[i2]];
          Tail(lists, 2);
          LoopStep(whole, b2, p2, lists[2..], i2, grid);
          for i3 := 0 to |lookbacks|
            invariant Looping(whole, b3, p3, lists[3..], i3, grid) && |grid| < maxCombinations
          {
            ghost var b4 := grid;
            var p4 := p3 + [lookbacks[i3]];
            Tail(lists, 3);
            LoopStep(whole, b3, p3, lists[3..], i3, grid);
            for i4 := 0 to |minConfidence|
              invariant Looping(whole, b4, p4, lists[4..], i4, grid) && |grid| < maxCombinations
            {
              ghost var b5 := grid;
              var p5 := p4 + [minConfidence[i4]];
              Tail(lists, 4);
              LoopStep(whole, b4, p4, lists[4..], i4, grid);
              for i5 := 0 to |feesBps|
                invariant Looping(whole, b5, p5, lists[5..], i5, grid) && |grid| < maxCombinations
              {
                ghost var b6 := grid;
                var p6 := p5 + [feesBps[i5]];
                Tail(lists, 5);
                LoopStep(whole, b5, p5, lists[5..], i5, grid);
                for i6 := 0 to |slippageBps|
                  invariant Looping(whole, b6, p6, lists[6..], i6, grid) && |grid| < maxCombinations
                {
                  Tail(lists, 6);
                  LastLoopStep(whole, b6, p6, lists[6..], i6, grid);
                  grid := grid + [p6 + [slippageBps[i6]]];
                  if |grid| >= maxCombinations {
                    FullEnough(whole, grid, maxCombinations);
                    return;
                  }
                }
              }
            }
          }
        }
      }
    }
    LoopsDone(whole, lists, grid);
    FullEnoughAll(whole, maxCombinations);
  }

  lemma Tail(lists: seq<seq<int>>, d: nat)
    requires d < |lists|
    ensures lists[d..][0] == lists[d] && lists[d..][1..] == lists[d + 1..] && |lists[d..]| == |lists| - d
    ensures d + 1 < |lists| ==> lists[d..][1] == lists[d + 1]
    ensures lists[0..] == lists
  {
  }

  lemma WholeInside(whole: seq<seq<int>>, lists: seq<seq<int>>)
    requires whole == Under([], lists)
    ensures Inside(whole, [], [], lists)
  {
    assert [] + whole == whole;
  }

  lemma FullEnoughAll(whole: seq<seq<int>>, n: nat)
    requires |whole| < n
    ensures Take(whole, n) == whole
  {
  }

  // ----- mixed-radix decoding

  function Product(lists: seq<seq<int>>): nat { if lists == [] then 1 else |lists[0]| * Product(lists[1..]) }

  lemma DigitInRange(k: nat, n: nat, m: nat)
    requires k < n * m
    ensures m > 0 && k / m < n && k % m < m
  {
    if m > 0 && k / m >= n {
      TimesMonotone(n, k / m, m);
    }
  }

  /** The leading digit of `k` in the mixed radix of the list lengths, and what remains. */
  function Digit(lists: seq<seq<int>>, k: nat): (d: nat)
    requires lists != [] && k < Product(lists)
    ensures d < |lists[0]|
  {
    DigitInRange(k, |lists[0]|, Product(lists[1..]));
    k / Product(lists[1..])
  }

  function Remainder(lists: seq<seq<int>>, k: nat): (r: nat)
    requires lists != [] && k < Product(lists)
    ensures r < Product(lists[1..])
  {
    DigitInRange(k, |lists[0]|, Product(lists[1..]));
    k % Product(lists[1..])
  }

  /** Combination number `k`: its digits pick the values. */
  function Decode(lists: seq<seq<int>>, k: nat): (t: seq<int>)
    requires k < Product(lists)
    ensures |t| == |lists|
  {
    if lists == [] then [] else [lists[0][Digit(lists, k)]] + Decode(lists[1..], Remainder(lists, k))
  }

  lemma {:induction false} UnderDecodes(prefix: seq<int>, lists: seq<seq<int>>)
    ensures |Under(prefix, lists)| == Product(lists)
    ensures forall k :: 0 <= k < Product(lists) ==> Under(prefix, lists)[k] == prefix + Decode(lists, k)
    decreases |lists|, 0, 0
  {
    if lists == [] {
      assert prefix + [] == prefix;
    } else {
      UnderEachDecodes(prefix, lists, |lists[0]|);
    }
  }

  lemma {:induction false} UnderEachDecodes(prefix: seq<int>, lists: seq<seq<int>>, n: nat)
    requires lists != [] && n <= |lists[0]|
    ensures n * Product(lists[1..]) <= Product(lists)
    ensures |UnderEach(prefix, lists, n)| == n * Product(lists[1..])
    ensures forall k :: 0 <= k < n * Product(lists[1..]) ==> UnderEach(prefix, lists, n)[k] == prefix + Decode(lists, k)
    decreases |lists| - 1, 1, n
  {
    var m := Product(lists[1..]);
    TimesMonotone(n, |lists[0]|, m);
    if n > 0 {
      UnderEachDecodes(prefix, lists, n - 1);
      var head := prefix + [lists[0][n - 1]];
      UnderDecodes(head, lists[1..]);
      assert n * m == (n - 1) * m + m;
      var before := UnderEach(prefix, lists, n - 1);
      var block := Under(head, lists[1..]);
      hide UnderEach, Under;
      forall k | 0 <= k < n * m
        ensures (before + block)[k] == prefix + Decode(lists, k)
      {
        if k >= (n - 1) * m {
          var r := k - (n - 1) * m;
          QuotientUnique(k, m, n - 1, r);
          assert Digit(lists, k) == n - 1 && Remainder(lists, k) == r;
          assert block[r] == head + Decode(lists[1..], r);
          assert head + Decode(lists[1..], r) == prefix + ([lists[0][n - 1]] + Decode(lists[1..], r));
        }
      }
    }
  }

  /** The grid holds min(maxCombinations, product of the list lengths) combinations, and number `k` is the
      decoding of `k` over the lists. */
  lemma GridIsMixedRadix(lists: seq<seq<int>>, maxCombinations: nat, k: nat)
    ensures var grid := Take(Under([], lists), maxCombinations);
            && |grid| == MinInt(maxCombinations, Product(lists))
            && (k < |grid| ==> grid[k] == Decode(lists, k))
  {
    UnderDecodes([], lists);
    if k < Product(lists) {
      assert [] + Decode(lists, k) == Decode(lists, k);
    }
  }

  ghost predicate AllDistinct(lists: seq<seq<int>>) { forall d :: 0 <= d < |lists| ==> Distinct(lists[d]) }

  lemma DigitsDiffer(lists: seq<seq<int>>, k: nat, l: nat)
    requires lists != [] && k < l < Product(lists)
    ensures Digit(lists, k) < Digit(lists, l)
         || (Digit(lists, k) == Digit(lists, l) && Remainder(lists, k) < Remainder(lists, l))
  {
    hide Product;
    var m := Product(lists[1..]);
    assert m > 0 by { assert Remainder(lists, k) < m; }
    DivMonotone(k, l, m);
    assert k == k / m * m + k % m && l == l / m * m + l % m;
  }

  lemma {:induction false} DecodeInjective(lists: seq<seq<int>>, k: nat, l: nat)
    requires AllDistinct(lists) && k < l < Product(lists)
    ensures Decode(lists, k) != Decode(lists, l)
  {
    hide Digit, Remainder, AllDistinct, Product;
    if lists == [] {
      EmptyProduct();
    } else {
      RestDistinct(lists);
      DigitsDiffer(lists, k, l);
      var t, u := Decode(lists, k), Decode(lists, l);
      assert t[0] == lists[0][Digit(lists, k)] && t[1..] == Decode(lists[1..], Remainder(lists, k));
      assert u[0] == lists[0][Digit(lists, l)] && u[1..] == Decode(lists[1..], Remainder(lists, l));
      if Digit(lists, k) == Digit(lists, l) {
        DecodeInjective(lists[1..], Remainder(lists, k), Remainder(lists, l));
      }
    }
  }

  lemma EmptyProduct()
    ensures Product([]) == 1
  {
  }

  lemma RestDistinct(lists: seq<seq<int>>)
    requires lists != [] && AllDistinct(lists)
    ensures AllDistinct(lists[1..]) && Distinct(lists[0])
  {
    forall d | 0 <= d < |lists[1..]|
      ensures Distinct(lists[1..][d])
    {
      assert lists[1..][d] == lists[d + 1];
    }
  }

  /** How many combinations share the digits up to list `d`. */
  function Weight(lists: seq<seq<int>>, d: nat): nat
    requires d < |lists|
  {
    Product(lists[d + 1..])
  }

  lemma WeightBelow(lists: seq<seq<int>>, d: nat)
    requires 0 < d < |lists|
    ensures Weight(lists, d) == Weight(lists[1..], d - 1)
  {
    assert lists[d + 1..] == lists[1..][d..];
  }

  lemma FactorsPositive(lists: seq<seq<int>>)
    requires lists != [] && Product(lists) > 0
    ensures |lists[0]| > 0 && Product(lists[1..]) > 0 && Product(lists[1..]) <= Product(lists)
  {
    TimesMonotone(1, |lists[0]|, Product(lists[1..]));
  }

  /** Equal values at two places of one list collide: with zeros in all other digits, the two combinations are the
      same. */
  lemma {:induction false} DecodeCollides(lists: seq<seq<int>>, d: nat, i: nat, j: nat) returns (k: nat, l: nat)
    requires d < |lists| && i < j < |lists[d]| && lists[d][i] == lists[d][j] && Product(lists) > 0
    ensures k < l < Product(lists) && Decode(lists, k) == Decode(lists, l)
    ensures l == j * Weight(lists, d)
  {
    var m := Product(lists[1..]);
    FactorsPositive(lists);
    if d == 0 {
      TimesMonotone(j + 1, |lists[0]|, m);
      TimesMonotone(i + 1, j, m);
      assert (j + 1) * m == j * m + m && (i + 1) * m == i * m + m;
      MultipleOf(i, m);
      MultipleOf(j, m);
      k, l := i * m, j * m;
    } else {
      WeightBelow(lists, d);
      k, l := DecodeCollides(lists[1..], d - 1, i, j);
      QuotientUnique(k, m, 0, k);
      QuotientUnique(l, m, 0, l);
    }
  }

  /** List `d` has equal values at two places, and the first combination that uses the later one comes before `n`. */
  ghost predicate Collides(lists: seq<seq<int>>, n: nat, d: nat, i: nat, j: nat) {
    d < |lists| && i < j < |lists[d]| && lists[d][i] == lists[d][j] && j * Weight(lists, d) < n
  }

  lemma CollidesBelow(lists: seq<seq<int>>, n: nat, more: nat, d: nat, i: nat, j: nat)
    requires lists != [] && Collides(lists[1..], n, d, i, j) && n <= more
    ensures Collides(lists, more, d + 1, i, j)
  {
    WeightBelow(lists, d + 1);
  }

  /** Two positions with the same combination differ first in a list with equal values at two places. */
  lemma {:induction false} EqualDecodesCollide(lists: seq<seq<int>>, k: nat, l: nat) returns (d: nat, i: nat, j: nat)
    requires k < l < Product(lists) && Decode(lists, k) == Decode(lists, l)
    ensures Collides(lists, l + 1, d, i, j)
  {
    hide Digit, Remainder, Product;
    if lists == [] {
      EmptyProduct();
      assert false;
    } else {
      DigitsDiffer(lists, k, l);
      DigitBound(lists, l);
      var t, u := Decode(lists, k), Decode(lists, l);
      assert t[0] == lists[0][Digit(lists, k)] && t[1..] == Decode(lists[1..], Remainder(lists, k));
      assert u[0] == lists[0][Digit(lists, l)] && u[1..] == Decode(lists[1..], Remainder(lists, l));
      if Digit(lists, k) < Digit(lists, l) {
        d, i, j := 0, Digit(lists, k), Digit(lists, l);
      } else {
        d, i, j := EqualDecodesCollide(lists[1..], Remainder(lists, k), Remainder(lists, l));
        CollidesBelow(lists, Remainder(lists, l) + 1, l + 1, d, i, j);
        d := d + 1;
      }
    }
  }

  lemma DigitBound(lists: seq<seq<int>>, l: nat)
    requires lists != [] && l < Product(lists)
    ensures Digit(lists, l) * Product(lists[1..]) <= l && Remainder(lists, l) <= l
  {
    hide Product;
    var m := Product(lists[1..]);
    assert m > 0 by { assert Remainder(lists, l) < m; }
    assert l == l / m * m + l % m;
    TimesMonotone(0, l / m, m);
  }

  // ----- ids

  /** `toFixed(2)` of a number held in millionths, in hundredths. */
  function Hundredths(millionths: int): int { HalfAway(millionths as real / 10000.0) }

  /** Which values of a combination the id shows in two decimals: the spread and the confidence. */
  predicate Shortened(position: int) { position == 2 || position == 4 }

  /** What distinguishes one id from another: the seven values as the id prints them. */
  function IdOf(tuple: seq<int>): (id: seq<int>)
    ensures |id| == |tuple|
  {
    seq(|tuple|, i requires 0 <= i < |tuple| => if Shortened(i) then Hundredths(tuple[i]) else tuple[i])
  }

  function Printed(list: seq<int>): (r: seq<int>)
    ensures |r| == |list|
  {
    seq(|list|, i requires 0 <= i < |list| => Hundredths(list[i]))
  }

  /** The lists as the ids print them, from list number `from` on. */
  function PrintedLists(lists: seq<seq<int>>, from: nat): (r: seq<seq<int>>)
    ensures |r| == |lists| && Product(r) == Product(lists)
    ensures forall d :: 0 <= d < |lists| ==> r[d] == if Shortened(from + d) then Printed(lists[d]) else lists[d]
  {
    if lists == [] then []
    else
      var rest := PrintedLists(lists[1..], from + 1);
      var r := [if Shortened(from) then Printed(lists[0]) else lists[0]] + rest;
      assert r[1..] == rest;
      assert forall d :: 1 <= d < |lists| ==> r[d] == rest[d - 1] && lists[d] == lists[1..][d - 1];
      r
  }

  predicate PrintsAs(t: seq<int>, u: seq<int>, from: nat) {
    |u| == |t| && forall d :: 0 <= d < |t| ==> u[d] == if Shortened(from + d) then Hundredths(t[d]) else t[d]
  }

  lemma PrintsAsCons(x: int, y: int, t: seq<int>, u: seq<int>, from: nat)
    requires PrintsAs(t, u, from + 1) && y == if Shortened(from) then Hundredths(x) else x
    ensures PrintsAs([x] + t, [y] + u, from)
  {
    hide Shortened, Hundredths;
    forall d | 0 <= d < |t| + 1
      ensures ([y] + u)[d] == if Shortened(from + d) then Hundredths(([x] + t)[d]) else ([x] + t)[d]
    {
      if d > 0 {
        assert u[d - 1] == if Shortened(from + 1 + (d - 1)) then Hundredths(t[d - 1]) else t[d - 1];
      }
    }
  }

  lemma {:induction false} PrintedDecode(lists: seq<seq<int>>, from: nat, k: nat)
    requires k < Product(lists)
    ensures PrintsAs(Decode(lists, k), Decode(PrintedLists(lists, from), k), from)
  {
    hide PrintsAs, Shortened, Hundredths;
    if lists == [] {
      assert PrintsAs([], [], from) by { NothingPrinted(from); }
    } else {
      hide PrintedLists, Digit, Remainder, Product;
      var printed := PrintedLists(lists, from);
      PrintedCons(lists, from);
      PrintedDigits(lists, from, k);
      var d, r := Digit(lists, k), Remainder(lists, k);
      PrintedDecode(lists[1..], from + 1, r);
      PrintsAsCons(lists[0][d], printed[0][d], Decode(lists[1..], r), Decode(printed[1..], r), from);
    }
  }

  lemma PrintedDigits(lists: seq<seq<int>>, from: nat, k: nat)
    requires lists != [] && k < Product(lists)
    ensures Digit(PrintedLists(lists, from), k) == Digit(lists, k)
    ensures Remainder(PrintedLists(lists, from), k) == Remainder(lists, k)
  {
    PrintedCons(lists, from);
  }

  lemma PrintedCons(lists: seq<seq<int>>, from: nat)
    requires lists != []
    ensures var printed := PrintedLists(lists, from);
            && printed[0] == (if Shortened(from) then Printed(lists[0]) else lists[0])
            && printed[1..] == PrintedLists(lists[1..], from + 1) && |printed[0]| == |lists[0]|
  {
    hide Shortened, Printed;
  }

  lemma NothingPrinted(from: nat)
    ensures PrintsAs([], [], from)
  {
  }

  lemma IdDecodes(lists: seq<seq<int>>, k: nat)
    requires k < Product(lists)
    ensures IdOf(Decode(lists, k)) == Decode(PrintedLists(lists, 0), k)
  {
    PrintedDecode(lists, 0, k);
  }

  lemma {:induction false} PrintedSuffix(lists: seq<seq<int>>, from: nat, d: nat)
    requires d <= |lists|
    ensures PrintedLists(lists, from)[d..] == PrintedLists(lists[d..], from + d)
  {
    hide PrintedLists;
    if d == 0 {
      assert lists[0..] == lists && PrintedLists(lists, from)[0..] == PrintedLists(lists, from);
    } else {
      PrintedCons(lists, from);
      PrintedSuffix(lists[1..], from + 1, d - 1);
      assert lists[1..][d - 1..] == lists[d..];
      assert PrintedLists(lists, from)[1..][d - 1..] == PrintedLists(lists, from)[d..];
    }
  }

  lemma PrintedWeight(lists: seq<seq<int>>, d: nat)
    requires d < |lists|
    ensures Weight(PrintedLists(lists, 0), d) == Weight(lists, d)
  {
    hide PrintedLists, Product;
    PrintedSuffix(lists, 0, d + 1);
  }

  /** The grid that the program returns: the combinations up to the limit. */
  function Returned(lists: seq<seq<int>>, limit: nat): seq<seq<int>> { Take(Under([], lists), limit) }

  ghost predicate IdsDistinct(grid: seq<seq<int>>) {
    forall k, l :: 0 <= k < l < |grid| ==> IdOf(grid[k]) != IdOf(grid[l])
  }

  /** List `d` prints two of its values alike, and the grid of `size` combinations reaches the later one. */
  ghost predicate PrintsAlike(lists: seq<seq<int>>, size: nat, d: nat, i: nat, j: nat) {
    && d < |lists| && i < j < |lists[d]| && j * Weight(lists, d) < size
    && if Shortened(d) then Hundredths(lists[d][i]) == Hundredths(lists[d][j]) else lists[d][i] == lists[d][j]
  }

  lemma AlikeIsCollision(lists: seq<seq<int>>, size: nat, d: nat, i: nat, j: nat)
    ensures PrintsAlike(lists, size, d, i, j) <==> Collides(PrintedLists(lists, 0), size, d, i, j)
  {
    hide PrintedLists, Weight, Hundredths, Shortened;
    if d < |lists| {
      PrintedWeight(lists, d);
    }
  }

  lemma AlikeShows(lists: seq<seq<int>>, limit: nat, d: nat, i: nat, j: nat)
    requires PrintsAlike(lists, |Returned(lists, limit)|, d, i, j)
    ensures !IdsDistinct(Returned(lists, limit))
  {
    hide Decode, IdOf, PrintedLists, Under, Weight, Hundredths, Shortened, Returned;
    var grid := Returned(lists, limit);
    GridSize(lists, limit);
    AlikeIsCollision(lists, |grid|, d, i, j);
    var k, l := DecodeCollides(PrintedLists(lists, 0), d, i, j);
    ReturnedAt(lists, limit, k);
    ReturnedAt(lists, limit, l);
    IdDecodes(lists, k);
    IdDecodes(lists, l);
  }

  lemma GridSize(lists: seq<seq<int>>, limit: nat)
    ensures |Returned(lists, limit)| == MinInt(limit, Product(lists))
  {
    hide Under, Decode, Product;
    GridIsMixedRadix(lists, limit, 0);
  }

  lemma ReturnedAt(lists: seq<seq<int>>, limit: nat, k: nat)
    requires k < |Returned(lists, limit)|
    ensures k < Product(lists) && Returned(lists, limit)[k] == Decode(lists, k)
  {
    hide Under, Decode, Product;
    GridIsMixedRadix(lists, limit, k);
  }

  lemma EqualIdsAreAlike(lists: seq<seq<int>>, limit: nat, k: nat, l: nat) returns (d: nat, i: nat, j: nat)
    requires k < l < |Returned(lists, limit)| && IdOf(Returned(lists, limit)[k]) == IdOf(Returned(lists, limit)[l])
    ensures PrintsAlike(lists, |Returned(lists, limit)|, d, i, j)
  {
    hide Decode, IdOf, PrintedLists, Under, Weight, Hundredths, Shortened, Returned, Product;
    ReturnedAt(lists, limit, k);
    ReturnedAt(lists, limit, l);
    IdDecodes(lists, k);
    IdDecodes(lists, l);
    d, i, j := EqualDecodesCollide(PrintedLists(lists, 0), k, l);
    AlikeIsCollision(lists, |Returned(lists, limit)|, d, i, j);
  }

  /** The ids of the returned grid are distinct if and only if no list prints two values alike of which the grid
      reaches the later one. */
  lemma IdsDistinctExactly(lists: seq<seq<int>>, limit: nat)
    ensures IdsDistinct(Returned(lists, limit)) <==>
              !exists d: nat, i: nat, j: nat :: PrintsAlike(lists, |Returned(lists, limit)|, d, i, j)
  {
    hide Returned, PrintsAlike, IdOf;
    if d: nat, i: nat, j: nat :| PrintsAlike(lists, |Returned(lists, limit)|, d, i, j) {
      AlikeShows(lists, limit, d, i, j);
    } else if !IdsDistinct(Returned(lists, limit)) {
      var grid := Returned(lists, limit);
      var k, l :| 0 <= k < l < |grid| && IdOf(grid[k]) == IdOf(grid[l]);
      var d, i, j := EqualIdsAreAlike(lists, limit, k, l);
    }
  }

  /** Numbers with at most two decimals keep their differences when printed. */
  lemma TwoDecimalsPrintApart(list: seq<int>)
    requires Distinct(list) && forall x :: x in list ==> x % 10000 == 0
    ensures Distinct(Printed(list))
  {
    forall i, j | 0 <= i < j < |list|
      ensures Printed(list)[i] != Printed(list)[j]
    {
      assert list[i] in list && list[j] in list;
      ExactHundredths(list[i]);
      ExactHundredths(list[j]);
    }
  }

  lemma ExactHundredths(x: int)
    requires x % 10000 == 0
    ensures Hundredths(x) * 10000 == x
  {
    var q := x / 10000;
    assert x as real / 10000.0 == q as real;
    HalfAwayFixes(q);
  }

  // ----- the whole construction

  /** The given options; None where the caller gives none. An interval outside the table is given as zero. */
  datatype GridOptions = GridOptions(
    intervals: Option<seq<int>>,
    minEdgeBps: Option<seq<real>>,
    maxSpread: Option<seq<real>>,
    lookbacks: Option<seq<real>>,
    minConfidence: Option<seq<real>>,
    feesBps: Option<seq<real>>,
    slippageBps: Option<seq<real>>,
    maxCombinations: Option<real>)

  predicate Whole(v: real) { v == v.Floor as real }

  function EdgeOk(v: real): bool { Whole(v) && 0.0 <= v <= 5000.0 }

  function SpreadOk(v: real): bool { 0.0 < v <= 1.0 }

  function LookbackOk(v: real): bool { Whole(v) && 10.0 <= v <= 1000.0 }

  function ConfidenceOk(v: real): bool { 0.0 <= v <= 1.0 }

  function CostOk(v: real): bool { Whole(v) && 0.0 <= v <= 1000.0 }

  function IntervalOk(seconds: int): bool { seconds in {60, 300, 900, 3600} }

  const DEFAULT_INTERVALS: seq<int> := [300, 900]

  /** The allowed intervals in the order given; the default ones when none is allowed. */
  function SanitizedIntervals(values: seq<int>): seq<int> {
    var accepted := Unique(Filter(values, IntervalOk));
    if accepted == [] then DEFAULT_INTERVALS else accepted
  }

  function SanitizedLists(o: GridOptions): (lists: seq<seq<int>>)
    ensures |lists| == 7
  {
    [SanitizedIntervals(o.intervals.GetOr(DEFAULT_INTERVALS)),
     SanitizedNumbers(o.minEdgeBps.GetOr([200.0, 500.0, 800.0]), EdgeOk),
     SanitizedNumbers(o.maxSpread.GetOr([0.05, 0.1, 0.15]), SpreadOk),
     SanitizedNumbers(o.lookbacks.GetOr([20.0, 50.0, 100.0]), LookbackOk),
     SanitizedNumbers(o.minConfidence.GetOr([0.2, 0.4]), ConfidenceOk),
     SanitizedNumbers(o.feesBps.GetOr([0.0, 50.0]), CostOk),
     SanitizedNumbers(o.slippageBps.GetOr([0.0, 50.0]), CostOk)]
  }

  function GridOf(o: GridOptions): seq<seq<int>> {
    Returned(SanitizedLists(o), NormalizeMaxCombinations(o.maxCombinations))
  }

  method BuildFairValueV1ParameterGrid(o: GridOptions) returns (grid: seq<seq<int>>, requested: nat, truncated: bool)
    ensures grid == GridOf(o)
    ensures requested == Product(SanitizedLists(o))
    ensures truncated <==> |grid| < requested
  {
    hide Under, SortBy, Unique, Filter, Millionths, NormalizeMaxCombinations;
    var edges, _ := SanitizeNumberList(o.minEdgeBps.GetOr([200.0, 500.0, 800.0]), EdgeOk);
    var spreads, _ := SanitizeNumberList(o.maxSpread.GetOr([0.05, 0.1, 0.15]), SpreadOk);
    var lookbacks, _ := SanitizeNumberList(o.lookbacks.GetOr([20.0, 50.0, 100.0]), LookbackOk);
    var confidences, _ := SanitizeNumberList(o.minConfidence.GetOr([0.2, 0.4]), ConfidenceOk);
    var fees, _ := SanitizeNumberList(o.feesBps.GetOr([0.0, 50.0]), CostOk);
    var slippages, _ := SanitizeNumberList(o.slippageBps.GetOr([0.0, 50.0]), CostOk);
    var lists := [SanitizedIntervals(o.intervals.GetOr(DEFAULT_INTERVALS)), edges, spreads, lookbacks, confidences,
                  fees, slippages];
    assert lists == SanitizedLists(o);
    requested := Product(lists);
    var maxCombinations := NormalizeMaxCombinations(o.maxCombinations);
    truncated := requested > maxCombinations;
    grid := BuildGrid(lists, maxCombinations);
    GridIsMixedRadix(lists, maxCombinations, 0);
  }

  lemma SanitizedListsDistinct(o: GridOptions)
    ensures AllDistinct(SanitizedLists(o))
  {
    hide SanitizedNumbers, Unique, Filter;
    UniqueIsDistinct(Filter(o.intervals.GetOr(DEFAULT_INTERVALS), IntervalOk));
    SanitizedIsDistinct(o.minEdgeBps.GetOr([200.0, 500.0, 800.0]), EdgeOk);
    SanitizedIsDistinct(o.maxSpread.GetOr([0.05, 0.1, 0.15]), SpreadOk);
    SanitizedIsDistinct(o.lookbacks.GetOr([20.0, 50.0, 100.0]), LookbackOk);
    SanitizedIsDistinct(o.minConfidence.GetOr([0.2, 0.4]), ConfidenceOk);
    SanitizedIsDistinct(o.feesBps.GetOr([0.0, 50.0]), CostOk);
    SanitizedIsDistinct(o.slippageBps.GetOr([0.0, 50.0]), CostOk);
  }

  /** No combination occurs twice in the grid, whatever values the caller repeats. */
  lemma GridIsDistinct(o: GridOptions)
    ensures Distinct(GridOf(o))
  {
    hide Under, SanitizedLists, Decode, Product, NormalizeMaxCombinations, Returned;
    var lists, n := SanitizedLists(o), NormalizeMaxCombinations(o.maxCombinations);
    var grid := GridOf(o);
    SanitizedListsDistinct(o);
    forall k, l | 0 <= k < l < |grid|
      ensures grid[k] != grid[l]
    {
      ReturnedAt(lists, n, k);
      ReturnedAt(lists, n, l);
      DecodeInjective(lists, k, l);
    }
  }

  // ----- ids of a whole construction

  lemma {:induction false} MillionthsOrigin(values: seq<real>)
    ensures forall x :: x in Millionths(values) ==> exists v :: v in values && x == Micro(v)
    ensures forall v :: v in values ==> Micro(v) in Millionths(values)
  {
    hide Micro;
    if values != [] {
      var m := |values| - 1;
      MillionthsOrigin(values[..m]);
      assert values == values[..m] + [values[m]];
      forall x | x in Millionths(values)
        ensures exists v :: v in values && x == Micro(v)
      {
        if x in Millionths(values[..m]) {
          var v :| v in values[..m] && x == Micro(v);
          assert v in values;
        } else {
          assert values[m] in values;
        }
      }
    }
  }

  lemma SanitizedMembers(values: seq<real>, accepts: real -> bool)
    ensures forall x :: x in SanitizedNumbers(values, accepts) ==>
              exists v :: v in values && accepts(v) && x == Micro(v)
    ensures forall v :: v in values && accepts(v) ==> Micro(v) in SanitizedNumbers(values, accepts)
  {
    hide SortBy, Unique, Millionths, Filter, Micro;
    var accepted := Filter(values, accepts);
    FilterMembers(values, accepts);
    MillionthsOrigin(accepted);
    UniqueIsDistinct(Millionths(accepted));
    SortMembers(Unique(Millionths(accepted)), Itself);
    forall x | x in SanitizedNumbers(values, accepts)
      ensures exists v :: v in values && accepts(v) && x == Micro(v)
    {
      var v :| v in accepted && x == Micro(v);
    }
  }

  /** Every accepted value that the caller gives has at most two decimals; the default values have. */
  predicate TwoDecimals(given: Option<seq<real>>, accepts: real -> bool) {
    given.Some? ==> forall k :: 0 <= k < |given.value| && accepts(given.value[k]) ==> Whole(given.value[k] * 100.0)
  }

  lemma TwoDecimalMillionths(v: real)
    requires Whole(v * 100.0)
    ensures Micro(v) % 10000 == 0
  {
    var q := (v * 100.0).Floor;
    assert v * 1000000.0 == (q * 10000) as real;
    HalfAwayFixes(q * 10000);
    MultipleOf(q, 10000);
  }

  lemma SanitizedTwoDecimals(values: seq<real>, accepts: real -> bool)
    requires forall k :: 0 <= k < |values| && accepts(values[k]) ==> Whole(values[k] * 100.0)
    ensures Distinct(Printed(SanitizedNumbers(values, accepts)))
  {
    hide Printed, SanitizedNumbers, Whole, Micro;
    SanitizedIsDistinct(values, accepts);
    SanitizedMembers(values, accepts);
    forall x | x in SanitizedNumbers(values, accepts)
      ensures x % 10000 == 0
    {
      var v :| v in values && accepts(v) && x == Micro(v);
      TwoDecimalMillionths(v);
    }
    TwoDecimalsPrintApart(SanitizedNumbers(values, accepts));
  }

  /** Every list is without repeats as the ids print it. */
  ghost predicate PrintsApart(lists: seq<seq<int>>) {
    forall d :: 0 <= d < |lists| ==> Distinct(if Shortened(d) then Printed(lists[d]) else lists[d])
  }

  lemma NothingAlike(lists: seq<seq<int>>, size: nat, d: nat, i: nat, j: nat)
    requires PrintsApart(lists)
    ensures !PrintsAlike(lists, size, d, i, j)
  {
    hide Weight, Hundredths, Shortened;
    if d < |lists| && i < j < |lists[d]| {
      var shown := if Shortened(d) then Printed(lists[d]) else lists[d];
      assert Distinct(shown);
      assert shown[i] != shown[j];
    }
  }

  /** Options whose accepted spreads and confidences have at most two decimals, the defaults in particular, get a grid
      of distinct ids, whatever the other values and wherever the grid is cut. */
  lemma TwoDecimalOptionsHaveDistinctIds(o: GridOptions)
    requires TwoDecimals(o.maxSpread, SpreadOk) && TwoDecimals(o.minConfidence, ConfidenceOk)
    ensures IdsDistinct(GridOf(o))
  {
    hide SanitizedNumbers, SanitizedIntervals, Returned, IdsDistinct, PrintsAlike, Printed;
    var lists, limit := SanitizedLists(o), NormalizeMaxCombinations(o.maxCombinations);
    SanitizedListsDistinct(o);
    SanitizedTwoDecimals(o.maxSpread.GetOr([0.05, 0.1, 0.15]), SpreadOk);
    SanitizedTwoDecimals(o.minConfidence.GetOr([0.2, 0.4]), ConfidenceOk);
    forall d: nat, i: nat, j: nat
      ensures !PrintsAlike(lists, |Returned(lists, limit)|, d, i, j)
    {
      NothingAlike(lists, |Returned(lists, limit)|, d, i, j);
    }
    IdsDistinctExactly(lists, limit);
  }

  /** The default options but for two spreads that agree in two decimals. */
  const CLOSE_SPREADS := GridOptions(None, None, Some([0.101, 0.104]), None, None, None, None, None)

  lemma {:induction false} UniqueIsShorter<T>(s: seq<T>)
    ensures |Unique(s)| <= |s|
  {
    if s != [] {
      UniqueIsShorter(s[..|s| - 1]);
    }
  }

  lemma {:induction false} MillionthsLength(values: seq<real>)
    ensures |Millionths(values)| == |values|
  {
    if values != [] {
      MillionthsLength(values[..|values| - 1]);
    }
  }

  /** A sanitised list is no longer than the given one, and not empty when a given value is accepted. */
  lemma SanitizedLength(values: seq<real>, accepts: real -> bool)
    requires values != [] && accepts(values[0])
    ensures 1 <= |SanitizedNumbers(values, accepts)| <= |values|
  {
    SanitizedMembers(values, accepts);
    assert values[0] in values;
    assert Micro(values[0]) in SanitizedNumbers(values, accepts);
    hide SortBy, Unique, Millionths, Filter;
    MillionthsLength(Filter(values, accepts));
    UniqueIsShorter(Millionths(Filter(values, accepts)));
  }

  lemma PairMillionths(x: int, y: int)
    ensures Millionths([x as real / 1000000.0, y as real / 1000000.0]) == [x, y]
  {
    var values := [x as real / 1000000.0, y as real / 1000000.0];
    assert values[..1] == [values[0]] && [values[0]][..0] == [];
    HalfAwayFixes(x);
    HalfAwayFixes(y);
    assert Millionths([values[0]]) == [x];
  }

  lemma PairUnique(x: int, y: int)
    requires x < y
    ensures Unique([x, y]) == [x, y] && SortBy([x, y], Itself) == [x, y]
  {
    assert [x, y][..1] == [x] && [x][..0] == [];
    assert Unique([x]) == [x];
    SortedIsFixed([x, y], Itself);
  }

  lemma CloseSpreads()
    ensures SanitizedNumbers([0.101, 0.104], SpreadOk) == [101000, 104000]
  {
    hide Filter, Millionths, Unique, SortBy;
    PairFiltered(0.101, 0.104, SpreadOk);
    assert Filter([0.101, 0.104], SpreadOk) == [0.101, 0.104];
    assert 101000 as real / 1000000.0 == 0.101 && 104000 as real / 1000000.0 == 0.104;
    PairMillionths(101000, 104000);
    PairUnique(101000, 104000);
  }

  lemma DefaultIntervals()
    ensures |SanitizedIntervals(DEFAULT_INTERVALS)| >= 1
  {
  }

  lemma SmallProduct(a: nat, b: nat, c: nat, d: nat)
    requires 1 <= a <= 3 && 1 <= b <= 2 && 1 <= c <= 2 && 1 <= d <= 2
    ensures 1 <= a * (b * (c * (d * 1))) <= 24
  {
    var x := c * d;
    assert 1 <= x <= 4;
    var y := b * x;
    assert 1 <= y <= 8;
  }

  lemma ProductFrom(lists: seq<seq<int>>, d: nat)
    requires d < |lists|
    ensures Product(lists[d..]) == |lists[d]| * Product(lists[d + 1..])
  {
    Tail(lists, d);
  }

  lemma TailOfSeven(lists: seq<seq<int>>)
    requires |lists| == 7
    ensures Weight(lists, 2) == |lists[3]| * (|lists[4]| * (|lists[5]| * (|lists[6]| * 1)))
    ensures Product(lists) == |lists[0]| * (|lists[1]| * (|lists[2]| * Weight(lists, 2)))
  {
    hide Product;
    EmptyProduct();
    assert lists[7..] == [] && lists[0..] == lists;
    ProductFrom(lists, 0);
    ProductFrom(lists, 1);
    ProductFrom(lists, 2);
    ProductFrom(lists, 3);
    ProductFrom(lists, 4);
    ProductFrom(lists, 5);
    ProductFrom(lists, 6);
  }

  lemma PastTheTail(a: nat, b: nat, weight: nat)
    requires a >= 1 && b >= 1 && weight >= 1
    ensures a * (b * (2 * weight)) > weight
  {
    TimesMonotone(1, b, 2 * weight);
    TimesMonotone(1, a, b * (2 * weight));
  }

  /** Two spreads that agree in two decimals give the returned grid two equal ids, all else at its default. */
  lemma CloseSpreadsShareIds()
    ensures !IdsDistinct(GridOf(CLOSE_SPREADS))
  {
    hide SanitizedNumbers, SanitizedIntervals, Returned, Weight, IdsDistinct, Product;
    var lists := SanitizedLists(CLOSE_SPREADS);
    CloseSpreads();
    DefaultIntervals();
    SanitizedLength([200.0, 500.0, 800.0], EdgeOk);
    SanitizedLength([20.0, 50.0, 100.0], LookbackOk);
    SanitizedLength([0.2, 0.4], ConfidenceOk);
    SanitizedLength([0.0, 50.0], CostOk);
    TailOfSeven(lists);
    SmallProduct(|lists[3]|, |lists[4]|, |lists[5]|, |lists[6]|);
    PastTheTail(|lists[0]|, |lists[1]|, Weight(lists, 2));
    GridSize(lists, 50);
    assert Hundredths(101000) == 10 && Hundredths(104000) == 10;
    AlikeShows(lists, 50, 2, 0, 1);
  }

  // ----- which combinations are in the grid

  lemma {:induction false} DecodeMembers(lists: seq<seq<int>>, k: nat)
    requires k < Product(lists)
    ensures forall d :: 0 <= d < |lists| ==> Decode(lists, k)[d] in lists[d]
  {
    hide Digit, Remainder, Product;
    if lists != [] {
      DecodeMembers(lists[1..], Remainder(lists, k));
      var t := Decode(lists, k);
      forall d | 0 <= d < |lists|
        ensures t[d] in lists[d]
      {
        if d > 0 {
          assert lists[d] == lists[1..][d - 1] && t[d] == Decode(lists[1..], Remainder(lists, k))[d - 1];
        }
      }
    }
  }

  lemma {:induction false} EveryCombination(lists: seq<seq<int>>, t: seq<int>) returns (k: nat)
    requires |t| == |lists| && forall d :: 0 <= d < |lists| ==> t[d] in lists[d]
    ensures k < Product(lists) && Decode(lists, k) == t
  {
    if lists == [] {
      k := 0;
    } else {
      forall d | 0 <= d < |lists[1..]|
        ensures t[1..][d] in lists[1..][d]
      {
        assert t[d + 1] in lists[d + 1];
      }
      var r := EveryCombination(lists[1..], t[1..]);
      var m := Product(lists[1..]);
      var i :| 0 <= i < |lists[0]| && lists[0][i] == t[0];
      k := i * m + r;
      TimesMonotone(i + 1, |lists[0]|, m);
      assert (i + 1) * m == i * m + m;
      QuotientUnique(k, m, i, r);
    }
  }

  /** When the limit does not cut, every combination of sanitised values is in the grid. */
  lemma UncutGridIsComplete(o: GridOptions, t: seq<int>)
    requires |GridOf(o)| == Product(SanitizedLists(o)) && |t| == 7
    requires forall d :: 0 <= d < 7 ==> t[d] in SanitizedLists(o)[d]
    ensures t in GridOf(o)
  {
    hide Under, SanitizedLists, Decode, Product, NormalizeMaxCombinations, Returned;
    var k := EveryCombination(SanitizedLists(o), t);
    ReturnedAt(SanitizedLists(o), NormalizeMaxCombinations(o.maxCombinations), k);
  }

  lemma MicroBetween(v: real, low: int, high: int)
    requires low as real <= v <= high as real
    ensures low * 1000000 <= Micro(v) <= high * 1000000
  {
    HalfAwayFixes(low * 1000000);
    HalfAwayFixes(high * 1000000);
    HalfAwayMonotone(low as real * 1000000.0, v * 1000000.0);
    HalfAwayMonotone(v * 1000000.0, high as real * 1000000.0);
  }

  lemma WholeMicro(v: real)
    requires Whole(v)
    ensures Micro(v) % 1000000 == 0
  {
    var q := v.Floor;
    HalfAwayFixes(q * 1000000);
    assert v * 1000000.0 == (q * 1000000) as real;
    MultipleOf(q, 1000000);
  }

  /** What a sanitised list holds lies in the range of what it accepts. */
  lemma WholeRange(values: seq<real>, accepts: real -> bool, low: int, high: int, x: int)
    requires forall v: real :: accepts(v) ==> Whole(v) && low as real <= v <= high as real
    requires x in SanitizedNumbers(values, accepts)
    ensures low * 1000000 <= x <= high * 1000000 && x % 1000000 == 0
  {
    hide SanitizedNumbers, Micro, Whole;
    SanitizedMembers(values, accepts);
    var v :| v in values && accepts(v) && x == Micro(v);
    MicroBetween(v, low, high);
    WholeMicro(v);
  }

  lemma UnitRange(values: seq<real>, accepts: real -> bool, x: int)
    requires forall v: real :: accepts(v) ==> 0.0 <= v <= 1.0
    requires x in SanitizedNumbers(values, accepts)
    ensures 0 <= x <= 1000000
  {
    hide SanitizedNumbers, Micro;
    SanitizedMembers(values, accepts);
    var v :| v in values && accepts(v) && x == Micro(v);
    MicroBetween(v, 0, 1);
  }

  /** Every value of a sanitised list lies in the range of its parameter; edges, lookbacks and costs are whole. */
  lemma ValuesInRange(o: GridOptions, d: nat, x: int)
    requires d < 7 && x in SanitizedLists(o)[d]
    ensures d == 0 ==> x in {60, 300, 900, 3600}
    ensures d == 1 ==> 0 <= x <= 5000 * 1000000 && x % 1000000 == 0
    ensures d == 2 || d == 4 ==> 0 <= x <= 1000000
    ensures d == 3 ==> 10 * 1000000 <= x <= 1000 * 1000000 && x % 1000000 == 0
    ensures d == 5 || d == 6 ==> 0 <= x <= 1000 * 1000000 && x % 1000000 == 0
  {
    hide SanitizedNumbers, SanitizedIntervals;
    if d == 0 {
      IntervalsRead(o.intervals.GetOr(DEFAULT_INTERVALS));
    } else if d == 1 {
      WholeRange(o.minEdgeBps.GetOr([200.0, 500.0, 800.0]), EdgeOk, 0, 5000, x);
    } else if d == 2 {
      UnitRange(o.maxSpread.GetOr([0.05, 0.1, 0.15]), SpreadOk, x);
    } else if d == 3 {
      WholeRange(o.lookbacks.GetOr([20.0, 50.0, 100.0]), LookbackOk, 10, 1000, x);
    } else if d == 4 {
      UnitRange(o.minConfidence.GetOr([0.2, 0.4]), ConfidenceOk, x);
    } else if d == 5 {
      WholeRange(o.feesBps.GetOr([0.0, 50.0]), CostOk, 0, 1000, x);
    } else {
      WholeRange(o.slippageBps.GetOr([0.0, 50.0]), CostOk, 0, 1000, x);
    }
  }

  /** The intervals are the allowed ones given, or five and fifteen minutes when none of them is allowed. */
  lemma IntervalsRead(values: seq<int>)
    ensures var list := SanitizedIntervals(values);
            && list != []
            && (if exists v :: v in values && v in {60, 300, 900, 3600}
                then forall x :: x in list <==> x in values && x in {60, 300, 900, 3600}
                else list == [300, 900])
  {
    hide Unique, Filter;
    var kept := Filter(values, IntervalOk);
    FilterMembers(values, IntervalOk);
    UniqueIsDistinct(kept);
    if v :| v in values && v in {60, 300, 900, 3600} {
      assert v in kept && v in Unique(kept);
    } else {
      assert kept == [] by { FilterNone(values, IntervalOk); }
      assert |Unique(kept)| == 0 by { UniqueIsShorter(kept); }
    }
  }

  /** Which values each list takes, given or by default: whole edges up to 5000, positive spreads and confidences up
      to one, whole lookbacks from ten to a thousand, whole costs up to a thousand; rounded to six decimals, and
      nothing else. */
  lemma AcceptedValues(o: GridOptions, x: int)
    ensures var edges := o.minEdgeBps.GetOr([200.0, 500.0, 800.0]);
            x in SanitizedLists(o)[1] <==>
              exists v :: v in edges && v.Floor as real == v && v >= 0.0 && v <= 5000.0 && x == Micro(v)
    ensures var spreads := o.maxSpread.GetOr([0.05, 0.1, 0.15]);
            x in SanitizedLists(o)[2] <==> exists v :: v in spreads && v > 0.0 && v <= 1.0 && x == Micro(v)
    ensures var lookbacks := o.lookbacks.GetOr([20.0, 50.0, 100.0]);
            x in SanitizedLists(o)[3] <==>
              exists v :: v in lookbacks && v.Floor as real == v && v >= 10.0 && v <= 1000.0 && x == Micro(v)
    ensures var confidences := o.minConfidence.GetOr([0.2, 0.4]);
            x in SanitizedLists(o)[4] <==> exists v :: v in confidences && v >= 0.0 && v <= 1.0 && x == Micro(v)
  {
    hide SanitizedNumbers, SanitizedIntervals, Micro;
    SanitizedMembers(o.minEdgeBps.GetOr([200.0, 500.0, 800.0]), EdgeOk);
    SanitizedMembers(o.maxSpread.GetOr([0.05, 0.1, 0.15]), SpreadOk);
    SanitizedMembers(o.lookbacks.GetOr([20.0, 50.0, 100.0]), LookbackOk);
    SanitizedMembers(o.minConfidence.GetOr([0.2, 0.4]), ConfidenceOk);
  }

  lemma AcceptedCosts(o: GridOptions, x: int)
    ensures x in SanitizedLists(o)[5] <==>
              exists v :: v in o.feesBps.GetOr([0.0, 50.0]) && v.Floor as real == v && v >= 0.0 && v <= 1000.0
                          && x == Micro(v)
    ensures x in SanitizedLists(o)[6] <==>
              exists v :: v in o.slippageBps.GetOr([0.0, 50.0]) && v.Floor as real == v && v >= 0.0 && v <= 1000.0
                          && x == Micro(v)
  {
    hide SanitizedNumbers, SanitizedIntervals, Micro;
    SanitizedMembers(o.feesBps.GetOr([0.0, 50.0]), CostOk);
    SanitizedMembers(o.slippageBps.GetOr([0.0, 50.0]), CostOk);
  }
}

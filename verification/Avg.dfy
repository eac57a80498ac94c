/**
 The streaming trimmed mean of source/lib/avg.c on values, and its reference: sort all inputs, drop the k
 smallest and the m largest, average the rest.
 */
module AvgTrim {
  import opened Wrappers

  /** The filled parts of the two extreme arrays, their sizes, and the values that passed both, in order. */
  datatype State = State(minima: seq<Uint32>, minSize: nat, maxima: seq<Uint32>, maxSize: nat, middle: seq<Uint32>)

  function Sum(s: seq<Uint32>): nat {
    if s == [] then 0 else s[0] + Sum(s[1..])
  }

  // ---------------------------------------------------------------- the two arrays

  /** Where the scan of the first n values finds the largest; the first of several. */
  function LargestAt(s: seq<Uint32>, n: nat): (i: nat)
    requires 1 <= n <= |s|
    ensures i < n && forall j :: 0 <= j < n ==> s[j] <= s[i]
  {
    if n == 1 then 0
    else
      var i := LargestAt(s, n - 1);
      if s[i] < s[n - 1] then n - 1 else i
  }

  function SmallestAt(s: seq<Uint32>, n: nat): (i: nat)
    requires 1 <= n <= |s|
    ensures i < n && forall j :: 0 <= j < n ==> s[i] <= s[j]
  {
    if n == 1 then 0
    else
      var i := SmallestAt(s, n - 1);
      if s[i] > s[n - 1] then n - 1 else i
  }

  /** What a full array of minima does with an input: the new array and the value it lets through. */
  function PassMin(minima: seq<Uint32>, input: Uint32): (r: (seq<Uint32>, Uint32))
    ensures |r.0| == |minima|
    ensures multiset(r.0) + multiset{r.1} == multiset(minima) + multiset{input}
    ensures forall x :: x in r.0 ==> x <= r.1
  {
    if minima == [] then (minima, input)
    else
      var i := LargestAt(minima, |minima|);
      if minima[i] > input then
        var s := minima[i := input];
        assert multiset(s) == multiset(minima) - multiset{minima[i]} + multiset{input};
        (s, minima[i])
      else (minima, input)
  }

  function PassMax(maxima: seq<Uint32>, input: Uint32): (r: (seq<Uint32>, Uint32))
    ensures |r.0| == |maxima|
    ensures multiset(r.0) + multiset{r.1} == multiset(maxima) + multiset{input}
    ensures forall x :: x in r.0 ==> r.1 <= x
  {
    if maxima == [] then (maxima, input)
    else
      var i := SmallestAt(maxima, |maxima|);
      if maxima[i] < input then
        var s := maxima[i := input];
        assert multiset(s) == multiset(maxima) - multiset{maxima[i]} + multiset{input};
        (s, maxima[i])
      else (maxima, input)
  }

  /** avg_add */
  function Add(s: State, value: Uint32): State {
    if |s.minima| < s.minSize then s.(minima := s.minima + [value])
    else
      var (minima, v) := PassMin(s.minima, value);
      if |s.maxima| < s.maxSize then s.(minima := minima, maxima := s.maxima + [v])
      else
        var (maxima, w) := PassMax(s.maxima, v);
        s.(minima := minima, maxima := maxima, middle := s.middle + [w])
  }

  /** avg_init and one avg_add for each input. */
  function AddAll(minSize: nat, maxSize: nat, inputs: seq<Uint32>): State {
    if inputs == [] then State([], minSize, [], maxSize, [])
    else Add(AddAll(minSize, maxSize, inputs[..|inputs| - 1]), inputs[|inputs| - 1])
  }

  // ---------------------------------------------------------------- what they hold

  ghost predicate Below(a: multiset<Uint32>, b: multiset<Uint32>) {
    forall x, y :: x in a && y in b ==> x <= y
  }

  /** all consists of three parts, one below the next. */
  ghost predicate Split(all: multiset<Uint32>, low: multiset<Uint32>, mid: multiset<Uint32>, high: multiset<Uint32>) {
    all == low + (mid + high) && Below(low, mid + high) && Below(mid, high)
  }

  /** The inputs are split into three by size; an array is filled before anything passes it. */
  ghost predicate Trimmed(s: State, inputs: multiset<Uint32>) {
    && Split(inputs, multiset(s.minima), multiset(s.middle), multiset(s.maxima))
    && |s.minima| <= s.minSize && |s.maxima| <= s.maxSize
    && (|s.minima| < s.minSize ==> s.maxima == [] && s.middle == [])
    && (|s.maxima| < s.maxSize ==> s.middle == [])
  }

  /** The new minima stay below whatever the old ones were below. */
  lemma PassMinBelow(minima: seq<Uint32>, input: Uint32, others: multiset<Uint32>)
    requires Below(multiset(minima), others)
    ensures var (s, v) := PassMin(minima, input);
            Below(multiset(s), others + multiset{v}) && (v == input || v in minima)
  {
    var (s, v) := PassMin(minima, input);
    if minima != [] {
      var i := LargestAt(minima, |minima|);
      forall x, y | x in multiset(s) && y in others ensures x <= y {
        assert x in multiset(minima) + multiset{input};
        assert minima[i] in multiset(minima);
      }
    }
  }

  lemma PassMaxAbove(maxima: seq<Uint32>, input: Uint32, others: multiset<Uint32>)
    requires Below(others, multiset(maxima))
    ensures var (s, v) := PassMax(maxima, input);
            Below(others + multiset{v}, multiset(s)) && (v == input || v in maxima)
  {
    var (s, v) := PassMax(maxima, input);
    if maxima != [] {
      var i := SmallestAt(maxima, |maxima|);
      forall x, y | x in others && y in multiset(s) ensures x <= y {
        assert y in multiset(maxima) + multiset{input};
        assert maxima[i] in multiset(maxima);
      }
    }
  }

  lemma Exchange<T>(a: multiset<T>, b: multiset<T>, x: T, b': multiset<T>, y: T)
    requires b' + multiset{y} == b + multiset{x}
    ensures a + multiset{y} + b' == a + b + multiset{x}
  {
    assert a + multiset{y} + b' == a + (b' + multiset{y});
    assert a + b + multiset{x} == a + (b + multiset{x});
  }

  lemma ExchangeFirst<T>(a: multiset<T>, b: multiset<T>, x: T, a': multiset<T>, y: T)
    requires a' + multiset{y} == a + multiset{x}
    ensures a' + (b + multiset{y}) == a + b + multiset{x}
  {
    assert a' + (b + multiset{y}) == (a' + multiset{y}) + b;
    assert a + b + multiset{x} == (a + multiset{x}) + b;
  }

  /** The value that passes the minima belongs to the upper two parts. */
  lemma MinKeeps(s: State, all: multiset<Uint32>, value: Uint32)
    requires Split(all, multiset(s.minima), multiset(s.middle), multiset(s.maxima))
    ensures var (minima, v) := PassMin(s.minima, value);
            var rest := multiset(s.middle) + multiset(s.maxima) + multiset{v};
            all + multiset{value} == multiset(minima) + rest && Below(multiset(minima), rest)
  {
    hide PassMin, Below;
    var (minima, v) := PassMin(s.minima, value);
    var rest := multiset(s.middle) + multiset(s.maxima);
    PassMinBelow(s.minima, value, rest);
    ExchangeFirst(multiset(s.minima), rest, value, multiset(minima), v);
  }

  /** The value that passes the maxima belongs to the middle. */
  lemma MaxKeeps(s: State, v: Uint32)
    requires Below(multiset(s.middle), multiset(s.maxima))
    ensures var (maxima, w) := PassMax(s.maxima, v);
            && multiset(s.middle + [w]) + multiset(maxima) == multiset(s.middle) + multiset(s.maxima) + multiset{v}
            && Below(multiset(s.middle + [w]), multiset(maxima))
  {
    hide PassMax, Below;
    var (maxima, w) := PassMax(s.maxima, v);
    PassMaxAbove(s.maxima, v, multiset(s.middle));
    assert multiset(s.middle + [w]) == multiset(s.middle) + multiset{w};
    Exchange(multiset(s.middle), multiset(s.maxima), v, multiset(maxima), w);
  }

  lemma AddKeeps(s: State, inputs: multiset<Uint32>, value: Uint32)
    requires Trimmed(s, inputs)
    ensures Trimmed(Add(s, value), inputs + multiset{value})
  {
    hide PassMin, PassMax;
    if |s.minima| < s.minSize {
      assert multiset(s.minima + [value]) == multiset(s.minima) + multiset{value};
    } else {
      var (minima, v) := PassMin(s.minima, value);
      MinKeeps(s, inputs, value);
      if |s.maxima| < s.maxSize {
        assert multiset(s.maxima + [v]) == multiset(s.maxima) + multiset{v};
        assert multiset(s.middle) + multiset(s.maxima + [v]) == multiset(s.middle) + multiset(s.maxima) + multiset{v};
      } else {
        hide Below;
        MaxKeeps(s, v);
      }
    }
  }

  lemma {:induction false} AllTrimmed(minSize: nat, maxSize: nat, inputs: seq<Uint32>)
    ensures Trimmed(AddAll(minSize, maxSize, inputs), multiset(inputs))
    ensures var s := AddAll(minSize, maxSize, inputs); s.minSize == minSize && s.maxSize == maxSize
  {
    if inputs != [] {
      var before, last := inputs[..|inputs| - 1], inputs[|inputs| - 1];
      assert inputs == before + [last];
      AllTrimmed(minSize, maxSize, before);
      hide Trimmed;
      AddKeeps(AddAll(minSize, maxSize, before), multiset(before), last);
    }
  }

  // ---------------------------------------------------------------- against sorting

  ghost predicate Sorted(s: seq<Uint32>) {
    forall i, j :: 0 <= i < j < |s| ==> s[i] <= s[j]
  }

  lemma CancelOne(rest: multiset<Uint32>, low: multiset<Uint32>, high: multiset<Uint32>, x: Uint32)
    requires multiset{x} + rest == low + high && x in low
    ensures rest == low - multiset{x} + high
  {
    assert low == low - multiset{x} + multiset{x};
    assert multiset{x} + rest == multiset{x} + (low - multiset{x} + high);
    assert rest == multiset{x} + rest - multiset{x};
  }

  lemma LeastIsLow(s: seq<Uint32>, low: multiset<Uint32>, high: multiset<Uint32>)
    requires Sorted(s) && multiset(s) == low + high && Below(low, high) && |low| > 0
    ensures s != [] && s[0] in low
  {
    var a :| a in low;
    assert a in multiset(s);
    assert s[0] in multiset(s);
  }

  /** A sorted sequence can be split by size in one way only. */
  lemma {:induction false} SortedSplit(s: seq<Uint32>, low: multiset<Uint32>, high: multiset<Uint32>)
    requires Sorted(s) && multiset(s) == low + high && Below(low, high)
    ensures |low| <= |s| && multiset(s[..|low|]) == low && multiset(s[|low|..]) == high
    decreases |s|
  {
    if |low| == 0 {
      assert low == multiset{};
      assert s[|low|..] == s;
    } else {
      var x, rest, less := s[0], s[1..], low - multiset{s[0]};
      LeastIsLow(s, low, high);
      assert s == [x] + rest;
      CancelOne(multiset(rest), low, high, x);
      assert Below(less, high) && Sorted(rest) && low == less + multiset{x};
      hide Sorted, Below;
      SortedSplit(rest, less, high);
      PutBack(x, rest, |less|);
    }
  }

  lemma PutBack(x: Uint32, rest: seq<Uint32>, k: nat)
    requires k <= |rest|
    ensures multiset(([x] + rest)[..k + 1]) == multiset(rest[..k]) + multiset{x} && ([x] + rest)[k + 1..] == rest[k..]
  {
    assert ([x] + rest)[..k + 1] == [x] + rest[..k];
  }

  lemma {:induction false} SumOfPermutation(a: seq<Uint32>, b: seq<Uint32>)
    requires multiset(a) == multiset(b)
    ensures Sum(a) == Sum(b)
    decreases |a|
  {
    assert |a| == |multiset(a)| == |multiset(b)| == |b|;
    if a != [] {
      assert a[0] in multiset(b);
      var i :| 0 <= i < |b| && b[i] == a[0];
      TakeOut(a, b, i);
      SumOfPermutation(a[1..], b[..i] + b[i + 1..]);
      SumWithout(b, i);
    }
  }

  lemma TakeOut(a: seq<Uint32>, b: seq<Uint32>, i: nat)
    requires a != [] && multiset(a) == multiset(b) && i < |b| && b[i] == a[0]
    ensures multiset(a[1..]) == multiset(b[..i] + b[i + 1..])
  {
    assert a == [a[0]] + a[1..];
    assert b == b[..i] + [b[i]] + b[i + 1..];
    assert multiset(a) - multiset{a[0]} == multiset(a[1..]);
    assert multiset(b) - multiset{b[i]} == multiset(b[..i] + b[i + 1..]);
  }

  lemma SumWithout(b: seq<Uint32>, i: nat)
    requires i < |b|
    ensures Sum(b) == b[i] + Sum(b[..i] + b[i + 1..])
  {
    var left, right := b[..i], b[i + 1..];
    SumOfCons(b[i], right);
    hide Sum;
    SumOfConcat(left, right);
    SumOfConcat(left, [b[i]] + right);
    assert b == left + ([b[i]] + right);
  }

  lemma SumOfCons(x: Uint32, s: seq<Uint32>)
    ensures Sum([x] + s) == x + Sum(s) && Sum([]) == 0
  {
    assert ([x] + s)[1..] == s;
  }

  lemma {:induction false} SumOfConcat(a: seq<Uint32>, b: seq<Uint32>)
    ensures Sum(a + b) == Sum(a) + Sum(b)
    decreases |a|
  {
    if a == [] {
      assert a + b == b;
    } else {
      assert (a + b)[1..] == a[1..] + b;
      SumOfConcat(a[1..], b);
    }
  }

  /** The sorted inputs without the lowSize smallest and the highSize largest; the smallest are dropped first. */
  function Trim(sorted: seq<Uint32>, lowSize: nat, highSize: nat): seq<Uint32> {
    var low := Min(|sorted|, lowSize);
    var high := Min(|sorted| - low, highSize);
    sorted[low..|sorted| - high]
  }

  ghost predicate IsSorting(sorted: seq<Uint32>, inputs: seq<Uint32>) {
    Sorted(sorted) && multiset(sorted) == multiset(inputs)
  }

  /** Whatever the order of the inputs: minima holds the smallest ones, maxima the largest ones, and what passed
      both is the middle of the sorted inputs. */
  lemma IsTrimOfSorted(minSize: nat, maxSize: nat, inputs: seq<Uint32>, sorted: seq<Uint32>)
    requires IsSorting(sorted, inputs)
    ensures var s := AddAll(minSize, maxSize, inputs);
            var n := |inputs|;
            && n == |sorted|
            && |s.minima| == Min(n, minSize) && multiset(s.minima) == multiset(sorted[..|s.minima|])
            && |s.maxima| == Min(n - |s.minima|, maxSize) && multiset(s.maxima) == multiset(sorted[n - |s.maxima|..])
            && |s.middle| == |Trim(sorted, minSize, maxSize)|
            && Sum(s.middle) == Sum(Trim(sorted, minSize, maxSize))
  {
    hide AddAll, Sorted, Sum, Trimmed;
    var s := AddAll(minSize, maxSize, inputs);
    AllTrimmed(minSize, maxSize, inputs);
    assert |multiset(sorted)| == |sorted| && |multiset(inputs)| == |inputs|;
    TrimIsUnique(s, sorted);
    TrimSizes(s, multiset(inputs));
    hide IsSorting, Min;
  }

  lemma TrimSizes(s: State, inputs: multiset<Uint32>)
    requires Trimmed(s, inputs)
    ensures |s.minima| == Min(|inputs|, s.minSize) && |s.maxima| == Min(|inputs| - |s.minima|, s.maxSize)
  {
    hide Below;
    assert |multiset(s.minima)| == |s.minima| && |multiset(s.middle)| == |s.middle|;
    assert |multiset(s.maxima)| == |s.maxima|;
  }

  /** The 32-bit totals of the values that passed are the totals of the trimmed inputs, when those fit. */
  lemma TotalsFit(minSize: nat, maxSize: nat, inputs: seq<Uint32>)
    requires |inputs| < UINT32
    ensures var middle := AddAll(minSize, maxSize, inputs).middle;
            forall sorted: seq<Uint32> :: IsSorting(sorted, inputs) ==>
              var rest := Trim(sorted, minSize, maxSize);
              && |middle| % UINT32 == |rest|
              && (Sum(rest) < UINT32 ==> Sum(middle) % UINT32 == Sum(rest))
  {
    hide AddAll, Sum, IsSorting;
    forall sorted: seq<Uint32> | IsSorting(sorted, inputs)
      ensures var rest := Trim(sorted, minSize, maxSize);
              var middle := AddAll(minSize, maxSize, inputs).middle;
              && |middle| == |rest| < UINT32 && Sum(middle) == Sum(rest)
    {
      IsTrimOfSorted(minSize, maxSize, inputs, sorted);
    }
  }

  lemma TrimIsUnique(s: State, sorted: seq<Uint32>)
    requires Sorted(sorted) && Trimmed(s, multiset(sorted))
    ensures |sorted| == |s.minima| + |s.middle| + |s.maxima|
    ensures multiset(s.minima) == multiset(sorted[..|s.minima|])
    ensures multiset(s.maxima) == multiset(sorted[|sorted| - |s.maxima|..])
    ensures Sum(s.middle) == Sum(sorted[|s.minima|..|sorted| - |s.maxima|])
  {
    hide Sorted, Split, Below, Sum;
    var low, mid, high := multiset(s.minima), multiset(s.middle), multiset(s.maxima);
    var k, l := |s.minima|, |s.minima| + |s.middle|;
    assert |low| == k && |mid| == |s.middle| && |high| == |s.maxima|;
    SortedSplit3(sorted, low, mid, high);
    assert |sorted| - |s.maxima| == l;
    hide *;
    SumOfPermutation(s.middle, sorted[k..l]);
  }

  lemma SortedSplit3(s: seq<Uint32>, low: multiset<Uint32>, mid: multiset<Uint32>, high: multiset<Uint32>)
    requires Sorted(s) && Split(multiset(s), low, mid, high)
    ensures var k, l := |low|, |low| + |mid|;
            && l + |high| == |s|
            && multiset(s[..k]) == low && multiset(s[k..l]) == mid && multiset(s[l..]) == high
  {
    hide Below;
    SortedSplit(s, low, mid + high);
    var upper := s[|low|..];
    assert Sorted(upper);
    hide Sorted;
    SortedSplit(upper, mid, high);
    assert upper[..|mid|] == s[|low|..|low| + |mid|] && upper[|mid|..] == s[|low| + |mid|..];
    assert |multiset(s)| == |s|;
  }

  // ---------------------------------------------------------------- avg_calculate

  /** What avg_calculate makes of a sum and a number of elements. */
  function Rounded(sum: nat, elements: nat): nat {
    if elements == 0 then 0
    else sum / elements + if elements >= 2 && sum % elements >= elements / 2 then 1 else 0
  }

  /** It is the mean rounded down or up, and the nearest integer except for one remainder of odd counts. */
  lemma RoundedIsNear(sum: nat, elements: nat)
    requires elements >= 1
    ensures var r := Rounded(sum, elements);
            && r * elements - sum < elements && sum - r * elements < elements
            && (2 * (r * elements - sum) <= elements && 2 * (sum - r * elements) <= elements
                <==> !(elements % 2 == 1 && elements >= 3 && sum % elements == elements / 2))
  {
    var q, rest := sum / elements, sum % elements;
    assert sum == q * elements + rest;
    assert (q + 1) * elements == q * elements + elements;
  }

  /** The uint32_t sum and elements of the values that passed. */
  ghost predicate Totals(middle: seq<Uint32>, sum: Uint32, elements: Uint32) {
    sum == Sum(middle) % UINT32 && elements == |middle| % UINT32
  }

  /** One more value in 32-bit totals. */
  lemma TotalsGrow(middle: seq<Uint32>, v: Uint32, sum: Uint32, elements: Uint32)
    requires Totals(middle, sum, elements)
    ensures Totals(middle + [v], (sum + v) % UINT32, (elements + 1) % UINT32)
  {
    SumOfConcat(middle, [v]);
    SumOfCons(v, []);
    assert [v] + [] == [v];
    hide Sum;
    AddModulo(Sum(middle), v);
    AddModulo(|middle|, 1);
  }

  lemma QuotientIsSmall(sum: nat, elements: nat)
    requires elements >= 1
    ensures sum / elements <= sum && (elements >= 2 ==> 2 * (sum / elements) <= sum)
  {
    var q := sum / elements;
    assert sum == elements * q + sum % elements;
    assert elements * q == q + (elements - 1) * q;
    assert elements >= 2 ==> (elements - 1) * q >= q;
  }
}

/** source/lib/avg.c in place, proved against AvgTrim. */
module AvgObject {
  import opened Wrappers
  import opened AvgTrim

  class Avg {
    const min: array?<Uint32>
    const max: array?<Uint32>
    var sum: Uint32
    var elements: Uint32
    var minLen: nat
    var maxLen: nat
    ghost var middle: seq<Uint32>
    ghost var inputs: seq<Uint32>

    ghost function MinSize(): nat {
      if min == null then 0 else min.Length
    }

    ghost function MaxSize(): nat {
      if max == null then 0 else max.Length
    }

    ghost predicate Shape()
      reads this
    {
      && minLen <= MinSize() && maxLen <= MaxSize()
      && (min != null && max != null ==> min != max)
    }

    /** The searches look at the first element of a full array. */
    predicate Searchable() {
      (min != null ==> 1 <= min.Length) && (max != null ==> 1 <= max.Length)
    }

    ghost function Minima(): seq<Uint32>
      requires Shape()
      reads this, min
    {
      if min == null then [] else min[..minLen]
    }

    ghost function Maxima(): seq<Uint32>
      requires Shape()
      reads this, max
    {
      if max == null then [] else max[..maxLen]
    }

    /** The fields are what all inputs so far make them; the two totals are uint32_t. */
    ghost predicate Valid()
      reads this, min, max
    {
      && Shape()
      && AddAll(MinSize(), MaxSize(), inputs) == State(Minima(), MinSize(), Maxima(), MaxSize(), middle)
      && Totals(middle, sum, elements)
    }

    /** avg_init */
    constructor (min: array?<Uint32>, max: array?<Uint32>)
      requires (min != null ==> min.Length <= 255) && (max != null ==> max.Length <= 255)
      requires min != null && max != null ==> min != max
      ensures Valid() && inputs == [] && this.min == min && this.max == max
    {
      this.min, this.max := min, max;
      sum, elements, minLen, maxLen := 0, 0, 0, 0;
      middle, inputs := [], [];
    }

    /** avg_add */
    method Add(value: Uint32)
      requires Valid() && Searchable()
      modifies this, min, max
      ensures Valid() && inputs == old(inputs) + [value]
    {
      ghost var s := State(Minima(), MinSize(), Maxima(), MaxSize(), middle);
      inputs := inputs + [value];
      assert inputs[..|inputs| - 1] == old(inputs);
      assert AddAll(MinSize(), MaxSize(), inputs) == AvgTrim.Add(s, value);
      hide AddAll, PassMin, PassMax, Totals, Sum;
      var filled, v := AddMin(value);
      if filled {
        return;
      }
      AddAboveMin(v);
    }

    /** The rest of avg_add, for the value that passed the minima. */
    method AddAboveMin(value: Uint32)
      requires Shape() && Searchable() && Totals(middle, sum, elements)
      modifies this`maxLen, this`sum, this`elements, this`middle, max
      ensures Shape() && Totals(middle, sum, elements)
      ensures if |old(Maxima())| < MaxSize() then Maxima() == old(Maxima()) + [value] && middle == old(middle)
              else var (maxima, w) := PassMax(old(Maxima()), value);
                   Maxima() == maxima && middle == old(middle) + [w]
    {
      hide PassMax, Totals;
      var filled, v := AddMax(value);
      if filled {
        return;
      }
      TotalsGrow(middle, v, sum, elements);
      middle := middle + [v];
      sum := (sum + v) % UINT32;
      elements := (elements + 1) % UINT32;
    }

    /** avg_add_min */
    method AddMin(input: Uint32) returns (filled: bool, output: Uint32)
      requires Shape() && Searchable()
      modifies this`minLen, min
      ensures Shape()
      ensures filled == (|old(Minima())| < MinSize())
      ensures filled ==> Minima() == old(Minima()) + [input]
      ensures !filled ==> (Minima(), output) == PassMin(old(Minima()), input)
    {
      if min == null {
        return false, input;
      }
      if minLen < min.Length {
        min[minLen] := input;
        minLen := minLen + 1;
        return true, input;
      }
      var idx := 0;
      for i := 1 to min.Length
        invariant idx == LargestAt(min[..], i)
      {
        if min[idx] < min[i] {
          idx := i;
        }
      }
      filled, output := false, input;
      assert min[..minLen] == min[..];
      if min[idx] > input {
        output := min[idx];
        min[idx] := input;
      }
      assert min[..minLen] == min[..];
    }

    /** avg_add_max */
    method AddMax(input: Uint32) returns (filled: bool, output: Uint32)
      requires Shape() && Searchable()
      modifies this`maxLen, max
      ensures Shape()
      ensures filled == (|old(Maxima())| < MaxSize())
      ensures filled ==> Maxima() == old(Maxima()) + [input]
      ensures !filled ==> (Maxima(), output) == PassMax(old(Maxima()), input)
    {
      if max == null {
        return false, input;
      }
      if maxLen < max.Length {
        max[maxLen] := input;
        maxLen := maxLen + 1;
        return true, input;
      }
      var idx := 0;
      for i := 1 to max.Length
        invariant idx == SmallestAt(max[..], i)
      {
        if max[idx] > max[i] {
          idx := i;
        }
      }
      filled, output := false, input;
      assert max[..maxLen] == max[..];
      if max[idx] < input {
        output := max[idx];
        max[idx] := input;
      }
      assert max[..maxLen] == max[..];
    }

    /** avg_ready */
    method Ready() returns (r: bool)
      requires Valid()
      ensures forall sorted: seq<Uint32> :: IsSorting(sorted, inputs) && |inputs| < UINT32 ==>
                r == (Trim(sorted, MinSize(), MaxSize()) != [])
    {
      r := elements != 0;
      if |inputs| < UINT32 {
        TotalsFit(MinSize(), MaxSize(), inputs);
      }
      hide AddAll, IsSorting, Sum, Trim;
    }

    /** avg_calculate: the rounded mean of the trimmed sorted inputs, as long as their total fits 32 bits. */
    method Calculate() returns (r: Uint32)
      requires Valid()
      ensures forall sorted: seq<Uint32> :: IsSorting(sorted, inputs) && |inputs| < UINT32 ==>
                var rest := Trim(sorted, MinSize(), MaxSize());
                Sum(rest) < UINT32 ==> r == Rounded(Sum(rest), |rest|)
    {
      if |inputs| < UINT32 {
        TotalsFit(MinSize(), MaxSize(), inputs);
      }
      hide AddAll, IsSorting, Sum, Trim;
      r := 0;
      if elements != 0 {
        QuotientIsSmall(sum, elements);
        r := sum / elements;
        if elements >= 2 {
          if sum % elements >= elements / 2 {
            r := r + 1;
          }
        }
      }
      assert r == Rounded(sum, elements);
      hide Rounded;
    }
  }
}

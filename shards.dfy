/** The shard schedule shared by SumPayments, FilterPayments and
    FilterPaymentsByFn, and the per-goroutine folds (a sum, a filter).

    The Go loop is
      k := len / goroutines; count := 0
      for i := 0; i < len; i++ {
        if i == len-1 { spawn [count, len) }
        if i-count == k { spawn [count, i); count += k }
      }
    ShardsFrom is that loop, one iteration per call; Schedule starts it. */
module Shards {
  import opened Types

  /** A half-open range [lo, hi) of the payment slice: one goroutine. */
  datatype Range = Range(lo: nat, hi: nat)

  /** Go's `len / goroutines` on int: division truncated toward zero. */
  function Quota(n: nat, goroutines: int): (k: int)
    requires goroutines != 0
    ensures goroutines > 0 ==> 0 <= k && k * goroutines <= n < k * goroutines + goroutines
    ensures goroutines < 0 ==> k <= 0 && k * goroutines <= n < k * goroutines - goroutines
  {
    if goroutines > 0 then n / goroutines else -(n / -goroutines)
  }

  predicate InBounds(shards: seq<Range>, n: nat) {
    forall j :: 0 <= j < |shards| ==> shards[j].lo <= shards[j].hi <= n
  }

  /** The ranges spawned from iteration i on, with `count` as it stands
      before that iteration. */
  function ShardsFrom(n: nat, k: int, i: nat, count: nat): (r: seq<Range>)
    requires count <= i <= n
    ensures forall j :: 0 <= j < |r| ==> count <= r[j].lo <= r[j].hi <= n
    decreases n - i
  {
    if i == n then []
    else if i == n - 1 then
      if i - count == k then [Range(count, n), Range(count, i)] else [Range(count, n)]
    else if i - count == k then [Range(count, i)] + ShardsFrom(n, k, i + 1, count + k)
    else ShardsFrom(n, k, i + 1, count)
  }

  /** The ranges in the order the goroutines are spawned. */
  function Schedule(n: nat, goroutines: int): (r: seq<Range>)
    requires goroutines != 0
    ensures InBounds(r, n)
  {
    ShardsFrom(n, Quota(n, goroutines), 0, 0)
  }

  /** Both branches fire at the last index exactly when k > 0 divides
      n - 1 (and n - 1 >= k): the range [n-1-k, n-1) is spawned twice. */
  predicate DoubleCounted(n: nat, k: int) {
    0 < k <= n - 1 && (n - 1) % k == 0
  }

  /** The items a multi-goroutine run sees a second time. */
  function Duplicated<T>(s: seq<T>, goroutines: int): seq<T> {
    if goroutines == 0 || goroutines == 1 then []
    else
      var n, k := |s|, Quota(|s|, goroutines);
      if DoubleCounted(n, k) then s[n - 1 - k..n - 1] else []
  }

  /** The items the ranges cover, range after range. */
  function Flatten<T>(s: seq<T>, shards: seq<Range>): seq<T>
    requires InBounds(shards, |s|)
  {
    if shards == [] then [] else s[shards[0].lo..shards[0].hi] + Flatten(s, shards[1..])
  }

  lemma {:induction false} FlattenAppend<T>(s: seq<T>, shards: seq<Range>, r: Range)
    requires InBounds(shards, |s|) && r.lo <= r.hi <= |s|
    ensures InBounds(shards + [r], |s|)
    ensures Flatten(s, shards + [r]) == Flatten(s, shards) + s[r.lo..r.hi]
  {
    if shards == [] {
      assert shards + [r] == [r];
      assert [r][1..] == [];
    } else {
      var t := shards + [r];
      assert t[0] == shards[0] && t[1..] == shards[1..] + [r];
      FlattenAppend(s, shards[1..], r);
      Reassociate(s[shards[0].lo..shards[0].hi], Flatten(s, shards[1..]), s[r.lo..r.hi]);
    }
  }

  /** (m*k + d) leaves remainder 0 modulo k, for 1 <= d <= k, exactly when
      d == k. */
  lemma MultiplePlusMod(m: nat, k: int, d: int)
    requires 0 < k && 1 <= d <= k
    ensures (m * k + d) % k == 0 <==> d == k
  {
    if d == k {
      DivModUnique(m * k + d, k, m + 1, 0);
    } else {
      DivModUnique(m * k + d, k, m, d);
    }
  }

  lemma MulAtLeast(a: int, k: int)
    requires a >= 1 && k > 0
    ensures a * k >= k
  {
  }

  lemma DivModUnique(x: int, k: int, q: int, r: int)
    requires 0 < k && 0 <= r < k && x == q * k + r
    ensures x % k == r
  {
    var q', r' := x / k, x % k;
    assert x == q' * k + r';
    assert (q - q') * k == r' - r;
    if q > q' {
      MulAtLeast(q - q', k);
    } else if q < q' {
      MulAtLeast(q' - q, k);
    }
  }

  /** At the last index, with count a multiple of k and at most k behind,
      the second branch fires exactly in the double-count case. */
  lemma LastIndexFires(n: nat, k: int, count: nat, m: nat)
    requires 0 < k && count == m * k && count <= n - 1 && n - 1 - count <= k
    requires n - 1 > 0 ==> count < n - 1
    ensures (n - 1 - count == k) <==> DoubleCounted(n, k)
  {
    if n - 1 > 0 {
      MultiplePlusMod(m, k, n - 1 - count);
    }
  }

  /** The value `count` has when the loop reaches its last index. */
  function LastCount(n: nat, k: int, i: nat, count: nat): (c: nat)
    requires count <= i < n
    ensures c <= n - 1
    decreases n - i
  {
    if i == n - 1 then count
    else LastCount(n, k, i + 1, if i - count == k then count + k else count)
  }

  /** The last iteration: the range [count, n) and, when the second branch
      fires too, [count, n - 1) once more. */
  lemma LastIteration<T>(s: seq<T>, k: int, count: nat)
    requires count < |s|
    ensures Flatten(s, ShardsFrom(|s|, k, |s| - 1, count))
            == s[count..] + (if |s| - 1 - count == k then s[count..|s| - 1] else [])
  {
    var n := |s|;
    if n - 1 - count == k {
      var shards := [Range(count, n), Range(count, n - 1)];
      assert shards[1..][1..] == [];
      assert Flatten(s, shards[1..]) == s[count..n - 1] + Flatten(s, []);
    } else {
      var shards := [Range(count, n)];
      assert Flatten(s, shards) == s[count..n] + Flatten(s, []);
    }
  }

  /** Structure of a run from iteration i on, for any k: every item from
      `count` on once, in order, then the last-index range again if the
      second branch fires there. */
  lemma {:induction false} FlattenFrom<T>(s: seq<T>, k: int, i: nat, count: nat)
    requires count <= i < |s|
    ensures var c := LastCount(|s|, k, i, count);
      Flatten(s, ShardsFrom(|s|, k, i, count))
      == s[count..] + (if |s| - 1 - c == k then s[c..|s| - 1] else [])
    decreases |s| - i
  {
    if i == |s| - 1 {
      LastIteration(s, k, count);
    } else if i - count == k {
      FlattenFrom(s, k, i + 1, count + k);
      SpawnThen(s, k, i, count);
    } else {
      FlattenFrom(s, k, i + 1, count);
      SkipThen(s, k, i, count);
    }
  }

  /** FlattenFrom's step at an iteration that spawns a range. */
  lemma SpawnThen<T>(s: seq<T>, k: int, i: nat, count: nat)
    requires count <= i < |s| - 1 && i - count == k
    requires var c := LastCount(|s|, k, i + 1, count + k);
      Flatten(s, ShardsFrom(|s|, k, i + 1, count + k))
      == s[count + k..] + (if |s| - 1 - c == k then s[c..|s| - 1] else [])
    ensures var c := LastCount(|s|, k, i, count);
      Flatten(s, ShardsFrom(|s|, k, i, count))
      == s[count..] + (if |s| - 1 - c == k then s[c..|s| - 1] else [])
  {
    var c := LastCount(|s|, k, i, count);
    assert c == LastCount(|s|, k, i + 1, count + k);
    SpawnStep(s, k, i, count);
    Reassociate(s[count..i], s[i..], if |s| - 1 - c == k then s[c..|s| - 1] else []);
  }

  /** FlattenFrom's step at an iteration that spawns nothing. */
  lemma SkipThen<T>(s: seq<T>, k: int, i: nat, count: nat)
    requires count <= i < |s| - 1 && i - count != k
    requires var c := LastCount(|s|, k, i + 1, count);
      Flatten(s, ShardsFrom(|s|, k, i + 1, count))
      == s[count..] + (if |s| - 1 - c == k then s[c..|s| - 1] else [])
    ensures var c := LastCount(|s|, k, i, count);
      Flatten(s, ShardsFrom(|s|, k, i, count))
      == s[count..] + (if |s| - 1 - c == k then s[c..|s| - 1] else [])
  {
    assert LastCount(|s|, k, i, count) == LastCount(|s|, k, i + 1, count);
    assert ShardsFrom(|s|, k, i, count) == ShardsFrom(|s|, k, i + 1, count);
  }

  /** An iteration before the last that spawns [count, i). */
  lemma SpawnStep<T>(s: seq<T>, k: int, i: nat, count: nat)
    requires count <= i < |s| - 1 && i - count == k
    ensures Flatten(s, ShardsFrom(|s|, k, i, count))
            == s[count..i] + Flatten(s, ShardsFrom(|s|, k, i + 1, count + k))
    ensures s[count..i] + s[i..] == s[count..]
  {
    var rest := ShardsFrom(|s|, k, i + 1, count + k);
    var shards := [Range(count, i)] + rest;
    assert shards[0] == Range(count, i) && shards[1..] == rest;
  }

  /** One iteration of the loop at index i: the items of the range its
      first branch spawns, those of the range its second branch spawns,
      then those of the later iterations. */
  lemma FlattenStep<T>(s: seq<T>, k: int, i: nat, count: nat)
    requires count <= i < |s|
    ensures var c := if i - count == k then i else count;
      Flatten(s, ShardsFrom(|s|, k, i, count))
      == (if i == |s| - 1 then s[count..|s|] else []) + (if i - count == k then s[count..i] else [])
         + Flatten(s, ShardsFrom(|s|, k, i + 1, c))
  {
    if i == |s| - 1 {
      LastStep(s, k, count);
    } else if i - count == k {
      SpawnStep(s, k, i, count);
      EmptyPrefix(s[count..i] + Flatten(s, ShardsFrom(|s|, k, i + 1, i)));
    } else {
      assert ShardsFrom(|s|, k, i, count) == ShardsFrom(|s|, k, i + 1, count);
      EmptyPrefix(Flatten(s, ShardsFrom(|s|, k, i + 1, count)));
    }
  }

  /** FlattenStep at the last index. */
  lemma LastStep<T>(s: seq<T>, k: int, count: nat)
    requires count < |s|
    ensures var i := |s| - 1;
      var c := if i - count == k then i else count;
      Flatten(s, ShardsFrom(|s|, k, i, count))
      == s[count..|s|] + (if i - count == k then s[count..i] else []) + Flatten(s, ShardsFrom(|s|, k, i + 1, c))
  {
    LastIteration(s, k, count);
    var first := s[count..|s|];
    var second := if |s| - 1 - count == k then s[count..|s| - 1] else [];
    assert s[count..] == first;
    EmptyAfter(first + second);
  }

  lemma EmptyPrefix<T>(x: seq<T>)
    ensures [] + [] + x == x && [] + x == x
  {
  }

  lemma EmptyAfter<T>(x: seq<T>)
    ensures x + [] == x
  {
  }

  lemma Reassociate<T>(a: seq<T>, b: seq<T>, c: seq<T>)
    ensures a + (b + c) == a + b + c
  {
  }

  /** With k > 0 the count is a multiple of k, advanced in steps of k, so at
      the last index the second branch fires exactly in the double-count
      case, and then at n - 1 - k. */
  lemma {:induction false} LastCountPositive(n: nat, k: int, i: nat, count: nat, m: nat)
    requires 0 < k && count == m * k && count <= i < n
    requires i - count <= k && (i > 0 ==> count < i)
    ensures (n - 1 - LastCount(n, k, i, count) == k) <==> DoubleCounted(n, k)
    decreases n - i
  {
    if i == n - 1 {
      LastIndexFires(n, k, count, m);
    } else if i - count == k {
      assert count + k == (m + 1) * k;
      LastCountPositive(n, k, i + 1, count + k, m + 1);
    } else {
      LastCountPositive(n, k, i + 1, count, m);
    }
  }

  /** With k <= 0 the count never moves from 0. */
  lemma {:induction false} LastCountNonPositive(n: nat, k: int, i: nat)
    requires k <= 0 && i < n
    ensures LastCount(n, k, i, 0) == 0
    decreases n - i
  {
    if i < n - 1 {
      LastCountNonPositive(n, k, i + 1);
    }
  }

  /** The goroutines of a run together cover every item once, in order, and
      then the duplicated range once more. */
  lemma FlattenSchedule<T>(s: seq<T>, goroutines: int)
    requires goroutines != 0
    ensures Flatten(s, Schedule(|s|, goroutines)) == s + Duplicated(s, goroutines)
  {
    var n, k := |s|, Quota(|s|, goroutines);
    if n > 0 {
      FlattenFrom(s, k, 0, 0);
      assert s[0..] == s;
      var c := LastCount(n, k, 0, 0);
      if k > 0 {
        LastCountPositive(n, k, 0, 0, 0);
      } else {
        LastCountNonPositive(n, k, 0);
        assert s[c..n - 1] == [] || n - 1 - c != k;
      }
      if goroutines == 1 {
        assert k == n;
      }
    }
  }

  /** With two or more goroutines the duplicated range is non-empty exactly
      when k = len / goroutines is positive and divides len - 1. */
  lemma DoubleCountedWhenDivides(n: nat, goroutines: int)
    requires goroutines >= 2
    ensures var k := Quota(n, goroutines);
      DoubleCounted(n, k) <==> k > 0 && (n - 1) % k == 0
  {
    var k := Quota(n, goroutines);
    if k > 0 {
      assert k * goroutines <= n;
      assert k * 2 <= k * goroutines;
    }
  }

  /** Three runs worked out: 12 payments on 2 goroutines (the benchmark) are
      covered once each; 3 and 7 payments on 2 goroutines see [1, 2) and
      [3, 6) twice. */
  lemma ScheduleExamples()
    ensures Schedule(12, 2) == [Range(0, 6), Range(6, 12)]
    ensures Schedule(3, 2) == [Range(0, 1), Range(1, 3), Range(1, 2)]
    ensures Schedule(7, 2) == [Range(0, 3), Range(3, 7), Range(3, 6)]
  {
    assert ShardsFrom(12, 6, 7, 6) == [Range(6, 12)] by {
      assert ShardsFrom(12, 6, 11, 6) == [Range(6, 12)];
      assert ShardsFrom(12, 6, 10, 6) == [Range(6, 12)];
      assert ShardsFrom(12, 6, 9, 6) == [Range(6, 12)];
      assert ShardsFrom(12, 6, 8, 6) == [Range(6, 12)];
    }
    assert ShardsFrom(12, 6, 1, 0) == [Range(0, 6), Range(6, 12)] by {
      assert ShardsFrom(12, 6, 6, 0) == [Range(0, 6), Range(6, 12)];
      assert ShardsFrom(12, 6, 5, 0) == [Range(0, 6), Range(6, 12)];
      assert ShardsFrom(12, 6, 4, 0) == [Range(0, 6), Range(6, 12)];
      assert ShardsFrom(12, 6, 3, 0) == [Range(0, 6), Range(6, 12)];
      assert ShardsFrom(12, 6, 2, 0) == [Range(0, 6), Range(6, 12)];
    }
    assert ShardsFrom(3, 1, 2, 1) == [Range(1, 3), Range(1, 2)];
    assert ShardsFrom(7, 3, 4, 3) == [Range(3, 7), Range(3, 6)] by {
      assert ShardsFrom(7, 3, 6, 3) == [Range(3, 7), Range(3, 6)];
      assert ShardsFrom(7, 3, 5, 3) == [Range(3, 7), Range(3, 6)];
    }
    assert ShardsFrom(7, 3, 1, 0) == [Range(0, 3), Range(3, 7), Range(3, 6)] by {
      assert ShardsFrom(7, 3, 3, 0) == [Range(0, 3), Range(3, 7), Range(3, 6)];
      assert ShardsFrom(7, 3, 2, 0) == [Range(0, 3), Range(3, 7), Range(3, 6)];
    }
  }

  // The per-goroutine folds.

  /** Sum of the amounts, whatever the status. */
  function Total(ps: seq<Payment>): Money {
    if ps == [] then 0 else Total(ps[..|ps| - 1]) + ps[|ps| - 1].amount
  }

  /** The payments the filter accepts, in their order. */
  function Matching(ps: seq<Payment>, filter: Payment -> bool): seq<Payment> {
    if ps == [] then []
    else
      var init := ps[..|ps| - 1];
      Matching(init, filter) + (if filter(ps[|ps| - 1]) then [ps[|ps| - 1]] else [])
  }

  lemma {:induction false} TotalConcat(a: seq<Payment>, b: seq<Payment>)
    ensures Total(a + b) == Total(a) + Total(b)
    decreases |b|
  {
    if b == [] {
      assert a + b == a;
    } else {
      assert (a + b)[..|a + b| - 1] == a + b[..|b| - 1];
      TotalConcat(a, b[..|b| - 1]);
    }
  }

  lemma {:induction false} MatchingConcat(a: seq<Payment>, b: seq<Payment>, filter: Payment -> bool)
    ensures Matching(a + b, filter) == Matching(a, filter) + Matching(b, filter)
    decreases |b|
  {
    if b == [] {
      assert a + b == a;
    } else {
      assert (a + b)[..|a + b| - 1] == a + b[..|b| - 1];
      MatchingConcat(a, b[..|b| - 1], filter);
    }
  }

  /** Everything the filter keeps is accepted by it. */
  lemma {:induction false} MatchingAccepted(ps: seq<Payment>, filter: Payment -> bool)
    ensures forall j :: 0 <= j < |Matching(ps, filter)| ==> filter(Matching(ps, filter)[j])
    decreases |ps|
  {
    if ps != [] {
      MatchingAccepted(ps[..|ps| - 1], filter);
    }
  }

  /** One more payment: kept at the end when the filter accepts it. */
  lemma MatchingSnoc(ps: seq<Payment>, x: Payment, filter: Payment -> bool)
    ensures Matching(ps + [x], filter) == Matching(ps, filter) + (if filter(x) then [x] else [])
  {
    assert (ps + [x])[..|ps|] == ps;
  }

  /** The filter keeps every accepted payment as often as it occurs and
      drops every other one. */
  lemma {:induction false} MatchingCount(ps: seq<Payment>, filter: Payment -> bool, x: Payment)
    ensures multiset(Matching(ps, filter))[x] == if filter(x) then multiset(ps)[x] else 0
    decreases |ps|
  {
    if ps != [] {
      var init, last := ps[..|ps| - 1], ps[|ps| - 1];
      assert ps == init + [last];
      MatchingCount(init, filter, x);
    }
  }

  /** One iteration of the SumPayments loop at index i: what the ranges
      it spawns add, then what the later iterations add. */
  lemma SumStep(ps: seq<Payment>, k: int, i: nat, count: nat)
    requires count <= i < |ps|
    ensures var c := if i - count == k then i else count;
      Total(Flatten(ps, ShardsFrom(|ps|, k, i, count)))
      == (if i == |ps| - 1 then Total(ps[count..|ps|]) else 0) + (if i - count == k then Total(ps[count..i]) else 0)
         + Total(Flatten(ps, ShardsFrom(|ps|, k, i + 1, c)))
  {
    var c := if i - count == k then i else count;
    var first := if i == |ps| - 1 then ps[count..|ps|] else [];
    var second := if i - count == k then ps[count..i] else [];
    FlattenStep(ps, k, i, count);
    TotalConcat(first + second, Flatten(ps, ShardsFrom(|ps|, k, i + 1, c)));
    TotalConcat(first, second);
  }

  /** The matches of the ranges the filters' loop has still to spawn from
      index i on, the current range starting at count. */
  ghost function Pending(ps: seq<Payment>, k: int, i: nat, count: nat, filter: Payment -> bool): seq<Payment>
    requires count <= i <= |ps|
  {
    Matching(Flatten(ps, ShardsFrom(|ps|, k, i, count)), filter)
  }

  /** Once the loop has passed the last index nothing is pending. */
  lemma PendingDone(ps: seq<Payment>, k: int, count: nat, filter: Payment -> bool)
    requires count <= |ps|
    ensures Pending(ps, k, |ps|, count, filter) == []
  {
  }

  /** One iteration of the filter loop at index i: the buffers of the
      ranges it spawns, then those of the later iterations. */
  lemma FilterStep(ps: seq<Payment>, k: int, i: nat, count: nat, filter: Payment -> bool)
    requires count <= i < |ps|
    ensures var c := if i - count == k then i else count;
      Pending(ps, k, i, count, filter)
      == (if i == |ps| - 1 then Matching(ps[count..|ps|], filter) else [])
         + (if i - count == k then Matching(ps[count..i], filter) else [])
         + Pending(ps, k, i + 1, c, filter)
  {
    var c := if i - count == k then i else count;
    var first := if i == |ps| - 1 then ps[count..|ps|] else [];
    var second := if i - count == k then ps[count..i] else [];
    FlattenStep(ps, k, i, count);
    MatchingConcat(first + second, Flatten(ps, ShardsFrom(|ps|, k, i + 1, c)), filter);
    MatchingConcat(first, second, filter);
  }

  /** The sum of the partial sums of a multi-goroutine run: the exact total,
      plus the total of the duplicated range. */
  lemma SumOfSchedule(ps: seq<Payment>, goroutines: int)
    requires goroutines != 0
    ensures Total(Flatten(ps, Schedule(|ps|, goroutines))) == Total(ps) + Total(Duplicated(ps, goroutines))
  {
    FlattenSchedule(ps, goroutines);
    TotalConcat(ps, Duplicated(ps, goroutines));
  }

  /** The per-goroutine filter buffers, in spawn order. */
  function Buffers(ps: seq<Payment>, shards: seq<Range>, filter: Payment -> bool): (r: seq<seq<Payment>>)
    requires InBounds(shards, |ps|)
    ensures |r| == |shards|
  {
    if shards == [] then []
    else [Matching(ps[shards[0].lo..shards[0].hi], filter)] + Buffers(ps, shards[1..], filter)
  }

  function ConcatAll<T>(xs: seq<seq<T>>): seq<T> {
    if xs == [] then [] else xs[0] + ConcatAll(xs[1..])
  }

  lemma {:induction false} ConcatAllAppend<T>(xs: seq<seq<T>>, ys: seq<seq<T>>)
    ensures ConcatAll(xs + ys) == ConcatAll(xs) + ConcatAll(ys)
  {
    if xs == [] {
      assert xs + ys == ys;
    } else {
      assert (xs + ys)[1..] == xs[1..] + ys;
      ConcatAllAppend(xs[1..], ys);
    }
  }

  /** Appending the buffers in any order gives the same multiset of
      payments: the order in which goroutines take the mutex does not
      change what the result holds. */
  lemma {:induction false} ConcatAllPermutation<T>(xs: seq<seq<T>>, ys: seq<seq<T>>)
    requires multiset(xs) == multiset(ys)
    ensures multiset(ConcatAll(xs)) == multiset(ConcatAll(ys))
    decreases |xs|
  {
    if xs == [] {
      assert |ys| == |multiset(ys)| == 0;
    } else {
      var x := xs[0];
      assert x in multiset(ys);
      var j :| 0 <= j < |ys| && ys[j] == x;
      var rest := ys[..j] + ys[j + 1..];
      assert xs == [x] + xs[1..];
      assert multiset(xs[1..]) == multiset(xs) - multiset{x};
      WithoutOne(ys, j);
      ConcatAllPermutation(xs[1..], rest);
      ConcatAllWithoutOne(ys, j);
    }
  }

  /** Taking the j-th element out of a sequence takes it out of its
      multiset. */
  lemma WithoutOne<T>(ys: seq<T>, j: nat)
    requires j < |ys|
    ensures multiset(ys[..j] + ys[j + 1..]) == multiset(ys) - multiset{ys[j]}
  {
    AroundOne(ys, j);
  }

  lemma AroundOne<T>(ys: seq<T>, j: nat)
    requires j < |ys|
    ensures ys == (ys[..j] + [ys[j]]) + ys[j + 1..]
  {
  }

  /** The j-th buffer and the others, joined around it. */
  lemma ConcatAllWithoutOne<T>(ys: seq<seq<T>>, j: nat)
    requires j < |ys|
    ensures multiset(ConcatAll(ys)) == multiset(ys[j]) + multiset(ConcatAll(ys[..j] + ys[j + 1..]))
  {
    var x, a, b := ys[j], ys[..j], ys[j + 1..];
    AroundOne(ys, j);
    ConcatAllAppend(a + [x], b);
    ConcatAllAppend(a, [x]);
    ConcatAllAppend(a, b);
    assert ConcatAll([x]) == x;
    var ca, cb := ConcatAll(a), ConcatAll(b);
    assert ConcatAll(ys) == ca + x + cb;
    assert multiset(ca + x + cb) == multiset(ca) + multiset(x) + multiset(cb);
    assert multiset(ca + cb) == multiset(ca) + multiset(cb);
  }

  lemma {:induction false} BuffersFlatten(ps: seq<Payment>, shards: seq<Range>, filter: Payment -> bool)
    requires InBounds(shards, |ps|)
    ensures ConcatAll(Buffers(ps, shards, filter)) == Matching(Flatten(ps, shards), filter)
  {
    if shards != [] {
      BuffersFlatten(ps, shards[1..], filter);
      MatchingConcat(ps[shards[0].lo..shards[0].hi], Flatten(ps, shards[1..]), filter);
    }
  }

  /** The buffers of a multi-goroutine filter, joined in spawn order: the
      matches of every range, which are the sequential result followed by
      the matches of the duplicated range. */
  lemma FilterSchedule(ps: seq<Payment>, goroutines: int, filter: Payment -> bool)
    requires goroutines != 0
    ensures Pending(ps, Quota(|ps|, goroutines), 0, 0, filter)
            == ConcatAll(Buffers(ps, Schedule(|ps|, goroutines), filter))
    ensures Pending(ps, Quota(|ps|, goroutines), 0, 0, filter)
            == Matching(ps, filter) + Matching(Duplicated(ps, goroutines), filter)
  {
    BuffersFlatten(ps, Schedule(|ps|, goroutines), filter);
    FlattenSchedule(ps, goroutines);
    MatchingConcat(ps, Duplicated(ps, goroutines), filter);
  }

  /** Whatever order the goroutines append their buffers in, a multi-
      goroutine filter returns the sequential result plus the matches of the
      duplicated range, up to order; so it is a permutation of the
      sequential result when no range is counted twice. */
  lemma FilterAnyInterleaving(ps: seq<Payment>, goroutines: int, filter: Payment -> bool, appended: seq<seq<Payment>>)
    requires goroutines != 0
    requires multiset(appended) == multiset(Buffers(ps, Schedule(|ps|, goroutines), filter))
    ensures multiset(ConcatAll(appended))
            == multiset(Matching(ps, filter)) + multiset(Matching(Duplicated(ps, goroutines), filter))
    ensures Duplicated(ps, goroutines) == [] ==> multiset(ConcatAll(appended)) == multiset(Matching(ps, filter))
  {
    var shards := Schedule(|ps|, goroutines);
    ConcatAllPermutation(appended, Buffers(ps, shards, filter));
    BuffersFlatten(ps, shards, filter);
    FlattenSchedule(ps, goroutines);
    MatchingConcat(ps, Duplicated(ps, goroutines), filter);
  }
}

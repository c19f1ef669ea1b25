/**
 * The counting idioms of the analysis: `[...new Set(xs)]`, object counters
 * bumped with `if (!t[k]) t[k] = 0; t[k]++`, `Object.entries(t).sort((a, b) => b[1] - a[1])`
 * (a stable sort) and `Math.round(count / total * 100)`.
 */
module Stats {

  /** No element occurs twice. */
  predicate NoDup<T(==)>(xs: seq<T>)
  {
    forall i, j :: 0 <= i < j < |xs| ==> xs[i] != xs[j]
  }

  /** `[...new Set(xs)]`: the distinct elements of `xs`, in the order they are first seen. */
  function Distinct<T(==)>(xs: seq<T>): seq<T>
    decreases |xs|
  {
    if |xs| == 0 then []
    else
      var d := Distinct(xs[..|xs| - 1]);
      if xs[|xs| - 1] in d then d else d + [xs[|xs| - 1]]
  }

  /** Position of the first occurrence of `x` in `xs`. */
  function FirstIndex<T(==)>(xs: seq<T>, x: T): (i: nat)
    requires x in xs
    ensures i < |xs| && xs[i] == x && x !in xs[..i]
  {
    if xs[0] == x then 0
    else
      var j := FirstIndex(xs[1..], x);
      assert xs[..j + 1] == [xs[0]] + xs[1..][..j];
      1 + j
  }

  /** Appending an element does not move the first occurrence of anything already present. */
  lemma FirstIndexSnoc<T>(xs: seq<T>, y: T, x: T)
    requires x in xs
    ensures FirstIndex(xs + [y], x) == FirstIndex(xs, x)
  {
    var j := FirstIndex(xs, x);
    assert (xs + [y])[j] == x;
  }

  /** `Distinct` keeps each element once, keeps exactly the elements of `xs`, and orders them by first occurrence. */
  lemma {:induction false} DistinctSpec<T>(xs: seq<T>)
    ensures NoDup(Distinct(xs))
    ensures forall x :: x in Distinct(xs) <==> x in xs
    ensures forall i, j :: 0 <= i < j < |Distinct(xs)| ==>
      Distinct(xs)[i] in xs && Distinct(xs)[j] in xs &&
      FirstIndex(xs, Distinct(xs)[i]) < FirstIndex(xs, Distinct(xs)[j])
    decreases |xs|
  {
    if |xs| > 0 {
      var ys, y := xs[..|xs| - 1], xs[|xs| - 1];
      assert xs == ys + [y];
      DistinctSpec(ys);
      var d := Distinct(ys);
      forall x | x in ys
        ensures FirstIndex(xs, x) == FirstIndex(ys, x)
      {
        FirstIndexSnoc(ys, y, x);
      }
      assert Distinct(xs) == if y in d then d else d + [y];
      if y !in d {
        assert FirstIndex(xs, y) == |ys|;
        var d' := d + [y];
        assert NoDup(d') by {
          forall i, j | 0 <= i < j < |d'| ensures d'[i] != d'[j] {
            if j == |d| { assert d'[i] == d[i] && d[i] in d; } else { assert d'[i] == d[i] && d'[j] == d[j]; }
          }
        }
        forall x
          ensures x in d' <==> x in xs
        {
          assert x in d' <==> x in d || x == y;
          assert x in xs <==> x in ys || x == y;
        }
        forall i, j | 0 <= i < j < |d'|
          ensures d'[i] in xs && d'[j] in xs && FirstIndex(xs, d'[i]) < FirstIndex(xs, d'[j])
        {
          assert d'[i] == d[i] && d[i] in d && d[i] in ys;
          if j == |d| {
            assert FirstIndex(xs, d'[i]) == FirstIndex(ys, d[i]) < |ys|;
          } else {
            assert d'[j] == d[j] && d[j] in d && d[j] in ys;
          }
        }
      } else {
        forall x
          ensures x in d <==> x in xs
        {
          assert x in xs <==> x in ys || x == y;
        }
        forall i, j | 0 <= i < j < |d|
          ensures d[i] in xs && d[j] in xs && FirstIndex(xs, d[i]) < FirstIndex(xs, d[j])
        {
          assert d[i] in ys && d[j] in ys;
        }
      }
    }
  }

  /** A strictly increasing sequence has as many elements as the set of its elements. */
  lemma {:induction false} IncreasingCardinality(idx: seq<nat>, elems: set<nat>)
    requires forall k, l :: 0 <= k < l < |idx| ==> idx[k] < idx[l]
    requires forall x :: x in elems <==> x in idx
    ensures |elems| == |idx|
    decreases |idx|
  {
    if |idx| == 0 {
      assert elems == {};
    } else {
      var pre, last := idx[..|idx| - 1], idx[|idx| - 1];
      assert idx == pre + [last];
      assert last !in pre by {
        forall k | 0 <= k < |pre| ensures pre[k] != last { assert idx[k] < idx[|idx| - 1]; }
      }
      forall x
        ensures x in elems - {last} <==> x in pre
      {
        assert x in idx <==> x in pre || x == last;
      }
      IncreasingCardinality(pre, elems - {last});
      assert elems == (elems - {last}) + {last};
    }
  }

  /** A sequence without repeats has as many elements as its set. */
  lemma {:induction false} NoDupCardinality<T>(xs: seq<T>)
    requires NoDup(xs)
    ensures |set x | x in xs| == |xs|
    decreases |xs|
  {
    if |xs| > 0 {
      var ys, y := xs[..|xs| - 1], xs[|xs| - 1];
      assert xs == ys + [y];
      assert NoDup(ys) by {
        forall i, j | 0 <= i < j < |ys| ensures ys[i] != ys[j] { assert xs[i] != xs[j]; }
      }
      NoDupCardinality(ys);
      assert (set x | x in xs) == (set x | x in ys) + {y};
      assert y !in ys by {
        forall i | 0 <= i < |ys| ensures ys[i] != y { assert xs[i] != xs[|xs| - 1]; }
      }
    }
  }

  /** In a sequence without repeats every element occurs once. */
  lemma {:induction false} NoDupMultiplicity<T>(xs: seq<T>, x: T)
    requires NoDup(xs)
    ensures multiset(xs)[x] == if x in xs then 1 else 0
    decreases |xs|
  {
    if |xs| > 0 {
      var ys, y := xs[..|xs| - 1], xs[|xs| - 1];
      assert xs == ys + [y];
      assert NoDup(ys) by {
        forall i, j | 0 <= i < j < |ys| ensures ys[i] != ys[j] { assert xs[i] != xs[j]; }
      }
      NoDupMultiplicity(ys, x);
      if x == y {
        assert y !in ys by {
          forall i | 0 <= i < |ys| ensures ys[i] != y { assert xs[i] != xs[|xs| - 1]; }
        }
      }
    }
  }

  /** One entry of an object counter: a key and how often it was bumped. */
  datatype SkillCount = SkillCount(id: string, count: nat)

  /** `Object.keys(t)`. */
  function Keys(t: seq<SkillCount>): seq<string>
  {
    seq(|t|, i requires 0 <= i < |t| => t[i].id)
  }

  /** `t[id] || 0`: the count stored under `id`, 0 when absent. */
  function CountOf(t: seq<SkillCount>, id: string): nat
  {
    if |t| == 0 then 0
    else if t[0].id == id then t[0].count
    else CountOf(t[1..], id)
  }

  /** `if (!t[id]) t[id] = 0; t[id]++`: a new key goes last, an existing one keeps its place. */
  function Bump(t: seq<SkillCount>, id: string): seq<SkillCount>
  {
    if |t| == 0 then [SkillCount(id, 1)]
    else if t[0].id == id then [SkillCount(id, t[0].count + 1)] + t[1..]
    else [t[0]] + Bump(t[1..], id)
  }

  /** The counter that results from bumping each of `ids` in turn, starting from `{}`. */
  function Tally(ids: seq<string>): seq<SkillCount>
    decreases |ids|
  {
    if |ids| == 0 then [] else Bump(Tally(ids[..|ids| - 1]), ids[|ids| - 1])
  }

  /** Bumping appends `id` as a key only when it is new; every other key keeps its place. */
  lemma {:induction false} BumpKeys(t: seq<SkillCount>, id: string)
    ensures Keys(Bump(t, id)) == if id in Keys(t) then Keys(t) else Keys(t) + [id]
    decreases |t|
  {
    if |t| > 0 {
      assert Keys(t) == [t[0].id] + Keys(t[1..]);
      if t[0].id == id {
        assert Keys(Bump(t, id)) == [id] + Keys(t[1..]);
      } else {
        BumpKeys(t[1..], id);
        assert Keys(Bump(t, id)) == [t[0].id] + Keys(Bump(t[1..], id));
        assert id in Keys(t) <==> id in Keys(t[1..]);
      }
    }
  }

  /** Bumping adds one under `id` and nothing elsewhere. */
  lemma {:induction false} BumpCounts(t: seq<SkillCount>, id: string, x: string)
    ensures CountOf(Bump(t, id), x) == CountOf(t, x) + (if x == id then 1 else 0)
    decreases |t|
  {
    if |t| > 0 && t[0].id != id {
      BumpCounts(t[1..], id, x);
      var b := Bump(t, id);
      assert b[0] == t[0] && b[1..] == Bump(t[1..], id);
    }
  }

  /** Bumping adds one under `id` and nothing elsewhere, and appends `id` as a key only when it is new. */
  lemma BumpSpec(t: seq<SkillCount>, id: string)
    ensures Keys(Bump(t, id)) == if id in Keys(t) then Keys(t) else Keys(t) + [id]
    ensures forall x :: CountOf(Bump(t, id), x) == CountOf(t, x) + (if x == id then 1 else 0)
  {
    BumpKeys(t, id);
    forall x
      ensures CountOf(Bump(t, id), x) == CountOf(t, x) + (if x == id then 1 else 0)
    {
      BumpCounts(t, id, x);
    }
  }

  /** With distinct keys, the count read under an entry's key is that entry's count. */
  lemma {:induction false} CountOfEntry(t: seq<SkillCount>, e: nat)
    requires NoDup(Keys(t)) && e < |t|
    ensures CountOf(t, t[e].id) == t[e].count
    decreases e
  {
    if e > 0 {
      assert Keys(t)[0] != Keys(t)[e];
      assert NoDup(Keys(t[1..])) by {
        forall i, j | 0 <= i < j < |t| - 1
          ensures Keys(t[1..])[i] != Keys(t[1..])[j]
        {
          assert Keys(t)[i + 1] != Keys(t)[j + 1];
        }
      }
      CountOfEntry(t[1..], e - 1);
    }
  }

  /** A tally's keys are the distinct ids in first-seen order, and it counts the occurrences of each. */
  lemma {:induction false} TallyKeysCounts(ids: seq<string>)
    ensures Keys(Tally(ids)) == Distinct(ids)
    ensures forall x :: CountOf(Tally(ids), x) == multiset(ids)[x]
    decreases |ids|
  {
    if |ids| > 0 {
      var ys, y := ids[..|ids| - 1], ids[|ids| - 1];
      assert ids == ys + [y];
      TallyKeysCounts(ys);
      BumpSpec(Tally(ys), y);
      assert Tally(ids) == Bump(Tally(ys), y);
      assert Distinct(ids) == if y in Distinct(ys) then Distinct(ys) else Distinct(ys) + [y];
      assert multiset(ids) == multiset(ys) + multiset{y};
    }
  }

  /** A tally holds each id once, in first-seen order, and counts its occurrences in `ids`. */
  lemma TallySpec(ids: seq<string>)
    ensures Keys(Tally(ids)) == Distinct(ids)
    ensures forall x :: CountOf(Tally(ids), x) == multiset(ids)[x]
    ensures forall e :: 0 <= e < |Tally(ids)| ==> Tally(ids)[e].count == multiset(ids)[Tally(ids)[e].id] > 0
  {
    TallyKeysCounts(ids);
    var t := Tally(ids);
    DistinctSpec(ids);
    forall e | 0 <= e < |t|
      ensures t[e].count == multiset(ids)[t[e].id] > 0
    {
      CountOfEntry(t, e);
      assert t[e].id == Distinct(ids)[e];
    }
  }

  /** Inserts `x` before the first entry whose count is not larger: after every entry that beats it, before every tie. */
  function InsertByCount(x: SkillCount, s: seq<SkillCount>): seq<SkillCount>
  {
    if |s| == 0 || x.count >= s[0].count then [x] + s
    else [s[0]] + InsertByCount(x, s[1..])
  }

  /** `Object.entries(t).sort((a, b) => b[1] - a[1])`: a stable sort by descending count. */
  function SortByCount(s: seq<SkillCount>): seq<SkillCount>
  {
    if |s| == 0 then [] else InsertByCount(s[0], SortByCount(s[1..]))
  }

  /** Counts never increase along the sequence. */
  predicate NonIncreasing(s: seq<SkillCount>)
  {
    forall i, j :: 0 <= i < j < |s| ==> s[i].count >= s[j].count
  }

  /** The entries with count `n`, in their order in `s`. */
  function WithCount(s: seq<SkillCount>, n: nat): seq<SkillCount>
  {
    if |s| == 0 then []
    else (if s[0].count == n then [s[0]] else []) + WithCount(s[1..], n)
  }

  /** Insertion adds exactly `x`. */
  lemma {:induction false} InsertByCountPermutes(x: SkillCount, s: seq<SkillCount>)
    ensures multiset(InsertByCount(x, s)) == multiset(s) + multiset{x}
    decreases |s|
  {
    if |s| > 0 && x.count < s[0].count {
      InsertByCountPermutes(x, s[1..]);
      assert s == [s[0]] + s[1..];
    }
  }

  /** Insertion into an ordered sequence keeps it ordered. */
  lemma {:induction false} InsertByCountOrdered(x: SkillCount, s: seq<SkillCount>)
    requires NonIncreasing(s)
    ensures NonIncreasing(InsertByCount(x, s))
    decreases |s|
  {
    if |s| > 0 && x.count < s[0].count {
      var rest := InsertByCount(x, s[1..]);
      InsertByCountOrdered(x, s[1..]);
      InsertByCountPermutes(x, s[1..]);
      forall j | 0 <= j < |rest|
        ensures s[0].count >= rest[j].count
      {
        assert rest[j] in multiset(rest);
        if rest[j] != x {
          assert rest[j] in multiset(s[1..]);
          var k :| 0 <= k < |s[1..]| && s[1..][k] == rest[j];
          assert s[k + 1] == rest[j];
        }
      }
      assert InsertByCount(x, s) == [s[0]] + rest;
    }
  }

  /** Insertion puts `x` ahead of the entries it ties with and moves no other entry past another. */
  lemma {:induction false} InsertByCountTies(x: SkillCount, s: seq<SkillCount>, n: nat)
    ensures WithCount(InsertByCount(x, s), n) == (if x.count == n then [x] else []) + WithCount(s, n)
    decreases |s|
  {
    if |s| == 0 || x.count >= s[0].count {
      WithCountCons(x, s, n);
    } else {
      var rest := InsertByCount(x, s[1..]);
      InsertByCountTies(x, s[1..], n);
      WithCountCons(s[0], rest, n);
      WithCountCons(s[0], s[1..], n);
      assert [s[0]] + s[1..] == s;
    }
  }

  /** `WithCount` of a sequence with a given first entry. */
  lemma WithCountCons(e: SkillCount, t: seq<SkillCount>, n: nat)
    ensures WithCount([e] + t, n) == (if e.count == n then [e] else []) + WithCount(t, n)
  {
    assert ([e] + t)[0] == e && ([e] + t)[1..] == t;
  }

  /** The sort is a permutation of its input. */
  lemma {:induction false} SortByCountPermutes(s: seq<SkillCount>)
    ensures multiset(SortByCount(s)) == multiset(s)
    decreases |s|
  {
    if |s| > 0 {
      var t := SortByCount(s[1..]);
      assert SortByCount(s) == InsertByCount(s[0], t);
      SortByCountPermutes(s[1..]);
      InsertByCountPermutes(s[0], t);
      assert s == [s[0]] + s[1..];
      assert multiset(s) == multiset(s[1..]) + multiset{s[0]};
    }
  }

  /** The sort is ordered by descending count. */
  lemma {:induction false} SortByCountOrdered(s: seq<SkillCount>)
    ensures NonIncreasing(SortByCount(s))
    decreases |s|
  {
    if |s| > 0 {
      SortByCountOrdered(s[1..]);
      InsertByCountOrdered(s[0], SortByCount(s[1..]));
    }
  }

  /** The sort is stable: the entries of each count keep their order. */
  lemma {:induction false} SortByCountStable(s: seq<SkillCount>, n: nat)
    ensures WithCount(SortByCount(s), n) == WithCount(s, n)
    decreases |s|
  {
    if |s| > 0 {
      var t := SortByCount(s[1..]);
      assert SortByCount(s) == InsertByCount(s[0], t);
      SortByCountStable(s[1..], n);
      InsertByCountTies(s[0], t, n);
      WithCountCons(s[0], s[1..], n);
      assert s == [s[0]] + s[1..];
    }
  }

  /** The sort is ordered by descending count, a permutation of its input, and stable: entries that tie keep their order. */
  lemma SortByCountSpec(s: seq<SkillCount>)
    ensures NonIncreasing(SortByCount(s))
    ensures multiset(SortByCount(s)) == multiset(s)
    ensures forall n :: WithCount(SortByCount(s), n) == WithCount(s, n)
  {
    SortByCountPermutes(s);
    SortByCountOrdered(s);
    forall n
      ensures WithCount(SortByCount(s), n) == WithCount(s, n)
    {
      SortByCountStable(s, n);
    }
  }



  /** A percentage: a whole number, or the `NaN` of a division by zero. */
  datatype Percent = Whole(value: nat) | NotFinite

  /**
   * `Math.round(count / total * 100)`, computed exactly: the integer nearest to
   * 100 * count / total, halves rounded up. JavaScript computes the quotient in
   * floating point, so at an exact half its result can fall below the half
   * (29 / 200 * 100 is 14.499999999999998 and rounds to 14, where this gives 15).
   * A zero total gives `NaN` there and `NotFinite` here.
   */
  function Percentage(count: nat, total: nat): (r: Percent)
    ensures total == 0 <==> r.NotFinite?
    ensures total > 0 ==> -(total as int) < 2 * (r.value * total - 100 * count) <= total
    ensures total > 0 && count <= total ==> r.value <= 100
  {
    if total == 0 then NotFinite
    else
      var q := (200 * count + total) / (2 * total);
      RoundingBounds(count, total, q);
      Whole(q)
  }

  /** The rounded quotient is within half a unit of 100 * count / total, and at most 100 for a share. */
  lemma RoundingBounds(count: nat, total: nat, q: nat)
    requires total > 0 && q == (200 * count + total) / (2 * total)
    ensures -(total as int) < 2 * (q * total - 100 * count) <= total
    ensures count <= total ==> q <= 100
  {
    DivisionBounds(200 * count + total, 2 * total);
    DoubleProduct(q, total);
    if count <= total && q > 100 {
      ProductAtLeast(q, 101, total);
      assert false;
    }
  }

  /** Euclidean division pins the quotient between two multiples of the divisor. */
  lemma DivisionBounds(a: nat, b: nat)
    requires b > 0
    ensures (a / b) * b <= a < (a / b) * b + b
  {
    assert a == (a / b) * b + a % b;
  }

  /** Doubling the divisor doubles the product. */
  lemma DoubleProduct(q: nat, t: nat)
    ensures q * (2 * t) == 2 * (q * t)
  {
  }

  /** Multiplying by the same factor keeps the order. */
  lemma ProductAtLeast(q: nat, k: nat, t: nat)
    requires q >= k
    ensures q * t >= k * t
  {
    assert q * t == k * t + (q - k) * t;
  }

  /** Sum, over `keys`, of how often each key occurs in `xs`. */
  function SumOccurrences<T(==)>(keys: seq<T>, xs: seq<T>): nat
  {
    if |keys| == 0 then 0 else multiset(xs)[keys[0]] + SumOccurrences(keys[1..], xs)
  }

  /** Appending a value to `xs` adds one to the sum exactly when the value is a key. */
  lemma {:induction false} SumOccurrencesSnocX<T>(keys: seq<T>, xs: seq<T>, y: T)
    requires NoDup(keys)
    ensures SumOccurrences(keys, xs + [y]) == SumOccurrences(keys, xs) + (if y in keys then 1 else 0)
    decreases |keys|
  {
    if |keys| > 0 {
      assert NoDup(keys[1..]) by {
        forall i, j | 0 <= i < j < |keys| - 1 ensures keys[1..][i] != keys[1..][j] {
          assert keys[i + 1] != keys[j + 1];
        }
      }
      SumOccurrencesSnocX(keys[1..], xs, y);
      assert keys == [keys[0]] + keys[1..];
      if keys[0] == y {
        assert y !in keys[1..] by {
          forall j | 0 <= j < |keys| - 1 ensures keys[1..][j] != y { assert keys[0] != keys[j + 1]; }
        }
      }
    }
  }

  /** Appending a key adds its number of occurrences in `xs`. */
  lemma {:induction false} SumOccurrencesSnocKey<T>(keys: seq<T>, xs: seq<T>, k: T)
    ensures SumOccurrences(keys + [k], xs) == SumOccurrences(keys, xs) + multiset(xs)[k]
    decreases |keys|
  {
    if |keys| > 0 {
      assert (keys + [k])[1..] == keys[1..] + [k];
      SumOccurrencesSnocKey(keys[1..], xs, k);
    } else {
      assert ([] + [k])[1..] == [];
    }
  }

  /** Grouping by value loses and duplicates nothing: the group sizes add up to the length. */
  lemma {:induction false} DistinctOccurrencesSum<T>(xs: seq<T>)
    ensures SumOccurrences(Distinct(xs), xs) == |xs|
    decreases |xs|
  {
    if |xs| > 0 {
      var ys, y := xs[..|xs| - 1], xs[|xs| - 1];
      assert xs == ys + [y];
      DistinctOccurrencesSum(ys);
      DistinctSpec(ys);
      var d := Distinct(ys);
      SumOccurrencesSnocX(d, ys, y);
      if y !in d {
        SumOccurrencesSnocKey(d, xs, y);
        assert multiset(ys)[y] == 0;
      }
    }
  }
}

/** Stream operations over lists of transactions as the services use them:
    `filter`, `reduce(BigDecimal.ZERO, BigDecimal::add)` over the amounts, and
    `Collectors.groupingBy`, with the facts about them that the dashboard
    proofs rely on. */
module Ledger {
  import opened Domain

  /** `stream().filter(p)`: the elements satisfying `p`, in encounter order. */
  function Filter<T>(s: seq<T>, p: T -> bool): (r: seq<T>)
    ensures |r| <= |s|
  {
    if s == [] then [] else (if p(s[0]) then [s[0]] else []) + Filter(s[1..], p)
  }

  /** The filter keeps exactly the elements that satisfy the predicate. */
  lemma {:induction false} FilterMembers<T>(s: seq<T>, p: T -> bool)
    ensures forall i :: 0 <= i < |Filter(s, p)| ==> Filter(s, p)[i] in s && p(Filter(s, p)[i])
    ensures forall i :: 0 <= i < |s| && p(s[i]) ==> s[i] in Filter(s, p)
  {
    if s != [] {
      FilterMembers(s[1..], p);
      var head := if p(s[0]) then [s[0]] else [];
      assert Filter(s, p) == head + Filter(s[1..], p);
      forall i | 0 <= i < |s| && p(s[i]) ensures s[i] in Filter(s, p) {
        if i > 0 {
          assert s[i] == s[1..][i - 1];
        }
      }
    }
  }

  /** `findFirst` of a query that returns an Optional: the first element
      satisfying `p`, or none when no element does. */
  function First<T>(s: seq<T>, p: T -> bool): (r: Option<T>)
    ensures r.Some? ==> r.value in s && p(r.value)
    ensures r.None? ==> forall i :: 0 <= i < |s| ==> !p(s[i])
  {
    if s == [] then None else if p(s[0]) then Some(s[0]) else First(s[1..], p)
  }

  /** The predicate `key(t) == k`, named so that every use denotes the same function. */
  function HasKey<K(==)>(key: Transaction -> K, k: K): Transaction -> bool {
    (t: Transaction) => key(t) == k
  }

  /** Sum of the amounts, starting from zero. */
  function TotalAmount(s: seq<Transaction>): Cents {
    if s == [] then 0 else s[0].amount + TotalAmount(s[1..])
  }

  /** The transactions of one type. */
  function OfKind(s: seq<Transaction>, k: TransactionType): seq<Transaction> {
    Filter(s, (t: Transaction) => t.kind == k)
  }

  /** INCOME adds the amount, anything else subtracts it. */
  function Signed(t: Transaction): int {
    if t.kind == INCOME then t.amount else -t.amount
  }

  /** The running balance after walking `s` from the first element to the last. */
  function Net(s: seq<Transaction>): int {
    if s == [] then 0 else Net(s[..|s| - 1]) + Signed(s[|s| - 1])
  }

  /** `Collectors.groupingBy(key)`: each key present maps to its elements in
      encounter order (the lists are ArrayLists appended to in order). */
  function GroupBy<K(==)>(s: seq<Transaction>, key: Transaction -> K): map<K, seq<Transaction>> {
    if s == [] then map[]
    else
      var g := GroupBy(s[..|s| - 1], key);
      var t := s[|s| - 1];
      g[key(t) := (if key(t) in g then g[key(t)] else []) + [t]]
  }

  lemma {:induction false} FilterAppend<T>(a: seq<T>, b: seq<T>, p: T -> bool)
    ensures Filter(a + b, p) == Filter(a, p) + Filter(b, p)
  {
    if a == [] {
      assert a + b == b;
    } else {
      assert (a + b)[1..] == a[1..] + b;
      FilterAppend(a[1..], b, p);
      var head := if p(a[0]) then [a[0]] else [];
      calc {
        Filter(a + b, p);
        head + Filter(a[1..] + b, p);
        head + (Filter(a[1..], p) + Filter(b, p));
        (head + Filter(a[1..], p)) + Filter(b, p);
      }
    }
  }

  /** The conjunction of two predicates. */
  function Both<T>(p: T -> bool, q: T -> bool): T -> bool {
    (x: T) => p(x) && q(x)
  }

  /** Filtering twice is filtering once by the conjunction. */
  lemma {:induction false} FilterFilter<T>(s: seq<T>, p: T -> bool, q: T -> bool)
    ensures Filter(Filter(s, p), q) == Filter(s, Both(p, q))
  {
    if s != [] {
      FilterFilter(s[1..], p, q);
      var head := if p(s[0]) then [s[0]] else [];
      FilterAppend(head, Filter(s[1..], p), q);
    }
  }

  /** Filters with pointwise-equal predicates agree. */
  lemma {:induction false} FilterExtensional<T>(s: seq<T>, p: T -> bool, q: T -> bool)
    requires forall x :: x in s ==> p(x) == q(x)
    ensures Filter(s, p) == Filter(s, q)
  {
    if s != [] {
      FilterExtensional(s[1..], p, q);
    }
  }

  /** Each element occurs in the filter as often as in the input when it
      satisfies the predicate, and never otherwise. */
  lemma {:induction false} FilterCount<T>(s: seq<T>, p: T -> bool, x: T)
    ensures multiset(Filter(s, p))[x] == if p(x) then multiset(s)[x] else 0
  {
    if s != [] {
      FilterCount(s[1..], p, x);
      assert s == [s[0]] + s[1..];
      assert multiset(s) == multiset([s[0]]) + multiset(s[1..]);
    }
  }

  /** Filtering commutes with permutation. */
  lemma FilterPermutation<T(!new)>(a: seq<T>, b: seq<T>, p: T -> bool)
    requires multiset(a) == multiset(b)
    ensures multiset(Filter(a, p)) == multiset(Filter(b, p))
  {
    var fa, fb := multiset(Filter(a, p)), multiset(Filter(b, p));
    forall x ensures fa[x] == fb[x] {
      FilterCount(a, p, x);
      FilterCount(b, p, x);
    }
    assert fa == fb;
  }

  /** A filter that no element passes is empty. */
  lemma FilterNone<T>(s: seq<T>, p: T -> bool)
    requires forall i :: 0 <= i < |s| ==> !p(s[i])
    ensures Filter(s, p) == []
  {
  }

  lemma {:induction false} TotalAmountAppend(a: seq<Transaction>, b: seq<Transaction>)
    ensures TotalAmount(a + b) == TotalAmount(a) + TotalAmount(b)
  {
    if a == [] {
      assert a + b == b;
    } else {
      assert (a + b)[1..] == a[1..] + b;
      TotalAmountAppend(a[1..], b);
    }
  }

  /** The sequence without its element at `i`. */
  function Remove<T>(b: seq<T>, i: nat): (r: seq<T>)
    requires i < |b|
    ensures |r| == |b| - 1
  {
    b[..i] + b[i + 1..]
  }

  /** Taking one element out of a sequence removes its amount from the total. */
  lemma {:induction false} TotalAmountRemove(b: seq<Transaction>, i: nat)
    requires i < |b|
    ensures TotalAmount(b) == b[i].amount + TotalAmount(Remove(b, i))
  {
    if i == 0 {
      assert Remove(b, 0) == b[1..];
    } else {
      var tail := b[1..];
      TotalAmountRemove(tail, i - 1);
      assert Remove(b, i) == [b[0]] + Remove(tail, i - 1);
    }
  }

  /** Matching the head of `a` with an element of its permutation `b`
      leaves permutations behind. */
  lemma RemoveMatched<T>(a: seq<T>, b: seq<T>, i: nat)
    requires a != [] && i < |b| && b[i] == a[0] && multiset(a) == multiset(b)
    ensures multiset(a[1..]) == multiset(Remove(b, i))
  {
    assert a == [a[0]] + a[1..];
    assert multiset(a) == multiset{a[0]} + multiset(a[1..]);
    assert b == b[..i] + [b[i]] + b[i + 1..];
    assert multiset(b) == multiset(b[..i]) + multiset{b[i]} + multiset(b[i + 1..]);
    assert multiset(Remove(b, i)) == multiset(b[..i]) + multiset(b[i + 1..]);
    assert multiset(a[1..]) == multiset(a) - multiset{a[0]};
    assert multiset(Remove(b, i)) == multiset(b) - multiset{b[i]};
  }

  /** BigDecimal addition is exact, so the order of the amounts does not matter. */
  lemma {:induction false} TotalAmountPermutation(a: seq<Transaction>, b: seq<Transaction>)
    requires multiset(a) == multiset(b)
    ensures TotalAmount(a) == TotalAmount(b)
    decreases |a|
  {
    if a == [] {
      assert |b| == |multiset(b)| == 0;
    } else {
      assert a[0] in multiset(b);
      var i :| 0 <= i < |b| && b[i] == a[0];
      RemoveMatched(a, b, i);
      TotalAmountPermutation(a[1..], Remove(b, i));
      TotalAmountRemove(b, i);
    }
  }

  /** With positive amounts, a filtered total lies between zero and the total. */
  lemma {:induction false} FilterTotalBounds(s: seq<Transaction>, p: Transaction -> bool)
    requires AllPositive(s)
    ensures 0 <= TotalAmount(Filter(s, p)) <= TotalAmount(s)
  {
    if s != [] {
      FilterTotalBounds(s[1..], p);
      var head := if p(s[0]) then [s[0]] else [];
      TotalAmountAppend(head, Filter(s[1..], p));
    }
  }

  /** The running balance is total income minus total expense. */
  lemma {:induction false} NetIsIncomeMinusExpense(s: seq<Transaction>)
    ensures Net(s) == TotalAmount(OfKind(s, INCOME)) - TotalAmount(OfKind(s, EXPENSE))
  {
    if s != [] {
      var init, t := s[..|s| - 1], s[|s| - 1];
      assert s == init + [t];
      NetIsIncomeMinusExpense(init);
      FilterAppend(init, [t], (x: Transaction) => x.kind == INCOME);
      FilterAppend(init, [t], (x: Transaction) => x.kind == EXPENSE);
      TotalAmountAppend(OfKind(init, INCOME), OfKind([t], INCOME));
      TotalAmountAppend(OfKind(init, EXPENSE), OfKind([t], EXPENSE));
    }
  }

  /** The final running balance does not depend on the order of the walk. */
  lemma NetPermutation(a: seq<Transaction>, b: seq<Transaction>)
    requires multiset(a) == multiset(b)
    ensures Net(a) == Net(b)
  {
    NetIsIncomeMinusExpense(a);
    NetIsIncomeMinusExpense(b);
    FilterPermutation(a, b, (x: Transaction) => x.kind == INCOME);
    FilterPermutation(a, b, (x: Transaction) => x.kind == EXPENSE);
    TotalAmountPermutation(OfKind(a, INCOME), OfKind(b, INCOME));
    TotalAmountPermutation(OfKind(a, EXPENSE), OfKind(b, EXPENSE));
  }

  /** `groupingBy` has one group per key that occurs, and each group is the
      input filtered by that key. */
  lemma {:induction false} GroupByIsFilter<K>(s: seq<Transaction>, key: Transaction -> K)
    ensures forall k :: k in GroupBy(s, key) <==> exists t :: t in s && key(t) == k
    ensures forall k :: k in GroupBy(s, key) ==>
              GroupBy(s, key)[k] == Filter(s, HasKey(key, k))
  {
    if s != [] {
      var init, t := s[..|s| - 1], s[|s| - 1];
      assert s == init + [t];
      GroupByIsFilter(init, key);
      forall k | k in GroupBy(s, key)
        ensures GroupBy(s, key)[k] == Filter(s, HasKey(key, k))
      {
        FilterAppend(init, [t], HasKey(key, k));
        assert Filter([t], HasKey(key, k)) == if key(t) == k then [t] else [];
        if k != key(t) {
          assert k in GroupBy(init, key);
        } else if k !in GroupBy(init, key) {
          FilterNone(init, HasKey(key, k));
        }
      }
    }
  }

  /** `getOrDefault(k, emptyList)` on the grouping is the input filtered by
      that key, present or not. */
  lemma GroupLookup<K>(s: seq<Transaction>, key: Transaction -> K, k: K)
    ensures (if k in GroupBy(s, key) then GroupBy(s, key)[k] else []) == Filter(s, HasKey(key, k))
  {
    GroupByIsFilter(s, key);
    if k !in GroupBy(s, key) {
      forall i | 0 <= i < |s| ensures !HasKey(key, k)(s[i]) {
        assert s[i] in s;
      }
      FilterNone(s, HasKey(key, k));
    }
  }

  /** Sum of `TotalAmount(Filter(s, key == k))` over a list of keys. */
  function TotalOverKeys<K(==)>(keys: seq<K>, s: seq<Transaction>, key: Transaction -> K): Cents {
    if keys == [] then 0
    else TotalAmount(Filter(s, HasKey(key, keys[0]))) + TotalOverKeys(keys[1..], s, key)
  }

  /** The contribution of a single transaction to the per-key totals. */
  lemma {:induction false} TotalOverKeysSingle<K>(keys: seq<K>, t: Transaction, key: Transaction -> K)
    requires forall i, j :: 0 <= i < j < |keys| ==> keys[i] != keys[j]
    ensures TotalOverKeys(keys, [t], key) == if key(t) in keys then t.amount else 0
  {
    if keys != [] {
      TotalOverKeysSingle(keys[1..], t, key);
      assert Filter([t], HasKey(key, keys[0])) == if key(t) == keys[0] then [t] else [];
      assert TotalAmount([t]) == t.amount;
      assert key(t) in keys <==> key(t) == keys[0] || key(t) in keys[1..];
      assert key(t) == keys[0] ==> key(t) !in keys[1..];
    }
  }

  lemma {:induction false} TotalOverKeysEmpty<K>(keys: seq<K>, key: Transaction -> K)
    ensures TotalOverKeys(keys, [], key) == 0
  {
    if keys != [] {
      TotalOverKeysEmpty(keys[1..], key);
    }
  }

  lemma {:induction false} TotalOverKeysAppend<K>(keys: seq<K>, a: seq<Transaction>, b: seq<Transaction>, key: Transaction -> K)
    ensures TotalOverKeys(keys, a + b, key) == TotalOverKeys(keys, a, key) + TotalOverKeys(keys, b, key)
  {
    if keys != [] {
      TotalOverKeysAppend(keys[1..], a, b, key);
      FilterAppend(a, b, HasKey(key, keys[0]));
      TotalAmountAppend(Filter(a, HasKey(key, keys[0])), Filter(b, HasKey(key, keys[0])));
    }
  }

  /** Grouping partitions the total: when the keys are distinct and every
      transaction's key is among them, the group totals add up to the total. */
  lemma {:induction false} GroupTotalsAddUp<K>(keys: seq<K>, s: seq<Transaction>, key: Transaction -> K)
    requires forall i, j :: 0 <= i < j < |keys| ==> keys[i] != keys[j]
    requires forall t :: t in s ==> key(t) in keys
    ensures TotalOverKeys(keys, s, key) == TotalAmount(s)
  {
    if s == [] {
      TotalOverKeysEmpty(keys, key);
    } else {
      assert s == [s[0]] + s[1..];
      assert s[0] in s && key(s[0]) in keys;
      GroupTotalsAddUp(keys, s[1..], key);
      TotalOverKeysAppend(keys, [s[0]], s[1..], key);
      TotalOverKeysSingle(keys, s[0], key);
      calc {
        TotalOverKeys(keys, s, key);
        TotalOverKeys(keys, [s[0]] + s[1..], key);
        TotalOverKeys(keys, [s[0]], key) + TotalOverKeys(keys, s[1..], key);
        s[0].amount + TotalAmount(s[1..]);
      }
    }
  }

  /** The sum of the amounts of the transactions satisfying `p`, in one pass. */
  function SumWhere(s: seq<Transaction>, p: Transaction -> bool): Cents {
    if s == [] then 0 else (if p(s[0]) then s[0].amount else 0) + SumWhere(s[1..], p)
  }

  /** Summing a filter is summing where the predicate holds. */
  lemma {:induction false} TotalFilter(s: seq<Transaction>, p: Transaction -> bool)
    ensures TotalAmount(Filter(s, p)) == SumWhere(s, p)
  {
    if s != [] {
      TotalFilter(s[1..], p);
      var head := if p(s[0]) then [s[0]] else [];
      TotalAmountAppend(head, Filter(s[1..], p));
    }
  }

  lemma {:induction false} SumWhereFilter(s: seq<Transaction>, p: Transaction -> bool, q: Transaction -> bool)
    ensures SumWhere(Filter(s, p), q) == SumWhere(s, Both(p, q))
  {
    if s != [] {
      SumWhereFilter(s[1..], p, q);
      var head := if p(s[0]) then [s[0]] else [];
      assert Filter(s, p) == head + Filter(s[1..], p);
      assert Both(p, q)(s[0]) == (p(s[0]) && q(s[0]));
      assert SumWhere(s, Both(p, q)) == (if Both(p, q)(s[0]) then s[0].amount else 0) + SumWhere(s[1..], Both(p, q));
      if p(s[0]) {
        var f := Filter(s, p);
        assert f[0] == s[0] && f[1..] == Filter(s[1..], p);
        assert SumWhere(f, q) == (if q(f[0]) then f[0].amount else 0) + SumWhere(f[1..], q);
      } else {
        assert Filter(s, p) == Filter(s[1..], p);
      }
    }
  }

  lemma {:induction false} SumWhereExtensional(s: seq<Transaction>, p: Transaction -> bool, q: Transaction -> bool)
    requires forall t :: t in s ==> p(t) == q(t)
    ensures SumWhere(s, p) == SumWhere(s, q)
  {
    if s != [] {
      assert s[0] in s;
      SumWhereExtensional(s[1..], p, q);
    }
  }
}

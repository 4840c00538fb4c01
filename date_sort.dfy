/** `stream().sorted(comparator)` on transaction dates. The JDK sort is
    stable, and a stable sort's output is fixed by the comparator, so it is
    modelled by a stable insertion sort. */
module DateSort {
  import opened Domain
  import opened Ledger

  /** `t1.date.compareTo(t2.date)` (ascending) or its reverse (descending). */
  datatype Direction = Ascending | Descending

  /** `a` may stand before `b` in the given direction. */
  predicate Ordered(dir: Direction, a: Date, b: Date) {
    match dir
    case Ascending => DateLe(a, b)
    case Descending => DateLe(b, a)
  }

  predicate SortedBy(dir: Direction, s: seq<Transaction>) {
    forall i, j :: 0 <= i < j < |s| ==> Ordered(dir, s[i].transactionDate, s[j].transactionDate)
  }

  function DateOf(t: Transaction): Date {
    t.transactionDate
  }

  /** The transactions dated `d`, in their order in `s`. */
  function OnDate(s: seq<Transaction>, d: Date): seq<Transaction> {
    Filter(s, HasKey(DateOf, d))
  }

  /** Inserts `x` before the first element it may precede, i.e. after every
      element strictly before it and before every element with its date. */
  function Insert(dir: Direction, x: Transaction, s: seq<Transaction>): (r: seq<Transaction>)
    ensures |r| == |s| + 1
  {
    if s == [] then [x]
    else if Ordered(dir, x.transactionDate, s[0].transactionDate) then [x] + s
    else [s[0]] + Insert(dir, x, s[1..])
  }

  function SortByDate(dir: Direction, s: seq<Transaction>): (r: seq<Transaction>)
    ensures |r| == |s|
  {
    if s == [] then [] else Insert(dir, s[0], SortByDate(dir, s[1..]))
  }

  lemma {:induction false} InsertPermutation(dir: Direction, x: Transaction, s: seq<Transaction>)
    ensures multiset(Insert(dir, x, s)) == multiset(s) + multiset{x}
  {
    if s != [] && !Ordered(dir, x.transactionDate, s[0].transactionDate) {
      InsertPermutation(dir, x, s[1..]);
      assert s == [s[0]] + s[1..];
    }
  }

  lemma {:induction false} InsertSorted(dir: Direction, x: Transaction, s: seq<Transaction>)
    requires SortedBy(dir, s)
    ensures SortedBy(dir, Insert(dir, x, s))
  {
    if s == [] {
    } else if Ordered(dir, x.transactionDate, s[0].transactionDate) {
      var r := [x] + s;
      forall i, j | 0 <= i < j < |r|
        ensures Ordered(dir, r[i].transactionDate, r[j].transactionDate)
      {
        if i == 0 && j > 1 {
          OrderedTransitive(dir, x.transactionDate, s[0].transactionDate, s[j - 1].transactionDate);
        }
      }
    } else {
      InsertSorted(dir, x, s[1..]);
      InsertPermutation(dir, x, s[1..]);
      var tail := Insert(dir, x, s[1..]);
      var r := [s[0]] + tail;
      OrderedTotal(dir, x.transactionDate, s[0].transactionDate);
      forall j | 0 <= j < |tail|
        ensures Ordered(dir, s[0].transactionDate, tail[j].transactionDate)
      {
        assert tail[j] in multiset(tail);
        if tail[j] != x {
          assert tail[j] in multiset(s[1..]);
          var k :| 0 <= k < |s[1..]| && s[1..][k] == tail[j];
          assert s[k + 1] == tail[j];
        }
      }
    }
  }

  lemma OrderedTransitive(dir: Direction, a: Date, b: Date, c: Date)
    requires Ordered(dir, a, b) && Ordered(dir, b, c)
    ensures Ordered(dir, a, c)
  {
  }

  lemma OrderedTotal(dir: Direction, a: Date, b: Date)
    ensures Ordered(dir, a, b) || Ordered(dir, b, a)
  {
  }

  lemma OnDateSingle(t: Transaction, d: Date)
    ensures OnDate([t], d) == if t.transactionDate == d then [t] else []
  {
    assert HasKey(DateOf, d)(t) == (DateOf(t) == d);
  }

  lemma OnDateCons(t: Transaction, s: seq<Transaction>, d: Date)
    ensures OnDate([t] + s, d) == (if t.transactionDate == d then [t] else []) + OnDate(s, d)
  {
    FilterAppend([t], s, HasKey(DateOf, d));
    OnDateSingle(t, d);
  }

  /** Inserting `x` adds it in front of the elements sharing its date and
      leaves every other date's elements as they were. */
  lemma {:induction false} InsertOnDate(dir: Direction, x: Transaction, s: seq<Transaction>, d: Date)
    ensures OnDate(Insert(dir, x, s), d) == (if x.transactionDate == d then [x] else []) + OnDate(s, d)
  {
    if s == [] {
      OnDateSingle(x, d);
      assert OnDate(s, d) == [];
    } else if Ordered(dir, x.transactionDate, s[0].transactionDate) {
      OnDateCons(x, s, d);
    } else {
      InsertOnDate(dir, x, s[1..], d);
      OnDateCons(s[0], Insert(dir, x, s[1..]), d);
      OnDateCons(s[0], s[1..], d);
      assert s == [s[0]] + s[1..];
      assert x.transactionDate == d ==> s[0].transactionDate != d;
    }
  }

  /** The sort returns a permutation of its input, ordered by date. */
  lemma {:induction false} SortByDateCorrect(dir: Direction, s: seq<Transaction>)
    ensures SortedBy(dir, SortByDate(dir, s))
    ensures multiset(SortByDate(dir, s)) == multiset(s)
  {
    if s != [] {
      SortByDateCorrect(dir, s[1..]);
      InsertSorted(dir, s[0], SortByDate(dir, s[1..]));
      InsertPermutation(dir, s[0], SortByDate(dir, s[1..]));
      assert s == [s[0]] + s[1..];
      assert |multiset(SortByDate(dir, s))| == |multiset(s)|;
    }
  }

  /** Stability: transactions with equal dates keep their input order. */
  lemma {:induction false} SortByDateStable(dir: Direction, s: seq<Transaction>, d: Date)
    ensures OnDate(SortByDate(dir, s), d) == OnDate(s, d)
  {
    var p := HasKey(DateOf, d);
    if s != [] {
      SortByDateStable(dir, s[1..], d);
      InsertOnDate(dir, s[0], SortByDate(dir, s[1..]), d);
      FilterAppend([s[0]], s[1..], p);
      assert s == [s[0]] + s[1..];
    }
  }
}

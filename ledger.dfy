/**
 * The expense ledger: the Expense record, the total shown under the listing,
 * the stable most-recent-first ordering that List.sort produces with the
 * comparator `e2.date.compareTo(e1.date)`, and the per-category totals built
 * with Map.merge. Amounts are whole cents and dates are day stamps that order
 * like the calendar.
 */
module Ledger {

  datatype Expense = Expense(date: int, category: string, amount: int, description: string)

  /** Every amount is strictly positive, as the amount prompt enforces. */
  predicate AllPositive(s: seq<Expense>) {
    forall i :: 0 <= i < |s| ==> s[i].amount > 0
  }

  /** Appending a record with a positive amount keeps every amount positive. */
  lemma AppendPositive(s: seq<Expense>, e: Expense)
    requires AllPositive(s) && e.amount > 0
    ensures AllPositive(s + [e])
  {
    forall i | 0 <= i < |s + [e]| ensures (s + [e])[i].amount > 0 {
      if i < |s| { assert (s + [e])[i] == s[i]; }
    }
  }

  // ---------------------------------------------------------------- total

  /** The sum of all amounts, 0 for an empty ledger. */
  function Total(s: seq<Expense>): int {
    if s == [] then 0 else s[0].amount + Total(s[1..])
  }

  /** Appending one record adds exactly its amount to the total. */
  lemma {:induction false} TotalAppend(s: seq<Expense>, e: Expense)
    ensures Total(s + [e]) == Total(s) + e.amount
  {
    if s != [] {
      assert (s + [e])[1..] == s[1..] + [e];
      TotalAppend(s[1..], e);
    }
  }

  /** With positive amounts the total of a non-empty ledger is positive. */
  lemma {:induction false} TotalPositive(s: seq<Expense>)
    requires AllPositive(s)
    ensures s != [] ==> Total(s) > 0
    ensures s == [] ==> Total(s) == 0
  {
    if s != [] {
      assert AllPositive(s[1..]) by {
        forall i | 0 <= i < |s[1..]| ensures s[1..][i].amount > 0 {
          assert s[1..][i] == s[i + 1];
        }
      }
      TotalPositive(s[1..]);
    }
  }

  // ---------------------------------------------------------------- order

  /** Most recent date first: no record is followed by a later one. */
  predicate SortedByDateDesc(s: seq<Expense>) {
    forall i, j :: 0 <= i < j < |s| ==> s[i].date >= s[j].date
  }

  /** The records dated d, in the order the sequence holds them. */
  function WithDate(s: seq<Expense>, d: int): seq<Expense> {
    if s == [] then []
    else (if s[0].date == d then [s[0]] else []) + WithDate(s[1..], d)
  }

  /**
   * Places e in front of the first record whose date is not later than its
   * own, so that e stays ahead of every record of the same date.
   */
  function Insert(e: Expense, s: seq<Expense>): seq<Expense> {
    if s == [] || e.date >= s[0].date then [e] + s
    else [s[0]] + Insert(e, s[1..])
  }

  /** A stable sort by date, most recent first (insertion sort). */
  function SortByDateDesc(s: seq<Expense>): seq<Expense> {
    if s == [] then [] else Insert(s[0], SortByDateDesc(s[1..]))
  }

  lemma {:induction false} InsertMultiset(e: Expense, s: seq<Expense>)
    ensures multiset(Insert(e, s)) == multiset(s) + multiset{e}
    ensures |Insert(e, s)| == |s| + 1
  {
    if s != [] && e.date < s[0].date {
      InsertMultiset(e, s[1..]);
      assert s == [s[0]] + s[1..];
    }
  }

  /** No record in s is dated after `bound`. */
  predicate DatesAtMost(s: seq<Expense>, bound: int) {
    forall i :: 0 <= i < |s| ==> s[i].date <= bound
  }

  lemma {:induction false} InsertAtMost(e: Expense, s: seq<Expense>, bound: int)
    requires DatesAtMost(s, bound) && e.date <= bound
    ensures DatesAtMost(Insert(e, s), bound)
  {
    if s != [] && e.date < s[0].date {
      assert DatesAtMost(s[1..], bound) by {
        forall i | 0 <= i < |s[1..]| ensures s[1..][i].date <= bound {
          assert s[1..][i] == s[i + 1];
        }
      }
      InsertAtMost(e, s[1..], bound);
      var r := Insert(e, s);
      forall i | 0 <= i < |r| ensures r[i].date <= bound {
        if i > 0 { assert r[i] == Insert(e, s[1..])[i - 1]; }
      }
    }
  }

  lemma ConsSorted(x: Expense, s: seq<Expense>)
    requires SortedByDateDesc(s) && DatesAtMost(s, x.date)
    ensures SortedByDateDesc([x] + s)
  {
    var r := [x] + s;
    forall i, j | 0 <= i < j < |r| ensures r[i].date >= r[j].date {
      assert r[j] == s[j - 1];
      if i > 0 { assert r[i] == s[i - 1]; }
    }
  }

  lemma {:induction false} InsertSorted(e: Expense, s: seq<Expense>)
    requires SortedByDateDesc(s)
    ensures SortedByDateDesc(Insert(e, s))
  {
    if s == [] || e.date >= s[0].date {
      assert DatesAtMost(s, e.date) by {
        forall i | 0 <= i < |s| ensures s[i].date <= e.date {
          assert s[i].date <= s[0].date;
        }
      }
      ConsSorted(e, s);
    } else {
      var t := s[1..];
      assert SortedByDateDesc(t) by {
        forall i, j | 0 <= i < j < |t| ensures t[i].date >= t[j].date {
          assert t[i] == s[i + 1] && t[j] == s[j + 1];
        }
      }
      assert DatesAtMost(t, s[0].date) by {
        forall i | 0 <= i < |t| ensures t[i].date <= s[0].date {
          assert t[i] == s[i + 1];
        }
      }
      InsertSorted(e, t);
      InsertAtMost(e, t, s[0].date);
      ConsSorted(s[0], Insert(e, t));
    }
  }

  lemma WithDateCons(x: Expense, s: seq<Expense>, d: int)
    ensures WithDate([x] + s, d) == (if x.date == d then [x] else []) + WithDate(s, d)
  {
    assert ([x] + s)[0] == x && ([x] + s)[1..] == s;
  }

  /** Inserting e adds e to the records of its own date, at their front. */
  lemma {:induction false} InsertWithDate(e: Expense, s: seq<Expense>, d: int)
    ensures WithDate(Insert(e, s), d) == (if e.date == d then [e] else []) + WithDate(s, d)
  {
    if s == [] || e.date >= s[0].date {
      WithDateCons(e, s, d);
    } else {
      var rest := Insert(e, s[1..]);
      InsertWithDate(e, s[1..], d);
      WithDateCons(s[0], rest, d);
      WithDateCons(s[0], s[1..], d);
      assert s == [s[0]] + s[1..];
      if e.date == d {
        assert s[0].date != d;
      }
    }
  }

  lemma {:induction false} TotalInsert(e: Expense, s: seq<Expense>)
    ensures Total(Insert(e, s)) == e.amount + Total(s)
  {
    if s == [] || e.date >= s[0].date {
      assert ([e] + s)[1..] == s;
    } else {
      TotalInsert(e, s[1..]);
      assert ([s[0]] + Insert(e, s[1..]))[1..] == Insert(e, s[1..]);
    }
  }

  /**
   * The listing order: most recent first, a permutation of the ledger, and
   * records of equal date keep their relative order (List.sort is stable).
   */
  lemma {:induction false} SortByDateDescCorrect(s: seq<Expense>)
    ensures SortedByDateDesc(SortByDateDesc(s))
    ensures multiset(SortByDateDesc(s)) == multiset(s)
    ensures forall d :: WithDate(SortByDateDesc(s), d) == WithDate(s, d)
  {
    if s != [] {
      var t := SortByDateDesc(s[1..]);
      SortByDateDescCorrect(s[1..]);
      InsertSorted(s[0], t);
      InsertMultiset(s[0], t);
      assert s == [s[0]] + s[1..];
      forall d ensures WithDate(SortByDateDesc(s), d) == WithDate(s, d) {
        InsertWithDate(s[0], t, d);
      }
    }
  }

  /** The sorted ledger has the same length and the same positivity. */
  lemma SortByDateDescKeepsPositive(s: seq<Expense>)
    requires AllPositive(s)
    ensures |SortByDateDesc(s)| == |s|
    ensures AllPositive(SortByDateDesc(s))
  {
    SortByDateDescCorrect(s);
    var r := SortByDateDesc(s);
    assert |r| == |multiset(r)| == |multiset(s)| == |s|;
    forall i | 0 <= i < |r| ensures r[i].amount > 0 {
      assert r[i] in multiset(s);
    }
  }

  /** The total does not depend on the sort just performed. */
  lemma {:induction false} TotalSortInvariant(s: seq<Expense>)
    ensures Total(SortByDateDesc(s)) == Total(s)
  {
    if s != [] {
      TotalSortInvariant(s[1..]);
      TotalInsert(s[0], SortByDateDesc(s[1..]));
    }
  }

  /** Sorting an already sorted ledger changes nothing: listing twice keeps the order. */
  lemma {:induction false} SortByDateDescIdempotent(s: seq<Expense>)
    requires SortedByDateDesc(s)
    ensures SortByDateDesc(s) == s
  {
    if s != [] {
      assert SortedByDateDesc(s[1..]) by {
        forall i, j | 0 <= i < j < |s[1..]| ensures s[1..][i].date >= s[1..][j].date {
          assert s[1..][i] == s[i + 1] && s[1..][j] == s[j + 1];
        }
      }
      SortByDateDescIdempotent(s[1..]);
      assert s == [s[0]] + s[1..];
    }
  }

  /** The two-record scenario: the later Transport entry is listed before the Food entry. */
  lemma SortScenario()
    ensures var food := Expense(20240105, "Food", 1250, "lunch");
      var transport := Expense(20240110, "Transport", 400, "");
      SortByDateDesc([food, transport]) == [transport, food]
  {
    var food := Expense(20240105, "Food", 1250, "lunch");
    var transport := Expense(20240110, "Transport", 400, "");
    assert [food, transport][1..] == [transport];
    assert [transport][1..] == [];
    assert SortByDateDesc([transport]) == Insert(transport, []) == [transport];
    assert Insert(food, [transport]) == [transport] + Insert(food, []);
  }

  // ---------------------------------------------------------------- categories

  /** The categories present in the ledger. */
  function Categories(s: seq<Expense>): set<string> {
    set i | 0 <= i < |s| :: s[i].category
  }

  /** The sum of the amounts of the records filed under c. */
  function CategorySum(s: seq<Expense>, c: string): int {
    if s == [] then 0
    else (if s[0].category == c then s[0].amount else 0) + CategorySum(s[1..], c)
  }

  /** The category map: one key per category present, mapped to its sum. */
  function CategoryTotals(s: seq<Expense>): map<string, int> {
    map c | c in Categories(s) :: CategorySum(s, c)
  }

  /** Map.merge(k, v, Double::sum): put v if k is absent, else add v to the stored value. */
  function MergeSum(m: map<string, int>, k: string, v: int): map<string, int> {
    m[k := if k in m then m[k] + v else v]
  }

  lemma {:induction false} CategorySumAppend(s: seq<Expense>, e: Expense, c: string)
    ensures CategorySum(s + [e], c) == CategorySum(s, c) + (if e.category == c then e.amount else 0)
  {
    if s != [] {
      assert (s + [e])[1..] == s[1..] + [e];
      CategorySumAppend(s[1..], e, c);
    }
  }

  /** Folding one more record into the category map is one Map.merge. */
  lemma CategoryTotalsAppend(s: seq<Expense>, e: Expense)
    ensures CategoryTotals(s + [e]) == MergeSum(CategoryTotals(s), e.category, e.amount)
  {
    var s' := s + [e];
    assert Categories(s') == Categories(s) + {e.category} by {
      forall c | c in Categories(s') ensures c in Categories(s) + {e.category} {
        var i :| 0 <= i < |s'| && s'[i].category == c;
        if i < |s| { assert s'[i] == s[i]; }
      }
      forall c | c in Categories(s) ensures c in Categories(s') {
        var i :| 0 <= i < |s| && s[i].category == c;
        assert s'[i] == s[i];
      }
      assert s'[|s|] == e;
    }
    forall c | c in Categories(s') ensures CategoryTotals(s')[c] == MergeSum(CategoryTotals(s), e.category, e.amount)[c] {
      CategorySumAppend(s, e, c);
      if c !in Categories(s) {
        CategorySumAbsent(s, c);
      }
    }
  }

  /** A category that no record carries sums to zero. */
  lemma {:induction false} CategorySumAbsent(s: seq<Expense>, c: string)
    requires c !in Categories(s)
    ensures CategorySum(s, c) == 0
  {
    if s != [] {
      assert s[0].category != c;
      forall i | 0 <= i < |s[1..]| ensures s[1..][i].category != c {
        assert s[1..][i] == s[i + 1];
      }
      CategorySumAbsent(s[1..], c);
    }
  }

  /**
   * With positive amounts every category present has a positive sum, which is
   * at most the ledger total.
   */
  lemma {:induction false} CategorySumBounds(s: seq<Expense>, c: string)
    requires AllPositive(s)
    ensures 0 <= CategorySum(s, c) <= Total(s)
    ensures c in Categories(s) <==> CategorySum(s, c) > 0
  {
    if s == [] {
    } else {
      assert AllPositive(s[1..]) by {
        forall i | 0 <= i < |s[1..]| ensures s[1..][i].amount > 0 {
          assert s[1..][i] == s[i + 1];
        }
      }
      CategorySumBounds(s[1..], c);
      assert Categories(s) == {s[0].category} + Categories(s[1..]) by {
        forall x | x in Categories(s) ensures x in {s[0].category} + Categories(s[1..]) {
          var i :| 0 <= i < |s| && s[i].category == x;
          if i > 0 { assert s[1..][i - 1] == s[i]; }
        }
        forall x | x in Categories(s[1..]) ensures x in Categories(s) {
          var i :| 0 <= i < |s[1..]| && s[1..][i].category == x;
          assert s[i + 1] == s[1..][i];
        }
      }
    }
  }

  lemma {:induction false} CategorySumInsert(e: Expense, s: seq<Expense>, c: string)
    ensures CategorySum(Insert(e, s), c) == (if e.category == c then e.amount else 0) + CategorySum(s, c)
  {
    if s == [] || e.date >= s[0].date {
      assert ([e] + s)[1..] == s;
    } else {
      CategorySumInsert(e, s[1..], c);
      assert ([s[0]] + Insert(e, s[1..]))[1..] == Insert(e, s[1..]);
    }
  }

  /** Listing the expenses (which reorders them) leaves every category sum as it was. */
  lemma {:induction false} CategorySumSortInvariant(s: seq<Expense>, c: string)
    ensures CategorySum(SortByDateDesc(s), c) == CategorySum(s, c)
  {
    if s != [] {
      CategorySumSortInvariant(s[1..], c);
      CategorySumInsert(s[0], SortByDateDesc(s[1..]), c);
    }
  }

  /** Food 10.00 + Food 5.50 + Transport 3.00 gives {Food: 15.50, Transport: 3.00}. */
  lemma CategoryTotalsExample()
    ensures CategoryTotals([Expense(1, "Food", 1000, ""), Expense(2, "Food", 550, ""),
                            Expense(3, "Transport", 300, "")])
         == map["Food" := 1550, "Transport" := 300]
  {
    var a, b, c := Expense(1, "Food", 1000, ""), Expense(2, "Food", 550, ""), Expense(3, "Transport", 300, "");
    assert Categories([]) == {};
    CategoryTotalsAppend([], a);
    assert [] + [a] == [a];
    CategoryTotalsAppend([a], b);
    assert [a] + [b] == [a, b];
    CategoryTotalsAppend([a, b], c);
    assert [a, b] + [c] == [a, b, c];
  }
}

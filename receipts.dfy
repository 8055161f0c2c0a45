/**
 * client/src/pages/Receipts.tsx: the receipts list page. Its state holds the filter fields,
 * the selected receipt ids and the sort key; the visible list is the receipts that pass the
 * filter, ordered by the sort key. Amounts are in shillings (already divided by 100) and a
 * receipt date is the time value `new Date(date).getTime()` gives for it.
 */
module Receipts {
  import opened Wrappers
  import opened Text
  import opened ListToggle

  datatype Receipt = Receipt(
    id: string,
    receiptNumber: string,
    client: string,
    amount: real,
    paymentMethod: string,
    date: int,
    invoice: string,
    status: string)

  // ---------------------------------------------------------------- the filter

  /** The amount filter: one of four buckets, or any other value for no restriction. */
  predicate InBucket(bucket: string, amount: real) {
    if bucket == "0-100k" then amount < 100000.0
    else if bucket == "100k-500k" then 100000.0 <= amount < 500000.0
    else if bucket == "500k-1m" then 500000.0 <= amount < 1000000.0
    else if bucket == "1m+" then amount >= 1000000.0
    else true
  }

  const Buckets: seq<string> := ["0-100k", "100k-500k", "500k-1m", "1m+"]

  /** Every amount lies in exactly one of the four named buckets. */
  lemma BucketsPartition(amount: real)
    ensures exists i :: 0 <= i < |Buckets| && InBucket(Buckets[i], amount)
    ensures forall i, j :: 0 <= i < j < |Buckets| ==> !(InBucket(Buckets[i], amount) && InBucket(Buckets[j], amount))
  {
    if amount < 100000.0 {
      assert InBucket(Buckets[0], amount);
    } else if amount < 500000.0 {
      assert InBucket(Buckets[1], amount);
    } else if amount < 1000000.0 {
      assert InBucket(Buckets[2], amount);
    } else {
      assert InBucket(Buckets[3], amount);
    }
  }

  /** The search box: a case-insensitive substring of the number, the client or the invoice. */
  predicate MatchesSearch(r: Receipt, query: string) {
    var q := Lower(query);
    Contains(Lower(r.receiptNumber), q) || Contains(Lower(r.client), q) || Contains(Lower(r.invoice), q)
  }

  datatype Filters = Filters(
    searchQuery: string,
    methodFilter: string,
    statusFilter: string,
    from: Option<int>,
    to: Option<int>,
    amountRange: string)

  /** The filters `clearFilters` restores. */
  const Cleared: Filters := Filters("", "all", "all", None, None, "all")

  predicate Passes(r: Receipt, f: Filters) {
    && MatchesSearch(r, f.searchQuery)
    && (f.methodFilter == "all" || r.paymentMethod == f.methodFilter)
    && (f.statusFilter == "all" || r.status == f.statusFilter)
    && (f.from.None? || r.date >= f.from.value)
    && (f.to.None? || r.date <= f.to.value)
    && InBucket(f.amountRange, r.amount)
  }

  /** With the filters cleared every receipt is shown. */
  lemma ClearedPassesAll(r: Receipt)
    ensures Passes(r, Cleared)
  {
    ContainsTrivial(Lower(r.receiptNumber));
  }

  /** `receipts.filter(...)`: the passing receipts, in their original order. */
  function Filtered(receipts: seq<Receipt>, f: Filters): (r: seq<Receipt>)
    ensures |r| <= |receipts|
    ensures forall x :: x in r <==> x in receipts && Passes(x, f)
  {
    if receipts == [] then []
    else (if Passes(receipts[0], f) then [receipts[0]] else []) + Filtered(receipts[1..], f)
  }

  /** Filtering distributes over concatenation, so the shown receipts keep their order and their copies. */
  lemma {:induction false} FilteredConcat(a: seq<Receipt>, b: seq<Receipt>, x: Receipt, f: Filters)
    ensures Filtered(a + b, f) == Filtered(a, f) + Filtered(b, f)
    ensures Filtered([x], f) == if Passes(x, f) then [x] else []
  {
    if a == [] {
      assert a + b == b;
    } else {
      assert (a + b)[1..] == a[1..] + b;
      FilteredConcat(a[1..], b, x, f);
    }
    assert [x][1..] == [];
  }

  // ---------------------------------------------------------------- the sort

  datatype SortField = ByDate | ByAmount | ByClient
  datatype SortOrder = Asc | Desc

  /** `a.localeCompare(b)`, taken as code-point order: negative, zero or positive. */
  function CompareText(a: string, b: string): int
    decreases |a|
  {
    if a == [] && b == [] then 0
    else if a == [] then -1
    else if b == [] then 1
    else if a[0] < b[0] then -1
    else if a[0] > b[0] then 1
    else CompareText(a[1..], b[1..])
  }

  lemma {:induction false} CompareTextAntisymmetric(a: string, b: string)
    ensures CompareText(a, b) == -CompareText(b, a)
    decreases |a|
  {
    if a != [] && b != [] && a[0] == b[0] {
      CompareTextAntisymmetric(a[1..], b[1..]);
    }
  }

  /** The ascending comparison of one sort key. */
  function Comparison(a: Receipt, b: Receipt, key: SortField): real {
    match key
    case ByDate => (a.date - b.date) as real
    case ByAmount => a.amount - b.amount
    case ByClient => CompareText(a.client, b.client) as real
  }

  /** The comparator handed to `sort`: the comparison, negated for descending order. */
  function Compare(a: Receipt, b: Receipt, key: SortField, order: SortOrder): real {
    var c := Comparison(a, b, key);
    if order == Asc then c else -c
  }

  /** Swapping the two receipts negates the comparison, for every key and order. */
  lemma CompareAntisymmetric(a: Receipt, b: Receipt, key: SortField, order: SortOrder)
    ensures Compare(a, b, key, order) == -Compare(b, a, key, order)
  {
    CompareTextAntisymmetric(a.client, b.client);
  }

  /** Descending order ranks a before b exactly when ascending order ranks b before a. */
  lemma DescendingIsReversed(a: Receipt, b: Receipt, key: SortField)
    ensures Compare(a, b, key, Desc) == -Compare(a, b, key, Asc)
    ensures Compare(a, b, key, Desc) == Compare(b, a, key, Asc)
  {
    CompareAntisymmetric(a, b, key, Asc);
  }

  /** Each receipt ranks no later than the next one. */
  predicate SortedBy(s: seq<Receipt>, key: SortField, order: SortOrder) {
    forall i :: 0 <= i < |s| - 1 ==> Compare(s[i], s[i + 1], key, order) <= 0.0
  }

  /** A list in descending order, read backwards, is in ascending order. */
  lemma ReverseOfDescendingIsAscending(s: seq<Receipt>, key: SortField)
    requires SortedBy(s, key, Desc)
    ensures SortedBy(Reversed(s), key, Asc)
  {
    var r := Reversed(s);
    forall i | 0 <= i < |r| - 1
      ensures Compare(r[i], r[i + 1], key, Asc) <= 0.0
    {
      var k := |s| - 2 - i;
      assert r[i] == s[k + 1] && r[i + 1] == s[k];
      DescendingIsReversed(s[k], s[k + 1], key);
    }
  }

  function Reversed(s: seq<Receipt>): (r: seq<Receipt>)
    ensures |r| == |s| && forall i :: 0 <= i < |s| ==> r[i] == s[|s| - 1 - i]
  {
    seq(|s|, i requires 0 <= i < |s| => s[|s| - 1 - i])
  }

  /** Inserts x before the first element that does not rank before it. */
  function Insert(x: Receipt, s: seq<Receipt>, key: SortField, order: SortOrder): (r: seq<Receipt>)
    ensures multiset(r) == multiset(s) + multiset{x}
    ensures |r| == |s| + 1
  {
    if s == [] || Compare(x, s[0], key, order) <= 0.0 then [x] + s
    else
      assert s == [s[0]] + s[1..];
      [s[0]] + Insert(x, s[1..], key, order)
  }

  lemma {:induction false} InsertSorted(x: Receipt, s: seq<Receipt>, key: SortField, order: SortOrder)
    requires SortedBy(s, key, order)
    ensures SortedBy(Insert(x, s, key, order), key, order)
    ensures s != [] ==> Insert(x, s, key, order)[0] == x || Insert(x, s, key, order)[0] == s[0]
  {
    if s == [] || Compare(x, s[0], key, order) <= 0.0 {
    } else {
      assert SortedBy(s[1..], key, order) by {
        forall i | 0 <= i < |s[1..]| - 1 ensures Compare(s[1..][i], s[1..][i + 1], key, order) <= 0.0 {
          assert s[1..][i] == s[i + 1] && s[1..][i + 1] == s[i + 2];
        }
      }
      InsertSorted(x, s[1..], key, order);
      var t := Insert(x, s[1..], key, order);
      var r := [s[0]] + t;
      CompareAntisymmetric(x, s[0], key, order);
      if s[1..] != [] {
        assert Compare(s[0], s[1], key, order) <= 0.0;
        assert t[0] == x || t[0] == s[1..][0];
      }
      forall i | 0 <= i < |r| - 1 ensures Compare(r[i], r[i + 1], key, order) <= 0.0 {
        if i > 0 {
          assert r[i] == t[i - 1] && r[i + 1] == t[i];
        }
      }
    }
  }

  /** The ordering the page shows: an insertion sort under the page's comparator. */
  function Sorted(s: seq<Receipt>, key: SortField, order: SortOrder): (r: seq<Receipt>)
    ensures multiset(r) == multiset(s)
    ensures SortedBy(r, key, order)
  {
    if s == [] then []
    else
      assert s == [s[0]] + s[1..];
      var rest := Sorted(s[1..], key, order);
      InsertSorted(s[0], rest, key, order);
      Insert(s[0], rest, key, order)
  }

  /** What the table shows: the filtered receipts, sorted. */
  function Visible(receipts: seq<Receipt>, f: Filters, key: SortField, order: SortOrder): (r: seq<Receipt>)
    ensures SortedBy(r, key, order)
    ensures forall x :: x in r <==> x in receipts && Passes(x, f)
    ensures multiset(r) == multiset(Filtered(receipts, f))
  {
    var r := Sorted(Filtered(receipts, f), key, order);
    assert forall x :: x in r <==> x in multiset(r);
    r
  }

  // ---------------------------------------------------------------- toggles

  /** `toggleSort`: the current key flips its order; a new key starts descending. */
  function ToggledSort(key: SortField, order: SortOrder, field: SortField): (r: (SortField, SortOrder))
    ensures r.0 == field
    ensures field == key ==> r.1 != order
    ensures field != key ==> r.1 == Desc
  {
    if key == field then (key, if order == Asc then Desc else Asc) else (field, Desc)
  }

  /** Clicking the same column header twice restores the order. */
  lemma SortTwice(key: SortField, order: SortOrder, field: SortField)
    ensures var (b1, o1) := ToggledSort(key, order, field); ToggledSort(b1, o1, field) == (field, if field == key then order else Asc)
  {
  }

  function Ids(rs: seq<Receipt>): (ids: seq<string>)
    ensures |ids| == |rs| && forall i :: 0 <= i < |rs| ==> ids[i] == rs[i].id
  {
    seq(|rs|, i requires 0 <= i < |rs| => rs[i].id)
  }

  /** `toggleSelectAll` as written: the header checkbox compares lengths only. */
  function SelectAllAsWritten(selected: seq<string>, visibleIds: seq<string>): seq<string> {
    if |selected| == |visibleIds| then [] else visibleIds
  }

  predicate AllSelected(selected: seq<string>, visibleIds: seq<string>) {
    forall i :: 0 <= i < |visibleIds| ==> visibleIds[i] in selected
  }

  /** `toggleSelectAll`: clears the selection when every visible row is selected, else selects every visible row. */
  function SelectAll(selected: seq<string>, visibleIds: seq<string>): (r: seq<string>)
    ensures AllSelected(selected, visibleIds) ==> r == []
    ensures !AllSelected(selected, visibleIds) ==> AllSelected(r, visibleIds) && forall x :: x in r ==> x in visibleIds
  {
    if AllSelected(selected, visibleIds) then [] else visibleIds
  }

  /**
   * With "a" and "b" selected and the filter now showing "a" and "c", the lengths agree, so
   * the header box shows as ticked and clicking it clears everything, although "c" was never
   * selected; the corrected toggle selects both visible rows.
   */
  lemma SelectAllLengthCheck()
    ensures SelectAllAsWritten(["a", "b"], ["a", "c"]) == []
    ensures !AllSelected(["a", "b"], ["a", "c"])
    ensures SelectAll(["a", "b"], ["a", "c"]) == ["a", "c"]
  {
    assert ["a", "c"][1] !in ["a", "b"];
  }

  /** The two toggles agree whenever the selection holds only distinct visible rows. */
  lemma SelectAllAgreesOnVisibleSelections(selected: seq<string>, visibleIds: seq<string>)
    requires NoDuplicates(selected) && NoDuplicates(visibleIds)
    requires forall x :: x in selected ==> x in visibleIds
    ensures SelectAllAsWritten(selected, visibleIds) == SelectAll(selected, visibleIds)
  {
    var a := set x | x in selected;
    var b := set x | x in visibleIds;
    DistinctCard(selected);
    DistinctCard(visibleIds);
    if |selected| == |visibleIds| {
      forall y | y in b ensures y in a {
        if y !in a {
          SubsetCard(a, b - {y});
        }
      }
      assert AllSelected(selected, visibleIds) by {
        forall i | 0 <= i < |visibleIds| ensures visibleIds[i] in selected {
          assert visibleIds[i] in b;
        }
      }
    } else if AllSelected(selected, visibleIds) {
      assert b <= a by {
        forall y | y in b ensures y in a {
          var i :| 0 <= i < |visibleIds| && visibleIds[i] == y;
        }
      }
      SubsetCard(b, a);
      SubsetCard(a, b);
    }
  }

  lemma SubsetCard(a: set<string>, b: set<string>)
    requires a <= b
    ensures |a| <= |b|
    decreases a
  {
    if a != {} {
      var y :| y in a;
      SubsetCard(a - {y}, b - {y});
    }
  }

  lemma {:induction false} DistinctCard(s: seq<string>)
    requires NoDuplicates(s)
    ensures |set x | x in s| == |s|
  {
    if s != [] {
      var t := s[1..];
      assert NoDuplicates(t) by {
        forall i, j | 0 <= i < j < |t| ensures t[i] != t[j] { assert t[i] == s[i + 1] && t[j] == s[j + 1]; }
      }
      DistinctCard(t);
      assert s[0] !in t by {
        forall k | 0 <= k < |t| ensures t[k] != s[0] { assert t[k] == s[k + 1]; }
      }
      assert (set x | x in s) == (set x | x in t) + {s[0]} by {
        assert s == [s[0]] + t;
      }
    }
  }

  // ---------------------------------------------------------------- the page state

  class ReceiptsPage {
    var filters: Filters
    var selected: seq<string>
    var sortBy: SortField
    var sortOrder: SortOrder

    constructor()
      ensures filters == Cleared && selected == [] && sortBy == ByDate && sortOrder == Desc
    {
      filters := Cleared;
      selected := [];
      sortBy := ByDate;
      sortOrder := Desc;
    }

    function Shown(receipts: seq<Receipt>): seq<Receipt>
      reads this
    {
      Visible(receipts, filters, sortBy, sortOrder)
    }

    method ToggleSort(field: SortField)
      modifies this`sortBy, this`sortOrder
      ensures (sortBy, sortOrder) == ToggledSort(old(sortBy), old(sortOrder), field)
    {
      if sortBy == field {
        sortOrder := if sortOrder == Asc then Desc else Asc;
      } else {
        sortBy := field;
        sortOrder := Desc;
      }
    }

    /** `toggleSelect`: flips one id and leaves the others as they were. */
    method ToggleSelect(id: string)
      modifies this`selected
      ensures selected == Toggled(old(selected), id)
      ensures id in selected <==> id !in old(selected)
    {
      if id in selected {
        selected := Removed(selected, id);
      } else {
        selected := selected + [id];
      }
    }

    /** The header checkbox as the page wires it. */
    method ToggleSelectAllAsWritten(receipts: seq<Receipt>)
      modifies this`selected
      ensures selected == SelectAllAsWritten(old(selected), Ids(Shown(receipts)))
    {
      var visibleIds := Ids(Visible(receipts, filters, sortBy, sortOrder));
      if |selected| == |visibleIds| {
        selected := [];
      } else {
        selected := visibleIds;
      }
    }

    /** The header checkbox comparing membership rather than lengths. */
    method ToggleSelectAll(receipts: seq<Receipt>)
      modifies this`selected
      ensures selected == SelectAll(old(selected), Ids(Shown(receipts)))
    {
      var visibleIds := Ids(Visible(receipts, filters, sortBy, sortOrder));
      selected := SelectAll(selected, visibleIds);
    }

    method ClearFilters()
      modifies this`filters
      ensures filters == Cleared
    {
      filters := Filters("", "all", "all", None, None, "all");
    }
  }
}

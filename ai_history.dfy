/**
 * The AI conversation history page: selection and expansion of items, the search, date and
 * sort pipeline, the export selection, the relative-age labels and the counters. Creation
 * times are milliseconds; the current time and the calendar bounds of the date filters are
 * parameters.
 */
module AiHistory {
  import opened Wrappers
  import opened Text
  import Seqs

  datatype Item = Item(id: int, prompt: Option<string>, answer: Option<string>, createdAt: int)

  // ---------------------------------------------------------------- selection and expansion

  /** `toggleSelectItem`: remove the id when selected, else append it. */
  function ToggleSelected(selected: seq<int>, id: int): (r: seq<int>) {
    if id in selected then Seqs.Filter(selected, (i: int) => i != id) else selected + [id]
  }

  /** Toggling flips the id's membership and keeps every other id's; the selection never holds
      an id twice, and toggling twice restores the selected set. */
  lemma ToggleSelectedFlips(selected: seq<int>, id: int, other: int)
    requires Seqs.NoDuplicates(selected)
    ensures id in ToggleSelected(selected, id) <==> id !in selected
    ensures other != id ==> (other in ToggleSelected(selected, id) <==> other in selected)
    ensures Seqs.NoDuplicates(ToggleSelected(selected, id))
    ensures (set x | x in ToggleSelected(ToggleSelected(selected, id), id)) == (set x | x in selected)
  {
    var p := (i: int) => i != id;
    if id in selected {
      Seqs.FilterIsSubsequence(selected, p);
      SubsequenceKeepsNoDuplicates(Seqs.Filter(selected, p), selected);
      if other != id && other in selected {
        var k :| 0 <= k < |selected| && selected[k] == other;
      }
    }
    var once := ToggleSelected(selected, id);
    if id !in selected {
      assert Seqs.NoDuplicates(once);
      Seqs.FilterIsSubsequence(once, p);
      forall x | x in selected ensures x in Seqs.Filter(once, p) {
        var k :| 0 <= k < |selected| && selected[k] == x;
        assert once[k] == x;
      }
    } else {
      assert id !in once;
    }
  }

  lemma {:induction false} SubsequenceKeepsNoDuplicates(r: seq<int>, s: seq<int>)
    requires Seqs.IsSubsequence(r, s) && Seqs.NoDuplicates(s)
    ensures Seqs.NoDuplicates(r)
    decreases |s|
  {
    if r != [] {
      assert s != [];
      assert Seqs.NoDuplicates(s[1..]) by {
        forall i, j | 0 <= i < j < |s[1..]| ensures s[1..][i] != s[1..][j] {
          assert s[i + 1] != s[j + 1];
        }
      }
      if r[0] == s[0] && Seqs.IsSubsequence(r[1..], s[1..]) {
        SubsequenceKeepsNoDuplicates(r[1..], s[1..]);
        SubsequenceMembers(r[1..], s[1..]);
        assert s[0] !in s[1..] by {
          forall k | 0 <= k < |s[1..]| ensures s[1..][k] != s[0] {
            assert s[k + 1] != s[0];
          }
        }
        forall i, j | 0 <= i < j < |r| ensures r[i] != r[j] {
          if i == 0 {
            assert r[j] == r[1..][j - 1];
          } else {
            assert r[i] == r[1..][i - 1] && r[j] == r[1..][j - 1];
          }
        }
      } else {
        SubsequenceKeepsNoDuplicates(r, s[1..]);
      }
    }
  }

  lemma {:induction false} SubsequenceMembers(r: seq<int>, s: seq<int>)
    requires Seqs.IsSubsequence(r, s)
    ensures forall x :: x in r ==> x in s
    decreases |s|
  {
    if r != [] {
      if r[0] == s[0] && Seqs.IsSubsequence(r[1..], s[1..]) {
        SubsequenceMembers(r[1..], s[1..]);
        forall x | x in r ensures x in s {
          if x != r[0] {
            assert x in r[1..];
          }
        }
      } else {
        SubsequenceMembers(r, s[1..]);
      }
    }
  }

  /** `toggleExpand`: the same id collapses, another id expands alone. */
  function ToggleExpanded(expanded: Option<int>, id: int): (r: Option<int>)
    ensures r == Some(id) <==> expanded != Some(id)
    ensures r.Some? ==> r.value == id
  {
    if expanded == Some(id) then None else Some(id)
  }

  // ---------------------------------------------------------------- search, date filter, sort

  /** The text searched: prompt and answer joined, null read as "", lowercased. */
  function SearchText(item: Item): string {
    ToLower(item.prompt.GetOr("") + item.answer.GetOr(""))
  }

  predicate MatchesSearch(item: Item, searchTerm: string) {
    Contains(SearchText(item), ToLower(searchTerm))
  }

  /** A term found in the prompt or in the answer matches, the empty term matches every item,
      and a term may also match across the join of prompt and answer. */
  lemma MatchesSearchCases(item: Item, term: string)
    ensures Contains(ToLower(item.prompt.GetOr("")), ToLower(term)) ==> MatchesSearch(item, term)
    ensures Contains(ToLower(item.answer.GetOr("")), ToLower(term)) ==> MatchesSearch(item, term)
    ensures term == "" ==> MatchesSearch(item, term)
  {
    var p, a := item.prompt.GetOr(""), item.answer.GetOr("");
    ToLowerConcat(p, a);
    if Contains(ToLower(p), ToLower(term)) {
      ContainsExtendRight(ToLower(p), ToLower(a), ToLower(term));
    }
    if Contains(ToLower(a), ToLower(term)) {
      ContainsExtendLeft(ToLower(p), ToLower(a), ToLower(term));
    }
  }

  lemma MatchAcrossJoin()
    ensures MatchesSearch(Item(0, Some("ab"), Some("cd"), 0), "bc")
    ensures !Contains("ab", "bc") && !Contains("cd", "bc")
  {
    ContainsSlice("abcd", 1, 3);
    assert SearchText(Item(0, Some("ab"), Some("cd"), 0)) == "abcd";
    assert "abcd"[1..3] == "bc";
    assert !StartsWith("ab", "bc") by { assert "ab"[..2][0] == 'a'; }
    assert !StartsWith("cd", "bc") by { assert "cd"[..2][0] == 'c'; }
    assert "ab"[1..] == "b" && "b"[1..] == "" && !Contains("", "bc");
    assert "cd"[1..] == "d" && "d"[1..] == "";
  }

  /** The date menu: everything, today's items (the local day as a millisecond interval), the
      items at or after a computed bound (a week or a month back), or an unknown value that
      keeps everything. */
  datatype DateFilter = All | Today(dayStart: int, dayEnd: int) | Since(bound: int) | Unknown

  predicate PassesDate(item: Item, f: DateFilter) {
    match f
    case All => true
    case Today(s, e) => s <= item.createdAt < e
    case Since(b) => item.createdAt >= b
    case Unknown => true
  }

  /** The sort key: ascending creation time for "oldest", descending for any other order. */
  function Key(item: Item, sortOrder: string): int {
    if sortOrder == "oldest" then item.createdAt else -item.createdAt
  }

  /** Places `x` before the first element whose key is not smaller. */
  function Insert(x: Item, s: seq<Item>, order: string): seq<Item>
    decreases |s|
  {
    if s == [] || Key(x, order) <= Key(s[0], order) then [x] + s
    else [s[0]] + Insert(x, s[1..], order)
  }

  /** `Array.prototype.sort` with the creation-time comparator: a stable sort by `Key`. */
  function Sort(s: seq<Item>, order: string): seq<Item>
    decreases |s|
  {
    if s == [] then [] else Insert(s[0], Sort(s[1..], order), order)
  }

  predicate SortedBy(s: seq<Item>, order: string) {
    forall i, j :: 0 <= i < j < |s| ==> Key(s[i], order) <= Key(s[j], order)
  }

  function SameKey(k: int, order: string): Item -> bool {
    (e: Item) => Key(e, order) == k
  }

  lemma {:induction false} InsertMultiset(x: Item, s: seq<Item>, order: string)
    ensures multiset(Insert(x, s, order)) == multiset([x] + s)
    decreases |s|
  {
    if !(s == [] || Key(x, order) <= Key(s[0], order)) {
      InsertMultiset(x, s[1..], order);
      assert s == [s[0]] + s[1..];
      assert multiset([x] + s) == multiset([s[0]]) + multiset([x] + s[1..]);
    }
  }

  predicate AllAtLeast(s: seq<Item>, b: int, order: string) {
    forall i :: 0 <= i < |s| ==> b <= Key(s[i], order)
  }

  lemma {:induction false} InsertLowerBound(x: Item, s: seq<Item>, order: string, b: int)
    requires b <= Key(x, order) && AllAtLeast(s, b, order)
    ensures AllAtLeast(Insert(x, s, order), b, order)
    decreases |s|
  {
    if !(s == [] || Key(x, order) <= Key(s[0], order)) {
      InsertLowerBound(x, s[1..], order, b);
      var t := Insert(x, s[1..], order);
      assert Insert(x, s, order) == [s[0]] + t;
    }
  }

  lemma {:induction false} InsertSorted(x: Item, s: seq<Item>, order: string)
    requires SortedBy(s, order)
    ensures SortedBy(Insert(x, s, order), order)
    decreases |s|
  {
    if s != [] && Key(x, order) > Key(s[0], order) {
      var t := Insert(x, s[1..], order);
      InsertSorted(x, s[1..], order);
      InsertLowerBound(x, s[1..], order, Key(s[0], order));
      var r := [s[0]] + t;
      assert Insert(x, s, order) == r;
      forall i, j | 0 <= i < j < |r| ensures Key(r[i], order) <= Key(r[j], order) {
        assert r[j] == t[j - 1];
        if i > 0 {
          assert r[i] == t[i - 1];
        }
      }
    }
  }

  /** Swapping two neighbours that do not both pass `p` does not change the filtered list. */
  lemma FilterSwap<T>(x: T, y: T, rest: seq<T>, p: T -> bool)
    requires !(p(x) && p(y))
    ensures Seqs.Filter([y] + ([x] + rest), p) == Seqs.Filter([x] + ([y] + rest), p)
  {
    Seqs.FilterCons(y, [x] + rest, p);
    Seqs.FilterCons(x, [y] + rest, p);
    if p(x) {
      // y does not pass: both orders keep x and then the kept part of rest
      Seqs.FilterCons(x, rest, p);
      Seqs.FilterCons(y, rest, p);
    } else {
      // x does not pass: both orders keep what y and rest keep
      Seqs.FilterCons(y, rest, p);
      Seqs.FilterCons(x, rest, p);
    }
  }

  lemma {:induction false} InsertStable(x: Item, s: seq<Item>, order: string, k: int)
    ensures Seqs.Filter(Insert(x, s, order), SameKey(k, order)) == Seqs.Filter([x] + s, SameKey(k, order))
    decreases |s|
  {
    if !(s == [] || Key(x, order) <= Key(s[0], order)) {
      var p := SameKey(k, order);
      InsertStable(x, s[1..], order, k);
      var t := Insert(x, s[1..], order);
      assert ([s[0]] + t)[1..] == t;
      assert Seqs.Filter([s[0]] + t, p) == Seqs.Filter([s[0]] + ([x] + s[1..]), p) by {
        assert ([s[0]] + ([x] + s[1..]))[1..] == [x] + s[1..];
      }
      assert [x] + s == [x] + ([s[0]] + s[1..]);
      FilterSwap(x, s[0], s[1..], p);
    }
  }

  /** The sorted list is in key order, holds exactly the input items, and items with the same
      creation time keep their input order. */
  lemma {:induction false} SortProperties(s: seq<Item>, order: string, k: int)
    ensures SortedBy(Sort(s, order), order)
    ensures multiset(Sort(s, order)) == multiset(s)
    ensures Seqs.Filter(Sort(s, order), SameKey(k, order)) == Seqs.Filter(s, SameKey(k, order))
    decreases |s|
  {
    if s != [] {
      SortProperties(s[1..], order, k);
      InsertSorted(s[0], Sort(s[1..], order), order);
      InsertMultiset(s[0], Sort(s[1..], order), order);
      InsertStable(s[0], Sort(s[1..], order), order, k);
      assert s == [s[0]] + s[1..];
      Seqs.FilterConcat([s[0]], Sort(s[1..], order), SameKey(k, order));
      Seqs.FilterConcat([s[0]], s[1..], SameKey(k, order));
    }
  }

  /** `filteredHistory`: the search, then the date filter, then the sort. */
  function FilteredHistory(history: seq<Item>, searchTerm: string, filterDate: DateFilter,
                           sortOrder: string): seq<Item>
  {
    Sort(Seqs.Filter(history, (item: Item) => MatchesSearch(item, searchTerm) && PassesDate(item, filterDate)),
         sortOrder)
  }

  /** An item is listed exactly when it passes the search and the date filter, as many times as
      it occurs in the history, and the list is in creation order. */
  lemma FilteredHistoryExact(history: seq<Item>, searchTerm: string, filterDate: DateFilter,
                             sortOrder: string, item: Item)
    ensures item in FilteredHistory(history, searchTerm, filterDate, sortOrder) <==>
              item in history && MatchesSearch(item, searchTerm) && PassesDate(item, filterDate)
    ensures SortedBy(FilteredHistory(history, searchTerm, filterDate, sortOrder), sortOrder)
  {
    var kept := Seqs.Filter(history, (item: Item) => MatchesSearch(item, searchTerm) && PassesDate(item, filterDate));
    SortProperties(kept, sortOrder, 0);
    assert item in Sort(kept, sortOrder) <==> item in multiset(Sort(kept, sortOrder));
    if item in history && MatchesSearch(item, searchTerm) && PassesDate(item, filterDate) {
      var i :| 0 <= i < |history| && history[i] == item;
    }
  }

  // ---------------------------------------------------------------- export, age, counters

  /** `exportHistory`: the selected items in history order when any are selected, otherwise
      the whole history. */
  function ExportData(history: seq<Item>, selected: seq<int>): seq<Item> {
    if |selected| > 0 then Seqs.Filter(history, (item: Item) => item.id in selected) else history
  }

  lemma ExportDataExact(history: seq<Item>, selected: seq<int>, item: Item)
    ensures Seqs.IsSubsequence(ExportData(history, selected), history)
    ensures selected != [] ==> (item in ExportData(history, selected) <==> item in history && item.id in selected)
    ensures selected == [] ==> ExportData(history, selected) == history
  {
    Seqs.FilterIsSubsequence(history, (item: Item) => item.id in selected);
    if selected == [] {
      Seqs.FilterKeepsAll(history, (item: Item) => true);
      Seqs.FilterIsSubsequence(history, (item: Item) => true);
    } else if item in history && item.id in selected {
      var i :| 0 <= i < |history| && history[i] == item;
    }
  }

  /** The relative-age label of `formatDate`. */
  datatype AgeLabel = SecondsAgo(n: int) | MinutesAgo(n: int) | HoursAgo(n: int) | DaysAgo(n: int) | AbsoluteDate

  function Age(nowMillis: int, createdMillis: int): (a: AgeLabel) {
    var diff := (nowMillis - createdMillis) / 1000;
    if diff < 60 then SecondsAgo(diff)
    else if diff < 3600 then MinutesAgo(diff / 60)
    else if diff < 86400 then HoursAgo(diff / 3600)
    else if diff < 2592000 then DaysAgo(diff / 86400)
    else AbsoluteDate
  }

  function Unit(a: AgeLabel): nat {
    match a
    case SecondsAgo(_) => 1
    case MinutesAgo(_) => 60
    case HoursAgo(_) => 3600
    case DaysAgo(_) => 86400
    case AbsoluteDate => 2592000
  }

  /** The label is the whole number of its units in the elapsed seconds, in the largest unit
      that fits, below 30 days. */
  lemma AgeBounds(nowMillis: int, createdMillis: int)
    requires nowMillis >= createdMillis
    ensures var a := Age(nowMillis, createdMillis);
            var diff := (nowMillis - createdMillis) / 1000;
            (a.AbsoluteDate? <==> diff >= 2592000)
            && (!a.AbsoluteDate? ==> a.n * Unit(a) <= diff < (a.n + 1) * Unit(a))
            && (a.MinutesAgo? ==> 1 <= a.n < 60)
            && (a.HoursAgo? ==> 1 <= a.n < 24)
            && (a.DaysAgo? ==> 1 <= a.n < 30)
  {
  }

  /** The text shown for a label other than the absolute date. */
  function AgeText(a: AgeLabel): string
    requires !a.AbsoluteDate?
  {
    match a
    case SecondsAgo(n) => IntDecimal(n) + " seconds ago"
    case MinutesAgo(n) => IntDecimal(n) + " minutes ago"
    case HoursAgo(n) => IntDecimal(n) + " hours ago"
    case DaysAgo(n) => IntDecimal(n) + " days ago"
  }

  class Page {
    var history: seq<Item>
    var selectedItems: seq<int>
    var expandedItem: Option<int>

    ghost predicate Valid()
      reads this
    {
      Seqs.NoDuplicates(selectedItems)
    }

    constructor ()
      ensures Valid() && history == [] && selectedItems == [] && expandedItem == None
    {
      history, selectedItems, expandedItem := [], [], None;
    }

    method ToggleSelectItem(id: int)
      requires Valid()
      modifies this
      ensures Valid()
      ensures selectedItems == ToggleSelected(old(selectedItems), id)
      ensures history == old(history) && expandedItem == old(expandedItem)
    {
      ToggleSelectedFlips(selectedItems, id, id);
      if id in selectedItems {
        selectedItems := Seqs.Filter(selectedItems, (i: int) => i != id);
      } else {
        selectedItems := selectedItems + [id];
      }
    }

    method ToggleExpand(id: int)
      modifies this
      ensures expandedItem == ToggleExpanded(old(expandedItem), id)
      ensures history == old(history) && selectedItems == old(selectedItems)
    {
      expandedItem := if expandedItem == Some(id) then None else Some(id);
    }

    /** `deleteSelected`: after confirmation the selection is emptied and the count is
        announced; no item is deleted. */
    method DeleteSelected(confirmed: bool) returns (announced: Option<int>)
      requires Valid()
      modifies this
      ensures Valid() && history == old(history) && expandedItem == old(expandedItem)
      ensures announced == if confirmed then Some(|old(selectedItems)|) else None
      ensures selectedItems == if confirmed then [] else old(selectedItems)
    {
      if !confirmed {
        return None;
      }
      announced := Some(|selectedItems|);
      selectedItems := [];
    }

    /** The counters: all items, listed items, selected items. */
    method Stats(searchTerm: string, filterDate: DateFilter, sortOrder: string)
      returns (total: int, filtered: int, selected: int)
      ensures total == |history| && selected == |selectedItems|
      ensures filtered == |FilteredHistory(history, searchTerm, filterDate, sortOrder)|
      ensures filtered <= total
    {
      var list := FilteredHistory(history, searchTerm, filterDate, sortOrder);
      var kept := Seqs.Filter(history, (item: Item) => MatchesSearch(item, searchTerm) && PassesDate(item, filterDate));
      SortProperties(kept, sortOrder, 0);
      assert |list| == |multiset(list)| == |multiset(kept)| == |kept|;
      total, filtered, selected := |history|, |list|, |selectedItems|;
    }
  }
}

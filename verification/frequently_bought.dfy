/** The market-basket page: itemsets sorted by support, rules sorted by
    lift, the search box over itemset labels and the rules whose
    antecedent is the selected itemset. */
module FrequentlyBought {
  import opened Collections
  import opened Api
  import opened Text

  /** The JSON body as the page reads it: either list may be absent. */
  datatype Fetched = Fetched(frequentItemsets: Option<seq<Itemset>>, rules: Option<seq<Rule>>)

  /** `data?.frequent_itemsets || []`; `data` is None before a successful load. */
  function ItemsetsOf(data: Option<Fetched>): (r: seq<Itemset>)
    ensures data.None? || data.value.frequentItemsets.None? ==> r == []
    ensures data.Some? && data.value.frequentItemsets.Some? ==> r == data.value.frequentItemsets.value
  {
    if data.Some? && data.value.frequentItemsets.Some? then data.value.frequentItemsets.value else []
  }

  /** `data?.rules || []`. */
  function RulesOf(data: Option<Fetched>): (r: seq<Rule>)
    ensures data.None? || data.value.rules.None? ==> r == []
    ensures data.Some? && data.value.rules.Some? ==> r == data.value.rules.value
  {
    if data.Some? && data.value.rules.Some? then data.value.rules.value else []
  }

  /** `[...itemsets].sort((a, b) => b.support - a.support)`; itemsets of
      equal support keep their fetched order. */
  function SortedItemsets(data: Option<Fetched>): (r: seq<Itemset>)
    ensures multiset(r) == multiset(ItemsetsOf(data))
    ensures forall i, j :: 0 <= i < j < |r| ==> r[i].support >= r[j].support
    ensures forall c :: WithKey(r, Support, c) == WithKey(ItemsetsOf(data), Support, c)
  {
    SortDesc(ItemsetsOf(data), Support)
  }

  /** `[...rules].sort((a, b) => b.lift - a.lift)`; rules of equal lift
      keep their fetched order. */
  function SortedRules(data: Option<Fetched>): (r: seq<Rule>)
    ensures multiset(r) == multiset(RulesOf(data))
    ensures forall i, j :: 0 <= i < j < |r| ==> r[i].lift >= r[j].lift
    ensures forall c :: WithKey(r, Lift, c) == WithKey(RulesOf(data), Lift, c)
  {
    SortDesc(RulesOf(data), Lift)
  }

  /** The label an itemset is searched by: its items joined with ", ". */
  function ItemsetLabel(i: Itemset): string
  {
    Join(i.items, ", ")
  }

  /** Case-insensitive substring match of the search term on the label. */
  predicate MatchesSearch(i: Itemset, term: string)
  {
    Contains(ToLower(ItemsetLabel(i)), ToLower(term))
  }

  /** The itemsets the search keeps, in support order. */
  function FilteredItemsets(data: Option<Fetched>, term: string): (r: seq<Itemset>)
    ensures IsSubsequence(r, SortedItemsets(data))
    ensures forall i :: i in r <==> i in SortedItemsets(data) && MatchesSearch(i, term)
    ensures forall i :: multiset(r)[i] == if MatchesSearch(i, term) then multiset(ItemsetsOf(data))[i] else 0
    ensures forall i, j :: 0 <= i < j < |r| ==> r[i].support >= r[j].support
  {
    var r := Filter(SortedItemsets(data), (i: Itemset) => MatchesSearch(i, term));
    SubsequenceSortedDesc(r, SortedItemsets(data), Support);
    r
  }

  /** An empty search term keeps every itemset. */
  lemma EmptySearchKeepsAll(data: Option<Fetched>)
    ensures FilteredItemsets(data, "") == SortedItemsets(data)
  {
    var s := SortedItemsets(data);
    forall k | 0 <= k < |s| ensures MatchesSearch(s[k], "") {
      ContainsEmpty(ToLower(ItemsetLabel(s[k])));
    }
    FilterKeepsAll(s, (i: Itemset) => MatchesSearch(i, ""));
  }

  /** Typing (part of) any one item's name, in any ASCII case, finds
      every itemset that holds that item. */
  lemma SearchFindsItem(i: Itemset, k: int, term: string)
    requires 0 <= k < |i.items|
    requires Contains(ToLower(i.items[k]), ToLower(term))
    ensures MatchesSearch(i, term)
  {
    JoinContainsItem(i.items, ", ", k);
    ContainsToLower(ItemsetLabel(i), i.items[k]);
    ContainsTrans(ToLower(ItemsetLabel(i)), ToLower(i.items[k]), ToLower(term));
  }

  /** `JSON.stringify(a) === JSON.stringify(b)` on two lists of strings:
      the same items in the same order. */
  predicate SameList(a: seq<string>, b: seq<string>)
  {
    a == b
  }

  /** The rules shown for the selected itemset; none without a selection. */
  function SelectedRules(data: Option<Fetched>, selected: Option<Itemset>): (r: seq<Rule>)
    ensures selected.None? ==> r == []
    ensures IsSubsequence(r, SortedRules(data))
    ensures forall x :: x in r <==> x in SortedRules(data) && selected.Some? && SameList(x.antecedents, selected.value.items)
    ensures forall x :: multiset(r)[x] ==
                        if selected.Some? && SameList(x.antecedents, selected.value.items) then multiset(RulesOf(data))[x] else 0
    ensures forall i, j :: 0 <= i < j < |r| ==> r[i].lift >= r[j].lift
  {
    match selected
    case None => []
    case Some(s) =>
      var r := Filter(SortedRules(data), (x: Rule) => SameList(x.antecedents, s.items));
      SubsequenceSortedDesc(r, SortedRules(data), Lift);
      r
  }

  /** The match is order-sensitive: a rule with antecedents ["B", "A"] is
      not shown for the itemset ["A", "B"]. */
  lemma SelectedRulesOrderSensitive(lift: real)
    ensures SelectedRules(Some(Fetched(None, Some([Rule(["B", "A"], ["C"], 0.1, 0.5, lift)]))),
                          Some(Itemset(["A", "B"], 0.2))) == []
  {
    var x := Rule(["B", "A"], ["C"], 0.1, 0.5, lift);
    assert ["B", "A"] != ["A", "B"] by {
      assert ["B", "A"][0] != ["A", "B"][0];
    }
  }

  /** The selection made after loading: the head of the support-sorted
      itemsets, or nothing when the list is empty or absent. */
  function InitialSelection(data: Option<Fetched>): Option<Itemset>
  {
    if |ItemsetsOf(data)| > 0 then Some(SortedItemsets(data)[0]) else None
  }

  /** The initial selection is a fetched itemset of maximal support, the
      first such one in fetched order, and there is one exactly when the
      list is non-empty. */
  lemma InitialSelectionMaximal(data: Option<Fetched>)
    ensures InitialSelection(data).None? <==> ItemsetsOf(data) == []
    ensures InitialSelection(data).Some? ==>
      InitialSelection(data).value in ItemsetsOf(data) &&
      forall i :: i in ItemsetsOf(data) ==> i.support <= InitialSelection(data).value.support
    ensures InitialSelection(data).Some? ==>
      exists j :: 0 <= j < |ItemsetsOf(data)| && ItemsetsOf(data)[j] == InitialSelection(data).value &&
                  (forall i :: 0 <= i < j ==> ItemsetsOf(data)[i].support < InitialSelection(data).value.support)
  {
    if |ItemsetsOf(data)| > 0 {
      HeadIsMaximal(ItemsetsOf(data), Support);
      HeadIsFirstMaximal(ItemsetsOf(data), Support);
    }
  }
}

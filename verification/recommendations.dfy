/** The similar-products page: the product list from the keys of the
    precomputed recommendation map, its search box, the selected product's
    recommendations and their similarity tiers. */
module Recommendations {
  import opened Collections
  import opened Api
  import opened Text

  /** One key of the JSON object with its recommendation list. */
  datatype Entry = Entry(product: string, similar: seq<Similar>)

  /** A JSON object has each key once. */
  predicate DistinctKeys(data: seq<Entry>)
  {
    forall i, j :: 0 <= i < j < |data| ==> data[i].product != data[j].product
  }

  /** `Object.keys(data)`, in insertion order. */
  function ProductList(data: seq<Entry>): (r: seq<string>)
    ensures |r| == |data|
    ensures forall i :: 0 <= i < |r| ==> r[i] == data[i].product
  {
    seq(|data|, i requires 0 <= i < |data| => data[i].product)
  }

  /** `data[key]`, absent when the object has no such key. */
  function Lookup(data: seq<Entry>, key: string): (r: Option<seq<Similar>>)
    ensures r.None? <==> key !in ProductList(data)
    ensures r.Some? ==> exists i :: 0 <= i < |data| && data[i].product == key && data[i].similar == r.value
  {
    if data == [] then None
    else if data[0].product == key then Some(data[0].similar)
    else
      var rest := Lookup(data[1..], key);
      assert ProductList(data) == [data[0].product] + ProductList(data[1..]);
      if rest.Some? then
        var i :| 0 <= i < |data[1..]| && data[1..][i].product == key && data[1..][i].similar == rest.value;
        assert data[i + 1] == data[1..][i];
        rest
      else rest
  }

  /** With distinct keys a lookup finds the one entry under that key. */
  lemma LookupEntry(data: seq<Entry>, k: int)
    requires DistinctKeys(data)
    requires 0 <= k < |data|
    ensures Lookup(data, data[k].product) == Some(data[k].similar)
  {
    assert data[k].product in ProductList(data);
  }

  /** The products whose name contains the search term, ignoring ASCII case. */
  function FilteredProducts(data: seq<Entry>, term: string): (r: seq<string>)
    ensures IsSubsequence(r, ProductList(data))
    ensures forall p :: p in r <==> p in ProductList(data) && Contains(ToLower(p), ToLower(term))
    ensures forall p :: multiset(r)[p] == if Contains(ToLower(p), ToLower(term)) then multiset(ProductList(data))[p] else 0
  {
    Filter(ProductList(data), (p: string) => Contains(ToLower(p), ToLower(term)))
  }

  /** An empty search term keeps every product. */
  lemma EmptySearchKeepsAll(data: seq<Entry>)
    ensures FilteredProducts(data, "") == ProductList(data)
  {
    var keys := ProductList(data);
    forall k | 0 <= k < |keys| ensures Contains(ToLower(keys[k]), ToLower("")) {
      ContainsEmpty(ToLower(keys[k]));
    }
    FilterKeepsAll(keys, (p: string) => Contains(ToLower(p), ToLower("")));
  }

  /** The selection after loading: the first key, or "" for an empty map. */
  function InitialSelection(data: seq<Entry>): string
  {
    if |data| > 0 then data[0].product else ""
  }

  /** `selectedProduct ? data[selectedProduct] : []`. The selection is ""
      or one of the keys (it is only ever set from the key list); the
      empty string is falsy, so it shows nothing even if it is a key. */
  function SimilarItems(data: seq<Entry>, selected: string): (r: seq<Similar>)
    requires selected == "" || selected in ProductList(data)
    ensures selected == "" ==> r == []
    ensures selected != "" ==> exists i :: 0 <= i < |data| && data[i].product == selected && r == data[i].similar
  {
    if selected == "" then [] else Lookup(data, selected).value
  }

  /** The initial selection is the first key when there is one, and the
      page then shows that key's recommendations. */
  lemma InitialSelectionShowsFirst(data: seq<Entry>)
    requires DistinctKeys(data)
    ensures data == [] ==> InitialSelection(data) == ""
    ensures data != [] ==> InitialSelection(data) in ProductList(data)
    ensures data != [] && data[0].product != "" ==>
      SimilarItems(data, InitialSelection(data)) == data[0].similar
  {
    if data != [] {
      assert ProductList(data)[0] == data[0].product;
      LookupEntry(data, 0);
    }
  }

  /** What the right-hand panel shows. */
  datatype Panel = EmptyState | Listing(count: nat)

  function PanelFor(items: seq<Similar>): (p: Panel)
    ensures p.EmptyState? <==> |items| == 0
    ensures p.Listing? ==> p.count == |items| && p.count > 0
  {
    if |items| == 0 then EmptyState else Listing(|items|)
  }

  /** The similarity tiers of one recommendation. */
  predicate IsStrong(s: Similar) { s.similarity >= 0.7 }

  predicate IsMedium(s: Similar) { s.similarity >= 0.5 }

  /** The text style: strong wins over medium, medium over plain. */
  datatype Style = StrongStyle | MediumStyle | Plain

  function StyleOf(s: Similar): Style
  {
    if IsStrong(s) then StrongStyle else if IsMedium(s) then MediumStyle else Plain
  }

  /** A strong match is also a medium one, and the style is decided by the
      thresholds 0.7 and 0.5. */
  lemma TierThresholds(s: Similar)
    ensures IsStrong(s) ==> IsMedium(s)
    ensures StyleOf(s) == StrongStyle <==> s.similarity >= 0.7
    ensures StyleOf(s) == MediumStyle <==> 0.5 <= s.similarity < 0.7
    ensures StyleOf(s) == Plain <==> s.similarity < 0.5
  {
  }
}

/**
 * `filteredItems` of the three menu screens: a case-insensitive search on the
 * food name, combined with a category rule made of keywords the lower-cased
 * name must (or must not) include. An unknown category keeps every search match.
 */
module MenuFilters {
  import Seqs
  import Text
  import Cart

  type MenuItem = Cart.MenuItem

  /** `item.fname.toLowerCase().includes(keyword)`; every keyword the screens use is lower case. */
  predicate NameHas(item: MenuItem, keyword: string) {
    Text.Contains(Text.ToLower(item.fname), keyword)
  }

  /** `matchesSearch`: the lower-cased name includes the lower-cased query. */
  predicate MatchesSearch(item: MenuItem, query: string) {
    Text.Contains(Text.ToLower(item.fname), Text.ToLower(query))
  }

  /** The search on its own: what every screen shows under `all`. */
  function SearchResults(items: seq<MenuItem>, query: string): seq<MenuItem> {
    Seqs.Filter(items, (item: MenuItem) => MatchesSearch(item, query))
  }

  // ---- Category rules ----

  /** Main Cafe: rice, noodles, biriyani, southindian, bengali. */
  predicate MainCafeCategory(category: string, item: MenuItem) {
    if category == "rice" then
      NameHas(item, "rice") && !NameHas(item, "fried rice") && !NameHas(item, "biriyani")
    else if category == "noodles" then NameHas(item, "chowmin")
    else if category == "biriyani" then NameHas(item, "biriyani")
    else if category == "southindian" then NameHas(item, "idli") || NameHas(item, "dosa")
    else if category == "bengali" then NameHas(item, "luchi")
    else true
  }

  /** Food Court: cakes, pastries, desserts, icecream, indian. */
  predicate FoodCourtCategory(category: string, item: MenuItem) {
    if category == "cakes" then NameHas(item, "cake")
    else if category == "pastries" then NameHas(item, "pastry") || NameHas(item, "slice")
    else if category == "desserts" then NameHas(item, "mousse") || NameHas(item, "brownie")
    else if category == "icecream" then NameHas(item, "ice cream")
    else if category == "indian" then NameHas(item, "gulab") || NameHas(item, "rasgulla")
    else true
  }

  /** Time Out: snacks, drinks, burgers, desserts. */
  predicate TimeOutCategory(category: string, item: MenuItem) {
    if category == "snacks" then
      NameHas(item, "patties") || NameHas(item, "fritters") || NameHas(item, "cutlet") ||
      NameHas(item, "roll") || NameHas(item, "fry")
    else if category == "drinks" then
      NameHas(item, "water") || NameHas(item, "coke") || NameHas(item, "maaza") || NameHas(item, "drink")
    else if category == "burgers" then NameHas(item, "burger")
    else if category == "desserts" then NameHas(item, "pastry") || NameHas(item, "sweet")
    else true
  }

  // ---- The three `filteredItems` ----

  /** The Main Cafe list: the menu entries, in menu order, that match the search and the category. */
  function MainCafeMenu(items: seq<MenuItem>, category: string, query: string): (r: seq<MenuItem>)
    ensures Seqs.IsSubsequence(r, items)
    ensures forall i :: 0 <= i < |r| ==> MatchesSearch(r[i], query) && MainCafeCategory(category, r[i])
    ensures forall i :: 0 <= i < |items| && MatchesSearch(items[i], query) && MainCafeCategory(category, items[i]) ==>
      items[i] in r
  {
    var keep := (item: MenuItem) => MatchesSearch(item, query) && MainCafeCategory(category, item);
    Seqs.FilterMeans(items, keep);
    Seqs.Filter(items, keep)
  }

  /** The Food Court list, as for the Main Cafe with the Food Court categories. */
  function FoodCourtMenu(items: seq<MenuItem>, category: string, query: string): (r: seq<MenuItem>)
    ensures Seqs.IsSubsequence(r, items)
    ensures forall i :: 0 <= i < |r| ==> MatchesSearch(r[i], query) && FoodCourtCategory(category, r[i])
    ensures forall i :: 0 <= i < |items| && MatchesSearch(items[i], query) && FoodCourtCategory(category, items[i]) ==>
      items[i] in r
  {
    var keep := (item: MenuItem) => MatchesSearch(item, query) && FoodCourtCategory(category, item);
    Seqs.FilterMeans(items, keep);
    Seqs.Filter(items, keep)
  }

  /** The Time Out list, as for the Main Cafe with the Time Out categories. */
  function TimeOutMenu(items: seq<MenuItem>, category: string, query: string): (r: seq<MenuItem>)
    ensures Seqs.IsSubsequence(r, items)
    ensures forall i :: 0 <= i < |r| ==> MatchesSearch(r[i], query) && TimeOutCategory(category, r[i])
    ensures forall i :: 0 <= i < |items| && MatchesSearch(items[i], query) && TimeOutCategory(category, items[i]) ==>
      items[i] in r
  {
    var keep := (item: MenuItem) => MatchesSearch(item, query) && TimeOutCategory(category, item);
    Seqs.FilterMeans(items, keep);
    Seqs.Filter(items, keep)
  }

  // ---- Properties ----

  /** On every screen, `all` (and any category the screen does not know) keeps exactly the search matches. */
  lemma AllIsSearch(items: seq<MenuItem>, query: string)
    ensures MainCafeMenu(items, "all", query) == SearchResults(items, query)
    ensures FoodCourtMenu(items, "all", query) == SearchResults(items, query)
    ensures TimeOutMenu(items, "all", query) == SearchResults(items, query)
  {
    var search := (item: MenuItem) => MatchesSearch(item, query);
    Seqs.FilterAgree(items, (item: MenuItem) => MatchesSearch(item, query) && MainCafeCategory("all", item), search);
    Seqs.FilterAgree(items, (item: MenuItem) => MatchesSearch(item, query) && FoodCourtCategory("all", item), search);
    Seqs.FilterAgree(items, (item: MenuItem) => MatchesSearch(item, query) && TimeOutCategory("all", item), search);
  }

  /** A category list is the search results narrowed by the category rule, so it never shows a non-match. */
  lemma CategoryNarrowsSearch(items: seq<MenuItem>, category: string, query: string)
    ensures MainCafeMenu(items, category, query) ==
      Seqs.Filter(SearchResults(items, query), (item: MenuItem) => MainCafeCategory(category, item))
    ensures FoodCourtMenu(items, category, query) ==
      Seqs.Filter(SearchResults(items, query), (item: MenuItem) => FoodCourtCategory(category, item))
    ensures TimeOutMenu(items, category, query) ==
      Seqs.Filter(SearchResults(items, query), (item: MenuItem) => TimeOutCategory(category, item))
  {
    var search := (item: MenuItem) => MatchesSearch(item, query);
    Seqs.FilterFilter(items, search, (item: MenuItem) => MainCafeCategory(category, item),
      (item: MenuItem) => MatchesSearch(item, query) && MainCafeCategory(category, item));
    Seqs.FilterFilter(items, search, (item: MenuItem) => FoodCourtCategory(category, item),
      (item: MenuItem) => MatchesSearch(item, query) && FoodCourtCategory(category, item));
    Seqs.FilterFilter(items, search, (item: MenuItem) => TimeOutCategory(category, item),
      (item: MenuItem) => MatchesSearch(item, query) && TimeOutCategory(category, item));
  }

  /** Main Cafe `rice`: the search matches whose name includes "rice" but neither "fried rice" nor "biriyani". */
  lemma RiceCategory(items: seq<MenuItem>, query: string)
    ensures forall x :: x in MainCafeMenu(items, "rice", query) <==>
      x in items && MatchesSearch(x, query) &&
      NameHas(x, "rice") && !NameHas(x, "fried rice") && !NameHas(x, "biriyani")
  {
    Seqs.FilterMembers(items, (item: MenuItem) => MatchesSearch(item, query) && MainCafeCategory("rice", item));
  }

  /** Main Cafe `rice` and `biriyani` never show the same item. */
  lemma RiceAndBiriyaniDisjoint(items: seq<MenuItem>, query: string)
    ensures forall x :: !(x in MainCafeMenu(items, "rice", query) && x in MainCafeMenu(items, "biriyani", query))
  {
    RiceCategory(items, query);
  }

  /** Food Court `pastries`: the search matches whose name includes "pastry" or "slice". */
  lemma PastriesCategory(items: seq<MenuItem>, query: string)
    ensures forall x :: x in FoodCourtMenu(items, "pastries", query) <==>
      x in items && MatchesSearch(x, query) && (NameHas(x, "pastry") || NameHas(x, "slice"))
  {
    Seqs.FilterMembers(items, (item: MenuItem) => MatchesSearch(item, query) && FoodCourtCategory("pastries", item));
  }

  /** Food Court `indian`: the search matches whose name includes "gulab" or "rasgulla". */
  lemma IndianCategory(items: seq<MenuItem>, query: string)
    ensures forall x :: x in FoodCourtMenu(items, "indian", query) <==>
      x in items && MatchesSearch(x, query) && (NameHas(x, "gulab") || NameHas(x, "rasgulla"))
  {
    Seqs.FilterMembers(items, (item: MenuItem) => MatchesSearch(item, query) && FoodCourtCategory("indian", item));
  }

  /** Time Out `snacks`: the search matches whose name includes one of patties, fritters, cutlet, roll, fry. */
  lemma SnacksCategory(items: seq<MenuItem>, query: string)
    ensures forall x :: x in TimeOutMenu(items, "snacks", query) <==>
      x in items && MatchesSearch(x, query) &&
      (NameHas(x, "patties") || NameHas(x, "fritters") || NameHas(x, "cutlet") || NameHas(x, "roll") || NameHas(x, "fry"))
  {
    Seqs.FilterMembers(items, (item: MenuItem) => MatchesSearch(item, query) && TimeOutCategory("snacks", item));
  }

  /** Time Out `burgers`: the search matches whose name includes "burger". */
  lemma BurgersCategory(items: seq<MenuItem>, query: string)
    ensures forall x :: x in TimeOutMenu(items, "burgers", query) <==>
      x in items && MatchesSearch(x, query) && NameHas(x, "burger")
  {
    Seqs.FilterMembers(items, (item: MenuItem) => MatchesSearch(item, query) && TimeOutCategory("burgers", item));
  }

  /** The empty query matches every name, so `all` with an empty search shows the whole menu. */
  lemma EmptySearchShowsAll(items: seq<MenuItem>)
    ensures MainCafeMenu(items, "all", "") == items
  {
    AllIsSearch(items, "");
    Seqs.FilterKeepsAll(items, (item: MenuItem) => MatchesSearch(item, ""));
  }
}

/** The search filter of `src/components/Product/ProductPageContent.tsx`:
    a case-insensitive, trimmed substring match over a product's name,
    description and category, and the result count the page shows. */
module Catalog {
  import opened Text
  import opened Seqs
  import opened Products

  /** `searchQuery.toLowerCase().trim()`. */
  function NormalizeQuery(searchQuery: string): string {
    Trim(Lower(searchQuery))
  }

  /** The product mentions `query` in its lower-cased name, description or
      category. */
  predicate Matches(query: string, p: Product) {
    || Contains(Lower(p.name), query)
    || Contains(Lower(p.description), query)
    || Contains(Lower(p.category), query)
  }

  function MatchesQuery(query: string): Product -> bool {
    p => Matches(query, p)
  }

  /** `filteredProducts`: all products for a blank query, otherwise exactly
      the matching ones. */
  function FilterProducts(products: seq<Product>, searchQuery: string): (r: seq<Product>)
    ensures NormalizeQuery(searchQuery) == "" ==> r == products
    ensures NormalizeQuery(searchQuery) != "" ==>
      forall i :: 0 <= i < |r| ==> Matches(NormalizeQuery(searchQuery), r[i])
    ensures forall i :: 0 <= i < |products| && Matches(NormalizeQuery(searchQuery), products[i]) ==> products[i] in r
    ensures forall p :: p in r ==> p in products
    ensures forall p :: p in products ==>
      multiset(r)[p] == if NormalizeQuery(searchQuery) == "" || Matches(NormalizeQuery(searchQuery), p)
                        then multiset(products)[p] else 0
  {
    var query := NormalizeQuery(searchQuery);
    if query == "" then products
    else
      FilterCounts(products, MatchesQuery(query));
      Filter(products, MatchesQuery(query))
  }

  /** The result keeps the input's order. */
  lemma FilterKeepsOrder(products: seq<Product>, searchQuery: string)
    ensures IsSubsequence(FilterProducts(products, searchQuery), products)
  {
    var query := NormalizeQuery(searchQuery);
    if query != "" {
      FilterIsSubsequence(products, MatchesQuery(query));
    } else {
      SubsequenceOfItself(products);
    }
  }

  lemma {:induction false} SubsequenceOfItself(s: seq<Product>)
    ensures IsSubsequence(s, s)
  {
    if s != [] {
      SubsequenceOfItself(s[1..]);
    }
  }

  /** Filtering the result again with the same query changes nothing. */
  lemma FilterTwice(products: seq<Product>, searchQuery: string)
    ensures FilterProducts(FilterProducts(products, searchQuery), searchQuery) == FilterProducts(products, searchQuery)
  {
    var query := NormalizeQuery(searchQuery);
    if query != "" {
      FilterIdempotent(products, MatchesQuery(query));
    }
  }

  /** Letter case and surrounding white space of the query do not matter. */
  lemma QueryCaseAndSpaceIrrelevant(products: seq<Product>, q: string, w1: string, w2: string)
    requires AllWhiteSpace(w1) && AllWhiteSpace(w2)
    ensures FilterProducts(products, w1 + Lower(q) + w2) == FilterProducts(products, q)
  {
    NormalizeIgnoresCaseAndSpace(q, w1, w2);
  }

  lemma NormalizeIgnoresCaseAndSpace(q: string, w1: string, w2: string)
    requires AllWhiteSpace(w1) && AllWhiteSpace(w2)
    ensures NormalizeQuery(w1 + Lower(q) + w2) == NormalizeQuery(q)
  {
    var lq := Lower(q);
    LowerAppend(w1 + lq, w2);
    LowerAppend(w1, lq);
    LowerWhiteSpace(w1);
    LowerWhiteSpace(w2);
    LowerIdempotent(q);
    assert Lower(w1 + lq + w2) == w1 + lq + w2;
    TrimIgnoresSurroundingWhiteSpace(w1, lq, w2);
  }

  /** The status line above the list: the count, then the raw query in
      quotes when one was typed. */
  function StatusLine(t: string -> string, searchQuery: string, count: nat): (r: string)
    ensures StartsWith(r, t("search.showing") + " " + NatToString(count) + " " + t("search.products"))
    ensures searchQuery == "" <==> r == t("search.showing") + " " + NatToString(count) + " " + t("search.products")
  {
    var head := t("search.showing") + " " + NatToString(count) + " " + t("search.products");
    if searchQuery != "" then
      var tail := " " + t("search.for") + " \"" + searchQuery + "\"";
      assert head + " " + t("search.for") + " \"" + searchQuery + "\"" == head + tail;
      assert (head + tail)[..|head|] == head;
      assert |head + tail| > |head|;
      head + tail
    else head
  }

  /** The page: the products it was given and the query typed so far. */
  class ProductPage {
    const initialProducts: seq<Product>
    var searchQuery: string

    constructor (initialProducts: seq<Product>)
      ensures this.initialProducts == initialProducts && searchQuery == ""
    {
      this.initialProducts := initialProducts;
      searchQuery := "";
    }

    /** `handleSearch`: the search box reports a new query. */
    method HandleSearch(query: string)
      modifies this
      ensures searchQuery == query
    {
      searchQuery := query;
    }

    function FilteredProducts(): seq<Product>
      reads this
    {
      FilterProducts(initialProducts, searchQuery)
    }

    /** The status line counts the products shown; `t` is the current
        translation function from the language context. */
    function Status(t: string -> string): string
      reads this
    {
      StatusLine(t, searchQuery, |FilteredProducts()|)
    }
  }

  /** The status line shows the count it is given, and ends in the query
      in quotes when the raw query is non-empty. */
  lemma StatusShowsCountAndQuery(t: string -> string, searchQuery: string, count: nat)
    ensures Contains(StatusLine(t, searchQuery, count), " " + NatToString(count) + " ")
    ensures searchQuery != "" ==> EndsWith(StatusLine(t, searchQuery, count), "\"" + searchQuery + "\"")
  {
    var a, mid, b := t("search.showing"), " " + NatToString(count) + " ", t("search.products");
    var line := StatusLine(t, searchQuery, count);
    assert a + " " + NatToString(count) + " " + b == a + mid + b;
    ContainsInPrefix(line, a, mid, b);
    if searchQuery != "" {
      var quoted := "\"" + searchQuery + "\"";
      var x := a + mid + b + " " + t("search.for") + " ";
      assert line == x + quoted;
      assert (x + quoted)[|x|..] == quoted;
    }
  }

  /** The page's status line shows how many products are listed. */
  lemma StatusCountsShownProducts(page: ProductPage, t: string -> string)
    ensures Contains(page.Status(t), " " + NatToString(|page.FilteredProducts()|) + " ")
  {
    StatusShowsCountAndQuery(t, page.searchQuery, |page.FilteredProducts()|);
  }

  /** The number in the page's status line is the number of products
      listed: the line opens with `<showing> <count> <products>`. */
  lemma StatusOpensWithCount(page: ProductPage, t: string -> string)
    ensures StartsWith(page.Status(t),
      t("search.showing") + " " + NatToString(|page.FilteredProducts()|) + " " + t("search.products"))
  {
    assert page.Status(t) == StatusLine(t, page.searchQuery, |page.FilteredProducts()|);
  }

  /** A query of white space alone shows every product, yet the status line
      still quotes it. */
  lemma BlankQueryShowsEverything(products: seq<Product>, t: string -> string, w: string)
    requires AllWhiteSpace(w) && w != ""
    ensures FilterProducts(products, w) == products
    ensures EndsWith(StatusLine(t, w, |products|), "\"" + w + "\"")
  {
    LowerWhiteSpace(w);
    TrimIgnoresSurroundingWhiteSpace(w, "", "");
    assert w + "" + "" == w;
    StatusShowsCountAndQuery(t, w, |products|);
  }
}

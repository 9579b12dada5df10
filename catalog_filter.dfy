/** The catalog page's filtering (src/pages/ProductsPage.tsx): the category
    list it offers, the products it shows for the current search, category
    and price range, and the reset of those inputs. */
module CatalogFilter {
  import opened Types
  import opened Seqs
  import Routes

  /** `toLowerCase` on one character: 'A'..'Z' become 'a'..'z'. */
  function LowerChar(c: char): char
  {
    if 'A' <= c <= 'Z' then (c as int + 32) as char else c
  }

  /** `toLowerCase`, character by character. */
  function Lower(s: string): (r: string)
    ensures |r| == |s|
    ensures forall i :: 0 <= i < |s| ==> r[i] == LowerChar(s[i])
  {
    if s == [] then []
    else [LowerChar(s[0])] + Lower(s[1..])
  }

  /** Lower-casing twice is lower-casing once. */
  lemma LowerIdempotent(s: string)
    ensures Lower(Lower(s)) == Lower(s)
  {
    assert forall i :: 0 <= i < |s| ==> Lower(Lower(s))[i] == Lower(s)[i];
  }

  predicate StartsWith(s: string, prefix: string)
  {
    |prefix| <= |s| && s[..|prefix|] == prefix
  }

  /** `hay.includes(needle)` */
  predicate Contains(hay: string, needle: string)
  {
    StartsWith(hay, needle) || (hay != [] && Contains(hay[1..], needle))
  }

  /** `needle` occurs in `hay` starting at position `i`. */
  predicate OccursAt(hay: string, needle: string, i: int)
  {
    0 <= i && i + |needle| <= |hay| && hay[i..i + |needle|] == needle
  }

  /** `includes` holds exactly when the needle occurs at some position. */
  lemma {:induction false} ContainsIffOccurs(hay: string, needle: string)
    ensures Contains(hay, needle) <==> exists i :: OccursAt(hay, needle, i)
  {
    if Contains(hay, needle) {
      if StartsWith(hay, needle) {
        assert OccursAt(hay, needle, 0);
      } else {
        ContainsIffOccurs(hay[1..], needle);
        var i :| OccursAt(hay[1..], needle, i);
        assert hay[1..][i..i + |needle|] == hay[i + 1..i + 1 + |needle|];
        assert OccursAt(hay, needle, i + 1);
      }
    }
    if exists i :: OccursAt(hay, needle, i) {
      var i :| OccursAt(hay, needle, i);
      if i == 0 {
        assert StartsWith(hay, needle);
      } else {
        assert hay[1..][i - 1..i - 1 + |needle|] == hay[i..i + |needle|];
        assert OccursAt(hay[1..], needle, i - 1);
        ContainsIffOccurs(hay[1..], needle);
      }
    }
  }

  /** The filter inputs: `searchTerm`, `selectedCategory`, `priceRange`. */
  datatype Query = Query(search: string, category: string, minPrice: int, maxPrice: int)

  /** The inputs the page starts with. */
  const InitialQuery := Query("", "", 0, 1000)

  /** The test `filteredProducts` applies to one product. */
  predicate Matches(q: Query, p: Product)
  {
    var term := Lower(q.search);
    && (Contains(Lower(p.title), term) || Contains(Lower(p.description), term))
    && (q.category == "" || p.category == q.category)
    && q.minPrice as real <= p.price <= q.maxPrice as real
  }

  function MatchesQuery(q: Query): Product -> bool
  {
    (p: Product) => Matches(q, p)
  }

  /** `filteredProducts` */
  function Filtered(ps: seq<Product>, q: Query): seq<Product>
  {
    Filter(ps, MatchesQuery(q))
  }

  /** The "Reset Filters" handler: every input back to its initial value. */
  function Reset(q: Query): Query
  {
    Query("", "", 0, 1000)
  }

  /** The add-to-cart action is handed to the product cards only for a customer. */
  predicate OffersAddToCart(user: Option<User>)
  {
    user.Some? && user.value.role == Customer
  }

  /** The shown products are the catalog's products that pass the test, in
      catalog order: a product is shown exactly when its title or description
      contains the search term (both lower-cased), the category is unset or
      equal, and its price lies within the range; each shown product appears
      as often as in the catalog. */
  lemma FilteredSpec(ps: seq<Product>, q: Query)
    ensures IsSubsequence(Filtered(ps, q), ps)
    ensures forall p :: p in Filtered(ps, q) <==> p in ps && Matches(q, p)
    ensures forall p :: multiset(Filtered(ps, q))[p] == if Matches(q, p) then multiset(ps)[p] else 0
  {
    FilterCounts(ps, MatchesQuery(q));
    FilterIsSubsequence(ps, MatchesQuery(q));
    forall p ensures p in Filtered(ps, q) <==> p in ps && Matches(q, p) {
      FilterMembership(ps, MatchesQuery(q), p);
    }
  }

  /** The search ignores case: two search terms that agree after
      lower-casing show the same products, and so do a product's title and
      description written in any mix of cases. */
  lemma SearchIgnoresCase(q: Query, term: string, p: Product)
    requires Lower(term) == Lower(q.search)
    ensures Matches(q.(search := term), p) == Matches(q, p)
    ensures Matches(q, p.(title := Lower(p.title), description := Lower(p.description))) == Matches(q, p)
  {
    LowerIdempotent(p.title);
    LowerIdempotent(p.description);
  }

  /** With the initial (or reset) inputs exactly the products priced in
      [0, 1000] are shown. */
  lemma ResetShowsPriceBand(ps: seq<Product>, q: Query)
    ensures Reset(q) == InitialQuery
    ensures Filtered(ps, Reset(q)) == Filter(ps, (p: Product) => 0.0 <= p.price <= 1000.0)
  {
    var band := (p: Product) => 0.0 <= p.price <= 1000.0;
    forall i | 0 <= i < |ps| ensures MatchesQuery(Reset(q))(ps[i]) == band(ps[i]) {
      assert Contains(Lower(ps[i].title), Lower("")) by {
        assert StartsWith(Lower(ps[i].title), "");
      }
    }
    FilterCongruent(ps, MatchesQuery(Reset(q)), band);
  }

  /** A range whose minimum exceeds its maximum shows nothing. */
  lemma EmptyRangeShowsNothing(ps: seq<Product>, q: Query)
    requires q.minPrice > q.maxPrice
    ensures Filtered(ps, q) == []
  {
    FilterKeepsNone(ps, MatchesQuery(q));
  }

  /** Choosing a category, starting from none, only ever removes products. */
  lemma CategoryNarrows(ps: seq<Product>, q: Query, category: string)
    requires q.category == ""
    ensures forall p :: p in Filtered(ps, q.(category := category)) ==> p in Filtered(ps, q)
  {
    FilteredSpec(ps, q);
    FilteredSpec(ps, q.(category := category));
  }

  /** Filtering the shown list again with the same inputs changes nothing. */
  lemma FilteredIdempotent(ps: seq<Product>, q: Query)
    ensures Filtered(Filtered(ps, q), q) == Filtered(ps, q)
  {
    FilterIdempotent(ps, MatchesQuery(q));
  }

  /** Index of the first product of category `c`; `|ps|` when there is none. */
  function FirstOccurrence(ps: seq<Product>, c: string): (r: nat)
    ensures r <= |ps|
    ensures r < |ps| ==> ps[r].category == c
    ensures forall j :: 0 <= j < r ==> ps[j].category != c
  {
    if ps == [] then 0
    else if ps[0].category == c then 0
    else 1 + FirstOccurrence(ps[1..], c)
  }

  predicate HasCategory(ps: seq<Product>, c: string)
  {
    exists i :: 0 <= i < |ps| && ps[i].category == c
  }

  lemma FirstOccurrenceOfPrefix(ps: seq<Product>, n: nat, c: string)
    requires n <= |ps| && FirstOccurrence(ps[..n], c) < n
    ensures FirstOccurrence(ps, c) == FirstOccurrence(ps[..n], c)
  {
    var k := FirstOccurrence(ps[..n], c);
    var m := FirstOccurrence(ps, c);
    assert ps[..n][k] == ps[k];
  }

  /** `cs` lists each category of `ps` once, exactly those that occur, in
      order of first occurrence. */
  ghost predicate CategoryListOf(ps: seq<Product>, cs: seq<string>)
  {
    && (forall i, j :: 0 <= i < j < |cs| ==> cs[i] != cs[j])
    && (forall c :: c in cs <==> HasCategory(ps, c))
    && (forall i, j :: 0 <= i < j < |cs| ==> FirstOccurrence(ps, cs[i]) < FirstOccurrence(ps, cs[j]))
  }

  /** `Array.from(new Set(products.map(p => p.category)))` */
  function Categories(ps: seq<Product>): (cs: seq<string>)
    ensures CategoryListOf(ps, cs)
  {
    if ps == [] then []
    else
      var seen := Categories(ps[..|ps| - 1]);
      var c := ps[|ps| - 1].category;
      CategoriesStep(ps, seen);
      if c in seen then seen else seen + [c]
  }

  /** One more product: its category is added unless already listed. */
  lemma CategoriesStep(ps: seq<Product>, seen: seq<string>)
    requires ps != [] && CategoryListOf(ps[..|ps| - 1], seen)
    ensures var c := ps[|ps| - 1].category;
      CategoryListOf(ps, if c in seen then seen else seen + [c])
  {
    var n := |ps| - 1;
    var init := ps[..n];
    var c := ps[n].category;
    forall d ensures HasCategory(ps, d) <==> HasCategory(init, d) || d == c {
      if HasCategory(init, d) {
        var i :| 0 <= i < |init| && init[i].category == d;
        assert ps[i] == init[i];
      }
      if HasCategory(ps, d) && d != c {
        var i :| 0 <= i < |ps| && ps[i].category == d;
        assert init[i] == ps[i];
      }
    }
    forall k | 0 <= k < |seen| ensures FirstOccurrence(ps, seen[k]) == FirstOccurrence(init, seen[k]) < n {
      assert seen[k] in seen;
      FirstOccurrenceOfPrefix(ps, n, seen[k]);
    }
    if c !in seen {
      assert !HasCategory(init, c);
      assert FirstOccurrence(ps, c) == n;
      var cs := seen + [c];
      forall i, j | 0 <= i < j < |cs| ensures FirstOccurrence(ps, cs[i]) < FirstOccurrence(ps, cs[j]) {
        if j == |seen| {
          assert cs[i] == seen[i];
        } else {
          assert cs[i] == seen[i] && cs[j] == seen[j];
        }
      }
    }
  }

  /** The users handed the add-to-cart action are exactly those the
      customer dashboard admits. */
  lemma AddToCartMatchesCustomerRoute(user: Option<User>)
    ensures OffersAddToCart(user) <==> Routes.Admission(Routes.CustomerDashboard, user) == Routes.Render
  {
  }
}

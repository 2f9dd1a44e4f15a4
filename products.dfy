/** The product catalog: the shared filter of the listing and the count,
    paging, lookup by id, and the administrator-only create, update and
    delete handlers. */
module Catalog {
  import opened Types
  import opened Db
  import opened Schemas
  import opened Paging

  /** Role that require_admin accepts. */
  const Admin: string := "admin"

  /** The optional query parameters shared by the listing and the count.
      Prices are in cents. */
  datatype ProductFilter = ProductFilter(
    search: Option<string>,
    category: Option<string>,
    brand: Option<string>,
    priceMin: Option<int>,
    priceMax: Option<int>)

  /** A text parameter filters only when it is present and non-empty. */
  predicate Given(s: Option<string>) {
    s.Some? && s.value != []
  }

  function LowerChar(c: char): char {
    if 'A' <= c <= 'Z' then (c as int + 32) as char else c
  }

  /** ASCII lower-casing, character by character. */
  function Lower(s: string): (r: string)
    ensures |r| == |s| && forall i :: 0 <= i < |s| ==> r[i] == LowerChar(s[i])
  {
    seq(|s|, i requires 0 <= i < |s| => LowerChar(s[i]))
  }

  /** Whether `p` occurs in `s`, scanning start positions from the left. */
  function Contains(s: string, p: string): bool
    decreases |s|
  {
    if |p| > |s| then false
    else s[..|p|] == p || (s != [] && Contains(s[1..], p))
  }

  /** `p` occurs in `s` starting at position `i`. */
  predicate OccursAt(s: string, p: string, i: int) {
    0 <= i && i + |p| <= |s| && s[i..i + |p|] == p
  }

  /** What `Contains` accepts occurs somewhere. */
  lemma {:induction false} ContainsFound(s: string, p: string)
    requires Contains(s, p)
    ensures exists i :: OccursAt(s, p, i)
    decreases |s|
  {
    if s[..|p|] == p {
      assert OccursAt(s, p, 0);
    } else {
      ContainsFound(s[1..], p);
      var i :| OccursAt(s[1..], p, i);
      assert s[i + 1..i + 1 + |p|] == s[1..][i..i + |p|];
      assert OccursAt(s, p, i + 1);
    }
  }

  /** Every occurrence is found by `Contains`. */
  lemma {:induction false} OccurrenceFound(s: string, p: string, i: int)
    requires OccursAt(s, p, i)
    ensures Contains(s, p)
    decreases i
  {
    if i > 0 {
      assert s[1..][i - 1..i - 1 + |p|] == s[i..i + |p|];
      OccurrenceFound(s[1..], p, i - 1);
    }
  }

  /** `Contains` finds exactly the contiguous occurrences. */
  lemma ContainsMeaning(s: string, p: string)
    ensures Contains(s, p) <==> exists i :: OccursAt(s, p, i)
  {
    if Contains(s, p) {
      ContainsFound(s, p);
    }
    if i :| OccursAt(s, p, i) {
      OccurrenceFound(s, p, i);
    }
  }

  /** `text ILIKE '%term%'`: case-insensitive substring match. */
  predicate ILike(text: string, term: string) {
    Contains(Lower(text), Lower(term))
  }

  /** Lower-casing twice is lower-casing once. */
  lemma LowerIdempotent(s: string)
    ensures Lower(Lower(s)) == Lower(s)
  {
    forall i | 0 <= i < |s|
      ensures Lower(Lower(s))[i] == Lower(s)[i]
    {
      assert Lower(s)[i] == LowerChar(s[i]);
    }
  }

  /** The search ignores the case of both the text and the term. */
  lemma ILikeIgnoresCase(text: string, term: string)
    ensures ILike(text, Lower(term)) == ILike(text, term)
    ensures ILike(Lower(text), term) == ILike(text, term)
  {
    LowerIdempotent(text);
    LowerIdempotent(term);
  }

  /** The search condition: the name matches, or a description is present and matches. */
  predicate SearchHit(p: Product, term: string) {
    ILike(p.name, term) || (p.description.Some? && ILike(p.description.value, term))
  }

  /** A product passes the filter: every given condition holds; price bounds are inclusive. */
  predicate Matches(f: ProductFilter, p: Product) {
    && (Given(f.search) ==> SearchHit(p, f.search.value))
    && (Given(f.category) ==> p.category == f.category.value)
    && (Given(f.brand) ==> p.brand == f.brand.value)
    && (f.priceMin.Some? ==> p.price >= f.priceMin.value)
    && (f.priceMax.Some? ==> p.price <= f.priceMax.value)
  }

  /** The products of `rows` that pass the filter, in their order. */
  function Select(rows: seq<Product>, f: ProductFilter): (r: seq<Product>)
    ensures forall p :: p in r <==> p in rows && Matches(f, p)
    decreases |rows|
  {
    if rows == [] then []
    else
      var n := |rows| - 1;
      assert forall p :: p in rows <==> p in rows[..n] || p == rows[n];
      if Matches(f, rows[n]) then Select(rows[..n], f) + [rows[n]] else Select(rows[..n], f)
  }

  /** One `query.filter(...)` condition. */
  datatype Condition =
    | SearchFor(term: string)
    | CategoryIs(category: string)
    | BrandIs(brand: string)
    | PriceAtLeast(min: int)
    | PriceAtMost(max: int)

  predicate Holds(c: Condition, p: Product) {
    match c
    case SearchFor(term) => SearchHit(p, term)
    case CategoryIs(category) => p.category == category
    case BrandIs(brand) => p.brand == brand
    case PriceAtLeast(min) => p.price >= min
    case PriceAtMost(max) => p.price <= max
  }

  /** `query.filter(c)`: the rows that satisfy `c`, in their order. */
  function Where(rows: seq<Product>, c: Condition): (r: seq<Product>)
    ensures |r| <= |rows|
    ensures forall p :: p in r <==> p in rows && Holds(c, p)
    decreases |rows|
  {
    if rows == [] then []
    else
      var n := |rows| - 1;
      assert forall p :: p in rows <==> p in rows[..n] || p == rows[n];
      if Holds(c, rows[n]) then Where(rows[..n], c) + [rows[n]] else Where(rows[..n], c)
  }

  /** _apply_product_filters: each given parameter adds one condition to the query. */
  function ApplyProductFilters(rows: seq<Product>, f: ProductFilter): (r: seq<Product>)
    ensures |r| <= |rows|
    ensures forall p :: p in r <==> p in rows && Matches(f, p)
  {
    var q1 := if Given(f.search) then Where(rows, SearchFor(f.search.value)) else rows;
    var q2 := if Given(f.category) then Where(q1, CategoryIs(f.category.value)) else q1;
    var q3 := if Given(f.brand) then Where(q2, BrandIs(f.brand.value)) else q2;
    var q4 := if f.priceMin.Some? then Where(q3, PriceAtLeast(f.priceMin.value)) else q3;
    if f.priceMax.Some? then Where(q4, PriceAtMost(f.priceMax.value)) else q4
  }

  /** The conditions the query has accumulated: all of them hold. */
  predicate HoldsAll(cs: seq<Condition>, p: Product) {
    forall i :: 0 <= i < |cs| ==> Holds(cs[i], p)
  }

  /** The rows of `rows` that satisfy every condition of `cs`, in their order. */
  function WhereAll(rows: seq<Product>, cs: seq<Condition>): seq<Product>
    decreases |rows|
  {
    if rows == [] then []
    else
      var n := |rows| - 1;
      if HoldsAll(cs, rows[n]) then WhereAll(rows[..n], cs) + [rows[n]] else WhereAll(rows[..n], cs)
  }

  lemma HoldsAllAppend(cs: seq<Condition>, c: Condition, p: Product)
    ensures HoldsAll(cs + [c], p) <==> HoldsAll(cs, p) && Holds(c, p)
  {
    var more := cs + [c];
    assert more[|cs|] == c;
    assert forall i :: 0 <= i < |cs| ==> more[i] == cs[i];
  }

  /** The condition list with `c` appended when `given`. */
  function AddIf(cs: seq<Condition>, given: bool, c: Condition): seq<Condition> {
    if given then cs + [c] else cs
  }

  /** The conditions _apply_product_filters adds, in the order it adds them. */
  function Conditions(f: ProductFilter): seq<Condition> {
    var c1 := AddIf([], Given(f.search), SearchFor(f.search.GetOr([])));
    var c2 := AddIf(c1, Given(f.category), CategoryIs(f.category.GetOr([])));
    var c3 := AddIf(c2, Given(f.brand), BrandIs(f.brand.GetOr([])));
    var c4 := AddIf(c3, f.priceMin.Some?, PriceAtLeast(f.priceMin.GetOr(0)));
    AddIf(c4, f.priceMax.Some?, PriceAtMost(f.priceMax.GetOr(0)))
  }

  /** A product satisfies the accumulated conditions exactly when it matches the filter. */
  lemma ConditionsMeaning(f: ProductFilter, p: Product)
    ensures HoldsAll(Conditions(f), p) <==> Matches(f, p)
  {
    var c1 := AddIf([], Given(f.search), SearchFor(f.search.GetOr([])));
    var c2 := AddIf(c1, Given(f.category), CategoryIs(f.category.GetOr([])));
    var c3 := AddIf(c2, Given(f.brand), BrandIs(f.brand.GetOr([])));
    var c4 := AddIf(c3, f.priceMin.Some?, PriceAtLeast(f.priceMin.GetOr(0)));
    HoldsAllAppend([], SearchFor(f.search.GetOr([])), p);
    HoldsAllAppend(c1, CategoryIs(f.category.GetOr([])), p);
    HoldsAllAppend(c2, BrandIs(f.brand.GetOr([])), p);
    HoldsAllAppend(c3, PriceAtLeast(f.priceMin.GetOr(0)), p);
    HoldsAllAppend(c4, PriceAtMost(f.priceMax.GetOr(0)), p);
  }

  /** With no condition the query returns every row. */
  lemma {:induction false} WhereNothing(rows: seq<Product>)
    ensures WhereAll(rows, []) == rows
    decreases |rows|
  {
    if rows != [] {
      WhereNothing(rows[..|rows| - 1]);
      assert rows[..|rows| - 1] + [rows[|rows| - 1]] == rows;
    }
  }

  /** Adding one more filter to a query narrows it to the rows that also satisfy the new condition. */
  lemma {:induction false} WhereMore(rows: seq<Product>, cs: seq<Condition>, c: Condition)
    ensures Where(WhereAll(rows, cs), c) == WhereAll(rows, cs + [c])
    decreases |rows|
  {
    if rows != [] {
      var n := |rows| - 1;
      WhereMore(rows[..n], cs, c);
      var inner := WhereAll(rows[..n], cs);
      HoldsAllAppend(cs, c, rows[n]);
      if HoldsAll(cs, rows[n]) {
        assert (inner + [rows[n]])[..|inner|] == inner;
      }
    }
  }

  /** Optionally adding a condition. */
  lemma MaybeWhere(rows: seq<Product>, cs: seq<Condition>, given: bool, c: Condition)
    ensures (if given then Where(WhereAll(rows, cs), c) else WhereAll(rows, cs)) == WhereAll(rows, AddIf(cs, given, c))
  {
    if given {
      WhereMore(rows, cs, c);
    }
  }

  /** Two condition lists that agree on every product select the same rows as the filter. */
  lemma {:induction false} WhereAllSelects(rows: seq<Product>, cs: seq<Condition>, f: ProductFilter)
    requires forall p :: HoldsAll(cs, p) <==> Matches(f, p)
    ensures WhereAll(rows, cs) == Select(rows, f)
    decreases |rows|
  {
    if rows != [] {
      WhereAllSelects(rows[..|rows| - 1], cs, f);
    }
  }

  /** The chain of optional filters selects exactly the rows that match the
      whole filter, in their original order. */
  lemma FiltersAreConjunction(rows: seq<Product>, f: ProductFilter)
    ensures ApplyProductFilters(rows, f) == Select(rows, f)
  {
    var c1 := AddIf([], Given(f.search), SearchFor(f.search.GetOr([])));
    var c2 := AddIf(c1, Given(f.category), CategoryIs(f.category.GetOr([])));
    var c3 := AddIf(c2, Given(f.brand), BrandIs(f.brand.GetOr([])));
    var c4 := AddIf(c3, f.priceMin.Some?, PriceAtLeast(f.priceMin.GetOr(0)));
    WhereNothing(rows);
    MaybeWhere(rows, [], Given(f.search), SearchFor(f.search.GetOr([])));
    MaybeWhere(rows, c1, Given(f.category), CategoryIs(f.category.GetOr([])));
    MaybeWhere(rows, c2, Given(f.brand), BrandIs(f.brand.GetOr([])));
    MaybeWhere(rows, c3, f.priceMin.Some?, PriceAtLeast(f.priceMin.GetOr(0)));
    MaybeWhere(rows, c4, f.priceMax.Some?, PriceAtMost(f.priceMax.GetOr(0)));
    forall p ensures HoldsAll(Conditions(f), p) <==> Matches(f, p) {
      ConditionsMeaning(f, p);
    }
    WhereAllSelects(rows, Conditions(f), f);
  }

  /** get_productos: one page of the filtered rows. */
  function ListProducts(rows: seq<Product>, f: ProductFilter, page: nat, limit: nat): (r: seq<Product>)
    requires page >= 1 && 1 <= limit <= 100
    ensures |r| <= limit
    ensures forall p :: p in r ==> p in rows && Matches(f, p)
  {
    FiltersAreConjunction(rows, f);
    var r := Page(ApplyProductFilters(rows, f), page, limit);
    assert forall k :: 0 <= k < |r| ==> r[k] in Select(rows, f);
    r
  }

  /** get_productos_count: the size of the same filtered query. */
  function CountProducts(rows: seq<Product>, f: ProductFilter): (r: nat)
    ensures r <= |rows|
    ensures r == 0 <==> forall k :: 0 <= k < |rows| ==> !Matches(f, rows[k])
  {
    var q := ApplyProductFilters(rows, f);
    assert q != [] ==> q[0] in q;
    |q|
  }

  /** The count and the listing agree: each of the `CountProducts` matching
      rows appears on its page, and pages past the count are empty. */
  lemma CountCoversPages(rows: seq<Product>, f: ProductFilter, page: nat, limit: nat)
    requires page >= 1 && 1 <= limit <= 100
    ensures Skip(page, limit) >= CountProducts(rows, f) <==> ListProducts(rows, f, page, limit) == []
    ensures forall j :: 0 <= j < CountProducts(rows, f) ==>
              SlotOf(j, limit) < |ListProducts(rows, f, PageOf(j, limit), limit)| &&
              ListProducts(rows, f, PageOf(j, limit), limit)[SlotOf(j, limit)] == ApplyProductFilters(rows, f)[j]
  {
    forall j | 0 <= j < CountProducts(rows, f)
      ensures SlotOf(j, limit) < |ListProducts(rows, f, PageOf(j, limit), limit)| &&
              ListProducts(rows, f, PageOf(j, limit), limit)[SlotOf(j, limit)] == ApplyProductFilters(rows, f)[j]
    {
      OnItsPage(ApplyProductFilters(rows, f), j, limit);
    }
  }

  /** Each product appears at most once in `rows`, and `rows` lists exactly
      the products of the table: an enumeration of the table in some order. */
  ghost predicate Enumerates(rows: seq<Product>, products: map<nat, Product>) {
    && (forall i, j :: 0 <= i < j < |rows| ==> rows[i].id != rows[j].id)
    && (forall id :: id in products ==> products[id].id == id)
    && (forall p :: p in rows <==> p.id in products && products[p.id] == p)
  }

  /** The ids of the products in `rows`. */
  function Ids(rows: seq<Product>): set<nat> {
    set p | p in rows :: p.id
  }

  lemma {:induction false} DistinctIdsCount(rows: seq<Product>)
    requires forall i, j :: 0 <= i < j < |rows| ==> rows[i].id != rows[j].id
    ensures |Ids(rows)| == |rows|
    decreases |rows|
  {
    if rows != [] {
      var n := |rows| - 1;
      var prefix := rows[..n];
      DistinctIdsCount(prefix);
      assert Ids(rows) == Ids(prefix) + {rows[n].id} by {
        assert forall p :: p in rows <==> p in prefix || p == rows[n];
      }
      forall p | p in prefix ensures p.id != rows[n].id {
        var i :| 0 <= i < n && prefix[i] == p;
      }
    }
  }

  /** Filtering keeps ids distinct. */
  lemma {:induction false} SelectDistinct(rows: seq<Product>, f: ProductFilter)
    requires forall i, j :: 0 <= i < j < |rows| ==> rows[i].id != rows[j].id
    ensures forall i, j :: 0 <= i < j < |Select(rows, f)| ==> Select(rows, f)[i].id != Select(rows, f)[j].id
    decreases |rows|
  {
    if rows != [] {
      var n := |rows| - 1;
      SelectDistinct(rows[..n], f);
      var rest := Select(rows[..n], f);
      if Matches(f, rows[n]) {
        var r := rest + [rows[n]];
        forall i, j | 0 <= i < j < |r| ensures r[i].id != r[j].id {
          if j == |rest| {
            assert r[i] in rows[..n];
            var k :| 0 <= k < n && rows[..n][k] == r[i];
          } else {
            assert r[i] == rest[i] && r[j] == rest[j];
          }
        }
      }
    }
  }

  /** Whatever order the database returns the rows in, the count is the
      number of products of the table that match the filter. */
  lemma CountIsMatchingProducts(rows: seq<Product>, products: map<nat, Product>, f: ProductFilter)
    requires Enumerates(rows, products)
    ensures CountProducts(rows, f) == |set id | id in products && Matches(f, products[id])|
  {
    FiltersAreConjunction(rows, f);
    var r := Select(rows, f);
    SelectDistinct(rows, f);
    DistinctIdsCount(r);
    assert Ids(r) == set id | id in products && Matches(f, products[id]) by {
      forall id | id in products && Matches(f, products[id]) ensures id in Ids(r) {
        assert products[id] in rows;
        assert products[id] in r;
      }
    }
  }

  /** get_producto: 404 when no product has the id. */
  function GetProduct(products: map<nat, Product>, id: nat): (r: Result<Product>)
    ensures r.Err? <==> id !in products
    ensures r.Err? ==> r.error == ProductNotFound
    ensures r.Ok? ==> r.value == products[id]
  {
    if id in products then Ok(products[id]) else Err(ProductNotFound)
  }

  /** The payload fields of a product, as sent in a create or update body. */
  function Payload(p: Product): ProductInput {
    ProductInput(p.name, p.description, p.brand, p.category, p.price, p.stock, p.image)
  }

  /** The product a create body inserts, with its fresh id and insertion time. */
  function NewProduct(input: ProductInput, id: nat, at: nat): (r: Product)
    ensures Payload(r) == input && r.id == id && r.addedAt == at
  {
    Product(id, input.name, input.description, input.brand, input.category, input.price,
            input.stock, input.image, at)
  }

  /** The product after `setattr` of every payload field: the body replaces
      the whole payload (an omitted stock has already become 0), the id and
      the insertion time stay. */
  function Overwrite(p: Product, input: ProductInput): (r: Product)
    ensures Payload(r) == input && r.id == p.id && r.addedAt == p.addedAt
  {
    p.(name := input.name, description := input.description, brand := input.brand,
       category := input.category, price := input.price, stock := input.stock, image := input.image)
  }

  /** Writing back the old payload undoes an update. */
  lemma OverwriteUndone(p: Product, input: ProductInput)
    ensures Overwrite(Overwrite(p, input), Payload(p)) == p
  {
  }

  /** require_admin, applied before the handler runs. */
  function RequireAdmin(caller: User): (r: Option<Error>)
    ensures r.None? <==> caller.role == Admin
    ensures r.Some? ==> r.value == AdminRequired && Status(r.value) == 403
  {
    if caller.role == Admin then None else Some(AdminRequired)
  }

  /** create_producto. */
  method CreateProduct(db: Store, caller: User, input: ProductInput) returns (r: Result<Product>)
    requires db.Valid() && ValidProductInput(input)
    modifies db
    ensures db.Valid()
    ensures db.users == old(db.users) && db.carts == old(db.carts) && db.orders == old(db.orders)
    ensures db.messages == old(db.messages) && db.convs == old(db.convs)
    ensures RequireAdmin(caller).Some? ==> r == Err(AdminRequired) && unchanged(db)
    ensures RequireAdmin(caller).None? ==>
              var p := NewProduct(input, old(db.nextId), old(db.clock));
              && r == Ok(p)
              && old(db.nextId) !in old(db.products)
              && db.products == old(db.products)[p.id := p]
              && db.nextId == old(db.nextId) + 1 && db.clock == old(db.clock) + 1
  {
    var denied := RequireAdmin(caller);
    if denied.Some? {
      return Err(denied.value);
    }
    var p := NewProduct(input, db.nextId, db.clock);
    db.products := db.products[p.id := p];
    db.nextId := db.nextId + 1;
    db.clock := db.clock + 1;
    r := Ok(p);
  }

  /** update_producto: 403 for a non-administrator, then 404 for an unknown id. */
  method UpdateProduct(db: Store, caller: User, id: nat, input: ProductInput) returns (r: Result<Product>)
    requires db.Valid() && ValidProductInput(input)
    modifies db
    ensures db.Valid()
    ensures db.users == old(db.users) && db.carts == old(db.carts) && db.orders == old(db.orders)
    ensures db.messages == old(db.messages) && db.convs == old(db.convs)
    ensures db.nextId == old(db.nextId) && db.clock == old(db.clock)
    ensures RequireAdmin(caller).Some? ==> r == Err(AdminRequired) && unchanged(db)
    ensures RequireAdmin(caller).None? && id !in old(db.products) ==> r == Err(ProductNotFound) && unchanged(db)
    ensures RequireAdmin(caller).None? && id in old(db.products) ==>
              var p := Overwrite(old(db.products)[id], input);
              r == Ok(p) && db.products == old(db.products)[id := p]
  {
    var denied := RequireAdmin(caller);
    if denied.Some? {
      return Err(denied.value);
    }
    var found := GetProduct(db.products, id);
    if found.Err? {
      return Err(found.error);
    }
    var p := Overwrite(found.value, input);
    db.products := db.products[id := p];
    r := Ok(p);
  }

  /** Some order line refers to the product. `itemspedido.id_producto` is a
      NOT NULL foreign key and the product's relationship to its order lines
      has no delete cascade, so deleting the product would set those lines'
      product to NULL, which the database refuses. */
  predicate OrderedBefore(orders: seq<Order>, id: nat) {
    exists k, j :: 0 <= k < |orders| && 0 <= j < |orders[k].items| && orders[k].items[j].productId == id
  }

  /** delete_producto: 403 for a non-administrator, then 404 for an unknown
      id; a product some order line refers to cannot be deleted (the commit
      fails with 500 and is rolled back). */
  method DeleteProduct(db: Store, caller: User, id: nat) returns (r: Result<()>)
    requires db.Valid()
    modifies db
    ensures db.Valid()
    ensures db.users == old(db.users) && db.carts == old(db.carts) && db.orders == old(db.orders)
    ensures db.messages == old(db.messages) && db.convs == old(db.convs)
    ensures db.nextId == old(db.nextId) && db.clock == old(db.clock)
    ensures RequireAdmin(caller).Some? ==> r == Err(AdminRequired) && unchanged(db)
    ensures RequireAdmin(caller).None? && id !in old(db.products) ==> r == Err(ProductNotFound) && unchanged(db)
    ensures RequireAdmin(caller).None? && id in old(db.products) && OrderedBefore(old(db.orders), id) ==>
              r == Err(InternalError) && unchanged(db)
    ensures RequireAdmin(caller).None? && id in old(db.products) && !OrderedBefore(old(db.orders), id) ==>
              r == Ok(()) && db.products == old(db.products) - {id}
  {
    var denied := RequireAdmin(caller);
    if denied.Some? {
      return Err(denied.value);
    }
    if id !in db.products {
      return Err(ProductNotFound);
    }
    if OrderedBefore(db.orders, id) {
      return Err(InternalError);
    }
    db.products := db.products - {id};
    r := Ok(());
  }
}

/**
 * The product handlers of src/controller/product.controller.js over in-memory `products`
 * and `comments` tables. A listed product shows the mean star of its comments, or null;
 * a single product shows that mean, or 0.
 */
module Products {
  import opened Wrappers
  import opened Http
  import opened Body
  import opened Query
  import opened Validation
  import Tables
  import Ratings
  import ColumnLimits
  import Comments

  /** A row of the `products` table. `star` is the stored column, 0 on create. */
  datatype Product = Product(
    id: Uuid, name: string, description: string, price: int, image: string,
    star: int, categoryId: int, authorId: Uuid)

  function IdOf(x: Product): Uuid {
    x.id
  }

  /** The `products` table: its rows in insertion order. Keys are UUIDs the caller supplies. */
  class ProductTable {
    var rows: seq<Product>

    ghost predicate Valid()
      reads this
    {
      Tables.UniqueIds(rows, IdOf)
    }

    constructor ()
      ensures Valid() && rows == []
    {
      rows := [];
    }
  }

  // ---------------------------------------------------------------------------
  // Ratings read off the comment table
  // ---------------------------------------------------------------------------

  /** The `["product_id", "star"]` projection of the comment rows, in table order. */
  function StarRows(cs: seq<Comments.Comment>): (r: seq<Ratings.StarRow>)
    ensures |r| == |cs|
    ensures forall k :: 0 <= k < |cs| ==> r[k] == Ratings.StarRow(cs[k].productId, cs[k].star)
  {
    seq(|cs|, k requires 0 <= k < |cs| => Ratings.StarRow(cs[k].productId, cs[k].star))
  }

  /** The `star` of every comment on product `pid`, in table order. */
  function StarsOf(cs: seq<Comments.Comment>, pid: Uuid): seq<int> {
    if cs == [] then []
    else
      var init := StarsOf(cs[..|cs| - 1], pid);
      if cs[|cs| - 1].productId == pid then init + [cs[|cs| - 1].star] else init
  }

  /** A product's comment stars are the ones the list's tally counts and sums. */
  lemma {:induction false} StarsOfMatchesTally(cs: seq<Comments.Comment>, pid: Uuid)
    ensures |StarsOf(cs, pid)| == Ratings.CountFor(StarRows(cs), pid)
    ensures Ratings.Sum(StarsOf(cs, pid)) == Ratings.SumFor(StarRows(cs), pid)
  {
    if cs != [] {
      var init := cs[..|cs| - 1];
      StarsOfMatchesTally(init, pid);
      var rows := StarRows(cs);
      assert rows[..|rows| - 1] == StarRows(init);
      var s := StarsOf(cs, pid);
      if cs[|cs| - 1].productId == pid {
        assert s[..|s| - 1] == StarsOf(init, pid);
      }
    }
  }

  /**
   * The detail and the list agree on a rated product's star; on a product without comments
   * the detail shows 0 where the list shows null.
   */
  lemma DetailAgreesWithList(cs: seq<Comments.Comment>, pid: Uuid)
    ensures Ratings.StarOf(StarRows(cs), pid).None? <==> StarsOf(cs, pid) == []
    ensures StarsOf(cs, pid) == [] ==> Ratings.AverageStar(StarsOf(cs, pid)) == 0.0
    ensures StarsOf(cs, pid) != [] ==> Ratings.StarOf(StarRows(cs), pid) == Some(Ratings.AverageStar(StarsOf(cs, pid)))
  {
    StarsOfMatchesTally(cs, pid);
  }

  // ---------------------------------------------------------------------------
  // getProducts: GET "/" of the product router
  // ---------------------------------------------------------------------------

  /** The query parameters, with `page`, `limit`, `category_id` and the prices read as numbers. */
  datatype ListParams = ListParams(
    page: Option<Pos>, limit: Option<Pos>, sort: Option<string>, categoryId: Option<int>,
    name: Option<string>, minPrice: Option<int>, maxPrice: Option<int>)

  /** The `where` object: equality on `category_id`, `LIKE %name%`, `Op.gte`/`Op.lte` on `price`. */
  datatype Where = Where(categoryId: Option<int>, nameContains: Option<string>, priceGte: Option<int>, priceLte: Option<int>)

  datatype Options = Options(window: Window, order: string, where: Where)

  /** The products a request asks for. */
  predicate Requested(p: ListParams, x: Product) {
    && (p.categoryId.Some? ==> x.categoryId == p.categoryId.value)
    && (Given(p.name) ==> Contains(x.name, p.name.value))
    && (p.minPrice.Some? ==> x.price >= p.minPrice.value)
    && (p.maxPrice.Some? ==> x.price <= p.maxPrice.value)
  }

  function Keep(p: ListParams): Product -> bool {
    x => Requested(p, x)
  }

  predicate Admits(w: Where, x: Product) {
    && MatchesIfGiven(w.categoryId, x.categoryId)
    && (w.nameContains.Some? ==> Contains(x.name, w.nameContains.value))
    && WithinIfGiven(w.priceGte, w.priceLte, x.price)
  }

  const DefaultSort: string := "price"

  /** Builds `queryOptions` one parameter at a time. */
  method BuildOptions(p: ListParams) returns (o: Options)
    ensures o.window.Range? <==> p.page.Some? && p.limit.Some?
    ensures o.window.Range? ==> o.window == PageWindow(p.page.value, p.limit.value)
    ensures o.order == OrDefault(p.sort, DefaultSort)
    ensures forall x :: Admits(o.where, x) <==> Requested(p, x)
  {
    o := Options(All, "", Where(None, None, None, None));
    if p.page.Some? && p.limit.Some? {
      o := o.(window := PageWindow(p.page.value, p.limit.value));
    }
    if Given(p.sort) {
      o := o.(order := p.sort.value);
    } else {
      o := o.(order := DefaultSort);
    }
    if p.categoryId.Some? {
      o := o.(where := o.where.(categoryId := p.categoryId));
    }
    if Given(p.name) {
      o := o.(where := o.where.(nameContains := p.name));
    }
    if p.minPrice.Some? || p.maxPrice.Some? {
      if p.minPrice.Some? {
        o := o.(where := o.where.(priceGte := p.minPrice));
      }
      if p.maxPrice.Some? {
        o := o.(where := o.where.(priceLte := p.maxPrice));
      }
    }
  }

  const Columns: set<string> := {"id", "name", "description", "price", "image", "star", "category_id", "author_id"}

  function Column(x: Product, name: string): Cell {
    if name == "id" then StrCell(x.id)
    else if name == "name" then StrCell(x.name)
    else if name == "description" then StrCell(x.description)
    else if name == "price" then IntCell(x.price)
    else if name == "image" then StrCell(x.image)
    else if name == "star" then IntCell(x.star)
    else if name == "category_id" then IntCell(x.categoryId)
    else StrCell(x.authorId)
  }

  function SortKey(name: string): Product -> Cell {
    x => Column(x, name)
  }

  /** A product as the list shows it: the row with `star` replaced by its rating, or null. */
  datatype Listed = Listed(product: Product, star: Option<real>)

  function Products(data: seq<Listed>): (r: seq<Product>)
    ensures |r| == |data|
    ensures forall k :: 0 <= k < |data| ==> r[k] == data[k].product
  {
    seq(|data|, k requires 0 <= k < |data| => data[k].product)
  }

  /** Each row with the star the comments give it. */
  function Rated(rows: seq<Product>, cs: seq<Comments.Comment>): (r: seq<Listed>)
    ensures Products(r) == rows
    ensures forall k :: 0 <= k < |r| ==> r[k].star == Ratings.StarOf(StarRows(cs), rows[k].id)
  {
    var r := seq(|rows|, k requires 0 <= k < |rows| => Listed(rows[k], Ratings.StarOf(StarRows(cs), rows[k].id)));
    assert Products(r) == rows;
    r
  }

  /**
   * The answer of `getProducts`: the requested products, filtered, ordered by the sort
   * column and windowed, each with the mean of its own comments' stars or null.
   */
  function ListProducts(p: ListParams, rows: seq<Product>, cs: seq<Comments.Comment>): (r: Reply<Envelope<Listed>>)
    ensures r.Fail? <==> OrDefault(p.sort, DefaultSort) !in Columns
    ensures r.Fail? ==> r == Fail(500, UnknownColumn("product", OrDefault(p.sort, DefaultSort)))
    ensures r.Ok? ==> r.status == 200 && r.value.total == |Filter(rows, Keep(p))|
    ensures r.Ok? ==> forall x :: x in Products(r.value.data) ==> x in rows && Requested(p, x)
    ensures r.Ok? ==> forall k :: 0 <= k < |r.value.data| ==>
      r.value.data[k].star == Ratings.StarOf(StarRows(cs), r.value.data[k].product.id)
    ensures r.Ok? ==> SortedBy(Products(r.value.data), SortKey(OrDefault(p.sort, DefaultSort)))
    ensures r.Ok? && (p.page.None? || p.limit.None?) ==>
      multiset(Products(r.value.data)) == multiset(Filter(rows, Keep(p))) && r.value.page.None? && r.value.totalPages.None?
    ensures r.Ok? && p.page.Some? && p.limit.Some? ==>
      && |r.value.data| <= p.limit.value
      && WindowOfSorted(Products(r.value.data), rows, Keep(p), SortKey(OrDefault(p.sort, DefaultSort)), PageWindow(p.page.value, p.limit.value))
      && (|r.value.data| > 0 <==> p.page.value <= CeilDiv(r.value.total, p.limit.value))
      && r.value.page == Some(p.page.value as int)
      && r.value.totalPages == Some(CeilDiv(r.value.total, p.limit.value) as int)
  {
    var column := OrDefault(p.sort, DefaultSort);
    if column !in Columns then Fail(500, UnknownColumn("product", column))
    else
      var w := if p.page.Some? && p.limit.Some? then PageWindow(p.page.value, p.limit.value) else All;
      var found := FindAndCount(rows, Keep(p), SortKey(column), w);
      PageInRange(found.count, p.page.GetOr(1), p.limit.GetOr(1));
      var data := Rated(found.rows, cs);
      assert Products(data) == found.rows && |data| == |found.rows|;
      Ok(200, OptionalPaging(data, found.count, p.page, p.limit))
  }

  /**
   * `getProducts`: run the query, fetch the comments of the listed products, tally their
   * stars in one pass and attach each product's mean.
   */
  method GetProducts(t: ProductTable, comments: Comments.CommentTable, p: ListParams) returns (r: Reply<Envelope<Listed>>)
    ensures r == ListProducts(p, t.rows, comments.rows)
  {
    var o := BuildOptions(p);
    if o.order !in Columns {
      return Fail(500, UnknownColumn("product", o.order));
    }
    var admits := (x: Product) => Admits(o.where, x);
    FindAndCountExt(t.rows, admits, Keep(p), SortKey(o.order), o.window);
    var found := FindAndCount(t.rows, admits, SortKey(o.order), o.window);
    var ids := set x | x in found.rows :: x.id;
    var fetched := Ratings.Restrict(StarRows(comments.rows), ids);
    var starMap := Ratings.TallyStars(fetched);
    var data := AttachStars(found.rows, starMap);
    MapGivesRatings(found.rows, comments.rows, ids, starMap);
    r := Ok(200, OptionalPaging(data, found.count, p.page, p.limit));
  }

  /** `products.rows.map(...)`: each row with `starMap`'s mean for it, or null. */
  function AttachStars(rows: seq<Product>, starMap: map<string, Ratings.Tally>): (r: seq<Listed>)
    ensures |r| == |rows|
    ensures forall k :: 0 <= k < |rows| ==> r[k] == Listed(rows[k], Ratings.ListedStar(starMap, rows[k].id))
  {
    seq(|rows|, k requires 0 <= k < |rows| => Listed(rows[k], Ratings.ListedStar(starMap, rows[k].id)))
  }

  /**
   * A tally of the comments of exactly the listed products gives every listed product the
   * rating all comments give it.
   */
  lemma MapGivesRatings(rows: seq<Product>, cs: seq<Comments.Comment>, ids: set<Uuid>, starMap: map<string, Ratings.Tally>)
    requires forall x :: x in rows ==> x.id in ids
    requires Ratings.IsTallyOf(starMap, Ratings.Restrict(StarRows(cs), ids))
    ensures AttachStars(rows, starMap) == Rated(rows, cs)
  {
    var fetched := Ratings.Restrict(StarRows(cs), ids);
    forall k | 0 <= k < |rows| ensures AttachStars(rows, starMap)[k] == Rated(rows, cs)[k] {
      var pid := rows[k].id;
      Ratings.ListedStarIsStarOf(starMap, fetched, pid);
      Ratings.OnlyOwnRatingsCount(StarRows(cs), ids, pid);
    }
  }

  /** With no sort parameter the list is in ascending order of price. */
  lemma DefaultOrderIsPrice(p: ListParams, rows: seq<Product>, cs: seq<Comments.Comment>)
    requires !Given(p.sort)
    ensures ListProducts(p, rows, cs).Ok?
    ensures forall i, j :: 0 <= i < j < |ListProducts(p, rows, cs).value.data| ==>
      ListProducts(p, rows, cs).value.data[i].product.price <= ListProducts(p, rows, cs).value.data[j].product.price
  {
    var data := Products(ListProducts(p, rows, cs).value.data);
    forall i, j | 0 <= i < j < |data| ensures data[i].price <= data[j].price {
      assert CellLe(SortKey(DefaultSort)(data[i]), SortKey(DefaultSort)(data[j]));
    }
  }

  // ---------------------------------------------------------------------------
  // getProduct: GET "/:id" of the product router
  // ---------------------------------------------------------------------------

  const NotFound: string := "product not found"

  /** A product as the detail shows it: the row with `star` replaced by its average. */
  datatype Shown = Shown(product: Product, star: real)

  /** `getProduct`: the row, or 404, with the average of its comments' stars, 0 when it has none. */
  method GetProduct(t: ProductTable, comments: Comments.CommentTable, id: Uuid) returns (r: Reply<Shown>)
    ensures r.Ok? <==> Tables.HasId(t.rows, id, IdOf)
    ensures r.Fail? ==> r == Fail(404, NotFound)
    ensures r.Ok? ==> r.status == 200 && r.value.product in t.rows && r.value.product.id == id
    ensures r.Ok? && Ratings.CountFor(StarRows(comments.rows), id) == 0 ==> r.value.star == 0.0
    ensures r.Ok? && Ratings.CountFor(StarRows(comments.rows), id) > 0 ==>
      Ratings.StarOf(StarRows(comments.rows), id) == Some(r.value.star)
  {
    var found := Tables.Lookup(t.rows, id, IdOf);
    if found.None? {
      return Fail(404, NotFound);
    }
    var stars := StarsOf(comments.rows, id);
    DetailAgreesWithList(comments.rows, id);
    r := Ok(200, Shown(found.value, Ratings.AverageStar(stars)));
  }

  // ---------------------------------------------------------------------------
  // createProduct (POST "/"), updateProduct (PUT "/:id") and deleteProduct (DELETE "/:id") of
  // the product router
  // ---------------------------------------------------------------------------

  predicate Supplies(b: Body) {
    && "name" in b && b["name"].Str?
    && "description" in b && b["description"].Str?
    && RequiredInteger(b, "price")
    && "image" in b && b["image"].Str?
    && RequiredInteger(b, "star")
    && RequiredInteger(b, "category_id")
  }

  /** The product `{...body, id, author_id}`, `star` taken from the body. */
  function FromBody(id: Uuid, b: Body, author: Uuid): Product
    requires Supplies(b)
  {
    Product(id, b["name"].s, b["description"].s, IntOf(b["price"]), b["image"].s,
            IntOf(b["star"]), IntOf(b["category_id"]), author)
  }

  /**
   * The values an INSERT or UPDATE of `x` binds to the limited columns, in table order. The
   * `description` column is TEXT, which the schema's 500 characters always fit.
   */
  function ColumnsOf(x: Product): (cs: seq<ColumnLimits.Column>)
    ensures ColumnLimits.AllFit(cs) <==>
      && |x.name| <= ColumnLimits.VarcharMax && |x.image| <= ColumnLimits.VarcharMax
      && ColumnLimits.IntMin <= x.price <= ColumnLimits.IntMax && ColumnLimits.IntMin <= x.star <= ColumnLimits.IntMax
      && ColumnLimits.IntMin <= x.categoryId <= ColumnLimits.IntMax
  {
    var cs := [ColumnLimits.Varchar("name", x.name), ColumnLimits.Int("price", x.price), ColumnLimits.Varchar("image", x.image),
               ColumnLimits.Int("star", x.star), ColumnLimits.Int("category_id", x.categoryId)];
    assert ColumnLimits.Fits(cs[0]) && ColumnLimits.Fits(cs[1]) && ColumnLimits.Fits(cs[2]) && ColumnLimits.Fits(cs[3]) && ColumnLimits.Fits(cs[4])
      ==> ColumnLimits.AllFit(cs);
    cs
  }

  /** MySQL's duplicate-key failure, as Sequelize reports it. */
  const DuplicateKey: string := "Validation error"

  /**
   * `createProduct`: validate, then insert `{...body, star: 0, author_id: caller}` under the
   * key the `UUIDV4` default generated. MySQL refuses a value its column cannot hold before
   * it looks at the key.
   */
  method CreateProduct(t: ProductTable, b: Body, f: Formats, caller: Option<Uuid>, newId: Uuid) returns (r: Reply<Product>)
    requires t.Valid()
    modifies t
    ensures t.Valid()
    ensures !ProductValid(b, f) ==> r == Fail(400, ValidationFailed) && unchanged(t)
    ensures ProductValid(b, f) && caller.None? ==>
      r == Fail(500, NotNullViolation("product.author_id")) && unchanged(t)
    ensures ProductValid(b, f) && caller.Some? && !ColumnLimits.AllFit(ColumnsOf(FromBody(newId, b, caller.value).(star := 0))) ==>
      r == Fail(500, ColumnLimits.FirstRefusal(ColumnsOf(FromBody(newId, b, caller.value).(star := 0))).value) && unchanged(t)
    ensures ProductValid(b, f) && caller.Some? && ColumnLimits.AllFit(ColumnsOf(FromBody(newId, b, caller.value).(star := 0))) ==>
      && (Tables.HasId(old(t.rows), newId, IdOf) ==> r == Fail(500, DuplicateKey) && unchanged(t))
      && (!Tables.HasId(old(t.rows), newId, IdOf) ==>
            && r == Ok(201, FromBody(newId, b, caller.value).(star := 0))
            && r.value.star == 0 && r.value.authorId == caller.value
            && t.rows == old(t.rows) + [r.value])
  {
    if !ProductValid(b, f) {
      return Fail(400, ValidationFailed);
    }
    if caller.None? {
      return Fail(500, NotNullViolation("product.author_id"));
    }
    var x := FromBody(newId, b, caller.value).(star := 0);
    var refused := ColumnLimits.FirstRefusal(ColumnsOf(x));
    if refused.Some? {
      return Fail(500, refused.value);
    }
    if Tables.Lookup(t.rows, newId, IdOf).Some? {
      return Fail(500, DuplicateKey);
    }
    Tables.AppendFreshUnique(t.rows, x, IdOf);
    t.rows := t.rows + [x];
    r := Ok(201, x);
  }

  /** `product.update({...body, author_id: product.author_id})`. */
  function Edited(x: Product, b: Body): Product
    requires Supplies(b)
  {
    FromBody(x.id, b, x.authorId)
  }

  /**
   * `updateProduct`: validate first, then look the row up, then overwrite all but the author,
   * unless MySQL refuses a value its column cannot hold.
   */
  method UpdateProduct(t: ProductTable, id: Uuid, b: Body, f: Formats) returns (r: Reply<Product>)
    requires t.Valid()
    modifies t
    ensures t.Valid()
    ensures !ProductValid(b, f) ==> r == Fail(400, ValidationFailed) && unchanged(t)
    ensures ProductValid(b, f) && !Tables.HasId(old(t.rows), id, IdOf) ==> r == Fail(404, NotFound) && unchanged(t)
    ensures ProductValid(b, f) && Tables.HasId(old(t.rows), id, IdOf) ==>
      var edited := Edited(Tables.Lookup(old(t.rows), id, IdOf).value, b);
      !ColumnLimits.AllFit(ColumnsOf(edited)) ==> r == Fail(500, ColumnLimits.FirstRefusal(ColumnsOf(edited)).value) && unchanged(t)
    ensures ProductValid(b, f) && Tables.HasId(old(t.rows), id, IdOf) ==>
      var before := Tables.Lookup(old(t.rows), id, IdOf).value;
      ColumnLimits.AllFit(ColumnsOf(Edited(before, b))) ==>
      && r == Ok(200, Edited(before, b))
      && r.value.id == id && r.value.authorId == before.authorId
      && t.rows == Tables.Replace(old(t.rows), id, IdOf, r.value)
  {
    if !ProductValid(b, f) {
      return Fail(400, ValidationFailed);
    }
    var found := Tables.Lookup(t.rows, id, IdOf);
    if found.None? {
      return Fail(404, NotFound);
    }
    var x := Edited(found.value, b);
    var refused := ColumnLimits.FirstRefusal(ColumnsOf(x));
    if refused.Some? {
      return Fail(500, refused.value);
    }
    Tables.ReplaceKeepsUnique(t.rows, id, IdOf, x);
    t.rows := Tables.Replace(t.rows, id, IdOf, x);
    r := Ok(200, x);
  }

  /** `deleteProduct`: remove the row with that key, or 404. */
  method DeleteProduct(t: ProductTable, id: Uuid) returns (r: Reply<string>)
    requires t.Valid()
    modifies t
    ensures t.Valid()
    ensures !Tables.HasId(old(t.rows), id, IdOf) ==> r == Fail(404, NotFound) && unchanged(t)
    ensures Tables.HasId(old(t.rows), id, IdOf) ==>
      r == Ok(200, "deleted successfully") && t.rows == Tables.Remove(old(t.rows), id, IdOf)
  {
    if Tables.Lookup(t.rows, id, IdOf).None? {
      return Fail(404, NotFound);
    }
    Tables.RemoveKeepsUnique(t.rows, id, IdOf);
    t.rows := Tables.Remove(t.rows, id, IdOf);
    r := Ok(200, "deleted successfully");
  }
}

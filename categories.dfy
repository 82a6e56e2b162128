/**
 * The category handlers of src/controller/category.controller.js over an in-memory
 * `categories` table. What the controller's name `categoryValidationSchema` is bound to
 * is a parameter of create and update: as written it is the validation module's export
 * object, on which `.validate` is not a function.
 */
module Categories {
  import opened Wrappers
  import opened Http
  import opened Body
  import opened Query
  import opened Validation
  import Tables

  /** A row of the `categories` table. */
  datatype Category = Category(id: nat, name: string)

  function IdOf(c: Category): nat {
    c.id
  }

  /** The `categories` table: its rows in insertion order and the next AUTO_INCREMENT value. */
  class CategoryTable {
    var rows: seq<Category>
    var nextId: nat

    ghost predicate Valid()
      reads this
    {
      && Tables.UniqueIds(rows, IdOf)
      && nextId >= 1
      && forall k :: 0 <= k < |rows| ==> 1 <= rows[k].id < nextId
    }

    constructor ()
      ensures Valid() && rows == [] && nextId == 1
    {
      rows := [];
      nextId := 1;
    }
  }

  // ---------------------------------------------------------------------------
  // getCategories: GET "/" of the category router
  // ---------------------------------------------------------------------------

  datatype ListParams = ListParams(page: Option<Pos>, limit: Option<Pos>, sort: Option<string>, name: Option<string>)

  /** The `where` object: `LIKE %name%` on `name`. */
  datatype Options = Options(window: Window, order: string, nameContains: Option<string>)

  predicate Requested(p: ListParams, c: Category) {
    Given(p.name) ==> Contains(c.name, p.name.value)
  }

  function Keep(p: ListParams): Category -> bool {
    c => Requested(p, c)
  }

  predicate Admits(o: Options, c: Category) {
    o.nameContains.Some? ==> Contains(c.name, o.nameContains.value)
  }

  const DefaultSort: string := "name"

  method BuildOptions(p: ListParams) returns (o: Options)
    ensures o.window.Range? <==> p.page.Some? && p.limit.Some?
    ensures o.window.Range? ==> o.window == PageWindow(p.page.value, p.limit.value)
    ensures o.order == OrDefault(p.sort, DefaultSort)
    ensures forall c :: Admits(o, c) <==> Requested(p, c)
  {
    o := Options(All, "", None);
    if p.page.Some? && p.limit.Some? {
      o := o.(window := PageWindow(p.page.value, p.limit.value));
    }
    if Given(p.sort) {
      o := o.(order := p.sort.value);
    } else {
      o := o.(order := DefaultSort);
    }
    if Given(p.name) {
      o := o.(nameContains := p.name);
    }
  }

  const Columns: set<string> := {"id", "name"}

  function SortKey(name: string): Category -> Cell {
    (c: Category) => if name == "id" then IntCell(c.id) else StrCell(c.name)
  }

  /** The answer of `getCategories` over `rows`. */
  function ListCategories(p: ListParams, rows: seq<Category>): (r: Reply<Envelope<Category>>)
    ensures r.Fail? <==> OrDefault(p.sort, DefaultSort) !in Columns
    ensures r.Fail? ==> r == Fail(500, UnknownColumn("category", OrDefault(p.sort, DefaultSort)))
    ensures r.Ok? ==> r.status == 200 && r.value.total == |Filter(rows, Keep(p))|
    ensures r.Ok? ==> forall c :: c in r.value.data ==> c in rows && Requested(p, c)
    ensures r.Ok? ==> SortedBy(r.value.data, SortKey(OrDefault(p.sort, DefaultSort)))
    ensures r.Ok? && (p.page.None? || p.limit.None?) ==>
      multiset(r.value.data) == multiset(Filter(rows, Keep(p))) && r.value.page.None? && r.value.totalPages.None?
    ensures r.Ok? && p.page.Some? && p.limit.Some? ==>
      && |r.value.data| <= p.limit.value
      && WindowOfSorted(r.value.data, rows, Keep(p), SortKey(OrDefault(p.sort, DefaultSort)), PageWindow(p.page.value, p.limit.value))
      && (|r.value.data| > 0 <==> p.page.value <= CeilDiv(r.value.total, p.limit.value))
      && r.value.page == Some(p.page.value as int)
      && r.value.totalPages == Some(CeilDiv(r.value.total, p.limit.value) as int)
  {
    var column := OrDefault(p.sort, DefaultSort);
    if column !in Columns then Fail(500, UnknownColumn("category", column))
    else
      var w := if p.page.Some? && p.limit.Some? then PageWindow(p.page.value, p.limit.value) else All;
      var found := FindAndCount(rows, Keep(p), SortKey(column), w);
      PageInRange(found.count, p.page.GetOr(1), p.limit.GetOr(1));
      Ok(200, OptionalPaging(found.rows, found.count, p.page, p.limit))
  }

  /** `getCategories`. */
  method GetCategories(t: CategoryTable, p: ListParams) returns (r: Reply<Envelope<Category>>)
    ensures r == ListCategories(p, t.rows)
  {
    var o := BuildOptions(p);
    if o.order !in Columns {
      return Fail(500, UnknownColumn("category", o.order));
    }
    var admits := (c: Category) => Admits(o, c);
    FindAndCountExt(t.rows, admits, Keep(p), SortKey(o.order), o.window);
    var found := FindAndCount(t.rows, admits, SortKey(o.order), o.window);
    r := Ok(200, OptionalPaging(found.rows, found.count, p.page, p.limit));
  }

  /** With no sort parameter the list is in ascending order of name. */
  lemma DefaultOrderIsName(p: ListParams, rows: seq<Category>)
    requires !Given(p.sort)
    ensures ListCategories(p, rows).Ok?
    ensures forall i, j :: 0 <= i < j < |ListCategories(p, rows).value.data| ==>
      StrLe(ListCategories(p, rows).value.data[i].name, ListCategories(p, rows).value.data[j].name)
  {
    var data := ListCategories(p, rows).value.data;
    forall i, j | 0 <= i < j < |data| ensures StrLe(data[i].name, data[j].name) {
      assert CellLe(SortKey(DefaultSort)(data[i]), SortKey(DefaultSort)(data[j]));
    }
  }

  /** Without paging every matching category is listed, and `total` is their number. */
  lemma UnpagedListsAll(p: ListParams, rows: seq<Category>)
    requires p.page.None? && !Given(p.sort)
    ensures ListCategories(p, rows).Ok?
    ensures |ListCategories(p, rows).value.data| == ListCategories(p, rows).value.total
  {
    var r := ListCategories(p, rows);
    assert |r.value.data| == |multiset(r.value.data)| == |multiset(Filter(rows, Keep(p)))|;
  }

  // ---------------------------------------------------------------------------
  // getCategory: GET "/:id" of the category router
  // ---------------------------------------------------------------------------

  const NotFound: string := "category not found"

  method GetCategory(t: CategoryTable, id: nat) returns (r: Reply<Category>)
    ensures r.Ok? <==> Tables.HasId(t.rows, id, IdOf)
    ensures r.Ok? ==> r.status == 200 && r.value in t.rows && r.value.id == id
    ensures r.Fail? ==> r == Fail(404, NotFound)
  {
    var found := Tables.Lookup(t.rows, id, IdOf);
    if found.None? {
      return Fail(404, NotFound);
    }
    r := Ok(200, found.value);
  }

  // ---------------------------------------------------------------------------
  // createCategory (POST "/") and updateCategory (PUT "/:id") of the category router, with the
  // validator binding as a parameter
  // ---------------------------------------------------------------------------

  /** The name the controller calls `.validate` on. */
  const ValidatorName: string := "categoryValidationSchema"

  /** What line 4 binds as written, or one of the two schemas the module exports. */
  predicate CategoryBinding(v: Binding) {
    v == CategoryModuleExports || v == SchemaValue(CategorySchema) || v == SchemaValue(CategoryUpdateSchema)
  }

  /** The outcome of `categoryValidationSchema.validate(body)` under binding `v`. */
  lemma ValidateUnder(v: Binding, b: Body)
    requires CategoryBinding(v)
    ensures v == CategoryModuleExports ==>
      CallValidate(ValidatorName, v, b, NoFormats, 0) == Threw(ValidatorName + ".validate is not a function")
    ensures v.SchemaValue? ==> (CallValidate(ValidatorName, v, b, NoFormats, 0).Passed? <==> CategoryValid(b))
    ensures v.SchemaValue? ==> !CallValidate(ValidatorName, v, b, NoFormats, 0).Threw?
  {
    CategorySchemasAgree(b);
  }

  const NotAFunction: string := ValidatorName + ".validate is not a function"

  /** `createCategory` with `categoryValidationSchema` bound to `v`. */
  method CreateCategoryWith(t: CategoryTable, b: Body, v: Binding) returns (r: Reply<Category>)
    requires t.Valid() && CategoryBinding(v)
    modifies t
    ensures t.Valid()
    ensures v == CategoryModuleExports ==> r == Fail(500, NotAFunction) && unchanged(t)
    ensures v.SchemaValue? && !CategoryValid(b) ==> r == Fail(400, ValidationFailed) && unchanged(t)
    ensures v.SchemaValue? && CategoryValid(b) ==>
      && r == Ok(201, Category(old(t.nextId), b["name"].s))
      && t.rows == old(t.rows) + [r.value]
      && t.nextId == old(t.nextId) + 1
  {
    ValidateUnder(v, b);
    var check := CallValidate(ValidatorName, v, b, NoFormats, 0);
    if check.Threw? {
      return Fail(500, check.message);
    }
    if check.Rejected? {
      return Fail(400, ValidationFailed);
    }
    var c := Category(t.nextId, b["name"].s);
    Tables.AppendFreshUnique(t.rows, c, IdOf);
    t.rows := t.rows + [c];
    t.nextId := t.nextId + 1;
    r := Ok(201, c);
  }

  /** `createCategory` as written: every request ends in the 500 branch and stores nothing. */
  method CreateCategoryAsWritten(t: CategoryTable, b: Body) returns (r: Reply<Category>)
    requires t.Valid()
    modifies t
    ensures t.Valid()
    ensures r == Fail(500, NotAFunction) && unchanged(t)
  {
    r := CreateCategoryWith(t, b, CategoryModuleExports);
  }

  /** `createCategory` validating with `categoryValidationSchema` itself. */
  method CreateCategory(t: CategoryTable, b: Body) returns (r: Reply<Category>)
    requires t.Valid()
    modifies t
    ensures t.Valid()
    ensures !CategoryValid(b) ==> r == Fail(400, ValidationFailed) && unchanged(t)
    ensures CategoryValid(b) ==>
      && r == Ok(201, Category(old(t.nextId), b["name"].s))
      && t.rows == old(t.rows) + [r.value]
      && t.nextId == old(t.nextId) + 1
  {
    r := CreateCategoryWith(t, b, SchemaValue(CategorySchema));
  }

  /** `updateCategory` with `categoryValidationSchema` bound to `v`. */
  method UpdateCategoryWith(t: CategoryTable, id: nat, b: Body, v: Binding) returns (r: Reply<Category>)
    requires t.Valid() && CategoryBinding(v)
    modifies t
    ensures t.Valid() && t.nextId == old(t.nextId)
    ensures v == CategoryModuleExports ==> r == Fail(500, NotAFunction) && unchanged(t)
    ensures v.SchemaValue? && !CategoryValid(b) ==> r == Fail(400, ValidationFailed) && unchanged(t)
    ensures v.SchemaValue? && CategoryValid(b) && !Tables.HasId(old(t.rows), id, IdOf) ==>
      r == Fail(404, NotFound) && unchanged(t)
    ensures v.SchemaValue? && CategoryValid(b) && Tables.HasId(old(t.rows), id, IdOf) ==>
      && r == Ok(200, Category(id, b["name"].s))
      && t.rows == Tables.Replace(old(t.rows), id, IdOf, r.value)
  {
    ValidateUnder(v, b);
    var check := CallValidate(ValidatorName, v, b, NoFormats, 0);
    if check.Threw? {
      return Fail(500, check.message);
    }
    if check.Rejected? {
      return Fail(400, ValidationFailed);
    }
    var found := Tables.Lookup(t.rows, id, IdOf);
    if found.None? {
      return Fail(404, NotFound);
    }
    var c := found.value.(name := b["name"].s);
    var rows := Tables.Replace(t.rows, id, IdOf, c);
    Tables.ReplaceKeepsUnique(t.rows, id, IdOf, c);
    forall k | 0 <= k < |rows| ensures 1 <= rows[k].id < t.nextId {
      assert rows[k].id == t.rows[k].id;
    }
    t.rows := rows;
    r := Ok(200, c);
  }

  /** `updateCategory` as written: every request ends in the 500 branch and changes nothing. */
  method UpdateCategoryAsWritten(t: CategoryTable, id: nat, b: Body) returns (r: Reply<Category>)
    requires t.Valid()
    modifies t
    ensures t.Valid()
    ensures r == Fail(500, NotAFunction) && unchanged(t)
  {
    r := UpdateCategoryWith(t, id, b, CategoryModuleExports);
  }

  /** `updateCategory` validating with `categoryUpdateSchema`. */
  method UpdateCategory(t: CategoryTable, id: nat, b: Body) returns (r: Reply<Category>)
    requires t.Valid()
    modifies t
    ensures t.Valid() && t.nextId == old(t.nextId)
    ensures !CategoryUpdateValid(b) ==> r == Fail(400, ValidationFailed) && unchanged(t)
    ensures CategoryUpdateValid(b) && !Tables.HasId(old(t.rows), id, IdOf) ==> r == Fail(404, NotFound) && unchanged(t)
    ensures CategoryUpdateValid(b) && Tables.HasId(old(t.rows), id, IdOf) ==>
      && r == Ok(200, Category(id, b["name"].s))
      && t.rows == Tables.Replace(old(t.rows), id, IdOf, r.value)
  {
    CategorySchemasAgree(b);
    r := UpdateCategoryWith(t, id, b, SchemaValue(CategoryUpdateSchema));
  }

  // ---------------------------------------------------------------------------
  // deleteCategory: DELETE "/:id" of the category router
  // ---------------------------------------------------------------------------

  method DeleteCategory(t: CategoryTable, id: nat) returns (r: Reply<string>)
    requires t.Valid()
    modifies t
    ensures t.Valid() && t.nextId == old(t.nextId)
    ensures !Tables.HasId(old(t.rows), id, IdOf) ==> r == Fail(404, NotFound) && unchanged(t)
    ensures Tables.HasId(old(t.rows), id, IdOf) ==>
      && r == Ok(200, "deleted category")
      && t.rows == Tables.Remove(old(t.rows), id, IdOf)
      && |t.rows| == |old(t.rows)| - 1
  {
    if Tables.Lookup(t.rows, id, IdOf).None? {
      return Fail(404, NotFound);
    }
    Tables.RemoveKeepsUnique(t.rows, id, IdOf);
    Tables.RemoveOne(t.rows, id, IdOf);
    t.rows := Tables.Remove(t.rows, id, IdOf);
    r := Ok(200, "deleted category");
  }
}

/**
 * The region handlers of src/controller/region.controller.js over an in-memory `regions`
 * table. Paging is always on, with `page = 1` and `limit = 10` when not given, and rows
 * come back in table order.
 */
module Regions {
  import opened Wrappers
  import opened Http
  import opened Body
  import opened Query
  import Tables
  import ColumnLimits

  /** A row of the `regions` table. */
  datatype Region = Region(id: nat, name: string)

  function IdOf(g: Region): nat {
    g.id
  }

  /** The `regions` table: its rows in insertion order and the next AUTO_INCREMENT value. */
  class RegionTable {
    var rows: seq<Region>
    var nextId: nat

    ghost predicate Valid()
      reads this
    {
      && Tables.UniqueIds(rows, IdOf)
      && nextId >= 1
      && forall k :: 0 <= k < |rows| ==> 1 <= rows[k].id < nextId
    }

    constructor ()
      ensures Valid() && rows == [] && nextId == 1
    {
      rows := [];
      nextId := 1;
    }
  }

  /** The catch-all message of this controller's 500 responses. */
  const ServerError: string := "Server xatosi"

  /** A success message together with the region it is about. */
  datatype Notice = Notice(message: string, region: Region)

  // ---------------------------------------------------------------------------
  // createRegion: POST "/" of the region router
  // ---------------------------------------------------------------------------

  const NameRequired: string := "Region name is required"

  /**
   * The text the VARCHAR `name` column keeps for a JSON value: a string as it is, a boolean
   * as "1" or "0", a number as the decimal text `numberText` gives it. The model's validator
   * refuses arrays and objects for a STRING column, so they have none; `null` has none either.
   */
  function ColumnText(v: Value, numberText: real -> string): (t: Option<string>)
    ensures t.None? <==> v.Composite? || v.Null?
    ensures v.Str? ==> t == Some(v.s)
    ensures v.Bool? ==> t == Some(if v.b then "1" else "0")
    ensures v.Num? ==> t == Some(numberText(v.n))
  {
    match v
    case Str(s) => Some(s)
    case Num(n) => Some(numberText(n))
    case Bool(b) => Some(if b then "1" else "0")
    case Null => None
    case Composite => None
  }

  /**
   * The name the VARCHAR(255) `name` column stores for a JSON value: its text, when it has one
   * of at most 255 characters. MySQL in strict mode refuses a longer one.
   */
  function StoredName(v: Value, numberText: real -> string): (t: Option<string>)
    ensures t.Some? <==> ColumnText(v, numberText).Some? && |ColumnText(v, numberText).value| <= ColumnLimits.VarcharMax
    ensures t.Some? ==> t == ColumnText(v, numberText)
  {
    var text := ColumnText(v, numberText);
    if text.Some? && ColumnLimits.FirstRefusal([ColumnLimits.Varchar("name", text.value)]).None? then text else None
  }

  /** A string name is stored exactly when it has at most 255 characters, and then as sent. */
  lemma StringNameStored(s: string, numberText: real -> string)
    ensures StoredName(Str(s), numberText) == if |s| <= ColumnLimits.VarcharMax then Some(s) else None
  {
  }

  /**
   * `createRegion`: a falsy `name` is refused; an array or object fails the STRING column's
   * validation, and a text over 255 characters MySQL's; any other truthy value is stored as
   * the column's text for it.
   */
  method CreateRegion(t: RegionTable, b: Body, numberText: real -> string) returns (r: Reply<Notice>)
    requires t.Valid()
    modifies t
    ensures t.Valid()
    ensures !Truthy(Field(b, "name")) ==> r == Fail(400, NameRequired) && unchanged(t)
    ensures Truthy(Field(b, "name")) && StoredName(b["name"], numberText).None? ==>
      r == Fail(500, ServerError) && unchanged(t)
    ensures Truthy(Field(b, "name")) && StoredName(b["name"], numberText).Some? ==>
      && r == Ok(201, Notice("Region created", Region(old(t.nextId), StoredName(b["name"], numberText).value)))
      && t.rows == old(t.rows) + [r.value.region]
      && t.nextId == old(t.nextId) + 1
  {
    var name := Field(b, "name");
    if !Truthy(name) {
      return Fail(400, NameRequired);
    }
    var text := StoredName(name.value, numberText);
    if text.None? {
      return Fail(500, ServerError);
    }
    var g := Region(t.nextId, text.value);
    Tables.AppendFreshUnique(t.rows, g, IdOf);
    t.rows := t.rows + [g];
    t.nextId := t.nextId + 1;
    r := Ok(201, Notice("Region created", g));
  }

  /** A string name is stored as sent; a number or a boolean is stored too, as text. */
  lemma ScalarNamesAreStored(numberText: real -> string)
    ensures ColumnText(Str("Tashkent"), numberText) == Some("Tashkent")
    ensures ColumnText(Bool(true), numberText) == Some("1")
    ensures ColumnText(Num(5.0), numberText) == Some(numberText(5.0))
    ensures ColumnText(Composite, numberText).None?
  {
  }

  // ---------------------------------------------------------------------------
  // getAllRegions: GET "/" of the region router
  // ---------------------------------------------------------------------------

  /** The query parameters; `id` read as a number. */
  datatype ListParams = ListParams(id: Option<int>, page: Option<Pos>, limit: Option<Pos>)

  const DefaultPage: Pos := 1
  const DefaultLimit: Pos := 10

  function Keep(p: ListParams): Region -> bool {
    (g: Region) => p.id.Some? ==> g.id == p.id.value
  }

  /**
   * The answer of `getAllRegions`: page `page` of `limit` rows of the matching regions in
   * table order, the count before paging, and the number of pages, all always present.
   */
  function ListRegions(p: ListParams, rows: seq<Region>): (e: Envelope<Region>)
    ensures e.total == |Filter(rows, Keep(p))|
    ensures e.page == Some(p.page.GetOr(DefaultPage) as int)
    ensures e.totalPages == Some(CeilDiv(e.total, p.limit.GetOr(DefaultLimit)) as int)
    ensures |e.data| <= p.limit.GetOr(DefaultLimit)
    ensures e.data == Slice(Filter(rows, Keep(p)), PageWindow(p.page.GetOr(DefaultPage), p.limit.GetOr(DefaultLimit)))
  {
    var page := p.page.GetOr(DefaultPage);
    var limit := p.limit.GetOr(DefaultLimit);
    var matching := Filter(rows, Keep(p));
    Envelope(Slice(matching, PageWindow(page, limit)), |matching|, Some(page as int), Some(CeilDiv(|matching|, limit) as int))
  }

  /** `getAllRegions`: apply the defaults, then `findAndCountAll` with `where`, `limit` and `offset`. */
  method GetAllRegions(t: RegionTable, p: ListParams) returns (r: Reply<Envelope<Region>>)
    ensures r == Ok(200, ListRegions(p, t.rows))
  {
    var page: Pos := 1;
    var limit: Pos := 10;
    if p.page.Some? {
      page := p.page.value;
    }
    if p.limit.Some? {
      limit := p.limit.value;
    }
    var found := Slice(Filter(t.rows, Keep(p)), PageWindow(page, limit));
    var count := |Filter(t.rows, Keep(p))|;
    r := Ok(200, Envelope(found, count, Some(page as int), Some(CeilDiv(count, limit) as int)));
  }

  /** Filtering by `id` finds at most one region, since keys are unique. */
  lemma {:induction false} IdFilterAtMostOne(rows: seq<Region>, p: ListParams)
    requires Tables.UniqueIds(rows, IdOf) && p.id.Some?
    ensures ListRegions(p, rows).total <= 1
  {
    if rows != [] {
      Tables.TailUnique(rows, IdOf);
      IdFilterAtMostOne(rows[1..], p);
      if rows[0].id == p.id.value {
        NoneLeft(rows[1..], p);
      }
    }
  }

  lemma {:induction false} NoneLeft(rows: seq<Region>, p: ListParams)
    requires p.id.Some? && forall g :: g in rows ==> g.id != p.id.value
    ensures Filter(rows, Keep(p)) == []
  {
    if rows != [] {
      NoneLeft(rows[1..], p);
    }
  }

  /** With the defaults, a table of 25 regions is listed as three pages of ten. */
  lemma DefaultPaging(rows: seq<Region>)
    requires |rows| == 25
    ensures ListRegions(ListParams(None, None, None), rows).totalPages == Some(3)
    ensures ListRegions(ListParams(None, None, None), rows).data == rows[..10]
  {
    var p := ListParams(None, None, None);
    assert forall x :: Keep(p)(x);
    FilterAll(rows, Keep(p));
    assert CeilDiv(25, 10) == 3;
    var page := Slice(rows, PageWindow(1, 10));
    assert |page| == 10;
    assert forall k :: 0 <= k < 10 ==> page[k] == rows[k];
  }

  lemma {:induction false} FilterAll<T(!new)>(s: seq<T>, keep: T -> bool)
    requires forall x :: keep(x)
    ensures Filter(s, keep) == s
  {
    if s != [] {
      FilterAll(s[1..], keep);
    }
  }

  // ---------------------------------------------------------------------------
  // updateRegion (PUT "/:id") and deleteRegion (DELETE "/:id") of the region router
  // ---------------------------------------------------------------------------

  const NotFound: string := "Region not found"

  /** `updateRegion`: `region.name = name || region.name`, then `save()`. */
  method UpdateRegion(t: RegionTable, id: nat, b: Body, numberText: real -> string) returns (r: Reply<Notice>)
    requires t.Valid()
    modifies t
    ensures t.Valid() && t.nextId == old(t.nextId)
    ensures !Tables.HasId(old(t.rows), id, IdOf) ==> r == Fail(404, NotFound) && unchanged(t)
    ensures Tables.HasId(old(t.rows), id, IdOf) && Truthy(Field(b, "name")) && StoredName(b["name"], numberText).None? ==>
      r == Fail(500, ServerError) && unchanged(t)
    ensures Tables.HasId(old(t.rows), id, IdOf) && !(Truthy(Field(b, "name")) && StoredName(b["name"], numberText).None?) ==>
      var before := Tables.Lookup(old(t.rows), id, IdOf).value;
      var name := if Truthy(Field(b, "name")) then StoredName(b["name"], numberText).value else before.name;
      && r == Ok(200, Notice("Region updated", Region(id, name)))
      && t.rows == Tables.Replace(old(t.rows), id, IdOf, r.value.region)
  {
    var found := Tables.Lookup(t.rows, id, IdOf);
    if found.None? {
      return Fail(404, NotFound);
    }
    var region := found.value;
    var name := Field(b, "name");
    if Truthy(name) {
      var text := StoredName(name.value, numberText);
      if text.None? {
        return Fail(500, ServerError);
      }
      region := region.(name := text.value);
    }
    var rows := Tables.Replace(t.rows, id, IdOf, region);
    Tables.ReplaceKeepsUnique(t.rows, id, IdOf, region);
    forall k | 0 <= k < |rows| ensures 1 <= rows[k].id < t.nextId {
      assert rows[k].id == t.rows[k].id;
    }
    t.rows := rows;
    r := Ok(200, Notice("Region updated", region));
  }

  /** A falsy `name` leaves the region as it was. */
  lemma FalsyNameKeepsRegion(rows: seq<Region>, id: nat)
    requires Tables.UniqueIds(rows, IdOf) && Tables.HasId(rows, id, IdOf)
    ensures Tables.Replace(rows, id, IdOf, Tables.Lookup(rows, id, IdOf).value) == rows
  {
    var g := Tables.Lookup(rows, id, IdOf).value;
    var r := Tables.Replace(rows, id, IdOf, g);
    forall k | 0 <= k < |rows| ensures r[k] == rows[k] {
      if rows[k].id == id {
        Tables.LookupUnique(rows, id, IdOf, k);
      }
    }
  }

  /** `deleteRegion`: remove the row with that key, or 404. */
  method DeleteRegion(t: RegionTable, id: nat) returns (r: Reply<string>)
    requires t.Valid()
    modifies t
    ensures t.Valid() && t.nextId == old(t.nextId)
    ensures !Tables.HasId(old(t.rows), id, IdOf) ==> r == Fail(404, NotFound) && unchanged(t)
    ensures Tables.HasId(old(t.rows), id, IdOf) ==>
      && r == Ok(200, "Region deleted")
      && t.rows == Tables.Remove(old(t.rows), id, IdOf)
      && |t.rows| == |old(t.rows)| - 1
  {
    if Tables.Lookup(t.rows, id, IdOf).None? {
      return Fail(404, NotFound);
    }
    Tables.RemoveKeepsUnique(t.rows, id, IdOf);
    Tables.RemoveOne(t.rows, id, IdOf);
    t.rows := Tables.Remove(t.rows, id, IdOf);
    r := Ok(200, "Region deleted");
  }
}

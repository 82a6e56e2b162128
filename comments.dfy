/**
 * The comment handlers of src/controller/comment.controller.js over an in-memory
 * `comments` table. `author_id` is the caller's id, which only a role guard can set.
 */
module Comments {
  import opened Wrappers
  import opened Http
  import opened Body
  import opened Query
  import opened Validation
  import Tables

  /** A row of the `comments` table. */
  datatype Comment = Comment(id: nat, message: string, star: int, productId: Uuid, authorId: Uuid)

  function IdOf(c: Comment): nat {
    c.id
  }

  /** The `comments` table: its rows in insertion order and the next AUTO_INCREMENT value. */
  class CommentTable {
    var rows: seq<Comment>
    var nextId: nat

    /** Keys are unique and every key was handed out by the counter. */
    ghost predicate Valid()
      reads this
    {
      && Tables.UniqueIds(rows, IdOf)
      && nextId >= 1
      && forall k :: 0 <= k < |rows| ==> 1 <= rows[k].id < nextId
    }

    constructor ()
      ensures Valid() && rows == [] && nextId == 1
    {
      rows := [];
      nextId := 1;
    }
  }

  // ---------------------------------------------------------------------------
  // getComments: GET "/" of the comment router
  // ---------------------------------------------------------------------------

  /** The query parameters, with `page`, `limit`, `min_star` and `max_star` read by `parseInt`. */
  datatype ListParams = ListParams(
    page: Option<Pos>, limit: Option<Pos>, sort: Option<string>,
    productId: Option<Uuid>, minStar: Option<int>, maxStar: Option<int>)

  /** The `where` object: equality on `product_id`, `Op.gte`/`Op.lte` on `star`. */
  datatype Where = Where(productId: Option<Uuid>, starGte: Option<int>, starLte: Option<int>)

  /** `queryOptions`: the window, the one column ordered ascending, and the `where` object. */
  datatype Options = Options(window: Window, order: string, where: Where)

  /** The comments a request asks for. */
  predicate Requested(p: ListParams, c: Comment) {
    && (Given(p.productId) ==> c.productId == p.productId.value)
    && (p.minStar.Some? ==> c.star >= p.minStar.value)
    && (p.maxStar.Some? ==> c.star <= p.maxStar.value)
  }

  function Keep(p: ListParams): Comment -> bool {
    c => Requested(p, c)
  }

  /** The rows a `where` object admits. */
  predicate Admits(w: Where, c: Comment) {
    MatchesIfGiven(w.productId, c.productId) && WithinIfGiven(w.starGte, w.starLte, c.star)
  }

  /** The default sort column. */
  const DefaultSort: string := "star"

  /** Builds `queryOptions` one parameter at a time. */
  method BuildOptions(p: ListParams) returns (o: Options)
    ensures o.window.Range? <==> p.page.Some? && p.limit.Some?
    ensures o.window.Range? ==> o.window == PageWindow(p.page.value, p.limit.value)
    ensures o.order == OrDefault(p.sort, DefaultSort)
    ensures forall c :: Admits(o.where, c) <==> Requested(p, c)
  {
    o := Options(All, "", Where(None, None, None));
    if p.page.Some? && p.limit.Some? {
      o := o.(window := PageWindow(p.page.value, p.limit.value));
    }
    if Given(p.sort) {
      o := o.(order := p.sort.value);
    } else {
      o := o.(order := DefaultSort);
    }
    if Given(p.productId) {
      o := o.(where := o.where.(productId := p.productId));
    }
    if p.minStar.Some? || p.maxStar.Some? {
      if p.minStar.Some? {
        o := o.(where := o.where.(starGte := p.minStar));
      }
      if p.maxStar.Some? {
        o := o.(where := o.where.(starLte := p.maxStar));
      }
    }
  }

  /** The columns of the table a request may sort by. */
  const Columns: set<string> := {"id", "message", "star", "product_id", "author_id"}

  /** The value of column `name` in row `c`. */
  function Column(c: Comment, name: string): Cell {
    if name == "id" then IntCell(c.id)
    else if name == "message" then StrCell(c.message)
    else if name == "star" then IntCell(c.star)
    else if name == "product_id" then StrCell(c.productId)
    else StrCell(c.authorId)
  }

  function SortKey(name: string): Comment -> Cell {
    c => Column(c, name)
  }

  /**
   * The answer of `getComments` over `rows`: the requested comments, filtered, ordered
   * by the sort column and windowed, with the count before windowing.
   */
  function ListComments(p: ListParams, rows: seq<Comment>): (r: Reply<Envelope<Comment>>)
    ensures r.Fail? <==> OrDefault(p.sort, DefaultSort) !in Columns
    ensures r.Fail? ==> r == Fail(500, UnknownColumn("comment", OrDefault(p.sort, DefaultSort)))
    ensures r.Ok? ==> r.status == 200 && r.value.total == |Filter(rows, Keep(p))|
    ensures r.Ok? ==> forall c :: c in r.value.data ==> c in rows && Requested(p, c)
    ensures r.Ok? ==> SortedBy(r.value.data, SortKey(OrDefault(p.sort, DefaultSort)))
    ensures r.Ok? && (p.page.None? || p.limit.None?) ==>
      multiset(r.value.data) == multiset(Filter(rows, Keep(p))) && r.value.page.None? && r.value.totalPages.None?
    ensures r.Ok? && p.page.Some? && p.limit.Some? ==>
      && |r.value.data| <= p.limit.value
      && WindowOfSorted(r.value.data, rows, Keep(p), SortKey(OrDefault(p.sort, DefaultSort)), PageWindow(p.page.value, p.limit.value))
      && (|r.value.data| > 0 <==> p.page.value <= CeilDiv(r.value.total, p.limit.value))
      && r.value.page == Some(p.page.value as int)
      && r.value.totalPages == Some(CeilDiv(r.value.total, p.limit.value) as int)
  {
    var column := OrDefault(p.sort, DefaultSort);
    if column !in Columns then Fail(500, UnknownColumn("comment", column))
    else
      var w := if p.page.Some? && p.limit.Some? then PageWindow(p.page.value, p.limit.value) else All;
      var found := FindAndCount(rows, Keep(p), SortKey(column), w);
      PageInRange(found.count, p.page.GetOr(1), p.limit.GetOr(1));
      Ok(200, OptionalPaging(found.rows, found.count, p.page, p.limit))
  }

  /** `getComments`: build the options, run `findAndCountAll`, wrap the envelope. */
  method GetComments(t: CommentTable, p: ListParams) returns (r: Reply<Envelope<Comment>>)
    ensures r == ListComments(p, t.rows)
  {
    var o := BuildOptions(p);
    if o.order !in Columns {
      return Fail(500, UnknownColumn("comment", o.order));
    }
    var admits := (c: Comment) => Admits(o.where, c);
    FindAndCountExt(t.rows, admits, Keep(p), SortKey(o.order), o.window);
    var found := FindAndCount(t.rows, admits, SortKey(o.order), o.window);
    r := Ok(200, OptionalPaging(found.rows, found.count, p.page, p.limit));
  }

  /** With no sort parameter the list is in ascending order of `star`. */
  lemma DefaultOrderIsStar(p: ListParams, rows: seq<Comment>)
    requires !Given(p.sort)
    ensures ListComments(p, rows).Ok?
    ensures forall i, j :: 0 <= i < j < |ListComments(p, rows).value.data| ==>
      ListComments(p, rows).value.data[i].star <= ListComments(p, rows).value.data[j].star
  {
    var data := ListComments(p, rows).value.data;
    forall i, j | 0 <= i < j < |data| ensures data[i].star <= data[j].star {
      assert CellLe(SortKey(DefaultSort)(data[i]), SortKey(DefaultSort)(data[j]));
    }
  }

  // ---------------------------------------------------------------------------
  // getComment: GET "/:id" of the comment router
  // ---------------------------------------------------------------------------

  const NotFound: string := "comment not found"

  /** `getComment`: the row with that key, or 404. */
  method GetComment(t: CommentTable, id: nat) returns (r: Reply<Comment>)
    ensures r.Ok? <==> Tables.HasId(t.rows, id, IdOf)
    ensures r.Ok? ==> r.status == 200 && r.value in t.rows && r.value.id == id
    ensures r.Fail? ==> r == Fail(404, NotFound)
  {
    var found := Tables.Lookup(t.rows, id, IdOf);
    if found.None? {
      return Fail(404, NotFound);
    }
    r := Ok(200, found.value);
  }

  // ---------------------------------------------------------------------------
  // createComment (POST "/"), updateComment (PUT "/:id") and deleteComment (DELETE "/:id") of
  // the comment router
  // ---------------------------------------------------------------------------

  /** The fields a valid body supplies. */
  predicate Supplies(b: Body) {
    && "message" in b && b["message"].Str?
    && RequiredInteger(b, "star")
    && "product_id" in b && b["product_id"].Str?
  }

  lemma ValidSupplies(b: Body, f: Formats)
    requires CommentValid(b, f)
    ensures Supplies(b)
  {
  }

  /** The comment `{...body, author_id}` with key `id`. */
  function FromBody(id: nat, b: Body, author: Uuid): Comment
    requires Supplies(b)
  {
    Comment(id, b["message"].s, IntOf(b["star"]), b["product_id"].s, author)
  }

  /** `createComment`: validate, then insert a row whose author is the caller. */
  method CreateComment(t: CommentTable, b: Body, f: Formats, caller: Option<Uuid>) returns (r: Reply<Comment>)
    requires t.Valid()
    modifies t
    ensures t.Valid()
    ensures !CommentValid(b, f) ==> r == Fail(400, ValidationFailed) && unchanged(t)
    ensures CommentValid(b, f) && caller.None? ==>
      r == Fail(500, NotNullViolation("comment.author_id")) && unchanged(t)
    ensures CommentValid(b, f) && caller.Some? ==>
      && r == Ok(201, FromBody(old(t.nextId), b, caller.value))
      && t.rows == old(t.rows) + [r.value]
      && t.nextId == old(t.nextId) + 1
  {
    if !CommentValid(b, f) {
      return Fail(400, ValidationFailed);
    }
    if caller.None? {
      return Fail(500, NotNullViolation("comment.author_id"));
    }
    var c := FromBody(t.nextId, b, caller.value);
    assert !Tables.HasId(t.rows, c.id, IdOf);
    Tables.AppendFreshUnique(t.rows, c, IdOf);
    t.rows := t.rows + [c];
    t.nextId := t.nextId + 1;
    r := Ok(201, c);
  }

  /** `comment.update({...body, author_id: comment.author_id})`. */
  function Edited(c: Comment, b: Body): Comment
    requires Supplies(b)
  {
    FromBody(c.id, b, c.authorId)
  }

  /** `updateComment`: validate first, then look the row up, then overwrite all but the author. */
  method UpdateComment(t: CommentTable, id: nat, b: Body, f: Formats) returns (r: Reply<Comment>)
    requires t.Valid()
    modifies t
    ensures t.Valid() && t.nextId == old(t.nextId)
    ensures !CommentValid(b, f) ==> r == Fail(400, ValidationFailed) && unchanged(t)
    ensures CommentValid(b, f) && !Tables.HasId(old(t.rows), id, IdOf) ==> r == Fail(404, NotFound) && unchanged(t)
    ensures CommentValid(b, f) && Tables.HasId(old(t.rows), id, IdOf) ==>
      var before := Tables.Lookup(old(t.rows), id, IdOf).value;
      && r == Ok(200, Edited(before, b))
      && r.value.id == id && r.value.authorId == before.authorId
      && t.rows == Tables.Replace(old(t.rows), id, IdOf, r.value)
  {
    if !CommentValid(b, f) {
      return Fail(400, ValidationFailed);
    }
    var found := Tables.Lookup(t.rows, id, IdOf);
    if found.None? {
      return Fail(404, NotFound);
    }
    var c := Edited(found.value, b);
    var rows := Tables.Replace(t.rows, id, IdOf, c);
    Tables.ReplaceKeepsUnique(t.rows, id, IdOf, c);
    forall k | 0 <= k < |rows| ensures 1 <= rows[k].id < t.nextId {
      assert rows[k].id == t.rows[k].id;
    }
    t.rows := rows;
    r := Ok(200, c);
  }

  /** The response body of a 204. */
  datatype NoContent = NoContent

  /** `deleteComment`: remove the row with that key, or 404. */
  method DeleteComment(t: CommentTable, id: nat) returns (r: Reply<NoContent>)
    requires t.Valid()
    modifies t
    ensures t.Valid() && t.nextId == old(t.nextId)
    ensures !Tables.HasId(old(t.rows), id, IdOf) ==> r == Fail(404, NotFound) && unchanged(t)
    ensures Tables.HasId(old(t.rows), id, IdOf) ==>
      r == Ok(204, NoContent) && t.rows == Tables.Remove(old(t.rows), id, IdOf)
  {
    var found := Tables.Lookup(t.rows, id, IdOf);
    if found.None? {
      return Fail(404, NotFound);
    }
    Tables.RemoveKeepsUnique(t.rows, id, IdOf);
    t.rows := Tables.Remove(t.rows, id, IdOf);
    r := Ok(204, NoContent);
  }

  /** A deletion removes exactly one row, the one with that key, and keeps the others in order. */
  lemma DeleteRemovesExactlyOne(rows: seq<Comment>, id: nat)
    requires Tables.UniqueIds(rows, IdOf) && Tables.HasId(rows, id, IdOf)
    ensures |Tables.Remove(rows, id, IdOf)| == |rows| - 1
    ensures forall c :: c in Tables.Remove(rows, id, IdOf) <==> c in rows && c.id != id
  {
    Tables.RemoveOne(rows, id, IdOf);
  }
}

/**
 * The Joi request schemas of the application as predicates over a parsed body.
 * Every schema is `strict()`: no type coercion, so the string "5" is not a number. Joi
 * objects reject keys the schema does not declare, and a string schema rejects "".
 */
module Validation {
  import opened Body

  // ---------------------------------------------------------------------------
  // Rule shapes shared by the schemas
  // ---------------------------------------------------------------------------

  /** `Joi.string().min(lo).max(hi).required()` on field `key`. */
  predicate StringWithin(b: Body, key: string, lo: nat, hi: nat) {
    key in b && b[key].Str? && b[key].s != [] && lo <= |b[key].s| <= hi
  }

  /** `Joi.string().<format>().required()` on field `key`, for an abstract format. */
  predicate FormattedString(b: Body, key: string, format: string -> bool) {
    key in b && b[key].Str? && b[key].s != [] && format(b[key].s)
  }

  /** `Joi.number().integer().required()` on field `key`. */
  predicate RequiredInteger(b: Body, key: string) {
    key in b && IsInteger(b[key])
  }

  /** `Joi.number().integer().min(lo).max(hi).required()` on field `key`. */
  predicate IntegerWithin(b: Body, key: string, lo: int, hi: int) {
    RequiredInteger(b, key) && lo <= IntOf(b[key]) <= hi
  }

  /** No key outside the declared ones. */
  predicate OnlyKeys(b: Body, keys: set<string>) {
    b.Keys <= keys
  }

  // ---------------------------------------------------------------------------
  // src/validation/user.validate.js
  // ---------------------------------------------------------------------------

  const UserKeys: set<string> :=
    {"name", "year", "phone", "email", "region_id", "password", "location", "image", "role"}

  const RoleNames: set<string> := {"seller", "user", "admin", "superadmin"}

  predicate IsDigit(c: char) {
    '0' <= c <= '9'
  }

  /** The pattern /^\+998\d{9}$/: the prefix "+998" and then exactly nine decimal digits. */
  predicate PhoneMatches(s: string) {
    |s| == 13 && s[..4] == "+998" && forall i :: 4 <= i < 13 ==> IsDigit(s[i])
  }

  /** `userValidationSchema`, with the year of the server's clock as a parameter. */
  predicate UserValid(b: Body, f: Formats, currentYear: int) {
    && OnlyKeys(b, UserKeys)
    && StringWithin(b, "name", 3, 50)
    && IntegerWithin(b, "year", 1900, currentYear)
    && "phone" in b && b["phone"].Str? && PhoneMatches(b["phone"].s)
    && FormattedString(b, "email", f.isEmail)
    && RequiredInteger(b, "region_id")
    && StringWithin(b, "password", 8, 128)
    && StringWithin(b, "location", 3, 255)
    && FormattedString(b, "image", f.isUri)
    && "role" in b && b["role"].Str? && b["role"].s in RoleNames
  }

  // ---------------------------------------------------------------------------
  // src/validation/product.validate.js
  // ---------------------------------------------------------------------------

  const ProductKeys: set<string> := {"name", "description", "price", "image", "star", "category_id"}

  /** `productValidationSchema`. */
  predicate ProductValid(b: Body, f: Formats) {
    && OnlyKeys(b, ProductKeys)
    && StringWithin(b, "name", 3, 100)
    && StringWithin(b, "description", 10, 500)
    && RequiredInteger(b, "price") && IntOf(b["price"]) >= 0
    && FormattedString(b, "image", f.isUri)
    && IntegerWithin(b, "star", 1, 5)
    && RequiredInteger(b, "category_id")
  }

  // ---------------------------------------------------------------------------
  // src/validation/comment.validate.js
  // ---------------------------------------------------------------------------

  const CommentKeys: set<string> := {"message", "star", "product_id"}

  /** `commentValidationSchema`. */
  predicate CommentValid(b: Body, f: Formats) {
    && OnlyKeys(b, CommentKeys)
    && StringWithin(b, "message", 3, 500)
    && IntegerWithin(b, "star", 1, 5)
    && FormattedString(b, "product_id", f.isUuid)
  }

  // ---------------------------------------------------------------------------
  // src/validation/category.validate.js
  // ---------------------------------------------------------------------------

  /** `categoryValidationSchema`: `name` required. */
  predicate CategoryValid(b: Body) {
    OnlyKeys(b, {"name"}) && StringWithin(b, "name", 3, 50)
  }

  /** `categoryUpdateSchema`: `name` optional, but the object needs at least one key. */
  predicate CategoryUpdateValid(b: Body) {
    && OnlyKeys(b, {"name"})
    && |b| >= 1
    && ("name" in b ==> StringWithin(b, "name", 3, 50))
  }

  // ---------------------------------------------------------------------------
  // Schemas as values, and what a controller's binding of a validation module holds
  // ---------------------------------------------------------------------------

  datatype Schema = UserSchema | ProductSchema | CommentSchema | CategorySchema | CategoryUpdateSchema

  /** Whether `schema.validate(b)` reports no error. */
  predicate Accepts(schema: Schema, b: Body, f: Formats, currentYear: int) {
    match schema
    case UserSchema => UserValid(b, f, currentYear)
    case ProductSchema => ProductValid(b, f)
    case CommentSchema => CommentValid(b, f)
    case CategorySchema => CategoryValid(b)
    case CategoryUpdateSchema => CategoryUpdateValid(b)
  }

  /**
   * What a controller's local name for a validation module holds: a schema, a plain object
   * of schemas (what `require` returns for `module.exports = { a, b }`), or nothing at all
   * (the `require` line is commented out).
   */
  datatype Binding = SchemaValue(schema: Schema) | ExportsObject(members: map<string, Schema>) | Unbound

  /** The outcome of `name.validate(body)`: passed, rejected, or a JavaScript exception. */
  datatype Check = Passed | Rejected | Threw(message: string)

  function CallValidate(name: string, binding: Binding, b: Body, f: Formats, currentYear: int): (c: Check)
    ensures c.Threw? <==> !binding.SchemaValue?
    ensures binding.SchemaValue? ==> (c.Passed? <==> Accepts(binding.schema, b, f, currentYear))
    ensures binding.Unbound? ==> c == Threw(name + " is not defined")
    ensures binding.ExportsObject? ==> c == Threw(name + ".validate is not a function")
  {
    match binding
    case SchemaValue(s) => if Accepts(s, b, f, currentYear) then Passed else Rejected
    case ExportsObject(_) => Threw(name + ".validate is not a function")
    case Unbound => Threw(name + " is not defined")
  }

  /** Formats for a call whose schema checks none (the category schemas). */
  const NoFormats: Formats := Formats(_ => false, _ => false, _ => false)

  /** `module.exports` of src/validation/category.validate.js. */
  const CategoryModuleExports: Binding :=
    ExportsObject(map["categoryValidationSchema" := CategorySchema, "categoryUpdateSchema" := CategoryUpdateSchema])

  /** What the default export of the other three validation modules is. */
  const UserModuleExport: Binding := SchemaValue(UserSchema)
  const ProductModuleExport: Binding := SchemaValue(ProductSchema)
  const CommentModuleExport: Binding := SchemaValue(CommentSchema)

  // ---------------------------------------------------------------------------
  // Properties of the schemas
  // ---------------------------------------------------------------------------

  /** A valid body carries exactly the schema's keys: all are required and no other is allowed. */
  lemma ValidBodiesHaveExactKeys(b: Body, f: Formats, currentYear: int)
    ensures UserValid(b, f, currentYear) ==> b.Keys == UserKeys
    ensures ProductValid(b, f) ==> b.Keys == ProductKeys
    ensures CommentValid(b, f) ==> b.Keys == CommentKeys
    ensures CategoryValid(b) ==> b.Keys == {"name"}
  {
  }

  /** A client cannot choose the author: both write schemas reject a body carrying `author_id`. */
  lemma AuthorIdRejected(b: Body, f: Formats)
    requires "author_id" in b
    ensures !ProductValid(b, f) && !CommentValid(b, f)
  {
    assert "author_id" !in ProductKeys;
    assert "author_id" !in CommentKeys;
  }

  /** Strict mode: a numeric field given as a JSON string fails, whatever the string. */
  lemma StrictRejectsNumericStrings(b: Body, f: Formats, currentYear: int, key: string)
    requires key in b && b[key].Str?
    ensures key == "price" || key == "star" || key == "category_id" ==> !ProductValid(b, f)
    ensures key == "star" ==> !CommentValid(b, f)
    ensures key == "year" || key == "region_id" ==> !UserValid(b, f, currentYear)
  {
  }

  /**
   * Because `name` is the update schema's only key, `min(1)` makes it required after all:
   * the update schema accepts exactly the bodies the create schema accepts.
   */
  lemma CategorySchemasAgree(b: Body)
    ensures CategoryUpdateValid(b) <==> CategoryValid(b)
  {

  }

  /** The phone rule fixes the country code and the length, and admits every nine-digit tail. */
  lemma {:induction false} PhoneShape(digits: string)
    requires |digits| == 9 && forall i :: 0 <= i < 9 ==> IsDigit(digits[i])
    ensures PhoneMatches("+998" + digits)
    ensures !PhoneMatches("+997" + digits) && !PhoneMatches("+998" + digits + "0")
  {
    var s := "+998" + digits;
    assert s[..4] == "+998";
    forall i | 4 <= i < 13 ensures IsDigit(s[i]) {
      assert s[i] == digits[i - 4];
    }
    assert ("+997" + digits)[3] == '7';
  }

  /** The role field accepts exactly the four roles of the user table's enum. */
  lemma RoleRule(b: Body, f: Formats, currentYear: int)
    requires UserValid(b, f, currentYear)
    ensures b["role"].s == "seller" || b["role"].s == "user" || b["role"].s == "admin" || b["role"].s == "superadmin"
  {
  }

  /** Every field bound of the user schema, read off a valid body. */
  lemma UserBounds(b: Body, f: Formats, currentYear: int)
    requires UserValid(b, f, currentYear)
    ensures 3 <= |b["name"].s| <= 50 && 8 <= |b["password"].s| <= 128 && 3 <= |b["location"].s| <= 255
    ensures 1900 <= IntOf(b["year"]) <= currentYear
    ensures |b["phone"].s| == 13
  {
  }

  /** Every field bound of the product and comment schemas, read off a valid body. */
  lemma ProductAndCommentBounds(p: Body, c: Body, f: Formats)
    requires ProductValid(p, f) && CommentValid(c, f)
    ensures 3 <= |p["name"].s| <= 100 && 10 <= |p["description"].s| <= 500
    ensures IntOf(p["price"]) >= 0 && 1 <= IntOf(p["star"]) <= 5
    ensures 3 <= |c["message"].s| <= 500 && 1 <= IntOf(c["star"]) <= 5
  {
  }

  /** As written, any `.validate` call through the category module's export throws. */
  lemma CategoryExportsCannotValidate(name: string, b: Body, f: Formats, currentYear: int)
    ensures CallValidate(name, CategoryModuleExports, b, f, currentYear) == Threw(name + ".validate is not a function")
  {
  }
}

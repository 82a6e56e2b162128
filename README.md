# online-market: a Dafny model of the request handlers

This project models the deterministic core of the online-market REST backend, an
Express/Sequelize service with products, comments, categories, regions, users and orders.
Each database table becomes an in-memory table: a class whose `rows` field is a `seq` of
records, plus an AUTO_INCREMENT counter where the table has one. Each handler becomes a
method over those tables. It returns `Reply<T> = Ok(status, value) | Fail(status, message)`
and states the new contents of every table it may change.

The modules:

- `Body` and `Validation`: the parsed JSON body, and the Joi schemas as predicates over it
  (`UserValid`, `ProductValid`, `CommentValid`, `CategoryValid`, `CategoryUpdateValid`).
  The email, URI and UUID formats are abstract.
- `Query`: what `findAndCountAll` computes. It keeps the rows the `where` clause admits, sorts
  them stably on one ascending column, counts them, and cuts out the `limit`/`offset` window.
  It also builds the envelope `{data, total, page?, totalPages?}`, where
  `totalPages = ceil(total / limit)`.
- `Tables`: `findByPk`/`findOne`, `instance.update` and `instance.destroy` on a keyed sequence
  of rows.
- `Ratings`: the per-product `{total, count}` star map that the product list fills in a loop,
  and the mean a single product shows. Means are exact rationals.
- `Comments`, `Products`, `Categories`, `Regions`, `Users`, `Orders`: the handlers of each
  controller.
- `RoleGuard`: `roleMiddleware(roles)`. It decides on the `Authorization` header, using an
  abstract token verifier.
- `OrderRoutes`: the allow-list on each order route.
- `ColumnLimits`: MySQL's strict-mode limits on Sequelize's `STRING` (VARCHAR(255)) and
  `INTEGER` (32-bit INT) columns, with MySQL's message for the first value that does not fit.

Hashing, password comparison, token signing and verification, the one-time-password
generator and checker, the server clock, the decimal text MySQL gives a number, and freshly
generated UUID keys are all parameters
of the methods that use them.

Where the code and its documentation disagree, the model follows the code:

- `createCategory` and `updateCategory` bind the wrong value, so they cannot validate.
- `register` and `updateUser` refer to a schema that is never imported.
- `refresh` signs a token without a role.

All three are listed under "## Findings". Each is modelled twice: once as written and once
as evidently intended.

A request whose caller has not passed a role guard has `userId` undefined. The product and
comment routes carry no guard. Creating a product or a comment therefore takes the caller as
an `Option`. With `None`, the NOT NULL `author_id` column refuses the insert, and the
response is a 500.

## Model

| member | source | states |
|---|---|---|
| Validation.ValidBodiesHaveExactKeys | src/validation/user.validate.js:3-75 | a body valid for the user, product, comment or category schema carries exactly that schema's keys: every key is required and unknown keys are rejected |
| Validation.StrictRejectsNumericStrings | src/validation/product.validate.js:22-58 | in strict mode a numeric field (price, star, category_id, year, region_id) given as a JSON string fails validation, whatever the string |
| Validation.UserBounds | src/validation/user.validate.js:4-60 | a valid user body has a name of 3-50 characters, a password of 8-128, a location of 3-255, a year in [1900, current year] and a 13-character phone |
| Validation.PhoneShape | src/validation/user.validate.js:22-28 | for every nine-digit tail: "+998" followed by any nine digits matches the phone pattern; a different country code or a tenth digit does not |
| Validation.RoleRule | src/validation/user.validate.js:68-74 | a valid user body's role is seller, user, admin or superadmin |
| Validation.ProductAndCommentBounds | src/validation/product.validate.js:4-50 | valid product bodies have a name of 3-100, a description of 10-500, a price >= 0 and a star in [1, 5]; valid comment bodies have a message of 3-500 and a star in [1, 5] |
| Validation.AuthorIdRejected | src/validation/comment.validate.js:3-32 | a body carrying `author_id` is rejected by both the product and the comment schema |
| Validation.CategorySchemasAgree | src/validation/category.validate.js:15-23 | the update schema, with `name` optional but `min(1)`, accepts exactly the bodies the create schema accepts |
| Validation.CallValidate | src/controller/category.controller.js:66 | `name.validate(body)` passes exactly when the bound schema accepts the body; it throws "is not defined" on an unbound name and "is not a function" on an object of schemas |
| Validation.CategoryExportsCannotValidate | src/validation/category.validate.js:27 | `.validate` called through the category module's exported object always throws |
| Query.OrDefault | src/controller/product.controller.js:26-30 | the sort column is the parameter when given, otherwise the entity's default |
| Query.Filter | src/controller/comment.controller.js:31-42 | a row is in the result exactly when it is in the table and the clause admits it; the result is no longer than the table |
| Query.FilterCounts | src/controller/order.controller.js:88-90 | each admitted row is kept as often as the table holds it, and a row the clause refuses never appears |
| Query.FilterAppend | src/controller/order.controller.js:113-121 | filtering a concatenation filters each part; this carries the item-replacement proofs |
| Query.SortBy | src/controller/product.controller.js:26-30 | the result is in ascending order of the sort column and is a permutation of the input |
| Query.Slice | src/controller/product.controller.js:21-24 | without a window every row is returned; with a window, the rows from its offset on, in order, at most its limit of them and none past the end |
| Query.CeilDiv | src/controller/product.controller.js:81 | `Math.ceil(total/limit)`: the least page count whose pages hold all `total` rows |
| Query.PagesHoldingRows | src/controller/region.controller.js:31 | page `page` is non-empty exactly when `page <= ceil(total/limit)` |
| Query.SecondPageOfTen | src/controller/region.controller.js:24-25 | one example of the window arithmetic: with ten rows per page, page 2 is rows 11-20 |
| Query.FindAndCount | src/controller/product.controller.js:48 | `count` is the number of matching rows before the window; the rows returned are exactly the window of the matching rows put in ascending order of the sort column (ties in any order); a window starting at offset `o` holds `min(limit, count - o)` rows, none when `o >= count`; without a window every matching row comes back |
| Query.PageInRange | src/controller/product.controller.js:79-81 | page `page` starts inside the `count` matching rows exactly when `page <= ceil(count/limit)` |
| Query.OptionalPaging | src/controller/comment.controller.js:46-54 | `page` and `totalPages` appear exactly when both `page` and `limit` are given, and then `totalPages = ceil(total/limit)` |
| Tables.Lookup | src/controller/product.controller.js:93-99 | `findByPk` finds a row exactly when one has the key, and the row found has it |
| Tables.LookupUnique | src/controller/product.controller.js:145-147 | with unique keys the row found is the one holding the key |
| Tables.Replace | src/controller/comment.controller.js:112-115 | the row with the key becomes the new value; every other row and the order are kept |
| Tables.ReplaceKeepsUnique | src/controller/product.controller.js:148-151 | replacing a row by one with the same key keeps keys unique |
| Tables.Remove | src/controller/comment.controller.js:125-130 | after `destroy` no row has the key, every other row is kept, and a missing key changes nothing |
| Tables.RemoveKeepsUnique | src/controller/category.controller.js:103 | removing rows keeps keys unique |
| Tables.RemoveOne | src/controller/region.controller.js:61-65 | with unique keys, deleting an existing key removes exactly one row |
| Tables.AppendFreshUnique | src/controller/product.controller.js:126-130 | inserting a row under an unused key keeps keys unique |
| Ratings.TallyStars | src/controller/product.controller.js:57-65 | the `starMap` loop ends with an entry exactly for the products with comments, holding their exact star sum and comment count |
| Ratings.StarOf | src/controller/product.controller.js:67-72 | a listed product's star is null exactly when it has no comments, otherwise the sum of its stars divided by their count |
| Ratings.ListedStarIsStarOf | src/controller/product.controller.js:69-70 | reading the loop's map gives each product that star |
| Ratings.OtherProductsIgnored | src/controller/product.controller.js:58-64 | comments on other products change neither the sum, nor the count, nor the star of a product |
| Ratings.OnlyOwnRatingsCount | src/controller/product.controller.js:52-55 | fetching only the comments of the listed products leaves every listed product's star as all comments give it |
| Ratings.TallyCountsAddUp | src/controller/product.controller.js:58-65 | the counts in the map add up to the number of comments fetched |
| Ratings.AverageStar | src/controller/product.controller.js:105-109 | a product with no comments shows 0; otherwise average * count = sum of stars |
| Ratings.AverageWithinStarRange | src/controller/product.controller.js:106-108 | when every star is in [1, 5], so is a rated product's average |
| Ratings.AverageExample | src/controller/product.controller.js:107-108 | one example of the mean: stars 5, 3 and 4 average 4 |
| Comments.BuildOptions | src/controller/comment.controller.js:20-42 | the window is set exactly when both `page` and `limit` are given; the order is the `sort` parameter or `star`; the `where` object admits exactly the comments matching `product_id` and within `[min_star, max_star]` for the bounds given |
| Comments.ListComments | src/controller/comment.controller.js:7-61 | an unknown sort column is a 500; otherwise `total` counts the matching comments before paging, rows match the filters and are sorted, all matching rows come back unpaged, and a paged result is the window at offset `(page-1)*limit` of the sorted matching comments, at most `limit` of them, non-empty exactly when `page <= totalPages`, with `page` and `totalPages` |
| Comments.GetComments | src/controller/comment.controller.js:7-56 | building the options step by step and running the query gives `ListComments`: its count, its filters, its order and, when paged, the window at offset `(page-1)*limit` of the sorted matches |
| Comments.DefaultOrderIsStar | src/controller/comment.controller.js:25-29 | without `sort` the comments come in ascending star order |
| Comments.GetComment | src/controller/comment.controller.js:63-74 | the comment with that id, or 404 "comment not found" |
| Comments.CreateComment | src/controller/comment.controller.js:81-93 | an invalid body is a 400 and stores nothing; with no caller the NOT NULL author column makes it a 500; otherwise the new comment takes the next id, the body's fields and the caller as author |
| Comments.UpdateComment | src/controller/comment.controller.js:100-116 | validation runs before lookup (400 even for a missing id), then 404, then the body's fields replace the comment's while its id and author are kept |
| Comments.DeleteComment | src/controller/comment.controller.js:123-130 | 404 with no change for a missing id; otherwise that comment is removed and the answer is 204 |
| Comments.DeleteRemovesExactlyOne | src/controller/comment.controller.js:129 | deleting an existing id removes exactly one comment and keeps every other |
| Products.BuildOptions | src/controller/product.controller.js:21-46 | the window is set exactly when both `page` and `limit` are given, with offset `(page-1)*limit`; the order is `sort` or `price`; the `where` object admits exactly the products with that `category_id`, a name containing `name`, and a price within the inclusive bounds given |
| Products.ListProducts | src/controller/product.controller.js:8-84 | an unknown sort column is a 500; otherwise `total` counts matches before paging, rows match and are sorted, each listed product's star is the mean of its own comments or null, a paged result is the window at offset `(page-1)*limit` of the sorted matching products, non-empty exactly when `page <= totalPages`, and `page`/`totalPages` appear only when paged |
| Products.GetProducts | src/controller/product.controller.js:8-84 | the step-by-step query, the comment fetch restricted to the listed ids, and the star loop together give `ListProducts`, including its page window and each product's star |
| Products.MapGivesRatings | src/controller/product.controller.js:50-72 | tallying only the comments of the listed products attaches to each the rating all comments give it |
| Products.DefaultOrderIsPrice | src/controller/product.controller.js:26-30 | without `sort` the products come in ascending price order |
| Products.StarsOfMatchesTally | src/controller/product.controller.js:101-108 | the stars the detail averages are the ones the list's tally counts and sums |
| Products.DetailAgreesWithList | src/controller/product.controller.js:105-110 | detail and list agree on a rated product's star; an unrated product shows 0 in the detail and null in the list |
| Products.GetProduct | src/controller/product.controller.js:91-111 | 404 "product not found" for a missing id; otherwise the product, with star 0 when it has no comments and the mean of their stars when it has |
| Products.CreateProduct | src/controller/product.controller.js:118-135 | an invalid body is a 400 and stores nothing; with no caller it is a 500; a name or image over 255 characters, or a price, star or category over the INT range, is a 500 with MySQL's message for the first such column, storing nothing; then a key already taken is a 500; otherwise the stored product has the new key, the body's fields, star 0 whatever the body says, and the caller as author |
| Products.UpdateProduct | src/controller/product.controller.js:138-155 | validation before lookup, then 404, then a value its column cannot hold is a 500 with MySQL's message and no change; otherwise the body's fields replace the product's while its id and author are kept |
| Products.DeleteProduct | src/controller/product.controller.js:159-165 | 404 with no change for a missing id; otherwise that product is removed |
| Products.ColumnsOf | src/model/product.model.js:11-34 | a product fits its columns exactly when name and image have at most 255 characters and price, star and category lie in the INT range |
| Categories.BuildOptions | src/controller/category.controller.js:15-28 | the window is set exactly when both `page` and `limit` are given; the order is `sort` or `name`; `name` is a substring filter |
| Categories.ListCategories | src/controller/category.controller.js:6-42 | an unknown sort column is a 500; otherwise `total` counts matches before paging, rows match and are sorted, a paged result is the window at offset `(page-1)*limit` of the sorted matching categories, non-empty exactly when `page <= totalPages`, and `page`/`totalPages` appear only when paged |
| Categories.GetCategories | src/controller/category.controller.js:6-42 | the step-by-step query gives `ListCategories`, including its page window |
| Categories.DefaultOrderIsName | src/controller/category.controller.js:20-24 | without `sort` the categories come in ascending name order |
| Categories.UnpagedListsAll | src/controller/category.controller.js:15-18 | without `page`, and in the default order, every matching category is returned and `total` equals the number of rows |
| Categories.GetCategory | src/controller/category.controller.js:49-57 | the category with that id, or 404 "category not found" |
| Categories.ValidateUnder | src/controller/category.controller.js:4 | under the module's exported object `.validate` throws; under a schema it passes exactly on valid bodies |
| Categories.CreateCategoryWith | src/controller/category.controller.js:64-77 | with either binding: a throwing validate is a 500 and stores nothing; a rejected body is a 400; otherwise the category is stored under the next id |
| Categories.CreateCategoryAsWritten | src/controller/category.controller.js:4 | as written every create ends in the 500 branch and stores nothing |
| Categories.CreateCategory | src/controller/category.controller.js:64-77 | validating with the create schema: 400 and nothing stored on an invalid body, otherwise stored under the next id |
| Categories.UpdateCategoryWith | src/controller/category.controller.js:79-96 | with either binding: 500 on a throwing validate, 400 on a rejected body, then 404 for a missing id, then the name replaced |
| Categories.UpdateCategoryAsWritten | src/controller/category.controller.js:81 | as written every update ends in the 500 branch and changes nothing |
| Categories.UpdateCategory | src/controller/category.controller.js:79-96 | validating with the update schema: 400, then 404 with no change, then the name replaced |
| Categories.DeleteCategory | src/controller/category.controller.js:98-105 | 404 with no change for a missing id; otherwise exactly that category is removed |
| Regions.CreateRegion | src/controller/region.controller.js:4-13 | a falsy or missing name is a 400 and creates nothing; an array or object name, or one whose text is over 255 characters, is a 500 that creates nothing; any other name is stored under the next id as the column's text for it (a number as its decimal text, `true` as "1") |
| Regions.ColumnText | src/model/region.model.js:10-13 | the text MySQL converts a value to for the VARCHAR column: a string as it is, a boolean as "1" or "0", a number as its decimal text; arrays, objects and null have none |
| Regions.StoredName | src/model/region.model.js:10-13 | a name is stored exactly when it has a column text of at most 255 characters, and then as that text |
| Regions.StringNameStored | src/model/region.model.js:10-13 | a string name is stored as sent when it has at most 255 characters, and refused when longer |
| Regions.ScalarNamesAreStored | src/controller/region.controller.js:9 | examples: a string, `true` and a number are stored; an object is not |
| Regions.ListRegions | src/controller/region.controller.js:17-33 | page (default 1) of limit (default 10) regions, filtered by `id` only when given; `total` is the count before paging and `totalPages = ceil(total/limit)` is always present |
| Regions.GetAllRegions | src/controller/region.controller.js:17-33 | applying the defaults and running the query gives `ListRegions` |
| Regions.IdFilterAtMostOne | src/controller/region.controller.js:20 | filtering by `id` finds at most one region |
| Regions.DefaultPaging | src/controller/region.controller.js:19 | one example of the defaults: 25 regions make three pages and the first holds the first ten |
| Regions.UpdateRegion | src/controller/region.controller.js:40-51 | 404 and no change for a missing id; a truthy array or object name, or one whose text is over 255 characters, is a 500 with no change; otherwise the name is the column's text for the body's name when truthy, and the old name when not |
| Regions.FalsyNameKeepsRegion | src/controller/region.controller.js:48 | an update with a falsy name leaves the table as it was |
| Regions.DeleteRegion | src/controller/region.controller.js:58-65 | 404 with no change for a missing id; otherwise exactly that region is removed |
| RoleGuard.Split | src/rolemiddleware/roleAuth.js:6 | `split(" ")` gives at least one part and no part contains a space |
| RoleGuard.JoinSplit | src/rolemiddleware/roleAuth.js:6 | splitting loses nothing: joining the parts with spaces gives the header back |
| RoleGuard.BearerToken | src/rolemiddleware/roleAuth.js:6-10 | the token is the header's second space-separated part; an absent header, a missing or an empty second part means no token |
| RoleGuard.BearerOfToken | src/rolemiddleware/roleAuth.js:6 | "Bearer " followed by a space-free token yields that token |
| RoleGuard.Decide | src/rolemiddleware/roleAuth.js:4-26 | no token; token fails verification; verified but role not listed; or allowed with the payload, each exactly in its case |
| RoleGuard.Guard | src/rolemiddleware/roleAuth.js:4-26 | 400 with no token, 401 "Invalid token" on a failed verification, 401 "Not allowed" on an unlisted role, the request untouched in all three; on success `userId`/`userRole` are the payload's and `next` runs once |
| RoleGuard.RolelessTokenRefused | src/rolemiddleware/roleAuth.js:14 | a payload without a role is refused by every allow-list |
| RoleGuard.MissingTokenExamples | src/rolemiddleware/roleAuth.js:6-10 | three examples: no header, "Bearer" and "Bearer " all mean no token |
| OrderRoutes.AllowLists | src/route/order.route.js:56-197 | create and delete admit admin, seller and user; list admits admin only; get by id has no guard; update admits admin, seller and superadmin |
| OrderRoutes.ReachByRole | src/route/order.route.js:56-197 | an admin reaches every route; a superadmin reaches only get-by-id and update; a user reaches all but list and update |
| OrderRoutes.GuardMatchesAllowList | src/route/order.route.js:56-197 | on a guarded route a verified token passes exactly when its role is on that route's list |
| Users.Payload | src/controller/user-auth.controller.js:13-28 | the token payload is `{id, role}` of the object given; a string has neither, `undefined` throws |
| Users.GenToken | src/controller/user-auth.controller.js:13-20 | an access token carries that payload under the access key |
| Users.GenRefreshToken | src/controller/user-auth.controller.js:22-28 | a refresh token carries that payload under the refresh key |
| Users.TokensOfUser | src/controller/user-auth.controller.js:13-28 | both tokens of a user carry exactly its id and role, under different keys |
| Users.NewUser | src/controller/user-auth.controller.js:60-68 | the stored row has the new key, the body's name, year, phone, email, region, image and role, and the hash of the supplied password |
| Users.RegisteredRoleIsTokenRole | src/controller/user-auth.controller.js:13-28 | the role a registering client sends is the role both tokens of the new user carry |
| Users.RegisterWith | src/controller/user-auth.controller.js:31-75 | with either binding of the schema name: 500 when unbound; 400 on an invalid body; then email, phone and name uniqueness in that order (400 each); then 404 for an unknown region; then a value its column cannot hold (a text over 255 characters, such as a long image URI, or a region over the INT range) is a 500 with MySQL's message; the first failure decides and stores nothing; otherwise one row with the hashed password |
| Users.RegisterAsWritten | src/controller/user-auth.controller.js:5 | as written every registration is a 500 and stores nothing |
| Users.Register | src/controller/user-auth.controller.js:31-75 | with the schema imported: the checks in order, then the column limits, each failure storing nothing, then one new row whose password is the hash |
| Users.RegisteredFieldsAreFresh | src/controller/user-auth.controller.js:40-53 | a registered row's email, phone and name differ from those of every existing user |
| Users.Login | src/controller/user-auth.controller.js:78-97 | an empty name or password is a 400 before any lookup; an unknown name is "user not found"; a wrong password is "Invalid password"; neither returns a token; otherwise the access and refresh tokens of that user |
| Users.LoginTokenPassesGuard | src/controller/user-auth.controller.js:94-97 | a login access token passes a role guard exactly when the user's role is listed |
| Users.SendOtp | src/controller/user-auth.controller.js:105-124 | a registered email is a 409 before the phone is checked; a registered phone is a 409; otherwise the answer carries the code for `email + secret` |
| Users.VerifyOtp | src/controller/user-auth.controller.js:131-142 | a registered email is a 409 without evaluating the code; otherwise the answer is whether the code checks |
| Users.SentCodeVerifies | src/controller/user-auth.controller.js:105-142 | `sendOtp` then `verify` on the same table: the code is sent exactly when neither the email nor the phone is registered, and `verify` then accepts the code from the answer, provided the checker accepts every code the generator makes |
| Users.RefreshAsWritten | src/controller/user-auth.controller.js:177-191 | no token is a 400; a token that fails verification answers "Invalid refresh token" with status 200; otherwise the new token has neither id nor role |
| Users.Refresh | src/controller/user-auth.controller.js:177-191 | signing with the verified payload: the new access token carries the refresh token's id and role |
| Users.AsWrittenRefreshedTokenIsRefused | src/controller/user-auth.controller.js:184 | as written, a refreshed token is refused by every role guard |
| Users.RefreshedTokenKeepsAccess | src/controller/user-auth.controller.js:184 | corrected, a refreshed token passes exactly the guards whose list holds the refresh token's role |
| Users.GetUserById | src/controller/user-auth.controller.js:163-169 | the user with that key, or 404 "User not found" |
| Users.Edited | src/controller/user-auth.controller.js:204 | `user.update(body)` keeps the key and sets every column from the body: name, year, phone, email, region, image, role, and the password as sent |
| Users.UpdateUserWith | src/controller/user-auth.controller.js:194-208 | with either binding: 500 when unbound, 400 on an invalid body, then 404 for a missing key, then a value its column cannot hold is a 500 with MySQL's message and no change; otherwise the body's columns replace the row's |
| Users.UpdateUserAsWritten | src/controller/user-auth.controller.js:196 | as written every update is a 500 and changes nothing |
| Users.UpdateUser | src/controller/user-auth.controller.js:194-208 | with the schema imported: 400, then 404 with no change, then a 500 with no change for a value its column cannot hold, otherwise the row replaced |
| Users.UpdateStoresPlainPassword | src/controller/user-auth.controller.js:204 | unlike registration, an update stores the plain password rather than its hash |
| Users.DeleteUser | src/controller/user-auth.controller.js:212-219 | 404 with no change for a missing key; otherwise exactly that user is removed |
| Users.ColumnsOf | src/model/user.model.js:10-41 | a user fits its columns exactly when name, phone, email, password and image have at most 255 characters and year and region lie in the INT range |
| Orders.NewItems | src/controller/order.controller.js:18-24 | one stored item per input element, in input order, each under the order's id, numbered upwards from the next item id |
| Orders.Records | src/controller/order.controller.js:18-22 | the echoed `orderItems` hold one record per element, in order, with the order's id and the element's product and count |
| Orders.CreateOrder | src/controller/order.controller.js:7-30 | 400 with no caller and 404 for an unknown caller, storing nothing; otherwise one order owned by the caller, then its items appended; an `items` that is missing, not an array or lacks a product is a 500 that leaves the order without items |
| Orders.ListOrders | src/controller/order.controller.js:33-60 | page (default 1) of limit (default 10) orders, filtered by `user_id` only when given, with `total` before paging, `page`, and no `totalPages` |
| Orders.GetAllOrders | src/controller/order.controller.js:33-60 | applying the defaults and running the query gives `ListOrders` |
| Orders.GetOrderById | src/controller/order.controller.js:68-74 | 404 "Order not found", or the order with exactly its items |
| Orders.MyOrders | src/controller/order.controller.js:88-94 | exactly the caller's orders, each as often as stored, newest `createdAt` first |
| Orders.GetMyOrders | src/controller/order.controller.js:81-96 | 400 with no caller, otherwise the caller's orders newest first |
| Orders.MyOrdersComplete | src/controller/order.controller.js:88-90 | every order of the caller appears in the answer |
| Orders.UpdateOrder | src/controller/order.controller.js:104-124 | 404 and no change for a missing order; no change when `items` is not an array; otherwise the order's old items are deleted, other orders' items kept, and the new ones appended; an element without a product is a 500 after the deletion |
| Orders.ReplacementIsExact | src/controller/order.controller.js:112-122 | after the replacement the order holds exactly the new items, in request order, and every other order holds what it held |
| Orders.DeleteOrder | src/controller/order.controller.js:132-141 | 404 and no change for a missing order; otherwise the order's items, then the order itself, are removed |
| Orders.DeletionIsExact | src/controller/order.controller.js:138-139 | after deletion no item of the order is left and every other order keeps its items |
| Orders.FilterKeepsUnique | src/controller/order.controller.js:113 | deleting a set of items keeps item keys unique |
| Orders.AppendNumberedUnique | src/controller/order.controller.js:24 | bulk-inserting freshly numbered items keeps item keys unique |
| ColumnLimits.FirstRefusal | src/controller/product.controller.js:132-135 | no refusal exactly when every value fits its column; otherwise MySQL's message for the first column, in the statement's order, whose value does not fit, every earlier one fitting |
| ColumnLimits.LimitExamples | src/model/product.model.js:11-34 | examples: 255 characters fit a VARCHAR and 256 do not; 2147483647 fits an INT and 3000000000 does not, and a statement with such a price reports the price column |

## Left out

- Express wiring, Swagger comments, and the routers other than the order router's allow-lists are not modelled. `getMyOrders` is not attached to any route of src/route/order.route.js.
- Foreign keys and cascades are enforced by the database and are not modelled. Examples: a comment's product, a user's region on update, an order item's product.
- Column limits are modelled for products, users and regions. The category name and the comment message are bounded by their schemas, below their columns' limits. The UUID columns for a comment's product and an order item's product take values from the body; a value longer than CHAR(36) fails there as well, like a missing foreign key, which is not modelled.
- Products.UpdateProduct: when several values overflow, MySQL names the first column of the UPDATE, which follows the order of the body's keys; the model names the first in table order.
- Users.UpdateUserWith: the same: with several overflowing values the model names the first column in table order, not in the order of the body's keys.
- Users.UpdateUser: the same choice of column in the message.
- Joins (`include`) are not modelled. Lists return the table's own columns, and so does `getOrderById` apart from its items. The count inflation that `hasMany` includes can cause is left out too.
- `LIKE '%name%'` is plain substring containment. MySQL collation, case folding and the `%`/`_` wildcards inside the parameter are not modelled.
- Ties between equal sort keys keep table order, which MySQL does not promise. The queries without any ORDER BY (`Regions.ListRegions`, `Orders.ListOrders` and the items of `Orders.GetOrderById`) also come back in table order, which MySQL does not promise either.
- String columns are ordered by code point, while MySQL's default collation orders them case-insensitively. Column names in `sort` must match exactly, while MySQL matches them case-insensitively. The members this affects are listed below.
- Categories.ListCategories: given the categories "apple" and "Banana", the program returns apple first and the model returns Banana first. `?sort=NAME` sorts by name and answers 200 in the program, but is an unknown column and a 500 in the model.
- Categories.DefaultOrderIsName: "ascending name order" is code-point order ("Banana" before "apple"), not the case-insensitive order of MySQL's collation in which the program returns the categories.
- Comments.ListComments: `?sort=STAR` sorts by star and answers 200 in the program, but is a 500 in the model. Sorting by the `message` column follows code points ("Zo'r" before "ajoyib"), not the case-insensitive collation.
- Products.ListProducts: sorting by `name`, `description` or `image` follows code points ("Banana" before "apple"), not the case-insensitive collation. `?sort=NAME` answers 200 in the program and is a 500 in the model.
- Every table has Sequelize's `createdAt` and `updatedAt` columns. Only the orders' `createdAt` is modelled; the other timestamps are not.
- Comments.ListComments: sorting by `createdAt` or `updatedAt` answers 500 in the model (an unknown column), while the program sorts by the timestamp and answers 200.
- Products.ListProducts: sorting by `createdAt` or `updatedAt` answers 500 in the model (an unknown column), while the program sorts by the timestamp and answers 200.
- Categories.ListCategories: sorting by `createdAt` or `updatedAt` answers 500 in the model (an unknown column), while the program sorts by the timestamp and answers 200.
- String lengths in the schemas are counted in code points, while Joi's `min` and `max` count UTF-16 code units, so a name of two characters outside the Basic Multilingual Plane passes `min(3)` in the program and fails in the model.
- JSON numbers are exact rationals, so integers beyond 2^53 pass the model, while `Joi.number()` refuses unsafe integers. This affects `price`, `star`, `year`, `region_id` and `category_id`.
- Users.RegisterWith: the uniqueness checks compare email, phone and name exactly, while MySQL's default collation compares them case-insensitively, so "Ali" and "ali" clash in the program but not in the model.
- Users.Register: the same exact comparison stands in for the case-insensitive one in the uniqueness checks.
- Users.Login: the name lookup compares exactly, while MySQL's default collation matches names case-insensitively. The row found is the first with that name in table order, while `findOne` without ORDER BY promises no particular row; duplicate names can arise only through `Users.UpdateUser`, which checks no uniqueness.
- Users.SendOtp: the lookups by email and by phone compare exactly, while MySQL's default collation matches them case-insensitively, so with "ali@x.com" registered a code sent to "ALI@x.com" is a 409 in the program and a 200 in the model.
- Users.VerifyOtp: the email lookup compares exactly, while MySQL's default collation matches it case-insensitively.
- Regions.CreateRegion: the response shows the region as stored, with a number or boolean name as its text, while the program echoes the value as sent.
- Regions.UpdateRegion: the response shows the stored text of a number or boolean name, while the program echoes the value as sent.
- Query parameters are assumed numeric where the code calls `parseInt`, with `page` and `limit` at least 1. JavaScript coercion of strings in `Math.ceil` is not modelled.
- Products.ListProducts: `toFixed(1)` is not modelled; the star is the exact rational mean.
- Products.GetProduct: `toFixed(1)` is not modelled; the star is the exact rational mean.
- The message of a Joi rejection is one constant. Which rule Joi reports first is not modelled. The email, URI and UUID formats are abstract predicates.
- bcrypt, `jwt.sign`/`jwt.verify`, token expiry, otplib with `step: 1000`, and the hard-coded secret verifying refresh tokens are parameters. The e-mail and SMS dispatch of `sendOtp` is I/O and is left out.
- `getUsers` is not modelled. It is a plain `findAll` with a join.
- Catch blocks that reference an undefined `err` are not modelled. In `login`, `sendOtp` and `verify` such a block throws again instead of answering. The model covers only the paths that end in a response.
- Users.Login: `name` and `password` are taken as strings. Bodies with other JSON types there are not modelled.
- Users.SendOtp: `email` and `phone` are taken as strings. An absent field, and the error Sequelize raises for it, are not modelled.
- Users.VerifyOtp: `email` and `otp` are taken as strings.
- Users.RefreshAsWritten: `refresh_token` is taken as a string. A payload whose `id` is an object is not modelled.
- Orders.CreateOrder: the elements of `items` are taken as objects. A `null` `items`, or a `null` element, throws a TypeError with a different message, which is not modelled. A NULL `product_id` is assumed to refuse the whole multi-row insert, as MySQL does in strict mode.
- Orders.UpdateOrder: the elements of `items` are taken as objects. A `null` element throws a TypeError after the old items have been deleted, which is not modelled.
- Orders.CreateOrder: a failed multi-row insert keeps the next item id, while InnoDB may use up AUTO_INCREMENT values in a failed statement, so later item ids can skip numbers in the program.
- Orders.UpdateOrder: the same; after a failed insert the next item id is kept, while InnoDB may have used up ids.
- The `count` of an order item has no column, so it is not stored. It appears only in the echoed `orderItems` of a create.
- Generated UUID keys are parameters. A collision is modelled as the database's duplicate-key error (500).
- `getRegionById` is imported by the region router but never defined, and is not modelled.
- Concurrency and transactions: each handler is one sequential step.

## Findings

| source | as written | input that shows it | evidently intended | confidence | as-written member | corrected member |
|---|---|---|---|---|---|---|
| src/controller/category.controller.js:4 | binds the module's exported object `{ categoryValidationSchema, categoryUpdateSchema }`, so `.validate` at line 66 is not a function | `createCategory` with body `{"name": "Books"}` (POST "/" of the category router) answers 500 and stores nothing | bind `categoryValidationSchema` and validate new categories with it | not executed | Categories.CreateCategoryAsWritten | Categories.CreateCategory |
| src/controller/category.controller.js:81 | the same binding makes every update end in the 500 branch | `updateCategory` with `params.id` 1 and body `{"name": "Books"}` (PUT "/:id" of the category router) answers 500 and changes nothing | validate updates with `categoryUpdateSchema` | not executed | Categories.UpdateCategoryAsWritten | Categories.UpdateCategory |
| src/controller/user-auth.controller.js:5 | the `require` of `userValidationSchema` is commented out, so line 33 throws a ReferenceError | any registration, e.g. a body that satisfies every rule of the schema, answers 500 and stores nothing | import the schema, so that registration runs its checks | not executed | Users.RegisterAsWritten | Users.Register |
| src/controller/user-auth.controller.js:196 | the same missing import makes every user update a 500 | `updateUser` with the `params.id` of a stored user and a valid body (PATCH "/:id" of the user router) answers 500 and changes nothing | validate updates with the imported schema | not executed | Users.UpdateUserAsWritten | Users.UpdateUser |
| src/controller/user-auth.controller.js:184 | `genToken(data.id)` is given the id string, and reading `.id` and `.role` off a string gives `undefined` | a refresh token whose payload is `{id: "u1", role: "admin"}` yields an access token with neither claim, which every role guard refuses | `genToken(data)`, a token with the refresh token's id and role | not executed | Users.AsWrittenRefreshedTokenIsRefused | Users.RefreshedTokenKeepsAccess |
